/** Saving tool switches in the background (app/ui/src/tool_panel.rs and the worker loop in
    app/web/src/views/tools.rs). Toggles and workers run at the same time; what they share is one
    three-valued state, changed only by the two transitions below. Here every interleaving of their
    steps is a run. */
module PersistState {

  datatype PersistState = Idle | Running | Pending

  function PersistOnToggle(s: PersistState): PersistState {
    match s
    case Idle => Running
    case _ => Pending
  }

  function PersistOnRoundDone(s: PersistState): PersistState {
    match s
    case Pending => Running
    case _ => Idle
  }

  /** Where a worker is in a round. A worker that holds a snapshot also holds the save lock. */
  datatype Phase = Ready | Holding(snapshot: nat) | Stored(ok: bool) | Settling | Crashed | Recovering

  datatype Worker = Worker(phase: Phase, panics: nat)

  /** `memory` and `saved` stand for the contents of the switches, numbered by how often they changed.
      `changed` toggles have changed memory and not yet made their transition; `spawning` toggles have
      made it from idle and not yet started their worker. */
  datatype System = System(
    state: PersistState,
    memory: nat,
    saved: nat,
    banner: bool,
    changed: nat,
    spawning: nat,
    workers: seq<Worker>,
    toggles: nat,    // transitions made by toggles
    rounds: nat      // saves begun
  )

  datatype Action =
    | Change(differs: bool)
    | Toggle
    | Spawn
    | Snapshot(worker: nat)
    | Refuse(worker: nat)
    | Save(worker: nat, ok: bool)
    | Report(worker: nat)
    | Settle(worker: nat)
    | Panic(worker: nat)
    | Retry(worker: nat)
    | Recover(worker: nat)

  const START := System(Idle, 0, 0, false, 0, 0, [], 0, 0)

  predicate Has(s: System, i: nat, phase: Phase) {
    i < |s.workers| && s.workers[i].phase == phase
  }

  predicate LockFree(s: System) {
    forall i | 0 <= i < |s.workers| :: !s.workers[i].phase.Holding?
  }

  predicate Can(s: System, a: Action) {
    match a
    case Change(_) => true
    case Toggle => s.changed > 0
    case Spawn => s.spawning > 0
    case Snapshot(i) => Has(s, i, Ready) && LockFree(s)
    case Refuse(i) => Has(s, i, Ready)
    case Save(i, _) => i < |s.workers| && s.workers[i].phase.Holding?
    case Report(i) => i < |s.workers| && s.workers[i].phase.Stored?
    case Settle(i) => Has(s, i, Settling)
    case Panic(i) => i < |s.workers| && (s.workers[i].phase.Ready? || s.workers[i].phase.Holding?)
    case Retry(i) => Has(s, i, Crashed)
    case Recover(i) => Has(s, i, Recovering)
  }

  function At(s: System, i: nat, phase: Phase): System
    requires i < |s.workers|
  {
    s.(workers := s.workers[i := s.workers[i].(phase := phase)])
  }

  function Without(s: System, i: nat): System
    requires i < |s.workers|
  {
    s.(workers := s.workers[..i] + s.workers[i + 1..])
  }

  /** One step. A round is: snapshot, save, report to the banner, settle. */
  function Do(s: System, a: Action): System
    requires Can(s, a)
  {
    match a
    case Change(differs) => s.(memory := if differs then s.memory + 1 else s.memory, changed := s.changed + 1)
    case Toggle =>
      s.(state := PersistOnToggle(s.state), changed := s.changed - 1, toggles := s.toggles + 1,
         spawning := if s.state.Idle? then s.spawning + 1 else s.spawning)
    case Spawn => s.(spawning := s.spawning - 1, workers := s.workers + [Worker(Ready, 0)])
    case Snapshot(i) => At(s, i, Holding(s.memory)).(rounds := s.rounds + 1)
    case Refuse(i) => At(s, i, Stored(false)).(rounds := s.rounds + 1)
    case Save(i, ok) => At(s, i, Stored(ok)).(saved := if ok then s.workers[i].phase.snapshot else s.saved)
    case Report(i) => At(s, i, Settling).(banner := !s.workers[i].phase.ok)
    case Settle(i) =>
      (if s.state.Pending? then At(s, i, Ready) else Without(s, i)).(state := PersistOnRoundDone(s.state))
    case Panic(i) => At(s, i, Crashed).(banner := true)
    case Retry(i) =>
      var w := s.workers[i];
      if w.panics > 0 then At(s, i, Recovering)
      else
        var next := if s.state.Pending? then Ready else Recovering;
        s.(state := PersistOnRoundDone(s.state), workers := s.workers[i := Worker(next, 1)])
    case Recover(i) =>
      var w := s.workers[i];
      (if s.state.Pending? && w.panics < 2 then s.(workers := s.workers[i := Worker(Ready, w.panics + 1)]) else Without(s, i))
        .(state := Idle)
  }

  predicate Panics(a: Action) {
    a.Panic?
  }

  predicate IsRun(s: System, actions: seq<Action>)
    decreases |actions|
  {
    actions == [] || (Can(s, actions[0]) && IsRun(Do(s, actions[0]), actions[1..]))
  }

  function Run(s: System, actions: seq<Action>): System
    requires IsRun(s, actions)
    decreases |actions|
  {
    if actions == [] then s else Run(Do(s, actions[0]), actions[1..])
  }

  // ---------- One worker ----------

  /** Workers started or about to be. */
  function Alive(s: System): nat {
    |s.workers| + s.spawning
  }

  /** A toggle that finds the state idle although a worker is alive will start a second one. */
  predicate Collides(s: System, a: Action) {
    a.Toggle? && s.state.Idle? && Alive(s) > 0
  }

  /** In every state of the run, at most one worker. */
  ghost predicate OneAtATime(s: System, actions: seq<Action>)
    requires IsRun(s, actions)
    decreases |actions|
  {
    Alive(s) <= 1 && (actions == [] || OneAtATime(Do(s, actions[0]), actions[1..]))
  }

  /** No toggle of the run meets a living worker at idle. */
  ghost predicate NoCollision(s: System, actions: seq<Action>)
    requires IsRun(s, actions)
    decreases |actions|
  {
    actions == [] || (!Collides(s, actions[0]) && NoCollision(Do(s, actions[0]), actions[1..]))
  }

  lemma OneMoreOnlyByCollision(s: System, a: Action)
    requires Can(s, a) && Alive(s) <= 1
    ensures Alive(Do(s, a)) <= 1 <==> !Collides(s, a)
  {
  }

  /** In any run, panics included, there is at most one worker all along exactly when no toggle finds the
      state idle while a worker is alive. */
  lemma {:induction false} OneWorkerExactly(s: System, actions: seq<Action>)
    requires IsRun(s, actions) && Alive(s) <= 1
    ensures OneAtATime(s, actions) <==> NoCollision(s, actions)
    decreases |actions|
  {
    if actions != [] {
      var next := Do(s, actions[0]);
      OneMoreOnlyByCollision(s, actions[0]);
      if Alive(next) <= 1 { OneWorkerExactly(next, actions[1..]); }
    }
  }

  // ---------- What every run without such a collision keeps ----------

  /** The worker's round will end with the latest switches saved, or with the banner up. */
  ghost predicate Covers(s: System, phase: Phase) {
    match phase
    case Ready => true
    case Holding(snapshot) => snapshot == s.memory
    case Stored(ok) => ok ==> s.saved == s.memory
    case Settling => s.saved == s.memory || s.banner
    case Crashed => true
    case Recovering => true
  }

  /** With no toggle in mid-step and nothing pending, a round is up to date; and without a worker, idle
      means saved. */
  ghost predicate NothingLost(s: System) {
    s.changed == 0 && !s.state.Pending? ==>
      if |s.workers| > 0 then Covers(s, s.workers[0].phase)
      else s.spawning > 0 || s.saved == s.memory || s.banner
  }

  /** A worker that has panicked keeps the banner up while it recovers. */
  ghost predicate PanicShown(s: System) {
    |s.workers| > 0 && (s.workers[0].phase.Crashed? || s.workers[0].phase.Recovering?) ==> s.banner
  }

  /** Toggles are coalesced: each round begun, due or pending has a toggle of its own. */
  ghost predicate RoundsPaid(s: System) {
    var due := if |s.workers| > 0 && s.workers[0].phase.Ready? then 1 else 0;
    s.rounds + due + s.spawning + (if s.state.Pending? then 1 else 0) <= s.toggles
  }

  ghost predicate Safe(s: System) {
    && Alive(s) <= 1 && (s.state.Idle? ==> s.spawning == 0) && (Alive(s) == 0 ==> s.state.Idle?)
    && NothingLost(s) && PanicShown(s) && RoundsPaid(s)
  }

  lemma StepKeepsSafe(s: System, a: Action)
    requires Safe(s) && Can(s, a) && !Collides(s, a)
    ensures Safe(Do(s, a))
  {
  }

  lemma {:induction false} RunKeepsSafe(s: System, actions: seq<Action>)
    requires Safe(s) && IsRun(s, actions) && NoCollision(s, actions)
    ensures Safe(Run(s, actions))
    decreases |actions|
  {
    if actions != [] {
      StepKeepsSafe(s, actions[0]);
      RunKeepsSafe(Do(s, actions[0]), actions[1..]);
    }
  }

  /** Panics or not: where no toggle met a living worker at idle, a run that rests, idle, with no worker and
      no toggle in mid-step, has saved the latest switches or shows the banner; and it has not saved more
      often than there were toggles. */
  lemma RestIsSaved(actions: seq<Action>)
    requires IsRun(START, actions) && NoCollision(START, actions)
    ensures var s := Run(START, actions);
            && (s.state.Idle? && s.workers == [] && s.changed == 0 ==> s.saved == s.memory || s.banner)
            && (s.state.Idle? ==> s.spawning == 0) && s.rounds <= s.toggles
  {
    RunKeepsSafe(START, actions);
  }

  // ---------- Without a panic there is no collision ----------

  ghost predicate Calm(s: System) {
    && Alive(s) == (if s.state.Idle? then 0 else 1)
    && forall i | 0 <= i < |s.workers| :: !s.workers[i].phase.Crashed? && !s.workers[i].phase.Recovering?
  }

  lemma {:induction false} CalmRun(s: System, actions: seq<Action>)
    requires Calm(s) && IsRun(s, actions) && forall a | a in actions :: !Panics(a)
    ensures NoCollision(s, actions) && Calm(Run(s, actions))
    decreases |actions|
  {
    if actions != [] {
      CalmStep(s, actions[0]);
      CalmRun(Do(s, actions[0]), actions[1..]);
    }
  }

  lemma CalmStep(s: System, a: Action)
    requires Calm(s) && Can(s, a) && !Panics(a)
    ensures Calm(Do(s, a))
  {
  }

  /** So after any run without a panic there is at most one worker, and none when idle; and when idle with no
      toggle in mid-step, what is saved is the latest, or the banner says it is not. */
  lemma NoToggleLost(actions: seq<Action>)
    requires IsRun(START, actions) && forall a | a in actions :: !Panics(a)
    ensures var s := Run(START, actions);
            && |s.workers| <= 1 && (s.state.Idle? ==> s.workers == [] && s.spawning == 0)
            && (s.state.Idle? && s.changed == 0 ==> s.saved == s.memory || s.banner)
            && s.rounds <= s.toggles
  {
    CalmRun(START, actions);
    RestIsSaved(actions);
  }

  // ---------- What a panic breaks ----------

  function PanicCount(actions: seq<Action>): nat {
    if actions == [] then 0 else PanicCount(actions[..|actions| - 1]) + if Panics(actions[|actions| - 1]) then 1 else 0
  }

  /** Some run with so many panics comes to this. */
  ghost predicate Reachable(panics: nat, s: System) {
    exists actions :: IsRun(START, actions) && Run(START, actions) == s && PanicCount(actions) == panics
  }

  lemma {:induction false} RunSnoc(s: System, done: seq<Action>, a: Action)
    requires IsRun(s, done) && Can(Run(s, done), a)
    ensures IsRun(s, done + [a]) && Run(s, done + [a]) == Do(Run(s, done), a)
    decreases |done|
  {
    if done == [] {
      assert (done + [a])[1..] == [];
    } else {
      assert (done + [a])[1..] == done[1..] + [a];
      RunSnoc(Do(s, done[0]), done[1..], a);
    }
  }

  lemma More(panics: nat, now: System, a: Action) returns (next: System)
    requires Reachable(panics, now) && Can(now, a)
    ensures next == Do(now, a) && Reachable(if Panics(a) then panics + 1 else panics, next)
  {
    next := Do(now, a);
    var done :| IsRun(START, done) && Run(START, done) == now && PanicCount(done) == panics;
    RunSnoc(START, done, a);
    assert (done + [a])[..|done|] == done;
  }

  /** A toggle at idle, from changing memory to starting a worker. */
  lemma ToggleAndSpawn(panics: nat, now: System) returns (next: System)
    requires Reachable(panics, now) && now.state.Idle? && now.changed == now.spawning == 0
    ensures Reachable(panics, next)
    ensures next == now.(state := Running, memory := now.memory + 1, toggles := now.toggles + 1,
                         workers := now.workers + [Worker(Ready, 0)])
  {
    next := More(panics, now, Change(true));
    next := More(panics, next, Toggle);
    next := More(panics, next, Spawn);
  }

  /** A worker that is alone in the lock takes a snapshot and saves it, or fails to. */
  lemma SnapshotAndSave(panics: nat, now: System, i: nat, ok: bool) returns (next: System)
    requires Reachable(panics, now) && Can(now, Snapshot(i))
    ensures Reachable(panics, next)
    ensures next == now.(workers := now.workers[i := Worker(Stored(ok), now.workers[i].panics)], rounds := now.rounds + 1,
                         saved := if ok then now.memory else now.saved)
  {
    next := More(panics, now, Snapshot(i));
    next := More(panics, next, Save(i, ok));
    assert next.workers == now.workers[i := Worker(Stored(ok), now.workers[i].panics)];
  }

  lemma ReportAndSettle(panics: nat, now: System, i: nat) returns (next: System)
    requires Reachable(panics, now) && Can(now, Report(i)) && !now.state.Pending?
    ensures Reachable(panics, next)
    ensures next == Without(now, i).(banner := !now.workers[i].phase.ok, state := Idle)
  {
    next := More(panics, now, Report(i));
    next := More(panics, next, Settle(i));
    assert next.workers == Without(now, i).workers;
  }

  /** A worker that has panicked still lives while it recovers, though the state is idle: a toggle then
      starts a second one. */
  lemma PanicAllowsTwoWorkers()
    ensures Reachable(1, System(Running, 2, 0, true, 0, 0, [Worker(Recovering, 1), Worker(Ready, 0)], 2, 0))
  {
    assert IsRun(START, []) && Run(START, []) == START && PanicCount([]) == 0;
    var now := ToggleAndSpawn(0, START);
    assert now.workers == [Worker(Ready, 0)];
    now := More(0, now, Panic(0));
    now := More(1, now, Retry(0));
    assert now == System(Idle, 1, 0, true, 0, 0, [Worker(Recovering, 1)], 1, 0);
    now := ToggleAndSpawn(1, now);
    assert now == System(Running, 2, 0, true, 0, 0, [Worker(Recovering, 1), Worker(Ready, 0)], 2, 0);
  }

  /** Both workers have saved, the later one in vain, and neither has reported. */
  lemma PanicAllowsTwoReports()
    ensures Reachable(1, System(Running, 3, 2, true, 0, 0, [Worker(Stored(true), 0), Worker(Stored(false), 0)], 3, 2))
  {
    PanicAllowsTwoWorkers();
    var now := System(Running, 2, 0, true, 0, 0, [Worker(Recovering, 1), Worker(Ready, 0)], 2, 0);
    now := More(1, now, Recover(0));
    assert now == System(Idle, 2, 0, true, 0, 0, [Worker(Ready, 0)], 2, 0);
    now := SnapshotAndSave(1, now, 0, true);
    assert now == System(Idle, 2, 2, true, 0, 0, [Worker(Stored(true), 0)], 2, 1);
    now := ToggleAndSpawn(1, now);
    assert now == System(Running, 3, 2, true, 0, 0, [Worker(Stored(true), 0), Worker(Ready, 0)], 3, 1);
    now := SnapshotAndSave(1, now, 1, false);
    assert now == System(Running, 3, 2, true, 0, 0, [Worker(Stored(true), 0), Worker(Stored(false), 0)], 3, 2);
  }

  /** The first worker's successful report can then hide that a later save failed: everything is at rest,
      the last toggle is not saved, and no banner is up. */
  lemma PanicCanLoseAToggle()
    ensures Reachable(1, System(Idle, 3, 2, false, 0, 0, [], 3, 2))
  {
    PanicAllowsTwoReports();
    var now := System(Running, 3, 2, true, 0, 0, [Worker(Stored(true), 0), Worker(Stored(false), 0)], 3, 2);
    now := ReportAndSettle(1, now, 1);
    assert now == System(Idle, 3, 2, true, 0, 0, [Worker(Stored(true), 0)], 3, 2);
    now := ReportAndSettle(1, now, 0);
    assert now == System(Idle, 3, 2, false, 0, 0, [], 3, 2);
  }

  /** At rest, what is saved is the latest, or the banner says it is not. */
  predicate SavedAtRest(s: System) {
    s.state.Idle? && s.workers == [] && s.changed == 0 ==> s.saved == s.memory || s.banner
  }

  lemma {:induction false} NoneCounted(actions: seq<Action>)
    requires PanicCount(actions) == 0
    ensures forall a | a in actions :: !Panics(a)
    decreases |actions|
  {
    if actions != [] {
      var front, last := actions[..|actions| - 1], actions[|actions| - 1];
      NoneCounted(front);
      assert actions == front + [last];
    }
  }

  /** Every run with at most `k` panics has all its switches saved at rest, or the banner up, exactly when
      `k` is 0. */
  lemma SavedExactlyWithoutPanic(k: nat)
    ensures (forall actions | IsRun(START, actions) && PanicCount(actions) <= k :: SavedAtRest(Run(START, actions))) <==> k == 0
  {
    if k == 0 {
      forall actions | IsRun(START, actions) && PanicCount(actions) <= k ensures SavedAtRest(Run(START, actions)) {
        NoneCounted(actions);
        NoToggleLost(actions);
      }
    } else {
      PanicCanLoseAToggle();
      var lost := System(Idle, 3, 2, false, 0, 0, [], 3, 2);
      var actions :| IsRun(START, actions) && Run(START, actions) == lost && PanicCount(actions) == 1;
      assert !SavedAtRest(Run(START, actions));
    }
  }

  /** And has at most one worker exactly then. */
  lemma OneWorkerExactlyWithoutPanic(k: nat)
    ensures (forall actions | IsRun(START, actions) && PanicCount(actions) <= k :: Alive(Run(START, actions)) <= 1) <==> k == 0
  {
    if k == 0 {
      forall actions | IsRun(START, actions) && PanicCount(actions) <= k ensures Alive(Run(START, actions)) <= 1 {
        NoneCounted(actions);
        CalmRun(START, actions);
      }
    } else {
      PanicAllowsTwoWorkers();
      var two := System(Running, 2, 0, true, 0, 0, [Worker(Recovering, 1), Worker(Ready, 0)], 2, 0);
      var actions :| IsRun(START, actions) && Run(START, actions) == two && PanicCount(actions) == 1;
      assert Alive(Run(START, actions)) == 2;
    }
  }
}
