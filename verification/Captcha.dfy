/** Login captchas (crates/wechat-api/src/captcha.rs) over the in-memory store
    (crates/wechat-api/src/store.rs). A key has a slot: its code and its count of failed attempts. Store
    calls are the steps that interleave; codes are arbitrary strings; instants are integers. */
module Captcha {
  import opened CaptchaKeys
  import opened Options
  import opened Products
  import opened Strings

  datatype Entry = Entry(code: string, openid: string, expiry: Option<int>)

  datatype Slot = Slot(entry: Option<Entry>, attempts: Option<nat>)

  const EMPTY := Slot(None, None)

  predicate Expired(e: Entry, now: int) {
    e.expiry.Some? && now > e.expiry.value
  }

  // ---------- The store's calls, on the slot of one key ----------

  function Put(e: Entry): Slot {
    Slot(Some(e), Some(0))
  }

  function PutNx(s: Slot, e: Entry): Slot {
    if s.entry.Some? then s else Put(e)
  }

  function Peeked(s: Slot, now: int): Option<Entry> {
    if s.entry.Some? && !Expired(s.entry.value, now) then s.entry else None
  }

  /** Consuming removes an expired code too, with its count, but hands out nothing. */
  function Consume(s: Slot, now: int): Slot {
    match s.entry
    case None => s
    case Some(e) => if Expired(e, now) then EMPTY else Slot(None, s.attempts)
  }

  function Failures(s: Slot): nat {
    (if s.attempts.Some? then s.attempts.value else 0) + 1
  }

  class MemoryCaptchaStore {
    const lastInstant: int    // no later time can be stored; a deadline past it is no deadline
    var captchas: map<string, Entry>
    var attempts: map<string, nat>

    constructor (lastInstant: int)
      ensures this.lastInstant == lastInstant && forall k :: SlotAt(k) == EMPTY
    {
      this.lastInstant, captchas, attempts := lastInstant, map[], map[];
    }

    function SlotAt(k: string): Slot
      reads this
    {
      Slot(if k in captchas then Some(captchas[k]) else None, if k in attempts then Some(attempts[k]) else None)
    }

    function NewEntry(code: string, openid: string, ttl: nat, now: int): Entry {
      Entry(code, openid, if now + ttl <= lastInstant then Some(now + ttl) else None)
    }

    method SetCaptchaNx(k: string, code: string, openid: string, ttl: nat, now: int) returns (stored: bool)
      modifies this
      ensures stored == old(SlotAt(k)).entry.None?
      ensures SlotAt(k) == PutNx(old(SlotAt(k)), NewEntry(code, openid, ttl, now))
      ensures forall j | j != k :: SlotAt(j) == old(SlotAt(j))
    {
      if k in captchas {
        return false;
      }
      captchas := captchas[k := NewEntry(code, openid, ttl, now)];
      attempts := attempts[k := 0];
      stored := true;
    }

    method ConsumeCaptcha(k: string, now: int) returns (r: Option<Entry>)
      modifies this
      ensures r == Peeked(old(SlotAt(k)), now) && SlotAt(k) == Consume(old(SlotAt(k)), now)
      ensures forall j | j != k :: SlotAt(j) == old(SlotAt(j))
    {
      if k !in captchas {
        return None;
      }
      var e := captchas[k];
      captchas := captchas - {k};
      if Expired(e, now) {
        attempts := attempts - {k};
        return None;
      }
      r := Some(e);
    }

    method PeekCaptcha(k: string, now: int) returns (r: Option<Entry>)
      ensures r == Peeked(SlotAt(k), now)
    {
      if k in captchas && !Expired(captchas[k], now) {
        return Some(captchas[k]);
      }
      r := None;
    }

    method IncrFailedAttempts(k: string) returns (count: nat)
      modifies this`attempts
      ensures count == Failures(old(SlotAt(k))) && SlotAt(k) == old(SlotAt(k)).(attempts := Some(count))
      ensures forall j | j != k :: SlotAt(j) == old(SlotAt(j))
    {
      count := (if k in attempts then attempts[k] else 0) + 1;
      attempts := attempts[k := count];
    }

    method ResetFailedAttempts(k: string)
      modifies this`attempts
      ensures SlotAt(k) == old(SlotAt(k)).(attempts := Some(0))
      ensures forall j | j != k :: SlotAt(j) == old(SlotAt(j))
    {
      attempts := attempts[k := 0];
    }

    /** Two separate removals, each under its own lock. */
    method DeleteCaptcha(k: string)
      modifies this
      ensures SlotAt(k) == EMPTY
      ensures forall j | j != k :: SlotAt(j) == old(SlotAt(j))
    {
      captchas := captchas - {k};
      attempts := attempts - {k};
    }
  }

  // ---------- The service ----------

  datatype Outcome = Verified | NotFound | Mismatch | TooManyAttempts

  /** A verification nothing else interferes with: what it returns, by what the slot holds. The two times
      are those of the peek and, if it comes to that, of the consumption. */
  function OutcomeOf(s: Slot, max: nat, code: string, now: int, later: int): Outcome {
    match Peeked(s, now)
    case None => NotFound
    case Some(e) =>
      if EqIgnoreAsciiCase(e.code, code) then (if Expired(e, later) then NotFound else Verified)
      else if Failures(s) >= max then TooManyAttempts
      else Mismatch
  }

  function SlotAfter(s: Slot, max: nat, code: string, now: int, later: int): Slot {
    match Peeked(s, now)
    case None => s
    case Some(e) =>
      if EqIgnoreAsciiCase(e.code, code) then (if Expired(e, later) then EMPTY else Slot(None, Some(0)))
      else if Failures(s) >= max then EMPTY
      else s.(attempts := Some(Failures(s)))
  }

  /** From an empty slot: a captcha generated at one time is found, and taken by its code in any case, until
      its lifetime is over, or for ever if its deadline cannot be stored; any other code fails. */
  lemma GeneratedIsVerified(store: MemoryCaptchaStore, s: Slot, code: string, openid: string, ttl: nat, at: int,
                            max: nat, guess: string, now: int, later: int)
    requires s.entry.None? && now <= later
    ensures var s', last := PutNx(s, store.NewEntry(code, openid, ttl, at)), at + ttl;
            OutcomeOf(s', max, guess, now, later) ==
            if last <= store.lastInstant && last < now then NotFound
            else if !SameButForCase(code, guess) then (if max <= 1 then TooManyAttempts else Mismatch)
            else if last <= store.lastInstant && last < later then NotFound
            else Verified
  {
    EqIgnoresCase(code, guess);
  }

  class CaptchaService {
    const store: MemoryCaptchaStore
    const ttl: nat
    const maxFailedAttempts: nat

    constructor (store: MemoryCaptchaStore, ttl: nat, maxFailedAttempts: nat)
      ensures this.store == store && this.ttl == ttl && this.maxFailedAttempts == maxFailedAttempts
    {
      this.store, this.ttl, this.maxFailedAttempts := store, ttl, maxFailedAttempts;
    }

    /** A user's slot. */
    function UserSlot(account: string, openid: string): Slot
      reads store
    {
      store.SlotAt(CaptchaKey(account, openid))
    }

    lemma OthersApart(account: string, openid: string)
      ensures forall other | other != openid :: CaptchaKey(account, other) != CaptchaKey(account, openid)
      ensures forall a, o | ApartFrom(account, a) :: CaptchaKey(a, o) != CaptchaKey(account, openid)
    {
      forall other | other != openid ensures CaptchaKey(account, other) != CaptchaKey(account, openid) {
        if CaptchaKey(account, other) == CaptchaKey(account, openid) { UsersApart(account, other, openid); }
      }
      forall a, o | ApartFrom(account, a) ensures CaptchaKey(a, o) != CaptchaKey(account, openid) {
        AccountsApartExactly(account, a);
      }
    }

    /** `code` is the random code; `None` is the cooldown error. */
    method Generate(account: string, openid: string, code: string, now: int) returns (r: Option<string>)
      modifies store
      ensures r == if old(UserSlot(account, openid)).entry.None? then Some(code) else None
      ensures UserSlot(account, openid) == PutNx(old(UserSlot(account, openid)), store.NewEntry(code, openid, ttl, now))
      ensures forall other | other != openid :: UserSlot(account, other) == old(UserSlot(account, other))
      ensures forall a, o | ApartFrom(account, a) :: UserSlot(a, o) == old(UserSlot(a, o))
      ensures forall j | j != CaptchaKey(account, openid) :: store.SlotAt(j) == old(store.SlotAt(j))
    {
      OthersApart(account, openid);
      var k := CaptchaKey(account, openid);
      var stored := store.SetCaptchaNx(k, code, openid, ttl, now);
      r := if stored then Some(code) else None;
    }

    method VerifyForOpenid(account: string, openid: string, code: string, now: int, later: int) returns (r: Outcome)
      requires now <= later
      modifies store
      ensures r == OutcomeOf(old(UserSlot(account, openid)), maxFailedAttempts, code, now, later)
      ensures UserSlot(account, openid) == SlotAfter(old(UserSlot(account, openid)), maxFailedAttempts, code, now, later)
      ensures forall other | other != openid :: UserSlot(account, other) == old(UserSlot(account, other))
      ensures forall a, o | ApartFrom(account, a) :: UserSlot(a, o) == old(UserSlot(a, o))
      ensures forall j | j != CaptchaKey(account, openid) :: store.SlotAt(j) == old(store.SlotAt(j))
    {
      OthersApart(account, openid);
      var k := CaptchaKey(account, openid);
      var stored := store.PeekCaptcha(k, now);
      if stored.None? {
        return NotFound;
      }
      if !EqIgnoreAsciiCase(stored.value.code, code) {
        var attempts := store.IncrFailedAttempts(k);
        if attempts >= maxFailedAttempts {
          store.DeleteCaptcha(k);
          return TooManyAttempts;
        }
        return Mismatch;
      }
      var claimed := store.ConsumeCaptcha(k, later);
      if claimed.None? {
        return NotFound;
      }
      store.ResetFailedAttempts(k);
      r := Verified;
    }
  }

  // ---------- Any interleaving of store calls, on one key ----------

  /** Where a verification is: before which store call, or done. */
  datatype Flight =
    | Peeking(code: string)
    | Failing
    | Deleting
    | Forgetting
    | Claiming
    | Clearing
    | Done(outcome: Outcome)

  datatype System = System(
    slot: Slot,
    flights: seq<Flight>,
    generated: nat,    // captchas stored
    consumed: nat,     // handed out to a verification
    expired: nat,      // consumed too late
    deleted: nat,      // removed after too many attempts
    compared: nat      // codes compared with the captcha stored last
  )

  datatype Step = Generate(entry: Entry) | Begin(code: string) | Advance(flight: nat, now: int)

  const START := System(EMPTY, [], 0, 0, 0, 0, 0)

  function Goes(s: System, i: nat, to': Flight): System
    requires i < |s.flights|
  {
    s.(flights := s.flights[i := to'])
  }

  function Do(s: System, max: nat, step: Step): System {
    match step
    case Generate(e) =>
      if s.slot.entry.Some? then s else s.(slot := PutNx(s.slot, e), generated := s.generated + 1, compared := 0)
    case Begin(code) => s.(flights := s.flights + [Peeking(code)])
    case Advance(i, now) =>
      if i >= |s.flights| then s
      else match s.flights[i]
        case Peeking(code) =>
          (match Peeked(s.slot, now)
           case None => Goes(s, i, Done(NotFound))
           case Some(e) =>
             Goes(s, i, if EqIgnoreAsciiCase(e.code, code) then Claiming else Failing).(compared := s.compared + 1))
        case Failing =>
          Goes(s, i, if Failures(s.slot) >= max then Deleting else Done(Mismatch))
            .(slot := s.slot.(attempts := Some(Failures(s.slot))))
        case Deleting =>
          Goes(s, i, Forgetting)
            .(slot := s.slot.(entry := None), deleted := if s.slot.entry.Some? then s.deleted + 1 else s.deleted)
        case Forgetting => Goes(s, i, Done(TooManyAttempts)).(slot := s.slot.(attempts := None))
        case Claiming =>
          var s' := Goes(s, i, if Peeked(s.slot, now).Some? then Clearing else Done(NotFound)).(slot := Consume(s.slot, now));
          if Peeked(s.slot, now).Some? then s'.(consumed := s.consumed + 1)
          else if s.slot.entry.Some? then s'.(expired := s.expired + 1)
          else s'
        case Clearing => Goes(s, i, Done(Verified)).(slot := s.slot.(attempts := Some(0)))
        case Done(_) => s
  }

  function Run(s: System, max: nat, steps: seq<Step>): System
    decreases |steps|
  {
    if steps == [] then s else Run(Do(s, max, steps[0]), max, steps[1..])
  }

  predicate Won(f: Flight) {
    f.Clearing? || f == Done(Verified)
  }

  function Wins(flights: seq<Flight>): nat {
    if flights == [] then 0 else Wins(flights[..|flights| - 1]) + if Won(flights[|flights| - 1]) then 1 else 0
  }

  function Successes(flights: seq<Flight>): (n: nat)
    ensures n <= Wins(flights)
  {
    if flights == [] then 0
    else Successes(flights[..|flights| - 1]) + if flights[|flights| - 1] == Done(Verified) then 1 else 0
  }

  lemma {:induction false} WinsUpdate(flights: seq<Flight>, i: nat, f: Flight)
    requires i < |flights|
    ensures Wins(flights[i := f]) == Wins(flights) - (if Won(flights[i]) then 1 else 0) + (if Won(f) then 1 else 0)
    decreases |flights|
  {
    var n := |flights| - 1;
    if i == n {
      assert flights[i := f][..n] == flights[..n];
    } else {
      assert flights[i := f][..n] == flights[..n][i := f];
      WinsUpdate(flights[..n], i, f);
    }
  }

  /** Every captcha stored was consumed in time, consumed too late, deleted, or is still there; and each
      one consumed in time belongs to one verification. */
  ghost predicate Accounted(s: System) {
    && s.generated == s.consumed + s.expired + s.deleted + (if s.slot.entry.Some? then 1 else 0)
    && s.consumed == Wins(s.flights)
  }

  lemma StepKeepsAccounts(s: System, max: nat, step: Step)
    requires Accounted(s)
    ensures Accounted(Do(s, max, step))
  {
    match step
    case Generate(_) =>
    case Begin(code) => assert (s.flights + [Peeking(code)])[..|s.flights|] == s.flights;
    case Advance(i, now) =>
      if i < |s.flights| {
        match s.flights[i]
        case Peeking(_) => GoesOn(s, max, i, now);
        case Failing => GoesOn(s, max, i, now);
        case Deleting => WinsUpdate(s.flights, i, Forgetting);
        case Forgetting => WinsUpdate(s.flights, i, Done(TooManyAttempts));
        case Claiming => WinsUpdate(s.flights, i, if Peeked(s.slot, now).Some? then Clearing else Done(NotFound));
        case Clearing => WinsUpdate(s.flights, i, Done(Verified));
        case Done(_) =>
      }
  }

  lemma GoesOn(s: System, max: nat, i: nat, now: int)
    requires Accounted(s) && i < |s.flights| && (s.flights[i].Peeking? || s.flights[i].Failing?)
    ensures Accounted(Do(s, max, Advance(i, now)))
  {
    var f := Do(s, max, Advance(i, now)).flights[i];
    assert Do(s, max, Advance(i, now)).flights == s.flights[i := f];
    WinsUpdate(s.flights, i, f);
  }

  lemma {:induction false} RunKeepsAccounts(s: System, max: nat, steps: seq<Step>)
    requires Accounted(s)
    ensures Accounted(Run(s, max, steps))
    decreases |steps|
  {
    if steps != [] {
      StepKeepsAccounts(s, max, steps[0]);
      RunKeepsAccounts(Do(s, max, steps[0]), max, steps[1..]);
    }
  }

  /** However store calls interleave, no more verifications succeed than captchas were generated, and every
      captcha is accounted for. */
  lemma EveryCaptchaCounts(max: nat, steps: seq<Step>)
    ensures var s := Run(START, max, steps);
            && s.generated == s.consumed + s.expired + s.deleted + (if s.slot.entry.Some? then 1 else 0)
            && Successes(s.flights) <= s.consumed <= s.generated
  {
    RunKeepsAccounts(START, max, steps);
  }

  /** A verification that nothing overlaps is the service's own: the same outcome and the same slot after. */
  lemma AloneIsAtomic(s: System, max: nat, code: string, now: int, later: int)
    requires now <= later
    ensures var i := |s.flights|;
            var s1 := Do(Do(s, max, Begin(code)), max, Advance(i, now));
            var s4 := Do(Do(Do(s1, max, Advance(i, later)), max, Advance(i, later)), max, Advance(i, later));
            && s4.flights == s.flights + [Done(OutcomeOf(s.slot, max, code, now, later))]
            && s4.slot == SlotAfter(s.slot, max, code, now, later)
  {
    var i := |s.flights|;
    var s1 := Do(Do(s, max, Begin(code)), max, Advance(i, now));
    assert s1.flights[..i] == s.flights;
    var s2 := Do(s1, max, Advance(i, later));
    assert s2.flights[..i] == s.flights;
    var s3 := Do(s2, max, Advance(i, later));
    assert s3.flights[..i] == s.flights;
  }

  // ---------- How many codes one captcha is compared with ----------

  function Bound(max: nat): nat {
    if max > 0 then max else 1
  }

  /** A verification with a comparison that it is not done with yet. */
  predicate Holds(f: Flight) {
    f.Failing? || f.Deleting? || f.Claiming?
  }

  /** A verification that is about to reset the count of failures. */
  predicate Resets(f: Flight) {
    f.Forgetting? || f.Clearing?
  }

  function One(b: bool): nat {
    if b then 1 else 0
  }

  /** How many verifications are under way, and how many of them hold or reset. */
  function Unfinished(flights: seq<Flight>): nat {
    if flights == [] then 0 else Unfinished(flights[..|flights| - 1]) + One(!flights[|flights| - 1].Done?)
  }

  function Holding(flights: seq<Flight>): nat {
    if flights == [] then 0 else Holding(flights[..|flights| - 1]) + One(Holds(flights[|flights| - 1]))
  }

  function Resetting(flights: seq<Flight>): nat {
    if flights == [] then 0 else Resetting(flights[..|flights| - 1]) + One(Resets(flights[|flights| - 1]))
  }

  lemma {:induction false} CountsAdd(flights: seq<Flight>)
    ensures Holding(flights) + Resetting(flights) <= Unfinished(flights)
    decreases |flights|
  {
    if flights != [] { CountsAdd(flights[..|flights| - 1]); }
  }

  lemma CountsSnoc(flights: seq<Flight>, f: Flight)
    ensures Unfinished(flights + [f]) == Unfinished(flights) + One(!f.Done?)
    ensures Holding(flights + [f]) == Holding(flights) + One(Holds(f))
    ensures Resetting(flights + [f]) == Resetting(flights) + One(Resets(f))
  {
    assert (flights + [f])[..|flights|] == flights;
  }

  lemma {:induction false} CountsUpdate(flights: seq<Flight>, i: nat, f: Flight)
    requires i < |flights|
    ensures Unfinished(flights[i := f]) + One(!flights[i].Done?) == Unfinished(flights) + One(!f.Done?)
    ensures Holding(flights[i := f]) + One(Holds(flights[i])) == Holding(flights) + One(Holds(f))
    ensures Resetting(flights[i := f]) + One(Resets(flights[i])) == Resetting(flights) + One(Resets(f))
    decreases |flights|
  {
    var n := |flights| - 1;
    if i == n {
      assert flights[i := f][..n] == flights[..n];
    } else {
      assert flights[i := f][..n] == flights[..n][i := f];
      CountsUpdate(flights[..n], i, f);
    }
  }

  /** A run in which there are never more than `k` verifications at once: one begins only when fewer than
      `k` are under way. */
  predicate AtMost(k: nat, s: System, max: nat, steps: seq<Step>)
    decreases |steps|
  {
    steps == [] ||
    ((steps[0].Begin? ==> Unfinished(s.flights) < k) && AtMost(k, Do(s, max, steps[0]), max, steps[1..]))
  }

  function Counted(s: Slot): nat {
    if s.attempts.Some? then s.attempts.value else 0
  }

  function Min(a: nat, b: nat): nat {
    if a < b then a else b
  }

  /** How often the count may have been reset under the captcha in the slot: only verifications of an
      earlier captcha do so, and while they wait, fewer others can look. */
  function ResetsSince(k: nat, resetting: nat): nat {
    if resetting < k then k - 1 - resetting else 0
  }

  /** The comparisons there may have been: for each reset as many failures as are let pass, the failures
      counted since, and those of verifications that are not done with theirs. */
  function Room(k: nat, max: nat, holding: nat, resetting: nat, counted: nat): nat {
    Times(ResetsSince(k, resetting), Bound(max) - 1) + Min(counted, Bound(max) - 1) + holding
  }

  ghost predicate Spread(s: System, k: nat, max: nat) {
    var h, r := Holding(s.flights), Resetting(s.flights);
    && Unfinished(s.flights) <= k && s.compared <= Times(k, Bound(max))
    && (s.slot.entry.Some? ==> s.compared <= Room(k, max, h, r, Counted(s.slot)))
    && (s.slot.entry.Some? && r >= k ==> s.compared == 0)
  }

  /** That is never more than `k` limits. */
  lemma RoomBound(k: nat, max: nat, h: nat, r: nat, counted: nat)
    requires h + r <= k && r < k
    ensures Room(k, max, h, r, counted) <= Times(k, Bound(max))
  {
    TimesWider(k - r, Bound(max) - 1);
    TimesGrows(k - r, k, Bound(max));
  }

  lemma LookSpreads(s: System, k: nat, max: nat, i: nat, now: int)
    requires Spread(s, k, max) && i < |s.flights| && s.flights[i].Peeking?
    ensures Spread(Do(s, max, Advance(i, now)), k, max)
  {
    var s' := Do(s, max, Advance(i, now));
    CountsUpdate(s.flights, i, s'.flights[i]);
    CountsUpdate(s.flights, i, Done(NotFound));
    CountsAdd(s.flights[i := Done(NotFound)]);
    if Peeked(s.slot, now).Some? {
      RoomBound(k, max, Holding(s'.flights), Resetting(s'.flights), Counted(s.slot));
    }
  }

  lemma FailSpreads(s: System, k: nat, max: nat, i: nat, now: int)
    requires Spread(s, k, max) && i < |s.flights| && s.flights[i].Failing?
    ensures Spread(Do(s, max, Advance(i, now)), k, max)
  {
    CountsUpdate(s.flights, i, Do(s, max, Advance(i, now)).flights[i]);
    CountsAdd(s.flights);
  }

  /** A reset makes room for another round of failures. */
  lemma ResetSpreads(s: System, k: nat, max: nat, i: nat, now: int)
    requires Spread(s, k, max) && i < |s.flights| && Resets(s.flights[i])
    ensures Spread(Do(s, max, Advance(i, now)), k, max)
  {
    var r := Resetting(s.flights);
    CountsUpdate(s.flights, i, Do(s, max, Advance(i, now)).flights[i]);
    CountsAdd(s.flights);
    assert 0 < r <= k && (r < k ==> ResetsSince(k, r - 1) == ResetsSince(k, r) + 1);
  }

  /** Whoever takes the captcha out leaves nothing to compare with. */
  lemma TakeSpreads(s: System, k: nat, max: nat, i: nat, now: int)
    requires Spread(s, k, max) && i < |s.flights| && (s.flights[i].Deleting? || s.flights[i].Claiming?)
    ensures Spread(Do(s, max, Advance(i, now)), k, max)
  {
    CountsUpdate(s.flights, i, Do(s, max, Advance(i, now)).flights[i]);
  }

  lemma StepSpreads(s: System, k: nat, max: nat, step: Step)
    requires Spread(s, k, max) && (step.Begin? ==> Unfinished(s.flights) < k)
    ensures Spread(Do(s, max, step), k, max)
  {
    match step
    case Generate(_) =>
    case Begin(code) => CountsSnoc(s.flights, Peeking(code));
    case Advance(i, now) =>
      if i < |s.flights| {
        match s.flights[i]
        case Peeking(_) => LookSpreads(s, k, max, i, now);
        case Failing => FailSpreads(s, k, max, i, now);
        case Deleting => TakeSpreads(s, k, max, i, now);
        case Claiming => TakeSpreads(s, k, max, i, now);
        case Forgetting => ResetSpreads(s, k, max, i, now);
        case Clearing => ResetSpreads(s, k, max, i, now);
        case Done(_) =>
      }
  }

  lemma {:induction false} RunSpreads(s: System, k: nat, max: nat, steps: seq<Step>)
    requires Spread(s, k, max) && AtMost(k, s, max, steps)
    ensures Spread(Run(s, max, steps), k, max)
    decreases |steps|
  {
    if steps != [] {
      StepSpreads(s, k, max, steps[0]);
      RunSpreads(Do(s, max, steps[0]), k, max, steps[1..]);
    }
  }

  /** With at most `k` verifications at once, one captcha is compared with at most `k` times as many codes as
      the limit allows, whatever else happens between the store calls. */
  lemma MostComparisons(k: nat, max: nat, steps: seq<Step>)
    requires AtMost(k, START, max, steps)
    ensures Run(START, max, steps).compared <= k * Bound(max)
  {
    RunSpreads(START, k, max, steps);
    TimesMultiplies(k, Bound(max));
  }

  /** So the limit holds when no verification begins while another is under way. */
  lemma FewComparisons(max: nat, steps: seq<Step>)
    requires AtMost(1, START, max, steps)
    ensures Run(START, max, steps).compared <= Bound(max)
  {
    MostComparisons(1, max, steps);
  }

  // ---------- And that many there can be ----------

  /** A run with at most `k` verifications at once comes to this. */
  ghost predicate Reaches(k: nat, max: nat, s: System) {
    exists steps :: AtMost(k, START, max, steps) && Run(START, max, steps) == s
  }

  lemma {:induction false} RunSnoc(k: nat, s: System, max: nat, steps: seq<Step>, step: Step)
    requires AtMost(k, s, max, steps) && (step.Begin? ==> Unfinished(Run(s, max, steps).flights) < k)
    ensures AtMost(k, s, max, steps + [step]) && Run(s, max, steps + [step]) == Do(Run(s, max, steps), max, step)
    decreases |steps|
  {
    if steps == [] {
      assert (steps + [step])[1..] == [];
    } else {
      assert (steps + [step])[1..] == steps[1..] + [step];
      RunSnoc(k, Do(s, max, steps[0]), max, steps[1..], step);
    }
  }

  /** What holds where such runs start, and stays with every step they may take. */
  ghost predicate Kept(k: nat, max: nat, holds: System -> bool) {
    holds(START) && forall s: System, step: Step | holds(s) && (step.Begin? ==> Unfinished(s.flights) < k) :: holds(Do(s, max, step))
  }

  lemma ReachesKept(k: nat, max: nat)
    ensures Kept(k, max, s => Reaches(k, max, s))
  {
    assert AtMost(k, START, max, []) && Run(START, max, []) == START;
    forall s: System, step: Step | Reaches(k, max, s) && (step.Begin? ==> Unfinished(s.flights) < k) ensures Reaches(k, max, Do(s, max, step)) {
      var steps :| AtMost(k, START, max, steps) && Run(START, max, steps) == s;
      RunSnoc(k, START, max, steps, step);
    }
  }

  lemma More(k: nat, max: nat, holds: System -> bool, now: System, step: Step) returns (next: System)
    requires Kept(k, max, holds) && holds(now) && (step.Begin? ==> Unfinished(now.flights) < k)
    ensures next == Do(now, max, step) && holds(next)
  {
    next := Do(now, max, step);
  }

  const SAMPLE := Entry("A", "", None)    // a captcha without a deadline; "B" is a wrong code for it

  lemma SampleCodes()
    ensures EqIgnoreAsciiCase(SAMPLE.code, "A") && !EqIgnoreAsciiCase(SAMPLE.code, "B")
  {
    assert LowerAscii(SAMPLE.code[0]) != LowerAscii("B"[0]);
  }

  /** The sample captcha is stored, `failures` are counted, and it has been compared this often. */
  ghost predicate Sampled(s: System, flights: seq<Flight>, failures: nat, compared: nat) {
    Counted(s.slot) == failures && s.slot.entry == Some(SAMPLE) && s.flights == flights && s.compared == compared
  }

  /** A verification begins and finds that its code is wrong. */
  lemma WrongCode(k: nat, max: nat, holds: System -> bool, now: System, failures: nat, compared: nat) returns (next: System)
    requires Kept(k, max, holds) && holds(now) && Sampled(now, now.flights, failures, compared) && Unfinished(now.flights) < k
    ensures holds(next) && Sampled(next, now.flights + [Failing], failures, compared + 1)
    ensures Unfinished(next.flights) == Unfinished(now.flights) + 1
  {
    var i, flights := |now.flights|, now.flights;
    next := More(k, max, holds, now, Begin("B"));
    SampleCodes();
    next := More(k, max, holds, next, Advance(i, 0));
    assert next.flights == flights + [Failing];
    CountsSnoc(flights, Failing);
  }

  /** And its failure is counted. */
  lemma CountOne(k: nat, max: nat, holds: System -> bool, now: System, flights: seq<Flight>, failures: nat, compared: nat) returns (next: System)
    requires Kept(k, max, holds) && holds(now) && Sampled(now, flights + [Failing], failures, compared) && failures + 1 < max
    ensures holds(next) && Sampled(next, flights + [Done(Mismatch)], failures + 1, compared)
    ensures Unfinished(next.flights) == Unfinished(flights)
  {
    next := More(k, max, holds, now, Advance(|flights|, 0));
    assert next.flights == flights + [Done(Mismatch)];
    CountsSnoc(flights, Done(Mismatch));
  }

  /** These flights, and then others. */
  ghost predicate Extends(a: seq<Flight>, b: seq<Flight>) {
    |a| <= |b| && b[..|a|] == a
  }

  /** Wrong codes one after the other, short of the limit. */
  lemma {:induction false} LoneFailures(k: nat, max: nat, holds: System -> bool, now: System, compared: nat, n: nat) returns (s: System)
    requires Kept(k, max, holds) && holds(now) && Sampled(now, now.flights, 0, compared) && Unfinished(now.flights) < k && n < Bound(max)
    ensures holds(s) && Sampled(s, s.flights, n, compared + n)
    ensures Extends(now.flights, s.flights) && Unfinished(s.flights) == Unfinished(now.flights)
    decreases n
  {
    if n == 0 {
      s := now;
    } else {
      var before := LoneFailures(k, max, holds, now, compared, n - 1);
      s := OneFailure(k, max, holds, before, n - 1, compared + n - 1);
      assert s.flights[..|now.flights|] == before.flights[..|now.flights|];
    }
  }

  lemma OneFailure(k: nat, max: nat, holds: System -> bool, now: System, failures: nat, compared: nat) returns (s: System)
    requires Kept(k, max, holds) && holds(now) && Sampled(now, now.flights, failures, compared)
    requires Unfinished(now.flights) < k && failures + 1 < max
    ensures holds(s) && Sampled(s, s.flights, failures + 1, compared + 1)
    ensures Extends(now.flights, s.flights) && Unfinished(s.flights) == Unfinished(now.flights)
  {
    var failing := WrongCode(k, max, holds, now, failures, compared);
    s := CountOne(k, max, holds, failing, now.flights, failures, compared + 1);
  }

  ghost predicate FailingFrom(flights: seq<Flight>, from: nat) {
    forall i | from <= i < |flights| :: flights[i] == Failing
  }

  /** Wrong codes all at once: none is counted before the last is compared. */
  lemma {:induction false} AllAtOnce(k: nat, max: nat, holds: System -> bool, now: System, failures: nat, compared: nat, n: nat) returns (s: System)
    requires Kept(k, max, holds) && holds(now) && Sampled(now, now.flights, failures, compared)
    requires Unfinished(now.flights) + n <= k
    ensures holds(s) && Sampled(s, s.flights, failures, compared + n) && Unfinished(s.flights) == Unfinished(now.flights) + n
    ensures |s.flights| == |now.flights| + n && FailingFrom(s.flights, |now.flights|)
    decreases n
  {
    if n == 0 {
      s := now;
    } else {
      var before := AllAtOnce(k, max, holds, now, failures, compared, n - 1);
      s := WrongCode(k, max, holds, before, failures, compared + n - 1);
      OneMoreFails(before.flights, |now.flights|);
    }
  }

  lemma OneMoreFails(flights: seq<Flight>, from: nat)
    requires FailingFrom(flights, from)
    ensures FailingFrom(flights + [Failing], from)
  {
  }

  /** Verifications that have consumed an earlier captcha and wait to reset the count. */
  ghost predicate Waiting(flights: seq<Flight>, from: nat, to': nat) {
    to' <= |flights| && forall i | from <= i < to' :: flights[i] == Clearing
  }

  lemma {:induction false} ConsumeEach(k: nat, max: nat, holds: System -> bool, n: nat) returns (s: System)
    requires Kept(k, max, holds) && n <= k
    ensures holds(s) && s.slot.entry.None? && |s.flights| == n && Waiting(s.flights, 0, n)
    ensures Unfinished(s.flights) == n
    decreases n
  {
    if n == 0 {
      s := START;
    } else {
      var before := ConsumeEach(k, max, holds, n - 1);
      s := ConsumeOne(k, max, holds, before);
    }
  }

  lemma ConsumeOne(k: nat, max: nat, holds: System -> bool, now: System) returns (s: System)
    requires Kept(k, max, holds) && holds(now) && now.slot.entry.None? && Unfinished(now.flights) < k
    ensures holds(s) && s.slot.entry.None? && s.flights == now.flights + [Clearing]
    ensures Unfinished(s.flights) == Unfinished(now.flights) + 1
  {
    var i, flights := |now.flights|, now.flights;
    SampleCodes();
    s := More(k, max, holds, now, Generate(SAMPLE));
    s := More(k, max, holds, s, Begin("A"));
    s := More(k, max, holds, s, Advance(i, 0));
    assert s.flights == flights + [Claiming];
    s := More(k, max, holds, s, Advance(i, 0));
    assert s.flights == flights + [Clearing];
    CountsSnoc(flights, Clearing);
  }

  /** A waiting verification resets the count under the captcha stored since. */
  lemma ResetOne(k: nat, max: nat, holds: System -> bool, now: System, i: nat, failures: nat, compared: nat) returns (s: System)
    requires Kept(k, max, holds) && holds(now) && Sampled(now, now.flights, failures, compared) && i < |now.flights| && now.flights[i] == Clearing
    ensures holds(s) && Sampled(s, now.flights[i := Done(Verified)], 0, compared)
    ensures Unfinished(s.flights) + 1 == Unfinished(now.flights)
  {
    s := More(k, max, holds, now, Advance(i, 0));
    CountsUpdate(now.flights, i, Done(Verified));
  }

  /** After `j` of `k - 1` resets, each after all the failures that are let pass. */
  lemma {:induction false} Rounds(k: nat, max: nat, holds: System -> bool, j: nat) returns (s: System)
    requires Kept(k, max, holds) && j < k
    ensures holds(s) && Sampled(s, s.flights, Bound(max) - 1, Times(j + 1, Bound(max) - 1))
    ensures Waiting(s.flights, j, k - 1) && Unfinished(s.flights) == k - 1 - j
    decreases j
  {
    var n := Bound(max) - 1;
    if j == 0 {
      var empty := ConsumeEach(k, max, holds, k - 1);
      var stored := More(k, max, holds, empty, Generate(SAMPLE));
      s := LoneFailures(k, max, holds, stored, 0, n);
      StillWaiting(stored.flights, s.flights, 0, k - 1);
    } else {
      var before := Rounds(k, max, holds, j - 1);
      var reset := ResetOne(k, max, holds, before, j - 1, n, Times(j, n));
      s := LoneFailures(k, max, holds, reset, Times(j, n), n);
      StillWaiting(reset.flights, s.flights, j, k - 1);
    }
  }

  lemma StillWaiting(a: seq<Flight>, b: seq<Flight>, from: nat, to': nat)
    requires Extends(a, b) && Waiting(a, from, to')
    ensures Waiting(b, from, to')
  {
    forall i | from <= i < to' ensures b[i] == Clearing { assert b[..|a|][i] == a[i]; }
  }

  lemma Peak(k: nat, max: nat, holds: System -> bool) returns (s: System)
    requires Kept(k, max, holds) && k > 0
    ensures holds(s) && s.compared == Times(k, Bound(max))
  {
    var n := Bound(max) - 1;
    var before := Rounds(k, max, holds, k - 1);
    s := AllAtOnce(k, max, holds, before, n, Times(k, n), k);
    TimesWider(k, n);
  }

  /** The bound is attained: `k - 1` verifications of earlier captchas wait, each resets the count after all
      the failures but one, and then `k` wrong codes are compared at once. */
  lemma MostIsReached(k: nat, max: nat) returns (s: System)
    ensures Reaches(k, max, s) && s.compared == k * Bound(max)
  {
    ReachesKept(k, max);
    TimesMultiplies(k, Bound(max));
    if k == 0 { s := START; } else { s := Peak(k, max, s => Reaches(k, max, s)); }
  }

  /** Two at once are enough to exceed the limit, whatever it is. */
  lemma OverlapComparesMore(max: nat) returns (s: System)
    ensures Reaches(2, max, s) && s.compared == 2 * Bound(max) > Bound(max)
  {
    s := MostIsReached(2, max);
  }

  /** Any number at once can all be compared before one failure is counted. */
  lemma AllCompared(max: nat, n: nat) returns (s: System)
    ensures Reaches(n, max, s) && Sampled(s, s.flights, 0, n) && |s.flights| == n && FailingFrom(s.flights, 0)
  {
    ReachesKept(n, max);
    s := AllComparedAs(n, max, s => Reaches(n, max, s));
  }

  lemma AllComparedAs(n: nat, max: nat, holds: System -> bool) returns (s: System)
    requires Kept(n, max, holds)
    ensures holds(s) && Sampled(s, s.flights, 0, n) && |s.flights| == n && FailingFrom(s.flights, 0)
  {
    var stored := More(n, max, holds, START, Generate(SAMPLE));
    s := AllAtOnce(n, max, holds, stored, 0, 0, n);
  }

  /** A number bounds the comparisons in every run with at most `k` verifications at once exactly when it is
      no less than `k` times the limit. */
  lemma BoundsExactly(max: nat, k: nat, most: nat)
    ensures (forall steps | AtMost(k, START, max, steps) :: Run(START, max, steps).compared <= most) <==> k * Bound(max) <= most
  {
    if k * Bound(max) <= most {
      forall steps | AtMost(k, START, max, steps) ensures Run(START, max, steps).compared <= most {
        MostComparisons(k, max, steps);
      }
    } else {
      var s := MostIsReached(k, max);
      var steps :| AtMost(k, START, max, steps) && Run(START, max, steps) == s;
      assert AtMost(k, START, max, steps) && Run(START, max, steps).compared > most;
    }
  }

  /** The limit itself does so exactly when `k` is at most one. */
  lemma LimitHoldsExactly(max: nat, k: nat)
    ensures (forall steps | AtMost(k, START, max, steps) :: Run(START, max, steps).compared <= Bound(max)) <==> k <= 1
  {
    BoundsExactly(max, k, Bound(max));
    assert k * Bound(max) <= Bound(max) <==> k <= 1 by {
      if k > 1 { assert k * Bound(max) >= 2 * Bound(max); }
    }
  }

  // ---------- An expired captcha ----------

  /** The cooldown is documented to end when the captcha expires. It does exactly when no expired captcha is
      in the store: there, an expired one keeps blocking. */
  lemma CooldownEndsUnlessExpired(s: Slot, e: Entry, now: int)
    ensures (PutNx(s, e) != s <==> Peeked(s, now).None?) <==> !(s.entry.Some? && Expired(s.entry.value, now))
  {
    assert s.entry.None? ==> PutNx(s, e).entry.Some?;
  }

  /** A verification that has not looked yet, or is over. */
  predicate Harmless(f: Flight) {
    f.Peeking? || f.Done?
  }

  predicate NotBefore(steps: seq<Step>, now: int) {
    forall i | 0 <= i < |steps| :: steps[i].Advance? ==> now <= steps[i].now
  }

  /** What is still to be looked up has found nothing, if it has been; what was over stays as it was. */
  ghost predicate FoundNothing(before: seq<Flight>, after: seq<Flight>) {
    && |before| <= |after|
    && (forall i | 0 <= i < |before| :: before[i].Done? ==> after[i] == before[i])
    && forall i | 0 <= i < |after| ::
         (i < |before| && before[i].Done?) || after[i].Peeking? || after[i] == Done(NotFound)
  }

  lemma StepFindsNothing(s: System, max: nat, step: Step, now: int)
    requires s.slot.entry.Some? && Expired(s.slot.entry.value, now) && forall i | 0 <= i < |s.flights| :: Harmless(s.flights[i])
    requires step.Advance? ==> now <= step.now
    ensures var s' := Do(s, max, step);
            && s'.slot == s.slot && s'.generated == s.generated && FoundNothing(s.flights, s'.flights)
            && forall i | 0 <= i < |s'.flights| :: Harmless(s'.flights[i])
  {
  }

  lemma FoundNothingTwice(a: seq<Flight>, b: seq<Flight>, c: seq<Flight>)
    requires FoundNothing(a, b) && FoundNothing(b, c)
    ensures FoundNothing(a, c)
  {
    forall i | 0 <= i < |c|
      ensures (i < |a| && a[i].Done?) || c[i].Peeking? || c[i] == Done(NotFound)
    {
      if i < |b| && b[i].Done? { assert c[i] == b[i]; }
    }
  }

  /** And it does so for ever: once a captcha has expired with no verification past its look-up, no run of
      the service changes the slot. Every generation is refused, and every verification finds nothing. */
  lemma {:induction false} ExpiredForEver(s: System, max: nat, steps: seq<Step>, now: int)
    requires s.slot.entry.Some? && Expired(s.slot.entry.value, now) && NotBefore(steps, now)
    requires forall i | 0 <= i < |s.flights| :: Harmless(s.flights[i])
    ensures var s' := Run(s, max, steps);
            s'.slot == s.slot && s'.generated == s.generated && FoundNothing(s.flights, s'.flights)
    decreases |steps|
  {
    if steps != [] {
      var next := Do(s, max, steps[0]);
      StepFindsNothing(s, max, steps[0], now);
      ExpiredForEver(next, max, steps[1..], now);
      FoundNothingTwice(s.flights, next.flights, Run(s, max, steps).flights);
    }
  }

  /** A verification that looked in time and claims too late is the way out: it empties the slot. */
  lemma LateClaimEmpties(max: nat, e: Entry, code: string, now: int, later: int)
    requires EqIgnoreAsciiCase(e.code, code) && !Expired(e, now) && Expired(e, later)
    ensures Run(START, max, [Generate(e), Begin(code), Advance(0, now), Advance(0, later)]).slot == EMPTY
  {
    var s1 := Do(START, max, Generate(e));
    var s2 := Do(s1, max, Begin(code));
    var s3 := Do(s2, max, Advance(0, now));
    assert s2.flights == [Peeking(code)] && s3.flights == [Claiming];
    RunFirst(START, max, Generate(e), [Begin(code), Advance(0, now), Advance(0, later)]);
    RunFirst(s1, max, Begin(code), [Advance(0, now), Advance(0, later)]);
    RunFirst(s2, max, Advance(0, now), [Advance(0, later)]);
    RunFirst(s3, max, Advance(0, later), []);
  }

  lemma RunFirst(s: System, max: nat, step: Step, rest: seq<Step>)
    ensures Run(s, max, [step] + rest) == Run(Do(s, max, step), max, rest)
  {
    assert ([step] + rest)[1..] == rest;
  }
}
