/** The streaming filter that keeps `<tool_use ...>...</tool_use>` protocol text out of the visible
    reply (crates/rust-agent/src/model_service.rs). `Visible` says what a finished text shows;
    `Scan` says what can be shown before the text is finished; the class is the filter itself. */
module ToolTagFiltering {
  import opened Options
  import opened Strings

  /** An open and a close marker. All that the filter needs of them: neither is empty, and the first
      character of the open marker does not come back inside it. */
  datatype MarkerPair = MarkerPair(open: string, close: string) {
    predicate Usable() {
      open != "" && close != "" && forall i | 1 <= i < |open| :: !IsAt(open, i, open[0])
    }
  }

  type Markers = m: MarkerPair | m.Usable() witness MarkerPair("<", ">")

  const TOOL_USE: Markers := MarkerPair("<tool_use", "</tool_use>")

  /** A tag opens where the open marker is followed by ASCII whitespace or `>`. */
  predicate StartsTag(m: Markers, s: string) {
    Begins(s, m.open) && |s| > |m.open| && (IsAsciiWhitespace(s[|m.open|]) || s[|m.open|] == '>')
  }

  /** `tail` is a proper beginning of `marker`: more text could still complete it. */
  predicate BeginningOf(marker: string, tail: string) {
    |tail| < |marker| && Begins(marker, tail)
  }

  /** What a finished text shows: everything outside the tags, read one character at a time. */
  function Visible(m: Markers, s: string): string
    decreases |s|
  {
    if s == "" then ""
    else if StartsTag(m, s) then Hidden(m, s[|m.open|..])
    else [s[0]] + Visible(m, s[1..])
  }

  /** What a finished text shows when its start is inside a tag: nothing up to the close marker. */
  function Hidden(m: Markers, s: string): string
    decreases |s|
  {
    if s == "" then ""
    else if Begins(s, m.close) then Visible(m, s[|m.close|..])
    else Hidden(m, s[1..])
  }

  function Remaining(m: Markers, inTag: bool, s: string): string {
    if inTag then Hidden(m, s) else Visible(m, s)
  }

  datatype Scanned = Scanned(visible: string, inTag: bool, carry: string) {
    function Then(next: Scanned): Scanned {
      Scanned(visible + next.visible, next.inTag, next.carry)
    }
    function Flush(): string {
      if inTag then "" else carry
    }
  }

  lemma ThenUnit(r: Scanned)
    ensures Scanned("", r.inTag, "").Then(r) == r
    ensures Scanned("", !r.inTag, "").Then(r) == r
  {
    assert "" + r.visible == r.visible;
  }

  lemma ThenAssoc(a: Scanned, b: Scanned, c: Scanned)
    ensures a.Then(b).Then(c) == a.Then(b.Then(c))
  {
    assert a.visible + b.visible + c.visible == a.visible + (b.visible + c.visible);
  }

  /** What can be decided about a text that may still grow: scanning stops where all the text that is
      left could be the beginning of the marker being waited for. */
  function Scan(m: Markers, inTag: bool, s: string): Scanned
    decreases |s|
  {
    if inTag then
      if Begins(s, m.close) then Scan(m, false, s[|m.close|..])
      else if BeginningOf(m.close, s) then Scanned("", true, s)
      else Scan(m, true, s[1..])
    else
      if StartsTag(m, s) then Scan(m, true, s[|m.open|..])
      else if Begins(m.open, s) then Scanned("", false, s)
      else Scanned([s[0]], false, "").Then(Scan(m, false, s[1..]))
  }

  /** With `shown` already out and `rest` still to scan, the outcome will be `goal`. */
  ghost predicate Leads(m: Markers, shown: string, inTag: bool, rest: string, goal: Scanned) {
    goal == Scanned(shown, inTag, "").Then(Scan(m, inTag, rest))
  }

  // ---------- The filter ----------

  /** The longest proper beginning of `marker` that ends `input`. */
  method TrailingPrefixOf(input: string, marker: string) returns (tail: string)
    requires marker != ""
    ensures BeginningOf(marker, tail) && |tail| <= |input| && tail == input[|input| - |tail|..]
    ensures forall i {:trigger input[i..]} | 0 <= i < |input| - |tail| :: !BeginningOf(marker, input[i..])
  {
    var max := if |marker| - 1 < |input| then |marker| - 1 else |input|;
    var len := max;
    while len > 0
      invariant 0 <= len <= max
      invariant forall i {:trigger input[i..]} | 0 <= i < |input| - len :: !BeginningOf(marker, input[i..])
    {
      if Begins(marker, input[|input| - len..]) {
        return input[|input| - len..];
      }
      len := len - 1;
    }
    tail := "";
  }

  class ToolTagFilter {
    const markers: Markers := TOOL_USE
    var carry: string
    var inTag: bool

    /** Only an undecided marker prefix is held back: at most 9 characters outside a tag, 10 inside. */
    ghost predicate Valid()
      reads this
    {
      if inTag then BeginningOf(markers.close, carry) else Begins(markers.open, carry)
    }

    constructor ()
      ensures Valid() && carry == "" && !inTag
    {
      carry, inTag := "", false;
    }

    method Push(delta: string) returns (visible: string)
      modifies this
      ensures Valid()
      ensures Scanned(visible, inTag, carry) == Scan(markers, old(inTag), old(carry) + delta)
    {
      var input := carry + delta;
      carry, visible := "", "";
      ghost var goal := Scan(markers, inTag, input);
      ThenUnit(goal);
      while true
        invariant Leads(markers, visible, inTag, input, goal)
        decreases |input|
      {
        if inTag {
          var found := Find(input, markers.close);
          match found {
            case Some(at) =>
              LeaveTag(markers, goal, visible, input, at);
              input, inTag := input[at + |markers.close|..], false;
            case None =>
              carry := TrailingPrefixOf(input, markers.close);
              StayInTag(markers, goal, visible, input, carry);
              return;
          }
        } else {
          var found := Find(input, markers.open);
          match found {
            case Some(at) =>
              var after := at + |markers.open|;
              if after == |input| {
                CutAtMarker(markers, goal, visible, input, at);
                visible, carry := visible + input[..at], input[at..];
                return;
              } else if IsAsciiWhitespace(input[after]) || input[after] == '>' {
                EnterTag(markers, goal, visible, input, at);
                visible, input, inTag := visible + input[..at], input[after..], true;
              } else {
                PassMarker(markers, goal, visible, input, at);
                visible, input := visible + input[..after], input[after..];
              }
            case None =>
              var held := TrailingPrefixOf(input, markers.open);
              var emitLen := |input| - |held|;
              HoldOutside(markers, goal, visible, input, held);
              visible, carry := visible + input[..emitLen], held;
              return;
          }
        }
      }
    }

    method Flush() returns (rest: string)
      modifies this
      ensures carry == "" && inTag == old(inTag)
      ensures rest == Scanned("", old(inTag), old(carry)).Flush()
    {
      rest := if inTag then "" else carry;
      carry := "";
    }
  }

  // ---------- Searching for a marker does what scanning does ----------

  lemma {:induction false} SkipInside(m: Markers, s: string, i: nat, at: nat)
    requires i <= at && OccursAt(s, at, m.close) && forall j | i <= j < at :: !OccursAt(s, j, m.close)
    ensures Scan(m, true, s[i..]) == Scan(m, false, s[at + |m.close|..])
    decreases at - i
  {
    if i == at {
      OccursIsBegins(s, at, m.close);
      assert s[i..][|m.close|..] == s[at + |m.close|..];
    } else {
      NotHere(s, i, m.close);
      assert s[i..][1..] == s[i + 1..];
      SkipInside(m, s, i + 1, at);
    }
  }

  lemma {:induction false} HoldInside(m: Markers, s: string, i: nat, tail: string)
    requires BeginningOf(m.close, tail) && i <= |s| - |tail| && tail == s[|s| - |tail|..]
    requires forall j {:trigger s[j..]} | i <= j < |s| - |tail| :: !BeginningOf(m.close, s[j..])
    requires forall j | i <= j :: !OccursAt(s, j, m.close)
    ensures Scan(m, true, s[i..]) == Scanned("", true, tail)
    decreases |s| - i
  {
    if i < |s| - |tail| {
      NotHere(s, i, m.close);
      assert s[i..][1..] == s[i + 1..];
      HoldInside(m, s, i + 1, tail);
    }
  }

  lemma LeaveTag(m: Markers, goal: Scanned, shown: string, s: string, at: nat)
    requires OccursAt(s, at, m.close) && forall j | 0 <= j < at :: !OccursAt(s, j, m.close)
    requires Leads(m, shown, true, s, goal)
    ensures Leads(m, shown, false, s[at + |m.close|..], goal)
  {
    SkipInside(m, s, 0, at);
    assert s[0..] == s;
  }

  lemma StayInTag(m: Markers, goal: Scanned, shown: string, s: string, tail: string)
    requires BeginningOf(m.close, tail) && |tail| <= |s| && tail == s[|s| - |tail|..]
    requires forall j {:trigger s[j..]} | 0 <= j < |s| - |tail| :: !BeginningOf(m.close, s[j..])
    requires forall j | 0 <= j :: !OccursAt(s, j, m.close)
    requires Leads(m, shown, true, s, goal)
    ensures goal == Scanned(shown, true, tail)
  {
    HoldInside(m, s, 0, tail);
    assert s[0..] == s && shown + "" == shown;
  }

  /** Outside a tag, the character at `i` is shown: no marker is, or may yet be, there. */
  predicate Shown(m: Markers, s: string, i: int) {
    0 <= i < |s| && !StartsTag(m, s[i..]) && !Begins(m.open, s[i..])
  }

  lemma {:induction false} PassRange(m: Markers, s: string, i: nat, end: nat)
    requires i <= end <= |s| && forall j | i <= j < end :: Shown(m, s, j)
    ensures Scan(m, false, s[i..]) == Scanned(s[i..end], false, "").Then(Scan(m, false, s[end..]))
    decreases end - i
  {
    if i == end {
      assert s[i..end] == "";
    } else {
      assert Shown(m, s, i);
      PassRange(m, s, i + 1, end);
      PassOne(m, s, i);
      assert [s[i]] + s[i + 1..end] == s[i..end];
    }
  }

  lemma PassOne(m: Markers, s: string, i: nat)
    requires Shown(m, s, i)
    ensures Scan(m, false, s[i..]) == Scanned([s[i]], false, "").Then(Scan(m, false, s[i + 1..]))
  {
    assert s[i..][0] == s[i] && s[i..][1..] == s[i + 1..];
  }

  lemma ShownBefore(m: Markers, s: string, at: nat)
    requires OccursAt(s, at, m.open) && forall j | 0 <= j < at :: !OccursAt(s, j, m.open)
    ensures forall j | 0 <= j < at :: Shown(m, s, j)
  {
    forall j | 0 <= j < at ensures Shown(m, s, j) { NotHere(s, j, m.open); }
  }

  lemma HoldOutside(m: Markers, goal: Scanned, shown: string, s: string, tail: string)
    requires BeginningOf(m.open, tail) && |tail| <= |s| && tail == s[|s| - |tail|..]
    requires forall j {:trigger s[j..]} | 0 <= j < |s| - |tail| :: !BeginningOf(m.open, s[j..])
    requires forall j | 0 <= j :: !OccursAt(s, j, m.open)
    requires Leads(m, shown, false, s, goal)
    ensures goal == Scanned(shown + s[..|s| - |tail|], false, tail)
  {
    var end := |s| - |tail|;
    forall j | 0 <= j < end ensures Shown(m, s, j) {
      NotHere(s, j, m.open);
      assert !BeginningOf(m.open, s[j..]);
    }
    PassRange(m, s, 0, end);
    assert s[0..] == s;
  }

  lemma EnterTag(m: Markers, goal: Scanned, shown: string, s: string, at: nat)
    requires OccursAt(s, at, m.open) && forall j | 0 <= j < at :: !OccursAt(s, j, m.open)
    requires at + |m.open| < |s| && (IsAsciiWhitespace(s[at + |m.open|]) || s[at + |m.open|] == '>')
    requires Leads(m, shown, false, s, goal)
    ensures Leads(m, shown + s[..at], true, s[at + |m.open|..], goal)
  {
    ShownBefore(m, s, at);
    PassRange(m, s, 0, at);
    OccursIsBegins(s, at, m.open);
    assert s[0..] == s && StartsTag(m, s[at..]) && s[at..][|m.open|..] == s[at + |m.open|..];
    ThenAssoc(Scanned(shown, false, ""), Scanned(s[..at], false, ""), Scan(m, true, s[at + |m.open|..]));
  }

  lemma CutAtMarker(m: Markers, goal: Scanned, shown: string, s: string, at: nat)
    requires OccursAt(s, at, m.open) && forall j | 0 <= j < at :: !OccursAt(s, j, m.open)
    requires at + |m.open| == |s|
    requires Leads(m, shown, false, s, goal)
    ensures goal == Scanned(shown + s[..at], false, s[at..])
    ensures s[at..] == m.open
  {
    ShownBefore(m, s, at);
    PassRange(m, s, 0, at);
    assert s[0..] == s;
    OccursIsSlice(s, at, m.open);
    assert s[at..] == s[at..at + |m.open|];
    BeginsIsPrefix(m.open, s[at..]);
  }

  /** An open marker that opens no tag is passed over whole: no marker starts inside a marker. */
  lemma PassMarker(m: Markers, goal: Scanned, shown: string, s: string, at: nat)
    requires OccursAt(s, at, m.open) && forall j | 0 <= j < at :: !OccursAt(s, j, m.open)
    requires at + |m.open| < |s| && !(IsAsciiWhitespace(s[at + |m.open|]) || s[at + |m.open|] == '>')
    requires Leads(m, shown, false, s, goal)
    ensures Leads(m, shown + s[..at + |m.open|], false, s[at + |m.open|..], goal)
  {
    var after := at + |m.open|;
    ShownBefore(m, s, at);
    forall j | at <= j < after ensures Shown(m, s, j) {
      assert MatchAt(s, at, m.open, j - at) && s[j..][0] == s[j];
      assert j > at ==> !IsAt(m.open, j - at, m.open[0]);
      assert j > at ==> !SameAt(s[j..], m.open, 0) && !SameAt(m.open, s[j..], 0);
      if j == at { assert s[at..][|m.open|] == s[after]; }
    }
    PassRange(m, s, 0, after);
    assert s[0..] == s;
    ThenAssoc(Scanned(shown, false, ""), Scanned(s[..after], false, ""), Scan(m, false, s[after..]));
  }

  lemma NotHere(s: string, i: nat, marker: string)
    requires i <= |s| && !OccursAt(s, i, marker)
    ensures !Begins(s[i..], marker)
    ensures Begins(marker, s[i..]) ==> BeginningOf(marker, s[i..])
  {
    OccursIsBegins(s, i, marker);
    BeginsIsPrefix(s[i..], marker);
    BeginsIsPrefix(marker, s[i..]);
  }

  // ---------- Streaming shows what the finished text shows ----------

  /** Scanning can be interrupted anywhere: the carry and the mode are all that has to be kept. */
  lemma {:induction false} ScanResumes(m: Markers, inTag: bool, x: string, more: string)
    ensures var r := Scan(m, inTag, x);
            Scan(m, inTag, x + more) == Scanned(r.visible, r.inTag, "").Then(Scan(m, r.inTag, r.carry + more))
    decreases |x|
  {
    if inTag && Begins(x, m.close) {
      var y := x[|m.close|..];
      BeginsStays(m.close, x, more);
      assert (x + more)[|m.close|..] == y + more;
      ScanResumes(m, false, y, more);
    } else if inTag && BeginningOf(m.close, x) {
      ThenUnit(Scan(m, true, x + more));
    } else if inTag {
      Diverges(m.close, x, more);
      var y := x[1..];
      assert (x + more)[1..] == y + more;
      ScanResumes(m, true, y, more);
    } else if StartsTag(m, x) {
      var y := x[|m.open|..];
      BeginsStays(m.open, x, more);
      assert (x + more)[|m.open|..] == y + more;
      ScanResumes(m, true, y, more);
    } else if Begins(m.open, x) {
      ThenUnit(Scan(m, false, x + more));
    } else {
      Undecided(m, x, more);
      ScanResumes(m, false, x[1..], more);
      ResumePassed(m, x, more);
    }
  }

  lemma Undecided(m: Markers, x: string, more: string)
    requires !StartsTag(m, x) && !Begins(m.open, x)
    ensures !StartsTag(m, x + more) && !Begins(m.open, x + more)
  {
    BeginsIsPrefix(x, m.open);
    BeginsIsPrefix(m.open, x);
    if Begins(x, m.open) { assert (x + more)[|m.open|] == x[|m.open|]; } else { Diverges(m.open, x, more); }
  }

  lemma ResumePassed(m: Markers, x: string, more: string)
    requires !StartsTag(m, x) && !Begins(m.open, x) && !StartsTag(m, x + more) && !Begins(m.open, x + more)
    requires var r := Scan(m, false, x[1..]);
             Scan(m, false, x[1..] + more) == Scanned(r.visible, r.inTag, "").Then(Scan(m, r.inTag, r.carry + more))
    ensures var r := Scan(m, false, x);
            Scan(m, false, x + more) == Scanned(r.visible, r.inTag, "").Then(Scan(m, r.inTag, r.carry + more))
  {
    var c, y := [x[0]], x[1..];
    var r := Scan(m, false, y);
    var r' := Scan(m, r.inTag, r.carry + more);
    assert Scan(m, false, x) == Scanned(c, false, "").Then(r);
    assert (x + more)[1..] == y + more && (x + more)[0] == x[0];
    assert Scan(m, false, x + more) == Scanned(c, false, "").Then(Scan(m, false, y + more));
    ThenAssoc(Scanned(c, false, ""), Scanned(r.visible, r.inTag, ""), r');
  }

  lemma Diverges(marker: string, x: string, more: string)
    requires !Begins(x, marker) && !BeginningOf(marker, x)
    ensures !Begins(x + more, marker) && !Begins(marker, x + more)
  {
    BeginsIsPrefix(x, marker);
    BeginsIsPrefix(marker, x);
    BeginsIsPrefix(x + more, marker);
    BeginsIsPrefix(marker, x + more);
    assert !(marker <= x) && !(x <= marker);
    var k :| 0 <= k < |marker| && k < |x| && marker[k] != x[k];
    assert (x + more)[k] == x[k];
  }

  lemma BeginsStays(marker: string, x: string, more: string)
    requires Begins(x, marker)
    ensures Begins(x + more, marker)
  {
    forall i | 0 <= i < |marker| ensures SameAt(x + more, marker, i) { assert SameAt(x, marker, i); }
  }

  /** Flushing after a scan shows exactly what the finished text shows. */
  lemma {:induction false} ScanThenFlush(m: Markers, inTag: bool, s: string)
    ensures Scan(m, inTag, s).visible + Scan(m, inTag, s).Flush() == Remaining(m, inTag, s)
    decreases |s|
  {
    if inTag {
      if Begins(s, m.close) {
        ScanThenFlush(m, false, s[|m.close|..]);
      } else if BeginningOf(m.close, s) {
        ShortHidden(m, s);
      } else {
        ScanThenFlush(m, true, s[1..]);
      }
    } else if StartsTag(m, s) {
      ScanThenFlush(m, true, s[|m.open|..]);
    } else if Begins(m.open, s) {
      BeginsIsPrefix(m.open, s);
      forall i | 1 <= i < |s| ensures s[i] != m.open[0] { assert !IsAt(m.open, i, m.open[0]); }
      if s != "" { NoMarkerVisible(m, s[1..]); }
    } else {
      ScanThenFlush(m, false, s[1..]);
    }
  }

  lemma {:induction false} ShortHidden(m: Markers, s: string)
    requires |s| < |m.close|
    ensures Hidden(m, s) == ""
  {
    if s != "" { ShortHidden(m, s[1..]); }
  }

  lemma {:induction false} NoMarkerVisible(m: Markers, s: string)
    requires forall i | 0 <= i < |s| :: s[i] != m.open[0]
    ensures Visible(m, s) == s
  {
    if s != "" {
      assert !SameAt(s, m.open, 0);
      NoMarkerVisible(m, s[1..]);
    }
  }

  /** The filter after a run of pushes, from a state `st` whose output so far is `st.visible`. */
  function PushAll(m: Markers, st: Scanned, chunks: seq<string>): Scanned
    decreases |chunks|
  {
    if chunks == [] then st
    else PushAll(m, Scanned(st.visible, st.inTag, "").Then(Scan(m, st.inTag, st.carry + chunks[0])), chunks[1..])
  }

  lemma {:induction false} PushAllScans(m: Markers, st: Scanned, chunks: seq<string>)
    requires Scan(m, st.inTag, st.carry) == Scanned("", st.inTag, st.carry)
    ensures PushAll(m, st, chunks) == Scanned(st.visible, st.inTag, "").Then(Scan(m, st.inTag, st.carry + Flatten(chunks)))
    decreases |chunks|
  {
    if chunks == [] {
      assert st.carry + Flatten(chunks) == st.carry;
    } else {
      var x, rest := st.carry + chunks[0], Flatten(chunks[1..]);
      assert x + rest == st.carry + Flatten(chunks);
      var r := Scan(m, st.inTag, x);
      ScanIdle(m, st.inTag, x);
      PushAllScans(m, Scanned(st.visible + r.visible, r.inTag, r.carry), chunks[1..]);
      ScanResumes(m, st.inTag, x, rest);
      var r' := Scan(m, r.inTag, r.carry + rest);
      assert st.visible + (r.visible + r'.visible) == st.visible + r.visible + r'.visible;
    }
  }

  /** What is held back is undecided: scanning it again decides nothing. */
  lemma {:induction false} ScanIdle(m: Markers, inTag: bool, s: string)
    ensures var r := Scan(m, inTag, s);
            (if r.inTag then BeginningOf(m.close, r.carry) else Begins(m.open, r.carry)) && Scan(m, r.inTag, r.carry) == Scanned("", r.inTag, r.carry)
    decreases |s|
  {
    if inTag {
      if Begins(s, m.close) { ScanIdle(m, false, s[|m.close|..]); }
      else if !BeginningOf(m.close, s) { ScanIdle(m, true, s[1..]); }
    } else if StartsTag(m, s) {
      ScanIdle(m, true, s[|m.open|..]);
    } else if !Begins(m.open, s) {
      ScanIdle(m, false, s[1..]);
    }
  }

  lemma ChunkingIsInvisibleFor(m: Markers, chunks: seq<string>)
    ensures var end := PushAll(m, Scanned("", false, ""), chunks);
            && end.visible + end.Flush() == Visible(m, Flatten(chunks))
            && if end.inTag then BeginningOf(m.close, end.carry) else Begins(m.open, end.carry)
  {
    var text := Flatten(chunks);
    PushAllScans(m, Scanned("", false, ""), chunks);
    assert "" + text == text;
    ThenUnit(Scan(m, false, text));
    assert PushAll(m, Scanned("", false, ""), chunks) == Scan(m, false, text);
    ScanThenFlush(m, false, text);
    ScanIdle(m, false, text);
  }

  /** However a text is cut into pieces, pushing the pieces and flushing shows `Visible` of the text,
      and no more than 9 characters (10 inside a tag) are ever held back. */
  lemma {:induction false} ChunkingIsInvisible(chunks: seq<string>)
    ensures var end := PushAll(TOOL_USE, Scanned("", false, ""), chunks);
            && end.visible + end.Flush() == Visible(TOOL_USE, Flatten(chunks))
            && |end.carry| <= if end.inTag then 10 else 9
  {
    ChunkingIsInvisibleFor(TOOL_USE, chunks);
  }

  /** A filter object driven over any chunking: the statement above for the running code. */
  method FilterChunks(chunks: seq<string>) returns (visible: string)
    ensures visible == Visible(TOOL_USE, Flatten(chunks))
  {
    var filter := new ToolTagFilter();
    visible := "";
    for i := 0 to |chunks|
      invariant filter.Valid() && fresh(filter)
      invariant Scanned(visible, filter.inTag, filter.carry) == Scan(filter.markers, false, Flatten(chunks[..i]))
    {
      var shown := filter.Push(chunks[i]);
      ScanResumes(TOOL_USE, false, Flatten(chunks[..i]), chunks[i]);
      FlattenSnoc(chunks[..i], chunks[i]);
      assert chunks[..i] + [chunks[i]] == chunks[..i + 1];
      visible := visible + shown;
    }
    assert chunks[..|chunks|] == chunks;
    ScanThenFlush(TOOL_USE, false, Flatten(chunks));
    var rest := filter.Flush();
    visible := visible + rest;
  }
}
