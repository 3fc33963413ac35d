/** The blocks that framing cuts (app/client-api/src/ai.rs) are the event groups of the line grammar of the
    WHATWG HTML Living Standard, section 9.2.5: lines end in CRLF, LF or CR, and a blank line ends a group. */
module SseGrammar {
  import opened Lists
  import opened Options
  import opened SseFraming

  type Lines = List<bytes>

  // ---------- The grammar ----------

  /** The length of the end-of-line at `i`; 0 if there is none. Here the bytes are all there is: a CR at
      the very end ends its line. */
  function EndOfLine(s: bytes, i: nat): (n: nat)
    ensures i + n <= |s| || n == 0
  {
    if i >= |s| then 0
    else if s[i] == LF then 1
    else if s[i] != CR then 0
    else if i + 1 < |s| && s[i + 1] == LF then 2
    else 1
  }

  /** Where the line that starts at `i` stops: at its end-of-line, or at the end of the bytes. */
  function LineStop(s: bytes, i: nat): (e: nat)
    requires i <= |s|
    ensures i <= e <= |s| && (e < |s| ==> EndOfLine(s, e) > 0)
    ensures forall q: nat | i <= q < e :: EndOfLine(s, q) == 0
    decreases |s| - i
  {
    if i == |s| || EndOfLine(s, i) > 0 then i else LineStop(s, i + 1)
  }

  function IfAny(lines: Lines, groups: List<Lines>): List<Lines> {
    if lines == Nil then groups else Cons(lines, groups)
  }

  /** A line, if there is anything in it. */
  function NonBlank(line: bytes): Lines {
    if |line| == 0 then Nil else Cons(line, Nil)
  }

  /** The groups completed by a blank line, from `i` on, where `group` has been read already. */
  function GroupsFrom(s: bytes, i: nat, group: Lines): List<Lines>
    requires i <= |s|
    decreases |s| - i
  {
    var e := LineStop(s, i);
    var next := e + EndOfLine(s, e);
    if e == |s| then Nil
    else if e == i then IfAny(group, GroupsFrom(s, next, Nil))
    else GroupsFrom(s, next, Append(group, Cons(s[i..e], Nil)))
  }

  function Groups(s: bytes): List<Lines> {
    GroupsFrom(s, 0, Nil)
  }

  /** A CR at the end may yet turn out to be half of a CRLF; the rest is settled. */
  function Settled(s: bytes): bytes {
    if s != [] && s[|s| - 1] == CR then s[..|s| - 1] else s
  }

  // ---------- The lines of a block, as the block parser splits it ----------

  predicate IsBreak(b: byte) {
    b == LF || b == CR
  }

  function BreakFrom(s: bytes, i: nat, hi: nat): (e: nat)
    requires i <= hi <= |s|
    ensures i <= e <= hi && (e < hi ==> IsBreak(s[e]))
    ensures forall q | i <= q < e :: !IsBreak(s[q])
    decreases hi - i
  {
    if i == hi || IsBreak(s[i]) then i else BreakFrom(s, i + 1, hi)
  }

  /** The pieces of `s[i..hi]` between CRs and LFs, without the empty ones. */
  function PiecesFrom(s: bytes, i: nat, hi: nat): Lines
    requires i <= hi <= |s|
    decreases hi - i
  {
    var e := BreakFrom(s, i, hi);
    var rest := if e == hi then Nil else PiecesFrom(s, e + 1, hi);
    if e == i then rest else Cons(s[i..e], rest)
  }

  function Pieces(block: bytes): Lines {
    PiecesFrom(block, 0, |block|)
  }

  function LinesOf(blocks: seq<bytes>): List<Lines> {
    if blocks == [] then Nil else IfAny(Pieces(blocks[0]), LinesOf(blocks[1..]))
  }

  // ---------- One block is one group ----------

  lemma SettledTerminator(s: bytes, i: nat)
    ensures EndOfLine(Settled(s), i) == LineTerminatorLen(s, i)
  {
  }

  /** Splitting at the stop of a line and splitting at the first break are the same, short of the end. */
  lemma {:induction false} BreakIsStop(s: bytes, i: nat, hi: nat)
    requires i <= hi < |s|
    ensures BreakFrom(s, i, hi) == if LineStop(s, i) < hi then LineStop(s, i) else hi
    decreases hi - i
  {
    if i < hi && !IsBreak(s[i]) { BreakIsStop(s, i + 1, hi); }
  }

  /** A CRLF counts once: its LF, on its own, would add an empty piece. */
  lemma SkipLineFeed(s: bytes, e: nat, next: nat, hi: nat)
    requires e < next <= hi < |s| && next == e + EndOfLine(s, e)
    ensures PiecesFrom(s, e + 1, hi) == PiecesFrom(s, next, hi)
  {
    if next == e + 2 { assert BreakFrom(s, e + 1, hi) == e + 1; }
  }

  /** The lines up to a position are the first one and those from the next line start. */
  lemma PiecesStep(s: bytes, i: nat, e: nat, next: nat, hi: nat)
    requires i <= e < next <= hi < |s| && e == LineStop(s, i) && next == e + EndOfLine(s, e)
    ensures PiecesFrom(s, i, hi) == Append(NonBlank(s[i..e]), PiecesFrom(s, next, hi))
  {
    assert BreakFrom(s, i, hi) == e by { BreakIsStop(s, i, hi); }
    SkipLineFeed(s, e, next, hi);
  }

  lemma PiecesToStop(s: bytes, i: nat, e: nat)
    requires i <= e < |s| && e == LineStop(s, i)
    ensures PiecesFrom(s, i, e) == NonBlank(s[i..e])
  {
    assert BreakFrom(s, i, e) == e by { BreakIsStop(s, i, e); }
  }

  ghost predicate DelimiterIs(s: bytes, t: bytes, q: nat) {
    DelimiterLen(s, q) == if EndOfLine(t, q) == 0 || EndOfLine(t, q + EndOfLine(t, q)) == 0 then 0
                          else EndOfLine(t, q) + EndOfLine(t, q + EndOfLine(t, q))
  }

  lemma DelimiterIsTwoEnds(s: bytes, q: nat)
    ensures DelimiterIs(s, Settled(s), q)
  {
    var t := Settled(s);
    SettledTerminator(s, q);
    SettledTerminator(s, q + EndOfLine(t, q));
  }

  lemma FirstDelimiterIs(s: bytes, i: nat, p: nat)
    requires i <= p <= |s| && (p < |s| ==> DelimiterLen(s, p) > 0) && forall q: nat | i <= q < p :: DelimiterLen(s, q) == 0
    ensures FirstDelimiter(DelimitersOf(s), i) == p
  {
    var d := DelimitersOf(s);
    forall q | i <= q < p ensures d[q] == 0 { assert d[q] == DelimiterLen(s, q); }
    FirstIs(d, i, p);
  }

  /** The first delimiter from `i` on, and the end of what it closes; the end of the bytes if there is none. */
  ghost predicate Closes(s: bytes, i: nat, p: nat) {
    i <= p <= |s| && p == FirstDelimiter(DelimitersOf(s), i)
  }

  lemma NoStop(s: bytes, i: nat)
    requires i <= |Settled(s)| && LineStop(Settled(s), i) == |Settled(s)|
    ensures Closes(s, i, |s|)
  {
    var t := Settled(s);
    forall q: nat | i <= q < |s| ensures DelimiterLen(s, q) == 0 { DelimiterIsTwoEnds(s, q); }
    FirstDelimiterIs(s, i, |s|);
  }

  /** A line end right before a blank line is where a delimiter starts. */
  lemma BlankNext(s: bytes, i: nat, e: nat, next: nat)
    requires i <= e < next <= |Settled(s)| && e == LineStop(Settled(s), i)
    requires next == e + EndOfLine(Settled(s), e) && EndOfLine(Settled(s), next) > 0
    ensures Closes(s, i, e) && e + DelimiterLen(s, e) == next + EndOfLine(Settled(s), next)
  {
    forall q: nat | i <= q < e ensures DelimiterLen(s, q) == 0 { DelimiterIsTwoEnds(s, q); }
    DelimiterIsTwoEnds(s, e);
    FirstDelimiterIs(s, i, e);
  }

  /** No delimiter starts in a line, or in its end, when the next line is not blank. */
  lemma TextNext(s: bytes, i: nat, e: nat, next: nat, p: nat)
    requires i <= e < next <= |Settled(s)| && e == LineStop(Settled(s), i)
    requires next == e + EndOfLine(Settled(s), e) && EndOfLine(Settled(s), next) == 0 && Closes(s, next, p)
    ensures Closes(s, i, p)
  {
    var d := DelimitersOf(s);
    forall q: nat | i <= q < next ensures DelimiterLen(s, q) == 0 { DelimiterIsTwoEnds(s, q); }
    forall q: nat | next <= q < p ensures DelimiterLen(s, q) == 0 { assert d[q] == 0 == DelimiterLen(s, q); }
    assert p < |s| ==> d[p] == DelimiterLen(s, p);
    FirstDelimiterIs(s, i, p);
  }

  /** From a line start, the group being read is completed by the lines up to the first delimiter. */
  ghost predicate OneGroup(s: bytes, t: bytes, i: nat, group: Lines, p: nat) {
    var n := p + DelimiterLen(s, p);
    && i <= |t|
    && (p == |s| ==> GroupsFrom(t, i, group) == Nil)
    && (p != |s| ==> i <= p < n <= |t|)
    && (p != |s| ==> GroupsFrom(t, i, group) == IfAny(Append(group, PiecesFrom(t, i, p)), GroupsFrom(t, n, Nil)))
  }

  lemma ReadLine(t: bytes, i: nat, group: Lines, e: nat, next: nat)
    requires i <= e < next <= |t| && e == LineStop(t, i) && next == e + EndOfLine(t, e) && (e == i ==> group == Nil)
    ensures GroupsFrom(t, i, group) == GroupsFrom(t, next, Append(group, NonBlank(t[i..e])))
  {
    AppendNil(group);
  }

  lemma ReadBlank(t: bytes, i: nat, group: Lines)
    requires i < |t| && EndOfLine(t, i) > 0
    ensures GroupsFrom(t, i, group) == IfAny(group, GroupsFrom(t, i + EndOfLine(t, i), Nil))
  {
  }

  lemma GroupEnds(s: bytes, t: bytes, i: nat, group: Lines, e: nat, next: nat)
    requires t == Settled(s) && i <= e < next <= |t| && e == LineStop(t, i) && next == e + EndOfLine(t, e)
    requires EndOfLine(t, next) > 0 && (e == i ==> group == Nil)
    requires e + DelimiterLen(s, e) == next + EndOfLine(t, next)
    ensures OneGroup(s, t, i, group, e)
  {
    ReadLine(t, i, group, e, next);
    ReadBlank(t, next, Append(group, NonBlank(t[i..e])));
    PiecesToStop(t, i, e);
  }

  lemma GroupGoesOn(s: bytes, t: bytes, i: nat, group: Lines, e: nat, next: nat, p: nat)
    requires t == Settled(s) && i <= e < next <= |t| && e == LineStop(t, i) && next == e + EndOfLine(t, e)
    requires (e == i ==> group == Nil) && next <= p <= |s| && OneGroup(s, t, next, Append(group, NonBlank(t[i..e])), p)
    ensures OneGroup(s, t, i, group, p)
  {
    ReadLine(t, i, group, e, next);
    if p != |s| {
      PiecesStep(t, i, e, next, p);
      AppendAssoc(group, NonBlank(t[i..e]), PiecesFrom(t, next, p));
    }
  }

  lemma {:induction false} ReadGroup(s: bytes, t: bytes, i: nat, group: Lines) returns (p: nat)
    requires t == Settled(s) && i <= |t| && (group != Nil ==> EndOfLine(t, i) == 0)
    ensures Closes(s, i, p) && OneGroup(s, t, i, group, p)
    decreases |t| - i
  {
    var e := LineStop(t, i);
    var next := e + EndOfLine(t, e);
    if e == |t| {
      NoStop(s, i);
      p := |s|;
    } else if EndOfLine(t, next) > 0 {
      BlankNext(s, i, e, next);
      GroupEnds(s, t, i, group, e, next);
      p := e;
    } else {
      p := ReadGroup(s, t, next, Append(group, NonBlank(t[i..e])));
      TextNext(s, i, e, next, p);
      GroupGoesOn(s, t, i, group, e, next, p);
    }
  }

  // ---------- All blocks are all groups ----------

  ghost predicate HeldAt(s: bytes, block: bytes, lo: nat, k: int) {
    0 <= k < |block| && lo + k < |s| ==> block[k] == s[lo + k]
  }

  /** Pieces are found in place as in the block on its own. */
  lemma {:induction false} PiecesShift(s: bytes, block: bytes, lo: nat, i: nat)
    requires lo + |block| <= |s| && i <= |block| && forall k :: HeldAt(s, block, lo, k)
    ensures PiecesFrom(block, i, |block|) == PiecesFrom(s, lo + i, lo + |block|)
    decreases |block| - i
  {
    var e := BreakFrom(block, i, |block|);
    var rest := if e == |block| then Nil else PiecesFrom(block, e + 1, |block|);
    if e < |block| { PiecesShift(s, block, lo, e + 1); }
    OnePiece(block, i, |block|, e, rest);
    BreakShift(s, block, lo, i);
    OnePiece(s, lo + i, lo + |block|, lo + e, rest);
    SliceShift(s, block, lo, i, e);
  }

  lemma SliceShift(s: bytes, block: bytes, lo: nat, i: nat, e: nat)
    requires lo + |block| <= |s| && i <= e <= |block| && forall k :: HeldAt(s, block, lo, k)
    ensures block[i..e] == s[lo + i..lo + e]
  {
    assert forall k | i <= k < e :: HeldAt(s, block, lo, k) ==> block[k] == s[lo + k];
  }

  lemma OnePiece(s: bytes, i: nat, hi: nat, e: nat, rest: Lines)
    requires i <= e <= hi <= |s| && e == BreakFrom(s, i, hi)
    requires rest == if e == hi then Nil else PiecesFrom(s, e + 1, hi)
    ensures PiecesFrom(s, i, hi) == if e == i then rest else Cons(s[i..e], rest)
  {
  }

  lemma {:induction false} BreakShift(s: bytes, block: bytes, lo: nat, i: nat)
    requires lo + |block| <= |s| && i <= |block| && forall k :: HeldAt(s, block, lo, k)
    ensures BreakFrom(s, lo + i, lo + |block|) == lo + BreakFrom(block, i, |block|)
    decreases |block| - i
  {
    if i < |block| {
      assert HeldAt(s, block, lo, i);
      if !IsBreak(block[i]) { BreakShift(s, block, lo, i + 1); }
    }
  }

  /** The next cut is the next group. */
  lemma NextCut(s: bytes, d: Delimiters, t: bytes, from: nat) returns (n: nat)
    requires d == DelimitersOf(s) && t == Settled(s) && from <= |t|
    ensures CutsFrom(d, from).Rest? ==> GroupsFrom(t, from, Nil) == Nil
    ensures CutsFrom(d, from).Block? ==> from < n <= |t| && from <= CutsFrom(d, from).end <= |t|
    ensures CutsFrom(d, from).Block? ==> CutsFrom(d, from) == Block(from, CutsFrom(d, from).end, CutsFrom(d, n))
    ensures CutsFrom(d, from).Block? ==>
              GroupsFrom(t, from, Nil) == IfAny(PiecesFrom(t, from, CutsFrom(d, from).end), GroupsFrom(t, n, Nil))
  {
    var p := ReadGroup(s, t, from, Nil);
    n := p + DelimiterLen(s, p);
    if p < |s| {
      assert d[p] == DelimiterLen(s, p);
      CutStep(d, from, p);
    }
  }

  lemma {:induction false} BlocksAreGroupsFrom(s: bytes, d: Delimiters, t: bytes, from: nat)
    requires d == DelimitersOf(s) && t == Settled(s) && from <= |t|
    ensures LinesOf(BlocksOf(s, CutsFrom(d, from))) == GroupsFrom(t, from, Nil)
    decreases |t| - from
  {
    var n := NextCut(s, d, t, from);
    match CutsFrom(d, from)
    case Rest(_) =>
    case Block(_, p, _) =>
      BlocksAreGroupsFrom(s, d, t, n);
      LinesOfFirst(s, from, p, CutsFrom(d, n));
  }

  lemma LinesOfFirst(s: bytes, from: nat, p: nat, next: Cuts)
    requires from <= p <= |Settled(s)| && Within(next, |s|)
    ensures LinesOf(BlocksOf(s, Block(from, p, next))) == IfAny(PiecesFrom(Settled(s), from, p), LinesOf(BlocksOf(s, next)))
  {
    var block := s[from..p];
    assert Pieces(block) == PiecesFrom(Settled(s), from, p) by { PiecesOfCut(s, from, p); }
    LinesOfCons(block, BlocksOf(s, next));
  }

  lemma PiecesOfCut(s: bytes, from: nat, p: nat)
    requires from <= p <= |Settled(s)|
    ensures Pieces(s[from..p]) == PiecesFrom(Settled(s), from, p)
  {
    PiecesShift(Settled(s), s[from..p], from, 0);
  }

  lemma LinesOfCons(block: bytes, blocks: seq<bytes>)
    ensures LinesOf([block] + blocks) == IfAny(Pieces(block), LinesOf(blocks))
  {
    assert ([block] + blocks)[1..] == blocks;
  }

  /** Framing agrees with the grammar: the blocks of any bytes, split into their non-empty lines and without
      the blocks that have none, are the groups completed so far. */
  lemma BlocksAreGroups(s: bytes)
    ensures LinesOf(Drain(s).blocks) == Groups(Settled(s))
  {
    BlocksAreGroupsFrom(s, DelimitersOf(s), Settled(s), 0);
  }

  // ---------- No cut falls inside a CRLF ----------

  predicate InsidePair(s: bytes, q: nat) {
    0 < q < |s| && s[q - 1] == CR && s[q] == LF
  }

  ghost predicate CutsOutsidePairs(s: bytes, c: Cuts) {
    match c
    case Rest(from) => !InsidePair(s, from)
    case Block(start, end, next) => !InsidePair(s, start) && !InsidePair(s, end) && CutsOutsidePairs(s, next)
  }

  lemma DelimiterEndsOutside(s: bytes, p: nat)
    requires DelimiterLen(s, p) > 0
    ensures !InsidePair(s, p + DelimiterLen(s, p))
  {
  }

  lemma {:induction false} NoCutInsidePairFrom(s: bytes, from: nat)
    requires from <= |s| && !InsidePair(s, from)
    ensures CutsOutsidePairs(s, CutsFrom(DelimitersOf(s), from))
    decreases |s| - from
  {
    if CutsFrom(DelimitersOf(s), from).Block? {
      var n := NextOutside(s, from);
      NoCutInsidePairFrom(s, n);
    }
  }

  lemma NextOutside(s: bytes, from: nat) returns (n: nat)
    requires from <= |s| && !InsidePair(s, from) && CutsFrom(DelimitersOf(s), from).Block?
    ensures from < n <= |s| && !InsidePair(s, n) && !InsidePair(s, CutsFrom(DelimitersOf(s), from).end)
    ensures CutsFrom(DelimitersOf(s), from) == Block(from, CutsFrom(DelimitersOf(s), from).end, CutsFrom(DelimitersOf(s), n))
  {
    var d := DelimitersOf(s);
    var p := FirstDelimiter(d, from);
    assert DelimiterLen(s, p) == d[p] > 0;
    n := p + d[p];
    assert !InsidePair(s, n) by { DelimiterEndsOutside(s, p); }
    CutStep(d, from, p);
    if p > from {
      assert DelimiterLen(s, p - 1) == d[p - 1] == 0;
      FirstStartsOutside(s, p);
    }
  }

  lemma FirstStartsOutside(s: bytes, p: nat)
    requires 0 < p && DelimiterLen(s, p) > 0 && DelimiterLen(s, p - 1) == 0
    ensures !InsidePair(s, p)
  {
  }

  /** No block, and no residue, starts or stops between the CR and the LF of a CRLF. */
  lemma NoCutInsidePair(s: bytes)
    ensures CutsOutsidePairs(s, CutsOf(s))
  {
    NoCutInsidePairFrom(s, 0);
  }

  // ---------- What the block parser reads from the lines ----------

  const EVENT: bytes := [101, 118, 101, 110, 116, 58]    // `event:`
  const DATA: bytes := [100, 97, 116, 97, 58]            // `data:`
  const SPACE: byte := 32

  /** The event name and the data, of a block. */
  datatype Fields = Fields(event: Option<bytes>, data: Option<bytes>)

  predicate HasPrefix(line: bytes, prefix: bytes) {
    |prefix| <= |line| && line[..|prefix|] == prefix
  }

  function Value(line: bytes): bytes
    requires HasPrefix(line, DATA)
  {
    if |line| > |DATA| && line[|DATA|] == SPACE then line[|DATA| + 1..] else line[|DATA|..]
  }

  /** Trims a name; what counts as whitespace in decoded text is not the framing's concern. */
  type Trimmer = bytes -> bytes

  /** One line: the last `event:` counts; each `data:` goes on a line of its own; the rest is ignored. */
  function WithLine(trim: Trimmer, f: Fields, line: bytes): Fields {
    if HasPrefix(line, EVENT) then f.(event := Some(trim(line[|EVENT|..])))
    else if HasPrefix(line, DATA) then
      f.(data := Some(match f.data case None => Value(line) case Some(data) => data + [LF] + Value(line)))
    else f
  }

  function FieldsFrom(trim: Trimmer, f: Fields, lines: Lines): Fields
    decreases lines
  {
    match lines
    case Nil => f
    case Cons(line, more) => FieldsFrom(trim, WithLine(trim, f, line), more)
  }

  function FieldsOf(trim: Trimmer, lines: Lines): Fields {
    FieldsFrom(trim, Fields(None, None), lines)
  }

  /** Reading an empty piece as a line changes nothing, so dropping it does not either. */
  lemma NextPiece(trim: Trimmer, f: Fields, block: bytes, i: nat, e: nat)
    requires i <= e <= |block| && e == BreakFrom(block, i, |block|)
    ensures FieldsFrom(trim, f, PiecesFrom(block, i, |block|)) ==
            FieldsFrom(trim, WithLine(trim, f, block[i..e]), if e == |block| then Nil else PiecesFrom(block, e + 1, |block|))
  {
    if e == i { assert WithLine(trim, f, block[i..e]) == f; }
  }

  method TakeLine(trim: Trimmer, f: Fields, line: bytes) returns (f': Fields)
    ensures f' == WithLine(trim, f, line)
  {
    f' := f;
    if HasPrefix(line, EVENT) {
      f' := f.(event := Some(trim(line[|EVENT|..])));
    } else if HasPrefix(line, DATA) {
      var data := if f.data.Some? then f.data.value + [LF] else [];
      assert [] + Value(line) == Value(line);
      f' := f.(data := Some(data + Value(line)));
    }
  }

  /** Reads the fields of a block line by line, splitting at every CR and LF, empty pieces and all: it
      finds what the lines of the grammar say. */
  method ExtractFields(trim: Trimmer, block: bytes) returns (f: Fields)
    ensures f == FieldsOf(trim, Pieces(block))
  {
    f := Fields(None, None);
    var i := 0;
    while i <= |block|
      invariant 0 <= i <= |block| + 1
      invariant i <= |block| ==> FieldsFrom(trim, f, PiecesFrom(block, i, |block|)) == FieldsOf(trim, Pieces(block))
      invariant i > |block| ==> f == FieldsOf(trim, Pieces(block))
    {
      var e := BreakFrom(block, i, |block|);
      var line := block[i..e];
      NextPiece(trim, f, block, i, e);
      f := TakeLine(trim, f, line);
      i := e + 1;
    }
  }
}
