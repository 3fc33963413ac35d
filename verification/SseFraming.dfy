/** Server-sent event framing (app/client-api/src/ai.rs): cutting a byte buffer that grows chunk by chunk
    into event blocks. A block ends at two line terminators in a row; each is CRLF, LF or CR. */
module SseFraming {
  import Strings

  newtype byte = x: int | 0 <= x < 256

  type bytes = seq<byte>

  const LF: byte := 10
  const CR: byte := 13

  /** The length of the line terminator at `pos`; 0 if there is none, or if it is a CR at the very end,
      which may turn out to be half of a CRLF. */
  function LineTerminatorLen(b: bytes, pos: nat): nat {
    if pos >= |b| then 0
    else if b[pos] == LF then 1
    else if b[pos] != CR || pos + 1 == |b| then 0
    else if b[pos + 1] == LF then 2
    else 1
  }

  /** The length of the block delimiter at `pos`; 0 if there is none. */
  function DelimiterLen(b: bytes, pos: nat): nat {
    var first := LineTerminatorLen(b, pos);
    var second := LineTerminatorLen(b, pos + first);
    if first == 0 || second == 0 then 0 else first + second
  }

  /** The delimiter lengths of a buffer, by position. */
  type Delimiters = seq<nat>

  ghost predicate FitAt(d: Delimiters, q: int) {
    0 <= q < |d| && d[q] > 0 ==> 2 <= d[q] && q + d[q] <= |d|
  }

  ghost predicate Fit(d: Delimiters) {
    forall q :: FitAt(d, q)
  }

  function DelimitersOf(b: bytes): (d: Delimiters)
    ensures |d| == |b| && Fit(d) && forall q | 0 <= q < |b| :: d[q] == DelimiterLen(b, q)
  {
    seq(|b|, q requires 0 <= q < |b| => DelimiterLen(b, q))
  }

  /** The first delimiter at or after `start`, or the end of the buffer. */
  function FirstDelimiter(d: Delimiters, start: nat): (r: nat)
    requires start <= |d|
    ensures start <= r <= |d| && (r < |d| ==> d[r] > 0)
    ensures forall q | start <= q < r :: d[q] == 0
    decreases |d| - start
  {
    if start == |d| || d[start] > 0 then start else FirstDelimiter(d, start + 1)
  }

  /** Where a buffer is cut: each block by where it starts and ends, then where the residue starts. */
  datatype Cuts = Rest(from: nat) | Block(start: nat, end: nat, next: Cuts)

  function CutsFrom(d: Delimiters, from: nat): (r: Cuts)
    requires Fit(d) && from <= |d|
    ensures Within(r, |d|)
    decreases |d| - from
  {
    var p := FirstDelimiter(d, from);
    assert FitAt(d, p);
    if p == |d| then Rest(from) else Block(from, p, CutsFrom(d, p + d[p]))
  }

  predicate Within(c: Cuts, n: nat) {
    match c
    case Rest(from) => from <= n
    case Block(start, end, next) => start <= end <= n && Within(next, n)
  }

  function RestOf(c: Cuts): nat {
    match c
    case Rest(from) => from
    case Block(_, _, next) => RestOf(next)
  }

  lemma {:induction false} RestWithin(c: Cuts, n: nat)
    requires Within(c, n)
    ensures RestOf(c) <= n
  {
    if c.Block? { RestWithin(c.next, n); }
  }

  function BlocksOf(b: bytes, c: Cuts): seq<bytes>
    requires Within(c, |b|)
  {
    match c
    case Rest(_) => []
    case Block(start, end, next) => [b[start..end]] + BlocksOf(b, next)
  }

  datatype Drained = Drained(blocks: seq<bytes>, residue: bytes) {
    function Then(next: Drained): Drained {
      Drained(blocks + next.blocks, next.residue)
    }
  }

  function CutsOf(b: bytes): (c: Cuts)
    ensures Within(c, |b|)
  {
    CutsFrom(DelimitersOf(b), 0)
  }

  /** All the complete blocks of a buffer, and what is left. */
  function Drain(b: bytes): Drained {
    RestWithin(CutsOf(b), |b|);
    Drained(BlocksOf(b, CutsOf(b)), b[RestOf(CutsOf(b))..])
  }

  // ---------- More bytes change nothing that is decided ----------

  lemma DelimiterStays(b: bytes, more: bytes, pos: nat)
    requires DelimiterLen(b, pos) > 0
    ensures DelimiterLen(b + more, pos) == DelimiterLen(b, pos)
  {
  }

  /** No earlier delimiter appears in front of one that is complete. */
  lemma NoneBefore(b: bytes, more: bytes, q: nat, p: nat)
    requires q < p && DelimiterLen(b, q) == 0 && DelimiterLen(b, p) > 0
    ensures DelimiterLen(b + more, q) == 0
  {
  }

  /** Where more bytes bring a delimiter, the buffer ended at most three bytes further on. */
  lemma UndecidedIsNearTheEnd(b: bytes, more: bytes, pos: nat)
    requires DelimiterLen(b, pos) == 0 && pos + 3 < |b|
    ensures DelimiterLen(b + more, pos) == 0
  {
  }

  function Join(c: Cuts, tail: Cuts): Cuts {
    match c
    case Rest(_) => tail
    case Block(start, end, next) => Block(start, end, Join(next, tail))
  }

  function Shift(c: Cuts, k: nat): Cuts {
    match c
    case Rest(from) => Rest(from + k)
    case Block(start, end, next) => Block(start + k, end + k, Shift(next, k))
  }

  lemma {:induction false} FirstIs(d: Delimiters, start: nat, p: nat)
    requires start <= p <= |d| && (p < |d| ==> d[p] > 0) && forall q | start <= q < p :: d[q] == 0
    ensures FirstDelimiter(d, start) == p
    decreases p - start
  {
    if start < p { FirstIs(d, start + 1, p); }
  }

  /** A first delimiter stays the first, with its length, in a longer buffer. */
  ghost predicate StaysFirst(d: Delimiters, d': Delimiters, from: nat) {
    from <= |d| <= |d'| && (FirstDelimiter(d, from) < |d| ==>
      FirstDelimiter(d', from) == FirstDelimiter(d, from) && d'[FirstDelimiter(d, from)] == d[FirstDelimiter(d, from)])
  }

  lemma DelimitersExtend(b: bytes, more: bytes, from: nat)
    requires from <= |b|
    ensures StaysFirst(DelimitersOf(b), DelimitersOf(b + more), from)
  {
    var d, d' := DelimitersOf(b), DelimitersOf(b + more);
    var p := FirstDelimiter(d, from);
    if p < |b| {
      DelimiterStays(b, more, p);
      forall q | from <= q < p ensures d'[q] == 0 { NoneBefore(b, more, q, p); }
      FirstIs(d', from, p);
    }
  }

  /** A longer buffer is cut where the shorter one was, and then on from where that one's residue starts. */
  lemma {:induction false} CutsExtend(d: Delimiters, d': Delimiters, from: nat)
    requires Fit(d) && Fit(d') && from <= |d| <= |d'|
    requires forall k: nat | k <= |d| :: StaysFirst(d, d', k)
    requires RestOf(CutsFrom(d, from)) <= |d|
    ensures CutsFrom(d', from) == Join(CutsFrom(d, from), CutsFrom(d', RestOf(CutsFrom(d, from))))
    decreases |d| - from
  {
    match CutsFrom(d, from)
    case Rest(_) =>
    case Block(_, p, _) =>
      var next := BothCut(d, d', from, p);
      CutsExtend(d, d', next);
  }

  lemma BothCut(d: Delimiters, d': Delimiters, from: nat, p: nat) returns (next: nat)
    requires Fit(d) && Fit(d') && from <= |d| <= |d'| && StaysFirst(d, d', from)
    requires CutsFrom(d, from).Block? && CutsFrom(d, from).end == p
    ensures from < next <= |d|
    ensures CutsFrom(d, from) == Block(from, p, CutsFrom(d, next))
    ensures CutsFrom(d', from) == Block(from, p, CutsFrom(d', next))
  {
    CutStep(d, from, p);
    CutStep(d', from, p);
    next := p + d[p];
    assert FitAt(d, p);
  }

  lemma CutStep(d: Delimiters, from: nat, p: nat)
    requires Fit(d) && from <= p < |d| && FirstDelimiter(d, from) == p
    ensures p + d[p] <= |d| && CutsFrom(d, from) == Block(from, p, CutsFrom(d, p + d[p]))
  {
    assert FitAt(d, p);
  }

  ghost predicate ShiftedAt(d: Delimiters, s: Delimiters, k: nat, q: int) {
    0 <= q < |s| && k + q < |d| && s[q] == d[k + q]
  }

  /** Cutting from a position is cutting the bytes from there on. */
  lemma {:induction false} CutsShift(d: Delimiters, s: Delimiters, k: nat, from: nat)
    requires Fit(d) && Fit(s) && k + |s| == |d| && from <= |s|
    requires forall q | 0 <= q < |s| :: ShiftedAt(d, s, k, q)
    ensures CutsFrom(d, k + from) == Shift(CutsFrom(s, from), k)
    decreases |s| - from
  {
    match CutsFrom(s, from)
    case Rest(_) => ShiftedFirst(d, s, k, from);
    case Block(_, p, _) =>
      var next := BothShifted(d, s, k, from, p);
      CutsShift(d, s, k, next);
  }

  lemma BothShifted(d: Delimiters, s: Delimiters, k: nat, from: nat, p: nat) returns (next: nat)
    requires Fit(d) && Fit(s) && k + |s| == |d| && from <= |s|
    requires forall q | 0 <= q < |s| :: ShiftedAt(d, s, k, q)
    requires CutsFrom(s, from).Block? && CutsFrom(s, from).end == p
    ensures from < next <= |s|
    ensures CutsFrom(s, from) == Block(from, p, CutsFrom(s, next))
    ensures CutsFrom(d, k + from) == Block(k + from, k + p, CutsFrom(d, k + next))
  {
    assert from <= p < |s| && FirstDelimiter(s, from) == p && 0 < s[p] && p + s[p] <= |s| by { assert FitAt(s, p); }
    next := p + s[p];
    CutStep(s, from, p);
    ShiftedStep(d, s, k, from, p);
  }

  lemma ShiftedStep(d: Delimiters, s: Delimiters, k: nat, from: nat, p: nat)
    requires Fit(d) && k + |s| == |d| && from <= p < |s| && FirstDelimiter(s, from) == p
    requires forall q | 0 <= q < |s| :: ShiftedAt(d, s, k, q)
    ensures k + p + s[p] <= |d| && CutsFrom(d, k + from) == Block(k + from, k + p, CutsFrom(d, k + p + s[p]))
  {
    ShiftedFirst(d, s, k, from);
    assert ShiftedAt(d, s, k, p);
    CutStep(d, k + from, k + p);
  }

  lemma ShiftedFirst(d: Delimiters, s: Delimiters, k: nat, from: nat)
    requires k + |s| == |d| && from <= |s|
    requires forall q | 0 <= q < |s| :: ShiftedAt(d, s, k, q)
    ensures FirstDelimiter(d, k + from) == k + FirstDelimiter(s, from)
  {
    var p := FirstDelimiter(s, from);
    forall q | k + from <= q < k + p ensures d[q] == 0 { assert ShiftedAt(d, s, k, q - k); }
    assert p < |s| ==> ShiftedAt(d, s, k, p);
    FirstIs(d, k + from, k + p);
  }

  /** The residue is cut by itself as it is cut in place. */
  lemma CutsOfRest(b: bytes, k: nat)
    requires k <= |b|
    ensures CutsFrom(DelimitersOf(b), k) == Shift(CutsOf(b[k..]), k)
  {
    var d, s := DelimitersOf(b), DelimitersOf(b[k..]);
    forall q | 0 <= q < |s| ensures ShiftedAt(d, s, k, q) {
      assert DelimiterLen(b[k..], q) == DelimiterLen(b, k + q);
    }
    CutsShift(d, s, k, 0);
  }

  lemma {:induction false} BlocksAppend(b: bytes, c: Cuts, tail: Cuts)
    requires Within(c, |b|) && Within(tail, |b|)
    ensures Within(Join(c, tail), |b|) && RestOf(Join(c, tail)) == RestOf(tail)
    ensures BlocksOf(b, Join(c, tail)) == BlocksOf(b, c) + BlocksOf(b, tail)
  {
    match c
    case Rest(_) => assert [] + BlocksOf(b, tail) == BlocksOf(b, tail);
    case Block(start, end, next) =>
      BlocksAppend(b, next, tail);
      FirstOfSum(b[start..end], BlocksOf(b, next), BlocksOf(b, tail));
  }

  lemma FirstOfSum(first: bytes, x: seq<bytes>, y: seq<bytes>)
    ensures [first] + (x + y) == [first] + x + y
  {
  }

  lemma {:induction false} BlocksShift(b: bytes, k: nat, c: Cuts)
    requires k <= |b| && Within(c, |b| - k)
    ensures Within(Shift(c, k), |b|) && BlocksOf(b, Shift(c, k)) == BlocksOf(b[k..], c)
    ensures RestOf(Shift(c, k)) == RestOf(c) + k
  {
    if c.Block? {
      BlocksShift(b, k, c.next);
      assert b[k..][c.start..c.end] == b[c.start + k..c.end + k];
    }
  }

  lemma {:induction false} BlocksPrefix(b: bytes, more: bytes, c: Cuts)
    requires Within(c, |b|)
    ensures Within(c, |b + more|) && BlocksOf(b + more, c) == BlocksOf(b, c)
  {
    if c.Block? {
      BlocksPrefix(b, more, c.next);
      assert (b + more)[c.start..c.end] == b[c.start..c.end];
    }
  }

  lemma CutsResume(b: bytes, more: bytes)
    ensures RestOf(CutsOf(b)) <= |b|
    ensures CutsOf(b + more) == Join(CutsOf(b), Shift(CutsOf(b[RestOf(CutsOf(b))..] + more), RestOf(CutsOf(b))))
  {
    var d, d', r := DelimitersOf(b), DelimitersOf(b + more), RestOf(CutsOf(b));
    RestWithin(CutsOf(b), |b|);
    forall k: nat | k <= |b| ensures StaysFirst(d, d', k) { DelimitersExtend(b, more, k); }
    CutsExtend(d, d', 0);
    assert (b + more)[r..] == b[r..] + more;
    CutsOfRest(b + more, r);
  }

  /** Draining can be interrupted anywhere: the residue is all that has to be kept. */
  lemma DrainResumes(b: bytes, more: bytes)
    ensures Drain(b + more) == Drain(b).Then(Drain(Drain(b).residue + more))
  {
    var whole, c, r := b + more, CutsOf(b), RestOf(CutsOf(b));
    CutsResume(b, more);
    var left := b[r..] + more;
    assert whole[r..] == left;
    var tail := CutsOf(left);
    RestWithin(tail, |left|);
    BlocksPrefix(b, more, c);
    BlocksShift(whole, r, tail);
    BlocksAppend(whole, c, Shift(tail, r));
    assert whole[RestOf(tail) + r..] == left[RestOf(tail)..];
  }

  /** Draining after each chunk. */
  function DrainChunks(residue: bytes, chunks: seq<bytes>): Drained
    decreases |chunks|
  {
    if chunks == [] then Drained([], residue)
    else
      var d := Drain(residue + chunks[0]);
      d.Then(DrainChunks(d.residue, chunks[1..]))
  }

  lemma {:induction false} RestIsUncut(d: Delimiters, from: nat)
    requires Fit(d) && from <= |d|
    ensures RestOf(CutsFrom(d, from)) <= |d|
    ensures CutsFrom(d, RestOf(CutsFrom(d, from))) == Rest(RestOf(CutsFrom(d, from)))
    decreases |d| - from
  {
    var p := FirstDelimiter(d, from);
    if p < |d| {
      assert FitAt(d, p);
      RestIsUncut(d, p + d[p]);
    }
  }

  /** No complete block is in the buffer. */
  predicate NoBlock(b: bytes) {
    CutsOf(b) == Rest(0)
  }

  lemma NoBlockDrains(b: bytes)
    requires NoBlock(b)
    ensures RestOf(CutsOf(b)) == 0 && Drain(b) == Drained([], b)
  {
    assert b[0..] == b;
  }

  lemma ResidueHasNoBlock(b: bytes)
    ensures NoBlock(Drain(b).residue)
  {
    var r := RestOf(CutsOf(b));
    RestWithin(CutsOf(b), |b|);
    RestIsUncut(DelimitersOf(b), 0);
    CutsOfRest(b, r);
  }

  lemma {:induction false} ChunkingFrom(residue: bytes, chunks: seq<bytes>)
    requires NoBlock(residue)
    ensures DrainChunks(residue, chunks) == Drain(residue + Strings.Flatten(chunks))
    decreases |chunks|
  {
    if chunks == [] {
      assert residue + Strings.Flatten(chunks) == residue;
      NoBlockDrains(residue);
    } else {
      var b, rest := residue + chunks[0], Strings.Flatten(chunks[1..]);
      assert residue + Strings.Flatten(chunks) == b + rest;
      assert Drain(b + rest) == Drain(b).Then(Drain(Drain(b).residue + rest)) by { DrainResumes(b, rest); }
      assert DrainChunks(Drain(b).residue, chunks[1..]) == Drain(Drain(b).residue + rest) by {
        ResidueHasNoBlock(b);
        ChunkingFrom(Drain(b).residue, chunks[1..]);
      }
    }
  }

  /** Chunk independence: however the bytes arrive, the blocks and the residue are those of the whole. */
  lemma {:induction false} ChunkingIsInvisible(chunks: seq<bytes>)
    ensures DrainChunks([], chunks) == Drain(Strings.Flatten(chunks))
  {
    ChunkingFrom([], chunks);
    assert [] + Strings.Flatten(chunks) == Strings.Flatten(chunks);
  }
}
