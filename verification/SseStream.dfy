/** The event stream over a chunked response (app/client-api/src/ai.rs): taking blocks out of a growing
    buffer with a scan position that survives between calls, and handing out parsed events one by one.
    What a block parses to, UTF-8 decoding and JSON included, is a parameter. */
module SseStream {
  import opened Options
  import opened SseFraming
  import Strings

  const MAX_SSE_BUFFER_BYTES: nat := 4 * 1024 * 1024

  type Item(==)

  /** What a block parses to: nothing to hand out, or an item, which may be the last one. */
  datatype Parsed = Ignored | Emitted(item: Item, last: bool)

  type BlockParser = bytes -> Parsed

  datatype Chunk = Bytes(data: bytes) | Broken

  datatype Output = FromBlock(item: Item) | Overflow | TransportError

  // ---------- What a stream hands out ----------

  /** The items of a run of blocks, up to and including one that ends the stream. */
  datatype Delivered = Delivered(items: seq<Output>, ended: bool)

  function Deliver(parse: BlockParser, blocks: seq<bytes>): Delivered {
    if blocks == [] then Delivered([], false)
    else match parse(blocks[0])
      case Ignored => Deliver(parse, blocks[1..])
      case Emitted(item, true) => Delivered([FromBlock(item)], true)
      case Emitted(item, false) =>
        var rest := Deliver(parse, blocks[1..]);
        Delivered([FromBlock(item)] + rest.items, rest.ended)
  }

  /** Everything still to be handed out, from a buffer and the chunks still to come. */
  function Outputs(parse: BlockParser, buffer: bytes, incoming: seq<Chunk>): seq<Output>
    decreases |incoming|, 1
  {
    var d := Drain(buffer);
    var now := Deliver(parse, d.blocks);
    if now.ended then now.items else now.items + OutputsAfter(parse, d.residue, incoming)
  }

  function OutputsAfter(parse: BlockParser, residue: bytes, incoming: seq<Chunk>): seq<Output>
    decreases |incoming|, 0
  {
    if incoming == [] then []
    else match incoming[0]
      case Broken => [TransportError]
      case Bytes(data) =>
        if |residue| + |data| > MAX_SSE_BUFFER_BYTES then [Overflow]
        else Outputs(parse, residue + data, incoming[1..])
  }

  // ---------- The stream itself ----------

  /** The first delimiter at or after `start`, and how many positions were looked at to find it. */
  method FindSseDelimiter(buffer: bytes, start: nat)
      returns (found: bool, position: nat, len: nat, ghost examined: nat)
    requires start <= |buffer|
    ensures position == FirstDelimiter(DelimitersOf(buffer), start) && found == (position < |buffer|)
    ensures found ==> len == DelimiterLen(buffer, position) && 0 < len && position + len <= |buffer|
    ensures examined == if found then position - start + 1 else |buffer| - start
  {
    ghost var d := DelimitersOf(buffer);
    position := start;
    while position < |buffer|
      invariant start <= position <= |buffer|
      invariant forall q | start <= q < position :: d[q] == 0
    {
      assert d[position] == DelimiterLen(buffer, position);
      var first := LineTerminatorLen(buffer, position);
      if first > 0 {
        var second := LineTerminatorLen(buffer, position + first);
        if second > 0 {
          FirstIs(d, start, position);
          return true, position, first + second, position - start + 1;
        }
      }
      position := position + 1;
    }
    FirstIs(d, start, position);
    return false, position, 0, |buffer| - start;
  }

  class SseState {
    var incoming: seq<Chunk>
    var buffer: bytes
    var scanFrom: nat
    var done: bool
    ghost var received: nat    // bytes that have arrived
    ghost var consumed: nat    // bytes taken out of the buffer
    ghost var examined: nat    // positions looked at for a delimiter
    ghost var misses: nat      // searches that found none

    /** No position before `scanFrom` is a delimiter or can become one. The searches so far have looked at
        no more positions than bytes were consumed or passed by, and three more for each miss. */
    ghost predicate Valid()
      reads this
    {
      && (scanFrom == 0 || scanFrom + 3 <= |buffer|)
      && (forall q | 0 <= q < scanFrom :: DelimiterLen(buffer, q) == 0)
      && received == consumed + |buffer|
      && examined <= consumed + scanFrom + 3 * misses
    }

    /** Finding the delimiters is linear in the bytes received. */
    lemma ScanningIsLinear()
      requires Valid()
      ensures examined <= received + 3 * misses
    {
    }

    constructor (incoming: seq<Chunk>)
      ensures Valid() && this.incoming == incoming && buffer == [] && !done && received == examined == misses == 0
    {
      this.incoming, buffer, scanFrom, done := incoming, [], 0, false;
      received, consumed, examined, misses := 0, 0, 0, 0;
    }

    /** Takes out the first complete block, as a search from the very start of the buffer would find it. */
    method TakeNextSseEvent() returns (r: Option<bytes>)
      requires Valid()
      modifies this`buffer, this`scanFrom, this`consumed, this`examined, this`misses
      ensures Valid() && misses == old(misses) + (if r.None? then 1 else 0)
      ensures r.None? ==> buffer == old(buffer) && NoBlock(buffer)
      ensures r.Some? ==> |buffer| < |old(buffer)| && Takes(old(buffer), r.value, buffer)
    {
      var found, position, len;
      ghost var looked;
      found, position, len, looked := FindSseDelimiter(buffer, scanFrom);
      examined := examined + looked;
      if !found {
        NoneFound(buffer, scanFrom);
        scanFrom := if |buffer| < 3 then 0 else |buffer| - 3;
        misses := misses + 1;
        return None;
      }
      var event, rest := buffer[..position], buffer[position + len..];
      TakeFound(buffer, scanFrom, position, event, rest);
      scanFrom := 0;
      consumed := consumed + position + len;
      buffer := rest;
      r := Some(event);
    }

    /** Everything this stream has still to hand out. */
    ghost function Pending(parse: BlockParser): seq<Output>
      reads this
    {
      if done then [] else Outputs(parse, buffer, incoming)
    }

    /** Hands out the next item, or `None` at the end of the stream. */
    method Next(parse: BlockParser) returns (r: Option<Output>)
      requires Valid()
      modifies this
      ensures Valid()
      ensures r.None? ==> old(Pending(parse)) == []
      ensures r.Some? ==> old(Pending(parse)) == [r.value] + Pending(parse)
      decreases |incoming|
    {
      if done {
        return None;
      }
      ghost var pending := Pending(parse);
      while true
        invariant Valid() && !done && Outputs(parse, buffer, incoming) == pending
        decreases |incoming|, |buffer|
      {
        ghost var whole := buffer;
        var block := TakeNextSseEvent();
        var more;
        match block {
          case Some(b) => r, more := HandOut(parse, b, whole, pending);
          case None => r, more := NextChunk(parse, pending);
        }
        if !more {
          return;
        }
      }
    }

    /** Parses a block that was taken out, and hands out what it holds, if anything. */
    method HandOut(parse: BlockParser, b: bytes, ghost whole: bytes, ghost pending: seq<Output>)
        returns (r: Option<Output>, more: bool)
      requires Valid() && !done && Takes(whole, b, buffer) && Outputs(parse, whole, incoming) == pending
      modifies this`done
      ensures Valid() && more == r.None?
      ensures more ==> !done && Outputs(parse, buffer, incoming) == pending
      ensures !more ==> pending == [r.value] + Pending(parse)
    {
      OutputsOfBlock(parse, whole, b, buffer, incoming);
      match parse(b) {
        case Ignored => r, more := None, true;
        case Emitted(item, last) =>
          done := last;
          r, more := Some(FromBlock(item)), false;
      }
    }

    /** Takes in the next chunk when no block is left: the stream may end, break or overflow here. */
    method NextChunk(parse: BlockParser, ghost pending: seq<Output>) returns (r: Option<Output>, more: bool)
      requires Valid() && !done && NoBlock(buffer) && Outputs(parse, buffer, incoming) == pending
      modifies this
      ensures Valid()
      ensures more ==> !done && |incoming| < |old(incoming)| && Outputs(parse, buffer, incoming) == pending
      ensures !more && r.None? ==> pending == []
      ensures !more && r.Some? ==> pending == [r.value] + Pending(parse)
    {
      OutputsOfResidue(parse, buffer, incoming);
      if incoming == [] {
        return None, false;
      }
      var chunk := incoming[0];
      incoming := incoming[1..];
      match chunk {
        case Broken =>
          done := true;
          return Some(TransportError), false;
        case Bytes(data) =>
          if |buffer| + |data| > MAX_SSE_BUFFER_BYTES {
            done := true;
            return Some(Overflow), false;
          }
          Arrive(data);
          return None, true;
      }
    }

    /** A chunk joins the end of the buffer; nothing scanned comes back into question. */
    method Arrive(data: bytes)
      requires Valid()
      modifies this`buffer, this`received
      ensures Valid() && buffer == old(buffer) + data
    {
      forall q | 0 <= q < scanFrom ensures DelimiterLen(buffer + data, q) == 0 {
        UndecidedIsNearTheEnd(buffer, data, q);
      }
      buffer := buffer + data;
      received := received + |data|;
    }
  }

  // ---------- Taking blocks one by one is draining ----------

  /** Starting the search at `scanFrom` finds what starting at 0 finds. */
  lemma SkipScanned(b: bytes, scanFrom: nat)
    requires scanFrom <= |b| && forall q | 0 <= q < scanFrom :: DelimiterLen(b, q) == 0
    ensures FirstDelimiter(DelimitersOf(b), 0) == FirstDelimiter(DelimitersOf(b), scanFrom)
  {
    FirstIs(DelimitersOf(b), 0, FirstDelimiter(DelimitersOf(b), scanFrom));
  }

  lemma NoDelimiters(b: bytes)
    requires FirstDelimiter(DelimitersOf(b), 0) == |b|
    ensures NoBlock(b) && forall q | 0 <= q < |b| :: DelimiterLen(b, q) == 0
  {
    forall q | 0 <= q < |b| ensures DelimiterLen(b, q) == 0 { assert DelimitersOf(b)[q] == DelimiterLen(b, q); }
  }

  lemma FirstCut(b: bytes, p: nat, k: nat)
    requires p < |b| && FirstDelimiter(DelimitersOf(b), 0) == p && k == p + DelimiterLen(b, p) <= |b|
    ensures CutsOf(b) == Block(0, p, Shift(CutsOf(b[k..]), k))
  {
    assert CutsOf(b) == Block(0, p, CutsFrom(DelimitersOf(b), k)) by { CutStep(DelimitersOf(b), 0, p); }
    CutsOfRest(b, k);
  }

  lemma DelimiterFits(b: bytes, p: nat)
    requires p < |b| && FirstDelimiter(DelimitersOf(b), 0) == p
    ensures DelimiterLen(b, p) > 0 && p + DelimiterLen(b, p) <= |b|
  {
    assert DelimitersOf(b)[p] == DelimiterLen(b, p);
  }

  lemma TakeFirst(b: bytes, p: nat, k: nat)
    requires p < |b| && FirstDelimiter(DelimitersOf(b), 0) == p && k == p + DelimiterLen(b, p)
    ensures p < k <= |b| && Takes(b, b[..p], b[k..])
  {
    DelimiterFits(b, p);
    var c := CutsOf(b[k..]);
    assert CutsOf(b) == Block(0, p, Shift(c, k)) by { FirstCut(b, p, k); }
    DrainOfCut(b, p, k, c);
  }

  lemma DrainOfCut(b: bytes, p: nat, k: nat, c: Cuts)
    requires p < k <= |b| && c == CutsOf(b[k..]) && CutsOf(b) == Block(0, p, Shift(c, k))
    ensures Takes(b, b[..p], b[k..])
  {
    BlocksShift(b, k, c);
    RestWithin(c, |b[k..]|);
    assert b[RestOf(c) + k..] == b[k..][RestOf(c)..] && b[0..p] == b[..p];
  }

  /** `event` is the first block of `b`, and `rest` is what follows it. */
  ghost predicate Takes(b: bytes, event: bytes, rest: bytes) {
    Drain(b) == Drained([event], []).Then(Drain(rest))
  }

  /** Searching on from `scanFrom` and taking out what is found there drains the first block. */
  lemma TakeFound(b: bytes, scanFrom: nat, p: nat, event: bytes, rest: bytes)
    requires scanFrom <= p < |b| && p == FirstDelimiter(DelimitersOf(b), scanFrom)
    requires forall q | 0 <= q < scanFrom :: DelimiterLen(b, q) == 0
    requires p + DelimiterLen(b, p) <= |b| && event == b[..p] && rest == b[p + DelimiterLen(b, p)..]
    ensures Takes(b, event, rest)
  {
    assert FirstDelimiter(DelimitersOf(b), 0) == p by { SkipScanned(b, scanFrom); }
    TakeFirst(b, p, p + DelimiterLen(b, p));
  }

  lemma NoneFound(b: bytes, scanFrom: nat)
    requires scanFrom <= |b| && |b| == FirstDelimiter(DelimitersOf(b), scanFrom)
    requires forall q | 0 <= q < scanFrom :: DelimiterLen(b, q) == 0
    ensures NoBlock(b) && forall q | 0 <= q < |b| :: DelimiterLen(b, q) == 0
  {
    SkipScanned(b, scanFrom);
    NoDelimiters(b);
  }

  lemma OutputsOfBlock(parse: BlockParser, whole: bytes, block: bytes, rest: bytes, incoming: seq<Chunk>)
    requires Takes(whole, block, rest)
    ensures Outputs(parse, whole, incoming) == match parse(block)
              case Ignored => Outputs(parse, rest, incoming)
              case Emitted(item, true) => [FromBlock(item)]
              case Emitted(item, false) => [FromBlock(item)] + Outputs(parse, rest, incoming)
  {
    var more := Drain(rest);
    assert ([block] + more.blocks)[1..] == more.blocks;
    match parse(block) {
      case Emitted(item, false) =>
        var now := Deliver(parse, more.blocks);
        assert [FromBlock(item)] + now.items + OutputsAfter(parse, more.residue, incoming)
            == [FromBlock(item)] + (now.items + OutputsAfter(parse, more.residue, incoming));
      case _ =>
    }
  }

  lemma OutputsOfResidue(parse: BlockParser, residue: bytes, incoming: seq<Chunk>)
    requires NoBlock(residue)
    ensures Outputs(parse, residue, incoming) == OutputsAfter(parse, residue, incoming)
  {
    NoBlockDrains(residue);
    var after := OutputsAfter(parse, residue, incoming);
    assert Deliver(parse, []) == Delivered([], false) && [] + after == after;
  }

  // ---------- The items do not depend on the chunking ----------

  function Data(chunks: seq<bytes>): seq<Chunk> {
    if chunks == [] then [] else [Bytes(chunks[0])] + Data(chunks[1..])
  }

  /** No chunk that is read makes the buffer overflow; none is read after the item that ends the stream. */
  predicate Fits(parse: BlockParser, residue: bytes, chunks: seq<bytes>)
    decreases |chunks|
  {
    chunks == [] ||
    (|residue| + |chunks[0]| <= MAX_SSE_BUFFER_BYTES
     && var d := Drain(residue + chunks[0]);
        Deliver(parse, d.blocks).ended || Fits(parse, d.residue, chunks[1..]))
  }

  lemma {:induction false} DeliverSplit(parse: BlockParser, a: seq<bytes>, b: seq<bytes>)
    ensures var x := Deliver(parse, a);
            Deliver(parse, a + b) == if x.ended then x else
              Delivered(x.items + Deliver(parse, b).items, Deliver(parse, b).ended)
  {
    if a == [] {
      assert a + b == b && [] + Deliver(parse, b).items == Deliver(parse, b).items;
    } else {
      assert (a + b)[1..] == a[1..] + b;
      DeliverSplit(parse, a[1..], b);
      match parse(a[0]) {
        case Emitted(item, false) =>
          var x, y := Deliver(parse, a[1..]).items, Deliver(parse, b).items;
          assert [FromBlock(item)] + (x + y) == [FromBlock(item)] + x + y;
        case _ =>
      }
    }
  }

  /** A stream that stays under the buffer limit hands out the items of the blocks of all its bytes. */
  lemma {:induction false} OutputsOfChunks(parse: BlockParser, residue: bytes, chunks: seq<bytes>)
    requires NoBlock(residue) && Fits(parse, residue, chunks)
    ensures OutputsAfter(parse, residue, Data(chunks)) ==
            Deliver(parse, Drain(residue + Strings.Flatten(chunks)).blocks).items
    decreases |chunks|
  {
    if chunks == [] {
      assert residue + Strings.Flatten(chunks) == residue;
      NoBlockDrains(residue);
    } else {
      var b, rest := residue + chunks[0], Strings.Flatten(chunks[1..]);
      assert residue + Strings.Flatten(chunks) == b + rest;
      assert Data(chunks)[1..] == Data(chunks[1..]);
      var d := Drain(b);
      var e := Drain(d.residue + rest);
      if !Deliver(parse, d.blocks).ended {
        ResidueHasNoBlock(b);
        OutputsOfChunks(parse, d.residue, chunks[1..]);
      }
      assert Drain(b + rest).blocks == d.blocks + e.blocks by { DrainResumes(b, rest); }
      DeliverSplit(parse, d.blocks, e.blocks);
    }
  }

  lemma InLater<T>(x: T, a: seq<T>, b: seq<T>)
    requires x in b
    ensures x in a + b
  {
    var i :| 0 <= i < |b| && b[i] == x;
    assert (a + b)[|a| + i] == x;
  }

  /** A chunk that does not fit, and is read, makes the stream overflow. */
  lemma {:induction false} NotFitsOverflows(parse: BlockParser, residue: bytes, chunks: seq<bytes>)
    requires NoBlock(residue) && !Fits(parse, residue, chunks)
    ensures Overflow in OutputsAfter(parse, residue, Data(chunks))
    decreases |chunks|
  {
    var b := residue + chunks[0];
    assert Data(chunks)[1..] == Data(chunks[1..]);
    if |residue| + |chunks[0]| <= MAX_SSE_BUFFER_BYTES {
      var d := Drain(b);
      ResidueHasNoBlock(b);
      NotFitsOverflows(parse, d.residue, chunks[1..]);
      InLater(Overflow, Deliver(parse, d.blocks).items, OutputsAfter(parse, d.residue, Data(chunks[1..])));
    }
  }

  lemma {:induction false} NoOverflowDelivered(parse: BlockParser, blocks: seq<bytes>)
    ensures Overflow !in Deliver(parse, blocks).items
  {
    if blocks != [] { NoOverflowDelivered(parse, blocks[1..]); }
  }

  /** What the blocks of all the bytes hand out, however the bytes are cut. */
  function ItemsOf(parse: BlockParser, data: bytes): seq<Output> {
    Deliver(parse, Drain(data).blocks).items
  }

  /** Exactly the chunkings that fit hand out the items of all their bytes. */
  lemma {:induction false} OutputsExactly(parse: BlockParser, chunks: seq<bytes>)
    ensures Outputs(parse, [], Data(chunks)) == ItemsOf(parse, Strings.Flatten(chunks)) <==> Fits(parse, [], chunks)
  {
    NoDelimiters([]);
    OutputsOfResidue(parse, [], Data(chunks));
    if Fits(parse, [], chunks) {
      OutputsOfChunks(parse, [], chunks);
      assert [] + Strings.Flatten(chunks) == Strings.Flatten(chunks);
    } else {
      NotFitsOverflows(parse, [], chunks);
      NoOverflowDelivered(parse, Drain(Strings.Flatten(chunks)).blocks);
    }
  }

  lemma OutputsOfAll(parse: BlockParser, chunks: seq<bytes>)
    requires Fits(parse, [], chunks)
    ensures Outputs(parse, [], Data(chunks)) == ItemsOf(parse, Strings.Flatten(chunks))
  {
    OutputsExactly(parse, chunks);
  }

  /** So a chunking of the same bytes as one that fits hands out the same items exactly if it fits too. */
  lemma ChunkingKeepsItems(parse: BlockParser, chunks: seq<bytes>, chunks': seq<bytes>)
    requires Strings.Flatten(chunks) == Strings.Flatten(chunks') && Fits(parse, [], chunks)
    ensures Outputs(parse, [], Data(chunks)) == Outputs(parse, [], Data(chunks')) <==> Fits(parse, [], chunks')
  {
    OutputsExactly(parse, chunks);
    OutputsExactly(parse, chunks');
  }

  // ---------- Above the limit they do ----------

  lemma OneChunk(parse: BlockParser, s: bytes)
    requires |s| > MAX_SSE_BUFFER_BYTES
    ensures Outputs(parse, [], Data([s])) == [Overflow]
  {
    NoDelimiters([]);
    OutputsOfResidue(parse, [], Data([s]));
    assert Data([s])[0] == Bytes(s);
  }

  lemma DrainsSome(b: bytes)
    requires |b| > 1 && b[0] == LF && b[1] == LF
    ensures |Drain(b).residue| <= |b| - 2
  {
    assert DelimiterLen(b, 0) == 2 == DelimitersOf(b)[0];
    FirstIs(DelimitersOf(b), 0, 0);
    TakeFirst(b, 0, 2);
    RestWithin(CutsOf(b[2..]), |b[2..]|);
  }

  lemma TwoChunks(parse: BlockParser, a: bytes, b: bytes)
    requires |a| <= MAX_SSE_BUFFER_BYTES && |Drain(a).residue| + |b| <= MAX_SSE_BUFFER_BYTES
    ensures Fits(parse, [], [a, b])
  {
    assert [a, b][1..] == [b] && [b][1..] == [] && [] + a == a;
  }

  /** Above the limit the chunking does matter, whatever blocks parse to: the same line feeds overflow the
      buffer in one chunk, and fit in two because the blocks of the first are taken out in between. */
  lemma ChunkingMattersAbove(parse: BlockParser) returns (whole: bytes, a: bytes, b: bytes)
    ensures Strings.Flatten([whole]) == Strings.Flatten([a, b])
    ensures Fits(parse, [], [a, b]) && Outputs(parse, [], Data([whole])) == [Overflow] != Outputs(parse, [], Data([a, b]))
  {
    a, b := seq(MAX_SSE_BUFFER_BYTES, _ => LF), [LF];
    whole := a + b;
    assert [a, b][1..] == [b] && [b][1..] == [] && [whole][1..] == [];
    assert a + (b + []) == whole + [];
    OneChunk(parse, whole);
    DrainsSome(a);
    TwoChunks(parse, a, b);
    OutputsExactly(parse, [whole]);
    ChunkingKeepsItems(parse, [a, b], [whole]);
  }
}
