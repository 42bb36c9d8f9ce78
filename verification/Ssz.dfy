/**
 * The parts of Simple Serialize the block codec uses: the container encoder (fixed parts with
 * 4-byte offsets first, variable parts after) and lists of byte strings.
 */
module Ssz {
  import opened Bytes
  import opened Wrappers

  const BYTES_PER_LENGTH_OFFSET := 4

  /** A growable byte vector, shared by an encoder and its caller. */
  class Buffer {
    var bytes: seq<Byte>

    constructor ()
      ensures bytes == []
    {
      bytes := [];
    }

    method Extend(item: seq<Byte>)
      modifies this
      ensures bytes == old(bytes) + item
    {
      bytes := bytes + item;
    }
  }

  /** Collects fixed parts into the caller's buffer and variable parts on the side. */
  class Encoder {
    const buf: Buffer
    const fixedLength: nat
    var variable: seq<Byte>

    constructor (buf: Buffer, fixedLength: nat)
      ensures this.buf == buf && this.fixedLength == fixedLength && variable == []
    {
      this.buf := buf;
      this.fixedLength := fixedLength;
      this.variable := [];
    }

    method AppendFixed(item: seq<Byte>)
      modifies buf
      ensures buf.bytes == old(buf.bytes) + item
    {
      buf.Extend(item);
    }

    method AppendVariable(item: seq<Byte>)
      modifies this, buf
      ensures buf.bytes == old(buf.bytes) + Offset(fixedLength + |old(variable)|)
      ensures variable == old(variable) + item
    {
      buf.Extend(Offset(fixedLength + |variable|));
      variable := variable + item;
    }

    method Finish()
      modifies this, buf
      ensures buf.bytes == old(buf.bytes) + old(variable) && variable == []
    {
      buf.Extend(variable);
      variable := [];
    }
  }

  /** An offset field; a length of 2^32 or more is cut to its low four bytes. */
  function Offset(length: nat): (s: seq<Byte>)
    ensures |s| == 4
  {
    LittleEndian(length, 4)
  }

  function Concat(items: seq<seq<Byte>>): seq<Byte> {
    if items == [] then [] else items[0] + Concat(items[1..])
  }

  /** The offset fields of consecutive items, the first of which starts at `at`. */
  function Offsets(items: seq<seq<Byte>>, at: nat): (s: seq<Byte>)
    ensures |s| == 4 * |items|
  {
    if items == [] then [] else Offset(at) + Offsets(items[1..], at + |items[0]|)
  }

  /** Every item starts below 2^32, so no offset is cut. */
  predicate OffsetsFit(items: seq<seq<Byte>>, at: nat) {
    items == [] || (at < U32_LIMIT && OffsetsFit(items[1..], at + |items[0]|))
  }

  /** The serialization of a list of byte strings. */
  function ListBytes(items: seq<seq<Byte>>): (s: seq<Byte>) {
    Offsets(items, 4 * |items|) + Concat(items)
  }

  predicate ListFits(items: seq<seq<Byte>>) {
    OffsetsFit(items, 4 * |items|)
  }

  /** The encoder run over a list item by item leaves exactly `ListBytes` in the buffer. */
  method AppendList(buf: Buffer, items: seq<seq<Byte>>)
    modifies buf
    ensures buf.bytes == old(buf.bytes) + ListBytes(items)
  {
    var encoder := new Encoder(buf, 4 * |items|);
    ghost var before := buf.bytes;
    for i := 0 to |items|
      invariant encoder.buf == buf && encoder.fixedLength == 4 * |items| && fresh(encoder)
      invariant before + Offsets(items, 4 * |items|) == buf.bytes + Offsets(items[i..], 4 * |items| + |encoder.variable|)
      invariant Concat(items) == encoder.variable + Concat(items[i..])
    {
      OneItem(items, i, buf.bytes, encoder.variable, 4 * |items| + |encoder.variable|);
      encoder.AppendVariable(items[i]);
    }
    assert items[|items|..] == [];
    assert encoder.variable == Concat(items);
    assert buf.bytes == before + Offsets(items, 4 * |items|);
    encoder.Finish();
    assert buf.bytes == before + (Offsets(items, 4 * |items|) + Concat(items));
  }

  /** Item `i` moves its offset and its contents from what is still to come to what is written. */
  lemma OneItem(items: seq<seq<Byte>>, i: nat, table: seq<Byte>, contents: seq<Byte>, at: nat)
    requires i < |items|
    ensures table + Offsets(items[i..], at) == (table + Offset(at)) + Offsets(items[i + 1..], at + |items[i]|)
    ensures contents + Concat(items[i..]) == (contents + items[i]) + Concat(items[i + 1..])
  {
    assert items[i..][1..] == items[i + 1..];
  }

  /**
   * Items `i .. count` of a list whose offset table has `count` entries; item `i - 1` starts at
   * `start`. An offset must not point into the table, past the end, or before its predecessor.
   */
  function DecodeItems(bytes: seq<Byte>, count: nat, i: nat, start: nat): Option<seq<seq<Byte>>>
    requires 1 <= i <= count && 4 * count <= start <= |bytes|
    decreases count - i
  {
    if i == count then Some([bytes[start..]])
    else
      var next := FromLittleEndian(bytes[4 * i..4 * i + 4]);
      if next < 4 * count || next > |bytes| || start > next then None
      else
        match DecodeItems(bytes, count, i + 1, next)
        case None => None
        case Some(rest) => Some([bytes[start..next]] + rest)
  }

  function DecodeList(bytes: seq<Byte>): Option<seq<seq<Byte>>> {
    if bytes == [] then Some([])
    else if |bytes| < 4 then None
    else
      var first := FromLittleEndian(bytes[..4]);
      if first > |bytes| || first % 4 != 0 || first < 4 then None
      else DecodeItems(bytes, first / 4, 1, first)
  }

  /** `bytes` holds `items` from item `i - 1` on: the rest of the table, and the contents from `start`. */
  predicate Holds(bytes: seq<Byte>, count: nat, i: nat, start: nat, items: seq<seq<Byte>>)
    requires 1 <= i <= count && 4 * count <= start <= |bytes|
  {
    && |items| == count - i + 1
    && bytes[4 * i..4 * count] == Offsets(items[1..], start + |items[0]|)
    && bytes[start..] == Concat(items)
    && OffsetsFit(items, start)
  }

  lemma Joined(bytes: seq<Byte>, lo: nat, mid: nat, hi: nat)
    requires lo <= mid <= hi <= |bytes|
    ensures bytes[lo..hi] == bytes[lo..mid] + bytes[mid..hi]
  {
  }

  lemma Parted(bytes: seq<Byte>, lo: nat, hi: nat, x: seq<Byte>, y: seq<Byte>)
    requires lo <= hi <= |bytes| && bytes[lo..hi] == x + y
    ensures lo + |x| <= hi && bytes[lo..lo + |x|] == x && bytes[lo + |x|..hi] == y
  {
    Joined(bytes, lo, lo + |x|, hi);
    assert (x + y)[..|x|] == x && (x + y)[|x|..] == y;
    assert bytes[lo..hi][..|x|] == bytes[lo..lo + |x|] && bytes[lo..hi][|x|..] == bytes[lo + |x|..hi];
  }

  /** If the rest is laid out from `next` on, one more item before it is too. */
  lemma OneMoreHeld(bytes: seq<Byte>, count: nat, i: nat, start: nat, next: nat, rest: seq<seq<Byte>>)
    requires 1 <= i < count && 4 * count <= start <= next <= |bytes| && start < U32_LIMIT
    requires bytes[4 * i..4 * i + 4] == Offset(next)
    requires Holds(bytes, count, i + 1, next, rest)
    ensures Holds(bytes, count, i, start, [bytes[start..next]] + rest)
  {
    var items := [bytes[start..next]] + rest;
    assert items[1..] == rest;
    Joined(bytes, 4 * i, 4 * i + 4, 4 * count);
    Joined(bytes, start, next, |bytes|);
  }

  /** What is read was laid out there. */
  lemma {:induction false} ItemsSound(bytes: seq<Byte>, count: nat, i: nat, start: nat)
    requires 1 <= i <= count && 4 * count <= start <= |bytes| && start < U32_LIMIT
    requires DecodeItems(bytes, count, i, start).Some?
    ensures Holds(bytes, count, i, start, DecodeItems(bytes, count, i, start).value)
    decreases count - i
  {
    if i < count {
      var next := FromLittleEndian(bytes[4 * i..4 * i + 4]);
      FourBytes(bytes[4 * i..4 * i + 4], next);
      ItemsSound(bytes, count, i + 1, next);
      OneMoreHeld(bytes, count, i, start, next, DecodeItems(bytes, count, i + 1, next).value);
    } else {
      LastHeld(bytes, count, start);
    }
  }

  lemma LastHeld(bytes: seq<Byte>, count: nat, start: nat)
    requires 1 <= count && 4 * count <= start <= |bytes| && start < U32_LIMIT
    ensures Holds(bytes, count, count, start, [bytes[start..]])
  {
    var items := [bytes[start..]];
    assert items[1..] == [];
    assert Concat(items) == items[0] + [];
  }

  /** What was laid out is read. */
  lemma {:induction false} ItemsComplete(bytes: seq<Byte>, count: nat, i: nat, start: nat, items: seq<seq<Byte>>)
    requires 1 <= i <= count && 4 * count <= start <= |bytes|
    requires Holds(bytes, count, i, start, items)
    ensures DecodeItems(bytes, count, i, start) == Some(items)
    decreases count - i
  {
    var rest := items[1..];
    var at := start + |items[0]|;
    Parted(bytes, start, |bytes|, items[0], Concat(rest));
    if i < count {
      Parted(bytes, 4 * i, 4 * count, Offset(at), Offsets(rest[1..], at + |rest[0]|));
      FourBytes(bytes[4 * i..4 * i + 4], at);
      ItemsComplete(bytes, count, i + 1, at, rest);
      assert items == [items[0]] + rest;
    } else {
      assert items[0] + Concat(rest) == items[0];
      assert items == [items[0]];
    }
  }

  /**
   * Decoding accepts exactly the serializations whose offsets fit in four bytes, and returns the
   * list that was serialized: nothing else is read, and nothing is read in two ways.
   */
  lemma ListExact(bytes: seq<Byte>, items: seq<seq<Byte>>)
    ensures DecodeList(bytes) == Some(items) <==> (bytes == ListBytes(items) && ListFits(items))
  {
    if DecodeList(bytes) == Some(items) && bytes != [] {
      ListSound(bytes, items);
    }
    if bytes == ListBytes(items) && ListFits(items) && items != [] {
      ListComplete(items);
    }
  }

  lemma ListSound(bytes: seq<Byte>, items: seq<seq<Byte>>)
    requires bytes != [] && DecodeList(bytes) == Some(items)
    ensures bytes == ListBytes(items) && ListFits(items)
  {
    var first := FromLittleEndian(bytes[..4]);
    FourBytes(bytes[..4], first);
    var count := first / 4;
    assert first == 4 * count;
    ItemsSound(bytes, count, 1, first);
    Joined(bytes, 0, 4, first);
    Joined(bytes, 0, first, |bytes|);
    assert Offsets(items, first) == Offset(first) + Offsets(items[1..], first + |items[0]|);
  }

  lemma ListComplete(items: seq<seq<Byte>>)
    requires items != [] && ListFits(items)
    ensures DecodeList(ListBytes(items)) == Some(items)
  {
    var bytes := ListBytes(items);
    var first := 4 * |items|;
    var table := Offsets(items[1..], first + |items[0]|);
    assert Offsets(items, first) == Offset(first) + table;
    assert bytes == Offset(first) + table + Concat(items);
    assert bytes[..4] == Offset(first) && bytes[4..first] == table && bytes[first..] == Concat(items);
    FourBytes(bytes[..4], first);
    ItemsComplete(bytes, |items|, 1, first, items);
  }
}
