/** Cutting a message into fragments (section 6.9 of RFC 9260, section 2.1 of RFC 8260). */
module Fragments {
  import opened Serial

  type byte = x: int | 0 <= x < 256

  /** A DATA or I-DATA chunk as the receiving side sees it. */
  datatype Fragment = Fragment(
    tsn: uint32, stream: uint16, ssn: uint16, mid: uint32, fsn: uint32,
    unordered: bool, iData: bool, first: bool, last: bool, ppi: uint32, data: seq<byte>)

  /** The bytes of chunks read one after the other. */
  function Joined(fs: seq<Fragment>): seq<byte> {
    if fs == [] then [] else Joined(fs[..|fs| - 1]) + fs[|fs| - 1].data
  }

  lemma {:induction false} JoinedAppend(a: seq<Fragment>, b: seq<Fragment>)
    ensures Joined(a + b) == Joined(a) + Joined(b)
  {
    if b == [] {
      assert a + b == a;
    } else {
      assert (a + b)[..|a + b| - 1] == a + b[..|b| - 1];
      JoinedAppend(a, b[..|b| - 1]);
    }
  }

  /** What the receiver relies on: the pieces of one message in order, with the flags on
      the ends, the same identifiers on all, and numbered from 0. */
  ghost predicate Message(fs: seq<Fragment>, raw: seq<byte>, ppi: uint32) {
    && Joined(fs) == raw && (raw != [] <==> fs != [])
    && forall i :: 0 <= i < |fs| ==> Piece(fs, i, ppi)
  }

  ghost predicate Piece(fs: seq<Fragment>, i: nat, ppi: uint32)
    requires i < |fs|
  {
    && fs[i].first == (i == 0) && fs[i].last == (i == |fs| - 1)
    && fs[i].fsn == i && fs[i].ppi == ppi && fs[i].data != []
    && fs[i].stream == fs[0].stream && fs[i].ssn == fs[0].ssn && fs[i].mid == fs[0].mid
    && fs[i].unordered == fs[0].unordered && fs[i].iData == fs[0].iData
  }

  const PPI_DCEP: uint32 := 50

  function Next16(n: uint16): (r: uint16)
    ensures r == Wire16(n + 1)
  {
    if n == 0xFFFF then 0 else n + 1
  }

  function Prev16(n: uint16): (r: uint16)
    ensures Next16(r) == n
  {
    if n == 0 then 0xFFFF else n - 1
  }

  function Next32(n: uint32): (r: uint32)
    ensures r == Wire(n + 1)
  {
    if n == 0xFFFF_FFFF then 0 else n + 1
  }

  function Prev32(n: uint32): (r: uint32)
    ensures Next32(r) == n
  {
    if n == 0 then 0xFFFF_FFFF else n - 1
  }

  datatype StreamState = Open | Closing | Closed

  datatype WriteError = Written | TooLarge | StreamClosed | Refused

  /** The sending half of a stream. */
  class Stream {
    const id: uint16
    const useInterleaving: bool
    const maxPayloadSize: uint32
    const maxMessageSize: uint32
    var unordered: bool
    var sequenceNumber: uint16
    var nextOrderedMID: uint32
    var nextUnorderedMID: uint32
    var bufferedAmount: nat
    var state: StreamState

    constructor (id: uint16, useInterleaving: bool, maxPayloadSize: uint32, maxMessageSize: uint32)
      ensures this.id == id && this.useInterleaving == useInterleaving
      ensures this.maxPayloadSize == maxPayloadSize && this.maxMessageSize == maxMessageSize
      ensures sequenceNumber == 0 && nextOrderedMID == 0 && nextUnorderedMID == 0 && bufferedAmount == 0
      ensures state == Open
    {
      this.id, this.useInterleaving := id, useInterleaving;
      this.maxPayloadSize, this.maxMessageSize := maxPayloadSize, maxMessageSize;
      unordered := false;
      sequenceNumber, nextOrderedMID, nextUnorderedMID, bufferedAmount := 0, 0, 0, 0;
      state := Open;
    }

    /** Data Channel Establishment messages, of payload type 50, are always ordered. The chunks
        join up to the message, none is empty or above the limit, all but the
        last are full, and exactly one counter moves on. */
    method Packetize(raw: seq<byte>, ppi: uint32) returns (chunks: seq<Fragment>, u: bool)
      requires 0 < maxPayloadSize && |raw| < TWO32
      modifies this`sequenceNumber, this`nextOrderedMID, this`nextUnorderedMID, this`bufferedAmount
      ensures Message(chunks, raw, ppi) && u == (old(unordered) && ppi != 50)
      ensures forall i :: 0 <= i < |chunks| ==> |chunks[i].data| <= maxPayloadSize
      ensures forall i :: 0 <= i < |chunks| - 1 ==> |chunks[i].data| == maxPayloadSize
      ensures chunks != [] ==>
                && chunks[0].stream == id && chunks[0].unordered == u && chunks[0].iData == useInterleaving
                && (useInterleaving ==> chunks[0].mid == if u then old(nextUnorderedMID) else old(nextOrderedMID))
                && (!useInterleaving ==> chunks[0].ssn == old(sequenceNumber))
      ensures sequenceNumber == if useInterleaving || u then old(sequenceNumber) else Next16(old(sequenceNumber))
      ensures nextOrderedMID == if useInterleaving && !u then Next32(old(nextOrderedMID)) else old(nextOrderedMID)
      ensures nextUnorderedMID == if useInterleaving && u then Next32(old(nextUnorderedMID)) else old(nextUnorderedMID)
      ensures bufferedAmount == old(bufferedAmount) + |raw|
    {
      u := ppi != PPI_DCEP && unordered;
      var mid: uint32 := 0;
      if useInterleaving {
        if u {
          mid := nextUnorderedMID;
          nextUnorderedMID := Next32(nextUnorderedMID);
        } else {
          mid := nextOrderedMID;
          nextOrderedMID := Next32(nextOrderedMID);
        }
      }
      chunks := CutUp(raw, ppi, u, mid);
      if !useInterleaving && !u { sequenceNumber := Next16(sequenceNumber); }
      bufferedAmount := bufferedAmount + |raw|;
    }

    /** The fragmenting loop of packetize. */
    method CutUp(raw: seq<byte>, ppi: uint32, u: bool, mid: uint32) returns (chunks: seq<Fragment>)
      requires 0 < maxPayloadSize && |raw| < TWO32
      ensures Message(chunks, raw, ppi)
      ensures forall i :: 0 <= i < |chunks| ==> |chunks[i].data| <= maxPayloadSize
      ensures forall i :: 0 <= i < |chunks| - 1 ==> |chunks[i].data| == maxPayloadSize
      ensures chunks != [] ==>
                && chunks[0].stream == id && chunks[0].unordered == u && chunks[0].iData == useInterleaving
                && chunks[0].mid == mid && (!useInterleaving ==> chunks[0].ssn == sequenceNumber)
    {
      hide Joined;
      chunks := [];
      var offset, remaining, fsn: uint32 := 0, |raw|, 0;
      var ssn := if useInterleaving then mid % TWO16 else sequenceNumber;
      ghost var done := remaining == 0;
      JoinedEmpty();
      while remaining != 0
        invariant 0 <= offset && 0 <= remaining && offset + remaining == |raw|
        invariant fsn == |chunks| <= offset && (fsn == 0 <==> offset == 0)
        invariant Joined(chunks) == raw[..offset]
        invariant forall i :: 0 <= i < |chunks| ==> CutAt(chunks, i, ssn, mid, u, ppi, done)
        invariant done <==> remaining == 0
        decreases remaining
      {
        var size := if maxPayloadSize < remaining then maxPayloadSize else remaining;
        var c := Fragment(0, id, ssn, mid, fsn, u, useInterleaving, offset == 0, remaining - size == 0, ppi,
                          raw[offset..offset + size]);
        JoinedAppend(chunks, [c]);
        JoinedOne(c);
        assert raw[..offset] + raw[offset..offset + size] == raw[..offset + size];
        done := remaining - size == 0;
        CutNext(chunks, c, ssn, mid, u, ppi, done);
        chunks := chunks + [c];
        fsn, remaining, offset := fsn + 1, remaining - size, offset + size;
      }
      assert raw[..offset] == raw;
      CutMessage(chunks, raw, ssn, mid, u, ppi);
    }

    /** Piece i of a message that is `done` or still being cut. */
    ghost predicate CutAt(chunks: seq<Fragment>, i: nat, ssn: uint16, mid: uint32, u: bool, ppi: uint32, done: bool)
      requires i < |chunks|
    {
      && chunks[i].data != [] && |chunks[i].data| <= maxPayloadSize
      && (!done || i < |chunks| - 1 ==> |chunks[i].data| == maxPayloadSize)
      && i < TWO32 && chunks[i] == Fragment(0, id, ssn, mid, i, u, useInterleaving, i == 0, done && i == |chunks| - 1, ppi, chunks[i].data)
    }

    lemma {:induction false} CutNext(chunks: seq<Fragment>, c: Fragment, ssn: uint16, mid: uint32, u: bool, ppi: uint32, done: bool)
      requires forall i :: 0 <= i < |chunks| ==> CutAt(chunks, i, ssn, mid, u, ppi, false)
      requires CutAt(chunks + [c], |chunks|, ssn, mid, u, ppi, done)
      ensures forall i :: 0 <= i < |chunks + [c]| ==> CutAt(chunks + [c], i, ssn, mid, u, ppi, done)
    {
      forall i | 0 <= i < |chunks| ensures CutAt(chunks + [c], i, ssn, mid, u, ppi, done) {
        assert CutAt(chunks, i, ssn, mid, u, ppi, false);
      }
    }

    lemma {:induction false} CutMessage(chunks: seq<Fragment>, raw: seq<byte>, ssn: uint16, mid: uint32, u: bool, ppi: uint32)
      requires Joined(chunks) == raw && (raw != [] <==> chunks != [])
      requires forall i :: 0 <= i < |chunks| ==> CutAt(chunks, i, ssn, mid, u, ppi, true)
      ensures Message(chunks, raw, ppi)
      ensures forall i :: 0 <= i < |chunks| ==> |chunks[i].data| <= maxPayloadSize
      ensures forall i :: 0 <= i < |chunks| - 1 ==> |chunks[i].data| == maxPayloadSize
      ensures chunks != [] ==> CutAt(chunks, 0, ssn, mid, u, ppi, true)
    {
      hide Joined;
      if chunks != [] { assert CutAt(chunks, 0, ssn, mid, u, ppi, true); }
      forall i | 0 <= i < |chunks|
        ensures Piece(chunks, i, ppi)
        ensures |chunks[i].data| <= maxPayloadSize && (i < |chunks| - 1 ==> |chunks[i].data| == maxPayloadSize)
      {
        assert CutAt(chunks, i, ssn, mid, u, ppi, true);
      }
    }

    /** A write the association refuses gives back its sequence number and its bytes. */
    method RollBack(u: bool, n: nat)
      requires n <= bufferedAmount
      modifies this`sequenceNumber, this`nextOrderedMID, this`nextUnorderedMID, this`bufferedAmount
      ensures bufferedAmount == old(bufferedAmount) - n
      ensures sequenceNumber == if useInterleaving || u then old(sequenceNumber) else Prev16(old(sequenceNumber))
      ensures nextOrderedMID == if useInterleaving && !u then Prev32(old(nextOrderedMID)) else old(nextOrderedMID)
      ensures nextUnorderedMID == if useInterleaving && u then Prev32(old(nextUnorderedMID)) else old(nextUnorderedMID)
    {
      bufferedAmount := bufferedAmount - n;
      if useInterleaving {
        if u { nextUnorderedMID := Prev32(nextUnorderedMID); } else { nextOrderedMID := Prev32(nextOrderedMID); }
      } else if !u {
        sequenceNumber := Prev16(sequenceNumber);
      }
    }

    /** `accepted` is the association's answer. A message above the limit, one on a stream
        that is not open, and one the association refuses leave the stream as it was, so the
        next message takes its number. */
    method WriteSCTP(raw: seq<byte>, ppi: uint32, accepted: bool) returns (chunks: seq<Fragment>, n: nat, err: WriteError)
      requires 0 < maxPayloadSize
      modifies this`sequenceNumber, this`nextOrderedMID, this`nextUnorderedMID, this`bufferedAmount
      ensures err == if |raw| > maxMessageSize then TooLarge else if state != Open then StreamClosed
                     else if !accepted then Refused else Written
      ensures err == Written ==> n == |raw| && Message(chunks, raw, ppi) && bufferedAmount == old(bufferedAmount) + n
      ensures err != Written ==> n == 0 && unchanged(this)
    {
      if |raw| > maxMessageSize { return [], 0, TooLarge; }
      if state != Open { return [], 0, StreamClosed; }
      var u: bool;
      chunks, u := Packetize(raw, ppi);
      n, err := |raw|, if accepted then Written else Refused;
      if err != Written {
        RollBack(u, n);
        n := 0;
      }
    }
  }

  lemma {:induction false} JoinedEmpty()
    ensures Joined([]) == []
  {
  }

  lemma {:induction false} JoinedOne(c: Fragment)
    ensures Joined([c]) == c.data
  {
    assert [c][..0] == [];
  }
}
