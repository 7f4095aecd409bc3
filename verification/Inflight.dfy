/** The in-flight queue and what a SACK does to it (section 6.2.1 of RFC 9260).

    Only the length of a chunk's data matters here. Fragments of one message share
    their head's flags in the code; `msg` names that head. */
module Inflight {
  import opened Options
  import opened Serial

  datatype Chunk = Chunk(
    tsn: uint32, stream: uint16, ssn: uint16, unordered: bool, msg: nat, ending: bool,
    size: nat, acked: bool, retransmit: bool)

  function Total(cs: seq<Chunk>): nat {
    if cs == [] then 0 else Total(cs[..|cs| - 1]) + cs[|cs| - 1].size
  }

  /** The same for one stream. */
  function TotalOf(cs: seq<Chunk>, s: uint16): nat {
    if cs == [] then 0
    else TotalOf(cs[..|cs| - 1], s) + if cs[|cs| - 1].stream == s then cs[|cs| - 1].size else 0
  }

  lemma {:induction false} TotalFront(cs: seq<Chunk>, s: uint16)
    requires cs != []
    ensures Total(cs) == cs[0].size + Total(cs[1..])
    ensures TotalOf(cs, s) == (if cs[0].stream == s then cs[0].size else 0) + TotalOf(cs[1..], s)
  {
    if |cs| > 1 {
      TotalFront(cs[..|cs| - 1], s);
      assert cs[..|cs| - 1][1..] == cs[1..][..|cs| - 2];
    }
  }

  lemma {:induction false} TotalUpdate(cs: seq<Chunk>, i: nat, c: Chunk, s: uint16)
    requires i < |cs| && c.stream == cs[i].stream
    ensures Total(cs[i := c]) == Total(cs) - cs[i].size + c.size
    ensures TotalOf(cs[i := c], s) == TotalOf(cs, s) + if c.stream == s then c.size - cs[i].size else 0
  {
    var n := |cs| - 1;
    if i == n {
      assert cs[i := c][..n] == cs[..n];
    } else {
      assert cs[i := c][..n] == cs[..n][i := c];
      TotalUpdate(cs[..n], i, c, s);
    }
  }

  /** A stream has its part of the bytes, and a single stream has them all. */
  lemma {:induction false} TotalPart(cs: seq<Chunk>, s: uint16)
    ensures TotalOf(cs, s) <= Total(cs)
    ensures (forall i :: 0 <= i < |cs| ==> cs[i].stream == s) ==> TotalOf(cs, s) == Total(cs)
    ensures (forall i :: 0 <= i < |cs| ==> cs[i].stream != s) ==> TotalOf(cs, s) == 0
  {
    if cs != [] { TotalPart(cs[..|cs| - 1], s); }
  }

  /** TSNs follow each other from first on. */
  ghost predicate Consecutive(cs: seq<Chunk>, first: uint32) {
    |cs| < HALF32 && forall i :: 0 <= i < |cs| ==> cs[i].tsn == Add(first, i)
  }

  /** An acknowledged chunk has given up its data and is not sent again. */
  ghost predicate AckedEmpty(cs: seq<Chunk>) {
    forall i :: 0 <= i < |cs| && cs[i].acked ==> cs[i].size == 0 && !cs[i].retransmit
  }

  /** payloadQueue.get, as an index. */
  function GetIndex(cs: seq<Chunk>, tsn: uint32): (r: Option<nat>)
    ensures r.Some? ==> r.value < |cs|
  {
    if |cs| == 0 then None
    else
      var head := cs[0].tsn;
      if tsn < head || Dist(head, tsn) >= |cs| then None else Some(Dist(head, tsn))
  }

  /** get finds the chunk i places behind TSN t if and only if it is in flight and the
      stretch from the head to it does not cross 2^32: the guard compares raw TSNs. */
  lemma {:induction false} GetIff(cs: seq<Chunk>, t: uint32, i: nat)
    requires Consecutive(cs, Add(t, 1)) && i < TWO32
    ensures GetIndex(cs, Add(t, i)) == (if 1 <= i <= |cs| && Add(t, 1) + (i - 1) < TWO32 then Some(i - 1) else None)
  {
    if cs != [] { assert cs[0].tsn == Add(Add(t, 1), 0); }
  }

  class PayloadQueue {
    var chunks: seq<Chunk>
    var nBytes: int

    /** nBytes counts the unacknowledged data. */
    ghost predicate Valid()
      reads this
    {
      nBytes == Total(chunks) && AckedEmpty(chunks)
    }

    constructor ()
      ensures Valid() && chunks == []
    {
      chunks, nBytes := [], 0;
    }

    method PushNoCheck(c: Chunk)
      requires Valid() && !c.acked
      modifies this
      ensures Valid() && chunks == old(chunks) + [c]
    {
      assert (chunks + [c])[..|chunks|] == chunks;
      chunks := chunks + [c];
      nBytes := nBytes + c.size;
    }

    /** Pops only if the oldest chunk has the given TSN. */
    method Pop(tsn: uint32) returns (r: Option<Chunk>)
      requires Valid()
      modifies this
      ensures Valid()
      ensures old(chunks) != [] && old(chunks)[0].tsn == tsn ==>
                r == Some(old(chunks)[0]) && chunks == old(chunks)[1..]
      ensures !(old(chunks) != [] && old(chunks)[0].tsn == tsn) ==> r == None && chunks == old(chunks)
    {
      if |chunks| > 0 && tsn == chunks[0].tsn {
        TotalFront(chunks, 0);
        r := Some(chunks[0]);
        nBytes := nBytes - chunks[0].size;
        chunks := chunks[1..];
      } else {
        r := None;
      }
    }

    /** The chunk is acknowledged, needs no retransmission and gives up its data; what else
        is known of it stays, and so does every other chunk. */
    method MarkAsAcked(tsn: uint32) returns (nBytesAcked: int)
      requires Valid()
      modifies this
      ensures Valid() && |chunks| == |old(chunks)|
      ensures var r := GetIndex(old(chunks), tsn);
              && (r.None? ==> chunks == old(chunks) && nBytesAcked == 0)
              && (r.Some? ==> Acknowledged(old(chunks)[r.value], chunks[r.value]) && nBytesAcked == old(chunks)[r.value].size)
              && (forall i :: 0 <= i < |chunks| && r != Some(i) ==> chunks[i] == old(chunks)[i])
    {
      nBytesAcked := 0;
      var r := GetIndex(chunks, tsn);
      if r.Some? {
        var i := r.value;
        TotalUpdate(chunks, i, Ack(chunks[i]), 0);
        nBytesAcked := chunks[i].size;
        nBytes := nBytes - nBytesAcked;
        chunks := chunks[i := Ack(chunks[i])];
      }
    }

    /** Marks every chunk that is neither acknowledged nor abandoned, and no other. */
    method MarkAllToRetransmit(abandoned: set<nat>)
      requires Valid()
      modifies this`chunks
      ensures Valid() && |chunks| == |old(chunks)|
      ensures forall i :: 0 <= i < |chunks| ==>
                var c := old(chunks)[i];
                chunks[i] == if c.acked || c.msg in abandoned then c else c.(retransmit := true)
    {
      var i := 0;
      while i < |chunks|
        invariant 0 <= i <= |chunks| == |old(chunks)|
        invariant forall j :: 0 <= j < i ==>
                    var c := old(chunks)[j];
                    chunks[j] == if c.acked || c.msg in abandoned then c else c.(retransmit := true)
        invariant forall j :: i <= j < |chunks| ==> chunks[j] == old(chunks)[j]
        invariant Total(chunks) == Total(old(chunks))
      {
        var c := chunks[i];
        if !(c.acked || c.msg in abandoned) {
          TotalUpdate(chunks, i, c.(retransmit := true), 0);
          chunks := chunks[i := c.(retransmit := true)];
        }
        i := i + 1;
      }
    }
  }

  /** c' is c, acknowledged. */
  ghost predicate Acknowledged(c: Chunk, c': Chunk) {
    && c'.acked && !c'.retransmit && c'.size == 0
    && c'.tsn == c.tsn && c'.stream == c.stream && c'.ssn == c.ssn && c'.unordered == c.unordered
    && c'.msg == c.msg && c'.ending == c.ending
  }

  function Ack(c: Chunk): (r: Chunk)
    ensures Acknowledged(c, r)
  {
    c.(acked := true, retransmit := false, size := 0)
  }
}
