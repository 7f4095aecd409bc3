/** Abandoned messages and the advanced peer ack point (section 3.5 of RFC 3758), on
    the values of the in-flight queue. `abandoned` holds the messages that were given
    up and whose last fragment has been sent. */
module Forward {
  import opened Options
  import opened Serial
  import opened Inflight

  const MAX32: uint32 := 0xFFFF_FFFF

  /** A fragment that does not end its message is followed by the next fragment, unless
      it is the last chunk sent: then its message is not all in flight yet. */
  ghost predicate Joined(cs: seq<Chunk>, allInflight: set<nat>, open: Option<nat>) {
    && (open.Some? ==> open.value !in allInflight)
    && forall i :: 0 <= i < |cs| ==> JoinedAt(cs, i, open)
  }

  ghost predicate JoinedAt(cs: seq<Chunk>, i: nat, open: Option<nat>)
    requires i < |cs|
  {
    cs[i].ending || if i + 1 < |cs| then cs[i + 1].msg == cs[i].msg else open == Some(cs[i].msg)
  }

  /** The chunks the advanced point has passed are abandoned; where messages are sent
      `whole`, not interleaved, it has stopped on the last fragment of one or at the top of
      the TSN space. */
  ghost predicate Skipped(cs: seq<Chunk>, cumAck: uint32, advanced: uint32, abandoned: set<nat>, whole: bool) {
    var m := Dist(cumAck, advanced);
    && m <= |cs|
    && (m > 0 ==> Add(cumAck, 1) + (m - 1) < TWO32)
    && (forall i :: 0 <= i < m ==> cs[i].msg in abandoned)
    && (whole && m > 0 ==> cs[m - 1].ending || advanced == MAX32)
  }

  ghost predicate SameMessages(cs: seq<Chunk>, cs': seq<Chunk>) {
    && |cs| == |cs'|
    && forall i :: 0 <= i < |cs| ==>
         cs'[i] == cs[i].(acked := cs'[i].acked, size := cs'[i].size, retransmit := cs'[i].retransmit)
  }

  lemma {:induction false} JoinedKept(cs: seq<Chunk>, cs': seq<Chunk>, n: nat, allInflight: set<nat>, open: Option<nat>)
    requires Joined(cs, allInflight, open) && n <= |cs| && SameMessages(cs[n..], cs')
    ensures Joined(cs', allInflight, open)
  {
    forall i | 0 <= i < |cs'|
      ensures JoinedAt(cs', i, open)
    {
      assert cs[n..][i] == cs[n + i] && JoinedAt(cs, n + i, open);
      if i + 1 < |cs'| { assert cs[n..][i + 1] == cs[n + (i + 1)]; }
    }
  }

  /** A new chunk goes in flight behind the others. */
  lemma {:induction false} SentKeeps(cs: seq<Chunk>, c: Chunk, cumAck: uint32, advanced: uint32,
                  given: set<nat>, allInflight: set<nat>, whole: bool)
    requires Skipped(cs, cumAck, advanced, given * allInflight, whole)
    ensures Skipped(cs + [c], cumAck, advanced, given * (allInflight + if c.ending then {c.msg} else {}), whole)
  {
  }

  lemma {:induction false} SentJoins(cs: seq<Chunk>, c: Chunk, allInflight: set<nat>, open: Option<nat>)
    requires Joined(cs, allInflight, open) && c.msg !in allInflight && (open.Some? ==> c.msg == open.value)
    ensures Joined(cs + [c], allInflight + if c.ending then {c.msg} else {}, if c.ending then None else Some(c.msg))
  {
    var open' := if c.ending then None else Some(c.msg);
    forall i | 0 <= i < |cs| ensures JoinedAt(cs + [c], i, open') {
      assert JoinedAt(cs, i, open);
    }
  }

  /** Step C1: a SACK moves the ack point, and the advanced point if that falls behind. */
  lemma {:induction false} SkippedKept(cs: seq<Chunk>, cs': seq<Chunk>, cumAck: uint32, cum: uint32, advanced: uint32,
    abandoned: set<nat>, whole: bool)
    requires Skipped(cs, cumAck, advanced, abandoned, whole) && |cs| < HALF32
    requires Dist(cumAck, cum) <= |cs| && SameMessages(cs[Dist(cumAck, cum)..], cs')
    ensures Skipped(cs', cum, if Lt32(advanced, cum) then cum else advanced, abandoned, whole)
  {
    var n, m := Dist(cumAck, cum), Dist(cumAck, advanced);
    assert Lt32(advanced, cum) <==> m < n;
    if n <= m {
      assert Dist(cum, advanced) == m - n;
      forall i | 0 <= i < m - n ensures cs'[i].msg in abandoned { assert cs[n..][i] == cs[n + i]; }
      if n < m { assert cs[n..][m - n - 1] == cs[m - 1]; }
    }
  }

  /** How far step C2 gets from place i on. */
  function Reach(cs: seq<Chunk>, first: uint32, abandoned: set<nat>, i: nat): (r: nat)
    requires i <= |cs|
    ensures i <= r <= |cs|
    decreases |cs| - i
  {
    if i < |cs| && first + i < TWO32 && cs[i].msg in abandoned then Reach(cs, first, abandoned, i + 1) else i
  }

  /** Step C2 passes abandoned chunks only, and stops at the first that is not, or at 2^32. */
  lemma {:induction false} ReachFar(cs: seq<Chunk>, first: uint32, abandoned: set<nat>, i: nat)
    requires i <= |cs|
    ensures var r := Reach(cs, first, abandoned, i);
            && (forall j :: i <= j < r ==> cs[j].msg in abandoned)
            && (r < |cs| && first + r < TWO32 ==> cs[r].msg !in abandoned)
    decreases |cs| - i
  {
    if i < |cs| && first + i < TWO32 && cs[i].msg in abandoned { ReachFar(cs, first, abandoned, i + 1); }
  }

  /** Step C2 stops on the last fragment of a message: a message is abandoned only once
      all of it is in flight, so its next fragment would have been taken too. The one
      place it can stop inside a message is the TSN 2^32 - 1, where get loses sight of
      the next fragment. */
  lemma {:induction false} ReachSkipped(
    cs: seq<Chunk>, cumAck: uint32, advanced: uint32, given: set<nat>, allInflight: set<nat>, open: Option<nat>, whole: bool)
    requires |cs| < HALF32 && (whole ==> Joined(cs, allInflight, open))
    requires Skipped(cs, cumAck, advanced, given * allInflight, whole)
    ensures var r := Reach(cs, Add(cumAck, 1), given * allInflight, Dist(cumAck, advanced));
            Skipped(cs, cumAck, Add(cumAck, r), given * allInflight, whole)
    decreases |cs| - Dist(cumAck, advanced)
  {
    var m := Dist(cumAck, advanced);
    var abandoned := given * allInflight;
    if m < |cs| && Add(cumAck, 1) + m < TWO32 && cs[m].msg in abandoned {
      // pass m, and go on to the end of its message
      ReachEnds(cs, cumAck, m, given, allInflight, open, whole);
    }
  }

  lemma {:induction false} ReachEnds(
    cs: seq<Chunk>, cumAck: uint32, m: nat, given: set<nat>, allInflight: set<nat>, open: Option<nat>, whole: bool)
    requires |cs| < HALF32 && (whole ==> Joined(cs, allInflight, open))
    requires m < |cs| && Add(cumAck, 1) + m < TWO32
    requires forall i :: 0 <= i <= m ==> cs[i].msg in given * allInflight
    ensures var r := Reach(cs, Add(cumAck, 1), given * allInflight, m);
            Skipped(cs, cumAck, Add(cumAck, r), given * allInflight, whole)
    decreases |cs| - m
  {
    var abandoned := given * allInflight;
    var r := Reach(cs, Add(cumAck, 1), abandoned, m + 1);
    if m + 1 < |cs| && Add(cumAck, 1) + (m + 1) < TWO32 && cs[m + 1].msg in abandoned {
      ReachEnds(cs, cumAck, m + 1, given, allInflight, open, whole);
    } else {
      assert r == m + 1 && Dist(cumAck, Add(cumAck, r)) == r;
      assert Reach(cs, Add(cumAck, 1), abandoned, m) == r by { assert cs[m].msg in abandoned; }
      assert whole ==> JoinedAt(cs, m, open);
    }
  }

  lemma {:induction false} ReachPasses(cs: seq<Chunk>, first: uint32, abandoned: set<nat>, i: nat, k: nat)
    requires i <= k + 1 && k < |cs| && first + k == MAX32
    requires forall j :: i <= j <= k ==> cs[j].msg in abandoned
    ensures Reach(cs, first, abandoned, i) == k + 1
    decreases k + 1 - i
  {
    if i <= k { ReachPasses(cs, first, abandoned, i + 1, k); }
  }

  /** Step C2 ends inside a message if and only if the TSN 2^32 - 1 is in flight, does
      not end its message, and everything up to it is abandoned. */
  lemma {:induction false} CutIff(
    cs: seq<Chunk>, cumAck: uint32, advanced: uint32, given: set<nat>, allInflight: set<nat>, open: Option<nat>)
    requires |cs| < HALF32 && Joined(cs, allInflight, open)
    requires Skipped(cs, cumAck, advanced, given * allInflight, true)
    ensures var r := Reach(cs, Add(cumAck, 1), given * allInflight, Dist(cumAck, advanced));
            var k := MAX32 - Add(cumAck, 1);
            (r > 0 && !cs[r - 1].ending) <==>
              (k < |cs| && !cs[k].ending && forall i :: 0 <= i <= k ==> cs[i].msg in given * allInflight)
  {
    var abandoned, first, m := given * allInflight, Add(cumAck, 1), Dist(cumAck, advanced);
    var r, k := Reach(cs, first, abandoned, m), MAX32 - first;
    ReachSkipped(cs, cumAck, advanced, given, allInflight, open, true);
    assert Dist(cumAck, Add(cumAck, r)) == r;
    if k < |cs| && forall i :: 0 <= i <= k ==> cs[i].msg in abandoned {
      ReachPasses(cs, first, abandoned, m, k);
    }
  }

  /** Such a cut happens: two fragments of one abandoned message on both sides of 2^32. */
  lemma {:induction false} CutExists()
    ensures var a := Chunk(MAX32, 0, 0, false, 0, false, 1, false, false);
            var b := Chunk(0, 0, 0, false, 0, true, 1, false, false);
            && Joined([a, b], {0}, None)
            && Consecutive([a, b], MAX32)
            && Reach([a, b], MAX32, {0}, 0) == 1 && !a.ending
  {
    var a := Chunk(MAX32, 0, 0, false, 0, false, 1, false, false);
    var b := Chunk(0, 0, 0, false, 0, true, 1, false, false);
    assert Reach([a, b], MAX32, {0}, 1) == 1;
  }

  /** The SSNs a stream has among these chunks lie in half the serial space. */
  ghost predicate HalfSpace(cs: seq<Chunk>, base: map<uint16, uint16>) {
    forall i :: 0 <= i < |cs| ==> cs[i].stream in base && Dist16(base[cs[i].stream], cs[i].ssn) < HALF16
  }

  /** Lists exactly the streams of these chunks, each with an SSN that one of them carries. */
  ghost predicate Lists(streams: map<uint16, uint16>, cs: seq<Chunk>) {
    && (forall i :: 0 <= i < |cs| ==> cs[i].stream in streams)
    && (forall s | s in streams :: Carried(cs, s, streams[s]))
  }

  /** And with the serial-greatest of them. */
  ghost predicate Reports(streams: map<uint16, uint16>, cs: seq<Chunk>) {
    && Lists(streams, cs)
    && (forall i :: 0 <= i < |cs| ==> cs[i].stream in streams && Lte16(cs[i].ssn, streams[cs[i].stream]))
  }

  ghost predicate Carried(cs: seq<Chunk>, s: uint16, ssn: uint16) {
    exists i :: 0 <= i < |cs| && cs[i].stream == s && cs[i].ssn == ssn
  }

  lemma {:induction false} ReportsNext(streams: map<uint16, uint16>, cs: seq<Chunk>, c: Chunk, base: map<uint16, uint16>)
    requires Reports(streams, cs) && HalfSpace(cs + [c], base)
    ensures var skip := c.stream in streams && !Lt16(streams[c.stream], c.ssn);
            Reports(if skip then streams else streams[c.stream := c.ssn], cs + [c])
  {
    var cs' := cs + [c];
    var skip := c.stream in streams && !Lt16(streams[c.stream], c.ssn);
    var out := if skip then streams else streams[c.stream := c.ssn];
    assert cs'[|cs|] == c;
    assert HalfSpace(cs, base) by { assert forall i :: 0 <= i < |cs| ==> cs'[i] == cs[i]; }
    forall i | 0 <= i < |cs| ensures cs'[i] == cs[i] && Lte16(cs[i].ssn, out[cs[i].stream]) {
      assert cs'[i] == cs[i];
      if cs[i].stream == c.stream {
        CarriedClose(cs, streams, base, c.stream);
        Ordered16(base[c.stream], cs[i].ssn, streams[c.stream], c.ssn);
      }
    }
    if c.stream in streams {
      CarriedClose(cs, streams, base, c.stream);
      Ordered16(base[c.stream], c.ssn, streams[c.stream], c.ssn);
    }
    forall s | s in out ensures Carried(cs', s, out[s]) {
      if s in streams && out[s] == streams[s] {
        var i :| 0 <= i < |cs| && cs[i].stream == s && cs[i].ssn == streams[s];
        assert cs'[i] == cs[i];
      }
    }
  }

  lemma {:induction false} ListsNext(streams: map<uint16, uint16>, cs: seq<Chunk>, c: Chunk)
    requires Lists(streams, cs)
    ensures Lists(streams[c.stream := c.ssn], cs + [c])
    ensures c.stream in streams ==> Lists(streams, cs + [c])
  {
    var cs' := cs + [c];
    assert cs'[|cs|] == c;
    forall s | s in streams ensures Carried(cs', s, streams[s]) {
      var i :| 0 <= i < |cs| && cs[i].stream == s && cs[i].ssn == streams[s];
      assert cs'[i] == cs[i];
    }
    assert Carried(cs', c.stream, c.ssn);
  }

  lemma {:induction false} ReportsNone()
    ensures Reports(map[], []) && Lists(map[], [])
  {
  }

  lemma {:induction false} HalfSpacePrefix(cs: seq<Chunk>, base: map<uint16, uint16>, n: nat)
    requires HalfSpace(cs, base) && n <= |cs|
    ensures HalfSpace(cs[..n], base)
  {
  }

  lemma {:induction false} CarriedClose(cs: seq<Chunk>, streams: map<uint16, uint16>, base: map<uint16, uint16>, s: uint16)
    requires Reports(streams, cs) && s in streams
    requires HalfSpace(cs, base)
    ensures s in base && Dist16(base[s], streams[s]) < HALF16
  {
    var i :| 0 <= i < |cs| && cs[i].stream == s && cs[i].ssn == streams[s];
  }

  /** Within half the serial space the comparisons are a total order. */
  lemma {:induction false} Ordered16(base: uint16, a: uint16, b: uint16, c: uint16)
    requires Dist16(base, a) < HALF16 && Dist16(base, b) < HALF16 && Dist16(base, c) < HALF16
    ensures Lte16(a, b) && Lte16(b, c) ==> Lte16(a, c)
    ensures !Lt16(b, c) ==> Lte16(c, b)
    ensures Lt16(b, c) ==> Lte16(b, c)
  {
  }

  /** Ordered messages of one stream are sent in the order of their SSNs. */
  ghost predicate InOrder(cs: seq<Chunk>) {
    forall i, j | 0 <= i < j < |cs| && cs[i].stream == cs[j].stream && !cs[i].unordered && !cs[j].unordered &&
                  cs[i].msg != cs[j].msg :: Lt16(cs[i].ssn, cs[j].ssn)
  }

  /** The peer is not told to skip any ordered message in flight that was not abandoned. */
  ghost predicate SkipsOnly(streams: map<uint16, uint16>, cs: seq<Chunk>, abandoned: set<nat>) {
    forall k :: 0 <= k < |cs| && !cs[k].unordered && cs[k].msg !in abandoned && cs[k].stream in streams ==>
      Lt16(streams[cs[k].stream], cs[k].ssn)
  }

  /** Every unordered chunk passed over was numbered before every such message: it carries
      the SSN the next ordered message was to take. */
  ghost predicate NumberedBefore(cs: seq<Chunk>, m: nat, abandoned: set<nat>)
    requires m <= |cs|
  {
    forall i, k | 0 <= i < m && 0 <= k < |cs| && cs[i].stream == cs[k].stream && cs[i].unordered &&
                  !cs[k].unordered && cs[k].msg !in abandoned :: Lt16(cs[i].ssn, cs[k].ssn)
  }

  /** The report lists unordered chunks too, so it can make the peer skip an ordered message
      that was not abandoned: never exactly when each unordered chunk passed over was
      numbered before it. */
  lemma {:induction false} SkipsOnlyIff(streams: map<uint16, uint16>, cs: seq<Chunk>, m: nat,
                                        abandoned: set<nat>, base: map<uint16, uint16>)
    requires m <= |cs| && Reports(streams, cs[..m]) && HalfSpace(cs, base) && InOrder(cs)
    requires forall i :: 0 <= i < m ==> cs[i].msg in abandoned
    ensures SkipsOnly(streams, cs, abandoned) <==> NumberedBefore(cs, m, abandoned)
  {
    hide Lt16, Lte16, Dist16;
    if NumberedBefore(cs, m, abandoned) {
      forall k | 0 <= k < |cs| && !cs[k].unordered && cs[k].msg !in abandoned && cs[k].stream in streams
        ensures Lt16(streams[cs[k].stream], cs[k].ssn)
      {
        assert Carried(cs[..m], cs[k].stream, streams[cs[k].stream]);
        var i :| 0 <= i < m && cs[..m][i].stream == cs[k].stream && cs[..m][i].ssn == streams[cs[k].stream];
        assert cs[i].msg in abandoned;
      }
    }
    if SkipsOnly(streams, cs, abandoned) {
      forall i, k | 0 <= i < m && 0 <= k < |cs| && cs[i].stream == cs[k].stream && cs[i].unordered
        && !cs[k].unordered && cs[k].msg !in abandoned
        ensures Lt16(cs[i].ssn, cs[k].ssn)
      {
        assert cs[..m][i] == cs[i];
        HalfSpacePrefix(cs, base, m);
        CarriedClose(cs[..m], streams, base, cs[i].stream);
        LteThenLt16(base[cs[i].stream], cs[i].ssn, streams[cs[i].stream], cs[k].ssn);
      }
    }
  }

  lemma {:induction false} LteThenLt16(base: uint16, a: uint16, b: uint16, c: uint16)
    requires Dist16(base, a) < HALF16 && Dist16(base, b) < HALF16 && Dist16(base, c) < HALF16
    requires Lte16(a, b) && Lt16(b, c)
    ensures Lt16(a, c)
  {
  }

  /** And it does happen: an abandoned unordered message, written before the first ordered
      one, makes the peer skip that one. */
  lemma {:induction false} SkipsTooMuch()
    ensures var a := Chunk(1, 0, 0, true, 0, true, 1, false, false);
            var b := Chunk(2, 0, 0, false, 1, true, 1, false, false);
            && Consecutive([a, b], 1) && Joined([a, b], {0, 1}, None) && InOrder([a, b])
            && Reach([a, b], 1, {0}, 0) == 1
            && Reports(map[0 := 0], [a, b][..1]) && !SkipsOnly(map[0 := 0], [a, b], {0})
  {
    var a := Chunk(1, 0, 0, true, 0, true, 1, false, false);
    var b := Chunk(2, 0, 0, false, 1, true, 1, false, false);
    var cs := [a, b];
    assert cs[..1] == [a];
    assert Reach(cs, 1, {0}, 1) == 1;
    assert Carried([a], 0, 0) by { assert [a][0].ssn == 0; }
    assert !cs[1].unordered && cs[1].msg !in {0};
  }
}
