/** Unordered DATA messages by number: their chunks lie on one line in the order of their
    TSNs, and cutting whole messages out of what came of the line is completing messages
    one by one. */
module LinePool {
  import opened Serial
  import opened Fragments
  import opened ChunkSets
  import opened Unordered
  import opened DataQueue
  import opened Mailing
  import opened Exchange

  /** A message as the peer sends it unordered: what packetize makes of it, under consecutive
      TSNs from number n on. */
  ghost predicate PostedAt(m: Mail, n: int) {
    && Message(m.fs, m.raw, m.ppi) && m.raw != [] && |m.fs| < HALF32
    && forall i :: 0 <= i < |m.fs| ==> m.fs[i].tsn == Wire(n + i)
  }

  lemma {:induction false} PacketizedIsLoose(cut: seq<Fragment>, fs: seq<Fragment>, raw: seq<byte>, ppi: uint32, n: int)
    requires Message(cut, raw, ppi) && raw != [] && |fs| == |cut| < HALF32
    requires forall i :: 0 <= i < |fs| ==> fs[i] == cut[i].(tsn := Wire(n + i))
    ensures PostedAt(Mail(fs, raw, ppi), n)
  {
    hide Wire, Message;
    TsnsGiven(cut, fs, raw, ppi);
  }

  /** The unordered messages on the stream, one after another; other streams and ordered
      messages may take TSNs between them. */
  ghost predicate AllLoose(loose: seq<Mail>, at: seq<int>) {
    && |at| == |loose| && (forall k :: 0 <= k < |loose| ==> PostedAt(loose[k], at[k]))
    && forall k, l :: 0 <= k < l < |loose| ==> at[k] + |loose[k].fs| <= at[l]
  }

  /** One message more, anywhere behind the last. */
  lemma {:induction false} LooseNext(loose: seq<Mail>, at: seq<int>, m: Mail, n: int)
    requires (loose == [] && at == []) || (AllLoose(loose, at) && loose != [] && at[|at| - 1] + |loose[|loose| - 1].fs| <= n)
    requires PostedAt(m, n)
    ensures AllLoose(loose + [m], at + [n])
  {
    hide PostedAt;
  }

  // ------------------------------------------------------------------- the line

  /** Where message k starts on the line. */
  function Offset(loose: seq<Mail>, k: nat): nat
    requires k <= |loose|
  {
    if k == 0 then 0 else Offset(loose, k - 1) + |loose[k - 1].fs|
  }

  /** The chunks of the first n messages. */
  function Line(loose: seq<Mail>, n: nat): (r: seq<Fragment>)
    requires n <= |loose|
    ensures |r| == Offset(loose, n)
  {
    if n == 0 then [] else Line(loose, n - 1) + loose[n - 1].fs
  }

  /** The numbers of their TSNs. */
  function Nums(loose: seq<Mail>, at: seq<int>, n: nat): (r: seq<int>)
    requires n <= |loose| == |at|
    ensures |r| == Offset(loose, n)
  {
    if n == 0 then [] else Nums(loose, at, n - 1) + seq(|loose[n - 1].fs|, i => at[n - 1] + i)
  }

  /** Which fragment of which message lies at place x. */
  function Who(loose: seq<Mail>, n: nat, x: nat): (r: (nat, nat))
    requires n <= |loose| && x < Offset(loose, n)
    ensures r.0 < n && r.1 < |loose[r.0].fs| && Offset(loose, r.0) + r.1 == x
  {
    if x >= Offset(loose, n - 1) then (n - 1, x - Offset(loose, n - 1)) else Who(loose, n - 1, x)
  }

  lemma {:induction false} OffsetGrows(loose: seq<Mail>, k: nat, l: nat)
    requires k < l <= |loose|
    ensures Offset(loose, k) + |loose[k].fs| <= Offset(loose, l)
    decreases l
  {
    if k < l - 1 { OffsetGrows(loose, k, l - 1); }
  }

  /** A fragment has one place. */
  lemma {:induction false} WhoAt(loose: seq<Mail>, k: nat, i: nat)
    requires k < |loose| && i < |loose[k].fs|
    ensures Offset(loose, k) + i < Offset(loose, |loose|) && Who(loose, |loose|, Offset(loose, k) + i) == (k, i)
  {
    hide Who, Offset;
    OffsetGrows(loose, k, |loose|);
    var w := Who(loose, |loose|, Offset(loose, k) + i);
    if w.0 < k { OffsetGrows(loose, w.0, k); } else if k < w.0 { OffsetGrows(loose, k, w.0); }
  }

  lemma {:induction false} LineAt(loose: seq<Mail>, n: nat, k: nat, i: nat)
    requires k < n <= |loose| && i < |loose[k].fs|
    ensures Offset(loose, k) + i < Offset(loose, n) && Line(loose, n)[Offset(loose, k) + i] == loose[k].fs[i]
    decreases n
  {
    if k < n - 1 { LineAt(loose, n - 1, k, i); }
  }

  lemma {:induction false} NumsAt(loose: seq<Mail>, at: seq<int>, n: nat, k: nat, i: nat)
    requires k < n <= |loose| == |at| && i < |loose[k].fs|
    ensures Offset(loose, k) + i < Offset(loose, n) && Nums(loose, at, n)[Offset(loose, k) + i] == at[k] + i
    decreases n
  {
    if k < n - 1 { NumsAt(loose, at, n - 1, k, i); }
  }

  lemma {:induction false} LineSlice(loose: seq<Mail>, k: nat)
    requires k < |loose|
    ensures Offset(loose, k) + |loose[k].fs| <= Offset(loose, |loose|)
    ensures Line(loose, |loose|)[Offset(loose, k)..Offset(loose, k) + |loose[k].fs|] == loose[k].fs
  {
    hide Line;
    OffsetGrows(loose, k, |loose|);
    forall i | 0 <= i < |loose[k].fs| ensures Line(loose, |loose|)[Offset(loose, k) + i] == loose[k].fs[i] {
      LineAt(loose, |loose|, k, i);
    }
  }

  /** The line ascends, and its TSNs are its numbers on the wire. */
  lemma {:induction false} LineNumbered(loose: seq<Mail>, at: seq<int>)
    requires AllLoose(loose, at)
    ensures Numbered(Line(loose, |loose|), Nums(loose, at, |loose|))
  {
    hide Wire, Line, Nums, Offset, Message, Who;
    var n := |loose|;
    var line, nums := Line(loose, n), Nums(loose, at, n);
    forall x | 0 <= x < |line| ensures line[x].tsn == Wire(nums[x]) {
      var w := Who(loose, n, x);
      LineAt(loose, n, w.0, w.1);
      NumsAt(loose, at, n, w.0, w.1);
      assert PostedAt(loose[w.0], at[w.0]);
    }
    forall x, y | 0 <= x < y < |nums| ensures nums[x] < nums[y] { NumsOrder(loose, at, x, y); }
  }

  lemma {:induction false} NumsOrder(loose: seq<Mail>, at: seq<int>, x: nat, y: nat)
    requires AllLoose(loose, at) && x < y < Offset(loose, |loose|)
    ensures Nums(loose, at, |loose|)[x] < Nums(loose, at, |loose|)[y]
  {
    hide Nums, Offset, PostedAt, Who;
    var n := |loose|;
    var v, w := Who(loose, n, x), Who(loose, n, y);
    NumsAt(loose, at, n, v.0, v.1);
    NumsAt(loose, at, n, w.0, w.1);
    if w.0 < v.0 { OffsetGrows(loose, w.0, v.0); }
  }

  // ------------------------------------------- messages and segments of the line

  lemma {:induction false} PostedPiece(m: Mail, n: int, i: nat)
    requires PostedAt(m, n) && i < |m.fs|
    ensures m.fs[i].first == (i == 0) && m.fs[i].last == (i == |m.fs| - 1) && m.fs[i].ppi == m.ppi
    ensures i > 0 ==> m.fs[i].tsn == Add(m.fs[i - 1].tsn, 1)
  {
    assert Piece(m.fs, i, m.ppi);
    WireAdd(n + i - 1, 1);
  }

  lemma {:induction false} PostedSome(m: Mail, n: int)
    requires PostedAt(m, n)
    ensures m.fs != [] && Joined(m.fs) == m.raw
  {
  }

  lemma {:induction false} PostedSegment(m: Mail, n: int)
    requires PostedAt(m, n)
    ensures Segment(m.fs, 0, |m.fs|)
  {
    PostedSome(m, n);
    forall i: nat | i < |m.fs|
      ensures m.fs[i].first == (i == 0) && m.fs[i].last == (i == |m.fs| - 1) && (i > 0 ==> m.fs[i].tsn == Add(m.fs[i - 1].tsn, 1))
    {
      PostedPiece(m, n, i);
    }
    hide PostedAt;
    forall i: nat | 0 < i < |m.fs| ensures GoesOn(m.fs, i) { FollowsIs(m.fs, i); }
  }

  /** Every message that was sent is a whole message on the line. */
  lemma {:induction false} MailIsSegment(loose: seq<Mail>, at: seq<int>, k: nat)
    requires AllLoose(loose, at) && k < |loose|
    ensures loose[k].fs != [] && Segment(Line(loose, |loose|), Offset(loose, k), Offset(loose, k) + |loose[k].fs|)
  {
    hide Line, Offset, Segment;
    PostedSome(loose[k], at[k]);
    PostedSegment(loose[k], at[k]);
    LineSlice(loose, k);
    SegmentSlice(Line(loose, |loose|), Offset(loose, k), |loose[k].fs|);
  }

  /** Every whole message on the line is a message that was sent. */
  lemma {:induction false} SegmentIsMail(loose: seq<Mail>, at: seq<int>, a: nat, e: nat, x: nat) returns (k: nat)
    requires AllLoose(loose, at) && Segment(Line(loose, |loose|), a, e) && a <= x < e
    ensures k < |loose| && a == Offset(loose, k) && e == a + |loose[k].fs|
    ensures x < Offset(loose, |loose|) && k == Who(loose, |loose|, x).0
  {
    hide Line, Offset, Segment, AllLoose;
    SegmentInside(Line(loose, |loose|), a, e);
    var w := Who(loose, |loose|, x);
    k := w.0;
    MailIsSegment(loose, at, k);
    SegmentsApart(Line(loose, |loose|), a, e, Offset(loose, k), Offset(loose, k) + |loose[k].fs|, x);
  }

  // ------------------------------------------------------------- what is held

  ghost predicate HeldAt(loose: seq<Mail>, got: map<nat, set<nat>>, x: nat) {
    x < Offset(loose, |loose|) && var w := Who(loose, |loose|, x); w.1 in Had(got, w.0)
  }

  /** The places of the fragments held. */
  ghost function PlacesOf(loose: seq<Mail>, got: map<nat, set<nat>>): set<nat> {
    set x: nat | x < Offset(loose, |loose|) && HeldAt(loose, got, x)
  }

  lemma {:induction false} HeldIff(loose: seq<Mail>, got: map<nat, set<nat>>, k: nat, i: nat)
    requires k < |loose| && i < |loose[k].fs|
    ensures Offset(loose, k) + i in PlacesOf(loose, got) <==> i in Had(got, k)
  {
    hide Who, Offset;
    WhoAt(loose, k, i);
  }

  /** A message is there in full exactly if all its places are held. */
  lemma {:induction false} RangeIff(loose: seq<Mail>, got: map<nat, set<nat>>, k: nat)
    requires k < |loose|
    ensures var a := Offset(loose, k);
            Range(a, a + |loose[k].fs|) <= PlacesOf(loose, got) <==> All(Had(got, k), |loose[k].fs|)
  {
    hide PlacesOf, Who, Offset, Had;
    var a, n := Offset(loose, k), |loose[k].fs|;
    if All(Had(got, k), n) {
      forall x | x in Range(a, a + n) ensures x in PlacesOf(loose, got) { HeldIff(loose, got, k, x - a); }
    }
    if Range(a, a + n) <= PlacesOf(loose, got) {
      forall j: nat | j < n ensures j in Had(got, k) {
        assert a + j in Range(a, a + n);
        HeldIff(loose, got, k, j);
      }
    }
  }

  /** Nothing that is held is a whole message. */
  lemma {:induction false} HeldNoWhole(loose: seq<Mail>, at: seq<int>, u: Loose)
    requires AllLoose(loose, at) && LooseOk(loose, u)
    ensures NoWhole(Line(loose, |loose|), PlacesOf(loose, u.got))
  {
    hide Line, Offset, Segment, AllLoose, PlacesOf, Who, All, Had, LooseOk;
    forall a: nat, e: nat | Segment(Line(loose, |loose|), a, e) ensures !(Range(a, e) <= PlacesOf(loose, u.got)) {
      SegmentInside(Line(loose, |loose|), a, e);
      var k := SegmentIsMail(loose, at, a, e, a);
      RangeIff(loose, u.got, k);
      NotAll(loose, u, k);
    }
  }

  lemma {:induction false} NotAll(loose: seq<Mail>, u: Loose, k: nat)
    requires LooseOk(loose, u) && k < |loose| && loose[k].fs != []
    ensures !All(Had(u.got, k), |loose[k].fs|)
  {
    if k !in u.got { assert 0 !in Had(u.got, k); }
  }

  lemma {:induction false} PlacesMore(loose: seq<Mail>, got: map<nat, set<nat>>, k: nat, i: nat)
    requires k < |loose| && i < |loose[k].fs|
    ensures PlacesOf(loose, got[k := Had(got, k) + {i}]) == PlacesOf(loose, got) + {Offset(loose, k) + i}
  {
    hide Who, Offset;
    var got', d' := got[k := Had(got, k) + {i}], PlacesOf(loose, got) + {Offset(loose, k) + i};
    WhoAt(loose, k, i);
    forall x: nat | x < Offset(loose, |loose|) ensures HeldAt(loose, got', x) <==> x in d' {
      var w := Who(loose, |loose|, x);
    }
  }

  /** The same with one more fragment. */
  lemma {:induction false} RangeMore(loose: seq<Mail>, got: map<nat, set<nat>>, k: nat, i: nat)
    requires k < |loose| && i < |loose[k].fs|
    ensures var a := Offset(loose, k);
            Range(a, a + |loose[k].fs|) <= PlacesOf(loose, got) + {a + i} <==> All(Had(got, k) + {i}, |loose[k].fs|)
  {
    hide PlacesOf, Offset;
    PlacesMore(loose, got, k, i);
    RangeIff(loose, got[k := Had(got, k) + {i}], k);
  }

  lemma {:induction false} InMessage(loose: seq<Mail>, k: nat, x: nat)
    requires k < |loose| && x < Offset(loose, |loose|)
    ensures Offset(loose, k) <= x < Offset(loose, k) + |loose[k].fs| <==> Who(loose, |loose|, x).0 == k
  {
    hide Who, Offset;
    var w := Who(loose, |loose|, x);
    if Offset(loose, k) <= x < Offset(loose, k) + |loose[k].fs| { WhoAt(loose, k, x - Offset(loose, k)); }
  }

  lemma {:induction false} PlacesGone(loose: seq<Mail>, got: map<nat, set<nat>>, k: nat, i: nat)
    requires k < |loose| && i < |loose[k].fs|
    ensures var a := Offset(loose, k);
            PlacesOf(loose, got - {k}) == PlacesOf(loose, got) + {a + i} - Range(a, a + |loose[k].fs|)
  {
    hide Who, Offset;
    var a := Offset(loose, k);
    var d' := PlacesOf(loose, got) + {a + i} - Range(a, a + |loose[k].fs|);
    forall x: nat | x < Offset(loose, |loose|) ensures HeldAt(loose, got - {k}, x) <==> x in d' {
      InMessage(loose, k, x);
    }
  }

  lemma {:induction false} PlacesArrive(loose: seq<Mail>, u: Loose, k: nat, i: nat)
    requires k < |loose| && i < |loose[k].fs|
    ensures var a, n, d := Offset(loose, k), |loose[k].fs|, PlacesOf(loose, u.got);
            PlacesOf(loose, Arrive(loose, u, k, i).got) ==
            if All(Had(u.got, k) + {i}, n) then d + {a + i} - Range(a, a + n) else d + {a + i}
  {
    hide Offset, Had, All, PlacesOf;
    PlacesMore(loose, u.got, k, i);
    PlacesGone(loose, u.got, k, i);
  }

  lemma {:induction false} PlacesDrop(p: Peer, u: Loose, c: int)
    requires AllLoose(p.loose, p.at) && !p.interleaving
    ensures var d := PlacesOf(p.loose, u.got);
            PlacesOf(p.loose, Drop(p, u, c).got) == d - Passed(Nums(p.loose, p.at, |p.loose|), d, c)
  {
    hide Who, Offset, Had, Drop, Nums, PostedAt;
    var u', d, nums := Drop(p, u, c), PlacesOf(p.loose, u.got), Nums(p.loose, p.at, |p.loose|);
    forall x: nat | x < Offset(p.loose, |p.loose|) ensures HeldAt(p.loose, u'.got, x) <==> x in d - Passed(nums, d, c) {
      var w := Who(p.loose, |p.loose|, x);
      NumsAt(p.loose, p.at, |p.loose|, w.0, w.1);
      DropAt(p, u, c, w.0);
    }
  }

  // ------------------------------------------------------------------ the queue

  /** A whole message as the queue keeps it until it is read. */
  ghost function Parcel(loose: seq<Mail>, k: nat): ChunkSet {
    if k < |loose| then ChunkSet(0, loose[k].ppi, loose[k].fs) else ChunkSet(0, 0, [])
  }

  ghost predicate StandsReady(ready: seq<ChunkSet>, u: Loose, loose: seq<Mail>) {
    && u.read <= |u.done| && |ready| == |u.done| - u.read
    && forall j :: 0 <= j < |ready| ==> ready[j] == Parcel(loose, u.done[u.read + j])
  }

  /** The chunks held are those of the incomplete messages, in the order of the line, and
      less than half the TSN space apart. */
  ghost predicate StandsHeld(held: seq<Fragment>, u: Loose, p: Peer)
    requires |p.at| == |p.loose|
  {
    var d := PlacesOf(p.loose, u.got);
    held == Pick(Line(p.loose, |p.loose|), d) && Together(Nums(p.loose, p.at, |p.loose|), d)
  }

  /** The queue's unordered half stands for this. */
  ghost predicate StandsLoose(q: Queue, u: Loose, p: Peer) {
    |p.at| == |p.loose| && StandsHeld(q.loose, u, p) && StandsReady(q.unordered, u, p.loose)
  }

  lemma {:induction false} HeldNear(p: Peer, u: Loose, c: int, x: nat)
    requires |p.at| == |p.loose| && x in PlacesOf(p.loose, u.got)
    requires forall l, j :: l in u.got && j in u.got[l] && l < |p.at| ==> Near(p.at[l] + j, c)
    ensures x < Offset(p.loose, |p.loose|) && Near(Nums(p.loose, p.at, |p.loose|)[x], c)
  {
    hide Who, Offset, Nums;
    var w := Who(p.loose, |p.loose|, x);
    NumsAt(p.loose, p.at, |p.loose|, w.0, w.1);
  }

  /** A chunk near all that are held joins them. */
  lemma {:induction false} JoinsTogether(p: Peer, u: Loose, k: nat, i: nat)
    requires |p.at| == |p.loose| && k < |p.loose| && i < |p.loose[k].fs| && LooseNear(p, u, k, i) && !p.interleaving
    requires Together(Nums(p.loose, p.at, |p.loose|), PlacesOf(p.loose, u.got))
    ensures Together(Nums(p.loose, p.at, |p.loose|), PlacesOf(p.loose, u.got) + {Offset(p.loose, k) + i})
  {
    hide PlacesOf, Offset, Nums;
    var nums, d, z := Nums(p.loose, p.at, |p.loose|), PlacesOf(p.loose, u.got), Offset(p.loose, k) + i;
    NumsAt(p.loose, p.at, |p.loose|, k, i);
    forall x | x in d && x < |nums| ensures Near(nums[x], nums[z]) { HeldNear(p, u, p.at[k] + i, x); }
  }

  lemma {:induction false} ReadyMore(ready: seq<ChunkSet>, u: Loose, loose: seq<Mail>, k: nat, i: nat, more: seq<ChunkSet>)
    requires StandsReady(ready, u, loose) && k < |loose|
    requires more == if All(Had(u.got, k) + {i}, |loose[k].fs|) then [Parcel(loose, k)] else []
    ensures StandsReady(ready + more, Arrive(loose, u, k, i), loose)
  {
    hide All, Parcel;
    var u', r := Arrive(loose, u, k, i), ready + more;
    forall j | 0 <= j < |r| ensures r[j] == Parcel(loose, u'.done[u'.read + j]) {
      if j < |ready| { assert u'.done[u.read + j] == u.done[u.read + j]; }
    }
  }

  /** What the arrival of a chunk on the line needs. */
  lemma {:induction false} ArrivalReady(p: Peer, u: Loose, k: nat, i: nat)
    requires AllLoose(p.loose, p.at) && LooseOk(p.loose, u) && !p.interleaving
    requires Fits(p, u, k, i)
    requires Together(Nums(p.loose, p.at, |p.loose|), PlacesOf(p.loose, u.got))
    ensures var line, nums := Line(p.loose, |p.loose|), Nums(p.loose, p.at, |p.loose|);
            var d, x := PlacesOf(p.loose, u.got), Offset(p.loose, k) + i;
            && Numbered(line, nums) && Together(nums, d + {x}) && NoWhole(line, d)
            && x < |line| && x !in d && line[x] == p.loose[k].fs[i]
  {
    hide Had, All, Line, Nums, Offset, Who, PlacesOf, Together, LooseNear, NoWhole, Numbered, PostedAt, LooseOk;
    LineNumbered(p.loose, p.at);
    JoinsTogether(p, u, k, i);
    HeldNoWhole(p.loose, p.at, u);
    LineAt(p.loose, |p.loose|, k, i);
    NotDone(p.loose, u, k, i);
    HeldIff(p.loose, u.got, k, i);
  }

  /** The message cut out of the line is the one whose last missing fragment came. */
  lemma {:induction false} CutIsMail(p: Peer, u: Loose, k: nat, i: nat, start: nat, n: nat)
    requires |p.at| == |p.loose| && AllLoose(p.loose, p.at) && LooseOk(p.loose, u) && !p.interleaving
    requires Fits(p, u, k, i)
    requires Together(Nums(p.loose, p.at, |p.loose|), PlacesOf(p.loose, u.got))
    requires Segment(Insert(Pick(Line(p.loose, |p.loose|), PlacesOf(p.loose, u.got)), p.loose[k].fs[i], false), start, start + n)
    ensures var line, d, m, a := Line(p.loose, |p.loose|), PlacesOf(p.loose, u.got), p.loose[k], Offset(p.loose, k);
            var cs := Insert(Pick(line, d), m.fs[i], false);
            && start + n <= |cs| && cs[start..start + n] == m.fs && Range(a, a + |m.fs|) <= d + {a + i}
            && cs[..start] + cs[start + n..] == Pick(line, d + {a + i} - Range(a, a + |m.fs|))
  {
    hide AllLoose, LooseOk, LooseNear, Had, Segment, Line, Nums, Offset, Who, PlacesOf, Together, Pick, Insert, NoWhole,
      Places, Numbered;
    var line, nums, d, a := Line(p.loose, |p.loose|), Nums(p.loose, p.at, |p.loose|), PlacesOf(p.loose, u.got), Offset(p.loose, k);
    ArrivalReady(p, u, k, i);
    ArrivalCompletes(line, nums, d, a + i, start, n);
    var b := Places(d + {a + i}, |line|)[start];
    var l := SegmentIsMail(p.loose, p.at, b, b + n, a + i);
    WhoAt(p.loose, k, i);
    LineSlice(p.loose, k);
  }

  lemma {:induction false} Completes(q: Queue, u: Loose, p: Peer, k: nat, i: nat, start: nat, n: nat)
    requires |p.at| == |p.loose| && AllLoose(p.loose, p.at) && LooseOk(p.loose, u) && StandsLoose(q, u, p) && !p.interleaving
    requires Fits(p, u, k, i)
    requires Segment(Insert(q.loose, p.loose[k].fs[i], false), start, start + n)
    ensures var cs := Insert(q.loose, p.loose[k].fs[i], false);
            && start + n <= |cs| && cs[start..start + n] == p.loose[k].fs && All(Had(u.got, k) + {i}, |p.loose[k].fs|)
            && StandsHeld(cs[..start] + cs[start + n..], Arrive(p.loose, u, k, i), p)
  {
    hide AllLoose, LooseOk, LooseNear, Had, All, Segment, Line, Nums, Offset, PlacesOf, Together, Pick, Insert, Arrive,
      StandsReady, Message, Joined, Parcel;
    var nums, d, a := Nums(p.loose, p.at, |p.loose|), PlacesOf(p.loose, u.got), Offset(p.loose, k);
    var e := a + |p.loose[k].fs|;
    CutIsMail(p, u, k, i, start, n);
    RangeMore(p.loose, u.got, k, i);
    PlacesArrive(p.loose, u, k, i);
    JoinsTogether(p, u, k, i);
    TogetherPart(nums, d + {a + i}, d + {a + i} - Range(a, e));
  }

  lemma {:induction false} Waits(q: Queue, u: Loose, p: Peer, k: nat, i: nat)
    requires AllLoose(p.loose, p.at) && LooseOk(p.loose, u) && StandsLoose(q, u, p) && !p.interleaving
    requires Fits(p, u, k, i)
    requires forall j: nat, e: nat :: !Segment(Insert(q.loose, p.loose[k].fs[i], false), j, e)
    ensures !All(Had(u.got, k) + {i}, |p.loose[k].fs|)
    ensures StandsHeld(Insert(q.loose, p.loose[k].fs[i], false), Arrive(p.loose, u, k, i), p)
  {
    hide AllLoose, LooseOk, LooseNear, Had, All, Segment, Line, Nums, Offset, Who, PlacesOf, Together, Pick, Insert, Arrive, Places;
    var line, nums, d, a := Line(p.loose, |p.loose|), Nums(p.loose, p.at, |p.loose|), PlacesOf(p.loose, u.got), Offset(p.loose, k);
    ArrivalReady(p, u, k, i);
    ArrivalWaits(line, nums, d, a + i);
    MailIsSegment(p.loose, p.at, k);
    RangeMore(p.loose, u.got, k, i);
    PlacesArrive(p.loose, u, k, i);
  }

  /** An unordered chunk that arrives is an arrival by number: a message is cut out exactly
      if it was the last fragment missing, and it is that message, with its payload type. */
  lemma {:induction false} PushRefinesLine(q: Queue, u: Loose, p: Peer, k: nat, i: nat,
                                           q': Queue, complete: bool, start: nat, n: nat)
    requires AllLoose(p.loose, p.at) && LooseOk(p.loose, u) && StandsLoose(q, u, p) && !p.interleaving
    requires Fits(p, u, k, i)
    requires PushesUnordered(q, p.loose[k].fs[i], q', complete, start, n)
    ensures StandsLoose(q', Arrive(p.loose, u, k, i), p) && q' == q.(unordered := q'.unordered, loose := q'.loose)
    ensures complete <==> All(Had(u.got, k) + {i}, |p.loose[k].fs|)
  {
    hide AllLoose, LooseOk, LooseNear, Had, All, Segment, Line, Nums, Offset, PlacesOf, Together, Pick, Insert, Arrive, StandsReady;
    var m, cs := p.loose[k], Insert(q.loose, p.loose[k].fs[i], false);
    if complete {
      Completes(q, u, p, k, i, start, n);
      assert cs[start..start + n][0] == cs[start];
      ParcelOf(p, k);
      ReadyMore(q.unordered, u, p.loose, k, i, [ChunkSet(0, cs[start].ppi, cs[start..start + n])]);
    } else {
      Waits(q, u, p, k, i);
      ReadyMore(q.unordered, u, p.loose, k, i, []);
      assert q.unordered + [] == q.unordered;
    }
  }

  lemma {:induction false} ParcelOf(p: Peer, k: nat)
    requires AllLoose(p.loose, p.at) && k < |p.loose|
    ensures var m := p.loose[k]; m.fs != [] && Parcel(p.loose, k) == ChunkSet(0, m.fs[0].ppi, m.fs) && Joined(m.fs) == m.raw
  {
    PostedSome(p.loose[k], p.at[k]);
    PostedPiece(p.loose[k], p.at[k], 0);
  }

  /** A FORWARD-TSN up to the TSN numbered c gives up exactly the chunks held up to c. */
  lemma {:induction false} DropRefinesLine(q: Queue, u: Loose, p: Peer, c: int, k: nat)
    requires AllLoose(p.loose, p.at) && StandsLoose(q, u, p) && !p.interleaving && DropNear(p, u, c) && Forwarded(q.loose, Wire(c), k)
    ensures k <= |q.loose| && StandsLoose(q.(loose := q.loose[k..]), Drop(p, u, c), p)
  {
    hide AllLoose, PostedAt, Line, Nums, Offset, PlacesOf, Together, Pick, Forwarded, Parcel, Wire;
    var line, nums, d := Line(p.loose, |p.loose|), Nums(p.loose, p.at, |p.loose|), PlacesOf(p.loose, u.got);
    LineNumbered(p.loose, p.at);
    forall x | x in d && x < |nums| ensures Near(nums[x], c) { HeldNear(p, u, c, x); }
    DropIsTail(line, nums, d, c, k);
    PlacesDrop(p, u, c);
    TogetherPart(nums, d, d - Passed(nums, d, c));
  }

  lemma {:induction false} ReadyRest(ready: seq<ChunkSet>, u: Loose, loose: seq<Mail>)
    requires StandsReady(ready, u, loose) && ready != []
    ensures u.read < |u.done| && ready[0] == Parcel(loose, u.done[u.read])
    ensures StandsReady(ready[1..], u.(read := u.read + 1), loose)
  {
    hide Parcel;
    var rest, u' := ready[1..], u.(read := u.read + 1);
    assert ready[0] == Parcel(loose, u.done[u.read + 0]);
    forall j | 0 <= j < |rest| ensures rest[j] == Parcel(loose, u'.done[u'.read + j]) {
      assert ready[j + 1] == Parcel(loose, u.done[u.read + (j + 1)]);
    }
  }

  lemma {:induction false} DoneSent(loose: seq<Mail>, u: Loose, j: nat)
    requires LooseOk(loose, u) && j < |u.done|
    ensures u.done[j] < |loose|
  {
    assert u.done[j] in u.done;
  }

  /** What is read is a message that was sent, with its payload type. */
  lemma {:induction false} ReadRefinesLine(q: Queue, u: Loose, p: Peer)
    requires AllLoose(p.loose, p.at) && LooseOk(p.loose, u) && StandsLoose(q, u, p) && q.unordered != []
    ensures u.read < |u.done| && u.done[u.read] < |p.loose|
    ensures Joined(q.unordered[0].chunks) == p.loose[u.done[u.read]].raw && q.unordered[0].ppi == p.loose[u.done[u.read]].ppi
    ensures StandsLoose(q.(unordered := q.unordered[1..]), u.(read := u.read + 1), p)
  {
    hide AllLoose, LooseOk, StandsReady, Line, Nums, PlacesOf, Together, Pick, Joined;
    ReadyRest(q.unordered, u, p.loose);
    DoneSent(p.loose, u, u.read);
    ParcelOf(p, u.done[u.read]);
  }

  lemma {:induction false} StandsStart(p: Peer)
    requires |p.at| == |p.loose|
    ensures StandsLoose(EMPTY, START.u, p)
  {
    var d := PlacesOf(p.loose, map[]);
    assert d == {};
    PickNothing(Line(p.loose, |p.loose|));
  }
}
