/** Unordered I-DATA messages by number: each is whole when its last missing fragment has
    come, in whatever order fragments come and however messages are mixed. */
module MidPool {
  import opened Serial
  import opened Fragments
  import opened ChunkSets
  import opened Mailing
  import opened Exchange
  import M = MidQueue

  /** Message k as the receiver gets it: all the fragments packetize makes, numbered from 0,
      under the identifier k modulo 2^32. Only the first one need carry the payload type. */
  ghost predicate PostedMid(m: Mail, k: nat) {
    && Whole(m.fs, 0, true) && Joined(m.fs) == m.raw && m.fs[0].ppi == m.ppi
    && forall i :: 0 <= i < |m.fs| ==> m.fs[i].mid == Wire(k)
  }

  ghost predicate AllPostedMid(mail: seq<Mail>) { forall k :: 0 <= k < |mail| ==> PostedMid(mail[k], k) }

  /** What packetize makes is such a message, whatever TSNs its fragments were sent under and
      whatever payload types the later ones arrive with. */
  lemma {:induction false} PacketizedIsPosted(cut: seq<Fragment>, fs: seq<Fragment>, raw: seq<byte>, ppi: uint32, k: nat)
    requires Message(cut, raw, ppi) && raw != [] && |cut| < HALF32 && cut[0].mid == Wire(k)
    requires |fs| == |cut| && fs[0].ppi == ppi
    requires forall i :: 0 <= i < |fs| ==> fs[i] == cut[i].(tsn := fs[i].tsn, ppi := fs[i].ppi)
    ensures PostedMid(Mail(fs, raw, ppi), k)
  {
    forall i | 0 <= i < |fs|
      ensures fs[i].fsn == i && fs[i].first == (i == 0) && fs[i].last == (i == |fs| - 1) && fs[i].mid == Wire(k)
    {
      assert Piece(cut, i, ppi);
    }
    SameBytes(cut, fs);
  }

  lemma {:induction false} PostedMidWhole(m: Mail, k: nat)
    requires PostedMid(m, k)
    ensures Whole(m.fs, 0, true)
  {
  }

  /** One fragment more: taken, put in its place, and the last one missing completes. */
  lemma {:induction false} TakesOne(fs: seq<Fragment>, d: set<nat>, i: nat)
    requires Whole(fs, 0, true) && i < |fs| && i !in d
    ensures M.Takes(Pick(fs, d), fs[i]) && Insert(Pick(fs, d), fs[i], true) == Pick(fs, d + {i})
    ensures Complete(Pick(fs, d + {i}), true) <==> All(d + {i}, |fs|)
    ensures All(d + {i}, |fs|) ==> Pick(fs, d + {i}) == fs
  {
    hide M.Takes, Insert, Complete, Comes, Whole, Pick;
    WholeComes(fs, 0, d, i, true);
    InsertPick(fs, d, i, true);
    CompleteIff(fs, d + {i}, 0, true);
    M.TakesPick(fs, d, i);
  }

  // ------------------------------------------------------------------ the queue

  /** An incomplete message has this identifier. */
  ghost predicate Known(u: Loose, m: uint32) { exists k: nat :: k in u.got && Wire(k) == m }

  ghost predicate StandsOpen(open: map<uint32, M.MidSet>, u: Loose, mail: seq<Mail>) {
    && (forall m :: m in open ==> Known(u, m))
    && (forall k :: k in u.got ==> k < |mail| && Wire(k) in open && open[Wire(k)].chunks == Pick(mail[k].fs, u.got[k]))
  }

  ghost predicate StandsReady(ready: seq<M.MidSet>, u: Loose, mail: seq<Mail>) {
    && u.read <= |u.done| && |ready| == |u.done| - u.read
    && forall j :: 0 <= j < |ready| ==> ReadyAt(ready[j], u, u.read + j, mail)
  }

  ghost predicate ReadyAt(s: M.MidSet, u: Loose, j: nat, mail: seq<Mail>) {
    j < |u.done| && u.done[j] < |mail| && s.mid == Wire(u.done[j]) && s.chunks == mail[u.done[j]].fs
  }

  ghost predicate StandsFor(pool: M.Pool, u: Loose, mail: seq<Mail>) {
    M.PoolOk(pool) && StandsOpen(pool.open, u, mail) && StandsReady(pool.ready, u, mail)
  }

  lemma {:induction false} NotQueued(pool: M.Pool, u: Loose, p: Peer, k: nat, i: nat)
    requires p.interleaving && LooseOk(p.loose, u) && StandsReady(pool.ready, u, p.loose) && Fits(p, u, k, i)
    ensures !M.Queued(pool.ready, Wire(k))
  {
    hide Wire;
    NotDone(p.loose, u, k, i);
    forall j | 0 <= j < |pool.ready| ensures pool.ready[j].mid != Wire(k) {
      assert ReadyAt(pool.ready[j], u, u.read + j, p.loose);
      var l := u.done[u.read + j];
      assert l in u.done;
      if Wire(l) == Wire(k) { WireInjective(l, k); }
    }
  }

  lemma {:induction false} OpenIff(pool: M.Pool, u: Loose, p: Peer, k: nat, i: nat)
    requires p.interleaving && StandsOpen(pool.open, u, p.loose) && Fits(p, u, k, i)
    ensures Wire(k) in pool.open <==> k in u.got
    ensures Wire(k) in pool.open ==> pool.open[Wire(k)].chunks == Pick(p.loose[k].fs, Had(u.got, k))
    ensures Wire(k) !in pool.open ==> Pick(p.loose[k].fs, Had(u.got, k)) == []
  {
    hide Wire, Pick;
    if Wire(k) in pool.open {
      assert Known(u, Wire(k));
      var l: nat :| l in u.got && Wire(l) == Wire(k);
      WireInjective(l, k);
    } else {
      PickNothing(p.loose[k].fs);
    }
  }

  lemma {:induction false} OpenGrows(open: map<uint32, M.MidSet>, u: Loose, p: Peer, k: nat, i: nat, s: M.MidSet)
    requires p.interleaving && StandsOpen(open, u, p.loose) && Fits(p, u, k, i)
    requires !All(Had(u.got, k) + {i}, |p.loose[k].fs|) && s.chunks == Pick(p.loose[k].fs, Had(u.got, k) + {i})
    ensures StandsOpen(open[Wire(k) := s], Arrive(p.loose, u, k, i), p.loose)
  {
    hide Wire, Pick, All;
    var u', open' := Arrive(p.loose, u, k, i), open[Wire(k) := s];
    forall m | m in open' ensures Known(u', m) {
      if m != Wire(k) {
        assert Known(u, m);
        var l: nat :| l in u.got && Wire(l) == m;
        assert l in u'.got;
      } else {
        assert k in u'.got;
      }
    }
    forall l | l in u'.got ensures l < |p.loose| && Wire(l) in open' && open'[Wire(l)].chunks == Pick(p.loose[l].fs, u'.got[l]) {
      if l != k && Wire(l) == Wire(k) { WireInjective(l, k); }
    }
  }

  lemma {:induction false} OpenShrinks(open: map<uint32, M.MidSet>, u: Loose, p: Peer, k: nat, i: nat)
    requires p.interleaving && StandsOpen(open, u, p.loose) && Fits(p, u, k, i) && All(Had(u.got, k) + {i}, |p.loose[k].fs|)
    ensures StandsOpen(open - {Wire(k)}, Arrive(p.loose, u, k, i), p.loose)
  {
    hide Wire, Pick, All;
    var u', open' := Arrive(p.loose, u, k, i), open - {Wire(k)};
    forall m | m in open' ensures Known(u', m) {
      assert Known(u, m);
      var l: nat :| l in u.got && Wire(l) == m;
      assert l in u'.got;
    }
    forall l | l in u'.got ensures l < |p.loose| && Wire(l) in open' && open'[Wire(l)].chunks == Pick(p.loose[l].fs, u'.got[l]) {
      if Wire(l) == Wire(k) { WireInjective(l, k); }
    }
  }

  lemma {:induction false} ReadyGrows(ready: seq<M.MidSet>, u: Loose, mail: seq<Mail>, k: nat, i: nat, more: seq<M.MidSet>)
    requires StandsReady(ready, u, mail) && k < |mail|
    requires if All(Had(u.got, k) + {i}, |mail[k].fs|) then |more| == 1 && more[0].mid == Wire(k) && more[0].chunks == mail[k].fs
             else more == []
    ensures StandsReady(ready + more, Arrive(mail, u, k, i), mail)
  {
    hide Wire, All;
    var u' := Arrive(mail, u, k, i);
    forall j | 0 <= j < |ready + more| ensures ReadyAt((ready + more)[j], u', u'.read + j, mail) {
      if j < |ready| { assert ReadyAt(ready[j], u, u.read + j, mail); }
    }
  }

  /** An unordered chunk that arrives is an arrival by number: its message is whole exactly
      if it was the last fragment missing, and then it is ready to be read. */
  lemma {:induction false} PushRefinesPool(pool: M.Pool, u: Loose, p: Peer, k: nat, i: nat)
    requires p.interleaving && AllPostedMid(p.loose) && LooseOk(p.loose, u) && StandsFor(pool, u, p.loose) && Fits(p, u, k, i)
    requires !M.LimitHit(pool, p.loose[k].fs[i])
    ensures var r := M.PushTo(pool, p.loose[k].fs[i]);
            StandsFor(r.0, Arrive(p.loose, u, k, i), p.loose) && (r.1 <==> All(Had(u.got, k) + {i}, |p.loose[k].fs|))
  {
    assert PostedMid(p.loose[k], k) && i !in Had(u.got, k);
    var c := p.loose[k].fs[i];
    assert c.mid == Wire(k);
    hide AllPostedMid, PostedMid, LooseOk, StandsOpen, StandsReady, M.PoolOk, M.LimitHit, M.Takes, Complete, Insert, Pick, Wire,
      All, Arrive, Whole, LooseNear;
    PostedMidWhole(p.loose[k], k);
    TakesOne(p.loose[k].fs, Had(u.got, k), i);
    NotQueued(pool, u, p, k, i);
    OpenIff(pool, u, p, k, i);
    M.PushToKeeps(pool, c);
    var s := M.With(M.SetFor(pool, c), c);
    OpenMid(pool, c);
    if All(Had(u.got, k) + {i}, |p.loose[k].fs|) {
      OpenShrinks(pool.open, u, p, k, i);
      ReadyGrows(pool.ready, u, p.loose, k, i, [s]);
    } else {
      OpenGrows(pool.open, u, p, k, i, s);
      ReadyGrows(pool.ready, u, p.loose, k, i, []);
      assert pool.ready + [] == pool.ready;
    }
  }

  lemma {:induction false} OpenMid(pool: M.Pool, c: Fragment)
    requires M.PoolOk(pool)
    ensures M.SetFor(pool, c).mid == c.mid
  {
  }

  /** Giving up by identifier is giving up by number. */
  lemma {:induction false} DropRefinesPool(pool: M.Pool, u: Loose, p: Peer, m: int)
    requires p.interleaving && LooseOk(p.loose, u) && StandsFor(pool, u, p.loose) && DropNear(p, u, m)
    ensures StandsFor(pool.(open := M.OpenAfter(pool.open, Wire(m))), Drop(p, u, m), p.loose)
  {
    hide M.PpiOk, StandsOpen, Wire, LooseOk;
    var u' := Drop(p, u, m);
    DropOpen(pool.open, u, p, m);
    forall j | 0 <= j < |pool.ready| ensures ReadyAt(pool.ready[j], u', u'.read + j, p.loose) {
      assert ReadyAt(pool.ready[j], u, u.read + j, p.loose);
    }
  }

  /** Whole messages are given up, never parts. */
  lemma {:induction false} DropIs(p: Peer, u: Loose, m: int)
    requires p.interleaving && LooseOk(p.loose, u)
    ensures var u' := Drop(p, u, m);
            forall k: nat :: (k in u'.got <==> k in u.got && k > m) && (k in u'.got ==> u'.got[k] == u.got[k])
  {
    hide All, Had;
    forall k: nat | k in u.got ensures Left(p, m, k, u.got[k]) == if k <= m then {} else u.got[k] {}
  }

  lemma {:induction false} DropOpen(open: map<uint32, M.MidSet>, u: Loose, p: Peer, m: int)
    requires p.interleaving && LooseOk(p.loose, u) && StandsOpen(open, u, p.loose) && DropNear(p, u, m)
    ensures StandsOpen(M.OpenAfter(open, Wire(m)), Drop(p, u, m), p.loose)
  {
    hide Wire, Pick, Lte32, Drop, LooseOk;
    DropIs(p, u, m);
    var u', open' := Drop(p, u, m), M.OpenAfter(open, Wire(m));
    forall x | x in open' ensures Known(u', x) {
      assert Known(u, x);
      var l: nat :| l in u.got && Wire(l) == x;
      WireOrder(l, m);
      assert l in u'.got;
    }
    forall l | l in u'.got ensures l < |p.loose| && Wire(l) in open' && open'[Wire(l)].chunks == Pick(p.loose[l].fs, u'.got[l]) {
      WireOrder(l, m);
    }
  }

  /** What is read is a message that was sent, with its payload type. */
  lemma {:induction false} ReadRefinesPool(pool: M.Pool, u: Loose, mail: seq<Mail>)
    requires AllPostedMid(mail) && StandsFor(pool, u, mail) && pool.ready != []
    ensures u.read < |u.done| && u.done[u.read] < |mail|
    ensures Joined(pool.ready[0].chunks) == mail[u.done[u.read]].raw && pool.ready[0].ppi == mail[u.done[u.read]].ppi
    ensures StandsFor(pool.(ready := pool.ready[1..]), u.(read := u.read + 1), mail)
  {
    assert ReadyAt(pool.ready[0], u, u.read + 0, mail);
    var k := u.done[u.read];
    assert PostedMid(mail[k], k);
    M.WholeFirst(mail[k].fs);
    assert M.PpiOk(pool.ready[0].chunks, pool.ready[0].ppi);
    hide AllPostedMid, PostedMid, StandsOpen, Joined, M.PpiOk, Wire, Whole;
    ReadyRest(pool.ready, u, mail);
    OpenSame(pool.open, u, u.(read := u.read + 1), mail);
  }

  lemma {:induction false} ReadyRest(ready: seq<M.MidSet>, u: Loose, mail: seq<Mail>)
    requires StandsReady(ready, u, mail) && ready != []
    ensures StandsReady(ready[1..], u.(read := u.read + 1), mail)
  {
    var u', rest := u.(read := u.read + 1), ready[1..];
    forall j | 0 <= j < |rest| ensures ReadyAt(rest[j], u', u'.read + j, mail) {
      assert ReadyAt(ready[j + 1], u, u.read + (j + 1), mail);
    }
  }

  lemma {:induction false} OpenSame(open: map<uint32, M.MidSet>, u: Loose, u': Loose, mail: seq<Mail>)
    requires StandsOpen(open, u, mail) && u'.got == u.got
    ensures StandsOpen(open, u', mail)
  {
    hide Pick, Wire;
    forall m | m in open ensures Known(u', m) { assert Known(u, m); }
  }
}
