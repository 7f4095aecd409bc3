/** Gap Ack Blocks (section 3.3.4 of RFC 9260): the runs of received TSNs above
    the cumulative TSN, as offsets from it. */
module GapBlocks {
  datatype GapBlock = GapBlock(start: nat, end: nat)

  /** The last offset of the run that contains d. */
  function RunEnd(offs: set<nat>, d: nat, top: nat): (e: nat)
    requires d <= top && d in offs
    ensures d <= e <= top
    ensures forall i :: d <= i <= e ==> i in offs
    ensures e < top ==> e + 1 !in offs
    decreases top - d
  {
    if d < top && d + 1 in offs then RunEnd(offs, d + 1, top) else d
  }

  /** The maximal runs within the offsets d..top, in order. */
  function Runs(offs: set<nat>, d: nat, top: nat): seq<GapBlock>
    decreases top + 1 - d
  {
    if d > top then []
    else if d !in offs then Runs(offs, d + 1, top)
    else
      var e := RunEnd(offs, d, top);
      [GapBlock(d, e)] + Runs(offs, e + 1, top)
  }

  /** What a list of gap blocks has to be: in order, never adjacent, covering
      exactly the received offsets of d..top. */
  ghost predicate Exact(blocks: seq<GapBlock>, offs: set<nat>, d: nat, top: nat) {
    && (forall i :: 0 <= i < |blocks| ==> d <= blocks[i].start <= blocks[i].end <= top)
    && (forall i, j :: 0 <= i < j < |blocks| ==> blocks[i].end + 1 < blocks[j].start)
    && (forall x: nat :: d <= x <= top ==> (x in offs <==> Covered(blocks, x)))
  }

  ghost predicate Covered(blocks: seq<GapBlock>, x: nat) {
    exists i :: 0 <= i < |blocks| && blocks[i].start <= x <= blocks[i].end
  }

  /** `Runs` is exact. */
  lemma {:induction false} RunsExact(offs: set<nat>, d: nat, top: nat)
    ensures Exact(Runs(offs, d, top), offs, d, top)
    decreases top + 1 - d
  {
    hide Exact;
    if d > top {
      NothingExact(offs, d, top);
    } else if d !in offs {
      RunsExact(offs, d + 1, top);
      ExactSkip(Runs(offs, d + 1, top), offs, d, top);
    } else {
      var e := RunEnd(offs, d, top);
      RunsExact(offs, e + 1, top);
      ExactCons(d, e, Runs(offs, e + 1, top), offs, top);
    }
  }

  lemma {:induction false} NothingExact(offs: set<nat>, d: nat, top: nat)
    requires d > top
    ensures Exact([], offs, d, top)
  {
  }

  /** A run in front of an exact list of what follows it. */
  lemma {:induction false} ExactCons(d: nat, e: nat, rest: seq<GapBlock>, offs: set<nat>, top: nat)
    requires d <= e <= top
    requires forall i :: d <= i <= e ==> i in offs
    requires e < top ==> e + 1 !in offs
    requires Exact(rest, offs, e + 1, top)
    ensures Exact([GapBlock(d, e)] + rest, offs, d, top)
  {
    var rs := [GapBlock(d, e)] + rest;
    FirstCovered(rest);
    forall i, j | 0 <= i < j < |rs|
      ensures rs[i].end + 1 < rs[j].start
    {
      assert rs[j] == rest[j - 1] && rest[j - 1].start >= rest[0].start;
      if i > 0 { assert rs[i] == rest[i - 1]; }
    }
    forall x: nat | d <= x <= top
      ensures x in offs <==> Covered(rs, x)
    {
      CoveredCons(GapBlock(d, e), rest, x);
    }
  }

  lemma {:induction false} ExactSkip(rs: seq<GapBlock>, offs: set<nat>, d: nat, top: nat)
    requires d !in offs
    requires Exact(rs, offs, d + 1, top)
    ensures Exact(rs, offs, d, top)
  {
  }

  lemma {:induction false} FirstCovered(a: seq<GapBlock>)
    requires a != [] ==> a[0].start <= a[0].end
    ensures a != [] ==> Covered(a, a[0].start)
  {
  }

  lemma {:induction false} CoveredCons(b: GapBlock, rest: seq<GapBlock>, x: nat)
    ensures Covered([b] + rest, x) <==> b.start <= x <= b.end || Covered(rest, x)
  {
    var all := [b] + rest;
    if Covered(rest, x) {
      var i :| 0 <= i < |rest| && rest[i].start <= x <= rest[i].end;
      assert all[i + 1] == rest[i];
    }
    if b.start <= x <= b.end { assert all[0] == b; }
    if Covered(all, x) {
      var i :| 0 <= i < |all| && all[i].start <= x <= all[i].end;
      if i > 0 { assert all[i] == rest[i - 1]; }
    }
  }

  /** Exactness determines the list: any two exact lists are equal. */
  lemma {:induction false} ExactUnique(a: seq<GapBlock>, b: seq<GapBlock>,
                                       offs: set<nat>, d: nat, top: nat)
    requires Exact(a, offs, d, top) && Exact(b, offs, d, top)
    ensures a == b
    decreases |a|
  {
    FirstCovered(a);
    FirstCovered(b);
    if a != [] {
      FirstBlockWithin(a, b, offs, d, top);
      FirstBlockWithin(b, a, offs, d, top);
      var e := a[0].end;
      assert a[0] == b[0];
      ExactTail(a, offs, d, top);
      ExactTail(b, offs, d, top);
      ExactUnique(a[1..], b[1..], offs, e + 1, top);
      assert a == [a[0]] + a[1..] && b == [b[0]] + b[1..];
    }
  }

  lemma {:induction false} FirstBlockWithin(a: seq<GapBlock>, b: seq<GapBlock>, offs: set<nat>, d: nat, top: nat)
    requires a != [] && b != []
    requires Exact(a, offs, d, top) && Exact(b, offs, d, top)
    ensures b[0].start <= a[0].start
    ensures a[0].start == b[0].start ==> b[0].end <= a[0].end
  {
    assert Covered(a, a[0].start);
    assert Covered(b, a[0].start);
    if a[0].start == b[0].start && a[0].end < top {
      assert !Covered(a, a[0].end + 1);
      assert !Covered(b, a[0].end + 1);
    }
  }

  lemma {:induction false} ExactTail(a: seq<GapBlock>, offs: set<nat>, d: nat, top: nat)
    requires a != [] && Exact(a, offs, d, top)
    ensures Exact(a[1..], offs, a[0].end + 1, top)
  {
    var e := a[0].end;
    assert a == [a[0]] + a[1..];
    forall x: nat | e + 1 <= x <= top
      ensures x in offs <==> Covered(a[1..], x)
    {
      CoveredCons(a[0], a[1..], x);
    }
  }

  /** Steps of a left-to-right scan. */
  lemma {:induction false} SkipEmpty(offs: set<nat>, d: nat, e: nat, top: nat)
    requires d <= e
    requires forall i :: d <= i < e ==> i > top || i !in offs
    ensures Runs(offs, d, top) == Runs(offs, e, top)
    decreases e - d
  {
    if d < e { SkipEmpty(offs, d + 1, e, top); }
  }

  lemma {:induction false} TakeRun(offs: set<nat>, d: nat, e: nat, top: nat)
    requires d <= e <= top
    requires forall i :: d <= i <= e ==> i in offs
    requires e < top ==> e + 1 !in offs
    ensures Runs(offs, d, top) == [GapBlock(d, e)] + Runs(offs, e + 1, top)
  {
    var f := RunEnd(offs, d, top);
    assert f == e;
  }
}
