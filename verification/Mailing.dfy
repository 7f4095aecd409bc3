/** Messages with their fragments, and what the two reassembly queues have in common. */
module Mailing {
  import opened Serial
  import opened Fragments
  import opened ChunkSets
  import D = Delivery

  /** A message and the fragments it was cut into. */
  datatype Mail = Mail(fs: seq<Fragment>, raw: seq<byte>, ppi: uint32)

  function Sizes(mail: seq<Mail>): seq<nat> { seq(|mail|, k requires 0 <= k < |mail| => |mail[k].fs|) }

  lemma {:induction false} SameBytes(a: seq<Fragment>, b: seq<Fragment>)
    requires |a| == |b| && forall i :: 0 <= i < |a| ==> a[i].data == b[i].data
    ensures Joined(a) == Joined(b)
  {
    if a != [] { SameBytes(a[..|a| - 1], b[..|b| - 1]); }
  }

  /** Giving the fragments that packetize makes their TSNs leaves them that message. */
  lemma {:induction false} TsnsGiven(cut: seq<Fragment>, fs: seq<Fragment>, raw: seq<byte>, ppi: uint32)
    requires Message(cut, raw, ppi) && |fs| == |cut|
    requires forall i :: 0 <= i < |fs| ==> fs[i] == cut[i].(tsn := fs[i].tsn)
    ensures Message(fs, raw, ppi)
  {
    SameBytes(cut, fs);
    forall i: nat | i < |fs| ensures Piece(fs, i, ppi) {
      assert Piece(cut, i, ppi) && fs[i] == cut[i].(tsn := fs[i].tsn) && fs[0] == cut[0].(tsn := fs[0].tsn);
    }
  }

  /** All places below n. */
  ghost predicate All(d: set<nat>, n: nat) { forall x :: 0 <= x < n ==> x in d }

  lemma {:induction false} LiveOnce(st: D.State, mail: seq<Mail>, i: nat, j: nat)
    requires D.Inv(Sizes(mail), st) && i < |st.live| && j < |st.live| && st.live[i] == st.live[j]
    ensures i == j
  {
  }

  lemma {:induction false} PickNothing(fs: seq<Fragment>)
    ensures Pick(fs, {}) == []
  {
    NoPlaces(|fs|);
  }

  ghost predicate NoSkips(ops: seq<D.Op>) { forall j :: 0 <= j < |ops| ==> !ops[j].Skip? }

  lemma {:induction false} OneMore(sizes: seq<nat>, ops: seq<D.Op>, st: D.State, op: D.Op)
    requires D.Runs(sizes, D.INIT, ops, st) && D.Enabled(sizes, st, op)
    ensures D.Runs(sizes, D.INIT, ops + [op], D.Step(sizes, st, op))
  {
    assert (ops + [op])[..|ops|] == ops;
  }
}
