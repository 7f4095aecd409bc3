/** Popping chunks to send within the congestion window, the receiver window and the burst
    budget, and bundling them into packets within the MTU (section 6.1 of RFC 9260). */
module Bundling {
  import opened Options
  import opened Serial
  import I = Inflight

  const COMMON_HEADER := 12
  const UNITS_PER_MTU := 4

  datatype Chunk = Chunk(id: nat, stream: nat, iData: bool, len: nat)

  function Padding(n: nat): nat { (4 - n % 4) % 4 }

  function Header(iData: bool): nat { if iData then 20 else 16 }

  /** chunkSizeInPacket. */
  function Size(c: Chunk): (r: nat)
    ensures r % 4 == 0 && 0 <= r - c.len - (if c.iData then 20 else 16) < 4
  {
    var n := Header(c.iData) + c.len;
    n + Padding(n)
  }

  /** The largest payload the association cuts messages into. */
  function MaxPayload(mtu: nat, iData: bool): (r: nat)
    requires mtu >= COMMON_HEADER + Header(iData)
    ensures 12 + (if iData then 20 else 16) + r == mtu
  {
    mtu - COMMON_HEADER - Header(iData)
  }

  predicate Fits(c: Chunk, mtu: nat) { COMMON_HEADER + Size(c) <= mtu }

  /** A full-size fragment fits a packet of its own if and only if 4 divides the MTU. */
  lemma {:induction false} FullSizeFits(c: Chunk, mtu: nat)
    requires mtu >= COMMON_HEADER + Header(c.iData) && c.len == MaxPayload(mtu, c.iData)
    ensures Fits(c, mtu) <==> mtu % 4 == 0
  {
  }

  function Sizes(cs: seq<Chunk>): nat {
    if cs == [] then 0 else Sizes(cs[..|cs| - 1]) + Size(cs[|cs| - 1])
  }

  /** A packet on the wire. */
  function WireLength(packet: seq<Chunk>): nat { COMMON_HEADER + Sizes(packet) }

  function TotalLength(packets: seq<seq<Chunk>>): nat {
    if packets == [] then 0 else TotalLength(packets[..|packets| - 1]) + WireLength(packets[|packets| - 1])
  }

  function Flatten(packets: seq<seq<Chunk>>): seq<Chunk> {
    if packets == [] then [] else Flatten(packets[..|packets| - 1]) + packets[|packets| - 1]
  }

  ghost predicate AllFit(cs: seq<Chunk>, mtu: nat) { forall i :: 0 <= i < |cs| ==> Fits(cs[i], mtu) }

  /** Bytes charged for chunks sent one after the other, and bytes in the open packet. */
  function Charge(cs: seq<Chunk>, mtu: nat): (nat, nat) {
    if cs == [] then (0, 0)
    else
      var r, n := Charge(cs[..|cs| - 1], mtu), Size(cs[|cs| - 1]);
      if r.1 == 0 || r.1 + n > mtu then (r.0 + COMMON_HEADER + n, COMMON_HEADER + n) else (r.0 + n, r.1 + n)
  }

  lemma {:induction false} ChargeNext(cs: seq<Chunk>, c: Chunk, mtu: nat)
    ensures var r, n := Charge(cs, mtu), Size(c);
            Charge(cs + [c], mtu) ==
            if r.1 == 0 || r.1 + n > mtu then (r.0 + COMMON_HEADER + n, COMMON_HEADER + n) else (r.0 + n, r.1 + n)
  {
    assert (cs + [c])[..|cs|] == cs;
  }

  lemma {:induction false} SizesNext(cs: seq<Chunk>, c: Chunk)
    ensures Sizes(cs + [c]) == Sizes(cs) + Size(c)
  {
    assert (cs + [c])[..|cs|] == cs;
  }

  lemma {:induction false} PacketsNext(packets: seq<seq<Chunk>>, p: seq<Chunk>)
    ensures Flatten(packets + [p]) == Flatten(packets) + p
    ensures TotalLength(packets + [p]) == TotalLength(packets) + WireLength(p)
  {
    assert (packets + [p])[..|packets|] == packets;
  }

  /** No packet is empty or above the MTU. */
  ghost predicate Good(packets: seq<seq<Chunk>>, mtu: nat) {
    forall k :: 0 <= k < |packets| ==> packets[k] != [] && WireLength(packets[k]) <= mtu
  }

  /** Where the bundling loop stands after the chunks `done`. */
  ghost predicate Bundled(done: seq<Chunk>, packets: seq<seq<Chunk>>, open: seq<Chunk>, bytes: nat, mtu: nat) {
    && bytes == WireLength(open) && (done != [] <==> open != [])
    && Flatten(packets) + open == done
    && (AllFit(done, mtu) <==> Good(packets, mtu) && (open != [] ==> bytes <= mtu))
    && (AllFit(done, mtu) ==>
          var last := if open == [] then 0 else bytes;
          Charge(done, mtu) == (TotalLength(packets) + last, last))
  }

  /** The next chunk goes into the open packet. */
  lemma {:induction false} BundleSame(
    done: seq<Chunk>, packets: seq<seq<Chunk>>, open: seq<Chunk>, bytes: nat, mtu: nat, c: Chunk)
    requires Bundled(done, packets, open, bytes, mtu) && bytes + Size(c) <= mtu
    ensures Bundled(done + [c], packets, open + [c], bytes + Size(c), mtu)
  {
    hide Charge, Sizes, Size, Good, AllFit, Flatten, TotalLength;
    ChargeNext(done, c, mtu);
    SizesNext(open, c);
    AllFitNext(done, c, mtu);
    SizesNone();
    assert Flatten(packets) + (open + [c]) == (Flatten(packets) + open) + [c];
  }

  /** The next chunk starts a new packet. */
  lemma {:induction false} BundleNew(
    done: seq<Chunk>, packets: seq<seq<Chunk>>, open: seq<Chunk>, bytes: nat, mtu: nat, c: Chunk)
    requires Bundled(done, packets, open, bytes, mtu) && bytes + Size(c) > mtu
    ensures Bundled(done + [c], packets + [open], [c], COMMON_HEADER + Size(c), mtu)
  {
    hide Charge, Sizes, Size, Good, AllFit, Flatten, TotalLength;
    ChargeNext(done, c, mtu);
    SizesNext([], c);
    SizesNone();
    AllFitNext(done, c, mtu);
    PacketsNext(packets, open);
    GoodNext(packets, open, mtu);
    assert [] + [c] == [c];
  }

  lemma {:induction false} SizesNone()
    ensures Sizes([]) == 0
  {
  }

  /** The packets hold the chunks in order. They are all good if and only if every chunk
      fits a packet of its own, and then their length on the wire is what popping charges. */
  method Bundle(chunks: seq<Chunk>, mtu: nat) returns (packets: seq<seq<Chunk>>)
    ensures Flatten(packets) == chunks
    ensures Good(packets, mtu) <==> AllFit(chunks, mtu)
    ensures AllFit(chunks, mtu) ==> TotalLength(packets) == Charge(chunks, mtu).0
  {
    packets := [];
    var open: seq<Chunk>, bytes: nat := [], COMMON_HEADER;
    assert chunks[..0] == [];
    for i := 0 to |chunks|
      invariant Bundled(chunks[..i], packets, open, bytes, mtu)
    {
      hide *;
      var c := chunks[i];
      assert chunks[..i + 1] == chunks[..i] + [c];
      if bytes + Size(c) > mtu {
        BundleNew(chunks[..i], packets, open, bytes, mtu, c);
        packets := packets + [open];
        open, bytes := [], COMMON_HEADER;
      } else {
        BundleSame(chunks[..i], packets, open, bytes, mtu, c);
      }
      assert [] + [c] == [c];
      open := open + [c];
      bytes := bytes + Size(c);
    }
    assert chunks[..|chunks|] == chunks;
    if |open| > 0 {
      PacketsNext(packets, open);
      GoodNext(packets, open, mtu);
      packets := packets + [open];
    }
  }

  lemma {:induction false} GoodNext(packets: seq<seq<Chunk>>, p: seq<Chunk>, mtu: nat)
    ensures Good(packets + [p], mtu) <==> Good(packets, mtu) && p != [] && WireLength(p) <= mtu
  {
    var q := packets + [p];
    if Good(q, mtu) {
      forall k | 0 <= k < |packets| ensures packets[k] != [] && WireLength(packets[k]) <= mtu { assert q[k] == packets[k]; }
      assert q[|packets|] == p;
    }
  }

  lemma {:induction false} AllFitNext(cs: seq<Chunk>, c: Chunk, mtu: nat)
    ensures AllFit(cs + [c], mtu) <==> AllFit(cs, mtu) && Fits(c, mtu)
  {
    var q := cs + [c];
    if AllFit(q, mtu) {
      forall k | 0 <= k < |cs| ensures Fits(cs[k], mtu) { assert q[k] == cs[k]; }
      assert q[|cs|] == c;
    }
  }

  // ------------------------------------------------------------ burst budget

  /** The remaining budget in quarter bytes, and whether the burst has begun. Only an active
      loss recovery limits its bursts. */
  datatype Burst = Burst(active: bool, budget: nat, consumed: bool)

  /** tlrAllowSendLocked: the first send of a burst is always allowed. */
  function Allow(b: Burst, bytes: nat): (bool, Burst) {
    if !b.active || bytes == 0 then (true, b)
    else
      var need := bytes * UNITS_PER_MTU;
      if b.consumed && b.budget < need then (false, b)
      else (true, b.(budget := if b.budget < need then 0 else b.budget - need, consumed := true))
  }

  /** What a burst began with, its first charge, and all it has charged. */
  datatype Account = Account(budget: nat, first: nat, charged: nat)

  /** The account after one more charge. */
  function Charged(a: Account, bytes: nat): Account {
    Account(a.budget, if a.charged > 0 then a.first else bytes, a.charged + bytes)
  }

  ghost predicate Spent(a: Account, b: Burst) {
    b.active ==>
      && (b.consumed <==> a.charged > 0)
      && (if b.consumed then a.charged >= a.first > 0 && a.charged * UNITS_PER_MTU + b.budget == Max(a.budget, a.first * UNITS_PER_MTU)
          else b.budget == a.budget)
  }

  function Max(a: nat, b: nat): (r: nat)
    ensures a <= r && b <= r && (r == a || r == b)
  {
    if a < b then b else a
  }

  lemma {:induction false} AllowSpent(a: Account, b: Burst, bytes: nat)
    requires Spent(a, b) && Allow(b, bytes).0
    ensures Spent(Charged(a, bytes), Allow(b, bytes).1)
  {
  }

  lemma {:induction false} AllowActive(b: Burst, bytes: nat)
    ensures Allow(b, bytes).1.active == b.active
  {
  }

  /** Only a burst that has begun is refused, and only beyond what is left of its budget. */
  lemma {:induction false} RefusedIff(b: Burst, bytes: nat)
    ensures !Allow(b, bytes).0 <==> b.active && b.consumed && b.budget < 4 * bytes
  {
  }

  /** What a burst lets through of any sequence of requests. */
  function Granted(b: Burst, requests: seq<nat>): (nat, Burst) {
    if requests == [] then (0, b)
    else
      var r, bytes := Granted(b, requests[..|requests| - 1]), requests[|requests| - 1];
      var (ok, next) := Allow(r.1, bytes);
      if ok then (r.0 + bytes, next) else (r.0, r.1)
  }

  /** The first request that asks for anything. */
  function FirstRequest(requests: seq<nat>): nat {
    if requests == [] then 0 else if requests[0] > 0 then requests[0] else FirstRequest(requests[1..])
  }

  lemma {:induction false} FirstRequestNext(requests: seq<nat>)
    requires requests != []
    ensures var init, last := requests[..|requests| - 1], requests[|requests| - 1];
            FirstRequest(requests) == if FirstRequest(init) > 0 then FirstRequest(init) else last
  {
    if |requests| > 1 {
      FirstRequestNext(requests[1..]);
      assert requests[1..][..|requests| - 2] == requests[..|requests| - 1][1..];
    }
  }

  lemma {:induction false} GrantedSpent(budget: nat, requests: seq<nat>)
    ensures var r := Granted(Burst(true, budget, false), requests);
            r.1.active && Spent(Account(budget, FirstRequest(requests), r.0), r.1)
    ensures var r := Granted(Burst(true, budget, false), requests);
            r.0 > 0 <==> FirstRequest(requests) > 0
  {
    if requests != [] {
      var init, last := requests[..|requests| - 1], requests[|requests| - 1];
      GrantedSpent(budget, init);
      FirstRequestNext(requests);
    }
  }

  /** Whatever is asked for, a burst's total is at most its budget or its first charge,
      whichever is greater; and less than a further request away from it. */
  lemma {:induction false} BurstBound(budget: nat, requests: seq<nat>)
    ensures var total := Granted(Burst(true, budget, false), requests).0;
            total * UNITS_PER_MTU <= Max(budget, FirstRequest(requests) * UNITS_PER_MTU)
    ensures forall more: nat ::
              var r := Granted(Burst(true, budget, false), requests);
              r.0 > 0 && !Allow(r.1, more).0 ==> (r.0 + more) * UNITS_PER_MTU > Max(budget, FirstRequest(requests) * UNITS_PER_MTU)
  {
    GrantedSpent(budget, requests);
  }

  // ----------------------------------------------------------- paying for chunks

  /** The first charge of a run of chunks. */
  function FirstCharge(cs: seq<Chunk>): nat { if cs == [] then 0 else COMMON_HEADER + Size(cs[0]) }

  /** The account after a run of chunks that begins a packet of its own. */
  function Pays(a: Account, cs: seq<Chunk>, mtu: nat): Account {
    Account(a.budget, if a.charged > 0 then a.first else FirstCharge(cs), a.charged + Charge(cs, mtu).0)
  }

  ghost predicate Paid(a: Account, cs: seq<Chunk>, mtu: nat, b: Burst) {
    AllFit(cs, mtu) && Spent(Pays(a, cs, mtu), b)
  }

  lemma {:induction false} PaidNone(a: Account, mtu: nat, b: Burst)
    requires Spent(a, b)
    ensures Paid(a, [], mtu, b)
  {
  }

  /** What the next chunk costs when inPacket bytes are in the packet being filled. */
  function Cost(c: Chunk, inPacket: nat): nat { Size(c) + if inPacket == 0 then COMMON_HEADER else 0 }

  /** The packet being filled, or 0 if it has no room for chunk c. */
  ghost predicate Filling(cs: seq<Chunk>, mtu: nat, c: Chunk, inPacket: nat) {
    if inPacket == 0 then cs == [] || Charge(cs, mtu).1 + Size(c) > mtu else inPacket == Charge(cs, mtu).1
  }

  /** The next chunk is taken, in a new packet or in the one being filled. */
  lemma {:induction false} PaidTake(a: Account, cs: seq<Chunk>, mtu: nat, b: Burst, c: Chunk, inPacket: nat)
    requires Paid(a, cs, mtu, b) && Filling(cs, mtu, c, inPacket)
    requires inPacket + Cost(c, inPacket) <= mtu && Allow(b, Cost(c, inPacket)).0
    ensures Paid(a, cs + [c], mtu, Allow(b, Cost(c, inPacket)).1)
    ensures Charge(cs + [c], mtu).1 == inPacket + Cost(c, inPacket)
  {
    hide AllFit, Charge, Allow, Spent, Size;
    ChargeNext(cs, c, mtu);
    AllFitNext(cs, c, mtu);
    ChargeFirst(cs, mtu);
    AllowSpent(Pays(a, cs, mtu), b, Cost(c, inPacket));
    assert cs != [] ==> (cs + [c])[0] == cs[0];
    assert Charged(Pays(a, cs, mtu), Cost(c, inPacket)) == Pays(a, cs + [c], mtu);
  }

  /** Chunks cost something, and a packet being filled is not empty. */
  lemma {:induction false} ChargeFirst(cs: seq<Chunk>, mtu: nat)
    ensures Charge(cs, mtu).0 == 0 <==> cs == []
    ensures if cs == [] then Charge(cs, mtu).1 == 0 else Charge(cs, mtu).1 >= COMMON_HEADER
    ensures Charge(cs, mtu).0 >= FirstCharge(cs)
  {
    if |cs| > 1 { ChargeFirst(cs[..|cs| - 1], mtu); }
  }

  // ------------------------------------------------------------ popping to send

  /** The chunks among these that carry data; the others ask for a stream reset. */
  function Data(cs: seq<Chunk>): seq<Chunk> {
    if cs == [] then []
    else if cs[|cs| - 1].len == 0 then Data(cs[..|cs| - 1])
    else Data(cs[..|cs| - 1]) + [cs[|cs| - 1]]
  }

  function Payload(cs: seq<Chunk>): nat {
    if cs == [] then 0 else Payload(cs[..|cs| - 1]) + cs[|cs| - 1].len
  }

  lemma {:induction false} DataNext(all: seq<Chunk>, n: nat)
    requires n < |all|
    ensures Data(all[..n + 1]) == if all[n].len == 0 then Data(all[..n]) else Data(all[..n]) + [all[n]]
  {
    assert all[..n + 1][..n] == all[..n];
  }

  lemma {:induction false} PayloadNext(cs: seq<Chunk>, c: Chunk)
    ensures Payload(cs + [c]) == Payload(cs) + c.len
    ensures Payload([]) == 0
  {
    assert (cs + [c])[..|cs|] == cs;
  }

  lemma {:induction false} Nothing(all: seq<Chunk>)
    ensures Data(all[..0]) == [] && Payload([]) == 0 && Sizes([]) == 0
  {
  }

  // ----------------------------------------------------------- retransmitting

  /** A chunk in flight; `done` if it is acknowledged or abandoned. */
  datatype Outstanding = Outstanding(c: Chunk, retransmit: bool, done: bool, nSent: nat, missIndicator: nat)

  /** Which chunks a pass resends: those marked when T3 expired, or those that three
      SACKs have reported missing and that were sent only once. */
  datatype Pass = Timeout | Fast

  predicate Wants(pass: Pass, o: Outstanding) {
    match pass
    case Timeout => o.retransmit
    case Fast => !o.done && o.nSent <= 1 && o.missIndicator >= 3
  }

  function Resent(pass: Pass, o: Outstanding): Outstanding {
    if pass.Timeout? then o.(retransmit := false, nSent := o.nSent + 1) else o.(nSent := o.nSent + 1)
  }

  /** The chunks among these that the pass resends. */
  function Chosen(pass: Pass, os: seq<Outstanding>): seq<Chunk> {
    if os == [] then []
    else
      var rest, o := Chosen(pass, os[..|os| - 1]), os[|os| - 1];
      if Wants(pass, o) then rest + [o.c] else rest
  }

  /** The chunks in flight after the pass has got through the first n. */
  function After(pass: Pass, os: seq<Outstanding>, n: nat): seq<Outstanding>
    requires n <= |os|
  {
    seq(|os|, i requires 0 <= i < |os| => if i < n && Wants(pass, os[i]) then Resent(pass, os[i]) else os[i])
  }

  lemma {:induction false} ChosenNext(pass: Pass, os: seq<Outstanding>, n: nat)
    requires n < |os|
    ensures Chosen(pass, os[..n + 1]) == if Wants(pass, os[n]) then Chosen(pass, os[..n]) + [os[n].c] else Chosen(pass, os[..n])
    ensures After(pass, os, n + 1) ==
              if Wants(pass, os[n]) then After(pass, os, n)[n := Resent(pass, os[n])] else After(pass, os, n)
    ensures After(pass, os, n)[n] == os[n]
  {
    assert os[..n + 1][..n] == os[..n];
  }

  lemma {:induction false} ChosenNone(pass: Pass, os: seq<Outstanding>)
    ensures Chosen(pass, os[..0]) == [] && After(pass, os, 0) == os
  {
  }

  /** Chunks that go in flight for the first time. */
  function Sent(cs: seq<Chunk>): seq<Outstanding> {
    seq(|cs|, i requires 0 <= i < |cs| => Outstanding(cs[i], false, false, 1, 0))
  }

  /** The chunk i places behind the first is found by its TSN: not across 2^32, where the
      guard of the in-flight queue compares raw TSNs. */
  predicate Found(first: uint32, n: nat, i: nat) { i < n && first + i < TWO32 }

  lemma {:induction false} FoundIff(cs: seq<I.Chunk>, first: uint32, i: nat)
    requires I.Consecutive(cs, first) && i < TWO32
    ensures Found(first, |cs|, i) <==> I.GetIndex(cs, Add(first, i)) == Some(i)
  {
    if cs != [] { assert cs[0].tsn == Add(first, 0); }
  }

  class Sender {
    /** The pending chunks in the order the pending queue hands them out. */
    var pending: seq<Chunk>
    /** The chunks in flight, oldest first, and the TSN of the first. */
    var inflight: seq<Outstanding>
    var firstTSN: uint32
    var inflightBytes: nat
    var rwnd: nat
    const cwnd: nat
    const mtu: nat
    const fastRtxWnd: nat
    var willRetransmitFast: bool
    var burst: Burst

    constructor (cwnd: nat, mtu: nat, fastRtxWnd: nat, rwnd: nat, firstTSN: uint32)
      ensures this.cwnd == cwnd && this.mtu == mtu && this.fastRtxWnd == fastRtxWnd && this.rwnd == rwnd
      ensures pending == [] && inflight == [] && inflightBytes == 0 && this.firstTSN == firstTSN
    {
      this.cwnd, this.mtu, this.fastRtxWnd, this.rwnd := cwnd, mtu, fastRtxWnd, rwnd;
      pending, inflight, inflightBytes, this.firstTSN := [], [], 0, firstTSN;
      willRetransmitFast, burst := false, Burst(false, 0, false);
    }

    /** The next pending chunk is held back by the congestion window, by the receiver
        window, by the MTU, or by the burst budget after a first send. */
    ghost predicate HeldBack(c: Chunk)
      reads this
    {
      || inflightBytes + c.len > cwnd
      || c.len > rwnd
      || Unaffordable(c)
    }

    /** In a packet of its own it is above the MTU, or above what is left of a burst that has
        begun under loss recovery. */
    ghost predicate Unaffordable(c: Chunk)
      reads this
    {
      12 + Size(c) > mtu || (burst.active && burst.consumed && burst.budget < 4 * (12 + Size(c)))
    }

    /** Takes a prefix of the pending chunks, as long as nothing holds the next one back;
        keeps within both windows; and charges the burst, begun or not, with exactly the
        wire length of the packets the chunks bundle into. */
    method PopPending(ghost a: Account) returns (chunks: seq<Chunk>, ghost n: nat)
      requires Spent(a, burst)
      modifies this`pending, this`inflight, this`inflightBytes, this`rwnd, this`burst
      ensures n <= |old(pending)| && pending == old(pending)[n..] && chunks == Data(old(pending)[..n])
      ensures inflightBytes == old(inflightBytes) + Payload(chunks)
      ensures pending != [] ==> pending[0].len > 0 && HeldBack(pending[0])
      ensures inflight == old(inflight) + Sent(chunks)
      ensures inflightBytes <= Max(old(inflightBytes), cwnd)
      ensures rwnd == old(rwnd) - Payload(chunks)
      ensures Paid(a, chunks, mtu, burst) && burst.active == old(burst).active
    {
      hide Data, Charge, Paid, Spent, Allow, Size, Payload;
      chunks, n := [], 0;
      ghost var all := pending;
      var bytesInPacket: nat := 0;
      Nothing(all);
      PaidNone(a, mtu, burst);
      while true
        invariant n <= |all| && pending == all[n..] && chunks == Data(all[..n])
        invariant inflightBytes == old(inflightBytes) + Payload(chunks) <= Max(old(inflightBytes), cwnd)
        invariant Payload(chunks) + rwnd == old(rwnd) && inflight == old(inflight) + Sent(chunks)
        invariant Paid(a, chunks, mtu, burst) && burst.active == old(burst).active
        invariant bytesInPacket == 0 && chunks != [] ==>
                    pending != [] && pending[0].len != 0 && Charge(chunks, mtu).1 + Size(pending[0]) > mtu
        invariant bytesInPacket != 0 ==> bytesInPacket == Charge(chunks, mtu).1
        decreases |pending|, bytesInPacket
      {
        if |pending| == 0 { break; }
        var c := pending[0];
        DataNext(all, n);
        if c.len == 0 {
          pending := pending[1..];
          n := n + 1;
          continue;
        }
        if inflightBytes + c.len > cwnd { break; }
        if c.len > rwnd { break; }
        var size := Size(c);
        var pay := size;
        if bytesInPacket == 0 {
          pay := pay + COMMON_HEADER;
          if pay > mtu { break; }
        } else if bytesInPacket + size > mtu {
          // it does not fit: start a new packet and look at the same chunk again
          bytesInPacket := 0;
          continue;
        }
        var r := Allow(burst, pay);
        AllowActive(burst, pay);
        RefusedIff(burst, pay);
        if !r.0 { break; }
        PaidTake(a, chunks, mtu, burst, c, bytesInPacket);
        PayloadNext(chunks, c);
        burst := r.1;
        rwnd := rwnd - c.len;
        pending := pending[1..];
        inflightBytes := inflightBytes + c.len;
        inflight := inflight + [Outstanding(c, false, false, 1, 0)];
        chunks := chunks + [c];
        bytesInPacket := bytesInPacket + pay;
        n := n + 1;
      }
    }

    /** popPendingDataChunksToSend: if the windows let nothing through and nothing is in
        flight, one chunk goes out to probe the receiver's window. */
    method PopToSend(ghost a: Account) returns (chunks: seq<Chunk>, ghost probe: bool, ghost n: nat)
      requires Spent(a, burst)
      modifies this`pending, this`inflight, this`inflightBytes, this`rwnd, this`burst
      ensures n <= |old(pending)| && pending == old(pending)[n..] && chunks == Data(old(pending)[..n])
      ensures inflightBytes == old(inflightBytes) + Payload(chunks) && inflight == old(inflight) + Sent(chunks)
      ensures !probe ==> inflightBytes <= Max(old(inflightBytes), cwnd) && rwnd == old(rwnd) - Payload(chunks)
      ensures probe ==> |chunks| == 1 && old(inflight) == [] && rwnd == old(rwnd)
      ensures !probe && pending != [] ==>
                pending[0].len > 0 && HeldBack(pending[0]) && (inflight == [] ==> Unaffordable(pending[0]))
      ensures Paid(a, chunks, mtu, burst) && burst.active == old(burst).active
    {
      hide Data, Charge, Paid, Spent, Allow, Size, Payload;
      chunks, n := PopPending(a);
      probe := false;
      if |chunks| == 0 && |inflight| == 0 && |pending| > 0 && pending[0].len > 0 {
        var c := pending[0];
        var pay := Size(c) + COMMON_HEADER;
        if pay <= mtu {
          var r := Allow(burst, pay);
          AllowActive(burst, pay);
          RefusedIff(burst, pay);
          if r.0 {
            PaidTake(a, chunks, mtu, burst, c, 0);
            PayloadNext(chunks, c);
            DataNext(old(pending), n);
            burst := r.1;
            pending := pending[1..];
            inflightBytes := inflightBytes + c.len;
            inflight := inflight + [Outstanding(c, false, false, 1, 0)];
            chunks, n, probe := chunks + [c], n + 1, true;
          }
        }
      }
    }

    /** Makes room for one more chunk, in the packet being filled or in a new one, and
        charges the burst for it. */
    method Reserve(c: Chunk, bytesInPacket: nat, ghost cs: seq<Chunk>, ghost a: Account) returns (ok: bool, filled: nat)
      requires Paid(a, cs, mtu, burst)
      requires if cs == [] then bytesInPacket == 0 else bytesInPacket == Charge(cs, mtu).1 > 0
      modifies this`burst
      ensures ok ==> Paid(a, cs + [c], mtu, burst) && filled == Charge(cs + [c], mtu).1 > 0
      ensures !ok ==> burst == old(burst) && Unaffordable(c)
      ensures burst.active == old(burst).active
    {
      hide Charge, Paid, Spent, Allow, Size;
      filled := bytesInPacket;
      while true
        invariant burst == old(burst)
        invariant filled == bytesInPacket || (filled == 0 && cs != [] && bytesInPacket + Size(c) > mtu)
        decreases filled
      {
        var addBytes := Size(c);
        if filled == 0 {
          addBytes := addBytes + COMMON_HEADER;
          if addBytes > mtu { return false, filled; }
        } else if filled + Size(c) > mtu {
          filled := 0;
          continue;
        }
        var r := Allow(burst, addBytes);
        AllowActive(burst, addBytes);
        if !r.0 {
          RefusedIff(burst, addBytes);
          return false, filled;
        }
        PaidTake(a, cs, mtu, burst, c, filled);
        burst := r.1;
        return true, filled + addBytes;
      }
    }

    /** getDataPacketsToRetransmit: resends the marked chunks from the oldest on, until one
        is over the window or cannot be paid for; the oldest may probe a closed window. */
    method ResendTimedOut(ghost a: Account) returns (chunks: seq<Chunk>, ghost n: nat)
      requires Spent(a, burst)
      modifies this`inflight, this`burst
      ensures n <= |old(inflight)| && chunks == Chosen(Timeout, old(inflight)[..n])
      ensures inflight == After(Timeout, old(inflight), n)
      ensures forall i :: 0 <= i < n ==>
                var o := old(inflight)[i];
                inflight[i] == if o.retransmit then o.(retransmit := false, nSent := o.nSent + 1) else o
      ensures n < |inflight| && firstTSN + n < TWO32 ==>
                && inflight[n].retransmit
                && ((Payload(chunks) + inflight[n].c.len > Min(cwnd, rwnd) && !(n == 0 && inflight[0].c.len > rwnd))
                    || Unaffordable(inflight[n].c))
      ensures Payload(chunks) <= Min(cwnd, rwnd) || (|chunks| == 1 && chunks[0] == old(inflight)[0].c && chunks[0].len > rwnd)
      ensures Paid(a, chunks, mtu, burst) && burst.active == old(burst).active
    {
      hide Charge, Paid, Spent, Allow, Size, Payload, Chosen, After;
      ghost var all := inflight;
      var awnd := Min(cwnd, rwnd);
      var bytesToSend, bytesInPacket, i := 0, 0, 0;
      chunks, n := [], 0;
      Nothing([]);
      PaidNone(a, mtu, burst);
      ChosenNone(Timeout, all);
      while Found(firstTSN, |inflight|, i)
        decreases |inflight| - i
        invariant n == i <= |all| == |inflight| && chunks == Chosen(Timeout, all[..i]) && inflight == After(Timeout, all, i)
        invariant forall j :: 0 <= j < i ==>
                    inflight[j] == if all[j].retransmit then all[j].(retransmit := false, nSent := all[j].nSent + 1) else all[j]
        invariant bytesToSend == Payload(chunks)
        invariant bytesToSend <= awnd || (|chunks| == 1 && chunks[0] == all[0].c && chunks[0].len > rwnd)
        invariant if chunks == [] then bytesInPacket == 0 else bytesInPacket == Charge(chunks, mtu).1 > 0
        invariant Paid(a, chunks, mtu, burst) && burst.active == old(burst).active
        invariant i == 0 ==> chunks == []
      {
        ChosenNext(Timeout, all, i);
        var o := inflight[i];
        if !o.retransmit {
          i, n := i + 1, n + 1;
          continue;
        }
        if i == 0 && rwnd < o.c.len {
          // allowed as a window probe
        } else if bytesToSend + o.c.len > awnd {
          return;
        }
        var ok, filled := Reserve(o.c, bytesInPacket, chunks, a);
        if !ok { return; }
        PayloadNext(chunks, o.c);
        bytesInPacket := filled;
        inflight := inflight[i := Resent(Timeout, o)];
        bytesToSend := bytesToSend + o.c.len;
        chunks := chunks + [o.c];
        i, n := i + 1, n + 1;
      }
    }

    /** gatherOutboundFastRetransmissionPackets: the chunks reported missing, once, within
        the fast-retransmission window. */
    method ResendFast(ghost a: Account) returns (chunks: seq<Chunk>, ghost n: nat)
      requires Spent(a, burst)
      modifies this`inflight, this`burst, this`willRetransmitFast
      ensures !willRetransmitFast
      ensures n <= |old(inflight)| && chunks == Chosen(Fast, old(inflight)[..n])
      ensures inflight == After(Fast, old(inflight), n)
      ensures forall i :: 0 <= i < n ==>
                var o := old(inflight)[i];
                inflight[i] == if !o.done && o.nSent <= 1 && o.missIndicator >= 3 then o.(nSent := o.nSent + 1) else o
      ensures !old(willRetransmitFast) ==> n == 0
      ensures old(willRetransmitFast) && n < |inflight| && firstTSN + n < TWO32 ==>
                && !inflight[n].done && inflight[n].nSent <= 1 && inflight[n].missIndicator >= 3
                && (WireLength(chunks) + Size(inflight[n].c) > Max(mtu, fastRtxWnd) || Unaffordable(inflight[n].c))
      ensures chunks != [] ==> WireLength(chunks) <= Max(mtu, fastRtxWnd)
      ensures Paid(a, chunks, mtu, burst) && burst.active == old(burst).active
    {
      hide Charge, Paid, Spent, Allow, Size, Sizes, Chosen, After;
      ghost var all := inflight;
      chunks, n := [], 0;
      Nothing([]);
      PaidNone(a, mtu, burst);
      ChosenNone(Fast, all);
      if !willRetransmitFast { return; }
      willRetransmitFast := false;
      var fastRetransSize, bytesInPacket, i := COMMON_HEADER, 0, 0;
      while Found(firstTSN, |inflight|, i)
        decreases |inflight| - i
        invariant n == i <= |all| == |inflight| && chunks == Chosen(Fast, all[..i]) && inflight == After(Fast, all, i)
        invariant forall j :: 0 <= j < i ==>
                    var o := all[j];
                    inflight[j] == if !o.done && o.nSent <= 1 && o.missIndicator >= 3 then o.(nSent := o.nSent + 1) else o
        invariant !willRetransmitFast && fastRetransSize == WireLength(chunks) && (chunks != [] ==> fastRetransSize <= Max(mtu, fastRtxWnd))
        invariant if chunks == [] then bytesInPacket == 0 else bytesInPacket == Charge(chunks, mtu).1 > 0
        invariant Paid(a, chunks, mtu, burst) && burst.active == old(burst).active
      {
        ChosenNext(Fast, all, i);
        var o := inflight[i];
        if o.done || o.nSent > 1 || o.missIndicator < 3 {
          i, n := i + 1, n + 1;
          continue;
        }
        if Max(mtu, fastRtxWnd) < fastRetransSize + Size(o.c) { return; }
        var ok, filled := Reserve(o.c, bytesInPacket, chunks, a);
        if !ok { return; }
        SizesNext(chunks, o.c);
        bytesInPacket := filled;
        fastRetransSize := fastRetransSize + Size(o.c);
        inflight := inflight[i := Resent(Fast, o)];
        chunks := chunks + [o.c];
        i, n := i + 1, n + 1;
      }
    }

    /** One burst: retransmissions, new data and fast retransmissions draw on one budget.
        Every packet is within the MTU, and under loss recovery all of them together are at
        most the budget or one full packet, whichever is greater. */
    method Gather(active: bool, budget: nat)
      returns (timedOut: seq<seq<Chunk>>, newData: seq<seq<Chunk>>, fast: seq<seq<Chunk>>, ghost k: nat, ghost m: nat, ghost n: nat)
      modifies this`pending, this`inflight, this`inflightBytes, this`rwnd, this`burst, this`willRetransmitFast
      ensures Good(timedOut, mtu) && Good(newData, mtu) && Good(fast, mtu)
      ensures active ==>
                (TotalLength(timedOut) + TotalLength(newData) + TotalLength(fast)) * UNITS_PER_MTU <= Max(budget, mtu * UNITS_PER_MTU)
      ensures k <= |old(inflight)| && Flatten(timedOut) == Chosen(Timeout, old(inflight)[..k])
      ensures m <= |old(pending)| && Flatten(newData) == Data(old(pending)[..m]) && pending == old(pending)[m..]
      ensures var os := After(Timeout, old(inflight), k) + Sent(Data(old(pending)[..m]));
              n <= |os| && Flatten(fast) == Chosen(Fast, os[..n]) && inflight == After(Fast, os, n)
    {
      hide Charge, TotalLength, Good, Allow, Pays, AllFit, Paid, Flatten, Chosen, After, Data;
      burst := Burst(active, budget, false);
      ghost var a, probe := Account(budget, 0, 0), false;
      var chunks;
      chunks, k := ResendTimedOut(a);
      PaidOut(a, chunks, mtu, burst);
      timedOut := Bundle(chunks, mtu);
      ghost var b := Pays(a, chunks, mtu);
      chunks, probe, m := PopToSend(b);
      PaidOut(b, chunks, mtu, burst);
      newData := Bundle(chunks, mtu);
      ghost var c := Pays(b, chunks, mtu);
      chunks, n := ResendFast(c);
      PaidOut(c, chunks, mtu, burst);
      fast := Bundle(chunks, mtu);
    }
  }

  /** What a paid run leaves behind: all its chunks fit, the account carries its charge, and
      the first charge of the burst is at most one packet. */
  lemma {:induction false} PaidOut(a: Account, cs: seq<Chunk>, mtu: nat, b: Burst)
    requires Paid(a, cs, mtu, b)
    ensures AllFit(cs, mtu) && Spent(Pays(a, cs, mtu), b)
    ensures Pays(a, cs, mtu).budget == a.budget && Pays(a, cs, mtu).charged == a.charged + Charge(cs, mtu).0
    ensures a.first <= mtu ==> Pays(a, cs, mtu).first <= mtu
  {
    if cs != [] { assert Fits(cs[0], mtu); }
  }

  function Min(a: nat, b: nat): (r: nat)
    ensures r <= a && r <= b && (r == a || r == b)
  {
    if a < b then a else b
  }
}
