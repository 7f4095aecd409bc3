/** The retransmission timer and the delayed-ack timer.

    The runtime's timer fires a callback on its own goroutine, so an expiry can still
    be on its way to the mutex when the timer is stopped and started again. The code
    counts what is outstanding in a uint8 and lets only the last one through.

    `Timer` is the protocol with that count unbounded, `RtxTimer` the code's object
    with the byte. */
module Timers {
  datatype Phase = Stopped | Started | Closed

  /** armed: the runtime timer is set. fired: callbacks that have not taken the mutex.
      expired: the latest arming has run out. notified: timeouts reported since start. */
  datatype Timer = Timer(phase: Phase, armed: bool, fired: nat, expired: bool,
                         nRtos: nat, notified: nat, failed: bool)

  datatype Kind = Rtx(maxRetrans: nat) | Ack

  function Pending(t: Timer): nat { t.fired + if t.armed then 1 else 0 }

  datatype Op = Start | Stop | Close | Expire | Timeout

  predicate Enabled(t: Timer, op: Op) {
    match op
    case Expire => t.armed
    case Timeout => t.fired > 0
    case _ => true
  }

  /** Is the next callback let through? */
  predicate Accepts(t: Timer) { t.fired > 0 && Pending(t) == 1 && t.phase.Started? }

  function Step(k: Kind, t: Timer, op: Op): Timer
    requires Enabled(t, op)
  {
    match op
    case Start =>
      if t.phase.Stopped?
      then Timer(Started, true, t.fired, false, 0, 0, false) else t
    case Stop => if t.phase.Started? then t.(phase := Stopped, armed := false) else t
    case Close => t.(phase := Closed, armed := t.armed && !t.phase.Started?)
    case Expire => t.(armed := false, fired := t.fired + 1, expired := true)
    case Timeout =>
      var u := t.(fired := t.fired - 1);
      if !Accepts(t) then u
      else if k.Ack? then u.(phase := Stopped, notified := t.notified + 1)
      else if k.maxRetrans == 0 || t.nRtos + 1 <= k.maxRetrans
      then u.(armed := true, expired := false, nRtos := t.nRtos + 1, notified := t.notified + 1)
      else u.(phase := Stopped, nRtos := t.nRtos + 1, failed := true)
  }

  const FRESH := Timer(Stopped, false, 0, false, 0, 0, false)

  /** These operations, in this order, take u to t. */
  ghost predicate Reaches(k: Kind, u: Timer, ops: seq<Op>, t: Timer)
    decreases |ops|
  {
    if ops == [] then u == t
    else Enabled(u, ops[0]) && Reaches(k, Step(k, u, ops[0]), ops[1..], t)
  }

  /** A started timer is armed, or its arming has run out and a callback is still to
      come; a timer that is not started is not armed. */
  ghost predicate Inv(k: Kind, t: Timer) {
    && (t.armed ==> t.phase.Started? && !t.expired)
    && (t.phase.Started? && !t.armed ==> t.expired && t.fired > 0)
    && (k.Rtx? && k.maxRetrans > 0 ==> t.notified <= k.maxRetrans)
    && (k.Rtx? && !t.failed ==> t.notified == t.nRtos)
    && (k.Ack? ==> t.notified <= if t.phase.Started? then 0 else 1)
    && (t.failed ==> !t.phase.Started? && k.Rtx? && k.maxRetrans > 0 && t.notified == k.maxRetrans && t.nRtos == k.maxRetrans + 1)
  }

  lemma {:induction false} InvStep(k: Kind, t: Timer, op: Op)
    requires Inv(k, t) && Enabled(t, op)
    ensures Inv(k, Step(k, t, op))
  {
  }

  lemma {:induction false} RunInv(k: Kind, u: Timer, ops: seq<Op>, t: Timer)
    requires Inv(k, u) && Reaches(k, u, ops, t)
    ensures Inv(k, t)
    decreases |ops|
  {
    if ops != [] {
      InvStep(k, u, ops[0]);
      RunInv(k, Step(k, u, ops[0]), ops[1..], t);
    }
  }

  /** In every reachable state: a callback is let through only after the current arming
      has run out, however many stale ones race it, and never after a close. */
  lemma {:induction false} NeverEarly(k: Kind, ops: seq<Op>, t: Timer)
    requires Reaches(k, FRESH, ops, t) && Accepts(t)
    ensures t.expired && !t.armed && t.phase.Started?
  {
    RunInv(k, FRESH, ops, t);
  }

  /** Callbacks running one after another with nothing in between. */
  function Deliver(k: Kind, t: Timer, n: nat): Timer
    requires n <= t.fired
    ensures Deliver(k, t, n).fired == t.fired - n
  {
    if n == 0 then t else Step(k, Deliver(k, t, n - 1), Timeout)
  }

  /** And an expiry is never lost: once the current arming has run out, of the n
      callbacks outstanding exactly the last one to run is let through. */
  lemma {:induction false} LastOneCounts(k: Kind, t: Timer, n: nat)
    requires t.phase.Started? && !t.armed && n < t.fired
    ensures Deliver(k, t, n) == t.(fired := t.fired - n)
    ensures Accepts(Deliver(k, t, n)) <==> n == t.fired - 1
  {
    if n > 0 { LastOneCounts(k, t, n - 1); }
  }

  /** A failure is reported after exactly maxRetrans timeouts; a limit of 0 never fails. */
  lemma {:induction false} FailsExactly(k: Kind, ops: seq<Op>, t: Timer)
    requires k.Rtx? && Reaches(k, FRESH, ops, t)
    ensures t.failed ==> k.maxRetrans > 0 && t.notified == k.maxRetrans
    ensures k.maxRetrans > 0 ==> t.notified <= k.maxRetrans
    ensures Accepts(t) ==> (Step(k, t, Timeout).failed <==> k.maxRetrans > 0 && t.notified == k.maxRetrans)
  {
    RunInv(k, FRESH, ops, t);
  }

  /** A delayed-ack timer reports one timeout for each start, and then is stopped. */
  lemma {:induction false} AckOnce(ops: seq<Op>, t: Timer)
    requires Reaches(Ack, FRESH, ops, t)
    ensures t.notified <= 1
    ensures Accepts(t) ==> t.notified == 0 && Step(Ack, t, Timeout).notified == 1 && Step(Ack, t, Timeout).phase.Stopped?
    ensures t.fired > 0 && !Accepts(t) ==> Step(Ack, t, Timeout) == t.(fired := t.fired - 1)
  {
    RunInv(Ack, FRESH, ops, t);
  }

  // ------------------------------------------------------------- the byte

  type uint8 = x: int | 0 <= x < 256

  function Inc(x: uint8): uint8 { (x + 1) % 256 }

  function Dec(x: uint8): uint8 { (x + 255) % 256 }

  /** What is outstanding is not one more than a positive multiple of 256. */
  predicate CountsRight(t: Timer) { Pending(t) % 256 == 1 ==> Pending(t) == 1 }

  /** The byte lets a callback through exactly when the true count would, if and only if
      the byte counts right: up to 256 outstanding it does, and with 257 it has come round. */
  lemma {:induction false} ByteCounts(t: Timer)
    requires t.fired > 0
    ensures Pending(t) <= 256 ==> (Dec(Pending(t) % 256) == 0 <==> Pending(t) == 1)
    ensures (Dec(Pending(t) % 256) == 0 <==> Pending(t) == 1) <==> CountsRight(t)
  {
  }

  /** n times started, run out and stopped before the callback could take the mutex. */
  function Strays(n: nat): seq<Op> {
    if n == 0 then [] else [Start, Expire, Stop] + Strays(n - 1)
  }

  lemma {:induction false} StraysPile(k: Kind, u: Timer, n: nat, t: Timer)
    requires u.phase.Stopped? && !u.armed
    requires Reaches(k, Timer(Stopped, false, u.fired + n, n > 0 || u.expired,
                              if n > 0 then 0 else u.nRtos, if n > 0 then 0 else u.notified, n == 0 && u.failed), [Start], t)
    ensures Reaches(k, u, Strays(n) + [Start], t)
    decreases n
  {
    if n == 0 {
      assert Strays(0) + [Start] == [Start];
    } else {
      var a := Step(k, u, Start);
      var b := Step(k, a, Expire);
      var c := Step(k, b, Stop);
      StraysPile(k, c, n - 1, t);
      var ops := Strays(n) + [Start];
      assert ops[1..][1..][1..] == Strays(n - 1) + [Start];
    }
  }

  /** And it does come round: after 256 stray expiries a freshly armed timer, which has
      not run out, lets the next stray callback through. */
  lemma {:induction false} CountComesRound(k: Kind) returns (ops: seq<Op>, t: Timer)
    ensures Reaches(k, FRESH, ops, t) && t.armed && !t.expired && t.fired == 256
    ensures !CountsRight(t) && !Accepts(t) && Dec(Pending(t) % 256) == 0
  {
    ops, t := Strays(256) + [Start], Timer(Started, true, 256, false, 0, 0, false);
    var u := Timer(Stopped, false, 256, true, 0, 0, false);
    assert Step(k, u, Start) == t;
    assert Reaches(k, t, [], t);
    assert [Start][1..] == [];
    StraysPile(k, FRESH, 256, t);
  }

  class RtxTimer {
    const kind: Kind
    var phase: Phase
    var pending: uint8
    var nRtos: nat
    var armed: bool   // the runtime timer's own state: Stop reports whether it was set
    /** The same timer with its callbacks counted exactly. */
    ghost var model: Timer

    ghost predicate Valid()
      reads this
    {
      && Inv(kind, model)
      && model.phase == phase && model.armed == armed && model.nRtos == nRtos
      && pending == Pending(model) % 256
    }

    constructor (k: Kind)
      ensures Valid() && model == FRESH && kind == k
    {
      kind, phase, pending, nRtos, armed, model := k, Stopped, 0, 0, false, FRESH;
    }

    method StartTimer() returns (ok: bool)
      requires Valid()
      modifies this
      ensures Valid() && model == Step(kind, old(model), Start)
      ensures ok <==> old(phase).Stopped?
    {
      InvStep(kind, model, Start);
      model := Step(kind, model, Start);
      if phase != Stopped {
        return false;
      }
      nRtos := 0;
      phase := Started;
      pending := Inc(pending);
      armed := true;
      return true;
    }

    method StopTimer()
      requires Valid()
      modifies this
      ensures Valid() && model == Step(kind, old(model), Stop)
    {
      InvStep(kind, model, Stop);
      model := Step(kind, model, Stop);
      if phase == Started {
        if armed {
          armed := false;
          pending := Dec(pending);
        }
        phase := Stopped;
      }
    }

    method CloseTimer()
      requires Valid()
      modifies this
      ensures Valid() && model == Step(kind, old(model), Close)
    {
      InvStep(kind, model, Close);
      model := Step(kind, model, Close);
      if phase == Started && armed {
        armed := false;
        pending := Dec(pending);
      }
      phase := Closed;
    }

    /** The runtime fires: the callback is now on its way. */
    method Fire()
      requires Valid() && armed
      modifies this
      ensures Valid() && model == Step(kind, old(model), Expire)
    {
      InvStep(kind, model, Expire);
      armed := false;
      model := Step(kind, model, Expire);
    }

    /** A callback takes the mutex. While the byte counts right this is the protocol's step;
        once it has come round, any callback of a started timer is let through. */
    method OnTimeout() returns (timeout: bool, failure: bool)
      requires Valid() && model.fired > 0
      modifies this
      ensures CountsRight(old(model)) ==> Valid() && model == Step(kind, old(model), Timeout)
      ensures CountsRight(old(model)) ==> (timeout || failure <==> Accepts(old(model)))
      ensures CountsRight(old(model)) ==> (failure <==> Accepts(old(model)) && model.failed)
      ensures !CountsRight(old(model)) ==> !Accepts(old(model)) && (timeout || failure <==> old(phase).Started?)
      ensures !(timeout && failure)
    {
      InvStep(kind, model, Timeout);
      ByteCounts(model);
      model := Step(kind, model, Timeout);
      timeout, failure := false, false;
      pending := Dec(pending);
      if pending == 0 && phase == Started {
        if kind.Ack? {
          phase := Stopped;
          timeout := true;
        } else {
          nRtos := nRtos + 1;
          if kind.maxRetrans == 0 || nRtos <= kind.maxRetrans {
            armed := true;
            pending := Inc(pending);
            timeout := true;
          } else {
            phase := Stopped;
            failure := true;
          }
        }
      }
    }
  }

  // ------------------------------------------------------------- backing off

  /** rto * 2^n */
  function Doubled(rto: real, n: nat): real {
    if n == 0 then rto else 2.0 * Doubled(rto, n - 1)
  }

  function Min(a: real, b: real): real { if a <= b then a else b }

  function CalculateNextTimeout(rto: real, nRtos: nat, rtoMax: real): real {
    if nRtos < 31 then Min(Doubled(rto, nRtos), rtoMax) else rtoMax
  }

  lemma {:induction false} DoubledPositive(rto: real, n: nat)
    requires rto >= 0.0
    ensures Doubled(rto, n) >= 0.0
  {
    if n > 0 { DoubledPositive(rto, n - 1); }
  }

  /** Rule E2 of section 6.3.3 of RFC 4960 applied at each of n expiries: double, up to
      the ceiling. */
  function BackedOff(rto: real, n: nat, rtoMax: real): real {
    if n == 0 then Min(rto, rtoMax) else Min(2.0 * BackedOff(rto, n - 1, rtoMax), rtoMax)
  }

  lemma {:induction false} BackedOffCloses(rto: real, n: nat, rtoMax: real)
    requires rto >= 0.0 && rtoMax >= 0.0
    ensures BackedOff(rto, n, rtoMax) == Min(Doubled(rto, n), rtoMax)
  {
    if n > 0 {
      BackedOffCloses(rto, n - 1, rtoMax);
      DoubledPositive(rto, n - 1);
    }
  }

  lemma {:induction false} DoubledGrows(rto: real, m: nat, n: nat)
    requires rto >= 0.0 && m <= n
    ensures Doubled(rto, m) <= Doubled(rto, n)
    decreases n - m
  {
    if m < n {
      DoubledGrows(rto, m, n - 1);
      DoubledPositive(rto, n - 1);
    }
  }

  /** The closed form with its switch at 31 is that rule at every expiry, if and only if
      31 doublings reach the ceiling. */
  lemma {:induction false} BackoffIsRule(rto: real, rtoMax: real)
    requires rto >= 0.0 && rtoMax >= 0.0
    ensures (forall n: nat :: CalculateNextTimeout(rto, n, rtoMax) == BackedOff(rto, n, rtoMax)) <==>
            Doubled(rto, 31) >= rtoMax
  {
    BackedOffCloses(rto, 31, rtoMax);
    assert CalculateNextTimeout(rto, 31, rtoMax) == BackedOff(rto, 31, rtoMax) <==> Doubled(rto, 31) >= rtoMax;
    if Doubled(rto, 31) >= rtoMax {
      forall n: nat ensures CalculateNextTimeout(rto, n, rtoMax) == BackedOff(rto, n, rtoMax) {
        BackedOffCloses(rto, n, rtoMax);
        if n >= 31 { DoubledGrows(rto, 31, n); }
      }
    }
  }

  /** Timeouts never shrink while a timer runs. */
  lemma {:induction false} BackoffGrows(rto: real, m: nat, n: nat, rtoMax: real)
    requires rto >= 0.0 && m <= n
    ensures CalculateNextTimeout(rto, m, rtoMax) <= CalculateNextTimeout(rto, n, rtoMax) <= rtoMax
    decreases n - m
  {
    if m < n {
      BackoffGrows(rto, m, n - 1, rtoMax);
      DoubledPositive(rto, n - 1);
    }
  }
}
