/** The API's fixed-window limiter: one counter per bucket and minute. */
module RateLimiter {

  const WINDOW_SEC: nat := 60

  type Counters = map<(string, nat), nat>

  datatype Decision = Decision(allowed: bool, remaining: int, retryAfterSec: int, windowStart: nat)

  function WindowStart(now: nat): (w: nat)
    ensures w <= now < w + WINDOW_SEC && w % WINDOW_SEC == 0
  {
    now - now % WINDOW_SEC
  }

  function CountAt(c: Counters, bucket: string, window: nat): nat {
    if (bucket, window) in c then c[(bucket, window)] else 0
  }

  /** The upsert: insert 1, or add 1 to the stored count. */
  function Consumed(c: Counters, bucket: string, now: nat): Counters {
    c[(bucket, WindowStart(now)) := CountAt(c, bucket, WindowStart(now)) + 1]
  }

  predicate Admits(c: Counters, bucket: string, limit: int, now: nat) {
    CountAt(c, bucket, WindowStart(now)) + 1 <= limit
  }

  function Swept(c: Counters, now: nat): Counters {
    map k | k in c && k.1 >= WindowStart(now) :: c[k]
  }

  class Limiter {
    var counters: Counters

    constructor ()
      ensures counters == map[]
    {
      counters := map[];
    }

    /** A rejected caller is told to come back exactly when the next window opens. */
    method CheckAndConsume(bucket: string, limit: int, now: nat) returns (d: Decision)
      modifies this
      ensures counters == Consumed(old(counters), bucket, now)
      ensures d.allowed == Admits(old(counters), bucket, limit, now)
      ensures d.windowStart == WindowStart(now)
      ensures d.remaining == if d.allowed then limit - CountAt(counters, bucket, WindowStart(now)) else 0
      ensures d.allowed ==> d.retryAfterSec == 0 && d.remaining >= 0
      ensures !d.allowed ==>
                && 1 <= d.retryAfterSec <= WINDOW_SEC
                && WindowStart(now + d.retryAfterSec) == WindowStart(now) + WINDOW_SEC
    {
      var windowStart := WindowStart(now);
      var count := (if (bucket, windowStart) in counters then counters[(bucket, windowStart)] else 0) + 1;
      counters := counters[(bucket, windowStart) := count];
      if count > limit {
        var wait := windowStart + WINDOW_SEC - now;
        NextWindow(now);
        return Decision(false, 0, if wait < 1 then 1 else wait, windowStart);
      }
      return Decision(true, if limit - count < 0 then 0 else limit - count, 0, windowStart);
    }

    method SweepExpired(now: nat)
      modifies this
      ensures counters == Swept(old(counters), now)
    {
      var windowStart := WindowStart(now);
      counters := map k | k in counters && !(k.1 < windowStart) :: counters[k];
    }
  }

  lemma NextWindow(now: nat)
    ensures WindowStart(WindowStart(now) + WINDOW_SEC) == WindowStart(now) + WINDOW_SEC
  {
  }

  // ------------------------------------------------------------------------ runs

  datatype Op = Check(bucket: string, now: nat) | Sweep(now: nat)

  function Run(ops: seq<Op>): Counters {
    if ops == [] then map[]
    else
      var c := Run(ops[..|ops| - 1]);
      match ops[|ops| - 1]
      case Check(bucket, now) => Consumed(c, bucket, now)
      case Sweep(now) => Swept(c, now)
  }

  /** The clock does not go back. */
  predicate Monotone(ops: seq<Op>) {
    forall i, j :: 0 <= i < j < |ops| ==> ops[i].now <= ops[j].now
  }

  predicate Asks(op: Op, bucket: string, from: nat, to: nat) {
    op.Check? && op.bucket == bucket && from <= op.now < to
  }

  /** Requests of a bucket at times `from <= now < to`. */
  function Requests(ops: seq<Op>, bucket: string, from: nat, to: nat): nat {
    if ops == [] then 0
    else Requests(ops[..|ops| - 1], bucket, from, to) + if Asks(ops[|ops| - 1], bucket, from, to) then 1 else 0
  }

  /** Those of them that were admitted under the bucket's limit. */
  function Admitted(ops: seq<Op>, bucket: string, limit: int, from: nat, to: nat): nat {
    if ops == [] then 0
    else
      var init, last := ops[..|ops| - 1], ops[|ops| - 1];
      Admitted(init, bucket, limit, from, to)
      + if Asks(last, bucket, from, to) && Admits(Run(init), bucket, limit, last.now) then 1 else 0
  }

  /** In the current window and any later one, the counter counts the requests,
      however often expired rows were swept. */
  lemma {:induction false} CounterCountsRequests(ops: seq<Op>, bucket: string, window: nat)
    requires Monotone(ops) && window % WINDOW_SEC == 0
    requires ops != [] ==> window >= WindowStart(ops[|ops| - 1].now)
    ensures CountAt(Run(ops), bucket, window) == Requests(ops, bucket, window, window + WINDOW_SEC)
  {
    if ops != [] {
      var init, last := ops[..|ops| - 1], ops[|ops| - 1];
      if init != [] {
        assert init[|init| - 1].now <= last.now;
        WindowsInOrder(init[|init| - 1].now, last.now);
      }
      CounterCountsRequests(init, bucket, window);
      if last.Check? {
        InWindow(last.now, window);
      }
    }
  }

  lemma {:induction false} CountersAreOfWindows(ops: seq<Op>, bucket: string, window: nat)
    requires (bucket, window) in Run(ops)
    ensures window % WINDOW_SEC == 0 && Run(ops)[(bucket, window)] >= 1
  {
    if (bucket, window) in Run(ops[..|ops| - 1]) {
      CountersAreOfWindows(ops[..|ops| - 1], bucket, window);
    }
  }

  /** A sweep leaves exactly the counters of the windows that are still running or yet
      to come and have been asked for. */
  lemma SweepLeavesExactly(ops: seq<Op>, bucket: string, window: nat)
    requires Monotone(ops) && ops != [] && ops[|ops| - 1].Sweep?
    ensures (bucket, window) in Run(ops) <==>
            && window % 60 == 0 && window + 60 > ops[|ops| - 1].now
            && Requests(ops, bucket, window, window + 60) > 0
  {
    var now := ops[|ops| - 1].now;
    if (bucket, window) in Run(ops) {
      CountersAreOfWindows(ops, bucket, window);
      assert window >= WindowStart(now);
    }
    if window % 60 == 0 {
      RunningWindow(now, window);
      if window >= WindowStart(now) {
        CounterCountsRequests(ops, bucket, window);
      }
    }
  }

  lemma WindowsInOrder(a: nat, b: nat)
    requires a <= b
    ensures WindowStart(a) <= WindowStart(b)
  {
  }

  lemma RunningWindow(now: nat, window: nat)
    requires window % WINDOW_SEC == 0
    ensures window >= WindowStart(now) <==> window + WINDOW_SEC > now
  {
  }

  lemma InWindow(now: nat, window: nat)
    requires window % WINDOW_SEC == 0
    ensures window <= now < window + WINDOW_SEC <==> WindowStart(now) == window
  {
  }

  function AtMost(requests: nat, limit: int): nat {
    if limit <= 0 then 0 else if requests < limit then requests else limit
  }

  /** Each window admits exactly the smaller of its requests and the limit. */
  lemma {:induction false} WindowAdmitsMinimum(ops: seq<Op>, bucket: string, limit: int, window: nat)
    requires Monotone(ops) && window % WINDOW_SEC == 0
    ensures Admitted(ops, bucket, limit, window, window + WINDOW_SEC)
         == AtMost(Requests(ops, bucket, window, window + WINDOW_SEC), limit)
  {
    if ops != [] {
      var init, last := ops[..|ops| - 1], ops[|ops| - 1];
      WindowAdmitsMinimum(init, bucket, limit, window);
      if Asks(last, bucket, window, window + WINDOW_SEC) {
        InWindow(last.now, window);
        if init != [] {
          assert init[|init| - 1].now <= last.now;
          WindowsInOrder(init[|init| - 1].now, last.now);
        }
        CounterCountsRequests(init, bucket, window);
      }
    }
  }

  lemma {:induction false} AdmittedSplits(ops: seq<Op>, bucket: string, limit: int, from: nat, to: nat, from': nat, mid: nat, to': nat)
    requires from' <= from && from' <= mid <= to' && to <= to'
    ensures Admitted(ops, bucket, limit, from, to)
         <= Admitted(ops, bucket, limit, from', mid) + Admitted(ops, bucket, limit, mid, to')
  {
    if ops != [] {
      AdmittedSplits(ops[..|ops| - 1], bucket, limit, from, to, from', mid, to');
    }
  }

  /** Any 60 seconds, both ends included, admit at most twice the limit. */
  lemma AnyMinuteAdmitsAtMostTwice(ops: seq<Op>, bucket: string, limit: nat, from: nat)
    requires Monotone(ops)
    ensures Admitted(ops, bucket, limit, from, from + WINDOW_SEC + 1) <= 2 * limit
  {
    var w := WindowStart(from);
    AdmittedSplits(ops, bucket, limit, from, from + WINDOW_SEC + 1, w, w + WINDOW_SEC, w + 2 * WINDOW_SEC);
    WindowAdmitsMinimum(ops, bucket, limit, w);
    WindowAdmitsMinimum(ops, bucket, limit, w + WINDOW_SEC);
  }

  /** The bound is met: a full window's worth at each side of the boundary. */
  lemma TwiceIsReached()
    ensures var ops := [Check("b", 59), Check("b", 60)];
            Monotone(ops) && Admitted(ops, "b", 1, 59, 59 + WINDOW_SEC + 1) == 2
  {
    var ops := [Check("b", 59), Check("b", 60)];
    assert ops[..1] == [Check("b", 59)] && ops[..1][..0] == [];
    assert WindowStart(59) == 0 && WindowStart(60) == 60;
    assert Run(ops[..1][..0]) == map[];
    assert Run(ops[..1]) == map[("b", 0) := 1];
    assert Admitted(ops[..1], "b", 1, 59, 120) == 1;
    assert CountAt(Run(ops[..1]), "b", 60) == 0;
  }
}
