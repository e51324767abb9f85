/** The token-bucket pacer: one closed form for a whole wait, and rate conformance over all calls. */
module Pacing {
  import opened Types

  const BURST_CAPACITY: real := 9015.0
  const NS_PER_SECOND: real := 1_000_000_000.0

  /** Tokens in bytes at the time of the last refill, in nanoseconds. */
  datatype Bucket = Bucket(tokens: real, last: int)

  function MinR(a: real, b: real): real { if a <= b then a else b }
  function MaxR(a: real, b: real): real { if a <= b then b else a }

  /** The smallest integer at or above `x`. */
  function Ceil(x: real): (r: int)
    ensures r as real >= x && (r - 1) as real < x
  {
    -((-x).Floor)
  }

  /** Bytes earned per nanosecond. */
  function Rate(bitsPerSecond: nat): real {
    bitsPerSecond as real / (8.0 * NS_PER_SECOND)
  }

  /** Eight billion nanoseconds earn one byte per bit per second. */
  lemma RateIsExact(bitsPerSecond: nat)
    ensures 8_000_000_000.0 * Rate(bitsPerSecond) == bitsPerSecond as real
  {
    DivCancels(bitsPerSecond as real, 8_000_000_000.0);
  }

  /** A packet larger than the burst gets a bucket of its own size. */
  function Capacity(packet: nat): real {
    MaxR(BURST_CAPACITY, packet as real)
  }

  function Earned(rate: real, from: int, to: int): real {
    rate * (to - from) as real
  }

  function Refill(b: Bucket, rate: real, now: int, capacity: real): Bucket {
    if now <= b.last then b
    else Bucket(MinR(capacity, b.tokens + Earned(rate, b.last, now)), now)
  }

  /** A whole call seen from outside: one refill at the grant time, then the packet is paid for. */
  function Grant(b: Bucket, rate: real, packet: nat, granted: int): Bucket {
    Bucket(MinR(Capacity(packet), b.tokens + Earned(rate, b.last, granted)) - packet as real, granted)
  }

  /** Between calls the bucket never holds more than a burst, whatever sizes came before. */
  predicate Level(b: Bucket) {
    0.0 <= b.tokens <= BURST_CAPACITY
  }

  /** Two refills against the same capacity are one. */
  lemma RefillsJoin(b: Bucket, rate: real, mid: int, now: int, capacity: real)
    requires rate > 0.0 && b.tokens <= capacity && b.last <= mid <= now
    ensures Refill(Refill(b, rate, mid, capacity), rate, now, capacity) ==
            Refill(b, rate, now, capacity)
    ensures Refill(b, rate, now, capacity) ==
            Bucket(MinR(capacity, b.tokens + Earned(rate, b.last, now)), now)
  {
    EarnedAdds(rate, b.last, mid, now);
    EarnedGrows(rate, b.last, mid);
    EarnedGrows(rate, mid, now);
  }

  lemma EarnedAdds(rate: real, a: int, b: int, c: int)
    ensures Earned(rate, a, c) == Earned(rate, a, b) + Earned(rate, b, c)
  {
    assert (c - a) as real == (b - a) as real + (c - b) as real;
  }

  lemma EarnedGrows(rate: real, a: int, b: int)
    requires rate > 0.0 && a <= b
    ensures Earned(rate, a, b) >= 0.0
  {
  }

  // ---------------------------------------------------------------- the waiting loop

  /** How long one turn of the loop sleeps: until the target is earned, at most a second. */
  function WaitTime(rate: real, missing: real): int
    requires rate > 0.0
  {
    Max(1, Ceil(MinR(missing / rate, NS_PER_SECOND)))
  }

  /** The packet itself, or two thirds of a bucket of 9015 bytes, or of the packet's own size. */
  function GoalOf(packet: nat): real {
    if packet as real >= 6010.0 then packet as real else 6010.0
  }

  lemma TargetIsGoal(packet: nat)
    ensures Target(packet) == GoalOf(packet)
    ensures packet as real <= GoalOf(packet) <= Capacity(packet)
  {
  }

  function Target(packet: nat): real {
    MaxR(packet as real, Capacity(packet) * (2.0 / 3.0))
  }

  /** The shortest whole number of nanoseconds that earns what is missing, at most a second. */
  predicate Shortest(rate: real, missing: real, n: int) {
    && 1 <= n <= 1_000_000_000
    && (rate * n as real >= missing || n == 1_000_000_000)
    && rate * (n - 1) as real < missing
  }

  lemma ShortestFrom(rate: real, missing: real, exact: real, n: int)
    requires rate > 0.0 && rate * exact == missing && 1 <= n <= 1_000_000_000
    requires (n - 1) as real < exact && (n as real >= exact || n == 1_000_000_000)
    ensures Shortest(rate, missing, n)
  {
    MulStrict(rate, (n - 1) as real, exact);
    if n as real >= exact {
      MulMonotone(rate, exact, n as real);
    }
  }

  lemma WaitIsShortest(rate: real, missing: real)
    requires rate > 0.0 && missing > 0.0
    ensures Shortest(rate, missing, WaitTime(rate, missing))
  {
    var n := WaitTime(rate, missing);
    DivPositive(missing, rate);
    DivCancels(missing, rate);
    assert (n - 1) as real < missing / rate && (n - 1) as real < 1_000_000_000.0;
    ShortestFrom(rate, missing, missing / rate, n);
  }

  lemma DivPositive(x: real, y: real)
    requires x > 0.0 && y > 0.0
    ensures x / y > 0.0
  {
  }

  lemma MulStrict(a: real, x: real, y: real)
    requires a > 0.0 && x < y
    ensures a * x < a * y
  {
    assert a * (y - x) > 0.0;
    assert a * (y - x) == a * y - a * x;
  }

  /** Sleeping that long earns what was missing, or a full second's worth. */
  lemma WaitEarns(rate: real, missing: real, from: int, to: int)
    requires rate > 0.0 && missing > 0.0 && to - from >= WaitTime(rate, missing)
    ensures Earned(rate, from, to) >= MinR(missing, rate * NS_PER_SECOND)
  {
    var wait := MinR(missing / rate, NS_PER_SECOND);
    assert (to - from) as real >= wait;
    MulMonotone(rate, wait, (to - from) as real);
    DivCancels(missing, rate);
  }

  lemma DivCancels(x: real, y: real)
    requires y > 0.0
    ensures y * (x / y) == x
  {
  }

  lemma MulMonotone(a: real, x: real, y: real)
    requires a > 0.0 && x <= y
    ensures a * x <= a * y
  {
    assert a * (y - x) >= 0.0;
    assert a * (y - x) == a * y - a * x;
  }

  lemma CountBelowCeil(n: nat, step: real, goal: real)
    requires step > 0.0 && n as real * step < goal
    ensures n < Ceil(goal / step)
  {
    if n as real >= goal / step {
      MulMonotone(step, goal / step, n as real);
      DivCancels(goal, step);
    }
  }

  /** The packet is paid for, or every wait so far has earned a full second's worth. */
  predicate Earning(packet: nat, tokens: real, perSecond: real, waits: nat) {
    tokens >= packet as real || waits as real * perSecond <= tokens
  }

  lemma NotYetPaid(packet: nat, tokens: real, perSecond: real, waits: nat)
    requires perSecond > 0.0 && Earning(packet, tokens, perSecond, waits) && tokens < packet as real
    ensures waits < Ceil(packet as real / perSecond)
  {
    CountBelowCeil(waits, perSecond, packet as real);
  }

  /** One turn either pays for the packet or earns a full second's worth. */
  lemma TurnEarns(packet: nat, before: real, after: real, perSecond: real, waits: nat)
    requires Earning(packet, before, perSecond, waits) && before < packet as real
    requires after >= MinR(Capacity(packet), before + MinR(Target(packet) - before, perSecond))
    ensures Earning(packet, after, perSecond, waits + 1)
  {
    assert (waits + 1) as real * perSecond == waits as real * perSecond + perSecond;
  }

  ghost predicate NeverLate(late: nat -> nat) {
    forall k: nat :: late(k) == 0
  }

  /** Granted less than one nanosecond after the goal was earned. */
  predicate Timely(b: Bucket, rate: real, packet: nat, granted: int) {
    b.tokens + Earned(rate, b.last, granted) < GoalOf(packet) + rate
  }

  /** A turn that starts before the packet is paid for and does not oversleep ends in time. */
  lemma TurnTimely(b: Bucket, rate: real, packet: nat, at: int, tokens: real, woken: int)
    requires rate > 0.0 && b.last <= at && tokens < packet as real
    requires Refill(b, rate, at, Capacity(packet)) == Bucket(tokens, at)
    requires Shortest(rate, GoalOf(packet) - tokens, woken - at)
    ensures Timely(b, rate, packet, woken)
  {
    assert tokens == b.tokens + Earned(rate, b.last, at);
    EarnedAdds(rate, b.last, at, woken);
    assert rate * (woken - at) as real == rate * (woken - at - 1) as real + rate;
  }

  class Pacer {
    const bytesPerNanosecond: real
    var tokens: real
    var lastRefill: int

    function View(): Bucket
      reads this
    {
      Bucket(tokens, lastRefill)
    }

    predicate Valid()
      reads this
    {
      bytesPerNanosecond > 0.0 && Level(View())
    }

    constructor (bitsPerSecond: nat, now: int)
      requires bitsPerSecond > 0
      ensures Valid() && bytesPerNanosecond == Rate(bitsPerSecond)
      ensures View() == Bucket(BURST_CAPACITY, now)
    {
      bytesPerNanosecond := Rate(bitsPerSecond);
      tokens, lastRefill := BURST_CAPACITY, now;
    }

    /** Construction with the program's check; nothing where it throws. */
    static method Create(bitsPerSecond: nat, now: int) returns (pacer: Pacer?)
      ensures pacer == null <==> bitsPerSecond == 0
      ensures pacer != null ==>
        && fresh(pacer) && pacer.Valid()
        && pacer.bytesPerNanosecond == Rate(bitsPerSecond)
        && pacer.View() == Bucket(BURST_CAPACITY, now)
    {
      if bitsPerSecond == 0 {
        return null;
      }
      pacer := new Pacer(bitsPerSecond, now);
    }

    method RefillTo(now: int, capacity: real)
      modifies this
      ensures View() == Refill(old(View()), bytesPerNanosecond, now, capacity)
    {
      if now <= lastRefill {
        return;
      }
      tokens := MinR(capacity, tokens + Earned(bytesPerNanosecond, lastRefill, now));
      lastRefill := now;
    }

    /**
     * Waits until the packet is paid for. `first` is the clock at entry and `late(k)` how far
     * wake-up number `k` overshoots its deadline; the clock never runs backwards.
     */
    method WaitForSlot(packet: nat, first: int, late: nat -> nat) returns (granted: int, waits: nat)
      requires Valid() && lastRefill <= first
      modifies this
      ensures Valid() && first <= granted
      ensures View() == Grant(old(View()), bytesPerNanosecond, packet, granted)
      ensures waits <= Max(0, Ceil(packet as real / (bytesPerNanosecond * NS_PER_SECOND)))
      ensures var b := Refill(old(View()), bytesPerNanosecond, first, Capacity(packet));
        && (waits == 0 <==> b.tokens >= packet as real)
        && (waits == 0 ==> granted == first)
        && (waits > 0 && NeverLate(late) ==> Timely(b, bytesPerNanosecond, packet, granted))
    {
      ghost var was := View();
      RefillTo(first, Capacity(packet));
      EarnedGrows(bytesPerNanosecond, was.last, first);
      granted, waits := WaitUntilPaid(packet, late);
      RefillsJoin(was, bytesPerNanosecond, first, granted, Capacity(packet));
      tokens := tokens - packet as real;
    }

    /** The waiting loop, entered with the bucket refilled to the present. */
    method WaitUntilPaid(packet: nat, late: nat -> nat) returns (granted: int, waits: nat)
      requires bytesPerNanosecond > 0.0 && 0.0 <= tokens <= Capacity(packet)
      modifies this
      ensures old(lastRefill) <= granted
      ensures View() == Refill(old(View()), bytesPerNanosecond, granted, Capacity(packet))
      ensures packet as real <= tokens <= Capacity(packet)
      ensures waits <= Max(0, Ceil(packet as real / (bytesPerNanosecond * NS_PER_SECOND)))
      ensures waits == 0 <==> old(tokens) >= packet as real
      ensures waits == 0 ==> granted == old(lastRefill)
      ensures waits > 0 && NeverLate(late) ==>
        Timely(old(View()), bytesPerNanosecond, packet, granted)
    {
      ghost var perSecond := bytesPerNanosecond * NS_PER_SECOND;
      ghost var limit := Ceil(packet as real / perSecond);
      granted, waits := lastRefill, 0;
      assert Earning(packet, tokens, perSecond, 0);
      hide Target, Earned, Ceil, Earning, Timely, GoalOf, Shortest;
      while tokens < packet as real
        invariant old(lastRefill) <= granted == lastRefill
        invariant View() == Refill(old(View()), bytesPerNanosecond, granted, Capacity(packet))
        invariant 0.0 <= tokens <= Capacity(packet)
        invariant Earning(packet, tokens, perSecond, waits)
        invariant waits <= Max(0, limit)
        invariant waits == 0 ==> granted == old(lastRefill) && tokens == old(tokens)
        invariant waits > 0 ==> old(tokens) < packet as real
        invariant waits > 0 && NeverLate(late) ==>
          Timely(old(View()), bytesPerNanosecond, packet, granted)
        decreases limit - waits
      {
        NotYetPaid(packet, tokens, perSecond, waits);
        ghost var before, at := tokens, granted;
        granted := SleepOnce(packet, late(waits));
        TurnEarns(packet, before, tokens, perSecond, waits);
        if NeverLate(late) {
          TurnTimely(old(View()), bytesPerNanosecond, packet, at, before, granted);
        }
        RefillsJoin(old(View()), bytesPerNanosecond, at, granted, Capacity(packet));
        waits := waits + 1;
      }
    }

    /** One turn of the waiting loop: sleep to the deadline or beyond, then refill. */
    method SleepOnce(packet: nat, overshoot: nat) returns (woken: int)
      requires bytesPerNanosecond > 0.0 && 0.0 <= tokens < packet as real
      modifies this
      ensures woken >= old(lastRefill)
      ensures View() == Refill(old(View()), bytesPerNanosecond, woken, Capacity(packet))
      ensures lastRefill == woken && old(tokens) <= tokens <= Capacity(packet)
      ensures tokens >= MinR(Capacity(packet),
        old(tokens) + MinR(Target(packet) - old(tokens), bytesPerNanosecond * NS_PER_SECOND))
      ensures Shortest(bytesPerNanosecond, GoalOf(packet) - old(tokens),
                       woken - overshoot - old(lastRefill))
    {
      TargetIsGoal(packet);
      var missing := Target(packet) - tokens;
      var deadline := lastRefill + WaitTime(bytesPerNanosecond, missing);
      woken := deadline + overshoot;
      WaitIsShortest(bytesPerNanosecond, missing);
      hide Shortest, WaitTime;
      WaitEarns(bytesPerNanosecond, missing, lastRefill, woken);
      EarnedGrows(bytesPerNanosecond, lastRefill, woken);
      RefillTo(woken, Capacity(packet));
    }
  }

  // ---------------------------------------------------------------- conformance over many calls

  datatype Call = Call(packet: nat, granted: int)

  /** Every call is granted no earlier than the one before, and pays from a non-negative bucket. */
  predicate Granted(b: Bucket, rate: real, calls: seq<Call>)
    decreases |calls|
  {
    calls == [] ||
    (&& b.last <= calls[0].granted
     && Grant(b, rate, calls[0].packet, calls[0].granted).tokens >= 0.0
     && Granted(Grant(b, rate, calls[0].packet, calls[0].granted), rate, calls[1..]))
  }

  /** The bucket after some calls. */
  function AfterCalls(b: Bucket, rate: real, calls: seq<Call>): Bucket
    decreases |calls|
  {
    if calls == [] then b
    else AfterCalls(Grant(b, rate, calls[0].packet, calls[0].granted), rate, calls[1..])
  }

  lemma {:induction false} GrantedAppend(b: Bucket, rate: real, calls: seq<Call>, call: Call)
    requires Granted(b, rate, calls)
    requires var v := AfterCalls(b, rate, calls);
      v.last <= call.granted && Grant(v, rate, call.packet, call.granted).tokens >= 0.0
    ensures Granted(b, rate, calls + [call])
    ensures AfterCalls(b, rate, calls + [call]) ==
            Grant(AfterCalls(b, rate, calls), rate, call.packet, call.granted)
    decreases |calls|
  {
    hide Grant;
    if calls == [] {
      assert [call][1..] == [];
      assert calls + [call] == [call];
    } else {
      GrantedAppend(Grant(b, rate, calls[0].packet, calls[0].granted), rate, calls[1..], call);
      assert (calls + [call])[1..] == calls[1..] + [call];
    }
  }

  /**
   * Paces a list of packets: packet `k` asks for its slot `pauses(k)` nanoseconds after the
   * previous grant, and wake-up `i` of that wait overshoots by `late(k)(i)`. Every balance is
   * non-negative, so whatever the pauses and the oversleeps the grants conform to the rate.
   */
  method PaceAll(pacer: Pacer, packets: seq<nat>, pauses: nat -> nat, late: nat -> (nat -> nat))
    returns (calls: seq<Call>)
    requires pacer.Valid()
    modifies pacer
    ensures pacer.Valid()
    ensures |calls| == |packets| && forall k: nat | k < |packets| :: calls[k].packet == packets[k]
    ensures Granted(old(pacer.View()), pacer.bytesPerNanosecond, calls)
    ensures pacer.View() == AfterCalls(old(pacer.View()), pacer.bytesPerNanosecond, calls)
    ensures forall i: nat, j: nat | i <= j < |calls| ::
      Conforms(pacer.bytesPerNanosecond, calls, i, j)
  {
    hide Grant;
    calls := [];
    for k := 0 to |packets|
      invariant pacer.Valid() && |calls| == k
      invariant forall i: nat | i < k :: calls[i].packet == packets[i]
      invariant Granted(old(pacer.View()), pacer.bytesPerNanosecond, calls)
      invariant pacer.View() == AfterCalls(old(pacer.View()), pacer.bytesPerNanosecond, calls)
    {
      var granted, _ := pacer.WaitForSlot(packets[k], pacer.lastRefill + pauses(k), late(k));
      GrantedAppend(old(pacer.View()), pacer.bytesPerNanosecond, calls, Call(packets[k], granted));
      calls := calls + [Call(packets[k], granted)];
    }
    forall i: nat, j: nat | i <= j < |calls|
      ensures Conforms(pacer.bytesPerNanosecond, calls, i, j)
    {
      RateConformance(old(pacer.View()), pacer.bytesPerNanosecond, calls, i, j);
    }
  }

  /** The bytes granted from call `i` to call `j` fit one bucket for packet `i` plus the rate. */
  predicate Conforms(rate: real, calls: seq<Call>, i: nat, j: nat)
    requires i <= j < |calls|
  {
    BytesOf(calls[i..j + 1]) <=
      Capacity(calls[i].packet) + Earned(rate, calls[i].granted, calls[j].granted)
  }

  function BytesOf(calls: seq<Call>): real {
    if calls == [] then 0.0 else calls[0].packet as real + BytesOf(calls[1..])
  }

  /** Whatever comes after a state is paid from its tokens and from time. */
  lemma {:induction false} PaidFromTokens(b: Bucket, rate: real, calls: seq<Call>)
    requires rate > 0.0 && Granted(b, rate, calls) && calls != []
    ensures b.last <= calls[|calls| - 1].granted
    ensures BytesOf(calls) <= b.tokens + Earned(rate, b.last, calls[|calls| - 1].granted)
    decreases |calls|
  {
    var first := calls[0];
    var v := Grant(b, rate, first.packet, first.granted);
    assert BytesOf([]) == 0.0;
    if |calls| > 1 {
      PaidFromTokens(v, rate, calls[1..]);
      EarnedAdds(rate, b.last, first.granted, calls[|calls| - 1].granted);
    } else {
      assert calls[1..] == [];
    }
  }

  lemma {:induction false} GrantedPrefix(b: Bucket, rate: real, calls: seq<Call>, n: nat)
    requires Granted(b, rate, calls) && n <= |calls|
    ensures Granted(b, rate, calls[..n])
    decreases |calls|
  {
    if n > 0 {
      GrantedPrefix(Grant(b, rate, calls[0].packet, calls[0].granted), rate, calls[1..], n - 1);
      assert calls[..n][1..] == calls[1..][..n - 1];
    }
  }

  /**
   * Conformance: in any sequence of calls, the bytes granted from call `i` to call `j` are at
   * most one bucket for packet `i` plus the rate times the time between the two grants; and
   * the bucket is level between calls, although its capacity depends on each packet.
   */
  lemma {:induction false} RateConformance(b: Bucket, rate: real, calls: seq<Call>, i: nat, j: nat)
    requires rate > 0.0 && Level(b) && Granted(b, rate, calls) && i <= j < |calls|
    ensures Conforms(rate, calls, i, j)
    decreases |calls|
  {
    var first := calls[0];
    var v := Grant(b, rate, first.packet, first.granted);
    if i > 0 {
      StaysLevel(b, rate, first);
      RateConformance(v, rate, calls[1..], i - 1, j - 1);
      assert calls[1..][i - 1..j] == calls[i..j + 1];
    } else {
      var rest := calls[1..][..j];
      assert calls[0..j + 1] == [first] + rest;
      GrantedPrefix(v, rate, calls[1..], j);
      assert ([first] + rest)[1..] == rest;
      if rest != [] {
        PaidFromTokens(v, rate, rest);
        assert rest[|rest| - 1] == calls[j];
      }
    }
  }

  lemma StaysLevel(b: Bucket, rate: real, call: Call)
    requires rate > 0.0 && Level(b) && b.last <= call.granted
    requires Grant(b, rate, call.packet, call.granted).tokens >= 0.0
    ensures Level(Grant(b, rate, call.packet, call.granted))
  {
  }
}
