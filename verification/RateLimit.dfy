/** The token-bucket limiter: lazy refill, a cap at the burst, a sweep of idle buckets,
    a probe that spends nothing, and the Retry-After arithmetic.

    Instants and durations are whole nanoseconds, token counts are reals, and `now` is
    the clock reading taken by the caller; calls happen in lock order with readings that
    do not decrease. A bucket and the map entry that points at it are one value. */
module RateLimit {
  const SECOND := 1_000_000_000
  const SWEEP_INTERVAL := 60 * SECOND
  const IDLE_BUCKET_TTL := 600 * SECOND

  datatype Config = Config(rate: real, burst: nat)

  datatype Bucket = Bucket(tokens: real, lastSeen: int)

  datatype Limiter = Limiter(buckets: map<string, Bucket>, lastSwept: int)

  datatype Verdict = Verdict(allowed: bool, wait: int)

  /** Limits that make sense: a positive rate and room for one request. */
  predicate Usable(c: Config) {
    c.rate > 0.0 && c.burst >= 1
  }

  function Seconds(d: int): real {
    d as real / SECOND as real
  }

  /** What flows in over a duration. */
  function Flow(c: Config, d: int): real {
    Seconds(d) * c.rate
  }

  /** What an untouched bucket holds at `now`, before the cap. */
  function Uncapped(c: Config, b: Bucket, now: int): real {
    b.tokens + Flow(c, now - b.lastSeen)
  }

  function Refilled(c: Config, b: Bucket, now: int): real {
    if Uncapped(c, b, now) > c.burst as real then c.burst as real else Uncapped(c, b, now)
  }

  /** Time until one whole token is available, truncated to nanoseconds, plus a second. */
  function WaitFor(c: Config, tokens: real): int
    requires Usable(c)
  {
    ((1.0 - tokens) / c.rate * SECOND as real).Floor + SECOND
  }

  /** The header: whole seconds, rounded down. */
  function RetryAfter(v: Verdict): int {
    v.wait / SECOND
  }

  function TokensAt(c: Config, buckets: map<string, Bucket>, key: string, now: int): real {
    if key in buckets then Refilled(c, buckets[key], now) else c.burst as real
  }

  function Swept(buckets: map<string, Bucket>, now: int): map<string, Bucket> {
    map k | k in buckets && now - buckets[k].lastSeen <= IDLE_BUCKET_TTL :: buckets[k]
  }

  function Judge(c: Config, tokens: real): Verdict
    requires Usable(c)
  {
    if tokens < 1.0 then Verdict(false, WaitFor(c, tokens)) else Verdict(true, 0)
  }

  function Left(tokens: real): real {
    if tokens < 1.0 then tokens else tokens - 1.0
  }

  /** allow: refill, sweep when due, then spend a token or refuse. */
  function AllowAt(c: Config, l: Limiter, key: string, now: int, sweeping: bool): (Limiter, Verdict)
    requires Usable(c)
  {
    var tokens := TokensAt(c, l.buckets, key, now);
    var due := sweeping && now - l.lastSwept >= SWEEP_INTERVAL;
    var kept := if due then Swept(l.buckets, now) else l.buckets;
    (Limiter(kept[key := Bucket(Left(tokens), now)], if due then now else l.lastSwept), Judge(c, tokens))
  }

  /** Blocked: would allow refuse, found out without touching anything. */
  function ProbeAt(c: Config, l: Limiter, key: string, now: int): Verdict
    requires Usable(c)
  {
    if key !in l.buckets then Verdict(true, 0)
    else Judge(c, Uncapped(c, l.buckets[key], now))
  }

  // --------------------------------------------------------------- the class

  class Limit {
    const config: Config
    var buckets: map<string, Bucket>
    var lastSwept: int

    function State(): Limiter reads this { Limiter(buckets, lastSwept) }

    constructor (rate: real, burst: nat, now: int)
      ensures config == Config(rate, burst) && State() == Limiter(map[], now)
    {
      config := Config(rate, burst);
      buckets, lastSwept := map[], now;
    }

    method Allow(key: string, now: int) returns (verdict: Verdict)
      requires Usable(config)
      modifies this
      ensures (State(), verdict) == AllowAt(config, old(State()), key, now, true)
    {
      var burst := config.burst as real;
      var tokens := burst;
      if key in buckets {
        tokens := buckets[key].tokens + Seconds(now - buckets[key].lastSeen) * config.rate;
        if tokens > burst {
          tokens := burst;
        }
      }
      buckets := buckets[key := Bucket(tokens, now)];
      Sweep(now);
      if tokens < 1.0 {
        verdict := Verdict(false, WaitFor(config, tokens));
        assert State().buckets == AllowAt(config, old(State()), key, now, true).0.buckets;
        return;
      }
      buckets := buckets[key := Bucket(tokens - 1.0, now)];
      verdict := Verdict(true, 0);
      assert State().buckets == AllowAt(config, old(State()), key, now, true).0.buckets;
    }

    method Sweep(now: int)
      modifies this
      ensures var due := now - old(lastSwept) >= SWEEP_INTERVAL;
        && buckets == (if due then Swept(old(buckets), now) else old(buckets))
        && lastSwept == (if due then now else old(lastSwept))
    {
      if now - lastSwept < SWEEP_INTERVAL {
        return;
      }
      lastSwept := now;
      var todo := buckets.Keys;
      while todo != {}
        invariant todo <= old(buckets).Keys
        invariant buckets == map k | k in old(buckets)
          && (k in todo || now - old(buckets)[k].lastSeen <= IDLE_BUCKET_TTL) :: old(buckets)[k]
        invariant lastSwept == now
        decreases todo
      {
        var k :| k in todo;
        if now - buckets[k].lastSeen > IDLE_BUCKET_TTL {
          buckets := buckets - {k};
        }
        todo := todo - {k};
      }
    }

    method Blocked(key: string, now: int) returns (blocked: bool, wait: int)
      requires Usable(config)
      ensures var v := ProbeAt(config, State(), key, now); blocked == !v.allowed && wait == v.wait
    {
      if key !in buckets {
        return false, 0;
      }
      var tokens := buckets[key].tokens + Seconds(now - buckets[key].lastSeen) * config.rate;
      if tokens >= 1.0 {
        return false, 0;
      }
      assert tokens == Uncapped(config, buckets[key], now);
      return true, WaitFor(config, tokens);
    }

    method Record(key: string, now: int)
      requires Usable(config)
      modifies this
      ensures State() == AllowAt(config, old(State()), key, now, true).0
    {
      var _ := Allow(key, now);
    }
  }

  // --------------------------------------------------------------------- runs

  datatype Op = Call(key: string, now: int) | Ask(key: string, now: int)

  function Serve(c: Config, l: Limiter, op: Op, sweeping: bool): (Limiter, Verdict)
    requires Usable(c)
  {
    match op
    case Call(key, now) => AllowAt(c, l, key, now, sweeping)
    case Ask(key, now) => (l, ProbeAt(c, l, key, now))
  }

  function End(c: Config, l: Limiter, ops: seq<Op>, sweeping: bool): Limiter
    requires Usable(c)
    decreases |ops|
  {
    if ops == [] then l else End(c, Serve(c, l, ops[0], sweeping).0, ops[1..], sweeping)
  }

  function Answers(c: Config, l: Limiter, ops: seq<Op>, sweeping: bool): (verdicts: seq<Verdict>)
    requires Usable(c)
    ensures |verdicts| == |ops|
    decreases |ops|
  {
    if ops == [] then []
    else var r := Serve(c, l, ops[0], sweeping); [r.1] + Answers(c, r.0, ops[1..], sweeping)
  }

  /** Calls in lock order, on a clock that does not go back. */
  ghost predicate InOrder(ops: seq<Op>, from: int)
    decreases |ops|
  {
    ops != [] ==> from <= ops[0].now && InOrder(ops[1..], ops[0].now)
  }

  ghost predicate Sane(c: Config, buckets: map<string, Bucket>, now: int) {
    forall k :: k in buckets ==> 0.0 <= buckets[k].tokens <= c.burst as real && buckets[k].lastSeen <= now
  }

  lemma Accrue(c: Config, from: int, mid: int, to: int)
    ensures Flow(c, to - from) == Flow(c, mid - from) + Flow(c, to - mid)
  {
    assert Seconds(to - from) == Seconds(mid - from) + Seconds(to - mid);
  }

  lemma AccrueMore(c: Config, shorter: int, longer: int)
    requires c.rate > 0.0 && shorter <= longer
    ensures Flow(c, shorter) <= Flow(c, longer)
  {
    assert Seconds(shorter) <= Seconds(longer);
  }

  /** The idle time after which the sweep may drop a bucket refills it completely. */
  predicate RefillsWhileIdle(c: Config) {
    c.burst as real <= Flow(c, IDLE_BUCKET_TTL + 1)
  }

  lemma ServeKeepsSane(c: Config, l: Limiter, op: Op, sweeping: bool, from: int)
    requires Usable(c) && Sane(c, l.buckets, from) && from <= op.now
    ensures Sane(c, Serve(c, l, op, sweeping).0.buckets, op.now)
  {
    if op.Call? && op.key in l.buckets {
      AccrueMore(c, 0, op.now - l.buckets[op.key].lastSeen);
    }
  }

  /** Sweeping never takes tokens away. */
  lemma SweepRaises(c: Config, buckets: map<string, Bucket>, now: int, key: string, t: int)
    requires Usable(c) && Sane(c, buckets, now)
    ensures TokensAt(c, Swept(buckets, now), key, t) >= TokensAt(c, buckets, key, t)
  {}

  /** With enough refill, a swept bucket was full anyway. */
  lemma SweepInvisible(c: Config, buckets: map<string, Bucket>, now: int, key: string, t: int)
    requires Usable(c) && RefillsWhileIdle(c) && Sane(c, buckets, now) && now <= t
    ensures TokensAt(c, Swept(buckets, now), key, t) == TokensAt(c, buckets, key, t)
  {
    if key in buckets && now - buckets[key].lastSeen > IDLE_BUCKET_TTL {
      AccrueMore(c, IDLE_BUCKET_TTL + 1, t - buckets[key].lastSeen);
    }
  }

  /** From `now` on nobody can tell the two limiters apart. */
  ghost predicate Alike(c: Config, l: Limiter, l': Limiter, now: int) {
    forall k, t {:trigger TokensAt(c, l.buckets, k, t)} ::
      now <= t ==> TokensAt(c, l.buckets, k, t) == TokensAt(c, l'.buckets, k, t)
  }

  /** A probe answers what a call at that instant would, and it changes nothing. */
  lemma ProbeAgrees(c: Config, l: Limiter, key: string, now: int, sweeping: bool)
    requires Usable(c)
    ensures ProbeAt(c, l, key, now) == AllowAt(c, l, key, now, sweeping).1
    ensures Serve(c, l, Ask(key, now), sweeping).0 == l
  {}

  lemma ServeAlike(c: Config, l: Limiter, l': Limiter, op: Op, from: int)
    requires Usable(c) && RefillsWhileIdle(c) && Sane(c, l.buckets, from) && Alike(c, l, l', from) && from <= op.now
    ensures Serve(c, l, op, true).1 == Serve(c, l', op, false).1
    ensures Alike(c, Serve(c, l, op, true).0, Serve(c, l', op, false).0, op.now)
  {
    ProbeAgrees(c, l, op.key, op.now, true);
    ProbeAgrees(c, l', op.key, op.now, false);
    assert TokensAt(c, l.buckets, op.key, op.now) == TokensAt(c, l'.buckets, op.key, op.now);
    var r, r' := Serve(c, l, op, true).0, Serve(c, l', op, false).0;
    forall k, t | op.now <= t ensures TokensAt(c, r.buckets, k, t) == TokensAt(c, r'.buckets, k, t) {
      assert TokensAt(c, l.buckets, k, t) == TokensAt(c, l'.buckets, k, t);
      SweepInvisible(c, l.buckets, op.now, k, t);
    }
  }

  lemma {:induction false} AnswersAlike(c: Config, l: Limiter, l': Limiter, ops: seq<Op>, from: int)
    requires Usable(c) && RefillsWhileIdle(c) && Sane(c, l.buckets, from) && Alike(c, l, l', from) && InOrder(ops, from)
    ensures Answers(c, l, ops, true) == Answers(c, l', ops, false)
    decreases |ops|
  {
    if ops != [] {
      ServeAlike(c, l, l', ops[0], from);
      ServeKeepsSane(c, l, ops[0], true, from);
      AnswersAlike(c, Serve(c, l, ops[0], true).0, Serve(c, l', ops[0], false).0, ops[1..], ops[0].now);
    }
  }

  // ------------------------------------------- when the sweep can be noticed

  function Burst(key: string, now: int, n: nat): seq<Op> {
    seq(n, i => Call(key, now))
  }

  lemma BurstTail(key: string, now: int, n: nat)
    requires n > 0
    ensures Burst(key, now, n)[0] == Call(key, now) && Burst(key, now, n)[1..] == Burst(key, now, n - 1)
  {}

  lemma {:induction false} AnswersConcat(c: Config, l: Limiter, ops: seq<Op>, rest: seq<Op>, sweeping: bool)
    requires Usable(c)
    ensures Answers(c, l, ops + rest, sweeping)
      == Answers(c, l, ops, sweeping) + Answers(c, End(c, l, ops, sweeping), rest, sweeping)
    ensures End(c, l, ops + rest, sweeping) == End(c, End(c, l, ops, sweeping), rest, sweeping)
    decreases |ops|
  {
    if ops == [] {
      assert ops + rest == rest;
    } else {
      assert (ops + rest)[1..] == ops[1..] + rest;
      AnswersConcat(c, Serve(c, l, ops[0], sweeping).0, ops[1..], rest, sweeping);
    }
  }

  lemma {:induction false} InOrderConcat(ops: seq<Op>, rest: seq<Op>, from: int, mid: int)
    requires InOrder(ops, from) && InOrder(rest, mid) && from <= mid
    requires forall i :: 0 <= i < |ops| ==> ops[i].now <= mid
    ensures InOrder(ops + rest, from)
    decreases |ops|
  {
    if ops == [] {
      assert ops + rest == rest;
    } else {
      assert (ops + rest)[1..] == ops[1..] + rest;
      InOrderConcat(ops[1..], rest, ops[0].now, mid);
    }
  }

  lemma {:induction false} BurstInOrder(key: string, now: int, n: nat)
    ensures InOrder(Burst(key, now, n), now)
  {
    if n > 0 {
      BurstTail(key, now, n);
      BurstInOrder(key, now, n - 1);
    }
  }

  /** One call at `now`, with no sweep due, leaves one token fewer for the next. */
  lemma OneCall(c: Config, l: Limiter, key: string, now: int, sweeping: bool)
    requires Usable(c) && (sweeping ==> now - l.lastSwept < SWEEP_INTERVAL)
    requires TokensAt(c, l.buckets, key, now) <= c.burst as real
    ensures var r := AllowAt(c, l, key, now, sweeping);
      && r.0.lastSwept == l.lastSwept
      && TokensAt(c, r.0.buckets, key, now) == Left(TokensAt(c, l.buckets, key, now))
      && r.1 == Judge(c, TokensAt(c, l.buckets, key, now))
      && r.0.buckets == l.buckets[key := Bucket(Left(TokensAt(c, l.buckets, key, now)), now)]
  {}

  lemma {:induction false} FullBurst(c: Config, l: Limiter, key: string, now: int, n: nat, sweeping: bool)
    requires Usable(c) && (sweeping ==> now - l.lastSwept < SWEEP_INTERVAL)
    requires n as real <= TokensAt(c, l.buckets, key, now) <= c.burst as real
    ensures var ops := Burst(key, now, n); var end := End(c, l, ops, sweeping);
      && end.lastSwept == l.lastSwept
      && end.buckets == (if n == 0 then l.buckets
          else l.buckets[key := Bucket(TokensAt(c, l.buckets, key, now) - n as real, now)])
      && forall i :: 0 <= i < n ==> Answers(c, l, ops, sweeping)[i].allowed
    decreases n
  {
    if n > 0 {
      BurstTail(key, now, n);
      OneCall(c, l, key, now, sweeping);
      FullBurst(c, AllowAt(c, l, key, now, sweeping).0, key, now, n - 1, sweeping);
    }
  }

  lemma {:induction false} ShortBurst(c: Config, l: Limiter, key: string, now: int, n: nat, sweeping: bool)
    requires Usable(c) && (sweeping ==> now - l.lastSwept < SWEEP_INTERVAL)
    requires TokensAt(c, l.buckets, key, now) <= c.burst as real
    requires TokensAt(c, l.buckets, key, now) < n as real && n > 0
    ensures !Answers(c, l, Burst(key, now, n), sweeping)[n - 1].allowed
    decreases n
  {
    BurstTail(key, now, n);
    OneCall(c, l, key, now, sweeping);
    var next := AllowAt(c, l, key, now, sweeping).0;
    if n > 1 {
      ShortBurst(c, next, key, now, n - 1, sweeping);
      assert Answers(c, l, Burst(key, now, n), sweeping)[n - 1]
        == Answers(c, next, Burst(key, now, n - 1), sweeping)[n - 2];
    }
  }

  /** Drain one client, let it idle until the sweep may take its bucket, wake the sweep
      with another client, and come back. */
  function Probing(c: Config, start: int): seq<Op> {
    var later := start + IDLE_BUCKET_TTL + 1;
    (Burst("a", start, c.burst) + [Call("b", later)]) + Burst("a", later, c.burst)
  }

  lemma ProbingInOrder(c: Config, start: int)
    ensures InOrder(Probing(c, start), start)
  {
    var later := start + IDLE_BUCKET_TTL + 1;
    BurstInOrder("a", start, c.burst);
    BurstInOrder("a", later, c.burst);
    InOrderConcat(Burst("a", start, c.burst), [Call("b", later)], start, later);
    InOrderConcat(Burst("a", start, c.burst) + [Call("b", later)], Burst("a", later, c.burst), start, later);
  }

  /** Where the drain and the wake-up leave the client's tokens. */
  lemma AfterWakeUp(c: Config, start: int, sweeping: bool)
    requires Usable(c)
    ensures var later := start + IDLE_BUCKET_TTL + 1;
      var l := End(c, Limiter(map[], start), Burst("a", start, c.burst) + [Call("b", later)], sweeping);
      && (sweeping ==> l.lastSwept == later && "a" !in l.buckets)
      && (!sweeping ==> l.lastSwept == start && "a" in l.buckets && l.buckets["a"] == Bucket(0.0, start))
  {
    var later := start + IDLE_BUCKET_TTL + 1;
    var l0 := Limiter(map[], start);
    FullBurst(c, l0, "a", start, c.burst, sweeping);
    var l1 := End(c, l0, Burst("a", start, c.burst), sweeping);
    AnswersConcat(c, l0, Burst("a", start, c.burst), [Call("b", later)], sweeping);
    assert [Call("b", later)][1..] == [];
    assert End(c, l1, [Call("b", later)], sweeping) == AllowAt(c, l1, "b", later, sweeping).0;
  }

  lemma SweepNoticed(c: Config, start: int)
    requires Usable(c) && !RefillsWhileIdle(c)
    ensures InOrder(Probing(c, start), start)
    ensures Answers(c, Limiter(map[], start), Probing(c, start), true) != Answers(c, Limiter(map[], start),
        Probing(c, start), false)
  {
    var later := start + IDLE_BUCKET_TTL + 1;
    var l0 := Limiter(map[], start);
    var first := Burst("a", start, c.burst) + [Call("b", later)];
    var again := Burst("a", later, c.burst);
    ProbingInOrder(c, start);
    AfterWakeUp(c, start, true);
    AfterWakeUp(c, start, false);
    AnswersConcat(c, l0, first, again, true);
    AnswersConcat(c, l0, first, again, false);
    var swept, kept := End(c, l0, first, true), End(c, l0, first, false);
    FullBurst(c, swept, "a", later, c.burst, true);
    assert TokensAt(c, kept.buckets, "a", later) < c.burst as real;
    ShortBurst(c, kept, "a", later, c.burst, false);
    var n := |first| + c.burst - 1;
    assert Answers(c, l0, Probing(c, start), true)[n] == Answers(c, swept, again, true)[c.burst - 1];
    assert Answers(c, l0, Probing(c, start), false)[n] == Answers(c, kept, again, false)[c.burst - 1];
  }

  /** The sweep is invisible, over every run of calls and probes, exactly when a bucket
      idle for just over ten minutes has refilled. */
  lemma SweepInvisibleIff(c: Config, start: int)
    requires Usable(c)
    ensures RefillsWhileIdle(c) <==>
      forall ops :: InOrder(ops, start) ==>
        Answers(c, Limiter(map[], start), ops, true) == Answers(c, Limiter(map[], start), ops, false)
  {
    if RefillsWhileIdle(c) {
      forall ops | InOrder(ops, start)
        ensures Answers(c, Limiter(map[], start), ops, true) == Answers(c, Limiter(map[], start), ops, false)
      {
        AnswersAlike(c, Limiter(map[], start), Limiter(map[], start), ops, start);
      }
    } else {
      SweepNoticed(c, start);
    }
  }

  /** The request limiters of the identity service refill while idle; the limiter of
      failed sign-ins, one every three minutes after ten, does not. */
  lemma ConfiguredLimits()
    ensures RefillsWhileIdle(Config(0.2, 5)) && RefillsWhileIdle(Config(1.0, 10))
    ensures !RefillsWhileIdle(Config(1.0 / 180.0, 10))
  {
    assert Seconds(IDLE_BUCKET_TTL + 1) * 0.2 >= 5.0;
  }

  // ------------------------------------------------------ how much gets through

  function Admitted(ops: seq<Op>, verdicts: seq<Verdict>, key: string): nat
    requires |ops| == |verdicts|
  {
    if ops == [] then 0
    else (if ops[0].Call? && ops[0].key == key && verdicts[0].allowed then 1
      else 0) + Admitted(ops[1..], verdicts[1..], key)
  }

  lemma Grown(c: Config, buckets: map<string, Bucket>, key: string, from: int, now: int)
    requires Usable(c) && Sane(c, buckets, from) && from <= now
    ensures TokensAt(c, buckets, key, now) <= TokensAt(c, buckets, key, from) + Flow(c, now - from)
  {
    AccrueMore(c, 0, now - from);
    if key in buckets {
      Accrue(c, buckets[key].lastSeen, from, now);
    }
  }

  function Spent(op: Op, verdict: Verdict, key: string): nat {
    if op.Call? && op.key == key && verdict.allowed then 1 else 0
  }

  lemma ServeSpends(c: Config, l: Limiter, op: Op, key: string)
    requires Usable(c) && RefillsWhileIdle(c) && Sane(c, l.buckets, op.now)
    ensures var r := Serve(c, l, op, true);
      Spent(op, r.1, key) as real + TokensAt(c, r.0.buckets, key, op.now) <= TokensAt(c, l.buckets, key, op.now)
  {
    SweepInvisible(c, l.buckets, op.now, key, op.now);
    if op.Call? && op.key == key {
      var left := Left(TokensAt(c, l.buckets, key, op.now));
      assert Uncapped(c, Bucket(left, op.now), op.now) == left + Flow(c, 0);
      assert Flow(c, 0) == 0.0;
    }
  }

  lemma NothingToSpend(c: Config, buckets: map<string, Bucket>, key: string, from: int)
    requires Usable(c) && Sane(c, buckets, from)
    ensures TokensAt(c, buckets, key, from) >= 0.0
  {
    if key in buckets { AccrueMore(c, 0, from - buckets[key].lastSeen); }
  }

  lemma OneServe(c: Config, l: Limiter, op: Op, key: string, from: int, until: int)
    requires Usable(c) && RefillsWhileIdle(c) && Sane(c, l.buckets, from) && from <= op.now <= until
    ensures var r := Serve(c, l, op, true);
      Spent(op, r.1, key) as real + (TokensAt(c, r.0.buckets, key, op.now) + Flow(c, until - op.now))
        <= TokensAt(c, l.buckets, key, from) + Flow(c, until - from)
  {
    ServeSpends(c, l, op, key);
    Grown(c, l.buckets, key, from, op.now);
    Accrue(c, from, op.now, until);
  }

  lemma {:induction false} SpendingBound(c: Config, l: Limiter, ops: seq<Op>, key: string, from: int, until: int)
    requires Usable(c) && RefillsWhileIdle(c) && Sane(c, l.buckets, from) && InOrder(ops, from) && from <= until
    requires forall i :: 0 <= i < |ops| ==> ops[i].now <= until
    ensures Admitted(ops, Answers(c, l, ops, true), key) as real
      <= TokensAt(c, l.buckets, key, from) + Flow(c, until - from)
    decreases |ops|
  {
    if ops == [] {
      AccrueMore(c, 0, until - from);
      NothingToSpend(c, l.buckets, key, from);
    } else {
      var op, next := ops[0], Serve(c, l, ops[0], true).0;
      assert op.now <= until;
      ServeKeepsSane(c, l, op, true, from);
      SpendingBound(c, next, ops[1..], key, op.now, until);
      OneServe(c, l, op, key, from, until);
      AdmittedSplits(c, l, ops, key);
    }
  }

  lemma AdmittedSplits(c: Config, l: Limiter, ops: seq<Op>, key: string)
    requires Usable(c) && ops != []
    ensures var r := Serve(c, l, ops[0], true);
      Admitted(ops, Answers(c, l, ops, true), key)
        == Spent(ops[0], r.1, key) + Admitted(ops[1..], Answers(c, r.0, ops[1..], true), key)
  {
    var r := Serve(c, l, ops[0], true);
    assert Answers(c, l, ops, true)[1..] == Answers(c, r.0, ops[1..], true);
  }

  lemma {:induction false} EndSane(c: Config, l: Limiter, ops: seq<Op>, from: int, until: int)
    requires Usable(c) && Sane(c, l.buckets, from) && InOrder(ops, from) && from <= until
    requires forall i :: 0 <= i < |ops| ==> ops[i].now <= until
    ensures Sane(c, End(c, l, ops, true).buckets, until)
    decreases |ops|
  {
    if ops != [] {
      assert ops[0].now <= until;
      ServeKeepsSane(c, l, ops[0], true, from);
      EndSane(c, Serve(c, l, ops[0], true).0, ops[1..], ops[0].now, until);
    }
  }

  /** After any history, a client gets at most the burst plus the sustained rate through
      in a window, however the calls are spread. */
  lemma AdmissionBound(c: Config, start: int, before: seq<Op>, window: seq<Op>, key: string, from: int, until: int)
    requires Usable(c) && RefillsWhileIdle(c) && start <= from <= until
    requires InOrder(before, start) && InOrder(window, from)
    requires forall i :: 0 <= i < |before| ==> before[i].now <= from
    requires forall i :: 0 <= i < |window| ==> window[i].now <= until
    ensures Admitted(window, Answers(c, End(c, Limiter(map[], start), before, true), window, true), key) as real
         <= c.burst as real + Flow(c, until - from)
  {
    EndSane(c, Limiter(map[], start), before, start, from);
    SpendingBound(c, End(c, Limiter(map[], start), before, true), window, key, from, until);
  }

  // --------------------------------------------------- a bound for every limit

  /** What sweeps can hand back over a duration: a burst for every ten idle minutes. */
  function Lapses(c: Config, d: int): real {
    c.burst as real * (d as real / IDLE_BUCKET_TTL as real)
  }

  lemma LapsesAdd(c: Config, a: int, b: int)
    ensures Lapses(c, a + b) == Lapses(c, a) + Lapses(c, b)
  {
    assert (a + b) as real / IDLE_BUCKET_TTL as real
      == a as real / IDLE_BUCKET_TTL as real + b as real / IDLE_BUCKET_TTL as real;
  }

  lemma LapsesGrow(c: Config, d: int)
    requires d >= 0
    ensures Lapses(c, d) >= 0.0 && (d >= IDLE_BUCKET_TTL ==> Lapses(c, d) >= c.burst as real)
  {
    if d >= IDLE_BUCKET_TTL {
      assert d as real / IDLE_BUCKET_TTL as real >= 1.0;
    }
  }

  /** The most a key can still spend by `until` if it starts from a full bucket now. */
  function FromFull(c: Config, now: int, until: int): real {
    c.burst as real + Flow(c, until - now) + Lapses(c, until - now)
  }

  /** And from the bucket it has, whose idle time counts towards the next sweep. */
  function FromBucket(c: Config, tokens: real, lastSeen: int, now: int, until: int): real {
    tokens + Flow(c, until - now) + Lapses(c, until - lastSeen)
  }

  function Allowance(c: Config, buckets: map<string, Bucket>, key: string, now: int, until: int): real {
    var full := FromFull(c, now, until);
    if key !in buckets then full
    else
      var held := FromBucket(c, Refilled(c, buckets[key], now), buckets[key].lastSeen, now, until);
      if held < full then held else full
  }

  lemma FromFullShrinks(c: Config, from: int, now: int, until: int)
    requires Usable(c) && from <= now <= until
    ensures FromFull(c, now, until) <= FromFull(c, from, until)
  {
    AccrueMore(c, until - now, until - from);
    LapsesAdd(c, now - from, until - now);
    LapsesGrow(c, now - from);
  }

  /** Time alone raises no allowance. */
  lemma AllowanceShrinks(c: Config, buckets: map<string, Bucket>, key: string, from: int, now: int, until: int)
    requires Usable(c) && Sane(c, buckets, from) && from <= now <= until
    ensures Allowance(c, buckets, key, now, until) <= Allowance(c, buckets, key, from, until)
  {
    FromFullShrinks(c, from, now, until);
    if key in buckets {
      Grown(c, buckets, key, from, now);
      Accrue(c, from, now, until);
    }
  }

  /** A sweep raises none: the burst it hands back has been paid for by idle time. */
  lemma SweepRaisesNoAllowance(c: Config, buckets: map<string, Bucket>, key: string, now: int, until: int)
    requires Usable(c) && Sane(c, buckets, now) && now <= until
    ensures Allowance(c, Swept(buckets, now), key, now, until) <= Allowance(c, buckets, key, now, until)
  {
    if key in buckets && key !in Swept(buckets, now) {
      var idle := now - buckets[key].lastSeen;
      NothingToSpend(c, buckets, key, now);
      LapsesAdd(c, idle, until - now);
      LapsesGrow(c, idle);
    }
  }

  /** A call spends from the allowance of its key. */
  lemma CallSpendsAllowance(c: Config, buckets: map<string, Bucket>, key: string, now: int, until: int)
    requires Usable(c) && Sane(c, buckets, now) && now <= until
    ensures var tokens := TokensAt(c, buckets, key, now);
      (if tokens < 1.0 then 0.0 else 1.0) + Allowance(c, buckets[key := Bucket(Left(tokens), now)], key, now, until)
        <= Allowance(c, buckets, key, now, until)
  {
    var tokens := TokensAt(c, buckets, key, now);
    var after := Bucket(Left(tokens), now);
    assert tokens <= c.burst as real;
    NothingToSpend(c, buckets, key, now);
    assert Flow(c, 0) == 0.0;
    assert Refilled(c, after, now) == Left(tokens);
    if key in buckets {
      LapsesAdd(c, now - buckets[key].lastSeen, until - now);
      LapsesGrow(c, now - buckets[key].lastSeen);
    }
  }

  lemma {:induction false} ServeSpendsAllowance(c: Config, l: Limiter, op: Op, key: string, from: int, until: int)
    requires Usable(c) && Sane(c, l.buckets, from) && from <= op.now <= until
    ensures var r := Serve(c, l, op, true);
      Spent(op, r.1, key) as real + Allowance(c, r.0.buckets, key, op.now, until)
        <= Allowance(c, l.buckets, key, from, until)
  {
    AllowanceShrinks(c, l.buckets, key, from, op.now, until);
    if op.Call? {
      var due := op.now - l.lastSwept >= SWEEP_INTERVAL;
      if op.key == key {
        CallSpendsAllowance(c, l.buckets, key, op.now, until);
      } else if due {
        SweepRaisesNoAllowance(c, l.buckets, key, op.now, until);
      }
    }
  }

  lemma {:induction false} AllowanceBounds(c: Config, l: Limiter, ops: seq<Op>, key: string, from: int, until: int)
    requires Usable(c) && Sane(c, l.buckets, from) && InOrder(ops, from) && from <= until
    requires forall i :: 0 <= i < |ops| ==> ops[i].now <= until
    ensures Admitted(ops, Answers(c, l, ops, true), key) as real <= Allowance(c, l.buckets, key, from, until)
    decreases |ops|
  {
    if ops == [] {
      AllowanceIsNotNegative(c, l.buckets, key, from, until);
    } else {
      var r := Serve(c, l, ops[0], true);
      ServeSpendsAllowance(c, l, ops[0], key, from, until);
      ServeKeepsSane(c, l, ops[0], true, from);
      AllowanceBounds(c, r.0, ops[1..], key, ops[0].now, until);
      AdmittedSplits(c, l, ops, key);
    }
  }

  lemma AllowanceIsNotNegative(c: Config, buckets: map<string, Bucket>, key: string, now: int, until: int)
    requires Usable(c) && Sane(c, buckets, now) && now <= until
    ensures Allowance(c, buckets, key, now, until) >= 0.0
  {
    AccrueMore(c, 0, until - now);
    LapsesGrow(c, until - now);
    if key in buckets {
      NothingToSpend(c, buckets, key, now);
      LapsesGrow(c, until - buckets[key].lastSeen);
    }
  }

  lemma {:induction false} AllowanceFromTheStart(c: Config, l: Limiter, window: seq<Op>, key: string, from: int,
        until: int)
    requires Usable(c) && Sane(c, l.buckets, from) && InOrder(window, from) && from <= until
    requires forall i :: 0 <= i < |window| ==> window[i].now <= until
    ensures Admitted(window, Answers(c, l, window, true), key) as real <= FromFull(c, from, until)
  {
    AllowanceBounds(c, l, window, key, from, until);
  }

  /** A burst, another for every ten minutes, and the sustained rate. */
  function WeakBound(c: Config, d: int): real {
    c.burst as real * (1.0 + d as real / IDLE_BUCKET_TTL as real) + Flow(c, d)
  }

  /** Whatever the limit, also one that the sweep weakens: after any history, a client gets at
      most the burst, another burst for every ten minutes of the window, and the sustained
      rate through. */
  lemma {:induction false} AdmissionBoundAnyLimit(c: Config, start: int, before: seq<Op>, window: seq<Op>, key: string,
        from: int, until: int)
    requires Usable(c) && start <= from <= until
    requires InOrder(before, start) && InOrder(window, from)
    requires forall i :: 0 <= i < |before| ==> before[i].now <= from
    requires forall i :: 0 <= i < |window| ==> window[i].now <= until
    ensures Admitted(window, Answers(c, End(c, Limiter(map[], start), before, true), window, true), key) as real
         <= WeakBound(c, until - from)
  {
    var l := End(c, Limiter(map[], start), before, true);
    assert Sane(c, l.buckets, from) by { EndSane(c, Limiter(map[], start), before, start, from); }
    AllowanceFromTheStart(c, l, window, key, from, until);
    FromFullIsWeakBound(c, from, until);
  }

  lemma FromFullIsWeakBound(c: Config, from: int, until: int)
    ensures FromFull(c, from, until) == WeakBound(c, until - from)
  {
    FromFullFactors(c, until - from);
  }

  lemma FromFullFactors(c: Config, d: int)
    ensures c.burst as real + Lapses(c, d) == c.burst as real * (1.0 + d as real / IDLE_BUCKET_TTL as real)
  {
  }

  // --------------------------------------------------------- honouring Retry-After

  /** The key has at least one token, or what `tokens` at `since` has grown to. */
  ghost predicate AtLeast(c: Config, buckets: map<string, Bucket>, key: string, tokens: real, since: int, from: int) {
    forall t {:trigger TokensAt(c, buckets, key, t)} :: from <= t ==>
      TokensAt(c, buckets, key, t) >= 1.0 || TokensAt(c, buckets, key, t) >= tokens + Flow(c, t - since)
  }

  lemma RefusalLeaves(c: Config, l: Limiter, key: string, now: int, tokens: real, since: int)
    requires Usable(c) && Sane(c, l.buckets, now) && since <= now
    requires TokensAt(c, l.buckets, key, now) < 1.0
    requires TokensAt(c, l.buckets, key, now) >= tokens + Flow(c, now - since)
    ensures AtLeast(c, AllowAt(c, l, key, now, true).0.buckets, key, tokens, since, now)
  {
    var b := AllowAt(c, l, key, now, true).0.buckets;
    forall t | now <= t ensures TokensAt(c, b, key, t) >= 1.0 || TokensAt(c, b, key, t) >= tokens + Flow(c, t - since) {
      Accrue(c, since, now, t);
    }
  }

  lemma ServeKeepsAtLeast(c: Config, l: Limiter, op: Op, key: string, tokens: real, since: int, from: int)
    requires Usable(c) && Sane(c, l.buckets, from) && since <= from <= op.now
    requires AtLeast(c, l.buckets, key, tokens, since, from)
    requires op.Call? && op.key == key ==> !Serve(c, l, op, true).1.allowed
    ensures AtLeast(c, Serve(c, l, op, true).0.buckets, key, tokens, since, op.now)
  {
    var b := Serve(c, l, op, true).0.buckets;
    if op.Call? && op.key == key {
      assert TokensAt(c, l.buckets, key, op.now) < 1.0;
      RefusalLeaves(c, l, key, op.now, tokens, since);
    } else {
      forall t | op.now <= t ensures TokensAt(c, b, key, t) >= TokensAt(c, l.buckets, key, t) {
        SweepRaises(c, l.buckets, op.now, key, t);
      }
    }
  }

  lemma {:induction false} PollingKeepsAtLeast(c: Config, l: Limiter, ops: seq<Op>, key: string, tokens: real,
        since: int, from: int, until: int)
    requires Usable(c) && Sane(c, l.buckets, from) && since <= from <= until && InOrder(ops, from)
    requires forall i :: 0 <= i < |ops| ==> ops[i].now <= until
    requires AtLeast(c, l.buckets, key, tokens, since, from)
    requires Admitted(ops, Answers(c, l, ops, true), key) == 0
    ensures AtLeast(c, End(c, l, ops, true).buckets, key, tokens, since, until)
    decreases |ops|
  {
    if ops != [] {
      var r := Serve(c, l, ops[0], true);
      assert ops[0].now <= until;
      AdmittedSplits(c, l, ops, key);
      ServeKeepsAtLeast(c, l, ops[0], key, tokens, since, from);
      ServeKeepsSane(c, l, ops[0], true, from);
      PollingKeepsAtLeast(c, r.0, ops[1..], key, tokens, since, ops[0].now, until);
    }
  }

  /** Waiting the whole seconds of the header lets at least the missing part of a token
      flow in: truncation to nanoseconds and to seconds never shortens it too far. */
  lemma HeaderSuffices(c: Config, tokens: real, waited: int)
    requires Usable(c) && tokens < 1.0
    requires waited >= RetryAfter(Judge(c, tokens)) * SECOND
    ensures tokens + Flow(c, waited) >= 1.0
  {
    var y := (1.0 - tokens) / c.rate * SECOND as real;
    assert WaitFor(c, tokens) == y.Floor + SECOND;
    assert RetryAfter(Judge(c, tokens)) * SECOND > WaitFor(c, tokens) - SECOND;
    assert waited as real > y;
    Proportion(c.rate, 1.0 - tokens, waited as real, SECOND as real);
  }

  lemma Proportion(rate: real, missing: real, waited: real, second: real)
    requires rate > 0.0 && second > 0.0 && waited > missing / rate * second
    ensures waited / second * rate > missing
  {
    assert waited / second > missing / rate by {
      assert waited / second * second > missing / rate * second;
    }
    assert waited / second * rate > missing / rate * rate;
  }

  /** And it asks for no more than a second too much: a second before the header's time
      the token is at best just complete. */
  lemma HeaderIsTight(c: Config, tokens: real)
    requires Usable(c) && tokens < 1.0
    ensures tokens + Flow(c, (RetryAfter(Judge(c, tokens)) - 1) * SECOND) <= 1.0
  {
    var y := (1.0 - tokens) / c.rate * SECOND as real;
    var early := (RetryAfter(Judge(c, tokens)) - 1) * SECOND;
    assert early <= WaitFor(c, tokens) - SECOND == y.Floor;
    assert early as real <= y;
    AtMostProportion(c.rate, 1.0 - tokens, early as real, SECOND as real);
  }

  lemma AtMostProportion(rate: real, missing: real, waited: real, second: real)
    requires rate > 0.0 && second > 0.0 && waited <= missing / rate * second
    ensures waited / second * rate <= missing
  {
    assert waited / second <= missing / rate by {
      assert waited / second * second <= missing / rate * second;
    }
    assert waited / second * rate <= missing / rate * rate;
  }

  lemma {:induction false} PatienceSuffices(c: Config, after: Limiter, key: string, tokens: real, refusedAt: int,
        meanwhile: seq<Op>, again: int)
    requires Usable(c) && Sane(c, after.buckets, refusedAt) && tokens < 1.0
    requires AtLeast(c, after.buckets, key, tokens, refusedAt, refusedAt)
    requires InOrder(meanwhile, refusedAt) && Admitted(meanwhile, Answers(c, after, meanwhile, true), key) == 0
    requires forall i :: 0 <= i < |meanwhile| ==> meanwhile[i].now <= again
    requires again >= refusedAt + RetryAfter(Judge(c, tokens)) * SECOND
    ensures TokensAt(c, End(c, after, meanwhile, true).buckets, key, again) >= 1.0
  {
    WaitIsPositive(c, tokens);
    PollingKeepsAtLeast(c, after, meanwhile, key, tokens, refusedAt, refusedAt, again);
    HeaderSuffices(c, tokens, again - refusedAt);
  }

  /** After a refusal, a client that is not let through in the meantime is let through
      once the header's seconds have passed, however often it polled and whatever the
      other clients and the sweep did. */
  lemma {:induction false} HonouringRetryAfterSuffices(c: Config, l: Limiter, key: string, refusedAt: int,
        meanwhile: seq<Op>, again: int)
    requires Usable(c) && Sane(c, l.buckets, refusedAt)
    requires !AllowAt(c, l, key, refusedAt, true).1.allowed
    requires var after := AllowAt(c, l, key, refusedAt, true).0;
      InOrder(meanwhile, refusedAt) && Admitted(meanwhile, Answers(c, after, meanwhile, true), key) == 0
    requires forall i :: 0 <= i < |meanwhile| ==> meanwhile[i].now <= again
    requires again >= refusedAt + RetryAfter(AllowAt(c, l, key, refusedAt, true).1) * SECOND
    ensures var after := AllowAt(c, l, key, refusedAt, true).0;
      AllowAt(c, End(c, after, meanwhile, true), key, again, true).1.allowed
  {
    var tokens := TokensAt(c, l.buckets, key, refusedAt);
    var after := AllowAt(c, l, key, refusedAt, true).0;
    assert AtLeast(c, after.buckets, key, tokens, refusedAt, refusedAt) by {
      RefusalLeaves(c, l, key, refusedAt, tokens, refusedAt);
    }
    ServeKeepsSane(c, l, Call(key, refusedAt), true, refusedAt);
    PatienceSuffices(c, after, key, tokens, refusedAt, meanwhile, again);
  }

  lemma WaitIsPositive(c: Config, tokens: real)
    requires Usable(c) && tokens < 1.0
    ensures RetryAfter(Judge(c, tokens)) >= 1
  {
    assert (1.0 - tokens) / c.rate * SECOND as real >= 0.0;
  }
}
