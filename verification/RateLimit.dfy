/** The per-key rate limiter with its clean-up of idle keys. Levels are counted in
    billionths of a token and time in nanoseconds, so that refilling at `rate`
    tokens per second adds exactly `rate` per nanosecond. */
module RateLimit {

  datatype Config = Config(rate: nat, burst: nat, interval: int)

  /** A token bucket: its level when it was last consulted. */
  datatype Bucket = Bucket(level: int, last: int)

  datatype Entry = Entry(limiter: Bucket, lastSeen: int)

  type Limiters = map<string, Entry>

  const TOKEN: int := 1_000_000_000

  function Capacity(cfg: Config): int {
    cfg.burst * TOKEN
  }

  // ------------------------------------------------------------------
  // One bucket
  // ------------------------------------------------------------------

  function Level(cfg: Config, b: Bucket, now: int): int {
    var filled := b.level + (now - b.last) * cfg.rate;
    if filled < Capacity(cfg) then filled else Capacity(cfg)
  }

  function Take(cfg: Config, b: Bucket, now: int): (Bucket, bool) {
    var level := Level(cfg, b, now);
    if level >= TOKEN then (Bucket(level - TOKEN, now), true) else (Bucket(level, now), false)
  }

  // ------------------------------------------------------------------
  // The store
  // ------------------------------------------------------------------

  /** The entry for the key, marked as seen; a key not in the store starts full. */
  function Seen(cfg: Config, s: Limiters, key: string, now: int): Entry {
    if key in s then s[key].(lastSeen := now) else Entry(Bucket(Capacity(cfg), now), now)
  }

  function AfterAllow(cfg: Config, s: Limiters, key: string, now: int): Limiters {
    var e := Seen(cfg, s, key, now);
    s[key := e.(limiter := Take(cfg, e.limiter, now).0)]
  }

  function Allows(cfg: Config, s: Limiters, key: string, now: int): bool {
    Take(cfg, Seen(cfg, s, key, now).limiter, now).1
  }

  predicate Idle(cfg: Config, e: Entry, now: int) {
    now - e.lastSeen > 2 * cfg.interval
  }

  function Evicted(cfg: Config, s: Limiters, now: int): Limiters {
    map key | key in s && !Idle(cfg, s[key], now) :: s[key]
  }

  /** What happens to a store: a request, or a tick of the clean-up. */
  datatype Op = Allow(key: string, at: int) | Cleanup(at: int)

  /** `evicting` tells the real store from one that keeps every key. Without a
      positive interval no clean-up is ever started. */
  function After(cfg: Config, s: Limiters, op: Op, evicting: bool): Limiters {
    match op
    case Allow(key, at) => AfterAllow(cfg, s, key, at)
    case Cleanup(at) => if evicting && cfg.interval > 0 then Evicted(cfg, s, at) else s
  }

  function AfterAll(cfg: Config, s: Limiters, ops: seq<Op>, evicting: bool): Limiters
    decreases |ops|
  {
    if ops == [] then s else AfterAll(cfg, After(cfg, s, ops[0], evicting), ops[1..], evicting)
  }

  function Answers(cfg: Config, s: Limiters, ops: seq<Op>, evicting: bool): seq<bool>
    decreases |ops|
  {
    if ops == [] then []
    else (if ops[0].Allow? then [Allows(cfg, s, ops[0].key, ops[0].at)] else [])
         + Answers(cfg, After(cfg, s, ops[0], evicting), ops[1..], evicting)
  }

  /** How many of the operations are requests for this key that pass. */
  function Passed(cfg: Config, s: Limiters, ops: seq<Op>, evicting: bool, key: string): nat
    decreases |ops|
  {
    if ops == [] then 0
    else (if ops[0].Allow? && ops[0].key == key && Allows(cfg, s, key, ops[0].at) then 1 else 0)
         + Passed(cfg, After(cfg, s, ops[0], evicting), ops[1..], evicting, key)
  }

  /** The clock does not run backwards. */
  predicate Ordered(ops: seq<Op>, from: int) {
    ops != [] ==> from <= ops[0].at && Ordered(ops[1..], ops[0].at)
  }

  // ------------------------------------------------------------------
  // Eviction cannot be told from keeping
  // ------------------------------------------------------------------

  /** A key idle long enough to be evicted would be full by then. */
  predicate IdleMeansFull(cfg: Config) {
    cfg.interval <= 0 || Capacity(cfg) <= cfg.rate * (2 * cfg.interval + 1)
  }

  predicate LevelsOk(cfg: Config, s: Limiters, now: int) {
    forall key :: key in s ==> s[key].lastSeen == s[key].limiter.last <= now && 0 <= s[key].limiter.level <= Capacity(cfg)
  }

  /** The two stores agree on the keys of the first; the others are full. */
  predicate Agree(cfg: Config, s: Limiters, all: Limiters, now: int) {
    && LevelsOk(cfg, all, now)
    && (forall key :: key in s ==> key in all && s[key] == all[key])
    && (forall key :: key in all && key !in s ==> Level(cfg, all[key].limiter, now) == Capacity(cfg))
  }

  lemma LevelRises(cfg: Config, b: Bucket, now: int, later: int)
    requires b.last <= now <= later && 0 <= b.level <= Capacity(cfg)
    ensures 0 <= Level(cfg, b, now) <= Level(cfg, b, later) <= Capacity(cfg)
    ensures Level(cfg, b, later) <= Level(cfg, b, now) + (later - now) * cfg.rate
    ensures Level(cfg, Bucket(Level(cfg, b, now), now), later) == Level(cfg, b, later)
  {
    var r := cfg.rate;
    assert (later - b.last) * r == (now - b.last) * r + (later - now) * r;
    assert (now - b.last) * r >= 0 && (later - now) * r >= 0;
  }

  lemma TakeKeeps(cfg: Config, b: Bucket, now: int)
    requires b.last <= now && 0 <= b.level <= Capacity(cfg)
    ensures var t, level := Take(cfg, b, now), Level(cfg, b, now);
            && 0 <= level <= Capacity(cfg)
            && (t.1 <==> level >= TOKEN)
            && t.0.last == now && t.0.level == (if t.1 then level - TOKEN else level)
            && 0 <= t.0.level <= Capacity(cfg) && Level(cfg, t.0, now) == t.0.level
  {
    LevelRises(cfg, b, now, now);
  }

  lemma FullAfterIdling(cfg: Config, e: Entry, now: int)
    requires IdleMeansFull(cfg) && cfg.interval > 0 && Idle(cfg, e, now)
    requires e.lastSeen == e.limiter.last && 0 <= e.limiter.level
    ensures Level(cfg, e.limiter, now) == Capacity(cfg)
  {
    assert (now - e.lastSeen) * cfg.rate >= (2 * cfg.interval + 1) * cfg.rate;
  }

  lemma AgreeLater(cfg: Config, s: Limiters, all: Limiters, now: int, later: int)
    requires Agree(cfg, s, all, now) && now <= later
    ensures Agree(cfg, s, all, later)
  {
    forall key | key in all && key !in s
      ensures Level(cfg, all[key].limiter, later) == Capacity(cfg)
    {
      LevelRises(cfg, all[key].limiter, now, later);
    }
  }

  lemma AgreeOnAllow(cfg: Config, s: Limiters, all: Limiters, key: string, now: int)
    requires Agree(cfg, s, all, now)
    ensures Allows(cfg, s, key, now) == Allows(cfg, all, key, now)
    ensures Agree(cfg, AfterAllow(cfg, s, key, now), AfterAllow(cfg, all, key, now), now)
  {
    hide Level, Capacity, Take;
    var e, e' := Seen(cfg, s, key, now), Seen(cfg, all, key, now);
    SeenInRange(cfg, s, all, key, now);
    TakeKeeps(cfg, e.limiter, now);
    TakeKeeps(cfg, e'.limiter, now);
  }

  /** Both stores find the key at the same level. */
  lemma SeenInRange(cfg: Config, s: Limiters, all: Limiters, key: string, now: int)
    requires Agree(cfg, s, all, now)
    ensures var b, b' := Seen(cfg, s, key, now).limiter, Seen(cfg, all, key, now).limiter;
            && b.last <= now && 0 <= b.level <= Capacity(cfg)
            && b'.last <= now && 0 <= b'.level <= Capacity(cfg)
            && Level(cfg, b, now) == Level(cfg, b', now)
  {
  }

  lemma AgreeOnCleanup(cfg: Config, s: Limiters, all: Limiters, now: int)
    requires Agree(cfg, s, all, now) && IdleMeansFull(cfg) && cfg.interval > 0
    ensures Agree(cfg, Evicted(cfg, s, now), all, now)
  {
    hide Level, Capacity;
    forall key | key in s && Idle(cfg, s[key], now)
      ensures Level(cfg, all[key].limiter, now) == Capacity(cfg)
    {
      FullAfterIdling(cfg, all[key], now);
    }
  }

  lemma AgreeStep(cfg: Config, s: Limiters, all: Limiters, now: int, op: Op)
    requires Agree(cfg, s, all, now) && IdleMeansFull(cfg) && now <= op.at
    ensures Agree(cfg, After(cfg, s, op, true), After(cfg, all, op, false), op.at)
    ensures op.Allow? ==> Allows(cfg, s, op.key, op.at) == Allows(cfg, all, op.key, op.at)
  {
    hide Agree, AfterAllow, Evicted, Allows, IdleMeansFull;
    AgreeLater(cfg, s, all, now, op.at);
    if op.Allow? {
      AgreeOnAllow(cfg, s, all, op.key, op.at);
    } else if cfg.interval > 0 {
      AgreeOnCleanup(cfg, s, all, op.at);
    }
  }

  lemma {:induction false} AgreeAlways(cfg: Config, s: Limiters, all: Limiters, now: int, ops: seq<Op>)
    requires Agree(cfg, s, all, now) && IdleMeansFull(cfg) && Ordered(ops, now)
    ensures Answers(cfg, s, ops, true) == Answers(cfg, all, ops, false)
    ensures forall key :: Passed(cfg, s, ops, true, key) == Passed(cfg, all, ops, false, key)
    decreases |ops|
  {
    hide Agree, After, Allows, IdleMeansFull;
    if ops != [] {
      AgreeStep(cfg, s, all, now, ops[0]);
      AgreeAlways(cfg, After(cfg, s, ops[0], true), After(cfg, all, ops[0], false), ops[0].at, ops[1..]);
    }
  }

  // ------------------------------------------------------------------
  // At most burst + rate * T requests per window
  // ------------------------------------------------------------------

  lemma LevelsStayOk(cfg: Config, s: Limiters, now: int, op: Op, evicting: bool)
    requires LevelsOk(cfg, s, now) && now <= op.at
    ensures LevelsOk(cfg, After(cfg, s, op, evicting), op.at)
  {
    hide Level, Capacity, Take;
    if op.Allow? {
      SeenInRange(cfg, s, s, op.key, op.at);
      TakeKeeps(cfg, Seen(cfg, s, op.key, op.at).limiter, op.at);
    }
  }

  /** What the key could spend at this moment. */
  function Balance(cfg: Config, s: Limiters, key: string, now: int): int {
    if key in s then Level(cfg, s[key].limiter, now) else Capacity(cfg)
  }

  /** One operation: what passes is paid for by the balance and what has trickled in. */
  lemma Spends(cfg: Config, s: Limiters, now: int, op: Op, key: string)
    requires LevelsOk(cfg, s, now) && now <= op.at
    ensures var passes := if op.Allow? && op.key == key && Allows(cfg, s, key, op.at) then 1 else 0;
            0 <= Balance(cfg, After(cfg, s, op, false), key, op.at)
              <= Balance(cfg, s, key, now) + (op.at - now) * cfg.rate - passes * TOKEN
  {
    hide Level, Capacity, Take;
    var dt := (op.at - now) * cfg.rate;
    assert dt >= 0;
    BalanceRises(cfg, s, key, now, op.at);
    if op.Allow? && op.key == key {
      SeenInRange(cfg, s, s, key, op.at);
      TakeKeeps(cfg, Seen(cfg, s, key, op.at).limiter, op.at);
    }
  }

  lemma BalanceRises(cfg: Config, s: Limiters, key: string, now: int, later: int)
    requires LevelsOk(cfg, s, now) && now <= later
    ensures 0 <= Balance(cfg, s, key, now) <= Balance(cfg, s, key, later) <= Balance(cfg, s, key, now) + (later - now) * cfg.rate
    ensures Balance(cfg, s, key, later) == Level(cfg, Seen(cfg, s, key, later).limiter, later)
  {
    assert (later - now) * cfg.rate >= 0;
    if key in s {
      LevelRises(cfg, s[key].limiter, now, later);
    }
  }

  lemma {:induction false} SpendsInAll(cfg: Config, s: Limiters, now: int, ops: seq<Op>, key: string, until: int)
    requires LevelsOk(cfg, s, now) && Ordered(ops, now) && now <= until
    requires forall i :: 0 <= i < |ops| ==> ops[i].at <= until
    ensures Passed(cfg, s, ops, false, key) * TOKEN <= Balance(cfg, s, key, now) + (until - now) * cfg.rate
    decreases |ops|
  {
    hide Level, Capacity, After, Allows, LevelsOk, Balance;
    if ops == [] {
      BalanceSign(cfg, s, key, now);
      assert (until - now) * cfg.rate >= 0;
    } else {
      var op := ops[0];
      Spends(cfg, s, now, op, key);
      LevelsStayOk(cfg, s, now, op, false);
      SpendsInAll(cfg, After(cfg, s, op, false), op.at, ops[1..], key, until);
      assert (until - now) * cfg.rate == (until - op.at) * cfg.rate + (op.at - now) * cfg.rate;
    }
  }

  lemma BalanceSign(cfg: Config, s: Limiters, key: string, now: int)
    requires LevelsOk(cfg, s, now)
    ensures 0 <= Balance(cfg, s, key, now) <= Capacity(cfg)
  {
    if key in s {
      LevelRises(cfg, s[key].limiter, s[key].limiter.last, now);
    }
  }

  lemma {:induction false} AgreeAfterAll(cfg: Config, s: Limiters, all: Limiters, now: int, ops: seq<Op>, later: int)
    requires Agree(cfg, s, all, now) && IdleMeansFull(cfg) && Ordered(ops, now)
    requires now <= later && forall i :: 0 <= i < |ops| ==> ops[i].at <= later
    ensures Agree(cfg, AfterAll(cfg, s, ops, true), AfterAll(cfg, all, ops, false), later)
    decreases |ops|
  {
    hide Agree, After, IdleMeansFull;
    if ops == [] {
      AgreeLater(cfg, s, all, now, later);
    } else {
      AgreeStep(cfg, s, all, now, ops[0]);
      AgreeAfterAll(cfg, After(cfg, s, ops[0], true), After(cfg, all, ops[0], false), ops[0].at, ops[1..], later);
    }
  }

  /** Whatever came before: in any window of length T at most burst + rate * T
      requests for one key pass, evictions inside and before it included. */
  lemma WindowBound(cfg: Config, start: int, before: seq<Op>, window: seq<Op>, key: string, from: int, T: nat)
    requires IdleMeansFull(cfg) && start <= from
    requires Ordered(before, start) && forall i :: 0 <= i < |before| ==> before[i].at <= from
    requires Ordered(window, from) && forall i :: 0 <= i < |window| ==> window[i].at <= from + T
    ensures Passed(cfg, AfterAll(cfg, map[], before, true), window, true, key) * 1_000_000_000
            <= cfg.burst * 1_000_000_000 + T * cfg.rate
  {
    var s, all := AfterAll(cfg, map[], before, true), AfterAll(cfg, map[], before, false);
    AgreeAfterAll(cfg, map[], map[], start, before, from);
    AgreeAlways(cfg, s, all, from, window);
    SpendsInAll(cfg, all, from, window, key, from + T);
    BalanceSign(cfg, all, key, from);
  }

  // ------------------------------------------------------------------
  // Exactly when eviction is invisible
  // ------------------------------------------------------------------

  function Repeat(key: string, at: int, n: nat): seq<Op> {
    if n == 0 then [] else [Allow(key, at)] + Repeat(key, at, n - 1)
  }

  lemma OneRequest(cfg: Config, s: Limiters, key: string, at: int, evicting: bool)
    requires LevelsOk(cfg, s, at)
    ensures var s', balance := After(cfg, s, Allow(key, at), evicting), Balance(cfg, s, key, at);
            && LevelsOk(cfg, s', at) && s'.Keys == s.Keys + {key}
            && (Allows(cfg, s, key, at) <==> balance >= TOKEN)
            && Balance(cfg, s', key, at) == (if balance >= TOKEN then balance - TOKEN else balance) >= 0
            && s'[key] == Entry(Bucket(Balance(cfg, s', key, at), at), at)
  {
    hide Level, Capacity, Take;
    LevelsStayOk(cfg, s, at, Allow(key, at), evicting);
    BalanceRises(cfg, s, key, at, at);
    SeenInRange(cfg, s, s, key, at);
    TakeKeeps(cfg, Seen(cfg, s, key, at).limiter, at);
  }

  /** n requests at one moment all pass exactly if there are n tokens. */
  lemma {:induction false} Burst(cfg: Config, s: Limiters, key: string, at: int, n: nat, evicting: bool)
    requires LevelsOk(cfg, s, at)
    ensures false !in Answers(cfg, s, Repeat(key, at, n), evicting) <==> n == 0 || Balance(cfg, s, key, at) >= n * TOKEN
    ensures n > 0 && Balance(cfg, s, key, at) >= n * TOKEN ==>
              var z := AfterAll(cfg, s, Repeat(key, at, n), evicting);
              z.Keys == s.Keys + {key} && z[key] == Entry(Bucket(Balance(cfg, s, key, at) - n * TOKEN, at), at)
    decreases n
  {
    hide LevelsOk, After, Allows, Balance;
    if n > 0 {
      var op, ops := Allow(key, at), Repeat(key, at, n);
      assert ops[0] == op && ops[1..] == Repeat(key, at, n - 1);
      OneRequest(cfg, s, key, at, evicting);
      Burst(cfg, After(cfg, s, op, evicting), key, at, n - 1, evicting);
    }
  }

  lemma {:induction false} AnswersConcat(cfg: Config, s: Limiters, first: seq<Op>, then_: seq<Op>, evicting: bool)
    ensures Answers(cfg, s, first + then_, evicting)
            == Answers(cfg, s, first, evicting) + Answers(cfg, AfterAll(cfg, s, first, evicting), then_, evicting)
    decreases |first|
  {
    hide After, Allows;
    if first == [] {
      assert first + then_ == then_;
    } else {
      assert (first + then_)[1..] == first[1..] + then_;
      AnswersConcat(cfg, After(cfg, s, first[0], evicting), first[1..], then_, evicting);
    }
  }

  lemma {:induction false} RepeatOrdered(key: string, at: int, n: nat, rest: seq<Op>, from: int)
    requires Ordered(rest, at) && from <= at
    ensures Ordered(Repeat(key, at, n) + rest, from)
    decreases n
  {
    var ops := Repeat(key, at, n);
    if n == 0 {
      assert ops + rest == rest;
    } else {
      assert (ops + rest)[1..] == Repeat(key, at, n - 1) + rest;
      RepeatOrdered(key, at, n - 1, rest, at);
    }
  }

  /** A burst, a clean-up as soon as the key counts as idle, and a second burst. (The
      clean-up ticks then if the store was created one nanosecond short of an
      interval before the first burst.) */
  function Telltale(cfg: Config): seq<Op> {
    var at := 2 * cfg.interval + 1;
    Repeat("k", 0, cfg.burst) + ([Cleanup(at)] + Repeat("k", at, cfg.burst))
  }

  /** The second burst passes exactly in the store that has forgotten the first. */
  lemma TelltaleTells(cfg: Config, evicting: bool)
    requires !IdleMeansFull(cfg)
    ensures Ordered(Telltale(cfg), 0)
    ensures false !in Answers(cfg, map[], Telltale(cfg), evicting) <==> evicting
  {
    var at, burst := 2 * cfg.interval + 1, cfg.burst;
    var first, second := Repeat("k", 0, burst), Repeat("k", at, burst);
    assert cfg.rate * at >= 0;
    assert burst > 0;
    assert second + [] == second;
    RepeatOrdered("k", at, burst, [], at);
    RepeatOrdered("k", 0, burst, [Cleanup(at)] + second, 0);
    AnswersConcat(cfg, map[], first, [Cleanup(at)] + second, evicting);
    Burst(cfg, map[], "k", 0, burst, evicting);
    var z := AfterAll(cfg, map[], first, evicting);
    assert z == map["k" := Entry(Bucket(0, 0), 0)];
    var z' := After(cfg, z, Cleanup(at), evicting);
    assert z' == if evicting then map[] else z;
    Burst(cfg, z', "k", at, burst, evicting);
    assert ([Cleanup(at)] + second)[1..] == second;
  }

  /** Eviction changes no answer of any run exactly if a bucket always refills
      within two clean-up intervals and a nanosecond; with no clean-up at all, too. */
  lemma EvictionIsInvisibleIff(cfg: Config)
    ensures IdleMeansFull(cfg) <==>
            forall ops :: Ordered(ops, 0) ==> Answers(cfg, map[], ops, true) == Answers(cfg, map[], ops, false)
  {
    if IdleMeansFull(cfg) {
      forall ops | Ordered(ops, 0)
        ensures Answers(cfg, map[], ops, true) == Answers(cfg, map[], ops, false)
      {
        AgreeAlways(cfg, map[], map[], 0, ops);
      }
    } else {
      TelltaleTells(cfg, true);
      TelltaleTells(cfg, false);
    }
  }

  /** In the units of the configuration: burst <= rate * 2 * interval, the interval
      in seconds, is enough. */
  lemma RefillWithinTwoIntervals(cfg: Config)
    requires cfg.burst * TOKEN <= cfg.rate * (2 * cfg.interval)
    ensures IdleMeansFull(cfg)
  {
    assert cfg.rate * (2 * cfg.interval + 1) == cfg.rate * (2 * cfg.interval) + cfg.rate;
  }

  /** The default configuration: 100 per second, bursts of 200, five minutes. */
  lemma DefaultConfigRefills()
    ensures IdleMeansFull(Config(100, 200, 300_000_000_000))
  {
  }

  // ------------------------------------------------------------------
  // The store as a class
  // ------------------------------------------------------------------

  /** `all` is the ideal store that never evicts, kept beside the real one. */
  class Store {
    const cfg: Config
    var limiters: Limiters
    ghost var all: Limiters
    ghost var clock: int

    ghost predicate Valid()
      reads this
    {
      LevelsOk(cfg, limiters, clock) && (IdleMeansFull(cfg) ==> Agree(cfg, limiters, all, clock))
    }

    constructor (cfg: Config, ghost start: int)
      ensures Valid() && this.cfg == cfg && limiters == map[] && all == map[] && clock == start
    {
      this.cfg := cfg;
      limiters := map[];
      all := map[];
      clock := start;
    }

    /** A token is taken if there is a whole one: a new key starts with `burst`, and
        `rate` a second come back since, up to `burst`. Answers as the ideal store does, if
        buckets refill in time. */
    method Allow(key: string, now: int) returns (ok: bool)
      requires Valid() && clock <= now
      modifies this
      ensures Valid() && clock == now
      ensures var full := cfg.burst * 1_000_000_000;
              var filled := if key !in old(limiters) then full
                            else old(limiters)[key].limiter.level + (now - old(limiters)[key].limiter.last) * cfg.rate;
              var level := if filled < full then filled else full;
              && (ok <==> level >= 1_000_000_000)
              && limiters == old(limiters)[key := Entry(Bucket(if ok then level - 1_000_000_000 else level, now), now)]
      ensures all == AfterAllow(cfg, old(all), key, now)
      ensures IdleMeansFull(cfg) ==> ok == Allows(cfg, old(all), key, now)
    {
      hide Agree, LevelsOk, IdleMeansFull, Level, Capacity;
      AllowSpelled(cfg, limiters, key, now);
      LevelsStayOk(cfg, limiters, clock, Op.Allow(key, now), true);
      if IdleMeansFull(cfg) {
        AgreeStep(cfg, limiters, all, clock, Op.Allow(key, now));
      }
      var e := if key in limiters then limiters[key].(lastSeen := now) else Entry(Bucket(cfg.burst * TOKEN, now), now);
      CapacityIs(cfg);
      var taken := Take(cfg, e.limiter, now);
      all := AfterAllow(cfg, all, key, now);
      limiters := limiters[key := e.(limiter := taken.0)];
      clock := now;
      ok := taken.1;
    }

    /** One tick of the clean-up: a loop over the keys, in any order. */
    method Cleanup(now: int)
      requires Valid() && clock <= now && cfg.interval > 0
      modifies this`limiters, this`clock
      ensures Valid() && clock == now
      ensures forall key :: key in limiters <==> key in old(limiters) && now - old(limiters)[key].lastSeen <= 2 * cfg.interval
      ensures forall key :: key in limiters ==> limiters[key] == old(limiters)[key]
    {
      hide Agree, LevelsOk, IdleMeansFull, Evicted, Idle;
      ghost var before, start := limiters, clock;
      assert LevelsOk(cfg, before, start) && (IdleMeansFull(cfg) ==> Agree(cfg, before, all, start));
      var keys := limiters.Keys;
      while keys != {}
        invariant keys <= before.Keys
        invariant forall key :: key in limiters <==> key in before && (key in keys || !Idle(cfg, before[key], now))
        invariant forall key :: key in limiters ==> limiters[key] == before[key]
        invariant clock == start && all == old(all)
        decreases |keys|
      {
        var key :| key in keys;
        if Idle(cfg, limiters[key], now) {
          limiters := limiters - {key};
        }
        keys := keys - {key};
      }
      EvictedIs(cfg, before, limiters, now);
      LevelsStayOk(cfg, before, start, Op.Cleanup(now), true);
      if IdleMeansFull(cfg) {
        AgreeStep(cfg, before, all, start, Op.Cleanup(now));
      }
      clock := now;
    }
  }

  /** A request, spelled out. */
  lemma AllowSpelled(cfg: Config, s: Limiters, key: string, now: int)
    ensures var full := cfg.burst * 1_000_000_000;
            var filled := if key !in s then full else s[key].limiter.level + (now - s[key].limiter.last) * cfg.rate;
            var level := if filled < full then filled else full;
            && (Allows(cfg, s, key, now) <==> level >= 1_000_000_000)
            && AfterAllow(cfg, s, key, now)
               == s[key := Entry(Bucket(if Allows(cfg, s, key, now) then level - 1_000_000_000 else level, now), now)]
  {
    var b := Seen(cfg, s, key, now).limiter;
    if key !in s {
      assert (now - b.last) * cfg.rate == 0;
    }
  }

  lemma EvictedIs(cfg: Config, s: Limiters, s': Limiters, now: int)
    requires forall key :: key in s' <==> key in s && !Idle(cfg, s[key], now)
    requires forall key :: key in s' ==> s'[key] == s[key]
    ensures s' == Evicted(cfg, s, now)
    ensures forall key :: key in s ==> (Idle(cfg, s[key], now) <==> now - s[key].lastSeen > 2 * cfg.interval)
  {
  }

  lemma CapacityIs(cfg: Config)
    ensures Capacity(cfg) == cfg.burst * TOKEN
  {
  }
}
