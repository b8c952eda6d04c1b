/** The search service with operations overlapping at will: any number of replicas
    sharing one cache, readers that join a running query, updates and invalidations
    at any moment. How old can an answer be? */
module SearchStaleness {
  import opened Wrappers
  import opened SearchModel
  import SearchCache

  /** The table as it is from `at` on, until the next snapshot. */
  datatype Snapshot = Snapshot(at: int, table: Table)

  /** `readAt` records when the query ran; nothing in the service depends on it. */
  datatype Entry = Entry(answer: Answer, expiresAt: int, readAt: int)

  /** One shared query per replica and key. */
  datatype FlightId = FlightId(replica: nat, key: Key)

  datatype Flight =
    | Querying(startedAt: int)
    | Fetched(startedAt: int, answer: Answer, readAt: int)
    | Stored(startedAt: int, answer: Answer, readAt: int)

  datatype Thread =
    | Missed(flight: FlightId)
    | Waiting(flight: FlightId)
    | Answered(key: Key, result: Option<Answer>, at: int)

  datatype State = State(
    now: int,
    history: seq<Snapshot>,
    cache: map<Key, Entry>,
    flights: map<FlightId, Flight>,
    threads: map<nat, Thread>)

  datatype Action =
    | Tick(dt: nat)
    | Write(table: Table)
    | Invalidate(key: Key)
    | Get(t: nat, replica: nat, key: Key, readable: bool)
    | Join(t: nat)
    | Fetch(f: FlightId, reply: Option<Answer>)
    | Store(f: FlightId, takesEffect: bool)
    | Land(f: FlightId)

  /** Ten seconds. */
  const FLIGHT_TIMEOUT: int := 10_000_000_000
  const MAX_AGE: int := FLIGHT_TIMEOUT + SearchCache.CACHE_TTL

  // ------------------------------------------------------------------
  // Steps
  // ------------------------------------------------------------------

  /** A flight whose context times out has ended by then. */
  predicate DeadlinesAllow(s: State, later: int) {
    forall f :: f in s.flights ==> later <= s.flights[f].startedAt + FLIGHT_TIMEOUT
  }

  function Now(history: seq<Snapshot>): Table
    requires history != []
  {
    history[|history| - 1].table
  }

  function DoGet(s: State, t: nat, replica: nat, key: Key, readable: bool): State {
    if t in s.threads then s
    else if readable && key in s.cache && s.now < s.cache[key].expiresAt
    then s.(threads := s.threads[t := Answered(key, Some(s.cache[key].answer), s.now)])
    else s.(threads := s.threads[t := Missed(FlightId(replica, key))])
  }

  function DoJoin(s: State, t: nat): State {
    if t in s.threads && s.threads[t].Missed? then
      var f := s.threads[t].flight;
      var s' := s.(threads := s.threads[t := Waiting(f)]);
      if f in s.flights then s' else s'.(flights := s.flights[f := Querying(s.now)])
    else s
  }

  /** The end of a flight wakes everyone who waits for it. */
  function Wake(threads: map<nat, Thread>, f: FlightId, result: Option<Answer>, now: int): map<nat, Thread> {
    map t | t in threads :: if threads[t] == Waiting(f) then Answered(f.key, result, now) else threads[t]
  }

  function Landed(s: State, f: FlightId, result: Option<Answer>): State {
    s.(flights := s.flights - {f}, threads := Wake(s.threads, f, result, s.now))
  }

  ghost function DoFetch(s: State, f: FlightId, reply: Option<Answer>): State
    requires s.history != []
  {
    if f !in s.flights || !s.flights[f].Querying? then s
    else if reply.None? then Landed(s, f, None)
    else if Answers(Now(s.history), f.key, reply.value)
    then s.(flights := s.flights[f := Fetched(s.flights[f].startedAt, reply.value, s.now)])
    else s
  }

  function DoStore(s: State, f: FlightId, takesEffect: bool): State {
    if f in s.flights && s.flights[f].Fetched? then
      var w := s.flights[f];
      var s' := s.(flights := s.flights[f := Stored(w.startedAt, w.answer, w.readAt)]);
      if takesEffect
      then s'.(cache := s.cache[f.key := Entry(w.answer, s.now + SearchCache.CACHE_TTL, w.readAt)])
      else s'
    else s
  }

  function DoLand(s: State, f: FlightId): State {
    if f in s.flights && s.flights[f].Stored? then Landed(s, f, Some(s.flights[f].answer)) else s
  }

  ghost function Step(s: State, a: Action): (s': State)
    requires s.history != []
    ensures s'.history != []
  {
    match a
    case Tick(dt) => if DeadlinesAllow(s, s.now + dt) then s.(now := s.now + dt) else s
    case Write(table) => s.(history := s.history + [Snapshot(s.now, table)])
    case Invalidate(key) => s.(cache := s.cache - {key})
    case Get(t, replica, key, readable) => DoGet(s, t, replica, key, readable)
    case Join(t) => DoJoin(s, t)
    case Fetch(f, reply) => DoFetch(s, f, reply)
    case Store(f, takesEffect) => DoStore(s, f, takesEffect)
    case Land(f) => DoLand(s, f)
  }

  function Init(now: int, table: Table): State {
    State(now, [Snapshot(now, table)], map[], map[], map[])
  }

  ghost function Run(s: State, schedule: seq<Action>): State
    requires s.history != []
    decreases |schedule|
  {
    if schedule == [] then s else Run(Step(s, schedule[0]), schedule[1..])
  }

  // ------------------------------------------------------------------
  // When an answer was right
  // ------------------------------------------------------------------

  /** The i-th table was in force at the moment m; at the moment of a write both are. */
  predicate InForce(history: seq<Snapshot>, i: int, m: int) {
    0 <= i < |history| && history[i].at <= m && (i + 1 < |history| ==> m <= history[i + 1].at)
  }

  /** At the moment m the table was one for which the answer is right. */
  ghost predicate RightAt(history: seq<Snapshot>, key: Key, a: Answer, m: int) {
    exists i :: InForce(history, i, m) && Answers(history[i].table, key, a)
  }

  ghost predicate FlightOk(s: State, f: FlightId, w: Flight) {
    && w.startedAt <= s.now <= w.startedAt + FLIGHT_TIMEOUT
    && (!w.Querying? ==> w.startedAt <= w.readAt <= s.now && RightAt(s.history, f.key, w.answer, w.readAt))
  }

  ghost predicate EntryOk(s: State, key: Key, e: Entry) {
    && e.readAt <= s.now && e.expiresAt <= e.readAt + MAX_AGE
    && RightAt(s.history, key, e.answer, e.readAt)
  }

  /** An answer given at `at` was right at some moment of the 15 seconds before. */
  ghost predicate RightRecently(history: seq<Snapshot>, key: Key, a: Answer, at: int) {
    exists m :: at - MAX_AGE < m <= at && RightAt(history, key, a, m)
  }

  ghost predicate ThreadOk(s: State, th: Thread) {
    th.Answered? && th.result.Some? ==> th.at <= s.now && RightRecently(s.history, th.key, th.result.value, th.at)
  }

  ghost predicate Inv(s: State) {
    && s.history != [] && s.history[|s.history| - 1].at <= s.now
    && (forall f :: f in s.flights ==> FlightOk(s, f, s.flights[f]))
    && (forall key :: key in s.cache ==> EntryOk(s, key, s.cache[key]))
    && (forall t :: t in s.threads ==> ThreadOk(s, s.threads[t]))
  }

  // ------------------------------------------------------------------
  // The invariant
  // ------------------------------------------------------------------

  /** Later writes do not change what was right before them. */
  lemma RightLasts(history: seq<Snapshot>, next: Snapshot, key: Key, a: Answer, m: int)
    requires RightAt(history, key, a, m) && m <= next.at
    ensures RightAt(history + [next], key, a, m)
  {
    hide Answers;
    var i :| InForce(history, i, m) && Answers(history[i].table, key, a);
    assert InForce(history + [next], i, m);
  }

  lemma RecentlyLasts(history: seq<Snapshot>, next: Snapshot, key: Key, a: Answer, at: int)
    requires RightRecently(history, key, a, at) && at <= next.at
    ensures RightRecently(history + [next], key, a, at)
  {
    hide RightAt;
    var m :| at - MAX_AGE < m <= at && RightAt(history, key, a, m);
    RightLasts(history, next, key, a, m);
  }

  lemma WriteInv(s: State, table: Table)
    requires Inv(s)
    ensures Inv(s.(history := s.history + [Snapshot(s.now, table)]))
  {
    hide RightAt, RightRecently;
    var next := Snapshot(s.now, table);
    var s' := s.(history := s.history + [next]);
    forall f | f in s.flights
      ensures FlightOk(s', f, s.flights[f])
    {
      if !s.flights[f].Querying? {
        RightLasts(s.history, next, f.key, s.flights[f].answer, s.flights[f].readAt);
      }
    }
    forall key | key in s.cache
      ensures EntryOk(s', key, s.cache[key])
    {
      RightLasts(s.history, next, key, s.cache[key].answer, s.cache[key].readAt);
    }
    forall t | t in s.threads
      ensures ThreadOk(s', s.threads[t])
    {
      var th := s.threads[t];
      if th.Answered? && th.result.Some? {
        RecentlyLasts(s.history, next, th.key, th.result.value, th.at);
      }
    }
  }

  lemma GetInv(s: State, t: nat, replica: nat, key: Key, readable: bool)
    requires Inv(s)
    ensures Inv(DoGet(s, t, replica, key, readable))
  {
    hide RightAt;
  }

  lemma FetchInv(s: State, f: FlightId, reply: Option<Answer>)
    requires Inv(s)
    ensures Inv(DoFetch(s, f, reply))
  {
    hide RightRecently, Answers;
    if reply.Some? && Answers(Now(s.history), f.key, reply.value) {
      assert InForce(s.history, |s.history| - 1, s.now);
    }
    hide RightAt;
  }

  lemma StoreInv(s: State, f: FlightId, takesEffect: bool)
    requires Inv(s)
    ensures Inv(DoStore(s, f, takesEffect))
  {
    hide RightAt, RightRecently;
  }

  lemma LandInv(s: State, f: FlightId)
    requires Inv(s)
    ensures Inv(DoLand(s, f))
  {
    hide RightAt;
  }

  lemma StepInv(s: State, a: Action)
    requires Inv(s)
    ensures Inv(Step(s, a))
  {
    hide RightAt, RightRecently, DoGet, DoFetch, DoStore, DoLand;
    match a
    case Write(table) => WriteInv(s, table);
    case Get(t, replica, key, readable) => GetInv(s, t, replica, key, readable);
    case Fetch(f, reply) => FetchInv(s, f, reply);
    case Store(f, takesEffect) => StoreInv(s, f, takesEffect);
    case Land(f) => LandInv(s, f);
    case _ =>
  }

  lemma {:induction false} RunInv(s: State, schedule: seq<Action>)
    requires Inv(s)
    ensures Inv(Run(s, schedule))
    decreases |schedule|
  {
    if schedule != [] {
      StepInv(s, schedule[0]);
      RunInv(Step(s, schedule[0]), schedule[1..]);
    }
  }

  lemma InitInv(now: int, table: Table)
    ensures Inv(Init(now, table))
  {
  }

  // ------------------------------------------------------------------
  // Fifteen seconds, and no less
  // ------------------------------------------------------------------

  /** However operations overlap, on however many replicas, and even if every
      invalidation were lost: each answer was the query's answer at some moment
      less than 15 seconds before it was given. */
  lemma AnswersAreRecent(now: int, table: Table, schedule: seq<Action>, t: nat)
    requires var z := Run(Init(now, table), schedule);
             t in z.threads && z.threads[t].Answered? && z.threads[t].result.Some?
    ensures var z := Run(Init(now, table), schedule);
            exists m :: z.threads[t].at - 15_000_000_000 < m <= z.threads[t].at
                        && RightAt(z.history, z.threads[t].key, z.threads[t].result.value, m)
  {
    var z := Run(Init(now, table), schedule);
    InitInv(now, table);
    RunInv(Init(now, table), schedule);
    assert ThreadOk(z, z.threads[t]);
  }

  // The bound is tight: a query runs, a write follows at once, the flight lands at
  // its deadline, and a second reader is served from the cache just before expiry.

  const FLOOR: Key := FloorMapKey(1)
  const F: FlightId := FlightId(0, FLOOR)
  const SPOT: SpotRow := SpotRow("s", 1, 1, CAR, "F1-C-001", AVAILABLE)

  lemma {:induction false} Extend(s: State, schedule: seq<Action>, z: State, a: Action) returns (longer: seq<Action>)
    requires s.history != [] && z.history != [] && Run(s, schedule) == z
    ensures Run(s, longer) == Step(z, a)
    decreases |schedule|
  {
    longer := schedule + [a];
    if schedule != [] {
      var rest := Extend(Step(s, schedule[0]), schedule[1..], z, a);
      longer := [schedule[0]] + rest;
      assert longer[1..] == rest;
    }
  }

  /** The flight of the first reader fetches an empty floor. */
  lemma EmptyFetched() returns (schedule: seq<Action>)
    ensures Run(Init(0, map[]), schedule)
            == Init(0, map[]).(threads := map[0 := Waiting(F)], flights := map[F := Fetched(0, Spots([]), 0)])
  {
    var s0 := Init(0, map[]);
    schedule := Extend(s0, [], s0, Get(0, 0, FLOOR, true));
    var s1 := s0.(threads := map[0 := Missed(F)]);
    schedule := Extend(s0, schedule, s1, Join(0));
    var s2 := s1.(threads := map[0 := Waiting(F)], flights := map[F := Querying(0)]);
    assert IsFloorMap(map[], 1, []);
    schedule := Extend(s0, schedule, s2, Fetch(F, Some(Spots([]))));
    assert s2.flights[F := Fetched(0, Spots([]), 0)] == map[F := Fetched(0, Spots([]), 0)];
  }

  /** It lands ten seconds after a spot appeared there. */
  lemma LateLanding() returns (schedule: seq<Action>, z: State)
    ensures Run(Init(0, map[]), schedule) == z
    ensures z.now == FLIGHT_TIMEOUT && z.history == [Snapshot(0, map[]), Snapshot(0, map["s" := SPOT])]
    ensures z.cache == map[FLOOR := Entry(Spots([]), MAX_AGE, 0)] && z.flights == map[] && z.threads.Keys == {0}
  {
    hide Run, Answers;
    var s0 := Init(0, map[]);
    schedule := EmptyFetched();
    var s3 := s0.(threads := map[0 := Waiting(F)], flights := map[F := Fetched(0, Spots([]), 0)]);
    schedule := Extend(s0, schedule, s3, Write(map["s" := SPOT]));
    var s4 := s3.(history := [Snapshot(0, map[]), Snapshot(0, map["s" := SPOT])]);
    schedule := Extend(s0, schedule, s4, Tick(FLIGHT_TIMEOUT));
    var s5 := s4.(now := FLIGHT_TIMEOUT);
    schedule := Extend(s0, schedule, s5, Store(F, true));
    var s6 := s5.(flights := map[F := Stored(0, Spots([]), 0)], cache := map[FLOOR := Entry(Spots([]), MAX_AGE, 0)]);
    assert Step(s5, Store(F, true)) == s6;
    schedule := Extend(s0, schedule, s6, Land(F));
    z := Step(s6, Land(F));
  }

  /** No bound below 15 seconds would do: some answer is given 15 seconds less a
      nanosecond after the last moment at which it was right. */
  lemma BoundIsTight()
    ensures exists schedule :: var z := Run(Init(0, map[]), schedule);
              && 1 in z.threads && z.threads[1] == Answered(FLOOR, Some(Spots([])), 14_999_999_999)
              && forall m :: RightAt(z.history, FLOOR, Spots([]), m) ==> m <= 0
  {
    var schedule, s7 := LateLanding();
    schedule := Extend(Init(0, map[]), schedule, s7, Tick(SearchCache.CACHE_TTL - 1));
    var s8 := s7.(now := MAX_AGE - 1);
    schedule := Extend(Init(0, map[]), schedule, s8, Get(1, 0, FLOOR, true));
    var z := Run(Init(0, map[]), schedule);
    forall m | RightAt(z.history, FLOOR, Spots([]), m)
      ensures m <= 0
    {
      var i :| InForce(z.history, i, m) && Answers(z.history[i].table, FLOOR, Spots([]));
      assert InTable(map["s" := SPOT], SPOT) && SPOT !in [];
    }
  }
}
