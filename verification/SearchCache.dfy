/** The search service between its read model and its cache, one operation at a
    time: which cached answers are still right after each. */
module SearchCache {
  import opened Wrappers
  import opened SearchModel

  /** Five seconds. */
  const CACHE_TTL: int := 5_000_000_000

  datatype Entry = Entry(answer: Answer, expiresAt: int)

  predicate KindOk(key: Key, a: Answer) {
    key.AvailabilityKey? <==> a.Floors?
  }

  predicate Accepts(t: Table, row: SpotRow) {
    Admissible(row) && forall id :: id in t && t[id].code == row.code ==> id == row.id
  }

  /** The keys that HandleSpotUpdated deletes, in order. */
  function KeysOf(spot: SpotRow): seq<Key> {
    [AvailabilityKey(spot.vehicleType), FloorMapKey(spot.floor)]
  }

  /** The first n deletions, as far as they take effect. */
  function Invalidated(spot: SpotRow, deletes: seq<Write>, n: nat): set<Key>
    requires n <= |deletes| == 2
  {
    set i | 0 <= i < n && deletes[i].TakesEffect() :: KeysOf(spot)[i]
  }

  /** The spot is new, or keeps its floor and its vehicle type. */
  predicate StaysInPlace(was: Option<SpotRow>, spot: SpotRow) {
    was.Some? ==> was.value.floor == spot.floor && was.value.vehicleType == spot.vehicleType
  }

  /** The unfiltered query is the one whose key no update ever deletes; the service's
      own handler does not ask it. */
  const UNFILTERED := AvailabilityKey("")

  class SearchService {
    var table: Table
    var cache: map<Key, Entry>
    var now: int

    predicate Valid()
      reads this
    {
      TableOk(table) && forall key :: key in cache ==> KindOk(key, cache[key].answer)
    }

    predicate Live(key: Key)
      reads this
    {
      key in cache && now < cache[key].expiresAt
    }

    ghost predicate Coherent(key: Key)
      reads this
    {
      Live(key) ==> Answers(table, key, cache[key].answer)
    }

    /** Every live entry that a caller can be served is the current query result. */
    ghost predicate AllCoherent()
      reads this
    {
      forall key :: key != UNFILTERED ==> Coherent(key)
    }

    constructor (start: int)
      ensures Valid() && table == map[] && cache == map[] && now == start && AllCoherent()
    {
      table, cache, now := map[], map[], start;
    }

    /** Time passes; entries only expire. */
    method Advance(dt: nat)
      requires Valid()
      modifies this`now
      ensures Valid() && now == old(now) + dt
      ensures forall key :: (Live(key) ==> old(Live(key))) && (old(Coherent(key)) ==> Coherent(key))
    {
      now := now + dt;
    }

    /** `readable`: the cache answers and its value decodes. `reply`: what the query
        returns, if it does not fail. */
    method GetAvailability(filter: string, readable: bool, reply: Option<seq<FloorAvailability>>, set_: Write)
      returns (r: Option<seq<FloorAvailability>>)
      requires Valid() && (reply.Some? ==> IsAvailability(table, filter, reply.value))
      modifies this`cache
      ensures Valid()
      ensures var key := AvailabilityKey(filter);
              if readable && old(Live(key)) then r == Some(old(cache)[key].answer.floors) && cache == old(cache)
              else r == reply
                   && cache == if reply.Some? && set_.TakesEffect()
                               then old(cache)[key := Entry(Floors(reply.value), now + 5_000_000_000)] else old(cache)
      ensures r.Some? && old(Coherent(AvailabilityKey(filter))) ==>
                IsAvailability(table, filter, r.value) && forall i, j :: 0 <= i < j < |r.value| ==> r.value[i].floor < r.value[j].floor
      ensures forall key :: old(Coherent(key)) ==> Coherent(key)
    {
      hide TableOk, IsAvailability, IsFloorMap;
      var key := AvailabilityKey(filter);
      if readable && key in cache && now < cache[key].expiresAt {
        if Answers(table, key, cache[key].answer) {
          AnswersInOrder(table, key, cache[key].answer);
        }
        return Some(cache[key].answer.floors);
      }
      if reply.None? {
        return None;
      }
      AnswersInOrder(table, key, Floors(reply.value));
      if set_.TakesEffect() {
        cache := cache[key := Entry(Floors(reply.value), now + CACHE_TTL)];
      }
      return reply;
    }

    method GetFloorMap(floor: int, readable: bool, reply: Option<seq<SpotRow>>, set_: Write)
      returns (r: Option<seq<SpotRow>>)
      requires Valid() && (reply.Some? ==> IsFloorMap(table, floor, reply.value))
      modifies this`cache
      ensures Valid()
      ensures var key := FloorMapKey(floor);
              if readable && old(Live(key)) then r == Some(old(cache)[key].answer.spots) && cache == old(cache)
              else r == reply
                   && cache == if reply.Some? && set_.TakesEffect()
                               then old(cache)[key := Entry(Spots(reply.value), now + 5_000_000_000)] else old(cache)
      ensures r.Some? && old(Coherent(FloorMapKey(floor))) ==>
                IsFloorMap(table, floor, r.value) && forall i, j :: 0 <= i < j < |r.value| ==> r.value[i].number <= r.value[j].number
      ensures forall key :: old(Coherent(key)) ==> Coherent(key)
    {
      hide TableOk, IsAvailability, IsFloorMap;
      var key := FloorMapKey(floor);
      if readable && key in cache && now < cache[key].expiresAt {
        if Answers(table, key, cache[key].answer) {
          AnswersInOrder(table, key, cache[key].answer);
        }
        return Some(cache[key].answer.spots);
      }
      if reply.None? {
        return None;
      }
      AnswersInOrder(table, key, Spots(reply.value));
      if set_.TakesEffect() {
        cache := cache[key := Entry(Spots(reply.value), now + CACHE_TTL)];
      }
      return reply;
    }

    /** The table's constraints: five floors, two types of vehicle, three statuses, and
        no code twice. */
    method UpsertSpot(spot: SpotRow, write: Write) returns (ok: bool)
      requires Valid()
      modifies this`table
      ensures Valid()
      ensures Accepts(old(table), spot) <==>
              && 1 <= spot.floor <= 5 && spot.vehicleType in {"car", "motorcycle"}
              && spot.status in {"available", "reserved", "occupied"}
              && forall id :: id in old(table) && old(table)[id].code == spot.code ==> id == spot.id
      ensures ok == (write.Applied? && Accepts(old(table), spot))
      ensures table == if write.TakesEffect() && Accepts(old(table), spot) then old(table)[spot.id := spot] else old(table)
    {
      ok := false;
      if Admissible(spot) && forall id :: id in table && table[id].code == spot.code ==> id == spot.id {
        if write.TakesEffect() {
          table := table[spot.id := spot];
        }
        ok := write.Applied?;
      }
    }

    /** The row changes first, then two cache keys are deleted; a failed deletion is
        only logged. What was coherent and was not deleted stays coherent exactly if
        the query does not see the change. */
    method HandleSpotUpdated(spot: SpotRow, write: Write, deletes: seq<Write>) returns (ok: bool)
      requires Valid() && |deletes| == 2
      modifies this`table, this`cache
      ensures Valid()
      ensures ok == (write.Applied? && Accepts(old(table), spot))
      ensures table == if write.TakesEffect() && Accepts(old(table), spot) then old(table)[spot.id := spot] else old(table)
      ensures forall key :: key in cache <==>
                && key in old(cache)
                && !(ok && deletes[0].TakesEffect() && key == AvailabilityKey(spot.vehicleType))
                && !(ok && deletes[1].TakesEffect() && key == FloorMapKey(spot.floor))
      ensures forall key :: key in cache ==> cache[key] == old(cache)[key]
      ensures write.TakesEffect() && Accepts(old(table), spot) ==>
                forall key :: old(Live(key) && Coherent(key)) && key in cache ==>
                  (Coherent(key) <==> StaysCurrent(RowOf(old(table), spot.id), spot, key))
      ensures old(AllCoherent()) && (write.ReplyLost? ==> !Accepts(old(table), spot))
              && deletes[0].TakesEffect() && deletes[1].TakesEffect()
              && StaysInPlace(RowOf(old(table), spot.id), spot)
              ==> AllCoherent()
    {
      hide TableOk, IsAvailability, IsFloorMap;
      ghost var was, table0, cache0 := RowOf(table, spot.id), table, cache;
      ok := UpsertSpot(spot, write);
      if ok {
        var keys := KeysOf(spot);
        for i := 0 to |keys|
          invariant cache == cache0 - Invalidated(spot, deletes, i)
          invariant Valid() && table == table0[spot.id := spot]
        {
          if deletes[i].TakesEffect() {
            cache := cache - {keys[i]};
          }
        }
      }
      InvalidatedAre(spot, deletes);
      if write.TakesEffect() && Accepts(table0, spot) {
        forall key | key in cache0 && Answers(table0, key, cache0[key].answer)
          ensures Answers(table, key, cache0[key].answer) <==> StaysCurrent(was, spot, key)
        {
          UpsertKeepsExactly(table0, spot, key, cache0[key].answer);
        }
        if ok && deletes[0].TakesEffect() && deletes[1].TakesEffect() && StaysInPlace(was, spot) {
          assert KeysOf(spot)[0] in Invalidated(spot, deletes, 2) && KeysOf(spot)[1] in Invalidated(spot, deletes, 2);
          forall key | key != UNFILTERED && key in cache
            ensures StaysCurrent(was, spot, key)
          {
            KeptKeysDoNotSee(was, spot, key);
          }
        }
      }
    }
  }

  lemma InvalidatedAre(spot: SpotRow, deletes: seq<Write>)
    requires |deletes| == 2
    ensures forall key :: key in Invalidated(spot, deletes, 2) <==>
              || (deletes[0].TakesEffect() && key == AvailabilityKey(spot.vehicleType))
              || (deletes[1].TakesEffect() && key == FloorMapKey(spot.floor))
  {
    assert KeysOf(spot)[0] == AvailabilityKey(spot.vehicleType) && KeysOf(spot)[1] == FloorMapKey(spot.floor);
    forall key | (deletes[0].TakesEffect() && key == KeysOf(spot)[0]) || (deletes[1].TakesEffect() && key == KeysOf(spot)[1])
      ensures key in Invalidated(spot, deletes, 2)
    {
    }
  }

  /** Keys other than the two deleted ones and the unfiltered one do not select a
      spot that stays in place. */
  lemma KeptKeysDoNotSee(was: Option<SpotRow>, spot: SpotRow, key: Key)
    requires StaysInPlace(was, spot) && key !in KeysOf(spot) && key != UNFILTERED
    ensures StaysCurrent(was, spot, key)
  {
    assert KeysOf(spot)[0] == AvailabilityKey(spot.vehicleType) && KeysOf(spot)[1] == FloorMapKey(spot.floor);
  }

  /** Which answers outside the two deleted keys a fully successful update makes wrong:
      the unfiltered one if the spot is new, moves to another floor or type, or becomes
      or stops being available; and those of the floor and of the type that it left. */
  lemma WhatGoesStale(t: Table, spot: SpotRow, key: Key, a: Answer)
    requires TableOk(t) && Accepts(t, spot) && Answers(t, key, a) && key !in KeysOf(spot)
    ensures var was := RowOf(t, spot.id);
            !Answers(t[spot.id := spot], key, a) <==>
            || (key == UNFILTERED && (!StaysInPlace(was, spot) || was.None? || (was.value.status == AVAILABLE) != (spot.status == AVAILABLE)))
            || (was.Some? && key == FloorMapKey(was.value.floor))
            || (was.Some? && key == AvailabilityKey(was.value.vehicleType))
  {
    hide IsAvailability, IsFloorMap;
    assert KeysOf(spot)[0] == AvailabilityKey(spot.vehicleType) && KeysOf(spot)[1] == FloorMapKey(spot.floor);
    UpsertKeepsExactly(t, spot, key, a);
  }
}
