/** The maps of live timeline items, evicted ids and stored timelines that `MobileAiSessionStore`
    updates in place (apps/mobile/src/ai-sessions/store.ts). */
module TimelineStore {
  import opened OrderedMap
  import opened TimelineBuffer

  // ------------------------------------------------------------- specification

  /** The turns with live items, least recently changed first, and the turns whose timeline is
      stored, least recently stored first. */
  datatype Store = Store(order: seq<TurnKey>, turns: map<TurnKey, Turn>, stored: seq<TurnKey>) {
    function Get(key: TurnKey): Turn {
      if key in turns then turns[key] else EMPTY_TURN
    }
  }

  datatype StoreEvent =
    | Arrives(key: TurnKey, item: Item)
    | Resolves(identities: seq<TurnKey>, turn: TurnKey)
    | Stores(turn: TurnKey)
    | Clears(keys: seq<TurnKey>)

  /** Moves `key` to the end of the recency order and keeps the last `limit` keys. */
  function Touch(order: seq<TurnKey>, key: TurnKey, limit: nat): seq<TurnKey> {
    LastN(Without(order, key) + [key], limit)
  }

  function WithoutAll(order: seq<TurnKey>, keys: seq<TurnKey>): seq<TurnKey> {
    if keys == [] then order else Without(WithoutAll(order, keys[..|keys| - 1]), keys[|keys| - 1])
  }

  predicate Ignored(s: Store, key: TurnKey, item: Item) {
    item.id in s.Get(key).evicted
  }

  /** The oldest turn beyond the limit loses its live items and its evicted ids. */
  function Trim(s: Store): Store {
    if |s.order| <= MOBILE_TIMELINE_TURN_LIMIT then s
    else s.(order := s.order[1..], turns := s.turns - {s.order[0]})
  }

  /** `applyTimelineItem`: a remembered evicted id is ignored; otherwise the turn changes by
      `TurnPut`, becomes the most recent turn, and the oldest turn beyond 500 is dropped. */
  function Arrive(s: Store, key: TurnKey, item: Item): Store {
    if Ignored(s, key, item) then s
    else Trim(s.(order := Without(s.order, key) + [key], turns := s.turns[key := TurnPut(s.Get(key), item)]))
  }

  function Forget(s: Store, keys: seq<TurnKey>): Store {
    s.(order := WithoutAll(s.order, keys), turns := s.turns - SetOf(keys))
  }

  /** The turn whose stored timeline is dropped when another one is stored beyond 500. */
  function Outdated(s: Store, turn: TurnKey): seq<TurnKey> {
    var grown := Without(s.stored, turn) + [turn];
    if |grown| <= MOBILE_TIMELINE_TURN_LIMIT then [] else [grown[0]]
  }

  /** `setTurnTimeline`: the outdated turn also loses its live items and evicted ids. */
  function SetStored(s: Store, turn: TurnKey): Store {
    Forget(s, Outdated(s, turn)).(stored := Touch(s.stored, turn, MOBILE_TIMELINE_TURN_LIMIT))
  }

  function StepStore(s: Store, e: StoreEvent): Store {
    match e
    case Arrives(key, item) => Arrive(s, key, item)
    case Resolves(identities, turn) => SetStored(Forget(s, identities), turn)
    case Stores(turn) => SetStored(s, turn)
    case Clears(keys) => Forget(s, keys).(stored := WithoutAll(s.stored, keys))
  }

  const EMPTY_STORE := Store([], map[], [])

  // ------------------------------------------------------------ implementation

  function TurnAt(live: map<TurnKey, OMap<ItemId, Item>>, evicted: map<TurnKey, seq<ItemId>>, key: TurnKey): Turn {
    Turn(if key in live then live[key] else Empty(), if key in evicted then evicted[key] else [])
  }

  /** What the two maps hold together. */
  function TurnsOf(live: map<TurnKey, OMap<ItemId, Item>>, evicted: map<TurnKey, seq<ItemId>>): map<TurnKey, Turn> {
    map k | k in live :: TurnAt(live, evicted, k)
  }

  ghost predicate MapsValid(live: map<TurnKey, OMap<ItemId, Item>>, evicted: map<TurnKey, seq<ItemId>>) {
    evicted.Keys <= live.Keys && forall key :: key in live ==> TurnAt(live, evicted, key).Valid()
  }

  lemma DeleteForgets(live: map<TurnKey, OMap<ItemId, Item>>, evicted: map<TurnKey, seq<ItemId>>, key: TurnKey)
    ensures TurnsOf(live - {key}, evicted - {key}) == TurnsOf(live, evicted) - {key}
    ensures MapsValid(live, evicted) ==> MapsValid(live - {key}, evicted - {key})
  {
  }

  /** `after` holds the evicted ids of `t` for `key`, and those of `before` for all other turns. */
  predicate Remembers(before: map<TurnKey, seq<ItemId>>, after: map<TurnKey, seq<ItemId>>, key: TurnKey, t: Turn) {
    after == before[key := t.evicted] || (after == before && t.evicted == if key in before then before[key] else [])
  }

  lemma PutTurnAt(live: map<TurnKey, OMap<ItemId, Item>>, before: map<TurnKey, seq<ItemId>>, after: map<TurnKey, seq<ItemId>>,
                  key: TurnKey, t: Turn, k: TurnKey)
    requires Remembers(before, after, key, t)
    ensures TurnAt((live - {key})[key := t.items], after, k) == if k == key then t else TurnAt(live, before, k)
  {
  }

  lemma PutStores(live: map<TurnKey, OMap<ItemId, Item>>, before: map<TurnKey, seq<ItemId>>, after: map<TurnKey, seq<ItemId>>,
                  key: TurnKey, t: Turn)
    requires Remembers(before, after, key, t)
    ensures TurnsOf((live - {key})[key := t.items], after) == TurnsOf(live, before)[key := t]
  {
    var now := TurnsOf((live - {key})[key := t.items], after);
    forall k | k in now ensures now[k] == if k == key then t else TurnAt(live, before, k) {
      PutTurnAt(live, before, after, key, t, k);
    }
    SameTurns(now, TurnsOf(live, before)[key := t]);
  }

  lemma PutKeepsMaps(live: map<TurnKey, OMap<ItemId, Item>>, before: map<TurnKey, seq<ItemId>>, after: map<TurnKey, seq<ItemId>>,
                     key: TurnKey, t: Turn)
    requires Remembers(before, after, key, t) && MapsValid(live, before) && t.Valid()
    ensures MapsValid((live - {key})[key := t.items], after)
  {
    var now := (live - {key})[key := t.items];
    forall k | k in now ensures TurnAt(now, after, k).Valid() {
      PutTurnAt(live, before, after, key, t, k);
    }
  }

  lemma SameTurns(a: map<TurnKey, Turn>, b: map<TurnKey, Turn>)
    requires a.Keys == b.Keys && forall k :: k in a ==> a[k] == b[k]
    ensures a == b
  {
  }

  class MobileTimelineStore {
    var live: OMap<TurnKey, OMap<ItemId, Item>>
    var evicted: map<TurnKey, seq<ItemId>>
    var stored: seq<TurnKey>

    ghost predicate Valid()
      reads this
    {
      && TurnsValid()
      && |live.order| <= MOBILE_TIMELINE_TURN_LIMIT
      && Distinct(stored) && |stored| <= MOBILE_TIMELINE_TURN_LIMIT
    }

    function State(): Store
      reads this
    {
      Store(live.order, TurnsOf(live.content, evicted), stored)
    }

    ghost predicate TurnsValid()
      reads `live, `evicted
    {
      live.Valid() && MapsValid(live.content, evicted)
    }

    function TurnState(key: TurnKey): Turn
      reads `live, `evicted
    {
      TurnAt(live.content, evicted, key)
    }

    constructor ()
      ensures Valid() && State() == EMPTY_STORE
    {
      live := Empty();
      evicted := map[];
      stored := [];
    }

    method ApplyTimelineItem(key: TurnKey, item: Item)
      requires Valid()
      modifies this
      ensures Valid()
      ensures State() == StepStore(old(State()), Arrives(key, item))
    {
      var before := TurnState(key);
      if item.id in before.evicted {
        return;
      }
      PutKeepsValid(before, item);
      var items, remembered := EvictBeyondLimit(before.items.Put(item.id, item), before.evicted);
      StoreTurn(key, items, remembered);
      DropOldestTurns();
    }

    /** `evictedTimelineItemIds.set`, then `liveTimelineItems.delete` and `set`: the turn becomes
        the last one in Map order. */
    method StoreTurn(key: TurnKey, items: OMap<ItemId, Item>, remembered: seq<ItemId>)
      requires TurnsValid() && Turn(items, remembered).Valid()
      modifies this`live, this`evicted
      ensures TurnsValid() && |live.order| <= |old(live.order)| + 1
      ensures State() == old(State()).(order := Without(old(live.order), key) + [key],
                                       turns := old(State()).turns[key := Turn(items, remembered)])
    {
      ghost var before := evicted;
      if remembered != TurnState(key).evicted {
        evicted := evicted[key := remembered];
      }
      PutStores(live.content, before, evicted, key, Turn(items, remembered));
      PutKeepsMaps(live.content, before, evicted, key, Turn(items, remembered));
      live := live.Delete(key).Put(key, items);
    }

    /** `while (items.size > LIMIT)`: moves the oldest ids from the items to the evicted ids. */
    static method EvictBeyondLimit(grown: OMap<ItemId, Item>, evictedIds: seq<ItemId>)
      returns (items: OMap<ItemId, Item>, remembered: seq<ItemId>)
      requires grown.Valid() && |grown.order| <= MOBILE_TIMELINE_ITEMS_PER_TURN + 1
      requires |evictedIds| <= MOBILE_TIMELINE_ITEMS_PER_TURN
      ensures Turn(items, remembered) == (if |grown.order| <= MOBILE_TIMELINE_ITEMS_PER_TURN
                                          then Turn(grown, evictedIds) else EvictOldest(Turn(grown, evictedIds)))
    {
      items, remembered := grown, evictedIds;
      while |items.order| > MOBILE_TIMELINE_ITEMS_PER_TURN
        invariant items.Valid()
        invariant |items.order| > MOBILE_TIMELINE_ITEMS_PER_TURN ==>
          Turn(items, remembered) == Turn(grown, evictedIds)
        invariant |items.order| <= MOBILE_TIMELINE_ITEMS_PER_TURN ==>
          Turn(items, remembered) == (if |grown.order| <= MOBILE_TIMELINE_ITEMS_PER_TURN
                                      then Turn(grown, evictedIds) else EvictOldest(Turn(grown, evictedIds)))
        decreases |items.order|
      {
        var oldest := items.order[0];
        WithoutDistinct(items.order, oldest);
        items := items.Delete(oldest);
        remembered := RememberEvicted(remembered, oldest);
      }
    }

    /** `evicted.add(itemId)` and its bounding loop. */
    static method RememberEvicted(evictedIds: seq<ItemId>, id: ItemId) returns (remembered: seq<ItemId>)
      requires |evictedIds| <= MOBILE_TIMELINE_ITEMS_PER_TURN
      ensures remembered == AddEvicted(evictedIds, id)
    {
      var added := if id in evictedIds then evictedIds else evictedIds + [id];
      remembered := added;
      while |remembered| > MOBILE_TIMELINE_ITEMS_PER_TURN
        invariant remembered == added || remembered == LastN(added, MOBILE_TIMELINE_ITEMS_PER_TURN)
      {
        remembered := remembered[1..];
      }
    }

    /** `while (liveTimelineItems.size > LIMIT)`: drops the oldest turns and their evicted ids. */
    method DropOldestTurns()
      requires TurnsValid() && |live.order| <= MOBILE_TIMELINE_TURN_LIMIT + 1
      modifies this`live, this`evicted
      ensures TurnsValid() && |live.order| <= MOBILE_TIMELINE_TURN_LIMIT
      ensures State() == Trim(old(State()))
    {
      while |live.order| > MOBILE_TIMELINE_TURN_LIMIT
        invariant TurnsValid() && |live.order| <= MOBILE_TIMELINE_TURN_LIMIT + 1
        invariant |live.order| > MOBILE_TIMELINE_TURN_LIMIT ==> State() == old(State())
        invariant |live.order| <= MOBILE_TIMELINE_TURN_LIMIT ==> State() == Trim(old(State()))
        decreases |live.order|
      {
        WithoutHead(live.order);
        ForgetTurn(live.order[0]);
      }
    }

    method ResolveTurnTimeline(identities: seq<TurnKey>, turn: TurnKey)
      requires Valid()
      modifies this
      ensures Valid()
      ensures State() == StepStore(old(State()), Resolves(identities, turn))
    {
      ForgetTurns(identities);
      SetTurnTimeline(turn);
    }

    /** `timelineStates.delete` and `set`, then its bounding loop. */
    method SetTurnTimeline(turn: TurnKey)
      requires Valid()
      modifies this
      ensures Valid()
      ensures State() == StepStore(old(State()), Stores(turn))
    {
      StoredGrows(stored, turn);
      ForgetNone(State());
      ghost var was, outdated := State(), Outdated(State(), turn);
      stored := Without(stored, turn) + [turn];
      while |stored| > MOBILE_TIMELINE_TURN_LIMIT
        invariant TurnsValid() && |live.order| <= MOBILE_TIMELINE_TURN_LIMIT
        invariant |stored| > MOBILE_TIMELINE_TURN_LIMIT ==>
          State() == was.(stored := Without(was.stored, turn) + [turn])
        invariant |stored| <= MOBILE_TIMELINE_TURN_LIMIT ==>
          State() == Forget(was, outdated).(stored := Touch(was.stored, turn, MOBILE_TIMELINE_TURN_LIMIT))
        decreases |stored|
      {
        var oldest := stored[0];
        stored := stored[1..];
        ForgetTurns([oldest]);
      }
    }

    /** The loop of `resolveTurnTimeline`: forgets the live items and evicted ids of a turn's
        identities. */
    method ForgetTurns(keys: seq<TurnKey>)
      requires TurnsValid()
      modifies this`live, this`evicted
      ensures TurnsValid() && |live.order| <= |old(live.order)|
      ensures State() == Forget(old(State()), keys)
    {
      ForgetNone(State());
      for i := 0 to |keys|
        invariant TurnsValid() && |live.order| <= |old(live.order)|
        invariant State() == Forget(old(State()), keys[..i])
      {
        ForgetTurn(keys[i]);
        ForgetOneMore(old(State()), keys[..i], keys[i]);
        assert keys[..i + 1] == keys[..i] + [keys[i]];
      }
      assert keys[..|keys|] == keys;
    }

    method ForgetTurn(key: TurnKey)
      requires TurnsValid()
      modifies this`live, this`evicted
      ensures TurnsValid() && |live.order| <= |old(live.order)|
      ensures State() == old(State()).(order := Without(old(live.order), key), turns := old(State()).turns - {key})
    {
      DeleteForgets(live.content, evicted, key);
      live := live.Delete(key);
      evicted := evicted - {key};
    }

    method ClearTurns(keys: seq<TurnKey>)
      requires Valid()
      modifies this
      ensures Valid()
      ensures State() == StepStore(old(State()), Clears(keys))
    {
      ForgetTurns(keys);
      WithoutAllDistinct(stored, keys);
      stored := WithoutAll(stored, keys);
    }
  }

  lemma StoredGrows(stored: seq<TurnKey>, turn: TurnKey)
    requires Distinct(stored) && |stored| <= MOBILE_TIMELINE_TURN_LIMIT
    ensures var grown := Without(stored, turn) + [turn];
      && Distinct(grown) && |grown| <= MOBILE_TIMELINE_TURN_LIMIT + 1
      && Distinct(LastN(grown, MOBILE_TIMELINE_TURN_LIMIT))
  {
    WithoutDistinct(stored, turn);
    WithoutMembership(stored, turn);
    DistinctSnoc(Without(stored, turn), turn);
    DistinctLastN(Without(stored, turn) + [turn], MOBILE_TIMELINE_TURN_LIMIT);
  }

  lemma ForgetNone(s: Store)
    ensures Forget(s, []) == s
  {
    assert s.turns - SetOf<TurnKey>([]) == s.turns;
  }

  lemma ForgetOneMore(s: Store, keys: seq<TurnKey>, key: TurnKey)
    ensures Forget(s, keys + [key])
         == s.(order := Without(Forget(s, keys).order, key), turns := Forget(s, keys).turns - {key})
  {
    assert (keys + [key])[..|keys|] == keys;
    assert s.turns - SetOf(keys + [key]) == s.turns - SetOf(keys) - {key};
  }

  lemma {:induction false} WithoutAllDistinct(order: seq<TurnKey>, keys: seq<TurnKey>)
    requires Distinct(order)
    ensures Distinct(WithoutAll(order, keys)) && |WithoutAll(order, keys)| <= |order|
    ensures forall k :: k in WithoutAll(order, keys) <==> k in order && k !in keys
  {
    if keys != [] {
      var n := |keys| - 1;
      WithoutAllDistinct(order, keys[..n]);
      WithoutDistinct(WithoutAll(order, keys[..n]), keys[n]);
      WithoutMembership(WithoutAll(order, keys[..n]), keys[n]);
      assert keys == keys[..n] + [keys[n]];
    }
  }

  lemma PutKeepsValid(t: Turn, item: Item)
    requires t.Valid()
    ensures TurnPut(t, item).Valid()
  {
    if item.id !in t.evicted {
      var grown := t.items.Put(item.id, item);
      if |grown.order| > MOBILE_TIMELINE_ITEMS_PER_TURN {
        WithoutDistinct(grown.order, grown.order[0]);
      }
    }
  }

  // ------------------------------------------------------------ recency order

  /** All turns ever touched, least recently touched first. */
  function Recency(keys: seq<TurnKey>): seq<TurnKey> {
    if keys == [] then []
    else Without(Recency(keys[..|keys| - 1]), keys[|keys| - 1]) + [keys[|keys| - 1]]
  }

  /** What the bounded map keeps after the same touches. */
  function Kept(keys: seq<TurnKey>, limit: nat): seq<TurnKey> {
    if keys == [] then []
    else Touch(Kept(keys[..|keys| - 1], limit), keys[|keys| - 1], limit)
  }

  /** Dropping the oldest turn one touch at a time keeps exactly the `limit` most recently
      touched turns of the whole run. */
  lemma {:induction false} KeptIsMostRecent(keys: seq<TurnKey>, limit: nat)
    requires limit > 0
    ensures Distinct(Recency(keys))
    ensures Kept(keys, limit) == LastN(Recency(keys), limit)
  {
    if keys != [] {
      var front, key := keys[..|keys| - 1], keys[|keys| - 1];
      KeptIsMostRecent(front, limit);
      var all := Recency(front);
      WithoutDistinct(all, key);
      WithoutMembership(all, key);
      DistinctSnoc(Without(all, key), key);
      TouchOfLast(all, key, limit);
    }
  }

  lemma TouchOfLast(all: seq<TurnKey>, key: TurnKey, limit: nat)
    requires limit > 0 && Distinct(all)
    ensures Touch(LastN(all, limit), key, limit) == LastN(Without(all, key) + [key], limit)
  {
    if |all| > limit {
      var dropped, kept := all[..|all| - limit], all[|all| - limit..];
      assert all == dropped + kept;
      DistinctParts(dropped, kept);
      WithoutConcat(dropped, kept, key);
      if key in kept {
        TouchKept(dropped, kept, key, limit);
      } else {
        TouchDropped(dropped, kept, key, limit);
      }
    }
  }

  lemma TouchKept(dropped: seq<TurnKey>, kept: seq<TurnKey>, key: TurnKey, limit: nat)
    requires limit > 0 && |kept| == limit && Distinct(kept) && key in kept && key !in dropped
    ensures Touch(kept, key, limit) == LastN(Without(dropped, key) + Without(kept, key) + [key], limit)
  {
    WithoutAbsent(dropped, key);
    WithoutDistinct(kept, key);
    LastNConcat(dropped, Without(kept, key) + [key], limit);
    assert dropped + Without(kept, key) + [key] == dropped + (Without(kept, key) + [key]);
  }

  lemma TouchDropped(dropped: seq<TurnKey>, kept: seq<TurnKey>, key: TurnKey, limit: nat)
    requires limit > 0 && |kept| == limit && key !in kept
    ensures Touch(kept, key, limit) == LastN(Without(dropped, key) + Without(kept, key) + [key], limit)
  {
    WithoutAbsent(kept, key);
    LastNConcat(Without(dropped, key), kept + [key], limit);
    assert Without(dropped, key) + kept + [key] == Without(dropped, key) + (kept + [key]);
  }

  lemma LastNConcat<T>(a: seq<T>, b: seq<T>, n: nat)
    requires |b| >= n
    ensures LastN(a + b, n) == LastN(b, n)
  {
  }

  lemma {:induction false} WithoutConcat<T>(a: seq<T>, b: seq<T>, x: T)
    ensures Without(a + b, x) == Without(a, x) + Without(b, x)
  {
    if a == [] {
      assert a + b == b;
    } else {
      assert (a + b)[1..] == a[1..] + b;
      WithoutConcat(a[1..], b, x);
    }
  }
}
