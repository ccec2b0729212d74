/** What one event does to the bounded timeline store: which turns leave it when a timeline is
    stored, resolved or cleared, and which timelines stay stored over a run. */
module TimelineCalls {
  import opened OrderedMap
  import opened TimelineBuffer
  import opened TimelineStore
  import opened TimelineRuns

  ghost predicate StoredInv(s: Store) {
    Distinct(s.stored) && |s.stored| <= MOBILE_TIMELINE_TURN_LIMIT
  }

  /** The turn shows neither items nor evicted ids. */
  predicate Forgotten(s: Store, key: TurnKey) {
    key !in s.order && key !in s.turns
  }

  predicate SameTurn(before: Store, after: Store, key: TurnKey) {
    && (key in after.order <==> key in before.order) && (key in after.turns <==> key in before.turns)
    && after.Get(key) == before.Get(key)
  }

  /** The least recently stored timeline gives way, or none. */
  lemma OutdatedIff(s: Store, turn: TurnKey)
    requires StoredInv(s)
    ensures Outdated(s, turn) == if turn in s.stored || |s.stored| < 500 then [] else [s.stored[0]]
    ensures Touch(s.stored, turn, 500)
         == if turn in s.stored || |s.stored| < 500 then Without(s.stored, turn) + [turn] else s.stored[1..] + [turn]
  {
    WithoutDistinct(s.stored, turn);
    if turn !in s.stored {
      WithoutAbsent(s.stored, turn);
    }
  }

  lemma ForgetMeans(s: Store, keys: seq<TurnKey>, after: Store)
    requires after.order == Forget(s, keys).order && after.turns == Forget(s, keys).turns
    ensures forall k :: k in keys ==> Forgotten(after, k)
    ensures forall k :: k !in keys ==> SameTurn(s, after, k)
  {
    WithoutAllMembership(s.order, keys);
  }

  /** Storing a timeline makes it the most recent one. Beyond 500 the least recently stored timeline
      goes, and its turn is forgotten; every other turn stays. */
  lemma StoresMeans(s: Store, turn: TurnKey)
    requires StoredInv(s)
    ensures var after := StepStore(s, Stores(turn));
      if turn in s.stored || |s.stored| < 500 then
        && after.order == s.order && after.turns == s.turns
        && after.stored == Without(s.stored, turn) + [turn]
      else
        && after.stored == s.stored[1..] + [turn] && Forgotten(after, s.stored[0])
        && forall k :: k != s.stored[0] ==> SameTurn(s, after, k)
  {
    OutdatedIff(s, turn);
    ForgetMeans(s, Outdated(s, turn), StepStore(s, Stores(turn)));
    assert s.turns - SetOf<TurnKey>([]) == s.turns;
  }

  lemma {:induction false} WithoutAbsent(order: seq<TurnKey>, key: TurnKey)
    requires key !in order
    ensures Without(order, key) == order
  {
    if order != [] {
      WithoutAbsent(order[1..], key);
      assert order == [order[0]] + order[1..];
    }
  }

  lemma {:induction false} WithoutAllMembership(order: seq<TurnKey>, keys: seq<TurnKey>)
    ensures forall k :: k in WithoutAll(order, keys) <==> k in order && k !in keys
  {
    if keys != [] {
      var n := |keys| - 1;
      WithoutAllMembership(order, keys[..n]);
      WithoutMembership(WithoutAll(order, keys[..n]), keys[n]);
      assert keys == keys[..n] + [keys[n]];
    }
  }

  /** Clearing takes the turns and their timelines out, and nothing else. */
  lemma ClearsMeans(s: Store, keys: seq<TurnKey>)
    ensures var after := StepStore(s, Clears(keys));
      && (forall k :: k in keys ==> Forgotten(after, k) && k !in after.stored)
      && (forall k :: k !in keys ==> SameTurn(s, after, k) && (k in after.stored <==> k in s.stored))
  {
    ForgetMeans(s, keys, StepStore(s, Clears(keys)));
    WithoutAllMembership(s.stored, keys);
  }

  /** Resolving a turn forgets it under all its identities and stores its timeline; of the other
      turns at most one is forgotten, the one whose timeline goes. */
  lemma ResolvesMeans(s: Store, identities: seq<TurnKey>, turn: TurnKey)
    requires StoredInv(s)
    ensures var after := StepStore(s, Resolves(identities, turn));
      && (forall k :: k in identities ==> Forgotten(after, k))
      && after.stored == StepStore(s, Stores(turn)).stored
      && (forall k :: k !in identities ==> SameTurn(StepStore(s, Stores(turn)), after, k))
  {
    var forgotten, stores, after := Forget(s, identities), StepStore(s, Stores(turn)), StepStore(s, Resolves(identities, turn));
    ForgetMeans(s, identities, forgotten);
    ForgetMeans(s, Outdated(s, turn), stores);
    ForgetMeans(forgotten, Outdated(forgotten, turn), after);
    assert Outdated(forgotten, turn) == Outdated(s, turn);
    forall k | k !in identities ensures SameTurn(stores, after, k) {
      if k in Outdated(s, turn) {
        assert Forgotten(stores, k) && Forgotten(after, k);
      } else {
        assert SameTurn(s, stores, k) && SameTurn(s, forgotten, k) && SameTurn(forgotten, after, k);
      }
    }
  }

  /** A turn whose timeline leaves the store is forgotten with it, whatever the event. */
  lemma LeavesTogether(s: Store, e: StoreEvent, key: TurnKey)
    requires StoredInv(s) && key in s.stored && key !in StepStore(s, e).stored
    ensures Forgotten(StepStore(s, e), key)
  {
    match e
    case Arrives(_, _) => assert false;
    case Resolves(identities, turn) =>
      ResolvesMeans(s, identities, turn);
      StoredLeaves(s, turn, key);
    case Stores(turn) => StoredLeaves(s, turn, key);
    case Clears(keys) => ClearsMeans(s, keys);
  }

  lemma StoredLeaves(s: Store, turn: TurnKey, key: TurnKey)
    requires StoredInv(s) && key in s.stored && key !in StepStore(s, Stores(turn)).stored
    ensures Forgotten(StepStore(s, Stores(turn)), key)
  {
    StoresMeans(s, turn);
    WithoutMembership(s.stored, turn);
    assert turn !in s.stored && |s.stored| >= 500;
    assert s.stored == [s.stored[0]] + s.stored[1..];
  }

  // ----------------------------------------------------------------- over runs

  /** The turns whose timelines the run stores, in order. */
  function TimelinesOf(events: seq<StoreEvent>): seq<TurnKey> {
    if events == [] then []
    else
      TimelinesOf(events[..|events| - 1])
      + match events[|events| - 1] {
          case Resolves(_, turn) => [turn]
          case Stores(turn) => [turn]
          case _ => []
        }
  }

  /** As long as nothing is cleared, the stored timelines are the 500 most recently stored of the
      whole run. */
  lemma StoresMostRecent(events: seq<StoreEvent>)
    requires forall e :: e in events ==> !e.Clears?
    ensures RunStore(events).stored == LastN(Recency(TimelinesOf(events)), 500)
  {
    StoredAreKept(events);
    KeptIsMostRecent(TimelinesOf(events), MOBILE_TIMELINE_TURN_LIMIT);
  }

  lemma StoredAfter(s: Store, e: StoreEvent)
    requires !e.Clears?
    ensures StepStore(s, e).stored == if e.Arrives? then s.stored else Touch(s.stored, e.turn, MOBILE_TIMELINE_TURN_LIMIT)
  {
  }

  lemma {:induction false} StoredAreKept(events: seq<StoreEvent>)
    requires forall e :: e in events ==> !e.Clears?
    ensures RunStore(events).stored == Kept(TimelinesOf(events), MOBILE_TIMELINE_TURN_LIMIT)
  {
    if events != [] {
      var front, last := events[..|events| - 1], events[|events| - 1];
      StoredAreKept(front);
      StoredAfter(RunStore(front), last);
      if last.Arrives? {
        assert TimelinesOf(events) == TimelinesOf(front);
      } else {
        KeptSnoc(TimelinesOf(front), last.turn);
      }
    }
  }

  lemma {:induction false} StoredStaysValid(events: seq<StoreEvent>)
    ensures StoredInv(RunStore(events))
  {
    if events != [] {
      var front, last := events[..|events| - 1], events[|events| - 1];
      StoredStaysValid(front);
      var stored := RunStore(front).stored;
      match last
      case Arrives(_, _) =>
      case Clears(keys) => WithoutAllDistinct(stored, keys);
      case _ =>
        TouchKeys(stored, last.turn);
        DistinctLastN(Without(stored, last.turn) + [last.turn], MOBILE_TIMELINE_TURN_LIMIT);
    }
  }
}
