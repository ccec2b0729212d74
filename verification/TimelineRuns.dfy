/** Runs of the bounded timeline store: items of any turns arrive, turns are resolved, stored and
    cleared, and each turn is compared with its own unbounded history. */
module TimelineRuns {
  import opened OrderedMap
  import opened TimelineBuffer
  import opened TimelineStore

  function RunStore(events: seq<StoreEvent>): Store {
    if events == [] then EMPTY_STORE else StepStore(RunStore(events[..|events| - 1]), events[|events| - 1])
  }

  ghost predicate StoreInv(s: Store) {
    s.turns.Keys == SetOf(s.order) && Distinct(s.order) && |s.order| <= MOBILE_TIMELINE_TURN_LIMIT
  }

  lemma ForgetKeepsInv(s: Store, keys: seq<TurnKey>)
    requires StoreInv(s)
    ensures StoreInv(Forget(s, keys))
    ensures forall k :: k in Forget(s, keys).order <==> k in s.order && k !in keys
    ensures forall k :: k !in keys ==> Forget(s, keys).Get(k) == s.Get(k)
    ensures forall k :: k in keys ==> Forget(s, keys).Get(k) == EMPTY_TURN
  {
    WithoutAllDistinct(s.order, keys);
    assert SetOf(Forget(s, keys).order) == SetOf(s.order) - SetOf(keys);
  }

  lemma TouchKeys(order: seq<TurnKey>, key: TurnKey)
    requires Distinct(order)
    ensures var touched := Without(order, key) + [key];
      Distinct(touched) && |touched| <= |order| + 1 && forall k :: k in touched <==> k in order || k == key
  {
    WithoutDistinct(order, key);
    WithoutMembership(order, key);
    DistinctSnoc(Without(order, key), key);
  }

  lemma ArriveKeepsInv(s: Store, key: TurnKey, item: Item)
    requires StoreInv(s)
    ensures var after := Arrive(s, key, item);
      && StoreInv(after)
      && (key in after.order || Ignored(s, key, item)) && after.Get(key) == TurnPut(s.Get(key), item)
      && (forall k :: k in after.order ==> k in s.order || k == key)
      && (forall k :: k in after.order && k != key ==> after.Get(k) == s.Get(k))
  {
    if !Ignored(s, key, item) {
      TouchKeys(s.order, key);
      var grown := s.(order := Without(s.order, key) + [key], turns := s.turns[key := TurnPut(s.Get(key), item)]);
      assert SetOf(grown.order) == SetOf(s.order) + {key};
      TrimKeeps(grown, key);
    }
  }

  lemma TrimKeeps(s: Store, newest: TurnKey)
    requires s.turns.Keys == SetOf(s.order) && Distinct(s.order)
    requires 0 < |s.order| <= MOBILE_TIMELINE_TURN_LIMIT + 1 && s.order[|s.order| - 1] == newest
    ensures StoreInv(Trim(s)) && newest in Trim(s).order
    ensures forall k :: k in Trim(s).order ==> k in s.order && Trim(s).Get(k) == s.Get(k)
  {
    if |s.order| > MOBILE_TIMELINE_TURN_LIMIT {
      assert s.order == [s.order[0]] + s.order[1..];
      assert SetOf(s.order[1..]) == SetOf(s.order) - {s.order[0]};
      assert Trim(s).order[|s.order| - 2] == newest;
    }
  }

  // ------------------------------------------------- what has happened to a turn

  /** The items that arrived for a turn since the store last forgot it, for whatever reason. */
  function SinceForgotten(events: seq<StoreEvent>, key: TurnKey): seq<Item> {
    if events == [] then []
    else
      var front, last := events[..|events| - 1], events[|events| - 1];
      if last.Arrives? && last.key == key then SinceForgotten(front, key) + [last.item]
      else if key in RunStore(events).order then SinceForgotten(front, key)
      else []
  }

  predicate Settles(e: StoreEvent, key: TurnKey) {
    match e
    case Resolves(identities, _) => key in identities
    case Clears(keys) => key in keys
    case _ => false
  }

  /** The items that arrived for a turn since it was last resolved or cleared. */
  function SinceSettled(events: seq<StoreEvent>, key: TurnKey): seq<Item> {
    if events == [] then []
    else
      var front, last := events[..|events| - 1], events[|events| - 1];
      if last.Arrives? && last.key == key then SinceSettled(front, key) + [last.item]
      else if Settles(last, key) then []
      else SinceSettled(front, key)
  }

  /** A step that does not concern the turn keeps it as it is, or drops it. */
  lemma OtherStep(s: Store, e: StoreEvent, key: TurnKey)
    requires StoreInv(s)
    ensures StoreInv(StepStore(s, e))
    ensures !(e.Arrives? && e.key == key) ==>
      (if key in StepStore(s, e).order then key in s.order && StepStore(s, e).Get(key) == s.Get(key)
       else StepStore(s, e).Get(key) == EMPTY_TURN)
    ensures Settles(e, key) ==> key !in StepStore(s, e).order
  {
    match e
    case Arrives(k, item) => ArriveKeepsInv(s, k, item);
    case Resolves(identities, turn) =>
      ForgetKeepsInv(s, identities);
      ForgetKeepsInv(Forget(s, identities), Outdated(Forget(s, identities), turn));
    case Stores(turn) => ForgetKeepsInv(s, Outdated(s, turn));
    case Clears(keys) => ForgetKeepsInv(s, keys);
  }

  lemma {:induction false} RunKeepsInv(events: seq<StoreEvent>)
    ensures StoreInv(RunStore(events))
  {
    if events != [] {
      RunKeepsInv(events[..|events| - 1]);
      OtherStep(RunStore(events[..|events| - 1]), events[|events| - 1], "");
    }
  }

  /** Turns do not disturb each other: each one is what its own items since it was last forgotten
      make of it. */
  lemma {:induction false} TurnIsItsOwn(events: seq<StoreEvent>, key: TurnKey)
    ensures RunStore(events).Get(key) == TurnOf(SinceForgotten(events, key))
    ensures key !in RunStore(events).order ==> SinceForgotten(events, key) == []
  {
    if events != [] {
      var front, last := events[..|events| - 1], events[|events| - 1];
      TurnIsItsOwn(front, key);
      RunKeepsInv(front);
      OtherStep(RunStore(front), last, key);
      if last.Arrives? && last.key == key {
        ArriveKeepsInv(RunStore(front), key, last.item);
        var items := SinceForgotten(front, key);
        assert (items + [last.item])[..|items|] == items;
        assert key !in RunStore(front).order ==> RunStore(front).Get(key) == EMPTY_TURN;
      }
    }
  }

  // ------------------------------------------------- when nothing returns

  /** The turn, as long as it is kept, shows the last 500 distinct ids that arrived since it was
      settled. */
  ghost predicate ShowsTurn(events: seq<StoreEvent>, key: TurnKey) {
    key in RunStore(events).order ==> ShowsLast(RunStore(events).Get(key), SinceSettled(events, key))
  }

  /** An item arrives for a turn that is kept, repeating an id that 1000 others have followed; or
      for a turn that was dropped after other ids than this one had arrived for it. */
  ghost predicate Returns(events: seq<StoreEvent>, key: TurnKey, id: ItemId) {
    if key in RunStore(events).order then RepeatsLate(SinceSettled(events, key), id)
    else exists x :: x in SinceSettled(events, key) && x.id != id
  }

  ghost predicate ReturnsAt(events: seq<StoreEvent>, n: nat, key: TurnKey)
    requires n < |events|
  {
    events[n].Arrives? && events[n].key == key && Returns(events[..n], key, events[n].item.id)
  }

  ghost predicate NothingReturns(events: seq<StoreEvent>, key: TurnKey) {
    forall n: nat :: n < |events| ==> !ReturnsAt(events, n, key)
  }

  lemma ReturnsPrefix(events: seq<StoreEvent>, k: nat, key: TurnKey)
    requires k <= |events|
    ensures forall n: nat :: n < k ==> ReturnsAt(events[..k], n, key) == ReturnsAt(events, n, key)
  {
    forall n: nat | n < k
      ensures ReturnsAt(events[..k], n, key) == ReturnsAt(events, n, key)
    {
      assert events[..k][..n] == events[..n];
    }
  }

  ghost predicate ReturnsWith(front: seq<StoreEvent>, last: StoreEvent, key: TurnKey) {
    last.Arrives? && last.key == key && Returns(front, key, last.item.id)
  }

  lemma ReturnsSnoc(front: seq<StoreEvent>, last: StoreEvent, key: TurnKey)
    ensures NothingReturns(front + [last], key) <==> NothingReturns(front, key) && !ReturnsWith(front, last, key)
  {
    var events := front + [last];
    assert events[..|front|] == front;
    ReturnsPrefix(events, |front|, key);
    assert ReturnsAt(events, |front|, key) == ReturnsWith(front, last, key);
    if NothingReturns(front, key) && !ReturnsWith(front, last, key) {
      forall n: nat | n < |events| ensures !ReturnsAt(events, n, key) {
        assert n < |front| ==> ReturnsAt(front, n, key) == ReturnsAt(events, n, key);
      }
    }
  }

  lemma {:induction false} OneId(events: seq<Item>, id: ItemId)
    requires forall x :: x in events ==> x.id == id
    ensures FirstArrivals(events) == if events == [] then [] else [id]
  {
    if events != [] {
      var front := events[..|events| - 1];
      assert forall x :: x in front ==> x in events;
      OneId(front, id);
      assert events[|events| - 1] in events;
    }
  }

  /** After a drop, a single id starts the turn anew. */
  lemma StartsAnew(events: seq<Item>, last: Item)
    requires forall x :: x in events ==> x.id == last.id
    ensures Follows(Admit(History([], map[]), last), events + [last])
  {
    OneId(events + [last], last.id);
  }

  ghost predicate FollowsSettled(events: seq<StoreEvent>, key: TurnKey) {
    key in RunStore(events).order ==> Follows(HistoryOf(SinceForgotten(events, key)), SinceSettled(events, key))
  }

  lemma ArrivalFollows(front: seq<StoreEvent>, key: TurnKey, item: Item)
    requires FollowsSettled(front, key) && !Returns(front, key, item.id)
    ensures FollowsSettled(front + [Arrives(key, item)], key)
  {
    var events, items, settled := front + [Arrives(key, item)], SinceForgotten(front, key), SinceSettled(front, key);
    assert events[..|front|] == front;
    assert (items + [item])[..|items|] == items;
    TurnIsItsOwn(front, key);
    HistoryRefines(items);
    if key in RunStore(front).order {
      FollowStep(HistoryOf(items), settled, item);
    } else {
      StartsAnew(settled, item);
    }
  }

  lemma OtherFollows(front: seq<StoreEvent>, e: StoreEvent, key: TurnKey)
    requires FollowsSettled(front, key) && !(e.Arrives? && e.key == key)
    ensures FollowsSettled(front + [e], key)
  {
    assert (front + [e])[..|front|] == front;
    RunKeepsInv(front);
    OtherStep(RunStore(front), e, key);
  }

  /** While nothing has returned, a kept turn follows all that arrived since it was settled. */
  lemma {:induction false} KeptFollows(events: seq<StoreEvent>, key: TurnKey)
    requires NothingReturns(events, key)
    ensures FollowsSettled(events, key)
  {
    if events != [] {
      var front, last := events[..|events| - 1], events[|events| - 1];
      assert events == front + [last];
      ReturnsSnoc(front, last, key);
      KeptFollows(front, key);
      if last.Arrives? && last.key == key {
        ArrivalFollows(front, key, last.item);
      } else {
        OtherFollows(front, last, key);
      }
    }
  }

  lemma ShowsWhileNothingReturns(events: seq<StoreEvent>, key: TurnKey)
    requires NothingReturns(events, key)
    ensures ShowsTurn(events, key)
  {
    KeptFollows(events, key);
    TurnIsItsOwn(events, key);
    HistoryRefines(SinceForgotten(events, key));
  }

  lemma ReturnShows(front: seq<StoreEvent>, key: TurnKey, item: Item)
    requires NothingReturns(front, key) && Returns(front, key, item.id)
    ensures !ShowsTurn(front + [Arrives(key, item)], key)
  {
    var events := front + [Arrives(key, item)];
    assert events[..|front|] == front;
    KeptFollows(front, key);
    TurnIsItsOwn(front, key);
    RunKeepsInv(front);
    ArriveKeepsInv(RunStore(front), key, item);
    var t, settled := RunStore(front).Get(key), SinceSettled(front, key);
    if key in RunStore(front).order {
      HistoryRefines(SinceForgotten(front, key));
      LateReturns(t, HistoryOf(SinceForgotten(front, key)), settled, item);
    } else {
      var x :| x in settled && x.id != item.id;
      ArrivedBoth(settled, x, item);
      assert t == EMPTY_TURN && TurnPut(t, item).items.order == [item.id];
    }
  }

  lemma {:induction false} Arrived(events: seq<Item>, x: Item)
    requires x in events
    ensures x.id in FirstArrivals(events)
  {
    var front := events[..|events| - 1];
    assert events == front + [events[|events| - 1]];
    if x in front {
      Arrived(front, x);
    }
  }

  lemma ArrivedBoth(events: seq<Item>, x: Item, last: Item)
    requires x in events && x.id != last.id
    ensures Recent(FirstArrivals(events + [last])) != [last.id]
  {
    Arrived(events + [last], x);
    Arrived(events + [last], last);
    var ids := FirstArrivals(events + [last]);
    if |ids| == 1 {
      assert ids[0] == x.id;
    }
  }

  /** Over every run of the store: a turn always shows the last 500 distinct ids that arrived since
      it was settled, in first-arrival order and with their latest payloads, as long as it is kept,
      if and only if no item of the turn returns. */
  lemma KeptTurnsAreExactIff(events: seq<StoreEvent>, key: TurnKey)
    ensures (forall n :: 0 <= n <= |events| ==> ShowsTurn(events[..n], key)) <==> NothingReturns(events, key)
  {
    if NothingReturns(events, key) {
      forall n | 0 <= n <= |events| ensures ShowsTurn(events[..n], key) {
        ReturnsPrefix(events, n, key);
        ShowsWhileNothingReturns(events[..n], key);
      }
    } else {
      assert events[..|events|] == events;
      FirstReturnShows(events, key, |events|);
    }
  }

  lemma {:induction false} FirstReturnShows(events: seq<StoreEvent>, key: TurnKey, n: nat)
    requires n <= |events| && !NothingReturns(events[..n], key)
    ensures !(forall n :: 0 <= n <= |events| ==> ShowsTurn(events[..n], key))
  {
    var front := events[..n - 1];
    assert front + [events[n - 1]] == events[..n];
    ReturnsSnoc(front, events[n - 1], key);
    if NothingReturns(front, key) {
      ReturnShows(front, key, events[n - 1].item);
      assert !ShowsTurn(events[..n], key);
    } else {
      FirstReturnShows(events, key, n - 1);
    }
  }

  // --------------------------------------------------- which turns are kept

  /** An item that the store does not ignore touches its turn. */
  predicate Touches(s: Store, e: StoreEvent) {
    e.Arrives? && !Ignored(s, e.key, e.item)
  }

  /** The turns touched by a run, in order. */
  function Touched(events: seq<StoreEvent>): seq<TurnKey> {
    if events == [] then []
    else
      var front, last := events[..|events| - 1], events[|events| - 1];
      Touched(front) + if Touches(RunStore(front), last) then [last.key] else []
  }

  /** What an event takes out of the store besides the oldest turn: the turns that it settles, and
      the one whose stored timeline it drops. */
  function TakenOut(s: Store, e: StoreEvent): seq<TurnKey> {
    match e
    case Arrives(_, _) => []
    case Resolves(identities, turn) => identities + Outdated(Forget(s, identities), turn)
    case Stores(turn) => Outdated(s, turn)
    case Clears(keys) => keys
  }

  /** All turns ever touched and not taken out since, least recently touched first: the order that
      the store would have without its limit. */
  function Unbounded(events: seq<StoreEvent>): seq<TurnKey> {
    if events == [] then []
    else
      var front, last := events[..|events| - 1], events[|events| - 1];
      NextUnbounded(Unbounded(front), RunStore(front), last)
  }

  function NextUnbounded(all: seq<TurnKey>, s: Store, e: StoreEvent): seq<TurnKey> {
    if Touches(s, e) then Without(all, e.key) + [e.key] else WithoutAll(all, TakenOut(s, e))
  }

  /** How many turns come after `key`. */
  function After(order: seq<TurnKey>, key: TurnKey): nat {
    if order == [] then 0 else if order[0] == key then |order| - 1 else After(order[1..], key)
  }

  /** Since the turn was last touched it has not been taken out, and never were 500 turns that had
      been touched after it in the store's order at once. */
  predicate Within(events: seq<StoreEvent>, key: TurnKey) {
    events != [] &&
    var front, last := events[..|events| - 1], events[|events| - 1];
    if Touches(RunStore(front), last) && last.key == key then true
    else
      && Within(front, key) && key !in TakenOut(RunStore(front), last)
      && After(Unbounded(events), key) < MOBILE_TIMELINE_TURN_LIMIT
  }

  predicate Suffix(a: seq<TurnKey>, b: seq<TurnKey>) {
    |a| <= |b| && b[|b| - |a|..] == a
  }

  lemma {:induction false} WithoutAllConcat(a: seq<TurnKey>, b: seq<TurnKey>, keys: seq<TurnKey>)
    ensures WithoutAll(a + b, keys) == WithoutAll(a, keys) + WithoutAll(b, keys)
  {
    if keys != [] {
      var n := |keys| - 1;
      WithoutAllConcat(a, b, keys[..n]);
      WithoutConcat(WithoutAll(a, keys[..n]), WithoutAll(b, keys[..n]), keys[n]);
    }
  }

  lemma {:induction false} WithoutAllTwice(order: seq<TurnKey>, first: seq<TurnKey>, second: seq<TurnKey>)
    ensures WithoutAll(WithoutAll(order, first), second) == WithoutAll(order, first + second)
  {
    if second == [] {
      assert first + second == first;
    } else {
      var n := |second| - 1;
      assert (first + second)[..|first| + n] == first + second[..n];
      WithoutAllTwice(order, first, second[..n]);
    }
  }

  lemma SuffixSplit(a: seq<TurnKey>, b: seq<TurnKey>)
    requires Suffix(a, b)
    ensures b == b[..|b| - |a|] + a
  {
  }

  lemma SuffixOf(a: seq<TurnKey>, c: seq<TurnKey>)
    ensures Suffix(a, c + a)
  {
  }

  /** What a step does to the order. */
  lemma StepOrder(s: Store, e: StoreEvent)
    requires StoreInv(s)
    ensures StepStore(s, e).order
         == if Touches(s, e) then Touch(s.order, e.key, MOBILE_TIMELINE_TURN_LIMIT) else WithoutAll(s.order, TakenOut(s, e))
  {
    match e
    case Arrives(key, _) => TouchKeys(s.order, key);
    case Resolves(identities, turn) =>
      WithoutAllTwice(s.order, identities, Outdated(Forget(s, identities), turn));
    case _ =>
  }

  lemma StepKeepsTheEnd(s: Store, all: seq<TurnKey>, e: StoreEvent)
    requires StoreInv(s) && Distinct(all) && Suffix(s.order, all)
    ensures Distinct(NextUnbounded(all, s, e)) && Suffix(StepStore(s, e).order, NextUnbounded(all, s, e))
  {
    StepOrder(s, e);
    SuffixSplit(s.order, all);
    var dropped := all[..|all| - |s.order|];
    if Touches(s, e) {
      TouchKeys(all, e.key);
      WithoutConcat(dropped, s.order, e.key);
      var touched := Without(s.order, e.key) + [e.key];
      assert NextUnbounded(all, s, e) == Without(dropped, e.key) + touched;
      SuffixOfLast(touched, Without(dropped, e.key));
    } else {
      WithoutAllDistinct(all, TakenOut(s, e));
      WithoutAllConcat(dropped, s.order, TakenOut(s, e));
      SuffixOf(WithoutAll(s.order, TakenOut(s, e)), WithoutAll(dropped, TakenOut(s, e)));
    }
  }

  lemma SuffixOfLast(a: seq<TurnKey>, c: seq<TurnKey>)
    ensures Suffix(LastN(a, MOBILE_TIMELINE_TURN_LIMIT), c + a)
  {
  }

  /** The store keeps the end of the unbounded order. */
  lemma {:induction false} KeepsTheEnd(events: seq<StoreEvent>)
    ensures Distinct(Unbounded(events)) && Suffix(RunStore(events).order, Unbounded(events))
  {
    if events != [] {
      var front, last := events[..|events| - 1], events[|events| - 1];
      KeepsTheEnd(front);
      RunKeepsInv(front);
      StepKeepsTheEnd(RunStore(front), Unbounded(front), last);
    }
  }

  lemma {:induction false} AfterPlace(order: seq<TurnKey>, i: nat)
    requires Distinct(order) && i < |order|
    ensures After(order, order[i]) == |order| - 1 - i
  {
    if i > 0 {
      assert order[0] != order[i];
      AfterPlace(order[1..], i - 1);
    }
  }

  /** A turn among the last `limit` has fewer than `limit` turns after it. */
  lemma AmongLast(order: seq<TurnKey>, limit: nat, key: TurnKey)
    requires Distinct(order) && key in order
    ensures key in LastN(order, limit) <==> After(order, key) < limit
  {
    var i :| 0 <= i < |order| && order[i] == key;
    AfterPlace(order, i);
    if key in LastN(order, limit) && |order| > limit {
      var j :| 0 <= j < limit && LastN(order, limit)[j] == key;
      assert order[|order| - limit + j] == key;
    }
    if After(order, key) < limit && |order| > limit {
      assert LastN(order, limit)[i - (|order| - limit)] == key;
    }
  }

  lemma AfterInSuffix(a: seq<TurnKey>, b: seq<TurnKey>, key: TurnKey)
    requires Suffix(a, b) && Distinct(b) && key in a
    ensures After(a, key) == After(b, key)
  {
    SuffixSplit(a, b);
    DistinctParts(b[..|b| - |a|], a);
    var i :| 0 <= i < |a| && a[i] == key;
    AfterPlace(a, i);
    AfterPlace(b, |b| - |a| + i);
  }

  lemma StepKeeps(s: Store, all: seq<TurnKey>, e: StoreEvent, key: TurnKey)
    requires StoreInv(s) && Distinct(all) && Suffix(s.order, all)
    ensures key in StepStore(s, e).order <==>
      || (Touches(s, e) && e.key == key)
      || (key in s.order && key !in TakenOut(s, e) && After(NextUnbounded(all, s, e), key) < MOBILE_TIMELINE_TURN_LIMIT)
  {
    StepOrder(s, e);
    if Touches(s, e) {
      TouchKeeps(s.order, all, e.key, key);
    } else {
      TakingKeeps(s.order, all, TakenOut(s, e), key);
    }
  }

  lemma SuffixTaken(kept: seq<TurnKey>, all: seq<TurnKey>, taken: seq<TurnKey>)
    requires Suffix(kept, all)
    ensures Suffix(WithoutAll(kept, taken), WithoutAll(all, taken))
  {
    SuffixSplit(kept, all);
    WithoutAllConcat(all[..|all| - |kept|], kept, taken);
    SuffixOf(WithoutAll(kept, taken), WithoutAll(all[..|all| - |kept|], taken));
  }

  lemma FewAfter(kept: seq<TurnKey>, all: seq<TurnKey>, key: TurnKey)
    requires Suffix(kept, all) && Distinct(all) && |kept| <= MOBILE_TIMELINE_TURN_LIMIT && key in kept
    ensures After(all, key) < MOBILE_TIMELINE_TURN_LIMIT
  {
    AfterInSuffix(kept, all, key);
    SuffixSplit(kept, all);
    DistinctParts(all[..|all| - |kept|], kept);
    AmongLast(kept, MOBILE_TIMELINE_TURN_LIMIT, key);
  }

  lemma TakingKeeps(kept: seq<TurnKey>, all: seq<TurnKey>, taken: seq<TurnKey>, key: TurnKey)
    requires Distinct(kept) && |kept| <= MOBILE_TIMELINE_TURN_LIMIT && Distinct(all) && Suffix(kept, all)
    ensures key in WithoutAll(kept, taken) <==>
      key in kept && key !in taken && After(WithoutAll(all, taken), key) < MOBILE_TIMELINE_TURN_LIMIT
  {
    WithoutAllDistinct(kept, taken);
    WithoutAllDistinct(all, taken);
    SuffixTaken(kept, all, taken);
    if key in WithoutAll(kept, taken) {
      FewAfter(WithoutAll(kept, taken), WithoutAll(all, taken), key);
    }
  }

  lemma TouchKeeps(kept: seq<TurnKey>, all: seq<TurnKey>, touched: TurnKey, key: TurnKey)
    requires Distinct(kept) && Distinct(all) && Suffix(kept, all)
    ensures key in Touch(kept, touched, MOBILE_TIMELINE_TURN_LIMIT) <==>
      touched == key || (key in kept && After(Without(all, touched) + [touched], key) < MOBILE_TIMELINE_TURN_LIMIT)
  {
    TouchKeys(kept, touched);
    TouchKeys(all, touched);
    var now := Without(kept, touched) + [touched];
    if key in now {
      SuffixSplit(kept, all);
      var dropped := all[..|all| - |kept|];
      WithoutConcat(dropped, kept, touched);
      assert Without(all, touched) + [touched] == Without(dropped, touched) + now;
      SuffixOf(now, Without(dropped, touched));
      AfterInSuffix(now, Without(all, touched) + [touched], key);
      AmongLast(now, MOBILE_TIMELINE_TURN_LIMIT, key);
      WithoutMembership(kept, touched);
      AfterLast(Without(kept, touched), touched);
    }
  }

  lemma {:induction false} AfterLast(order: seq<TurnKey>, key: TurnKey)
    requires key !in order
    ensures After(order + [key], key) == 0
  {
    if order != [] {
      assert (order + [key])[1..] == order[1..] + [key] && order[0] in order;
      AfterLast(order[1..], key);
    }
  }

  /** Exactly which turns are kept, over every run. */
  lemma {:induction false} KeptIff(events: seq<StoreEvent>, key: TurnKey)
    ensures key in RunStore(events).order <==> Within(events, key)
  {
    if events != [] {
      var front, last := events[..|events| - 1], events[|events| - 1];
      KeptIff(front, key);
      RunKeepsInv(front);
      KeepsTheEnd(front);
      StepKeeps(RunStore(front), Unbounded(front), last, key);
    }
  }

  predicate NothingTakenOut(events: seq<StoreEvent>) {
    events != [] ==>
      && NothingTakenOut(events[..|events| - 1])
      && TakenOut(RunStore(events[..|events| - 1]), events[|events| - 1]) == []
  }

  /** As long as nothing is taken out, the store keeps exactly the 500 most recently touched turns
      of the whole run. */
  lemma {:induction false} KeepsMostRecent(events: seq<StoreEvent>)
    requires NothingTakenOut(events)
    ensures RunStore(events).order == LastN(Recency(Touched(events)), MOBILE_TIMELINE_TURN_LIMIT)
  {
    KeptOfTouched(events);
    KeptIsMostRecent(Touched(events), MOBILE_TIMELINE_TURN_LIMIT);
  }

  lemma {:induction false} KeptOfTouched(events: seq<StoreEvent>)
    requires NothingTakenOut(events)
    ensures RunStore(events).order == Kept(Touched(events), MOBILE_TIMELINE_TURN_LIMIT)
  {
    if events != [] {
      var front, last := events[..|events| - 1], events[|events| - 1];
      KeptOfTouched(front);
      RunKeepsInv(front);
      StepOrder(RunStore(front), last);
      if Touches(RunStore(front), last) {
        KeptSnoc(Touched(front), last.key);
      } else {
        assert Touched(events) == Touched(front);
      }
    }
  }

  lemma KeptSnoc(keys: seq<TurnKey>, key: TurnKey)
    ensures Kept(keys + [key], MOBILE_TIMELINE_TURN_LIMIT)
         == Touch(Kept(keys, MOBILE_TIMELINE_TURN_LIMIT), key, MOBILE_TIMELINE_TURN_LIMIT)
  {
    assert (keys + [key])[..|keys|] == keys;
  }

  // ------------------------------------------------------ a turn that returns

  const FIRST := Item(NumberedId(1), "first")
  const SECOND := Item(NumberedId(2), "second")

  function OtherTurns(n: nat): (keys: seq<TurnKey>)
    ensures |keys| == n && forall i :: 0 <= i < n ==> |keys[i]| == i + 1
  {
    if n == 0 then [] else OtherTurns(n - 1) + [NumberedId(n)]
  }

  /** Two items for the turn "", then one for each of `n` other turns. */
  function ThenOthers(n: nat): seq<StoreEvent> {
    if n == 0 then [Arrives("", FIRST), Arrives("", SECOND)] else ThenOthers(n - 1) + [Arrives(NumberedId(n), FIRST)]
  }

  lemma TwoArrive()
    ensures Touched(ThenOthers(0)) == ["", ""] && NothingTakenOut(ThenOthers(0)) && SinceSettled(ThenOthers(0), "") == [FIRST, SECOND]
  {
    var events := ThenOthers(0);
    assert events[..1] == [Arrives("", FIRST)] && events[..1][..0] == [];
    assert RunStore(events[..1]) == Arrive(EMPTY_STORE, "", FIRST);
    assert TurnPut(EMPTY_TURN, FIRST).evicted == [];
    assert Touched(events[..1]) == [""];
  }

  /** The first item of a turn that was never touched. */
  lemma NewTurnArrives(front: seq<StoreEvent>, key: TurnKey, item: Item)
    requires NothingTakenOut(front) && key !in Recency(Touched(front))
    ensures var events := front + [Arrives(key, item)];
      && NothingTakenOut(events) && Touched(events) == Touched(front) + [key]
      && Recency(Touched(events)) == Recency(Touched(front)) + [key]
  {
    var events, keys := front + [Arrives(key, item)], Touched(front);
    assert events[..|front|] == front;
    KeepsMostRecent(front);
    RunKeepsInv(front);
    assert key !in RunStore(front).order;
    assert RunStore(front).Get(key) == EMPTY_TURN;
    assert Touched(events) == keys + [key] && (keys + [key])[..|keys|] == keys;
    WithoutAbsent(Recency(keys), key);
  }

  predicate TouchedSo(events: seq<StoreEvent>, recency: seq<TurnKey>) {
    NothingTakenOut(events) && Recency(Touched(events)) == recency
  }

  lemma TwoTouch()
    ensures TouchedSo(ThenOthers(0), [""])
  {
    TwoArrive();
    assert ["", ""][..1] == [""] && [""][..0] == [];
    assert Recency([""]) == [""] && Recency(["", ""]) == [""];
  }

  lemma NewTurnTouches(front: seq<StoreEvent>, recency: seq<TurnKey>, key: TurnKey, item: Item)
    requires TouchedSo(front, recency) && key !in recency
    ensures TouchedSo(front + [Arrives(key, item)], recency + [key])
  {
    NewTurnArrives(front, key, item);
  }

  lemma {:induction false} OthersArrive(n: nat)
    ensures TouchedSo(ThenOthers(n), [""] + OtherTurns(n))
  {
    if n == 0 {
      TwoTouch();
      assert [""] + OtherTurns(0) == [""];
    } else {
      OthersArrive(n - 1);
      assert NumberedId(n) !in [""] + OtherTurns(n - 1);
      NewTurnTouches(ThenOthers(n - 1), [""] + OtherTurns(n - 1), NumberedId(n), FIRST);
      assert [""] + OtherTurns(n - 1) + [NumberedId(n)] == [""] + OtherTurns(n);
    }
  }

  lemma {:induction false} OthersDoNotCount(n: nat)
    ensures SinceSettled(ThenOthers(n), "") == [FIRST, SECOND]
  {
    if n == 0 {
      TwoArrive();
    } else {
      OthersDoNotCount(n - 1);
      assert ThenOthers(n)[..|ThenOthers(n)| - 1] == ThenOthers(n - 1);
    }
  }

  /** Counterexample: after 500 other turns the turn has been dropped, and its first item, arriving
      again, is then all that the turn shows. */
  lemma DroppedTurnReturns()
    ensures var events := ThenOthers(MOBILE_TIMELINE_TURN_LIMIT);
      && "" !in RunStore(events).order && ReturnsWith(events, Arrives("", FIRST), "")
      && RunStore(events + [Arrives("", FIRST)]).Get("").items.order == [FIRST.id]
  {
    var events := ThenOthers(MOBILE_TIMELINE_TURN_LIMIT);
    OthersArrive(MOBILE_TIMELINE_TURN_LIMIT);
    OthersDoNotCount(MOBILE_TIMELINE_TURN_LIMIT);
    KeepsMostRecent(events);
    assert RunStore(events).order == OtherTurns(MOBILE_TIMELINE_TURN_LIMIT);
    assert SinceSettled(events, "")[1] == SECOND;
    RunKeepsInv(events);
    DroppedStartsAnew(events, "", FIRST);
  }

  lemma DroppedStartsAnew(front: seq<StoreEvent>, key: TurnKey, item: Item)
    requires StoreInv(RunStore(front)) && key !in RunStore(front).order
    ensures RunStore(front + [Arrives(key, item)]).Get(key).items.order == [item.id]
  {
    assert (front + [Arrives(key, item)])[..|front|] == front;
    ArriveKeepsInv(RunStore(front), key, item);
    assert RunStore(front).Get(key) == EMPTY_TURN;
    assert TurnPut(EMPTY_TURN, item).items.order == [item.id];
  }
}
