/** The bounded live timeline of `MobileAiSessionStore` (apps/mobile/src/ai-sessions/store.ts):
    each turn keeps at most 500 live items and remembers at most 500 evicted ids, and at most
    500 turns are kept. */
module TimelineBuffer {
  import opened OrderedMap

  const MOBILE_TIMELINE_ITEMS_PER_TURN: nat := 500
  const MOBILE_TIMELINE_TURN_LIMIT: nat := 500

  type ItemId = string
  type TurnKey = string
  datatype Item = Item(id: ItemId, payload: string)

  /** One turn: its live items in Map order and its evicted ids in Set order. */
  datatype Turn = Turn(items: OMap<ItemId, Item>, evicted: seq<ItemId>) {
    ghost predicate Valid() {
      && items.Valid()
      && |items.order| <= MOBILE_TIMELINE_ITEMS_PER_TURN
      && |evicted| <= MOBILE_TIMELINE_ITEMS_PER_TURN
    }
  }

  const EMPTY_TURN := Turn(Empty(), [])

  // ---------------------------------------------------------------- one turn

  function AddEvicted(evicted: seq<ItemId>, id: ItemId): seq<ItemId> {
    LastN(if id in evicted then evicted else evicted + [id], MOBILE_TIMELINE_ITEMS_PER_TURN)
  }

  function EvictOldest(t: Turn): Turn
    requires t.items.order != []
  {
    Turn(t.items.Delete(t.items.order[0]), AddEvicted(t.evicted, t.items.order[0]))
  }

  /** What one live item event does to its turn. */
  function TurnPut(t: Turn, item: Item): Turn {
    if item.id in t.evicted then t
    else
      var grown := Turn(t.items.Put(item.id, item), t.evicted);
      if |grown.items.order| <= MOBILE_TIMELINE_ITEMS_PER_TURN then grown else EvictOldest(grown)
  }

  lemma {:induction false} WithoutHead<T>(s: seq<T>)
    requires s != [] && Distinct(s)
    ensures Without(s, s[0]) == s[1..]
  {
    WithoutAbsent(s[1..], s[0]);
  }

  lemma {:induction false} WithoutAbsent<T>(s: seq<T>, x: T)
    requires x !in s
    ensures Without(s, x) == s
  {
    if s != [] {
      assert s[0] in s && forall y :: y in s[1..] ==> y in s;
      WithoutAbsent(s[1..], x);
      assert s == [s[0]] + s[1..];
    }
  }

  // ------------------------------------------------------- unbounded history

  /** The history a turn would have without bounds: every admission, and the payload last
      accepted for each admitted id. */
  datatype History = History(admitted: seq<ItemId>, latest: map<ItemId, Item>)

  function Recent(admitted: seq<ItemId>): seq<ItemId> {
    LastN(admitted, MOBILE_TIMELINE_ITEMS_PER_TURN)
  }

  function Window(admitted: seq<ItemId>): seq<ItemId> {
    LastN(admitted, 2 * MOBILE_TIMELINE_ITEMS_PER_TURN)
  }

  function Admit(h: History, item: Item): History {
    if item.id in Recent(h.admitted) then h.(latest := h.latest[item.id := item])
    else if item.id in Window(h.admitted) then h
    else History(h.admitted + [item.id], h.latest[item.id := item])
  }

  function HistoryOf(events: seq<Item>): History {
    if events == [] then History([], map[])
    else Admit(HistoryOf(events[..|events| - 1]), events[|events| - 1])
  }

  function TurnOf(events: seq<Item>): Turn {
    if events == [] then EMPTY_TURN
    else TurnPut(TurnOf(events[..|events| - 1]), events[|events| - 1])
  }

  ghost predicate Sound(h: History) {
    && Distinct(Window(h.admitted))
    && SetOf(h.admitted) == h.latest.Keys
  }

  /** The admissions just before the last 500: at most 500 of them. */
  function Older(admitted: seq<ItemId>): seq<ItemId> {
    Window(admitted)[..|Window(admitted)| - |Recent(admitted)|]
  }

  /** The turn `t` shows the last 500 admissions of `h` with their payloads, and remembers the
      500 admissions before them as evicted. */
  ghost predicate Shows(t: Turn, h: History) {
    && t.items.Valid()
    && t.items.order == Recent(h.admitted)
    && t.evicted == Older(h.admitted)
    && forall id :: id in t.items.content ==> id in h.latest && t.items.content[id] == h.latest[id]
  }

  lemma AdmitSound(h: History, item: Item)
    requires Sound(h)
    ensures Sound(Admit(h, item))
    ensures item.id !in Window(h.admitted) ==>
      var h' := Admit(h, item);
      && Window(h'.admitted) == LastN(Window(h.admitted) + [item.id], 2 * MOBILE_TIMELINE_ITEMS_PER_TURN)
      && Recent(h'.admitted) == LastN(Recent(h.admitted) + [item.id], MOBILE_TIMELINE_ITEMS_PER_TURN)
  {
    var h' := Admit(h, item);
    RecentInWindow(h.admitted);
    assert SetOf(h'.admitted) == h'.latest.Keys;
    if item.id !in Window(h.admitted) {
      DistinctSnoc(Window(h.admitted), item.id);
      DistinctLastN(Window(h.admitted) + [item.id], 2 * MOBILE_TIMELINE_ITEMS_PER_TURN);
    }
  }

  lemma WindowSplit(admitted: seq<ItemId>)
    ensures Window(admitted) == Older(admitted) + Recent(admitted)
  {
  }

  lemma RecentInWindow(admitted: seq<ItemId>)
    ensures forall id :: id in Recent(admitted) ==> id in Window(admitted)
    ensures forall id :: id in Window(admitted) ==> id in admitted
  {
  }

  /** One event keeps the turn equal to what its history shows. */
  lemma AdmitRefines(t: Turn, h: History, item: Item)
    requires Sound(h) && Shows(t, h)
    ensures Sound(Admit(h, item)) && Shows(TurnPut(t, item), Admit(h, item))
  {
    AdmitSound(h, item);
    var recent, older := Recent(h.admitted), Older(h.admitted);
    WindowSplit(h.admitted);
    DistinctParts(older, recent);
    if item.id in recent {
      AdmitKept(t, h, item);
    } else if item.id in Window(h.admitted) {
      assert item.id in older;
    } else if |recent| < MOBILE_TIMELINE_ITEMS_PER_TURN {
      AdmitGrows(t, h, item);
    } else {
      assert recent[0] in recent;
      AdmitEvicts(t, h, item);
    }
  }

  lemma AdmitKept(t: Turn, h: History, item: Item)
    requires Shows(t, h) && item.id in Recent(h.admitted) && item.id !in Older(h.admitted)
    ensures Shows(TurnPut(t, item), Admit(h, item))
  {
    assert item.id in SetOf(t.items.order);
  }

  lemma AdmitGrows(t: Turn, h: History, item: Item)
    requires Shows(t, h) && item.id !in Window(h.admitted)
    requires |Recent(h.admitted)| < MOBILE_TIMELINE_ITEMS_PER_TURN
    ensures Shows(TurnPut(t, item), Admit(h, item))
  {
    assert item.id !in SetOf(t.items.order);
    var grown := t.items.Put(item.id, item);
    assert grown.order == Recent(Admit(h, item).admitted);
    assert TurnPut(t, item) == Turn(grown, t.evicted);
  }

  lemma AdmitEvicts(t: Turn, h: History, item: Item)
    requires Shows(t, h) && item.id !in Window(h.admitted) && item.id !in Recent(h.admitted)
    requires |Recent(h.admitted)| == MOBILE_TIMELINE_ITEMS_PER_TURN && Recent(h.admitted)[0] !in Older(h.admitted)
    ensures Shows(TurnPut(t, item), Admit(h, item))
  {
    PutEvicts(t, item);
    RecentSnoc(h.admitted, item.id);
    OlderSnoc(h.admitted, item.id);
  }

  lemma RecentSnoc(admitted: seq<ItemId>, id: ItemId)
    requires |admitted| >= MOBILE_TIMELINE_ITEMS_PER_TURN
    ensures Recent(admitted + [id]) == (Recent(admitted) + [id])[1..]
  {
  }

  lemma OlderSnoc(admitted: seq<ItemId>, id: ItemId)
    requires |admitted| >= MOBILE_TIMELINE_ITEMS_PER_TURN
    ensures Older(admitted + [id])
         == LastN(Older(admitted) + [Recent(admitted)[0]], MOBILE_TIMELINE_ITEMS_PER_TURN)
  {
    var n, k := MOBILE_TIMELINE_ITEMS_PER_TURN, |admitted|;
    var low := if k <= 2 * n then 0 else k - 2 * n;
    assert Older(admitted) == admitted[low..k - n];
    var low' := if k + 1 <= 2 * n then 0 else k + 1 - 2 * n;
    assert Older(admitted + [id]) == admitted[low'..k + 1 - n];
  }

  /** A new id on a full turn pushes out exactly the oldest item. */
  lemma PutEvicts(t: Turn, item: Item)
    requires t.items.Valid() && |t.items.order| == MOBILE_TIMELINE_ITEMS_PER_TURN
    requires item.id !in t.items.order && item.id !in t.evicted && t.items.order[0] !in t.evicted
    ensures var t' := TurnPut(t, item);
      && t'.items.Valid()
      && t'.items.order == (t.items.order + [item.id])[1..]
      && t'.items.content == t.items.content[item.id := item] - {t.items.order[0]}
      && t'.evicted == LastN(t.evicted + [t.items.order[0]], MOBILE_TIMELINE_ITEMS_PER_TURN)
  {
    assert item.id !in SetOf(t.items.order);
    var order := t.items.order + [item.id];
    DistinctSnoc(t.items.order, item.id);
    WithoutHead(order);
    assert t.items.Put(item.id, item).order == order;
  }

  lemma {:induction false} HistoryRefines(events: seq<Item>)
    ensures Sound(HistoryOf(events)) && Shows(TurnOf(events), HistoryOf(events))
  {
    if events != [] {
      HistoryRefines(events[..|events| - 1]);
      AdmitRefines(TurnOf(events[..|events| - 1]), HistoryOf(events[..|events| - 1]), events[|events| - 1]);
    }
  }

  // -------------------------------------------------- exact eviction promise

  /** The distinct ids of `events` in first-arrival order. */
  function FirstArrivals(events: seq<Item>): seq<ItemId> {
    if events == [] then []
    else
      var before := FirstArrivals(events[..|events| - 1]);
      var id := events[|events| - 1].id;
      if id in before then before else before + [id]
  }

  function LatestOf(events: seq<Item>, id: ItemId): Option<Item> {
    if events == [] then None
    else if events[|events| - 1].id == id then Some(events[|events| - 1])
    else LatestOf(events[..|events| - 1], id)
  }

  /** The turn shows the last 500 distinct ids in first-arrival order, each with its latest
      payload. */
  ghost predicate ShowsLast(t: Turn, events: seq<Item>) {
    && t.items.order == Recent(FirstArrivals(events))
    && forall id :: id in t.items.order ==> t.items.Get(id) == LatestOf(events, id)
  }

  ghost predicate AlwaysShowsLastDistinct(events: seq<Item>) {
    forall n :: 0 <= n <= |events| ==> ShowsLast(TurnOf(events[..n]), events[..n])
  }

  /** The id has arrived before, and at least 1000 distinct ids have followed it. */
  ghost predicate RepeatsLate(events: seq<Item>, id: ItemId) {
    id in FirstArrivals(events) && id !in Window(FirstArrivals(events))
  }

  ghost predicate LateRepeatAt(events: seq<Item>, n: nat)
    requires n < |events|
  {
    RepeatsLate(events[..n], events[n].id)
  }

  ghost predicate NoLateRepeat(events: seq<Item>) {
    forall n: nat :: n < |events| ==> !LateRepeatAt(events, n)
  }

  lemma LateRepeatPrefix(events: seq<Item>, k: nat)
    requires k <= |events|
    ensures forall n: nat :: n < k ==> LateRepeatAt(events[..k], n) == LateRepeatAt(events, n)
  {
    forall n: nat | n < k
      ensures LateRepeatAt(events[..k], n) == LateRepeatAt(events, n)
    {
      assert events[..k][..n] == events[..n];
    }
  }

  /** The history admits the ids of these events in the order of their first arrival. */
  ghost predicate Follows(h: History, events: seq<Item>) {
    && h.admitted == FirstArrivals(events)
    && forall id :: id in Recent(h.admitted) ==> id in h.latest && LatestOf(events, id) == Some(h.latest[id])
  }

  lemma FollowStep(h: History, events: seq<Item>, last: Item)
    requires Sound(h) && Follows(h, events) && !RepeatsLate(events, last.id)
    ensures Follows(Admit(h, last), events + [last])
  {
    assert (events + [last])[..|events|] == events;
    RecentInWindow(h.admitted);
    RecentMembers(h.admitted, last.id);
  }

  lemma RecentMembers(arrived: seq<ItemId>, id: ItemId)
    ensures forall x :: x in Recent(arrived + [id]) ==> x in Recent(arrived) || x == id
  {
  }

  lemma FollowsShows(t: Turn, h: History, events: seq<Item>)
    requires Shows(t, h) && Follows(h, events)
    ensures ShowsLast(t, events)
  {
  }

  /** A late repeat is admitted again, as the newest. */
  lemma LateReturns(t: Turn, h: History, events: seq<Item>, last: Item)
    requires Sound(h) && Shows(t, h) && Follows(h, events) && RepeatsLate(events, last.id)
    ensures last.id !in t.evicted && last.id in TurnPut(t, last).items.order
    ensures !ShowsLast(TurnPut(t, last), events + [last])
  {
    AdmitRefines(t, h, last);
    RecentInWindow(h.admitted);
    WindowSplit(h.admitted);
    assert (events + [last])[..|events|] == events;
    var order := TurnPut(t, last).items.order;
    assert order[|order| - 1] == last.id;
  }

  lemma NoLateRepeatFront(front: seq<Item>, last: Item)
    requires NoLateRepeat(front + [last])
    ensures NoLateRepeat(front) && !RepeatsLate(front, last.id)
  {
    var events := front + [last];
    assert events[..|front|] == front;
    LateRepeatPrefix(events, |front|);
    assert !LateRepeatAt(events, |front|);
  }

  lemma {:induction false} PromptHistory(events: seq<Item>)
    requires NoLateRepeat(events)
    ensures Follows(HistoryOf(events), events)
  {
    if events != [] {
      var front, last := events[..|events| - 1], events[|events| - 1];
      assert events == front + [last];
      NoLateRepeatFront(front, last);
      PromptHistory(front);
      HistoryRefines(front);
      FollowStep(HistoryOf(front), front, last);
    }
  }

  lemma ShowsAfterPrompt(events: seq<Item>)
    requires NoLateRepeat(events)
    ensures ShowsLast(TurnOf(events), events)
  {
    PromptHistory(events);
    HistoryRefines(events);
    FollowsShows(TurnOf(events), HistoryOf(events), events);
  }

  lemma LateRepeatReturns(events: seq<Item>, n: nat)
    requires n < |events| && NoLateRepeat(events[..n]) && LateRepeatAt(events, n)
    ensures !ShowsLast(TurnOf(events[..n + 1]), events[..n + 1])
    ensures events[n].id in TurnOf(events[..n + 1]).items.order
  {
    var front, longer := events[..n], events[..n + 1];
    assert longer[..|longer| - 1] == front && longer[|longer| - 1] == events[n] && longer == front + [events[n]];
    PromptHistory(front);
    HistoryRefines(front);
    LateReturns(TurnOf(front), HistoryOf(front), front, events[n]);
  }

  /** The promise "the kept items are the last 500 distinct ids in first-arrival order with their
      latest payloads, so an evicted id never returns" holds throughout a sequence of events
      exactly when no event repeats an id more than 1000 distinct ids old. */
  lemma KeepsLastDistinctIff(events: seq<Item>)
    ensures AlwaysShowsLastDistinct(events) <==> NoLateRepeat(events)
  {
    if NoLateRepeat(events) {
      forall n | 0 <= n <= |events|
        ensures ShowsLast(TurnOf(events[..n]), events[..n])
      {
        LateRepeatPrefix(events, n);
        ShowsAfterPrompt(events[..n]);
      }
    } else {
      var n := FirstLateRepeat(events);
      LateRepeatReturns(events, n);
    }
  }

  lemma {:induction false} FirstLateRepeat(events: seq<Item>) returns (n: nat)
    requires !NoLateRepeat(events)
    ensures n < |events| && NoLateRepeat(events[..n]) && LateRepeatAt(events, n)
  {
    var front := events[..|events| - 1];
    LateRepeatPrefix(events, |front|);
    if NoLateRepeat(front) {
      n := |front|;
    } else {
      n := FirstLateRepeat(front);
      assert front[..n] == events[..n];
    }
  }

  function NumberedId(i: nat): (id: ItemId)
    ensures |id| == i
  {
    seq(i, _ => 'x')
  }

  /** One event for each of the ids 0, 1, .., n - 1. */
  function Numbered(n: nat): (s: seq<Item>)
    ensures |s| == n
  {
    if n == 0 then [] else Numbered(n - 1) + [Item(NumberedId(n - 1), "")]
  }

  function NumberedIds(n: nat): (ids: seq<ItemId>)
    ensures |ids| == n
    ensures forall i :: 0 <= i < n ==> |ids[i]| == i
  {
    if n == 0 then [] else NumberedIds(n - 1) + [NumberedId(n - 1)]
  }

  lemma {:induction false} NumberedArrivals(n: nat)
    ensures FirstArrivals(Numbered(n)) == NumberedIds(n) && NoLateRepeat(Numbered(n))
  {
    if n > 0 {
      NumberedArrivals(n - 1);
      var events := Numbered(n);
      assert events[..n - 1] == Numbered(n - 1);
      LateRepeatPrefix(events, n - 1);
      assert !LateRepeatAt(events, n - 1);
    }
  }

  /** After item 0 and 1000 further ids, a second event for item 0 is shown again, as the newest. */
  lemma EvictedIdReturns()
    ensures var events := Numbered(2 * MOBILE_TIMELINE_ITEMS_PER_TURN + 1);
      && NumberedId(0) !in TurnOf(events).items.order
      && NumberedId(0) in TurnOf(events + [Item(NumberedId(0), "late")]).items.order
  {
    var n := 2 * MOBILE_TIMELINE_ITEMS_PER_TURN + 1;
    var events := Numbered(n);
    var longer := events + [Item(NumberedId(0), "late")];
    NumberedArrivals(n);
    var ids := NumberedIds(n);
    assert Window(ids) == ids[1..];
    assert ids[0] == NumberedId(0) && NumberedId(0) !in ids[1..];
    assert longer[..n] == events && longer[..n + 1] == longer;
    LateRepeatReturns(longer, n);
    ShowsAfterPrompt(events);
    RecentInWindow(ids);
  }
}
