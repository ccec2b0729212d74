/** `mergeAiSessionTimelineItems` (packages/protocol/src/ai-sessions.ts): merging a partial live
    item stream into a snapshot. */
module TimelineMerge {
  import opened OrderedMap
  import opened TimelineBuffer

  function Ids(items: seq<Item>): (r: seq<ItemId>)
    ensures |r| == |items|
  {
    if items == [] then [] else [items[0].id] + Ids(items[1..])
  }

  lemma {:induction false} IdsConcat(a: seq<Item>, b: seq<Item>)
    ensures Ids(a + b) == Ids(a) + Ids(b)
  {
    if a == [] {
      assert a + b == b;
    } else {
      assert (a + b)[1..] == a[1..] + b;
      IdsConcat(a[1..], b);
    }
  }

  lemma {:induction false} IdsHold(items: seq<Item>, x: ItemId)
    ensures x in Ids(items) <==> exists item :: item in items && item.id == x
  {
    if items != [] {
      assert items == [items[0]] + items[1..];
      IdsHold(items[1..], x);
    }
  }

  /** The elements of `s` that belong to `keep`, in the order of `s`. */
  function Filter(s: seq<ItemId>, keep: set<ItemId>): (r: seq<ItemId>)
    ensures forall x :: x in r <==> x in s && x in keep
  {
    if s == [] then []
    else
      assert s == [s[0]] + s[1..];
      if s[0] in keep then [s[0]] + Filter(s[1..], keep) else Filter(s[1..], keep)
  }

  // ------------------------------------------------------------ specification

  /** `new Map` of the live items: an id keeps its first position and its last payload. */
  function LiveById(live: seq<Item>): (m: OMap<ItemId, Item>)
    ensures m.Valid()
    ensures forall id :: id in m.content ==> m.content[id].id == id
    ensures SetOf(m.order) == SetOf(Ids(live))
  {
    if live == [] then Empty()
    else
      var n := |live| - 1;
      IdsConcat(live[..n], [live[n]]);
      assert live == live[..n] + [live[n]];
      LiveById(live[..n]).Put(live[n].id, live[n])
  }

  /** `Map.values()`. */
  function Values(m: OMap<ItemId, Item>): (r: seq<Item>)
    requires m.Valid()
    requires forall id :: id in m.content ==> m.content[id].id == id
    ensures Ids(r) == m.order
  {
    assert forall id :: id in m.order ==> id in SetOf(m.order);
    ItemsFor(m.order, m.content)
  }

  function ItemsFor(order: seq<ItemId>, content: map<ItemId, Item>): (r: seq<Item>)
    requires forall id :: id in order ==> id in content && content[id].id == id
    ensures Ids(r) == order
    ensures forall item :: item in r ==> item.id in content && content[item.id] == item
  {
    if order == [] then [] else [content[order[0]]] + ItemsFor(order[1..], content)
  }

  /** The run of live-only items that the merge inserts before the snapshot item `anchor`;
      `run` holds the live-only items met since the last snapshot item. */
  function InsertedBefore(live: seq<Item>, all: set<ItemId>, anchor: ItemId, run: seq<Item> := []): (r: seq<Item>)
    ensures forall item :: item in r ==> item in run || (item in live && item.id !in all)
  {
    if live == [] then []
    else if live[0].id !in all then InsertedBefore(live[1..], all, anchor, run + [live[0]])
    else if live[0].id == anchor then run
    else InsertedBefore(live[1..], all, anchor)
  }

  /** The live-only items after the last snapshot item. */
  function Trailing(live: seq<Item>, all: set<ItemId>, run: seq<Item> := []): (r: seq<Item>)
    ensures forall item :: item in r ==> item in run || (item in live && item.id !in all)
  {
    if live == [] then run
    else if live[0].id !in all then Trailing(live[1..], all, run + [live[0]])
    else Trailing(live[1..], all)
  }

  /** The walk over the snapshot: each item after its live-only run, live payloads in place. */
  function MergedItems(snapshot: seq<Item>, live: seq<Item>, payload: map<ItemId, Item>, all: set<ItemId>): seq<Item> {
    if snapshot == [] then Trailing(live, all)
    else
      InsertedBefore(live, all, snapshot[0].id)
      + [if snapshot[0].id in payload then payload[snapshot[0].id] else snapshot[0]]
      + MergedItems(snapshot[1..], live, payload, all)
  }

  function Merge(snapshot: seq<Item>, liveItems: seq<Item>): seq<Item> {
    var liveById := LiveById(liveItems);
    MergedItems(snapshot, Values(liveById), liveById.content, SetOf(Ids(snapshot)))
  }

  // ---------------------------------------------------------- implementation

  /** The three loops of the source compute `Merge`. */
  method MergeTimelineItems(snapshot: seq<Item>, liveItems: seq<Item>) returns (merged: seq<Item>)
    ensures merged == Merge(snapshot, liveItems)
  {
    if liveItems == [] {
      MergeNothing(snapshot, SetOf(Ids(snapshot)));
      return snapshot;
    }
    var liveById := Empty();
    for i := 0 to |liveItems|
      invariant liveById == LiveById(liveItems[..i])
    {
      liveById := liveById.Put(liveItems[i].id, liveItems[i]);
      assert liveItems[..i + 1][..i] == liveItems[..i];
    }
    assert liveItems[..|liveItems|] == liveItems;
    var snapshotIds := SetOf(Ids(snapshot));
    var insertBefore, pending := GroupLiveOnly(Values(liveById), snapshotIds);
    merged := WalkSnapshot(snapshot, liveById.content, insertBefore, pending, Values(liveById), snapshotIds);
  }

  ghost predicate Grouped(insertBefore: map<ItemId, seq<Item>>, seen: seq<Item>, all: set<ItemId>) {
    forall a :: (if a in insertBefore then insertBefore[a] else []) == InsertedBefore(seen, all, a)
  }

  /** Groups the live-only items: those before each snapshot id, and those after the last one. */
  method GroupLiveOnly(live: seq<Item>, snapshotIds: set<ItemId>)
    returns (insertBefore: map<ItemId, seq<Item>>, pending: seq<Item>)
    requires Distinct(Ids(live))
    ensures pending == Trailing(live, snapshotIds)
    ensures Grouped(insertBefore, live, snapshotIds)
  {
    insertBefore, pending := map[], [];
    for i := 0 to |live|
      invariant pending == Trailing(live[..i], snapshotIds)
      invariant Grouped(insertBefore, live[..i], snapshotIds)
    {
      var item := live[i];
      assert live[..i + 1] == live[..i] + [item];
      assert live == live[..i] + [item] + live[i + 1..];
      NotEarlier(live[..i], item, live[i + 1..]);
      TrailingSnoc(live[..i], snapshotIds, item);
      ghost var before := insertBefore;
      if item.id !in snapshotIds {
        pending := pending + [item];
      } else {
        if pending != [] {
          insertBefore := insertBefore[item.id := pending];
        }
        pending := [];
      }
      GroupedSnoc(before, insertBefore, live[..i], snapshotIds, item);
    }
    assert live[..|live|] == live;
  }

  lemma NotEarlier(before: seq<Item>, x: Item, after: seq<Item>)
    requires Distinct(Ids(before + [x] + after))
    ensures x.id !in Ids(before)
  {
    IdsOfStep(before, x, after);
    DistinctParts(Ids(before) + [x.id], Ids(after));
    DistinctParts(Ids(before), [x.id]);
    assert x.id in [x.id];
  }

  /** The third loop. */
  method WalkSnapshot(snapshot: seq<Item>, payload: map<ItemId, Item>, insertBefore: map<ItemId, seq<Item>>,
                      pending: seq<Item>, ghost live: seq<Item>, ghost all: set<ItemId>)
    returns (merged: seq<Item>)
    requires pending == Trailing(live, all)
    requires Grouped(insertBefore, live, all)
    ensures merged == MergedItems(snapshot, live, payload, all)
  {
    merged := [];
    for i := 0 to |snapshot|
      invariant merged + MergedItems(snapshot[i..], live, payload, all) == MergedItems(snapshot, live, payload, all)
    {
      var id := snapshot[i].id;
      var run := if id in insertBefore then insertBefore[id] else [];
      var item := if id in payload then payload[id] else snapshot[i];
      WalkStep(merged, run, item, snapshot[i..], live, payload, all);
      assert snapshot[i..][1..] == snapshot[i + 1..];
      merged := merged + run + [item];
    }
    merged := merged + pending;
  }

  lemma WalkStep(merged: seq<Item>, run: seq<Item>, item: Item, snapshot: seq<Item>, live: seq<Item>,
                 payload: map<ItemId, Item>, all: set<ItemId>)
    requires snapshot != [] && run == InsertedBefore(live, all, snapshot[0].id)
    requires item == if snapshot[0].id in payload then payload[snapshot[0].id] else snapshot[0]
    ensures merged + MergedItems(snapshot, live, payload, all)
         == merged + run + [item] + MergedItems(snapshot[1..], live, payload, all)
  {
  }

  // ------------------------------------------- one more live item in the groups

  lemma {:induction false} TrailingSnoc(live: seq<Item>, all: set<ItemId>, x: Item, run: seq<Item> := [])
    ensures Trailing(live + [x], all, run) == if x.id in all then [] else Trailing(live, all, run) + [x]
  {
    if live != [] {
      assert (live + [x])[1..] == live[1..] + [x];
      TrailingSnoc(live[1..], all, x, if live[0].id in all then [] else run + [live[0]]);
    }
  }

  lemma {:induction false} InsertedSnoc(live: seq<Item>, all: set<ItemId>, x: Item, a: ItemId, run: seq<Item> := [])
    ensures InsertedBefore(live + [x], all, a, run)
         == if a == x.id && a in all && a !in Ids(live) then Trailing(live, all, run) else InsertedBefore(live, all, a, run)
  {
    if live != [] {
      assert (live + [x])[1..] == live[1..] + [x];
      InsertedSnoc(live[1..], all, x, a, if live[0].id in all then [] else run + [live[0]]);
    }
  }

  lemma GroupedSnoc(before: map<ItemId, seq<Item>>, after: map<ItemId, seq<Item>>, seen: seq<Item>, all: set<ItemId>, x: Item)
    requires Grouped(before, seen, all) && x.id !in Ids(seen)
    requires after == if x.id in all && Trailing(seen, all) != [] then before[x.id := Trailing(seen, all)] else before
    ensures Grouped(after, seen + [x], all)
  {
    forall a ensures (if a in after then after[a] else []) == InsertedBefore(seen + [x], all, a) {
      InsertedSnoc(seen, all, x, a);
      if a == x.id {
        NothingInserted(seen, all, a);
      }
    }
  }

  lemma {:induction false} NothingInserted(live: seq<Item>, all: set<ItemId>, a: ItemId, run: seq<Item> := [])
    requires a !in Ids(live) || a !in all
    ensures InsertedBefore(live, all, a, run) == []
  {
    if live != [] {
      NothingInserted(live[1..], all, a, if live[0].id in all then [] else run + [live[0]]);
    }
  }

  lemma {:induction false} MergeNothing(snapshot: seq<Item>, all: set<ItemId>)
    ensures MergedItems(snapshot, [], map[], all) == snapshot
  {
    if snapshot != [] {
      MergeNothing(snapshot[1..], all);
    }
  }

  // ------------------------------------------------------- what a merge preserves

  lemma {:induction false} FilterConcat(a: seq<ItemId>, b: seq<ItemId>, keep: set<ItemId>)
    ensures Filter(a + b, keep) == Filter(a, keep) + Filter(b, keep)
  {
    if a == [] {
      assert a + b == b;
    } else {
      assert (a + b)[1..] == a[1..] + b;
      FilterConcat(a[1..], b, keep);
    }
  }

  lemma {:induction false} FilterAll(s: seq<ItemId>, keep: set<ItemId>)
    requires forall x :: x in s ==> x in keep
    ensures Filter(s, keep) == s
  {
    if s != [] {
      FilterAll(s[1..], keep);
    }
  }

  lemma {:induction false} FilterNone(s: seq<ItemId>, keep: set<ItemId>)
    requires forall x :: x in s ==> x !in keep
    ensures Filter(s, keep) == []
  {
    if s != [] {
      FilterNone(s[1..], keep);
    }
  }

  lemma {:induction false} FilterCommutes(s: seq<ItemId>, a: set<ItemId>, b: set<ItemId>)
    ensures Filter(Filter(s, a), b) == Filter(Filter(s, b), a)
  {
    if s != [] {
      FilterCommutes(s[1..], a, b);
      assert s == [s[0]] + s[1..];
      var rest := s[1..];
      FilterConcat([s[0]], Filter(rest, a), b);
      FilterConcat([s[0]], Filter(rest, b), a);
      assert Filter([s[0]], a) == if s[0] in a then [s[0]] else [];
      assert Filter([s[0]], b) == if s[0] in b then [s[0]] else [];
    }
  }

  /** The ids of one step of the walk. */
  lemma MergedStepIds(snapshot: seq<Item>, live: seq<Item>, payload: map<ItemId, Item>, all: set<ItemId>)
    requires snapshot != []
    requires forall id :: id in payload ==> payload[id].id == id
    ensures Ids(MergedItems(snapshot, live, payload, all))
         == Ids(InsertedBefore(live, all, snapshot[0].id)) + [snapshot[0].id]
            + Ids(MergedItems(snapshot[1..], live, payload, all))
  {
    var run := InsertedBefore(live, all, snapshot[0].id);
    var item := if snapshot[0].id in payload then payload[snapshot[0].id] else snapshot[0];
    IdsOfStep(run, item, MergedItems(snapshot[1..], live, payload, all));
  }

  lemma IdsOfStep(run: seq<Item>, item: Item, rest: seq<Item>)
    ensures Ids(run + [item] + rest) == Ids(run) + [item.id] + Ids(rest)
  {
    IdsConcat(run + [item], rest);
    IdsConcat(run, [item]);
  }

  lemma {:induction false} SnapshotOrderKept(snapshot: seq<Item>, live: seq<Item>, payload: map<ItemId, Item>, all: set<ItemId>)
    requires forall id :: id in payload ==> payload[id].id == id
    requires forall x :: x in Ids(snapshot) ==> x in all
    ensures Filter(Ids(MergedItems(snapshot, live, payload, all)), all) == Ids(snapshot)
  {
    if snapshot == [] {
      RunOutside(Trailing(live, all), all);
      FilterNone(Ids(Trailing(live, all)), all);
    } else {
      IdsCons(snapshot);
      SnapshotOrderKept(snapshot[1..], live, payload, all);
      MergedStepIds(snapshot, live, payload, all);
      var run := InsertedBefore(live, all, snapshot[0].id);
      RunOutside(run, all);
      FilterNone(Ids(run), all);
      FilterStep(Ids(run), snapshot[0].id, Ids(MergedItems(snapshot[1..], live, payload, all)), all);
    }
  }

  lemma IdsCons(items: seq<Item>)
    requires items != []
    ensures Ids(items) == [items[0].id] + Ids(items[1..])
    ensures items[0].id in Ids(items) && forall x :: x in Ids(items[1..]) ==> x in Ids(items)
  {
    assert Ids(items)[0] == items[0].id;
  }

  lemma RunOutside(run: seq<Item>, all: set<ItemId>)
    requires forall item :: item in run ==> item.id !in all
    ensures forall x :: x in Ids(run) ==> x !in all
  {
    forall x | x in Ids(run) ensures x !in all {
      OutsideSnapshot(run, all, x);
    }
  }

  lemma FilterStep(run: seq<ItemId>, id: ItemId, tail: seq<ItemId>, keep: set<ItemId>)
    ensures Filter(run + [id] + tail, keep) == Filter(run, keep) + (if id in keep then [id] else []) + Filter(tail, keep)
  {
    FilterConcat(run + [id], tail, keep);
    FilterConcat(run, [id], keep);
    assert Filter([id], keep) == if id in keep then [id] else [];
  }

  /** The live ids that the walk emits around the given snapshot ids. */
  function Weave(anchors: seq<ItemId>, live: seq<Item>, all: set<ItemId>, run: seq<Item> := []): seq<ItemId> {
    if anchors == [] then Ids(Trailing(live, all, run))
    else Ids(InsertedBefore(live, all, anchors[0], run)) + [anchors[0]] + Weave(anchors[1..], live, all, run)
  }

  /** Only the snapshot ids that are live matter to the order of the live ids. */
  lemma {:induction false} LiveIdsOfMerge(snapshot: seq<Item>, live: seq<Item>, payload: map<ItemId, Item>, all: set<ItemId>,
                                          liveIds: set<ItemId>)
    requires forall id :: id in payload ==> payload[id].id == id
    requires liveIds == SetOf(Ids(live))
    ensures Filter(Ids(MergedItems(snapshot, live, payload, all)), liveIds)
         == Weave(Filter(Ids(snapshot), liveIds), live, all)
  {
    if snapshot == [] {
      RunIsLive(Trailing(live, all), live, liveIds);
      FilterAll(Ids(Trailing(live, all)), liveIds);
    } else {
      var id := snapshot[0].id;
      LiveIdsOfMerge(snapshot[1..], live, payload, all, liveIds);
      MergedStepIds(snapshot, live, payload, all);
      var run := InsertedBefore(live, all, id);
      RunIsLive(run, live, liveIds);
      FilterStep(Ids(run), id, Ids(MergedItems(snapshot[1..], live, payload, all)), liveIds);
      FilterAll(Ids(run), liveIds);
      if id !in liveIds {
        NothingInserted(live, all, id);
      }
      WeaveFiltered(snapshot, live, all, liveIds);
    }
  }

  lemma RunIsLive(run: seq<Item>, live: seq<Item>, liveIds: set<ItemId>)
    requires liveIds == SetOf(Ids(live)) && forall item :: item in run ==> item in live
    ensures forall x :: x in Ids(run) ==> x in liveIds
  {
    forall x | x in Ids(run) ensures x in liveIds {
      IdsOfSubset(run, live, x);
    }
  }

  lemma WeaveFiltered(snapshot: seq<Item>, live: seq<Item>, all: set<ItemId>, liveIds: set<ItemId>)
    requires snapshot != []
    ensures var id := snapshot[0].id; var rest := Filter(Ids(snapshot[1..]), liveIds);
      Weave(Filter(Ids(snapshot), liveIds), live, all)
      == if id in liveIds then Ids(InsertedBefore(live, all, id)) + [id] + Weave(rest, live, all) else Weave(rest, live, all)
  {
    var id, rest := snapshot[0].id, Filter(Ids(snapshot[1..]), liveIds);
    assert Ids(snapshot)[0] == id && Ids(snapshot)[1..] == Ids(snapshot[1..]);
    assert ([id] + rest)[1..] == rest;
  }

  /** Past the first live item, when it is not one of the anchors. */
  lemma {:induction false} WeaveStep(anchors: seq<ItemId>, live: seq<Item>, all: set<ItemId>, run: seq<Item>)
    requires live != [] && (live[0].id in all ==> live[0].id !in anchors)
    ensures Weave(anchors, live, all, run)
         == Weave(anchors, live[1..], all, if live[0].id in all then [] else run + [live[0]])
  {
    if anchors != [] {
      WeaveStep(anchors[1..], live, all, run);
    }
  }

  /** Woven around its own snapshot ids, the live order comes back. */
  lemma {:induction false} WeaveOwnOrder(live: seq<Item>, all: set<ItemId>, run: seq<Item> := [])
    requires Distinct(Ids(live))
    ensures Weave(Filter(Ids(live), all), live, all, run) == Ids(run) + Ids(live)
  {
    if live != [] {
      HeadIsNew(live);
      WeaveStep(Filter(Ids(live[1..]), all), live, all, run);
      if live[0].id !in all {
        WeaveOwnOrder(live[1..], all, run + [live[0]]);
        IdsConcat(run, [live[0]]);
      } else {
        WeaveOwnOrder(live[1..], all);
        WeaveHead(live, all, run);
      }
    }
  }

  lemma WeaveHead(live: seq<Item>, all: set<ItemId>, run: seq<Item>)
    requires live != [] && live[0].id in all
    ensures Weave(Filter(Ids(live), all), live, all, run)
         == Ids(run) + [live[0].id] + Weave(Filter(Ids(live[1..]), all), live, all, run)
  {
    assert Ids(live)[1..] == Ids(live[1..]);
    assert Filter(Ids(live), all)[1..] == Filter(Ids(live[1..]), all);
  }

  lemma HeadIsNew(live: seq<Item>)
    requires live != [] && Distinct(Ids(live))
    ensures Distinct(Ids(live[1..])) && live[0].id !in Ids(live[1..])
  {
    DistinctParts([live[0].id], Ids(live[1..]));
    assert live[0].id in [live[0].id];
  }

  ghost predicate SameCommonOrder(a: seq<ItemId>, b: seq<ItemId>) {
    Filter(a, SetOf(b)) == Filter(b, SetOf(a))
  }

  /** The merge holds exactly the ids of both streams, keeps the snapshot's order always, and
      keeps the live stream's order if and only if the two streams list their common ids in the
      same order. */
  lemma OrderConstraints(snapshot: seq<Item>, liveItems: seq<Item>)
    ensures var order := LiveById(liveItems).order; var merged := Ids(Merge(snapshot, liveItems));
      && Filter(merged, SetOf(Ids(snapshot))) == Ids(snapshot)
      && (Filter(merged, SetOf(order)) == order <==> SameCommonOrder(Ids(snapshot), order))
  {
    var liveById := LiveById(liveItems);
    var live, all := Values(liveById), SetOf(Ids(snapshot));
    var order := liveById.order;
    var merged := Ids(Merge(snapshot, liveItems));
    SnapshotOrderKept(snapshot, live, liveById.content, all);
    LiveIdsOfMerge(snapshot, live, liveById.content, all, SetOf(order));
    WeaveOwnOrder(live, all);
    FilterCommutes(merged, all, SetOf(order));
  }

  /** Counterexample: with the common ids the other way round the live order is lost. */
  lemma LiveOrderLost(a: Item, b: Item)
    requires a.id != b.id
    ensures var order := LiveById([b, a]).order; Filter(Ids(Merge([a, b], [b, a])), SetOf(order)) != order
  {
    TwoLiveItems(b, a);
    TwoIds(a, b);
    NotCommonOrder(a.id, b.id);
    OrderLost([a, b], [b, a], [b.id, a.id]);
  }

  lemma OrderLost(snapshot: seq<Item>, liveItems: seq<Item>, order: seq<ItemId>)
    requires order == LiveById(liveItems).order && !SameCommonOrder(Ids(snapshot), order)
    ensures Filter(Ids(Merge(snapshot, liveItems)), SetOf(order)) != order
  {
    OrderConstraints(snapshot, liveItems);
  }

  lemma TwoIds(a: Item, b: Item)
    ensures Ids([a, b]) == [a.id, b.id]
  {
  }

  lemma NotCommonOrder(x: ItemId, y: ItemId)
    requires x != y
    ensures !SameCommonOrder([x, y], [y, x])
  {
    FilterAll([x, y], SetOf([y, x]));
    FilterAll([y, x], SetOf([x, y]));
    assert [x, y][0] != [y, x][0];
  }

  lemma TwoLiveItems(a: Item, b: Item)
    requires a.id != b.id
    ensures LiveById([a, b]).order == [a.id, b.id]
  {
    assert [a, b][..1] == [a] && [a][..0] == [];
    assert LiveById([a]) == Empty().Put(a.id, a);
  }

  // ------------------------------------------------- contents, and merging twice

  /** A live-only id lies in the trailing run or in the run before some snapshot id. */
  lemma {:induction false} Covered(live: seq<Item>, all: set<ItemId>, x: ItemId, run: seq<Item> := [])
    requires Distinct(Ids(live)) && x !in all && (x in Ids(live) || x in Ids(run))
    ensures x in Ids(Trailing(live, all, run)) || exists a :: a in all && x in Ids(InsertedBefore(live, all, a, run))
  {
    if live != [] {
      var head := live[0];
      HeadIsNew(live);
      if head.id !in all {
        IdsConcat(run, [head]);
        assert head.id in [head.id];
        Covered(live[1..], all, x, run + [head]);
      } else if x in Ids(run) {
        assert InsertedBefore(live, all, head.id, run) == run;
      } else {
        Covered(live[1..], all, x);
        NothingInserted(live[1..], all, head.id);
      }
    }
  }

  lemma {:induction false} MergedMembers(snapshot: seq<Item>, live: seq<Item>, payload: map<ItemId, Item>, all: set<ItemId>, x: ItemId)
    requires forall id :: id in payload ==> payload[id].id == id
    ensures x in Ids(MergedItems(snapshot, live, payload, all))
       <==> x in Ids(snapshot) || x in Ids(Trailing(live, all))
            || exists a :: a in Ids(snapshot) && x in Ids(InsertedBefore(live, all, a))
  {
    if snapshot != [] {
      MergedMembers(snapshot[1..], live, payload, all, x);
      MergedStepIds(snapshot, live, payload, all);
      assert snapshot == [snapshot[0]] + snapshot[1..];
      IdsConcat([snapshot[0]], snapshot[1..]);
      assert snapshot[0].id in Ids(snapshot);
    }
  }

  /** Where an item of the merge comes from: the live payload wins. */
  lemma {:induction false} MergedPayload(snapshot: seq<Item>, live: seq<Item>, payload: map<ItemId, Item>, all: set<ItemId>)
    requires forall item :: item in live ==> item.id in payload && payload[item.id] == item
    requires forall id :: id in payload ==> payload[id].id == id
    ensures forall item :: item in MergedItems(snapshot, live, payload, all) ==>
              if item.id in payload then item == payload[item.id] else item in snapshot
  {
    if snapshot == [] {
    } else {
      MergedPayload(snapshot[1..], live, payload, all);
    }
  }

  /** Items that are all in the snapshot with their live payloads: nothing to do. */
  lemma {:induction false} NothingNew(snapshot: seq<Item>, live: seq<Item>, payload: map<ItemId, Item>, all: set<ItemId>)
    requires forall x :: x in Ids(live) ==> x in all
    requires forall item :: item in snapshot && item.id in payload ==> item == payload[item.id]
    ensures MergedItems(snapshot, live, payload, all) == snapshot
  {
    if snapshot == [] {
      NoRuns(live, all, "");
    } else {
      NothingNew(snapshot[1..], live, payload, all);
      NoRuns(live, all, snapshot[0].id);
    }
  }

  lemma {:induction false} NoRuns(live: seq<Item>, all: set<ItemId>, a: ItemId)
    requires forall x :: x in Ids(live) ==> x in all
    ensures Trailing(live, all) == [] && InsertedBefore(live, all, a) == []
  {
    if live != [] {
      NoRuns(live[1..], all, a);
    }
  }

  /** The merge holds the ids of both streams, with the live payload where there is one. */
  lemma MergeContents(snapshot: seq<Item>, liveItems: seq<Item>)
    ensures var liveById := LiveById(liveItems); var merged := Merge(snapshot, liveItems);
      && (forall x :: x in Ids(merged) <==> x in Ids(snapshot) || x in liveById.order)
      && forall item :: item in merged ==>
           if item.id in liveById.content then item == liveById.content[item.id] else item in snapshot
  {
    var liveById := LiveById(liveItems);
    var live, all, payload := Values(liveById), SetOf(Ids(snapshot)), liveById.content;
    MergedPayload(snapshot, live, payload, all);
    forall x ensures x in Ids(Merge(snapshot, liveItems)) <==> x in Ids(snapshot) || x in liveById.order {
      MergedHolds(snapshot, live, payload, all, x);
    }
  }

  lemma MergedHolds(snapshot: seq<Item>, live: seq<Item>, payload: map<ItemId, Item>, all: set<ItemId>, x: ItemId)
    requires forall id :: id in payload ==> payload[id].id == id
    requires Distinct(Ids(live)) && all == SetOf(Ids(snapshot))
    ensures x in Ids(MergedItems(snapshot, live, payload, all)) <==> x in Ids(snapshot) || x in Ids(live)
  {
    MergedMembers(snapshot, live, payload, all, x);
    if x in Ids(live) && x !in Ids(snapshot) {
      Covered(live, all, x);
    }
    IdsOfSubset(Trailing(live, all), live, x);
    forall a ensures x in Ids(InsertedBefore(live, all, a)) ==> x in Ids(live) {
      IdsOfSubset(InsertedBefore(live, all, a), live, x);
    }
  }

  lemma IdsOfSubset(a: seq<Item>, b: seq<Item>, x: ItemId)
    requires forall item :: item in a ==> item in b
    ensures x in Ids(a) ==> x in Ids(b)
  {
    IdsHold(a, x);
    IdsHold(b, x);
  }

  /** Merging the same live items again changes nothing. */
  lemma MergeIsIdempotent(snapshot: seq<Item>, liveItems: seq<Item>)
    ensures Merge(Merge(snapshot, liveItems), liveItems) == Merge(snapshot, liveItems)
  {
    var merged, liveById := Merge(snapshot, liveItems), LiveById(liveItems);
    MergeContents(snapshot, liveItems);
    var live, all := Values(liveById), SetOf(Ids(merged));
    NothingNew(merged, live, liveById.content, all);
  }

  // ----------------------------------------------------------------- no doubles

  /** The runs are disjoint pieces of the live items. */
  lemma {:induction false} RunsDisjoint(live: seq<Item>, all: set<ItemId>, a: ItemId, b: ItemId, x: ItemId, run: seq<Item> := [])
    requires Distinct(Ids(run) + Ids(live)) && a != b
    requires x in Ids(InsertedBefore(live, all, a, run))
    ensures x !in Ids(InsertedBefore(live, all, b, run)) && x !in Ids(Trailing(live, all, run))
  {
    if live != [] {
      RunGrows(live, all, run);
      if live[0].id !in all {
        RunsDisjoint(live[1..], all, a, b, x, run + [live[0]]);
      } else if live[0].id == a {
        assert x in Ids(run);
        NotLater(live[1..], all, b, x);
      } else if live[0].id == b {
        if x in Ids(run) {
          NotLater(live[1..], all, a, x);
        }
        RunsDisjoint(live[1..], all, a, b, x);
      } else {
        RunsDisjoint(live[1..], all, a, b, x);
      }
    }
  }

  lemma RunGrows(live: seq<Item>, all: set<ItemId>, run: seq<Item>)
    requires live != [] && Distinct(Ids(run) + Ids(live))
    ensures Distinct(Ids(run + [live[0]]) + Ids(live[1..])) && Distinct([] + Ids(live[1..]))
    ensures forall x :: x in Ids(run) ==> x !in Ids(live[1..])
  {
    IdsConcat(run, [live[0]]);
    assert Ids(run) + Ids(live) == Ids(run + [live[0]]) + Ids(live[1..]);
    DistinctParts(Ids(run + [live[0]]), Ids(live[1..]));
    assert [] + Ids(live[1..]) == Ids(live[1..]);
    assert forall x :: x in Ids(run) ==> x in Ids(run + [live[0]]);
  }

  lemma NotLater(live: seq<Item>, all: set<ItemId>, b: ItemId, x: ItemId)
    requires x !in Ids(live)
    ensures x !in Ids(InsertedBefore(live, all, b)) && x !in Ids(Trailing(live, all))
  {
    IdsOfSubset(InsertedBefore(live, all, b), live, x);
    IdsOfSubset(Trailing(live, all), live, x);
  }

  lemma {:induction false} RunsDistinct(live: seq<Item>, all: set<ItemId>, a: ItemId, run: seq<Item> := [])
    requires Distinct(Ids(run) + Ids(live))
    ensures Distinct(Ids(InsertedBefore(live, all, a, run))) && Distinct(Ids(Trailing(live, all, run)))
  {
    DistinctParts(Ids(run), Ids(live));
    if live != [] {
      RunGrows(live, all, run);
      RunsDistinct(live[1..], all, a, if live[0].id in all then [] else run + [live[0]]);
    }
  }

  lemma {:induction false} MergedDistinct(snapshot: seq<Item>, live: seq<Item>, payload: map<ItemId, Item>, all: set<ItemId>)
    requires forall id :: id in payload ==> payload[id].id == id
    requires Distinct(Ids(snapshot)) && Distinct(Ids(live))
    requires forall x :: x in Ids(snapshot) ==> x in all
    ensures Distinct(Ids(MergedItems(snapshot, live, payload, all)))
  {
    assert [] + Ids(live) == Ids(live);
    if snapshot == [] {
      RunsDistinct(live, all, "");
    } else {
      var id, rest := snapshot[0].id, snapshot[1..];
      HeadIsNew(snapshot);
      MergedDistinct(rest, live, payload, all);
      MergedStepIds(snapshot, live, payload, all);
      RunsDistinct(live, all, id);
      var run, tail := Ids(InsertedBefore(live, all, id)), Ids(MergedItems(rest, live, payload, all));
      forall x | x in run + [id] ensures x !in tail {
        NotRepeated(snapshot, live, payload, all, x);
      }
      NotRepeated(snapshot, live, payload, all, id);
      DistinctSnoc(run, id);
      DistinctConcat(run + [id], tail);
    }
  }

  /** What one step of the walk emits is not emitted again. */
  lemma NotRepeated(snapshot: seq<Item>, live: seq<Item>, payload: map<ItemId, Item>, all: set<ItemId>, x: ItemId)
    requires forall id :: id in payload ==> payload[id].id == id
    requires snapshot != [] && Distinct(Ids(snapshot)) && Distinct(Ids([]) + Ids(live))
    requires forall x :: x in Ids(snapshot) ==> x in all
    requires x in Ids(InsertedBefore(live, all, snapshot[0].id)) || x == snapshot[0].id
    ensures x !in Ids(MergedItems(snapshot[1..], live, payload, all))
    ensures x == snapshot[0].id ==> x !in Ids(InsertedBefore(live, all, snapshot[0].id))
  {
    var id, rest := snapshot[0].id, snapshot[1..];
    HeadIsNew(snapshot);
    MergedMembers(rest, live, payload, all, x);
    if x in Ids(InsertedBefore(live, all, id)) {
      OutsideSnapshot(InsertedBefore(live, all, id), all, x);
      RunsDisjoint(live, all, id, id + "x", x);
      forall a | a in Ids(rest) ensures x !in Ids(InsertedBefore(live, all, a)) {
        RunsDisjoint(live, all, id, a, x);
      }
    } else {
      OutsideSnapshot(Trailing(live, all), all, x);
      forall a ensures x !in Ids(InsertedBefore(live, all, a)) {
        OutsideSnapshot(InsertedBefore(live, all, a), all, x);
      }
    }
  }

  lemma OutsideSnapshot(run: seq<Item>, all: set<ItemId>, x: ItemId)
    requires forall item :: item in run ==> item.id !in all
    ensures x in Ids(run) ==> x !in all
  {
    IdsHold(run, x);
  }

  lemma DistinctConcat(a: seq<ItemId>, b: seq<ItemId>)
    requires Distinct(a) && Distinct(b)
    requires forall x :: x in a ==> x !in b
    ensures Distinct(a + b)
  {
    assert forall i :: 0 <= i < |a| ==> a[i] in a;
    assert forall i :: 0 <= i < |b| ==> b[i] in b;
  }

  /** A snapshot without repeated ids merges into a timeline without repeated ids. */
  lemma MergeHasNoDoubles(snapshot: seq<Item>, liveItems: seq<Item>)
    requires Distinct(Ids(snapshot))
    ensures Distinct(Ids(Merge(snapshot, liveItems)))
  {
    var liveById := LiveById(liveItems);
    MergedDistinct(snapshot, Values(liveById), liveById.content, SetOf(Ids(snapshot)));
  }
}
