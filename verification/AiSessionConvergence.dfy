/** Convergence of the mobile session replica: whatever the interleaving of genuine messages, an
    entry at revision r is the reducer folded over the server's log up to r. */
module AiSessionConvergence {
  import opened OrderedMap
  import opened AiSessionReducer
  import opened AiSessionReplica

  /** A server stream: where it starts, and its complete log of events. */
  datatype Stream = Stream(instanceId: InstanceId, first: State, log: seq<Event>)

  type Streams = map<StreamId, Stream>

  /** What the first `k` events fold to. */
  function SnapshotAt(s: Stream, k: nat): Snapshot
    requires k <= |s.log|
  {
    if k == 0 then s.first.snapshot else NextSnapshot(SnapshotAt(s, k - 1), s.log[k - 1])
  }

  /** Event `k` carries its place in the log. */
  predicate Numbered(s: Stream, k: nat)
    requires k < |s.log|
  {
    var meta := s.log[k].meta;
    && meta.streamId == s.first.streamId && meta.instanceId == s.instanceId
    && meta.revision == s.first.revision + k + 1
    && (s.log[k].SnapshotEvent? || meta.previousRevision == s.first.revision + k)
  }

  ghost predicate WellFormed(streams: Streams) {
    forall id :: id in streams ==>
      streams[id].first.streamId == id && forall k :: 0 <= k < |streams[id].log| ==> Numbered(streams[id], k)
  }

  /** The projection is what the server's log folds to at its revision. */
  predicate IsFold(streams: Streams, instanceId: InstanceId, p: State) {
    && p.streamId in streams
    && var s := streams[p.streamId];
    && s.instanceId == instanceId
    && s.first.revision <= p.revision <= s.first.revision + |s.log|
    && p.snapshot == SnapshotAt(s, p.revision - s.first.revision)
  }

  /** The server produced this event: a log entry, or a snapshot of some state of the stream. */
  predicate Genuine(streams: Streams, e: Event) {
    && e.meta.streamId in streams
    && var s := streams[e.meta.streamId];
    && s.instanceId == e.meta.instanceId
    && if e.SnapshotEvent? then IsFold(streams, e.meta.instanceId, State(e.meta.streamId, e.meta.revision, e.meta.generatedAt, e.snapshot))
       else s.first.revision < e.meta.revision <= s.first.revision + |s.log| && s.log[e.meta.revision - s.first.revision - 1] == e
  }

  ghost predicate AllFold(streams: Streams, entries: seq<Entry>) {
    forall i :: 0 <= i < |entries| ==> IsFold(streams, entries[i].instanceId, entries[i].projection)
  }

  ghost predicate AllGenuine(streams: Streams, events: seq<Event>) {
    forall i :: 0 <= i < |events| ==> Genuine(streams, events[i])
  }

  ghost predicate GenuineAction(streams: Streams, a: Action) {
    match a
    case OnEvent(e) => Genuine(streams, e)
    case OnList(_, list) => AllFold(streams, list.instances)
    case OnSync(_, entries, _, _, deltas) =>
      AllFold(streams, entries) && forall i :: 0 <= i < |deltas| ==> AllGenuine(streams, deltas[i].events)
    case OnDelta(_, _, _, delta) => AllGenuine(streams, delta.events)
    case _ => true
  }

  // ---------------------------------------------------------------- convergence

  /** The reducer takes a fold and a genuine event to a fold. */
  lemma ApplyKeepsFold(streams: Streams, current: Option<State>, e: Event)
    requires WellFormed(streams) && Genuine(streams, e)
    requires current.Some? ==> IsFold(streams, e.meta.instanceId, current.value)
    ensures Apply(current, e).Applied? ==> IsFold(streams, e.meta.instanceId, Apply(current, e).projection)
  {
    AppliedIff(current, e);
    if Apply(current, e).Applied? && !e.SnapshotEvent? {
      var s := streams[e.meta.streamId];
      var k := e.meta.revision - s.first.revision;
      assert SnapshotAt(s, k) == NextSnapshot(SnapshotAt(s, k - 1), e);
    }
  }

  lemma FoldFound(streams: Streams, instances: seq<Entry>, id: InstanceId)
    requires AllFold(streams, instances)
    ensures Find(instances, id).Some? ==> IsFold(streams, id, Find(instances, id).value.projection)
  {
  }

  lemma PreserveKeepsFold(streams: Streams, current: Option<View>, incoming: View)
    requires AllFold(streams, Visible(current)) && AllFold(streams, incoming.instances)
    ensures AllFold(streams, PreserveNewer(current, incoming).instances)
  {
    PreserveNewerInstances(current, incoming);
    var r := NewerEach(Visible(current), incoming.instances);
    forall i | 0 <= i < |r| ensures IsFold(streams, r[i].instanceId, r[i].projection) {
      FoldFound(streams, Visible(current), incoming.instances[i].instanceId);
    }
  }

  lemma {:induction false} PlacedKeepsFold(streams: Streams, instances: seq<Entry>, entry: Entry)
    requires AllFold(streams, instances) && IsFold(streams, entry.instanceId, entry.projection)
    ensures AllFold(streams, Placed(instances, entry))
  {
    if instances != [] {
      PlacedKeepsFold(streams, instances[1..], entry);
    }
  }

  lemma EventKeepsFold(streams: Streams, view: Option<View>, e: Event)
    requires WellFormed(streams) && Genuine(streams, e) && AllFold(streams, Visible(view))
    ensures AllFold(streams, Visible(ApplyEvent(view, e).1))
  {
    var entry := Find(Visible(view), e.meta.instanceId);
    FoldFound(streams, Visible(view), e.meta.instanceId);
    var current := if entry.Some? then Some(entry.value.projection) else None;
    ApplyKeepsFold(streams, current, e);
    var outcome := Apply(current, e);
    if outcome.Applied? {
      var placed := Placed(Visible(view), Entry(e.meta.instanceId, outcome.projection));
      PlacedKeepsFold(streams, Visible(view), Entry(e.meta.instanceId, outcome.projection));
      PreserveKeepsFold(streams, view, View(outcome.projection.lastEventAt, placed));
    }
  }

  lemma {:induction false} EventsKeepFold(streams: Streams, view: Option<View>, events: seq<Event>)
    requires WellFormed(streams) && AllGenuine(streams, events) && AllFold(streams, Visible(view))
    ensures AllFold(streams, Visible(ApplyUntilGap(view, events).1))
    decreases |events|
  {
    if events != [] {
      EventKeepsFold(streams, view, events[0]);
      EventsKeepFold(streams, ApplyEvent(view, events[0]).1, events[1..]);
    }
  }

  lemma {:induction false} DeltasKeepFold(streams: Streams, view: Option<View>, deltas: seq<Delta>)
    requires WellFormed(streams) && AllFold(streams, Visible(view))
    requires forall i :: 0 <= i < |deltas| ==> AllGenuine(streams, deltas[i].events)
    ensures AllFold(streams, Visible(ApplyDeltas(view, deltas).1))
    decreases |deltas|
  {
    if deltas != [] {
      EventsKeepFold(streams, view, deltas[0].events);
      DeltasKeepFold(streams, ApplyUntilGap(view, deltas[0].events).1, deltas[1..]);
    }
  }

  lemma {:induction false} WithoutKeepsFold(streams: Streams, instances: seq<Entry>, ids: set<InstanceId>)
    requires AllFold(streams, instances)
    ensures AllFold(streams, WithoutInstances(instances, ids))
  {
    if instances != [] {
      WithoutKeepsFold(streams, instances[1..], ids);
    }
  }

  lemma {:induction false} PlacedAllKeepsFold(streams: Streams, instances: seq<Entry>, entries: seq<Entry>)
    requires AllFold(streams, instances) && AllFold(streams, entries)
    ensures AllFold(streams, PlacedAll(instances, entries))
  {
    if entries != [] {
      var n := |entries| - 1;
      PlacedAllKeepsFold(streams, instances, entries[..n]);
      PlacedKeepsFold(streams, PlacedAll(instances, entries[..n]), entries[n]);
    }
  }

  lemma StepKeepsFold(streams: Streams, r: Replica, a: Action)
    requires WellFormed(streams) && GenuineAction(streams, a) && AllFold(streams, Visible(r.view))
    ensures AllFold(streams, Visible(Step(r, a).view))
  {
    match a
    case OnEvent(e) => EventKeepsFold(streams, r.view, e);
    case OnList(_, list) => PreserveKeepsFold(streams, r.view, list);
    case OnSync(_, entries, removed, updatedAt, deltas) =>
      var kept := WithoutInstances(Visible(r.view), SetOf(removed));
      WithoutKeepsFold(streams, Visible(r.view), SetOf(removed));
      PlacedAllKeepsFold(streams, kept, entries);
      PreserveKeepsFold(streams, r.view, View(updatedAt, PlacedAll(kept, entries)));
      DeltasKeepFold(streams, ReplaceInstances(r.view, entries, removed, updatedAt), deltas);
    case OnDelta(_, _, _, delta) => EventsKeepFold(streams, r.view, delta.events);
    case _ =>
  }

  /** Stream convergence. Live events, lists, syncs and recoveries may be dropped, repeated,
      reordered and late in any way: every entry the replica ever shows is the server's log
      folded up to the entry's revision. */
  lemma {:induction false} ReplicaIsFold(streams: Streams, actions: seq<Action>)
    requires WellFormed(streams)
    requires forall i :: 0 <= i < |actions| ==> GenuineAction(streams, actions[i])
    ensures AllFold(streams, Visible(Run(Replica(None, 0, false), actions).view))
  {
    if actions != [] {
      var n := |actions| - 1;
      ReplicaIsFold(streams, actions[..n]);
      StepKeepsFold(streams, Run(Replica(None, 0, false), actions[..n]), actions[n]);
    }
  }

  // ------------------------------------------------------------ the epoch fence

  predicate LateResponse(r: Replica, a: Action) {
    match a
    case OnList(since, _) => since < r.epoch
    case OnSync(since, _, _, _, _) => since < r.epoch
    case OnDelta(since, _, _, _) => since < r.epoch
    case Stop => true
    case _ => false
  }

  /** After a stop, the answers to everything asked before it change nothing, in any number and
      order. */
  lemma {:induction false} LateResponsesIgnored(r: Replica, actions: seq<Action>)
    requires forall i :: 0 <= i < |actions| ==> LateResponse(r, actions[i])
    ensures Run(r, actions).view == r.view && Run(r, actions).epoch >= r.epoch
  {
    if actions != [] {
      var n := |actions| - 1;
      LateResponsesIgnored(r, actions[..n]);
      assert LateResponse(r, actions[n]);
    }
  }

  // ------------------------------------------------------------- one instance

  lemma {:induction false} FindPlaced(instances: seq<Entry>, entry: Entry, id: InstanceId)
    ensures Find(Placed(instances, entry), id) == if id == entry.instanceId then Some(entry) else Find(instances, id)
  {
    if instances != [] {
      FindPlaced(instances[1..], entry, id);
    }
  }

  lemma {:induction false} FindNewer(current: seq<Entry>, incoming: seq<Entry>, id: InstanceId)
    ensures Find(NewerEach(current, incoming), id)
         == if Find(incoming, id).Some? then Some(Newer(current, Find(incoming, id).value)) else None
  {
    if incoming != [] {
      FindNewer(current, incoming[1..], id);
    }
  }

  /** What an event does to each instance: the addressed one shows the outcome, all others stay. */
  lemma FindAfterEvent(view: Option<View>, e: Event, id: InstanceId)
    ensures var before := Find(Visible(view), e.meta.instanceId);
      var outcome := Apply(if before.Some? then Some(before.value.projection) else None, e);
      && outcome == ApplyEvent(view, e).0
      && Find(Visible(ApplyEvent(view, e).1), id)
         == if outcome.Applied? && id == e.meta.instanceId then Some(Entry(id, outcome.projection)) else Find(Visible(view), id)
  {
    var before := Find(Visible(view), e.meta.instanceId);
    var current := if before.Some? then Some(before.value.projection) else None;
    var outcome := Apply(current, e);
    AppliedIff(current, e);
    if outcome.Applied? {
      var entry := Entry(e.meta.instanceId, outcome.projection);
      var incoming := View(outcome.projection.lastEventAt, Placed(Visible(view), entry));
      PreserveNewerInstances(view, incoming);
      FindNewer(Visible(view), incoming.instances, id);
      FindPlaced(Visible(view), entry, id);
    }
  }

  /** The single operations on the store. */
  datatype StoreOp =
    | Event(e: AiSessionReducer.Event)
    | Replace(incoming: View)
    | Instances(entries: seq<Entry>, removed: seq<InstanceId>, updatedAt: Time)
    | Clear

  function ApplyOp(view: Option<View>, op: StoreOp): Option<View> {
    match op
    case Event(e) => ApplyEvent(view, e).1
    case Replace(incoming) => Some(PreserveNewer(view, incoming))
    case Instances(entries, removed, updatedAt) => ReplaceInstances(view, entries, removed, updatedAt)
    case Clear => None
  }

  /** The instance is shown on this stream. */
  predicate On(view: Option<View>, id: InstanceId, streamId: StreamId) {
    Find(Visible(view), id).Some? && Find(Visible(view), id).value.projection.streamId == streamId
  }

  function RevisionOf(view: Option<View>, id: InstanceId, streamId: StreamId): nat
    requires On(view, id, streamId)
  {
    Find(Visible(view), id).value.projection.revision
  }

  lemma OpNeverGoesBack(view: Option<View>, op: StoreOp, id: InstanceId, streamId: StreamId)
    requires On(view, id, streamId) && On(ApplyOp(view, op), id, streamId)
    ensures RevisionOf(ApplyOp(view, op), id, streamId) >= RevisionOf(view, id, streamId)
  {
    match op
    case Event(e) =>
      FindAfterEvent(view, e, id);
      var before := Find(Visible(view), e.meta.instanceId);
      AppliedIff(if before.Some? then Some(before.value.projection) else None, e);
    case Replace(incoming) => PreserveNeverGoesBack(view, incoming, id, streamId);
    case Instances(entries, removed, updatedAt) =>
      if entries != [] || removed != [] {
        var incoming := View(updatedAt, PlacedAll(WithoutInstances(Visible(view), SetOf(removed)), entries));
        PreserveNeverGoesBack(view, incoming, id, streamId);
      }
    case Clear =>
  }

  lemma PreserveNeverGoesBack(view: Option<View>, incoming: View, id: InstanceId, streamId: StreamId)
    requires On(view, id, streamId) && On(Some(PreserveNewer(view, incoming)), id, streamId)
    ensures RevisionOf(Some(PreserveNewer(view, incoming)), id, streamId) >= RevisionOf(view, id, streamId)
  {
    PreserveNewerInstances(view, incoming);
    FindNewer(Visible(view), incoming.instances, id);
  }

  function RunOps(view: Option<View>, ops: seq<StoreOp>): Option<View>
    decreases |ops|
  {
    if ops == [] then view else RunOps(ApplyOp(view, ops[0]), ops[1..])
  }

  /** The last entry of an instance. */
  function LastFor(entries: seq<Entry>, id: InstanceId): Option<Entry> {
    if entries == [] then None
    else if entries[|entries| - 1].instanceId == id then Some(entries[|entries| - 1])
    else LastFor(entries[..|entries| - 1], id)
  }

  /** What an operation carries for an instance by itself, whatever the replica shows. */
  function Carried(op: StoreOp, id: InstanceId): Option<Entry> {
    match op
    case Event(e) =>
      if e.SnapshotEvent? && e.meta.instanceId == id
      then Some(Entry(id, State(e.meta.streamId, e.meta.revision, e.meta.generatedAt, e.snapshot))) else None
    case Replace(incoming) => Find(incoming.instances, id)
    case Instances(entries, _, _) => LastFor(entries, id)
    case Clear => None
  }

  predicate Carries(op: StoreOp, id: InstanceId, streamId: StreamId) {
    Carried(op, id).Some? && Carried(op, id).value.projection.streamId == streamId
  }

  lemma {:induction false} FindPlacedAll(instances: seq<Entry>, entries: seq<Entry>, id: InstanceId)
    ensures Find(PlacedAll(instances, entries), id)
         == if LastFor(entries, id).Some? then LastFor(entries, id) else Find(instances, id)
  {
    if entries != [] {
      var n := |entries| - 1;
      FindPlacedAll(instances, entries[..n], id);
      FindPlaced(PlacedAll(instances, entries[..n]), entries[n], id);
    }
  }

  lemma {:induction false} FindWithout(instances: seq<Entry>, ids: set<InstanceId>, id: InstanceId)
    ensures Find(WithoutInstances(instances, ids), id) == if id in ids then None else Find(instances, id)
  {
    if instances != [] {
      FindWithout(instances[1..], ids, id);
    }
  }

  /** An instance that is not on the stream comes to it exactly when the operation carries the
      stream, and then at the revision that the operation carries. */
  lemma OffStreamShows(view: Option<View>, op: StoreOp, id: InstanceId, streamId: StreamId)
    requires !On(view, id, streamId)
    ensures On(ApplyOp(view, op), id, streamId) <==> Carries(op, id, streamId)
    ensures Carries(op, id, streamId) ==>
      RevisionOf(ApplyOp(view, op), id, streamId) == Carried(op, id).value.projection.revision
  {
    match op
    case Event(e) =>
      FindAfterEvent(view, e, id);
      var before := Find(Visible(view), e.meta.instanceId);
      AppliedIff(if before.Some? then Some(before.value.projection) else None, e);
    case Replace(incoming) => PreserveOffStream(view, incoming, id, streamId);
    case Instances(entries, removed, updatedAt) =>
      if entries != [] || removed != [] {
        var kept := WithoutInstances(Visible(view), SetOf(removed));
        FindWithout(Visible(view), SetOf(removed), id);
        FindPlacedAll(kept, entries, id);
        PreserveOffStream(view, View(updatedAt, PlacedAll(kept, entries)), id, streamId);
      }
    case Clear =>
  }

  lemma PreserveOffStream(view: Option<View>, incoming: View, id: InstanceId, streamId: StreamId)
    requires !On(view, id, streamId)
    ensures var carried, after := Find(incoming.instances, id), Some(PreserveNewer(view, incoming));
      && (On(after, id, streamId) <==> carried.Some? && carried.value.projection.streamId == streamId)
      && (On(after, id, streamId) ==> RevisionOf(after, id, streamId) == carried.value.projection.revision)
  {
    PreserveNewerInstances(view, incoming);
    FindNewer(Visible(view), incoming.instances, id);
  }

  // ---------------------------------------------------------- falling revisions

  /** The highest revision at which the instance has been shown on the stream, -1 before the first
      time; `seen` is the highest one before this view. */
  function MaxSeen(view: Option<View>, seen: int, id: InstanceId, streamId: StreamId): int {
    if On(view, id, streamId) then Max(RevisionOf(view, id, streamId), seen) else seen
  }

  function MaxSeenBy(view: Option<View>, seen: int, ops: seq<StoreOp>, id: InstanceId, streamId: StreamId): int
    decreases |ops|
  {
    if ops == [] then MaxSeen(view, seen, id, streamId)
    else MaxSeenBy(ApplyOp(view, ops[0]), MaxSeen(view, seen, id, streamId), ops[1..], id, streamId)
  }

  predicate Below(view: Option<View>, seen: int, id: InstanceId, streamId: StreamId) {
    On(view, id, streamId) && RevisionOf(view, id, streamId) < seen
  }

  /** The instance is not on the stream and the operation carries the stream at a lower revision
      than it has been shown at. */
  predicate LateReturn(view: Option<View>, seen: int, op: StoreOp, id: InstanceId, streamId: StreamId) {
    && !On(view, id, streamId) && Carries(op, id, streamId)
    && Carried(op, id).value.projection.revision < MaxSeen(view, seen, id, streamId)
  }

  /** One operation takes a stream below what was shown of it exactly when it is a late return. */
  lemma FallsIff(view: Option<View>, seen: int, op: StoreOp, id: InstanceId, streamId: StreamId)
    requires !Below(view, seen, id, streamId)
    ensures Below(ApplyOp(view, op), MaxSeen(view, seen, id, streamId), id, streamId) <==>
            LateReturn(view, seen, op, id, streamId)
  {
    if On(view, id, streamId) {
      if On(ApplyOp(view, op), id, streamId) {
        OpNeverGoesBack(view, op, id, streamId);
      }
    } else {
      OffStreamShows(view, op, id, streamId);
    }
  }

  /** Some view of the run shows the stream below what an earlier one showed. */
  predicate EverBelow(view: Option<View>, seen: int, ops: seq<StoreOp>, id: InstanceId, streamId: StreamId)
    decreases |ops|
  {
    || Below(view, seen, id, streamId)
    || (ops != [] && EverBelow(ApplyOp(view, ops[0]), MaxSeen(view, seen, id, streamId), ops[1..], id, streamId))
  }

  predicate HasLateReturn(view: Option<View>, seen: int, ops: seq<StoreOp>, id: InstanceId, streamId: StreamId)
    decreases |ops|
  {
    ops != [] && (LateReturn(view, seen, ops[0], id, streamId)
                  || HasLateReturn(ApplyOp(view, ops[0]), MaxSeen(view, seen, id, streamId), ops[1..], id, streamId))
  }

  /** Over every run of operations the revision of a stream falls if and only if one of them is a
      late return; without one, a stream that is shown at the end is shown at the highest revision
      it ever had. */
  lemma {:induction false} RevisionFallsIff(view: Option<View>, seen: int, ops: seq<StoreOp>, id: InstanceId, streamId: StreamId)
    requires !Below(view, seen, id, streamId)
    ensures EverBelow(view, seen, ops, id, streamId) <==> HasLateReturn(view, seen, ops, id, streamId)
    ensures !HasLateReturn(view, seen, ops, id, streamId) && On(RunOps(view, ops), id, streamId) ==>
      RevisionOf(RunOps(view, ops), id, streamId) == MaxSeenBy(view, seen, ops, id, streamId)
    decreases |ops|
  {
    if ops != [] {
      FallsIff(view, seen, ops[0], id, streamId);
      if !LateReturn(view, seen, ops[0], id, streamId) {
        RevisionFallsIff(ApplyOp(view, ops[0]), MaxSeen(view, seen, id, streamId), ops[1..], id, streamId);
      }
    }
  }

  /** The operations that an action of the replica amounts to. */
  function EventOps(view: Option<View>, events: seq<AiSessionReducer.Event>): seq<StoreOp>
    decreases |events|
  {
    if events == [] then []
    else if Breaks(ApplyEvent(view, events[0]).0) then [Event(events[0])]
    else [Event(events[0])] + EventOps(ApplyEvent(view, events[0]).1, events[1..])
  }

  function DeltaOps(view: Option<View>, deltas: seq<Delta>): seq<StoreOp>
    decreases |deltas|
  {
    if deltas == [] then []
    else
      var (complete, next) := ApplyUntilGap(view, deltas[0].events);
      if !complete || HighestRevision(deltas[0].events, deltas[0].sinceRevision) < deltas[0].latestRevision
      then EventOps(view, deltas[0].events)
      else EventOps(view, deltas[0].events) + DeltaOps(next, deltas[1..])
  }

  function OpsOf(r: Replica, a: Action): seq<StoreOp> {
    match a
    case Stop => []
    case Retire => [Clear]
    case OnEvent(e) => if r.retired then [] else [Event(e)]
    case OnList(since, list) => if since != r.epoch || r.retired then [] else [Replace(list)]
    case OnSync(since, entries, removed, updatedAt, deltas) =>
      if since != r.epoch || r.retired then []
      else [Instances(entries, removed, updatedAt)] + DeltaOps(ReplaceInstances(r.view, entries, removed, updatedAt), deltas)
    case OnDelta(since, _, askedFor, delta) =>
      if since != r.epoch || r.retired || delta.syncRequired || delta.streamId != askedFor then []
      else EventOps(r.view, delta.events)
  }

  function OpsOfRun(r: Replica, actions: seq<Action>): seq<StoreOp> {
    if actions == [] then []
    else OpsOfRun(r, actions[..|actions| - 1]) + OpsOf(Run(r, actions[..|actions| - 1]), actions[|actions| - 1])
  }

  lemma {:induction false} RunOpsConcat(view: Option<View>, a: seq<StoreOp>, b: seq<StoreOp>)
    ensures RunOps(view, a + b) == RunOps(RunOps(view, a), b)
    decreases |a|
  {
    if a == [] {
      assert a + b == b;
    } else {
      assert (a + b)[1..] == a[1..] + b;
      RunOpsConcat(ApplyOp(view, a[0]), a[1..], b);
    }
  }

  lemma {:induction false} EventsAreOps(view: Option<View>, events: seq<AiSessionReducer.Event>)
    ensures RunOps(view, EventOps(view, events)) == ApplyUntilGap(view, events).1
    decreases |events|
  {
    if events != [] {
      var next := ApplyEvent(view, events[0]).1;
      var rest := if Breaks(ApplyEvent(view, events[0]).0) then [] else EventOps(next, events[1..]);
      var ops := [Event(events[0])] + rest;
      assert EventOps(view, events) == ops && ops[1..] == rest;
      assert RunOps(view, ops) == RunOps(next, rest);
      EventsAreOps(next, events[1..]);
    }
  }

  lemma {:induction false} DeltasAreOps(view: Option<View>, deltas: seq<Delta>)
    ensures RunOps(view, DeltaOps(view, deltas)) == ApplyDeltas(view, deltas).1
    decreases |deltas|
  {
    if deltas != [] {
      var next := ApplyUntilGap(view, deltas[0].events).1;
      EventsAreOps(view, deltas[0].events);
      DeltasAreOps(next, deltas[1..]);
      RunOpsConcat(view, EventOps(view, deltas[0].events), DeltaOps(next, deltas[1..]));
    }
  }

  lemma RunOp(view: Option<View>, op: StoreOp, rest: seq<StoreOp>)
    ensures RunOps(view, [op] + rest) == RunOps(ApplyOp(view, op), rest)
  {
    assert ([op] + rest)[1..] == rest;
  }

  lemma StepIsOps(r: Replica, a: Action)
    ensures Step(r, a).view == RunOps(r.view, OpsOf(r, a))
  {
    match a
    case Stop =>
    case Retire => RunOp(r.view, Clear, []);
    case OnEvent(e) => RunOp(r.view, Event(e), []);
    case OnList(_, list) => RunOp(r.view, Replace(list), []);
    case OnSync(_, entries, removed, updatedAt, deltas) =>
      var next := ReplaceInstances(r.view, entries, removed, updatedAt);
      RunOp(r.view, Instances(entries, removed, updatedAt), DeltaOps(next, deltas));
      DeltasAreOps(next, deltas);
    case OnDelta(_, _, _, delta) => EventsAreOps(r.view, delta.events);
  }

  lemma {:induction false} RunIsOps(r: Replica, actions: seq<Action>)
    ensures Run(r, actions).view == RunOps(r.view, OpsOfRun(r, actions))
  {
    if actions != [] {
      var n := |actions| - 1;
      RunIsOps(r, actions[..n]);
      StepIsOps(Run(r, actions[..n]), actions[n]);
      RunOpsConcat(r.view, OpsOfRun(r, actions[..n]), OpsOf(Run(r, actions[..n]), actions[n]));
    }
  }

  /** For the replica: a stream that is shown after any run of its actions is shown at the highest
      revision it ever had, unless some operation of the run was a late return; and only a late
      return makes it fall. */
  lemma ReplicaRevisionFallsIff(actions: seq<Action>, id: InstanceId, streamId: StreamId)
    ensures var r := Replica(None, 0, false);
      var ops, last := OpsOfRun(r, actions), Run(r, actions).view;
      && (EverBelow(None, -1, ops, id, streamId) <==> HasLateReturn(None, -1, ops, id, streamId))
      && (!HasLateReturn(None, -1, ops, id, streamId) && On(last, id, streamId) ==>
            RevisionOf(last, id, streamId) == MaxSeenBy(None, -1, ops, id, streamId))
  {
    var r := Replica(None, 0, false);
    RunIsOps(r, actions);
    RevisionFallsIff(None, -1, OpsOfRun(r, actions), id, streamId);
  }

  /** The instance stays on the stream all along the run. */
  predicate StaysOn(view: Option<View>, ops: seq<StoreOp>, id: InstanceId, streamId: StreamId)
    decreases |ops|
  {
    On(view, id, streamId) && (ops != [] ==> StaysOn(ApplyOp(view, ops[0]), ops[1..], id, streamId))
  }

  /** In particular, as long as an instance stays on one stream, its revision never falls. */
  lemma {:induction false} RevisionNeverFalls(view: Option<View>, seen: int, ops: seq<StoreOp>, id: InstanceId, streamId: StreamId)
    requires StaysOn(view, ops, id, streamId) && !Below(view, seen, id, streamId)
    ensures !HasLateReturn(view, seen, ops, id, streamId) && On(RunOps(view, ops), id, streamId)
    ensures RevisionOf(RunOps(view, ops), id, streamId) == MaxSeenBy(view, seen, ops, id, streamId)
    decreases |ops|
  {
    if ops != [] {
      FallsIff(view, seen, ops[0], id, streamId);
      RevisionNeverFalls(ApplyOp(view, ops[0]), MaxSeen(view, seen, id, streamId), ops[1..], id, streamId);
    }
  }

  /** Counterexample, a late return: the instance is removed, then a late list shows it
      again at an older revision of the same stream. */
  lemma RevisionFallsAcrossRemoval(newer: Entry, older: Entry)
    requires newer.instanceId == older.instanceId && newer.projection.streamId == older.projection.streamId
    requires older.projection.revision < newer.projection.revision
    ensures var ops := [Instances([], [newer.instanceId], 0), Replace(View(0, [older]))];
      RunOps(Some(View(0, [newer])), ops).Some? && Find(Visible(RunOps(Some(View(0, [newer])), ops)), newer.instanceId) == Some(older)
  {
    var ops := [Instances([], [newer.instanceId], 0), Replace(View(0, [older]))];
    var view := Some(View(0, [newer]));
    assert newer.instanceId in SetOf([newer.instanceId]);
    var removed := ApplyOp(view, ops[0]);
    assert WithoutInstances([newer], SetOf([newer.instanceId])) == [];
    assert removed == Some(PreserveNewer(view, View(0, [])));
    PreserveNewerInstances(view, View(0, []));
    assert removed.value.instances == [];
    assert ops[1..] == [ops[1]] && [ops[1]][1..] == [];
    assert RunOps(view, ops) == RunOps(removed, [ops[1]]) == RunOps(ApplyOp(removed, ops[1]), []);
    PreserveNewerInstances(removed, View(0, [older]));
    assert NewerEach([], [older]) == [older];
  }

  // --------------------------------------------------------------- recovery

  /** The consecutive log entries `from`, .., `until` - 1 bring an instance that is at `from` or
      beyond it to `until`, or leave it where it is when it is further already. */
  lemma {:induction false} EventsCatchUp(streams: Streams, view: Option<View>, id: InstanceId, streamId: StreamId, from: nat, until: nat)
    requires WellFormed(streams) && streamId in streams && streams[streamId].instanceId == id
    requires from <= until <= |streams[streamId].log|
    requires On(view, id, streamId)
    requires RevisionOf(view, id, streamId) >= streams[streamId].first.revision + from
    ensures var (complete, after) := ApplyUntilGap(view, streams[streamId].log[from..until]);
      && complete && On(after, id, streamId)
      && RevisionOf(after, id, streamId) == Max(RevisionOf(view, id, streamId), streams[streamId].first.revision + until)
    decreases until - from
  {
    var log := streams[streamId].log;
    if from < until {
      assert log[from..until][1..] == log[from + 1..until];
      LogEventMovesOn(streams, view, id, streamId, from);
      EventsCatchUp(streams, ApplyEvent(view, log[from]).1, id, streamId, from + 1, until);
    }
  }

  lemma LogEventMovesOn(streams: Streams, view: Option<View>, id: InstanceId, streamId: StreamId, k: nat)
    requires WellFormed(streams) && streamId in streams && streams[streamId].instanceId == id
    requires k < |streams[streamId].log|
    requires On(view, id, streamId) && RevisionOf(view, id, streamId) >= streams[streamId].first.revision + k
    ensures var (outcome, after) := ApplyEvent(view, streams[streamId].log[k]);
      && !Breaks(outcome) && On(after, id, streamId)
      && RevisionOf(after, id, streamId) == Max(RevisionOf(view, id, streamId), streams[streamId].first.revision + k + 1)
  {
    assert Numbered(streams[streamId], k);
    FindAfterEvent(view, streams[streamId].log[k], id);
  }

  function After(history: seq<AiSessionReducer.Event>, revision: nat): seq<AiSessionReducer.Event> {
    if history == [] then []
    else if history[0].meta.revision > revision then [history[0]] + After(history[1..], revision)
    else After(history[1..], revision)
  }

  /** `ControlPlaneAiSessionAggregator.delta`. */
  function AggregatorDelta(streamId: StreamId, latest: nat, history: seq<AiSessionReducer.Event>, askedFor: StreamId, since: nat): Delta {
    if askedFor != streamId || since > latest then Delta(streamId, since, latest, true, [])
    else if since == latest then Delta(streamId, since, latest, false, [])
    else
      var events := After(history, since);
      var syncRequired := events == [] || events[0].meta.revision != since + 1;
      Delta(streamId, since, latest, syncRequired, if syncRequired then [] else events)
  }

  lemma {:induction false} AfterIsSuffix(s: Stream, start: nat, until: nat, revision: nat)
    requires start <= until <= |s.log|
    requires forall k :: start <= k < until ==> s.log[k].meta.revision == s.first.revision + k + 1
    ensures var from := Max(start, revision - s.first.revision);
      After(s.log[start..until], revision) == (if from <= until then s.log[from..until] else [])
    decreases until - start
  {
    if start < until {
      assert s.log[start..until][1..] == s.log[start + 1..until];
      AfterIsSuffix(s, start + 1, until, revision);
    }
  }

  /** With the log retained from `start` on and known up to `until`, the server demands a sync
      exactly when the stream differs, the replica is ahead, or the next event is not retained;
      otherwise it sends exactly the missing events. */
  lemma DeltaIsExact(streams: Streams, streamId: StreamId, start: nat, until: nat, askedFor: StreamId, since: nat)
    requires WellFormed(streams) && streamId in streams && start <= until <= |streams[streamId].log|
    ensures var s := streams[streamId];
      var latest := s.first.revision + until;
      var delta := AggregatorDelta(streamId, latest, s.log[start..until], askedFor, since);
      && (delta.syncRequired <==> askedFor != streamId || since > latest || (since < latest && since < s.first.revision + start))
      && (!delta.syncRequired ==> since >= s.first.revision + start || since == latest)
      && (!delta.syncRequired && since >= s.first.revision ==> delta.events == s.log[since - s.first.revision..until])
  {
    var s := streams[streamId];
    forall k | start <= k < until ensures s.log[k].meta.revision == s.first.revision + k + 1 {
      assert Numbered(s, k);
    }
    AfterIsSuffix(s, start, until, since);
  }

  /** The missing events, applied in order, bring the instance to the server's revision. */
  lemma MissingEventsCatchUp(streams: Streams, view: Option<View>, id: InstanceId, streamId: StreamId, from: nat, until: nat)
    requires WellFormed(streams) && streamId in streams && streams[streamId].instanceId == id
    requires from <= until <= |streams[streamId].log|
    requires AllFold(streams, Visible(view))
    requires On(view, id, streamId) && RevisionOf(view, id, streamId) >= streams[streamId].first.revision + from
    ensures var (complete, after) := ApplyUntilGap(view, streams[streamId].log[from..until]);
      CaughtUp(streams, view, after, id, streamId, until) && complete
  {
    EventsCatchUp(streams, view, id, streamId, from, until);
    SliceIsGenuine(streams, streamId, from, until);
    EventsKeepFold(streams, view, streams[streamId].log[from..until]);
  }

  /** The instance has come from `before` to the first `until` events of the log, or is further. */
  ghost predicate CaughtUp(streams: Streams, before: Option<View>, after: Option<View>, id: InstanceId, streamId: StreamId, until: nat) {
    && AllFold(streams, Visible(after))
    && streamId in streams && On(before, id, streamId) && On(after, id, streamId)
    && RevisionOf(after, id, streamId) == Max(RevisionOf(before, id, streamId), streams[streamId].first.revision + until)
  }

  /** A recovery that receives exactly the missing events is content and catches up. */
  lemma RecoveryHandled(streams: Streams, r: Replica, id: InstanceId, streamId: StreamId, delta: Delta, from: nat, until: nat)
    requires WellFormed(streams) && streamId in streams && streams[streamId].instanceId == id
    requires from <= until <= |streams[streamId].log|
    requires AllFold(streams, Visible(r.view)) && !r.retired
    requires On(r.view, id, streamId) && RevisionOf(r.view, id, streamId) >= streams[streamId].first.revision + from
    requires !delta.syncRequired && delta.streamId == streamId && delta.events == streams[streamId].log[from..until]
    requires delta.latestRevision == streams[streamId].first.revision + until
    ensures var (content, after) := Handle(r, OnDelta(r.epoch, id, streamId, delta));
      content && CaughtUp(streams, r.view, after.view, id, streamId, until)
  {
    MissingEventsCatchUp(streams, r.view, id, streamId, from, until);
  }

  /** Delta recovery closes every gap: the answer to a request made at revision `since`, applied
      to a replica that has stayed on the stream, brings the instance to the server's revision
      (or leaves it further ahead), and its content is the server's fold. */
  lemma RecoveryCatchesUp(streams: Streams, r: Replica, id: InstanceId, streamId: StreamId, start: nat, until: nat, since: nat, delta: Delta)
    requires WellFormed(streams) && streamId in streams && streams[streamId].instanceId == id
    requires start <= until <= |streams[streamId].log|
    requires AllFold(streams, Visible(r.view)) && !r.retired
    requires On(r.view, id, streamId) && streams[streamId].first.revision <= since <= RevisionOf(r.view, id, streamId)
    requires delta == AggregatorDelta(streamId, streams[streamId].first.revision + until, streams[streamId].log[start..until],
                                      streamId, since)
    ensures var (content, after) := Handle(r, OnDelta(r.epoch, id, streamId, delta));
      !delta.syncRequired ==> content && CaughtUp(streams, r.view, after.view, id, streamId, until)
  {
    DeltaIsExact(streams, streamId, start, until, streamId, since);
    if !delta.syncRequired {
      RecoveryHandled(streams, r, id, streamId, delta, since - streams[streamId].first.revision, until);
    }
  }

  lemma SliceIsGenuine(streams: Streams, streamId: StreamId, from: nat, until: nat)
    requires WellFormed(streams) && streamId in streams && from <= until <= |streams[streamId].log|
    ensures AllGenuine(streams, streams[streamId].log[from..until])
  {
    forall i | 0 <= i < until - from ensures Genuine(streams, streams[streamId].log[from..until][i]) {
      LogIsGenuine(streams, streamId, from + i);
    }
  }

  lemma LogIsGenuine(streams: Streams, streamId: StreamId, k: nat)
    requires WellFormed(streams) && streamId in streams && k < |streams[streamId].log|
    ensures Genuine(streams, streams[streamId].log[k])
  {
    var s := streams[streamId];
    assert Numbered(s, k);
    assert SnapshotAt(s, k + 1) == NextSnapshot(SnapshotAt(s, k), s.log[k]);
  }
}
