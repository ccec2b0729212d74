/** The mobile replica of the session streams (apps/mobile/src/ai-sessions/store.ts and
    controller.ts): live events, full lists, reconnect syncs and delta recoveries interleave, and
    every one of them may be late, repeated or out of order. */
module AiSessionReplica {
  import opened OrderedMap
  import opened AiSessionReducer

  datatype Entry = Entry(instanceId: InstanceId, projection: State)

  datatype View = View(updatedAt: Time, instances: seq<Entry>)

  // ------------------------------------------------------------------ the store

  /** The first entry of an instance. */
  function Find(instances: seq<Entry>, id: InstanceId): (r: Option<Entry>)
    ensures r.Some? ==> r.value in instances && r.value.instanceId == id
    ensures r.None? ==> forall e :: e in instances ==> e.instanceId != id
  {
    if instances == [] then None
    else if instances[0].instanceId == id then Some(instances[0])
    else Find(instances[1..], id)
  }

  /** Replaces the first entry of the instance, or appends the entry. */
  function Placed(instances: seq<Entry>, entry: Entry): seq<Entry> {
    if instances == [] then [entry]
    else if instances[0].instanceId == entry.instanceId then [entry] + instances[1..]
    else [instances[0]] + Placed(instances[1..], entry)
  }

  function Visible(view: Option<View>): seq<Entry> {
    if view.Some? then view.value.instances else []
  }

  /** An incoming entry, or the existing one of the same stream when that is newer. */
  function Newer(current: seq<Entry>, entry: Entry): Entry {
    var existing := Find(current, entry.instanceId);
    if existing.None? || existing.value.projection.streamId != entry.projection.streamId then entry
    else
      var (mine, theirs) := (existing.value.projection, entry.projection);
      if mine.revision < theirs.revision then entry
      else if mine.revision == theirs.revision && mine.lastEventAt <= theirs.lastEventAt then entry
      else existing.value
  }

  function NewerEach(current: seq<Entry>, incoming: seq<Entry>): (r: seq<Entry>)
    ensures |r| == |incoming|
    ensures forall i :: 0 <= i < |r| ==> r[i] == Newer(current, incoming[i])
  {
    if incoming == [] then [] else [Newer(current, incoming[0])] + NewerEach(current, incoming[1..])
  }

  function Max(a: int, b: int): int {
    if a > b then a else b
  }

  /** `preserveNewerAiSessionEntries`. */
  function PreserveNewer(current: Option<View>, incoming: View): View {
    if current.None? then incoming
    else
      var instances := NewerEach(current.value.instances, incoming.instances);
      if exists i :: 0 <= i < |instances| && Kept(current.value.instances, incoming.instances[i])
      then View(Max(current.value.updatedAt, incoming.updatedAt), instances)
      else incoming
  }

  /** The existing entry wins over this incoming one. */
  predicate Kept(current: seq<Entry>, entry: Entry) {
    var existing := Find(current, entry.instanceId);
    && existing.Some? && existing.value.projection.streamId == entry.projection.streamId
    && (existing.value.projection.revision > entry.projection.revision
        || (existing.value.projection.revision == entry.projection.revision
            && existing.value.projection.lastEventAt > entry.projection.lastEventAt))
  }

  lemma PreserveNewerInstances(current: Option<View>, incoming: View)
    ensures PreserveNewer(current, incoming).instances == NewerEach(Visible(current), incoming.instances)
  {
    var r := NewerEach(Visible(current), incoming.instances);
    assert forall i :: 0 <= i < |r| && !Kept(Visible(current), incoming.instances[i]) ==> r[i] == incoming.instances[i];
  }

  /** `applyStreamEvent`. */
  function ApplyEvent(view: Option<View>, e: Event): (Outcome, Option<View>) {
    var entry := Find(Visible(view), e.meta.instanceId);
    var outcome := Apply(if entry.Some? then Some(entry.value.projection) else None, e);
    if !outcome.Applied? then (outcome, view)
    else
      var instances := Placed(Visible(view), Entry(e.meta.instanceId, outcome.projection));
      (outcome, Some(PreserveNewer(view, View(outcome.projection.lastEventAt, instances))))
  }

  function WithoutInstances(instances: seq<Entry>, ids: set<InstanceId>): seq<Entry> {
    if instances == [] then []
    else if instances[0].instanceId in ids then WithoutInstances(instances[1..], ids)
    else [instances[0]] + WithoutInstances(instances[1..], ids)
  }

  function PlacedAll(instances: seq<Entry>, entries: seq<Entry>): seq<Entry> {
    if entries == [] then instances
    else Placed(PlacedAll(instances, entries[..|entries| - 1]), entries[|entries| - 1])
  }

  /** `replaceInstances`. */
  function ReplaceInstances(view: Option<View>, entries: seq<Entry>, removed: seq<InstanceId>, updatedAt: Time): Option<View> {
    if entries == [] && removed == [] then view
    else
      Some(PreserveNewer(view, View(updatedAt, PlacedAll(WithoutInstances(Visible(view), SetOf(removed)), entries))))
  }

  // ------------------------------------------------------------- the controller

  datatype Delta = Delta(streamId: StreamId, sinceRevision: nat, latestRevision: nat, syncRequired: bool, events: seq<Event>)

  /** `epoch` counts the stops of the controller; `retired` says that the profile was cleared. */
  datatype Replica = Replica(view: Option<View>, epoch: nat, retired: bool)

  datatype Action =
    | OnEvent(event: Event)
    | OnList(since: nat, list: View)
    | OnSync(since: nat, entries: seq<Entry>, removed: seq<InstanceId>, updatedAt: Time, deltas: seq<Delta>)
    | OnDelta(since: nat, instanceId: InstanceId, askedFor: StreamId, delta: Delta)
    | Stop
    | Retire

  predicate Breaks(outcome: Outcome) {
    outcome.Gap? || outcome.SnapshotRequired?
  }

  /** Applies the events up to the first one that breaks the sequence. */
  function ApplyUntilGap(view: Option<View>, events: seq<Event>): (r: (bool, Option<View>))
    decreases |events|
  {
    if events == [] then (true, view)
    else
      var (outcome, next) := ApplyEvent(view, events[0]);
      if Breaks(outcome) then (false, next) else ApplyUntilGap(next, events[1..])
  }

  function HighestRevision(events: seq<Event>, revision: nat): nat {
    if events == [] then revision
    else
      var front := HighestRevision(events[..|events| - 1], revision);
      if front > events[|events| - 1].meta.revision then front else events[|events| - 1].meta.revision
  }

  function ApplyDeltas(view: Option<View>, deltas: seq<Delta>): (bool, Option<View>)
    decreases |deltas|
  {
    if deltas == [] then (true, view)
    else
      var (complete, next) := ApplyUntilGap(view, deltas[0].events);
      if !complete || HighestRevision(deltas[0].events, deltas[0].sinceRevision) < deltas[0].latestRevision then (false, next)
      else ApplyDeltas(next, deltas[1..])
  }

  /** What one action does, and whether it is content; otherwise the source asks for a full
      refresh, whose answer is a later action. */
  function Handle(r: Replica, a: Action): (bool, Replica) {
    match a
    case Stop => (true, r.(epoch := r.epoch + 1))
    case Retire => (true, r.(retired := true, view := None))
    case OnEvent(e) =>
      if r.retired then (false, r)
      else
        var (outcome, view) := ApplyEvent(r.view, e);
        (!Breaks(outcome), r.(view := view))
    case OnList(since, list) =>
      if since != r.epoch || r.retired then (false, r)
      else (true, r.(view := Some(PreserveNewer(r.view, list))))
    case OnSync(since, entries, removed, updatedAt, deltas) =>
      if since != r.epoch || r.retired then (false, r)
      else
        var (complete, view) := ApplyDeltas(ReplaceInstances(r.view, entries, removed, updatedAt), deltas);
        (complete, r.(view := view))
    case OnDelta(since, instanceId, askedFor, delta) =>
      if since != r.epoch || r.retired then (true, r)
      else if delta.syncRequired || delta.streamId != askedFor then (false, r)
      else
        var (complete, view) := ApplyUntilGap(r.view, delta.events);
        var recovered := Find(Visible(view), instanceId);
        (complete && recovered.Some? && recovered.value.projection.revision >= delta.latestRevision, r.(view := view))
  }

  function Step(r: Replica, a: Action): Replica {
    Handle(r, a).1
  }

  function Run(r: Replica, actions: seq<Action>): Replica {
    if actions == [] then r else Step(Run(r, actions[..|actions| - 1]), actions[|actions| - 1])
  }

  /** The profile snapshot of the store and the fences of its controller, updated in place. */
  class AiSessionController {
    var snapshot: Option<View>
    var epoch: nat
    var retired: bool

    function State(): Replica
      reads this
    {
      Replica(snapshot, epoch, retired)
    }

    constructor ()
      ensures State() == Replica(None, 0, false)
    {
      snapshot, epoch, retired := None, 0, false;
    }

    method ReplaceSnapshot(incoming: View)
      modifies this`snapshot
      ensures snapshot == Some(PreserveNewer(old(snapshot), incoming))
    {
      if snapshot.None? {
        snapshot := Some(incoming);
        return;
      }
      var current := snapshot.value;
      var instances, preserved := NewerEntries(current.instances, incoming.instances);
      var updatedAt := if current.updatedAt > incoming.updatedAt then current.updatedAt else incoming.updatedAt;
      snapshot := Some(if preserved then View(updatedAt, instances) else incoming);
    }

    static method NewerEntries(current: seq<Entry>, incoming: seq<Entry>) returns (instances: seq<Entry>, preserved: bool)
      ensures instances == NewerEach(current, incoming)
      ensures preserved <==> exists i :: 0 <= i < |incoming| && Kept(current, incoming[i])
    {
      instances, preserved := [], false;
      for i := 0 to |incoming|
        invariant |instances| == i && forall j :: 0 <= j < i ==> instances[j] == Newer(current, incoming[j])
        invariant preserved <==> exists j :: 0 <= j < i && Kept(current, incoming[j])
      {
        var existing := Find(current, incoming[i].instanceId);
        var keep := Kept(current, incoming[i]);
        instances := instances + [if keep then existing.value else incoming[i]];
        preserved := preserved || keep;
      }
    }

    method ReplaceInstanceEntries(entries: seq<Entry>, removed: seq<InstanceId>, updatedAt: Time)
      modifies this`snapshot
      ensures snapshot == ReplaceInstances(old(snapshot), entries, removed, updatedAt)
    {
      var instances := WithoutInstances(Visible(snapshot), SetOf(removed));
      ghost var kept := instances;
      for i := 0 to |entries|
        invariant snapshot == old(snapshot)
        invariant instances == PlacedAll(kept, entries[..i])
      {
        instances := Placed(instances, entries[i]);
        assert entries[..i + 1][..i] == entries[..i];
      }
      assert entries[..|entries|] == entries;
      if entries != [] || removed != [] {
        ReplaceSnapshot(View(updatedAt, instances));
      }
    }

    method ApplyStreamEvent(e: Event) returns (outcome: Outcome)
      modifies this`snapshot
      ensures (outcome, snapshot) == ApplyEvent(old(snapshot), e)
    {
      var entry := Find(Visible(snapshot), e.meta.instanceId);
      outcome := ApplyAiSessionStreamEvent(if entry.Some? then Some(entry.value.projection) else None, e);
      if outcome.Applied? {
        var instances := Placed(Visible(snapshot), Entry(e.meta.instanceId, outcome.projection));
        ReplaceSnapshot(View(outcome.projection.lastEventAt, instances));
      }
    }

    method ApplyEvents(events: seq<Event>) returns (complete: bool)
      modifies this`snapshot
      ensures (complete, snapshot) == ApplyUntilGap(old(snapshot), events)
    {
      for i := 0 to |events|
        invariant ApplyUntilGap(snapshot, events[i..]) == ApplyUntilGap(old(snapshot), events)
      {
        var outcome := ApplyStreamEvent(events[i]);
        assert events[i..][1..] == events[i + 1..];
        if Breaks(outcome) {
          return false;
        }
      }
      complete := true;
    }

    method OnListResponse(since: nat, list: View) returns (content: bool)
      modifies this
      ensures (content, State()) == Handle(old(State()), OnList(since, list))
    {
      if since != epoch || retired {
        return false;
      }
      ReplaceSnapshot(list);
      content := true;
    }

    method OnSyncResponse(since: nat, entries: seq<Entry>, removed: seq<InstanceId>, updatedAt: Time, deltas: seq<Delta>)
      returns (content: bool)
      modifies this
      ensures (content, State()) == Handle(old(State()), OnSync(since, entries, removed, updatedAt, deltas))
    {
      if since != epoch || retired {
        return false;
      }
      ReplaceInstanceEntries(entries, removed, updatedAt);
      ghost var replaced := snapshot;
      for i := 0 to |deltas|
        invariant epoch == old(epoch) && retired == old(retired)
        invariant ApplyDeltas(snapshot, deltas[i..]) == ApplyDeltas(replaced, deltas)
      {
        assert deltas[i..][1..] == deltas[i + 1..];
        var complete := ApplyEvents(deltas[i].events);
        var applied := HighestRevision(deltas[i].events, deltas[i].sinceRevision);
        if !complete || applied < deltas[i].latestRevision {
          return false;
        }
      }
      content := true;
    }

    method OnDeltaResponse(since: nat, instanceId: InstanceId, askedFor: StreamId, delta: Delta) returns (content: bool)
      modifies this
      ensures (content, State()) == Handle(old(State()), OnDelta(since, instanceId, askedFor, delta))
    {
      if since != epoch || retired {
        return true;
      }
      if delta.syncRequired || delta.streamId != askedFor {
        return false;
      }
      var complete := ApplyEvents(delta.events);
      var recovered := Find(Visible(snapshot), instanceId);
      content := complete && recovered.Some? && recovered.value.projection.revision >= delta.latestRevision;
    }

    method StopController()
      modifies this`epoch
      ensures State() == Step(old(State()), Stop)
    {
      epoch := epoch + 1;
    }
  }
}
