/** What one answer does to the mobile replica: which entries it replaces, keeps and takes out,
    when it is content, and what a stop and a cleared profile shut out. */
module ReplicaCalls {
  import opened OrderedMap
  import opened AiSessionReducer
  import opened AiSessionReplica
  import Convergence = AiSessionConvergence

  // --------------------------------------------------------------- the entries

  /** The instance has no entry before place `i`. */
  predicate NoneBefore(entries: seq<Entry>, i: nat, id: InstanceId) {
    i <= |entries| && forall j :: 0 <= j < i ==> entries[j].instanceId != id
  }

  predicate FirstAt(entries: seq<Entry>, i: nat, id: InstanceId) {
    i < |entries| && entries[i].instanceId == id && NoneBefore(entries, i, id)
  }

  lemma FindNoneIff(entries: seq<Entry>, id: InstanceId)
    ensures Find(entries, id).None? <==> NoneBefore(entries, |entries|, id)
  {
  }

  lemma {:induction false} FindIsFirst(entries: seq<Entry>, i: nat, id: InstanceId)
    requires FirstAt(entries, i, id)
    ensures Find(entries, id) == Some(entries[i])
  {
    if i > 0 {
      assert entries[0].instanceId != id;
      assert forall j :: 0 <= j < i - 1 ==> entries[1..][j] == entries[j + 1];
      FindIsFirst(entries[1..], i - 1, id);
    }
  }

  /** An entry takes the place of the first one of its instance, or the last place. */
  lemma {:induction false} PlacedMeans(entries: seq<Entry>, entry: Entry)
    ensures NoneBefore(entries, |entries|, entry.instanceId) ==> Placed(entries, entry) == entries + [entry]
    ensures forall i: nat :: FirstAt(entries, i, entry.instanceId) ==> Placed(entries, entry) == entries[i := entry]
  {
    if entries != [] {
      var rest, id := entries[1..], entry.instanceId;
      assert forall j :: 0 <= j < |rest| ==> rest[j] == entries[j + 1];
      assert entries == [entries[0]] + rest;
      PlacedMeans(rest, entry);
      forall i: nat | FirstAt(entries, i, id) ensures Placed(entries, entry) == entries[i := entry] {
        if i > 0 {
          assert entries[0].instanceId != id;
          assert FirstAt(rest, i - 1, id);
        }
      }
      if NoneBefore(entries, |entries|, id) {
        assert entries[0].instanceId != id;
        assert NoneBefore(rest, |rest|, id);
      }
    }
  }

  /** Later in the same stream, or as far with a later last event. */
  predicate Beats(mine: State, theirs: State) {
    && mine.streamId == theirs.streamId && mine.revision >= theirs.revision
    && (mine.revision == theirs.revision ==> mine.lastEventAt > theirs.lastEventAt)
  }

  /** What is shown for an instance for which `received` arrives. */
  ghost predicate Chosen(before: Option<Entry>, received: Entry, shown: Entry) {
    shown == if before.Some? && Beats(before.value.projection, received.projection) then before.value else received
  }

  lemma NewerIsChosen(current: seq<Entry>, entry: Entry)
    ensures Chosen(Find(current, entry.instanceId), entry, Newer(current, entry))
    ensures Kept(current, entry) <==>
      Find(current, entry.instanceId).Some? && Beats(Find(current, entry.instanceId).value.projection, entry.projection)
  {
  }

  /** A full list takes the place of the view, entry by entry except where the existing one beats
      the received one, and the view is no older than either only if one did. */
  lemma ListMeans(r: Replica, since: nat, list: View)
    ensures var (content, after) := Handle(r, OnList(since, list));
      if since != r.epoch || r.retired then !content && after == r
      else
        && content && after.epoch == r.epoch && !after.retired && after.view.Some?
        && var (shown, before) := (after.view.value, Visible(r.view));
           && |shown.instances| == |list.instances|
           && (forall i :: 0 <= i < |list.instances| ==>
                 Chosen(Find(before, list.instances[i].instanceId), list.instances[i], shown.instances[i]))
           && (shown.updatedAt == list.updatedAt
               || (r.view.Some? && list.updatedAt <= shown.updatedAt == r.view.value.updatedAt))
  {
    if since == r.epoch && !r.retired {
      PreserveNewerInstances(r.view, list);
      forall i | 0 <= i < |list.instances|
        ensures Chosen(Find(Visible(r.view), list.instances[i].instanceId), list.instances[i],
                       PreserveNewer(r.view, list).instances[i])
      {
        NewerIsChosen(Visible(r.view), list.instances[i]);
      }
    }
  }

  /** The time of the view afterwards, exactly. */
  lemma UpdatedMeans(current: View, incoming: View)
    ensures PreserveNewer(Some(current), incoming).updatedAt ==
      if incoming.updatedAt < current.updatedAt
         && (exists i :: 0 <= i < |incoming.instances| && Kept(current.instances, incoming.instances[i]))
      then current.updatedAt else incoming.updatedAt
  {
  }

  /** What the entries of a sync do to one instance: the last entry received for it counts unless
      the existing one beats it; without one it goes if it was removed, and stays otherwise. */
  lemma InstancesMeans(view: Option<View>, entries: seq<Entry>, removed: seq<InstanceId>, updatedAt: Time, id: InstanceId)
    ensures var (before, after) := (Find(Visible(view), id), Find(Visible(ReplaceInstances(view, entries, removed, updatedAt)), id));
      && (NoneBefore(entries, |entries|, id) ==> after == if id in removed then None else before)
      && (forall i: nat :: LastAt(entries, i, id) ==> after.Some? && Chosen(before, entries[i], after.value))
  {
    Convergence.FindPlacedAll(WithoutInstances(Visible(view), SetOf(removed)), entries, id);
    Convergence.FindWithout(Visible(view), SetOf(removed), id);
    LastForMeans(entries, id);
    if entries != [] || removed != [] {
      var incoming := View(updatedAt, PlacedAll(WithoutInstances(Visible(view), SetOf(removed)), entries));
      PreserveNewerInstances(view, incoming);
      Convergence.FindNewer(Visible(view), incoming.instances, id);
      if Find(incoming.instances, id).Some? {
        NewerIsChosen(Visible(view), Find(incoming.instances, id).value);
      }
    }
  }

  predicate LastAt(entries: seq<Entry>, i: nat, id: InstanceId) {
    i < |entries| && entries[i].instanceId == id && forall j :: i < j < |entries| ==> entries[j].instanceId != id
  }

  lemma {:induction false} LastForMeans(entries: seq<Entry>, id: InstanceId)
    ensures Convergence.LastFor(entries, id).None? <==> NoneBefore(entries, |entries|, id)
    ensures forall i: nat :: LastAt(entries, i, id) ==> Convergence.LastFor(entries, id) == Some(entries[i])
  {
    if entries != [] {
      var n := |entries| - 1;
      LastForMeans(entries[..n], id);
      assert entries == entries[..n] + [entries[n]];
      forall i: nat | LastAt(entries, i, id) ensures Convergence.LastFor(entries, id) == Some(entries[i]) {
        if i < n {
          assert entries[n].instanceId != id;
          assert LastAt(entries[..n], i, id);
        }
      }
    }
  }

  // -------------------------------------------------------------------- events

  function Fold<S, E>(step: (S, E) -> S, start: S, events: seq<E>): S {
    if events == [] then start else step(Fold(step, start, events[..|events| - 1]), events[|events| - 1])
  }

  lemma {:induction false} FoldFirst<S, E>(step: (S, E) -> S, start: S, events: seq<E>)
    requires events != []
    ensures Fold(step, start, events) == Fold(step, step(start, events[0]), events[1..])
  {
    var n := |events| - 1;
    if n == 0 {
      assert events[..0] == [] && events[1..] == [];
    } else {
      FoldFirst(step, start, events[..n]);
      assert events[..n][1..] == events[1..][..n - 1] && events[1..][n - 1] == events[n];
    }
  }

  function NextView(view: Option<View>, e: Event): Option<View> {
    ApplyEvent(view, e).1
  }

  /** The view after all the events, whatever their outcomes. */
  function After(view: Option<View>, events: seq<Event>): Option<View> {
    Fold(NextView, view, events)
  }

  /** Event `i` leaves a gap or needs a snapshot when it comes. */
  predicate BreaksAt(view: Option<View>, events: seq<Event>, i: nat)
    requires i < |events|
  {
    Breaks(ApplyEvent(After(view, events[..i]), events[i]).0)
  }

  predicate NothingBreaks(view: Option<View>, events: seq<Event>) {
    forall i :: 0 <= i < |events| ==> !BreaksAt(view, events, i)
  }

  predicate FirstBreak(view: Option<View>, events: seq<Event>, i: nat) {
    i < |events| && NothingBreaks(view, events[..i]) && BreaksAt(view, events, i)
  }

  lemma NothingBreaksFirst(view: Option<View>, events: seq<Event>)
    requires events != []
    ensures NothingBreaks(view, events) <==>
      !Breaks(ApplyEvent(view, events[0]).0) && NothingBreaks(ApplyEvent(view, events[0]).1, events[1..])
  {
    var (outcome, next) := ApplyEvent(view, events[0]);
    assert events[..0] == [] && BreaksAt(view, events, 0) == Breaks(outcome);
    ShiftBreaks(view, events);
    if NothingBreaks(next, events[1..]) {
      forall i | 0 < i < |events| ensures !BreaksAt(view, events, i) {
        assert BreaksAt(next, events[1..], i - 1) == BreaksAt(view, events, i - 1 + 1);
      }
    }
  }

  /** Events are applied one after the other up to the first that breaks the sequence; that one and
      the later ones change nothing. */
  lemma {:induction false} UntilGapMeans(view: Option<View>, events: seq<Event>)
    ensures ApplyUntilGap(view, events).0 <==> NothingBreaks(view, events)
    ensures NothingBreaks(view, events) ==> ApplyUntilGap(view, events).1 == After(view, events)
    decreases |events|
  {
    if events != [] {
      NothingBreaksFirst(view, events);
      UntilGapMeans(ApplyEvent(view, events[0]).1, events[1..]);
      AfterFirst(view, events);
    }
  }

  lemma {:induction false} UntilGapConcat(view: Option<View>, a: seq<Event>, b: seq<Event>)
    requires ApplyUntilGap(view, a).0
    ensures ApplyUntilGap(view, a + b) == ApplyUntilGap(ApplyUntilGap(view, a).1, b)
    decreases |a|
  {
    if a == [] {
      assert a + b == b;
    } else {
      assert (a + b)[1..] == a[1..] + b && (a + b)[0] == a[0];
      UntilGapConcat(ApplyEvent(view, a[0]).1, a[1..], b);
    }
  }

  lemma StopsAtFirstBreak(view: Option<View>, events: seq<Event>, i: nat)
    requires FirstBreak(view, events, i)
    ensures ApplyUntilGap(view, events) == (false, After(view, events[..i]))
  {
    UntilGapMeans(view, events[..i]);
    UntilGapConcat(view, events[..i], events[i..]);
    assert events[..i] + events[i..] == events && events[i..][0] == events[i];
  }

  lemma AfterFirst(view: Option<View>, events: seq<Event>)
    requires events != []
    ensures After(view, events) == After(ApplyEvent(view, events[0]).1, events[1..])
  {
    FoldFirst(NextView, view, events);
  }

  lemma ShiftBreaks(view: Option<View>, events: seq<Event>)
    requires events != []
    ensures forall i: nat :: i < |events| - 1 ==> BreaksAt(ApplyEvent(view, events[0]).1, events[1..], i) == BreaksAt(view, events, i + 1)
  {
    forall i: nat | i < |events| - 1
      ensures BreaksAt(ApplyEvent(view, events[0]).1, events[1..], i) == BreaksAt(view, events, i + 1)
    {
      AfterFirst(view, events[..i + 1]);
      assert events[..i + 1][1..] == events[1..][..i] && events[1..][i] == events[i + 1];
    }
  }

  /** An event that is not applied changes nothing; an applied one changes the entry of its instance,
      in its place, and the time of the view. */
  lemma EventMeans(r: Replica, e: Event, i: nat)
    requires !r.retired && (i == |Visible(r.view)| || FirstAt(Visible(r.view), i, e.meta.instanceId))
    requires NoneBefore(Visible(r.view), i, e.meta.instanceId) && OncePerInstance(Visible(r.view))
    ensures var (before, (content, after)) := (Visible(r.view), Handle(r, OnEvent(e)));
      var outcome := Apply(if i < |before| then Some(before[i].projection) else None, e);
      && after.epoch == r.epoch && !after.retired
      && (content <==> !outcome.Gap? && outcome != SnapshotRequired)
      && (!outcome.Applied? ==> after.view == r.view)
      && (outcome.Applied? ==>
            var entry := Entry(e.meta.instanceId, outcome.projection);
            after.view == Some(View(e.meta.generatedAt, if i < |before| then before[i := entry] else before + [entry])))
  {
    var before, id := Visible(r.view), e.meta.instanceId;
    FindNoneIff(before, id);
    if i < |before| {
      FindIsFirst(before, i, id);
    }
    var current := if i < |before| then Some(before[i].projection) else None;
    AppliedIff(current, e);
    var outcome := Apply(current, e);
    if outcome.Applied? {
      var entry := Entry(id, outcome.projection);
      PlacedMeans(before, entry);
      var incoming := View(outcome.projection.lastEventAt, Placed(before, entry));
      forall j | 0 <= j < |incoming.instances| ensures !Kept(before, incoming.instances[j]) {
        if j != i {
          assert incoming.instances[j] == before[j];
          OnceIsFirst(before, j);
          FindIsFirst(before, j, before[j].instanceId);
        }
      }
      assert PreserveNewer(r.view, incoming) == incoming;
    }
  }

  ghost predicate OncePerInstance(entries: seq<Entry>) {
    forall i, j :: 0 <= i < j < |entries| ==> entries[i].instanceId != entries[j].instanceId
  }

  lemma OnceIsFirst(entries: seq<Entry>, i: nat)
    requires OncePerInstance(entries) && i < |entries|
    ensures FirstAt(entries, i, entries[i].instanceId)
  {
  }

  // ----------------------------------------------------------------- recoveries

  lemma {:induction false} HighestMeans(events: seq<Event>, revision: nat)
    ensures HighestRevision(events, revision) >= revision
    ensures forall e :: e in events ==> HighestRevision(events, revision) >= e.meta.revision
    ensures HighestRevision(events, revision) == revision || exists e :: e in events && e.meta.revision == HighestRevision(events, revision)
  {
    if events != [] {
      var n := |events| - 1;
      HighestMeans(events[..n], revision);
      assert events == events[..n] + [events[n]];
    }
  }

  /** The delta reaches the server's latest revision, from its own start or by one of its events. */
  predicate Reaches(delta: Delta) {
    delta.sinceRevision >= delta.latestRevision || exists e :: e in delta.events && e.meta.revision >= delta.latestRevision
  }

  lemma ReachesIff(delta: Delta)
    ensures Reaches(delta) <==> HighestRevision(delta.events, delta.sinceRevision) >= delta.latestRevision
  {
    HighestMeans(delta.events, delta.sinceRevision);
  }

  predicate Succeeds(view: Option<View>, delta: Delta) {
    NothingBreaks(view, delta.events) && Reaches(delta)
  }

  /** Deltas are applied one after the other up to and including the first that breaks the sequence
      or falls short. */
  function Synced(view: Option<View>, deltas: seq<Delta>): (bool, Option<View>) {
    if deltas == [] then (true, view)
    else
      var (complete, before) := Synced(view, deltas[..|deltas| - 1]);
      if !complete then (false, before)
      else (Succeeds(before, deltas[|deltas| - 1]), ApplyUntilGap(before, deltas[|deltas| - 1].events).1)
  }

  lemma {:induction false} SyncedFirst(view: Option<View>, deltas: seq<Delta>)
    requires deltas != []
    ensures var next := ApplyUntilGap(view, deltas[0].events).1;
      Synced(view, deltas) == if Succeeds(view, deltas[0]) then Synced(next, deltas[1..]) else (false, next)
  {
    var n := |deltas| - 1;
    if n == 0 {
      assert deltas[..0] == [] && deltas[1..] == [];
    } else {
      SyncedFirst(view, deltas[..n]);
      assert deltas[..n][1..] == deltas[1..][..n - 1] && deltas[1..][n - 1] == deltas[n];
    }
  }

  lemma DeltaFirst(view: Option<View>, deltas: seq<Delta>)
    requires deltas != []
    ensures var next := ApplyUntilGap(view, deltas[0].events).1;
      ApplyDeltas(view, deltas) == if Succeeds(view, deltas[0]) then ApplyDeltas(next, deltas[1..]) else (false, next)
  {
    ReachesIff(deltas[0]);
    UntilGapMeans(view, deltas[0].events);
  }

  lemma {:induction false} DeltasMean(view: Option<View>, deltas: seq<Delta>)
    ensures ApplyDeltas(view, deltas) == Synced(view, deltas)
    decreases |deltas|
  {
    if deltas != [] {
      DeltaFirst(view, deltas);
      SyncedFirst(view, deltas);
      DeltasMean(ApplyUntilGap(view, deltas[0].events).1, deltas[1..]);
    }
  }

  predicate SucceedsAt(view: Option<View>, deltas: seq<Delta>, k: nat)
    requires k < |deltas|
  {
    Succeeds(Synced(view, deltas[..k]).1, deltas[k])
  }

  lemma SucceedsInFront(view: Option<View>, deltas: seq<Delta>, n: nat)
    requires n <= |deltas|
    ensures forall k: nat :: k < n ==> SucceedsAt(view, deltas[..n], k) == SucceedsAt(view, deltas, k)
  {
    forall k: nat | k < n ensures SucceedsAt(view, deltas[..n], k) == SucceedsAt(view, deltas, k) {
      assert deltas[..n][..k] == deltas[..k];
    }
  }

  lemma {:induction false} AllSucceed(view: Option<View>, deltas: seq<Delta>)
    ensures Synced(view, deltas).0 <==> forall k :: 0 <= k < |deltas| ==> SucceedsAt(view, deltas, k)
  {
    if deltas != [] {
      var n := |deltas| - 1;
      AllSucceed(view, deltas[..n]);
      SucceedsInFront(view, deltas, n);
      assert Synced(view, deltas).0 <==> Synced(view, deltas[..n]).0 && SucceedsAt(view, deltas, n);
    }
  }

  /** A sync is content exactly when each of its deltas, on the view that those before it leave,
      breaks nowhere and reaches its latest revision. */
  lemma SyncContentIff(r: Replica, since: nat, entries: seq<Entry>, removed: seq<InstanceId>, updatedAt: Time, deltas: seq<Delta>)
    ensures var (content, after) := Handle(r, OnSync(since, entries, removed, updatedAt, deltas));
      var replaced := ReplaceInstances(r.view, entries, removed, updatedAt);
      && (content <==>
            && since == r.epoch && !r.retired
            && forall k :: 0 <= k < |deltas| ==> SucceedsAt(replaced, deltas, k))
      && after == (if since == r.epoch && !r.retired then r.(view := Synced(replaced, deltas).1) else r)
  {
    var replaced := ReplaceInstances(r.view, entries, removed, updatedAt);
    DeltasMean(replaced, deltas);
    AllSucceed(replaced, deltas);
  }

  /** A recovery that is still wanted changes nothing if the server asks for a sync or has changed
      the stream. */
  lemma DeltaRefused(r: Replica, since: nat, id: InstanceId, askedFor: StreamId, delta: Delta)
    requires since == r.epoch && !r.retired && (delta.syncRequired || delta.streamId != askedFor)
    ensures Handle(r, OnDelta(since, id, askedFor, delta)) == (false, r)
  {
  }

  /** Otherwise it applies its events, and is content exactly when none breaks and the instance has
      reached the latest revision. */
  lemma DeltaContentIff(r: Replica, since: nat, id: InstanceId, askedFor: StreamId, delta: Delta)
    requires since == r.epoch && !r.retired && !delta.syncRequired && delta.streamId == askedFor
    ensures var (content, after) := Handle(r, OnDelta(since, id, askedFor, delta));
      && after == r.(view := ApplyUntilGap(r.view, delta.events).1)
      && (content <==> NothingBreaks(r.view, delta.events) && AtLeast(after.view, id, delta.latestRevision))
  {
    UntilGapMeans(r.view, delta.events);
  }

  predicate AtLeast(view: Option<View>, id: InstanceId, revision: nat) {
    Find(Visible(view), id).Some? && Find(Visible(view), id).value.projection.revision >= revision
  }

  // ------------------------------------------------------------- stop and clear

  predicate Asked(a: Action, since: nat) {
    match a
    case OnList(at, _) => at == since
    case OnSync(at, _, _, _, _) => at == since
    case OnDelta(at, _, _, _) => at == since
    case _ => false
  }

  /** A stop shows what was shown, and shuts out every answer to what was asked before it, in any
      number and order. */
  lemma {:induction false} StopShutsOut(r: Replica, actions: seq<Action>)
    requires forall a :: a in actions ==> a == Stop || exists since: nat :: since <= r.epoch && Asked(a, since)
    ensures Run(Step(r, Stop), actions).view == r.view && Run(Step(r, Stop), actions).retired == r.retired
    ensures Run(Step(r, Stop), actions).epoch > r.epoch
  {
    if actions != [] {
      var n := |actions| - 1;
      assert forall a :: a in actions[..n] ==> a in actions;
      StopShutsOut(r, actions[..n]);
      assert actions[n] in actions;
    }
  }

  /** What arrives too late changes nothing; a late recovery is content, everything else is not. */
  lemma TooLate(r: Replica, a: Action, since: nat)
    requires (Asked(a, since) && (since != r.epoch || r.retired)) || (a.OnEvent? && r.retired)
    ensures Handle(r, a) == (a.OnDelta?, r)
  {
  }

  /** A cleared profile shows nothing again, whatever arrives. */
  lemma {:induction false} RetiredForGood(r: Replica, actions: seq<Action>)
    ensures Run(Step(r, Retire), actions).view == None && Run(Step(r, Retire), actions).retired
  {
    if actions != [] {
      RetiredForGood(r, actions[..|actions| - 1]);
    }
  }
}
