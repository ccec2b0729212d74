/** `applyAiSessionStreamEvent` (packages/protocol/src/ai-sessions.ts): one revisioned event of a
    session stream applied to a projection. */
module AiSessionReducer {
  import opened OrderedMap

  type InstanceId(==, !new)
  type StreamId(==, !new)
  type SessionId(==, !new)
  type Detail(==, !new)
  type Time = int

  datatype Status = Running | Waiting | OtherStatus

  datatype Session = Session(id: SessionId, status: Status, detail: Detail)

  datatype Snapshot = Snapshot(runningCount: nat, waitingCount: nat, staleCount: nat, sessions: seq<Session>, updatedAt: Time)

  /** A projection of one stream. */
  datatype State = State(streamId: StreamId, revision: nat, lastEventAt: Time, snapshot: Snapshot)

  datatype Meta = Meta(streamId: StreamId, instanceId: InstanceId, revision: nat, previousRevision: nat, generatedAt: Time)

  datatype Event =
    | SnapshotEvent(meta: Meta, snapshot: Snapshot)
    | PatchEvent(meta: Meta, upserted: seq<Session>, removed: seq<SessionId>)
    | RemovedEvent(meta: Meta, sessionIds: seq<SessionId>)

  datatype Outcome =
    | Applied(projection: State)
    | Duplicate
    | Stale
    | Gap(expectedRevision: nat, receivedRevision: nat)
    | SnapshotRequired

  // ------------------------------------------------------------ specification

  type SessionMap = OMap<SessionId, Session>

  /** `sessions.set` for each session in turn. */
  function UpsertAll(m: SessionMap, sessions: seq<Session>): SessionMap {
    if sessions == [] then m
    else
      var n := |sessions| - 1;
      UpsertAll(m, sessions[..n]).Put(sessions[n].id, sessions[n])
  }

  /** `sessions.delete` for each id in turn. */
  function DeleteAll(m: SessionMap, ids: seq<SessionId>): SessionMap {
    if ids == [] then m
    else
      var n := |ids| - 1;
      DeleteAll(m, ids[..n]).Delete(ids[n])
  }

  function Sessions(m: SessionMap): (r: seq<Session>)
    requires m.Valid()
    ensures |r| == |m.order|
    ensures forall i :: 0 <= i < |r| ==> m.order[i] in m.content && r[i] == m.content[m.order[i]]
  {
    assert forall i :: 0 <= i < |m.order| ==> m.order[i] in SetOf(m.order);
    seq(|m.order|, i requires 0 <= i < |m.order| => m.content[m.order[i]])
  }

  function CountOf(sessions: seq<Session>, status: Status): nat {
    if sessions == [] then 0
    else CountOf(sessions[..|sessions| - 1], status) + if sessions[|sessions| - 1].status == status then 1 else 0
  }

  function Upserted(e: Event): seq<Session> {
    if e.PatchEvent? then e.upserted else []
  }

  function Removed(e: Event): seq<SessionId> {
    match e
    case SnapshotEvent(_, _) => []
    case PatchEvent(_, _, removed) => removed
    case RemovedEvent(_, ids) => ids
  }

  /** The sessions after an event that applies to `sessions`. */
  function Changed(sessions: seq<Session>, e: Event): SessionMap {
    DeleteAll(UpsertAll(UpsertAll(Empty(), sessions), Upserted(e)), Removed(e))
  }

  lemma {:induction false} UpsertAllValid(m: SessionMap, sessions: seq<Session>)
    requires m.Valid()
    ensures UpsertAll(m, sessions).Valid()
  {
    if sessions != [] {
      UpsertAllValid(m, sessions[..|sessions| - 1]);
    }
  }

  lemma {:induction false} DeleteAllValid(m: SessionMap, ids: seq<SessionId>)
    requires m.Valid()
    ensures DeleteAll(m, ids).Valid()
  {
    if ids != [] {
      DeleteAllValid(m, ids[..|ids| - 1]);
    }
  }

  lemma ChangedValid(sessions: seq<Session>, e: Event)
    ensures Changed(sessions, e).Valid()
  {
    UpsertAllValid(Empty(), sessions);
    UpsertAllValid(UpsertAll(Empty(), sessions), Upserted(e));
    DeleteAllValid(UpsertAll(UpsertAll(Empty(), sessions), Upserted(e)), Removed(e));
  }

  function NextSnapshot(current: Snapshot, e: Event): Snapshot {
    if e.SnapshotEvent? then e.snapshot
    else
      ChangedValid(current.sessions, e);
      var values := Sessions(Changed(current.sessions, e));
      Snapshot(CountOf(values, Running), CountOf(values, Waiting), current.staleCount, values, e.meta.generatedAt)
  }

  function Next(current: State, e: Event): State {
    State(e.meta.streamId, e.meta.revision, e.meta.generatedAt, NextSnapshot(current.snapshot, e))
  }

  function Apply(current: Option<State>, e: Event): Outcome {
    if e.SnapshotEvent? then
      if current.Some? && current.value.streamId == e.meta.streamId && e.meta.revision == current.value.revision then Duplicate
      else if current.Some? && current.value.streamId == e.meta.streamId && e.meta.revision < current.value.revision then Stale
      else Applied(State(e.meta.streamId, e.meta.revision, e.meta.generatedAt, e.snapshot))
    else if current.None? || current.value.streamId != e.meta.streamId then SnapshotRequired
    else if e.meta.revision == current.value.revision then Duplicate
    else if e.meta.revision < current.value.revision then Stale
    else if e.meta.revision != current.value.revision + 1 || e.meta.previousRevision != current.value.revision then
      Gap(current.value.revision + 1, e.meta.revision)
    else Applied(Next(current.value, e))
  }

  // ---------------------------------------------------------- implementation

  method ApplyAiSessionStreamEvent(current: Option<State>, e: Event) returns (outcome: Outcome)
    ensures outcome == Apply(current, e)
  {
    if e.SnapshotEvent? {
      if current.Some? && current.value.streamId == e.meta.streamId {
        if e.meta.revision == current.value.revision {
          return Duplicate;
        }
        if e.meta.revision < current.value.revision {
          return Stale;
        }
      }
      return Applied(State(e.meta.streamId, e.meta.revision, e.meta.generatedAt, e.snapshot));
    }
    if current.None? || current.value.streamId != e.meta.streamId {
      return SnapshotRequired;
    }
    var revision := current.value.revision;
    if e.meta.revision == revision {
      return Duplicate;
    }
    if e.meta.revision < revision {
      return Stale;
    }
    if e.meta.revision != revision + 1 || e.meta.previousRevision != revision {
      return Gap(revision + 1, e.meta.revision);
    }
    var sessions := SetEach(Empty(), current.value.snapshot.sessions);
    if e.PatchEvent? {
      sessions := SetEach(sessions, e.upserted);
      sessions := DeleteEach(sessions, e.removed);
    } else {
      sessions := DeleteEach(sessions, e.sessionIds);
    }
    assert sessions == Changed(current.value.snapshot.sessions, e);
    ChangedValid(current.value.snapshot.sessions, e);
    var values := Sessions(sessions);
    var running := Counted(values, Running);
    var waiting := Counted(values, Waiting);
    var snapshot := Snapshot(running, waiting, current.value.snapshot.staleCount, values, e.meta.generatedAt);
    outcome := Applied(State(e.meta.streamId, e.meta.revision, e.meta.generatedAt, snapshot));
  }

  method SetEach(m: SessionMap, sessions: seq<Session>) returns (r: SessionMap)
    ensures r == UpsertAll(m, sessions)
  {
    r := m;
    for i := 0 to |sessions|
      invariant r == UpsertAll(m, sessions[..i])
    {
      r := r.Put(sessions[i].id, sessions[i]);
      assert sessions[..i + 1][..i] == sessions[..i];
    }
    assert sessions[..|sessions|] == sessions;
  }

  method DeleteEach(m: SessionMap, ids: seq<SessionId>) returns (r: SessionMap)
    ensures r == DeleteAll(m, ids)
  {
    r := m;
    for i := 0 to |ids|
      invariant r == DeleteAll(m, ids[..i])
    {
      r := r.Delete(ids[i]);
      assert ids[..i + 1][..i] == ids[..i];
    }
    assert ids[..|ids|] == ids;
  }

  method Counted(sessions: seq<Session>, status: Status) returns (count: nat)
    ensures count == CountOf(sessions, status)
  {
    count := 0;
    for i := 0 to |sessions|
      invariant count == CountOf(sessions[..i], status)
    {
      if sessions[i].status == status {
        count := count + 1;
      }
      assert sessions[..i + 1][..i] == sessions[..i];
    }
    assert sessions[..|sessions|] == sessions;
  }

  // ------------------------------------------------- what an applied event means

  /** `s` is the last upsert of its id. */
  ghost predicate LastUpsert(sessions: seq<Session>, k: int) {
    0 <= k < |sessions| && forall j :: k < j < |sessions| ==> sessions[j].id != sessions[k].id
  }

  lemma {:induction false} UpsertKeepsOrder(m: SessionMap, sessions: seq<Session>)
    ensures m.order <= UpsertAll(m, sessions).order
  {
    if sessions != [] {
      UpsertKeepsOrder(m, sessions[..|sessions| - 1]);
    }
  }

  lemma {:induction false} UpsertedSession(m: SessionMap, sessions: seq<Session>, k: nat)
    requires LastUpsert(sessions, k)
    ensures UpsertAll(m, sessions).Get(sessions[k].id) == Some(sessions[k])
  {
    var n := |sessions| - 1;
    if k < n {
      UpsertedSession(m, sessions[..n], k);
    }
  }

  lemma {:induction false} UntouchedSession(m: SessionMap, sessions: seq<Session>, id: SessionId)
    requires forall k :: 0 <= k < |sessions| ==> sessions[k].id != id
    ensures UpsertAll(m, sessions).Get(id) == m.Get(id)
  {
    if sessions != [] {
      UntouchedSession(m, sessions[..|sessions| - 1], id);
    }
  }

  /** `s` without the listed ids, in order. */
  function Remaining(s: seq<SessionId>, ids: seq<SessionId>): seq<SessionId> {
    if s == [] then []
    else if s[0] in ids then Remaining(s[1..], ids)
    else [s[0]] + Remaining(s[1..], ids)
  }

  lemma {:induction false} RemainingSnoc(s: seq<SessionId>, ids: seq<SessionId>, x: SessionId)
    ensures Without(Remaining(s, ids), x) == Remaining(s, ids + [x])
  {
    if s != [] {
      RemainingSnoc(s[1..], ids, x);
      if s[0] !in ids {
        assert ([s[0]] + Remaining(s[1..], ids))[1..] == Remaining(s[1..], ids);
      }
    }
  }

  lemma {:induction false} RemainingAll(s: seq<SessionId>)
    ensures Remaining(s, []) == s
  {
    if s != [] {
      RemainingAll(s[1..]);
    }
  }

  lemma {:induction false} DeleteAllMeans(m: SessionMap, ids: seq<SessionId>)
    ensures DeleteAll(m, ids).order == Remaining(m.order, ids)
    ensures forall id :: DeleteAll(m, ids).Get(id) == if id in ids then None else m.Get(id)
  {
    if ids == [] {
      RemainingAll(m.order);
    } else {
      var n := |ids| - 1;
      assert ids == ids[..n] + [ids[n]];
      DeleteAllMeans(m, ids[..n]);
      RemainingSnoc(m.order, ids[..n], ids[n]);
    }
  }

  /** A patch, declaratively: removed sessions are gone, upserted ones show their last payload,
      all others are untouched; the sessions that stay keep their order and come first. */
  lemma ChangedMeans(sessions: seq<Session>, e: Event)
    ensures var before := UpsertAll(Empty(), sessions); var after := Changed(sessions, e);
      && (forall id :: id in Removed(e) ==> after.Get(id) == None)
      && (forall k :: LastUpsert(Upserted(e), k) && Upserted(e)[k].id !in Removed(e) ==>
            after.Get(Upserted(e)[k].id) == Some(Upserted(e)[k]))
      && (forall id :: id !in Removed(e) && (forall k :: 0 <= k < |Upserted(e)| ==> Upserted(e)[k].id != id) ==>
            after.Get(id) == before.Get(id))
      && Remaining(before.order, Removed(e)) <= after.order
  {
    var before := UpsertAll(Empty(), sessions);
    var upserted := UpsertAll(before, Upserted(e));
    UpsertKeepsOrder(before, Upserted(e));
    DeleteAllMeans(upserted, Removed(e));
    forall k | LastUpsert(Upserted(e), k) ensures upserted.Get(Upserted(e)[k].id) == Some(Upserted(e)[k]) {
      UpsertedSession(before, Upserted(e), k);
    }
    forall id | forall k :: 0 <= k < |Upserted(e)| ==> Upserted(e)[k].id != id ensures upserted.Get(id) == before.Get(id) {
      UntouchedSession(before, Upserted(e), id);
    }
    RemainingPrefix(before.order, upserted.order, Removed(e));
  }

  lemma {:induction false} RemainingPrefix(a: seq<SessionId>, b: seq<SessionId>, ids: seq<SessionId>)
    requires a <= b
    ensures Remaining(a, ids) <= Remaining(b, ids)
  {
    if a != [] {
      RemainingPrefix(a[1..], b[1..], ids);
    }
  }

  // ---------------------------------------------------- what a projection shows

  /** The ids of the sessions in the order in which they first appear, each once. */
  function FirstIds(sessions: seq<Session>): seq<SessionId> {
    if sessions == [] then []
    else
      var n := |sessions| - 1;
      var before := FirstIds(sessions[..n]);
      if sessions[n].id in before then before else before + [sessions[n].id]
  }

  /** The session that is given last for an id. */
  function LastGiven(sessions: seq<Session>, id: SessionId): Option<Session> {
    if sessions == [] then None
    else if sessions[|sessions| - 1].id == id then Some(sessions[|sessions| - 1])
    else LastGiven(sessions[..|sessions| - 1], id)
  }

  /** The ids of a list of sessions, one by one. */
  ghost predicate Lists(sessions: seq<Session>, ids: seq<SessionId>) {
    |sessions| == |ids| && forall i :: 0 <= i < |ids| ==> sessions[i].id == ids[i]
  }

  lemma {:induction false} GivenMeans(sessions: seq<Session>)
    ensures UpsertAll(Empty(), sessions).Valid()
    ensures UpsertAll(Empty(), sessions).order == FirstIds(sessions)
    ensures forall id :: UpsertAll(Empty(), sessions).Get(id) == LastGiven(sessions, id)
  {
    UpsertAllValid(Empty(), sessions);
    if sessions != [] {
      var n := |sessions| - 1;
      GivenMeans(sessions[..n]);
      var before := UpsertAll(Empty(), sessions[..n]);
      assert sessions[n].id in SetOf(before.order) <==> sessions[n].id in before.content;
    }
  }

  lemma {:induction false} UpsertInTurn(m: SessionMap, a: seq<Session>, b: seq<Session>)
    ensures UpsertAll(UpsertAll(m, a), b) == UpsertAll(m, a + b)
  {
    if b == [] {
      assert a + b == a;
    } else {
      var n := |b| - 1;
      assert (a + b)[..|a| + n] == a + b[..n];
      UpsertInTurn(m, a, b[..n]);
    }
  }

  /** A session is shown with the payload that was given last for its id. */
  ghost predicate ShowsGiven(shown: seq<Session>, given: seq<Session>) {
    forall i :: 0 <= i < |shown| ==> Some(shown[i]) == LastGiven(given, shown[i].id)
  }

  lemma ChangedShows(sessions: seq<Session>, e: Event)
    ensures Changed(sessions, e).Valid()
    ensures var shown := Sessions(Changed(sessions, e));
      Lists(shown, Remaining(FirstIds(sessions + Upserted(e)), Removed(e))) && ShowsGiven(shown, sessions + Upserted(e))
  {
    ChangedValid(sessions, e);
    UpsertInTurn(Empty(), sessions, Upserted(e));
    GivenMeans(sessions + Upserted(e));
    var given := UpsertAll(Empty(), sessions + Upserted(e));
    DeleteAllMeans(given, Removed(e));
    var after, shown := Changed(sessions, e), Sessions(Changed(sessions, e));
    forall i | 0 <= i < |shown|
      ensures shown[i].id == after.order[i] && Some(shown[i]) == LastGiven(sessions + Upserted(e), shown[i].id)
    {
      assert after.Get(after.order[i]) == Some(shown[i]);
      LastGivenId(sessions + Upserted(e), after.order[i]);
    }
  }

  lemma {:induction false} LastGivenId(sessions: seq<Session>, id: SessionId)
    ensures LastGiven(sessions, id).Some? ==> LastGiven(sessions, id).value.id == id && LastGiven(sessions, id).value in sessions
    ensures LastGiven(sessions, id).None? <==> forall x :: x in sessions ==> x.id != id
  {
    if sessions != [] {
      var n := |sessions| - 1;
      assert sessions == sessions[..n] + [sessions[n]];
      LastGivenId(sessions[..n], id);
    }
  }

  /** The places of the sessions with a status. */
  function Having(sessions: seq<Session>, status: Status): set<int> {
    set i | 0 <= i < |sessions| && sessions[i].status == status
  }

  lemma HavingLast(sessions: seq<Session>, status: Status)
    requires sessions != []
    ensures var n := |sessions| - 1;
      && n !in Having(sessions[..n], status)
      && Having(sessions, status) == Having(sessions[..n], status) + if sessions[n].status == status then {n} else {}
  {
    var n := |sessions| - 1;
    assert forall i :: 0 <= i < n ==> sessions[..n][i] == sessions[i];
  }

  lemma {:induction false} CountIsCardinality(sessions: seq<Session>, status: Status)
    ensures CountOf(sessions, status) == |Having(sessions, status)|
  {
    if sessions == [] {
      assert Having(sessions, status) == {};
    } else {
      CountIsCardinality(sessions[..|sessions| - 1], status);
      HavingLast(sessions, status);
    }
  }

  /** What a patch or a removal that applies leads to. */
  lemma AppliedSnapshot(current: State, e: Event)
    requires !e.SnapshotEvent? && Apply(Some(current), e).Applied?
    ensures Apply(Some(current), e).projection.snapshot == NextSnapshot(current.snapshot, e)
  {
  }

  /** The sessions of the projection after a patch or a removal that applies: the distinct ids of
      what was shown and then upserted, in the order in which they first appeared and without the
      removed ones, each with the payload given last. */
  lemma AppliedShows(current: State, e: Event)
    requires !e.SnapshotEvent? && Apply(Some(current), e).Applied?
    ensures var snapshot := Apply(Some(current), e).projection.snapshot; var given := current.snapshot.sessions + Upserted(e);
      Lists(snapshot.sessions, Remaining(FirstIds(given), Removed(e))) && ShowsGiven(snapshot.sessions, given)
  {
    AppliedSnapshot(current, e);
    ChangedShows(current.snapshot.sessions, e);
  }

  /** Its counts are those of the sessions it shows. */
  lemma AppliedCounts(current: State, e: Event)
    requires !e.SnapshotEvent? && Apply(Some(current), e).Applied?
    ensures var snapshot := Apply(Some(current), e).projection.snapshot;
      && snapshot.runningCount == |Having(snapshot.sessions, Running)|
      && snapshot.waitingCount == |Having(snapshot.sessions, Waiting)|
      && snapshot.staleCount == current.snapshot.staleCount && snapshot.updatedAt == e.meta.generatedAt
  {
    AppliedSnapshot(current, e);
    var snapshot := NextSnapshot(current.snapshot, e);
    CountIsCardinality(snapshot.sessions, Running);
    CountIsCardinality(snapshot.sessions, Waiting);
  }

  lemma {:induction false} RemainingIds(s: seq<SessionId>, ids: seq<SessionId>)
    ensures forall x :: x in Remaining(s, ids) <==> x in s && x !in ids
    ensures Distinct(s) ==> Distinct(Remaining(s, ids))
  {
    if s != [] {
      RemainingIds(s[1..], ids);
      assert s == [s[0]] + s[1..];
      if Distinct(s) && s[0] !in ids {
        RemainingDistinct(s, Remaining(s[1..], ids));
      }
    }
  }

  lemma RemainingDistinct(s: seq<SessionId>, rest: seq<SessionId>)
    requires s != [] && Distinct(s) && (forall x :: x in rest ==> x in s[1..]) && (Distinct(s[1..]) ==> Distinct(rest))
    ensures Distinct([s[0]] + rest)
  {
    assert forall i, j :: 0 <= i < j < |s[1..]| ==> s[1..][i] == s[i + 1] && s[1..][j] == s[j + 1];
    forall j | 0 <= j < |rest| ensures rest[j] != s[0] {
      assert rest[j] in rest && rest[j] in s[1..];
      var k :| 0 <= k < |s[1..]| && s[1..][k] == rest[j];
      assert s[k + 1] == rest[j];
    }
  }

  lemma {:induction false} FirstIdsMeans(sessions: seq<Session>)
    ensures Distinct(FirstIds(sessions))
    ensures forall id :: id in FirstIds(sessions) <==> exists x :: x in sessions && x.id == id
  {
    if sessions != [] {
      var n := |sessions| - 1;
      FirstIdsMeans(sessions[..n]);
      var before := FirstIds(sessions[..n]);
      assert sessions == sessions[..n] + [sessions[n]];
      if sessions[n].id !in before {
        DistinctSnoc(before, sessions[n].id);
      }
    }
  }

  /** The same, session by session: nothing that was removed is shown, the last upsert of an id that
      was not removed is shown, every other session stays as it was, nothing else appears, and no id
      twice. */
  lemma AppliedMeans(current: State, e: Event)
    requires !e.SnapshotEvent? && Apply(Some(current), e).Applied?
    ensures var shown := Apply(Some(current), e).projection.snapshot.sessions; var before := current.snapshot.sessions;
      var upserted, removed := if e.PatchEvent? then e.upserted else [], if e.PatchEvent? then e.removed else e.sessionIds;
      && (forall i, j :: 0 <= i < j < |shown| ==> shown[i].id != shown[j].id)
      && forall x :: x in shown <==>
           x.id !in removed
           && if LastGiven(upserted, x.id).Some? then Some(x) == LastGiven(upserted, x.id)
              else Some(x) == LastGiven(before, x.id)
  {
    AppliedShows(current, e);
    var shown, given := Apply(Some(current), e).projection.snapshot.sessions, current.snapshot.sessions + Upserted(e);
    FirstIdsMeans(given);
    var ids := Remaining(FirstIds(given), Removed(e));
    RemainingIds(FirstIds(given), Removed(e));
    forall x ensures x in shown <==> x.id !in Removed(e) && Some(x) == LastGiven(given, x.id) {
      LastGivenId(given, x.id);
      if x in shown {
        var i :| 0 <= i < |shown| && shown[i] == x;
        assert ids[i] in ids;
      } else if x.id in ids {
        var i :| 0 <= i < |ids| && ids[i] == x.id;
        assert shown[i] in shown && Some(shown[i]) == LastGiven(given, x.id);
      }
    }
    forall id ensures LastGiven(given, id) == (if LastGiven(Upserted(e), id).Some? then LastGiven(Upserted(e), id)
                                               else LastGiven(current.snapshot.sessions, id))
    {
      LastGivenInTurn(current.snapshot.sessions, Upserted(e), id);
    }
  }

  lemma {:induction false} LastGivenInTurn(a: seq<Session>, b: seq<Session>, id: SessionId)
    ensures LastGiven(a + b, id) == if LastGiven(b, id).Some? then LastGiven(b, id) else LastGiven(a, id)
  {
    if b == [] {
      assert a + b == a;
    } else {
      assert (a + b)[..|a + b| - 1] == a + b[..|b| - 1];
      LastGivenInTurn(a, b[..|b| - 1], id);
    }
  }

  /** What was shown and stays is shown first, in the order in which it was. */
  lemma AppliedKeepsOrder(current: State, e: Event)
    requires !e.SnapshotEvent? && Apply(Some(current), e).Applied?
    ensures var shown := Apply(Some(current), e).projection.snapshot.sessions;
      var kept := Remaining(FirstIds(current.snapshot.sessions), if e.PatchEvent? then e.removed else e.sessionIds);
      |kept| <= |shown| && Lists(shown[..|kept|], kept)
  {
    AppliedShows(current, e);
    FirstIdsPrefix(current.snapshot.sessions, Upserted(e));
    RemainingPrefix(FirstIds(current.snapshot.sessions), FirstIds(current.snapshot.sessions + Upserted(e)), Removed(e));
  }

  lemma {:induction false} FirstIdsPrefix(a: seq<Session>, b: seq<Session>)
    ensures FirstIds(a) <= FirstIds(a + b)
  {
    if b == [] {
      assert a + b == a;
    } else {
      assert (a + b)[..|a + b| - 1] == a + b[..|b| - 1];
      FirstIdsPrefix(a, b[..|b| - 1]);
    }
  }

  /** Which outcome an event has, each exactly: a snapshot never leaves a gap, and of all events of
      the projection's stream the later ones that are not next do. */
  lemma OutcomeIff(current: State, e: Event)
    ensures var outcome := Apply(Some(current), e); var same := e.meta.streamId == current.streamId;
      && (outcome == Duplicate <==> same && e.meta.revision == current.revision)
      && (outcome == Stale <==> same && e.meta.revision < current.revision)
      && (outcome.Gap? <==> (same && !e.SnapshotEvent? && e.meta.revision > current.revision
                             && !(e.meta.revision == current.revision + 1 && e.meta.previousRevision == current.revision)))
      && (outcome.Gap? ==> outcome == Gap(current.revision + 1, e.meta.revision))
      && (outcome == SnapshotRequired <==> !same && !e.SnapshotEvent?)
      && (outcome.Applied? && e.SnapshotEvent? ==>
            outcome.projection == State(e.meta.streamId, e.meta.revision, e.meta.generatedAt, e.snapshot))
      && (outcome.Applied? ==> outcome.projection.lastEventAt == e.meta.generatedAt)
  {
  }

  /** An event changes the projection exactly when it is the next one of the same stream, or a
      snapshot that is newer or of another stream. */
  lemma AppliedIff(current: Option<State>, e: Event)
    ensures Apply(current, e).Applied? <==>
      if e.SnapshotEvent? then current.None? || current.value.streamId != e.meta.streamId || e.meta.revision > current.value.revision
      else current.Some? && current.value.streamId == e.meta.streamId
           && e.meta.revision == current.value.revision + 1 && e.meta.previousRevision == current.value.revision
    ensures Apply(current, e).Applied? ==>
      && Apply(current, e).projection.revision == e.meta.revision
      && Apply(current, e).projection.streamId == e.meta.streamId
  {
  }
}
