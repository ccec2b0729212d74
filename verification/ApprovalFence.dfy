/** The generation and revision fence of `MobileApprovalCenterController`
    (apps/mobile/src/approval-center/controller.ts) over the operation-approval register. */
module ApprovalFence {
  import opened OrderedMap
  import opened ApprovalRegister

  const RECOVERY_RETRIES: nat := 1

  /** Generations are random names that the client only compares. They are numbered here in the
      order in which the register started; 0 stands for the empty name. */
  type Generation = nat

  datatype Client = Client(generation: Generation, revision: int, recovery: Generation, requests: set<RequestId>)

  datatype Event = Event(generation: Generation, revision: nat, change: Change)

  datatype Snapshot = Snapshot(generation: Generation, revision: nat, requests: set<RequestId>)

  const INITIAL := Client(0, -1, 0, {})

  // ------------------------------------------------------------- the client

  /** `applyEvent`. */
  function ApplyEvent(c: Client, e: Event): Client {
    var fenced := if e.generation != c.generation then Client(e.generation, e.revision - 1, e.generation, {}) else c;
    if e.revision <= fenced.revision then fenced
    else fenced.(revision := e.revision,
                 requests := if e.change.pending then fenced.requests + {e.change.id} else fenced.requests - {e.change.id})
  }

  /** The recovery waits for another generation and has a retry left. */
  predicate Refetches(c: Client, attempts: nat, s: Snapshot) {
    c.recovery != 0 && s.generation != c.recovery && attempts < RECOVERY_RETRIES
  }

  /** `refreshOperationApprovals` after a snapshot that it does not refetch. */
  function ApplySnapshot(c: Client, s: Snapshot): Client {
    var fenced := if c.recovery != 0 && s.generation != c.recovery then c.(recovery := 0) else c;
    if s.generation != c.generation || s.revision >= c.revision then Client(s.generation, s.revision, 0, s.requests)
    else fenced
  }

  class ApprovalCenter {
    var operationGeneration: Generation
    var operationRevision: int
    var operationRecoveryGeneration: Generation
    var operationRequests: set<RequestId>

    function State(): Client
      reads this
    {
      Client(operationGeneration, operationRevision, operationRecoveryGeneration, operationRequests)
    }

    constructor ()
      ensures State() == INITIAL
    {
      operationGeneration, operationRevision, operationRecoveryGeneration, operationRequests := 0, -1, 0, {};
    }

    method ApplyOperationEvent(e: Event) returns (refresh: bool)
      modifies this
      ensures State() == ApplyEvent(old(State()), e)
      ensures refresh == (e.generation != old(operationGeneration))
    {
      refresh := e.generation != operationGeneration;
      if refresh {
        operationGeneration := e.generation;
        operationRevision := e.revision - 1;
        operationRecoveryGeneration := e.generation;
        operationRequests := {};
      }
      if e.revision <= operationRevision {
        return;
      }
      operationRevision := e.revision;
      if e.change.pending {
        operationRequests := operationRequests + {e.change.id};
      } else {
        operationRequests := operationRequests - {e.change.id};
      }
    }

    /** One round of the recovery loop, and what follows it. */
    method ReceiveSnapshot(attempts: nat, s: Snapshot) returns (refetch: bool)
      modifies this
      ensures refetch == Refetches(old(State()), attempts, s)
      ensures State() == if refetch then old(State()) else ApplySnapshot(old(State()), s)
    {
      if operationRecoveryGeneration != 0 && s.generation != operationRecoveryGeneration {
        if attempts < RECOVERY_RETRIES {
          return true;
        }
        operationRecoveryGeneration := 0;
      }
      if s.generation != operationGeneration || s.revision >= operationRevision {
        operationGeneration := s.generation;
        operationRevision := s.revision;
        operationRecoveryGeneration := 0;
        operationRequests := s.requests;
      }
      refetch := false;
    }

    method Acknowledge(id: RequestId)
      modifies this`operationRequests
      ensures State() == old(State()).(requests := old(operationRequests) - {id})
    {
      operationRequests := operationRequests - {id};
    }
  }

  // ------------------------------------------------------ overlapping refreshes

  /** A snapshot request under way; `issuedAt` is the register's generation when it was sent. */
  datatype Fetch = Fetch(id: nat, attempts: nat, issuedAt: Generation)

  datatype World = World(client: Client, fetches: set<Fetch>, next: nat, now: Generation)

  datatype Action =
    | RegisterStarts
    | Changed(e: Event)
    | Refresh
    | Answered(fetch: Fetch, s: Snapshot)
    | Unanswered(fetch: Fetch)
    | Acknowledged(id: RequestId)
    | Abort

  function Fetching(w: World, attempts: nat): World {
    w.(fetches := w.fetches + {Fetch(w.next, attempts, w.now)}, next := w.next + 1)
  }

  function Step(w: World, a: Action): World {
    match a
    case RegisterStarts => w.(now := w.now + 1)
    case Changed(e) =>
      var changed := w.(client := ApplyEvent(w.client, e));
      if e.generation != w.client.generation then Fetching(changed, 0) else changed
    case Refresh => Fetching(w, 0)
    case Answered(fetch, s) =>
      if fetch !in w.fetches then w
      else if Refetches(w.client, fetch.attempts, s) then Fetching(w.(fetches := w.fetches - {fetch}), fetch.attempts + 1)
      else w.(fetches := w.fetches - {fetch}, client := ApplySnapshot(w.client, s))
    case Unanswered(fetch) => w.(fetches := w.fetches - {fetch})
    case Acknowledged(id) => w.(client := w.client.(requests := w.client.requests - {id}))
    case Abort => w.(fetches := {})
  }

  function Run(w: World, actions: seq<Action>): World
    decreases |actions|
  {
    if actions == [] then w else Run(Step(w, actions[0]), actions[1..])
  }

  const START := World(INITIAL, {}, 0, 0)

  /** The logs that the register published, generation by generation. */
  type Logs = map<Generation, seq<Change>>

  ghost predicate GoodLogs(logs: Logs) {
    forall g :: g in logs ==> g > 0 && OnceOnly(logs[g])
  }

  /** The message is one that the register sent. */
  predicate GenuineEvent(logs: Logs, e: Event) {
    e.generation in logs && 1 <= e.revision <= |logs[e.generation]| && logs[e.generation][e.revision - 1] == e.change
  }

  predicate GenuineSnapshot(logs: Logs, s: Snapshot) {
    s.generation in logs && s.revision <= |logs[s.generation]| && s.requests == PendingAt(logs[s.generation], s.revision)
  }

  predicate Genuine(logs: Logs, a: Action) {
    match a
    case Changed(e) => GenuineEvent(logs, e)
    case Answered(_, s) => GenuineSnapshot(logs, s)
    case _ => true
  }

  // -------------------------------------------------------- terminal requests

  /** The client knows the register's generation `g` up to a revision at which the request is
      terminal, and does not show it. */
  ghost predicate Fenced(logs: Logs, c: Client, g: Generation, id: RequestId, t: nat) {
    && g in logs && t <= |logs[g]| && TerminalAt(logs[g], id, t)
    && c.generation == g && c.revision >= t && id !in c.requests
  }

  predicate StaysIn(w: World, actions: seq<Action>, g: Generation)
    decreases |actions|
  {
    w.client.generation == g && (actions != [] ==> StaysIn(Step(w, actions[0]), actions[1..], g))
  }

  lemma StepKeepsFence(logs: Logs, w: World, a: Action, g: Generation, id: RequestId, t: nat)
    requires GoodLogs(logs) && Genuine(logs, a) && Fenced(logs, w.client, g, id, t)
    requires Step(w, a).client.generation == g
    ensures Fenced(logs, Step(w, a).client, g, id, t)
  {
    match a
    case Answered(fetch, s) =>
      if s.generation == g && s.revision >= t {
        TerminalIsFinal(logs[g], id, t, s.revision);
      }
    case _ =>
  }

  /** Approval fencing: while the client stays in a generation, no event and no snapshot of any
      revision, in any order and number, makes a terminal request pending again. */
  lemma {:induction false} TerminalStaysTerminal(logs: Logs, w: World, actions: seq<Action>, g: Generation, id: RequestId, t: nat)
    requires GoodLogs(logs) && Fenced(logs, w.client, g, id, t) && StaysIn(w, actions, g)
    requires forall i :: 0 <= i < |actions| ==> Genuine(logs, actions[i])
    ensures id !in Run(w, actions).client.requests
    decreases |actions|
  {
    if actions != [] {
      StepKeepsFence(logs, w, actions[0], g, id, t);
      TerminalStaysTerminal(logs, Step(w, actions[0]), actions[1..], g, id, t);
    }
  }

  /** When a late pending event brings its request back: the client is in another generation, or
      behind the event. */
  lemma PendingEventShowsIff(c: Client, e: Event)
    requires e.change.pending && e.change.id !in c.requests
    ensures e.change.id in ApplyEvent(c, e).requests <==> e.generation != c.generation || e.revision > c.revision
  {
  }

  /** Counterexample: an event of the old generation that arrives after one of the new generation
      takes the client back and revives a terminal request. */
  lemma OldGenerationRevives(id: RequestId, other: RequestId)
    ensures var logs: Logs := map[1 := [Change(id, true), Change(id, false)], 2 := [Change(other, true)]];
      var actions := [Changed(Event(1, 2, Change(id, false))), Changed(Event(2, 1, Change(other, true))),
                      Changed(Event(1, 1, Change(id, true)))];
      && GoodLogs(logs) && (forall i :: 0 <= i < |actions| ==> Genuine(logs, actions[i]))
      && Fenced(logs, Step(START, actions[0]).client, 1, id, 2)
      && id in Step(Step(Step(START, actions[0]), actions[1]), actions[2]).client.requests
  {
    var log := [Change(id, true), Change(id, false)];
    assert log[1] == Change(id, false) && TerminalAt(log, id, 2);
  }

  // --------------------------------------------------- superseded generations

  /** The recovery only ever waits for the generation that the client is in. */
  ghost predicate RecoveryInv(w: World) {
    && (w.client.recovery == 0 || w.client.recovery == w.client.generation)
    && w.client.generation <= w.now
    && forall f :: f in w.fetches ==> f.issuedAt <= w.now
  }

  /** Messages come from generations that have started, and an answer is no older than its
      request. */
  predicate Timely(w: World, a: Action) {
    match a
    case Changed(e) => 0 < e.generation <= w.now
    case Answered(fetch, s) => 0 < s.generation && fetch.issuedAt <= s.generation <= w.now
    case _ => true
  }

  /** The steps that take the client back to an older generation. */
  predicate Backward(w: World, a: Action) {
    match a
    case Changed(e) => e.generation < w.client.generation
    case Answered(fetch, s) =>
      && fetch in w.fetches && s.generation < w.client.generation
      && (w.client.recovery == 0 || fetch.attempts >= RECOVERY_RETRIES)
    case _ => false
  }

  /** Exactly when a superseded generation replaces a newer one; a snapshot does so only if it
      was asked for before the client's generation started. */
  lemma GoesBackIff(w: World, a: Action)
    requires RecoveryInv(w) && Timely(w, a)
    ensures RecoveryInv(Step(w, a))
    ensures Step(w, a).client.generation < w.client.generation <==> Backward(w, a)
    ensures Backward(w, a) && a.Answered? ==> a.fetch.issuedAt < w.client.generation
  {
  }

  /** Every message is timely and none of the steps goes backward. */
  predicate Forward(w: World, actions: seq<Action>)
    decreases |actions|
  {
    actions == [] || (Timely(w, actions[0]) && !Backward(w, actions[0]) && Forward(Step(w, actions[0]), actions[1..]))
  }

  lemma {:induction false} GenerationNeverGoesBack(w: World, actions: seq<Action>)
    requires RecoveryInv(w) && Forward(w, actions)
    ensures Run(w, actions).client.generation >= w.client.generation
    decreases |actions|
  {
    if actions != [] {
      GoesBackIff(w, actions[0]);
      GenerationNeverGoesBack(Step(w, actions[0]), actions[1..]);
    }
  }

  /** With no more than one refresh under way at a time, a snapshot never goes backward unless the
      recovery has used up its retry. */
  lemma LoneRefreshIsSafe(w: World, fetch: Fetch, s: Snapshot)
    requires RecoveryInv(w) && Timely(w, Answered(fetch, s))
    requires fetch.issuedAt < w.client.generation ==> w.client.recovery != 0 && fetch.attempts < RECOVERY_RETRIES
    ensures Step(w, Answered(fetch, s)).client.generation >= w.client.generation
  {
    GoesBackIff(w, Answered(fetch, s));
  }

  /** Counterexample: a refresh is under way when the register restarts; the event of the new
      generation starts a second refresh, whose answer ends the recovery; the first answer then
      replaces the new generation's state by the old one's. */
  lemma OverlappingRefreshGoesBack(id: RequestId, stale: RequestId)
    requires id != stale
    ensures var first, second := Fetch(0, 0, 1), Fetch(1, 0, 2);
      var before := Step(Step(Step(START, RegisterStarts), Refresh), RegisterStarts);
      var event := Changed(Event(2, 1, Change(id, true)));
      var recovered := Step(Step(before, event), Answered(second, Snapshot(2, 1, {id})));
      var late := Answered(first, Snapshot(1, 1, {stale}));
      && Timely(recovered, late) && recovered.client == Client(2, 1, 0, {id})
      && Step(recovered, late).client == Client(1, 1, 0, {stale})
  {
    var before := Step(Step(Step(START, RegisterStarts), Refresh), RegisterStarts);
    assert before.fetches == {Fetch(0, 0, 1)};
    var noticed := Step(before, Changed(Event(2, 1, Change(id, true))));
    assert noticed.fetches == {Fetch(0, 0, 1), Fetch(1, 0, 2)};
    assert noticed.client == Client(2, 1, 2, {id});
  }

  // --------------------------------------------------- what one message does

  /** An event of another generation forgets everything, says what it says, starts the recovery of
      its generation and one fetch. */
  lemma NewGenerationBegins(w: World, e: Event)
    requires e.generation != w.client.generation
    ensures var after := Step(w, Changed(e));
      && after.client.generation == after.client.recovery == e.generation && after.client.revision == e.revision
      && (forall id :: id in after.client.requests <==> id == e.change.id && e.change.pending)
      && (forall f :: f in after.fetches <==> f in w.fetches || f == Fetch(w.next, 0, w.now))
  {
  }

  /** A later event of the client's generation changes its own request and no other; an earlier one
      changes nothing. Neither fetches. */
  lemma OwnEventMeans(w: World, e: Event)
    requires e.generation == w.client.generation
    ensures var after := Step(w, Changed(e));
      && after.fetches == w.fetches && after.client.generation == e.generation && after.client.recovery == w.client.recovery
      && after.client.revision == (if e.revision > w.client.revision then e.revision else w.client.revision)
      && forall id :: id in after.client.requests <==>
           if id == e.change.id && e.revision > w.client.revision then e.change.pending else id in w.client.requests
  {
  }

  /** While a generation is being recovered, the answer of another one is fetched anew once and
      changes nothing for the client. */
  lemma OtherAnswerRefetched(w: World, fetch: Fetch, s: Snapshot)
    requires fetch in w.fetches && fetch.attempts == 0
    requires w.client.recovery != 0 && s.generation != w.client.recovery
    ensures var after := Step(w, Answered(fetch, s));
      after.client == w.client
      && forall f :: f in after.fetches <==> (f in w.fetches && f != fetch) || f == Fetch(w.next, 1, w.now)
  {
  }

  /** Exactly the steps that end the recovery of a generation: an event of yet another one, an
      answer of the generation that is not behind the client, and the second answer of another
      generation. Every such answer is shown as it is. */
  lemma RecoveryEndsIff(w: World, a: Action)
    requires RecoveryInv(w) && w.client.recovery != 0 && (a.Changed? ==> a.e.generation != 0)
    ensures Step(w, a).client.recovery != w.client.recovery <==>
      match a
      case Changed(e) => e.generation != w.client.generation
      case Answered(fetch, s) =>
        && fetch in w.fetches
        && (if s.generation == w.client.generation then s.revision >= w.client.revision else fetch.attempts >= 1)
      case _ => false
    ensures a.Answered? && Step(w, a).client.recovery != w.client.recovery ==>
      Step(w, a).client == Client(a.s.generation, a.s.revision, 0, a.s.requests)
  {
  }

  /** Without a recovery an answer is shown exactly when it is of another generation or not behind,
      and it uses its fetch up. */
  lemma AnswerShownIff(w: World, fetch: Fetch, s: Snapshot)
    requires fetch in w.fetches && w.client.recovery == 0
    ensures var after := Step(w, Answered(fetch, s));
      && (forall f :: f in after.fetches <==> f in w.fetches && f != fetch)
      && after.client == (if s.generation == w.client.generation && s.revision < w.client.revision then w.client
                          else Client(s.generation, s.revision, 0, s.requests))
  {
  }

  /** A fetch that fails is over and changes nothing for the client; an answer that nobody waits for
      any more, as after an abort, changes nothing at all. */
  lemma AbortedAnswerIgnored(w: World, fetch: Fetch, s: Snapshot)
    ensures Step(w, Unanswered(fetch)).client == w.client
    ensures forall f :: f in Step(w, Unanswered(fetch)).fetches <==> f in w.fetches && f != fetch
    ensures fetch !in w.fetches ==> Step(w, Answered(fetch, s)) == w
    ensures Step(w, Abort).fetches == {} && Step(w, Abort).client == w.client
    ensures Step(Step(w, Abort), Answered(fetch, s)) == Step(w, Abort)
  {
  }

  lemma AcknowledgedMeans(w: World, id: RequestId)
    ensures var after := Step(w, Acknowledged(id));
      && after.fetches == w.fetches && after.client.generation == w.client.generation
      && after.client.revision == w.client.revision && after.client.recovery == w.client.recovery
      && forall x :: x in after.client.requests <==> x in w.client.requests && x != id
  {
  }

  // -------------------------------------------------------- exact contents

  /** The client shows exactly what is pending at its revision. */
  ghost predicate Exact(logs: Logs, c: Client) {
    && c.generation in logs && 0 <= c.revision <= |logs[c.generation]|
    && c.requests == PendingAt(logs[c.generation], c.revision)
  }

  /** No change is skipped: an event is the next one or an old one of the same generation. */
  predicate InOrder(c: Client, a: Action) {
    match a
    case Changed(e) => e.generation == c.generation && e.revision <= c.revision + 1
    case Acknowledged(id) => id !in c.requests
    case _ => true
  }

  /** An accepted snapshot makes the client exact, whatever it showed before, and events in order
      keep it so. */
  lemma SnapshotRestores(logs: Logs, c: Client, s: Snapshot)
    requires GenuineSnapshot(logs, s)
    requires s.generation != c.generation || s.revision >= c.revision
    ensures Exact(logs, ApplySnapshot(c, s))
  {
  }

  lemma OrderKeepsExact(logs: Logs, w: World, a: Action)
    requires Exact(logs, w.client) && Genuine(logs, a) && InOrder(w.client, a)
    ensures Exact(logs, Step(w, a).client)
  {
    match a
    case Answered(_, s) =>
      if s.generation != w.client.generation || s.revision >= w.client.revision {
        SnapshotRestores(logs, w.client, s);
      }
    case _ =>
  }

  predicate AgreeOnOthers(a: set<RequestId>, b: set<RequestId>, id: RequestId) {
    a - {id} == b - {id}
  }

  /** An event that skips changes is accepted all the same. The client is then exact if and only if
      the skipped changes, taken together, left every other request as it was. */
  lemma SkippedChange(logs: Logs, c: Client, e: Event)
    requires Exact(logs, c) && GenuineEvent(logs, e) && e.generation == c.generation && e.revision > c.revision
    ensures var log := logs[c.generation];
      Exact(logs, ApplyEvent(c, e)) <==>
        AgreeOnOthers(PendingAt(log, c.revision), PendingAt(log, e.revision - 1), e.change.id)
  {
    var log := logs[c.generation];
    var shown, due := ApplyEvent(c, e).requests, PendingAt(log, e.revision);
    assert shown - {e.change.id} == PendingAt(log, c.revision) - {e.change.id};
    assert due - {e.change.id} == PendingAt(log, e.revision - 1) - {e.change.id};
    if AgreeOnOthers(shown, due, e.change.id) {
      assert shown == due by {
        assert forall x :: x in shown <==> x in shown - {e.change.id} || (x == e.change.id && e.change.pending);
        assert forall x :: x in due <==> x in due - {e.change.id} || (x == e.change.id && e.change.pending);
      }
    }
  }

  // ------------------------------------------------- what a run has missed

  /** What the client did not hear since the last snapshot that it accepted: the revisions of its
      generation that it skipped, and the requests that it dropped on its own. */
  datatype Missed = Missed(skipped: set<nat>, dropped: set<RequestId>)

  function Revisions(first: int, end: nat): (s: set<nat>)
    ensures forall k: nat :: k in s <==> first <= k < end
  {
    if first >= end || end == 0 then {} else Revisions(first, end - 1) + {end - 1}
  }

  /** What a step adds to that, seen from the client before the step. A generation that begins with
      an event begins without a snapshot: everything before the event counts as skipped. */
  function Misses(w: World, m: Missed, a: Action): Missed {
    match a
    case Changed(e) =>
      if e.generation != w.client.generation then Missed(Revisions(1, e.revision), {})
      else if e.revision <= w.client.revision then m
      else Missed(m.skipped + Revisions(w.client.revision + 1, e.revision), m.dropped - {e.change.id})
    case Answered(fetch, s) =>
      if fetch !in w.fetches || Refetches(w.client, fetch.attempts, s) then m
      else if s.generation != w.client.generation || s.revision >= w.client.revision then Missed({}, {})
      else m
    case Acknowledged(id) => if id in w.client.requests then m.(dropped := m.dropped + {id}) else m
    case _ => m
  }

  function MissedBy(w: World, m: Missed, actions: seq<Action>): Missed
    decreases |actions|
  {
    if actions == [] then m else MissedBy(Step(w, actions[0]), Misses(w, m, actions[0]), actions[1..])
  }

  /** What is pending after the first `r` changes to one who did not hear the skipped ones. */
  function Heard(log: seq<Change>, skipped: set<nat>, r: nat): set<RequestId>
    requires r <= |log|
  {
    if r == 0 then {}
    else if r in skipped then Heard(log, skipped, r - 1)
    else if log[r - 1].pending then Heard(log, skipped, r - 1) + {log[r - 1].id}
    else Heard(log, skipped, r - 1) - {log[r - 1].id}
  }

  /** Change `k` is the last one of its request up to revision `r`. */
  ghost predicate LastOfItsRequest(log: seq<Change>, k: nat, r: nat) {
    1 <= k <= r <= |log| && forall j :: k <= j < r ==> log[j].id != log[k - 1].id
  }

  /** No skipped change that is the last of its request said anything new to the client, and no
      request that the client dropped is pending. */
  ghost predicate MadeNoDifference(log: seq<Change>, m: Missed, r: nat)
    requires r <= |log|
  {
    && (forall k :: k in m.skipped && LastOfItsRequest(log, k, r) ==>
          (log[k - 1].pending <==> log[k - 1].id in Heard(log, m.skipped, k - 1) - m.dropped))
    && forall id :: id in m.dropped ==> id !in PendingAt(log, r)
  }

  lemma {:induction false} HeardAll(log: seq<Change>, skipped: set<nat>, r: nat)
    requires r <= |log| && forall k :: k in skipped ==> k > r
    ensures Heard(log, skipped, r) == PendingAt(log, r)
  {
    if r > 0 {
      HeardAll(log, skipped, r - 1);
    }
  }

  /** Later skips do not change what was heard before. */
  lemma {:induction false} HeardBefore(log: seq<Change>, skipped: set<nat>, more: set<nat>, r: nat)
    requires r <= |log| && forall k :: k in more ==> k > r
    ensures Heard(log, skipped + more, r) == Heard(log, skipped, r)
  {
    if r > 0 {
      HeardBefore(log, skipped, more, r - 1);
    }
  }

  lemma {:induction false} HeardOver(log: seq<Change>, skipped: set<nat>, r: nat, end: nat)
    requires r <= end <= |log| && forall k :: r < k <= end ==> k in skipped
    ensures Heard(log, skipped, end) == Heard(log, skipped, r)
  {
    if r < end {
      HeardOver(log, skipped, r, end - 1);
    }
  }

  /** A request about which nothing was skipped last is heard of correctly. */
  lemma {:induction false} HeardCorrectly(log: seq<Change>, skipped: set<nat>, r: nat, id: RequestId)
    requires r <= |log|
    requires forall k :: k in skipped && LastOfItsRequest(log, k, r) ==> log[k - 1].id != id
    ensures id in Heard(log, skipped, r) <==> id in PendingAt(log, r)
  {
    if r > 0 && log[r - 1].id != id {
      forall k | k in skipped && LastOfItsRequest(log, k, r - 1) ensures log[k - 1].id != id {
        assert log[k - 1].id == id ==> LastOfItsRequest(log, k, r);
      }
      HeardCorrectly(log, skipped, r - 1, id);
    } else if r > 0 {
      assert LastOfItsRequest(log, r, r);
    }
  }

  /** What the last change of a request says stays so, for the register and for the client. */
  lemma {:induction false} LastSays(log: seq<Change>, skipped: set<nat>, k: nat, r: nat)
    requires LastOfItsRequest(log, k, r) && k in skipped
    ensures log[k - 1].id in PendingAt(log, r) <==> log[k - 1].pending
    ensures log[k - 1].id in Heard(log, skipped, r) <==> log[k - 1].id in Heard(log, skipped, k - 1)
  {
    if k < r {
      assert LastOfItsRequest(log, k, r - 1);
      LastSays(log, skipped, k, r - 1);
    }
  }

  lemma HeardIsPendingIff(log: seq<Change>, m: Missed, r: nat)
    requires r <= |log|
    ensures Heard(log, m.skipped, r) - m.dropped == PendingAt(log, r) <==> MadeNoDifference(log, m, r)
  {
    forall k | k in m.skipped && LastOfItsRequest(log, k, r)
      ensures log[k - 1].id in PendingAt(log, r) <==> log[k - 1].pending
      ensures log[k - 1].id in Heard(log, m.skipped, r) <==> log[k - 1].id in Heard(log, m.skipped, k - 1)
    {
      LastSays(log, m.skipped, k, r);
    }
    if MadeNoDifference(log, m, r) {
      forall id ensures id in Heard(log, m.skipped, r) - m.dropped <==> id in PendingAt(log, r) {
        if k :| k in m.skipped && LastOfItsRequest(log, k, r) && log[k - 1].id == id {
        } else {
          HeardCorrectly(log, m.skipped, r, id);
        }
      }
    }
  }

  /** Up to the first message the client is in no generation; after it, it shows what it has heard
      and not dropped. */
  ghost predicate ShowsHeard(logs: Logs, c: Client, m: Missed) {
    c.generation == 0 || (c.generation in logs && 0 <= c.revision <= |logs[c.generation]|
         && (forall k :: k in m.skipped ==> 1 <= k <= c.revision)
         && c.requests == Heard(logs[c.generation], m.skipped, c.revision) - m.dropped)
  }

  lemma EventShowsHeard(logs: Logs, w: World, m: Missed, e: Event)
    requires GoodLogs(logs) && GenuineEvent(logs, e) && ShowsHeard(logs, w.client, m)
    ensures ShowsHeard(logs, ApplyEvent(w.client, e), Misses(w, m, Changed(e)))
  {
    var log, after := logs[e.generation], Misses(w, m, Changed(e));
    if e.generation != w.client.generation {
      HeardOver(log, after.skipped, 0, e.revision - 1);
    } else if e.revision > w.client.revision {
      var more := Revisions(w.client.revision + 1, e.revision);
      HeardBefore(log, m.skipped, more, w.client.revision);
      HeardOver(log, after.skipped, w.client.revision, e.revision - 1);
    }
  }

  lemma StepShowsHeard(logs: Logs, w: World, m: Missed, a: Action)
    requires GoodLogs(logs) && Genuine(logs, a) && ShowsHeard(logs, w.client, m)
    ensures ShowsHeard(logs, Step(w, a).client, Misses(w, m, a))
  {
    match a
    case Changed(e) => EventShowsHeard(logs, w, m, e);
    case Answered(fetch, s) => HeardAll(logs[s.generation], {}, s.revision);
    case _ =>
  }

  lemma {:induction false} RunShowsHeard(logs: Logs, w: World, m: Missed, actions: seq<Action>)
    requires GoodLogs(logs) && ShowsHeard(logs, w.client, m)
    requires forall i :: 0 <= i < |actions| ==> Genuine(logs, actions[i])
    ensures ShowsHeard(logs, Run(w, actions).client, MissedBy(w, m, actions))
    decreases |actions|
  {
    if actions != [] {
      StepShowsHeard(logs, w, m, actions[0]);
      RunShowsHeard(logs, Step(w, actions[0]), Misses(w, m, actions[0]), actions[1..]);
    }
  }

  /** Over every run of genuine messages, in any order and number: once the client has heard of the
      register, it shows exactly what is pending at its revision if and only if what it missed
      since the last accepted snapshot made no difference. */
  lemma ExactIff(logs: Logs, actions: seq<Action>)
    requires GoodLogs(logs) && forall i :: 0 <= i < |actions| ==> Genuine(logs, actions[i])
    requires Run(START, actions).client.generation != 0
    ensures var c := Run(START, actions).client;
      && c.generation in logs && 0 <= c.revision <= |logs[c.generation]|
      && (Exact(logs, c) <==> MadeNoDifference(logs[c.generation], MissedBy(START, Missed({}, {}), actions), c.revision))
  {
    RunShowsHeard(logs, START, Missed({}, {}), actions);
    var c := Run(START, actions).client;
    HeardIsPendingIff(logs[c.generation], MissedBy(START, Missed({}, {}), actions), c.revision);
  }
}
