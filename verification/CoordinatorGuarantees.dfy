/** What the connection coordinator keeps in every run. */
module CoordinatorGuarantees {
  import opened OrderedMap
  import opened ConnectionCoordinator

  // ------------------------------------------------------------------ invariant

  /** The key's start in the attempt is under way or has been fulfilled. */
  ghost predicate Served(work: Work, e: nat, k: DomainKey) {
    exists d: Domain :: d.key == k && (Start(e, d, false) in work.starts || (e, d) in work.fulfilled)
  }

  ghost predicate Fulfilled(work: Work, e: nat, k: DomainKey) {
    exists d: Domain :: d.key == k && (e, d) in work.fulfilled
  }

  /** The only socket that may be open is the current connection of the live attempt, and it is
      subscribed to exactly the topics of the active domains. */
  ghost predicate LinkInv(w: World) {
    && (w.link.controller.Some? ==> w.link.controller.value <= w.link.epoch && (!w.link.aborted ==> w.link.controller.value == w.link.epoch))
    && (forall e :: e in w.link.sockets ==> w.link.connection.Some? && w.link.connection.value.attempt == e)
    && (w.link.connection.Some? ==>
          var e := w.link.connection.value.attempt;
          && w.link.Live(e) && e in w.work.tasks && w.work.tasks[e].Open?
          && w.link.connection.value.topics == TopicsOf(w.sync.active))
    && (w.link.phase.Connected? ==> w.link.connection.Some?)
  }

  ghost predicate WorkInv(w: World) {
    forall e :: e in w.work.tasks ==>
      && e <= w.link.epoch
      && (w.link.Live(e) && !w.work.tasks[e].Open? ==> w.link.connection.None?)
      && (w.work.tasks[e].Starting? ==>
            && (forall k :: k in w.work.tasks[e].started ==> Served(w.work, e, k))
            && (w.link.Live(e) ==> KeysOf(w.sync.active) <= w.work.tasks[e].started))
  }

  /** Only a start fulfilled in the current attempt makes a domain synced. */
  ghost predicate SyncInv(w: World) {
    forall d :: d in w.sync.synced ==> w.link.controller.Some? && (w.link.controller.value, d) in w.work.fulfilled
  }

  ghost predicate Inv(w: World) {
    LinkInv(w) && WorkInv(w) && SyncInv(w)
  }

  lemma RestartKeepsInv(w: World, desired: set<Domain>)
    requires Inv(w)
    ensures Inv(Restart(w, desired))
  {
    assert forall e :: e in w.work.tasks ==> e <= w.link.epoch;
  }

  lemma ApplyDeltaKeepsInv(w: World, desired: set<Domain>)
    requires Inv(w) && (w.link.connection.Some? || forall e :: e in w.work.tasks && w.work.tasks[e].Starting? ==> !w.link.Live(e))
    ensures Inv(ApplyDelta(w, desired))
    ensures ApplyDelta(w, desired).link.phase == w.link.phase
  {
    var after := ApplyDelta(w, desired);
    assert w.work.starts <= after.work.starts;
    ServedStays(w.work, after.work);
    if w.link.connection.Some? {
      assert forall e :: e in w.work.tasks && w.link.Live(e) ==> w.work.tasks[e].Open?;
    }
  }

  lemma ServedStays(before: Work, after: Work)
    requires before.fulfilled <= after.fulfilled
    requires forall s :: s in before.starts && !s.delta ==> s in after.starts || (s.attempt, s.domain) in after.fulfilled
    ensures forall e: nat, k :: Served(before, e, k) ==> Served(after, e, k)
  {
    forall e: nat, k | Served(before, e, k) ensures Served(after, e, k) {
      var d: Domain :| d.key == k && (Start(e, d, false) in before.starts || (e, d) in before.fulfilled);
      assert Start(e, d, false) in after.starts || (e, d) in after.fulfilled;
    }
  }

  lemma ReconcileKeepsInv(w: World, force: bool, environment: bool)
    requires Inv(w)
    ensures Inv(Reconcile(w, force, environment))
  {
    var desired := w.reg.Desired();
    var signed := w.(sync := w.sync.(signature := KeysOf(desired)));
    assert Inv(signed);
    if w.link.phase.Connected? {
      ApplyDeltaKeepsInv(signed, desired);
    }
    RestartKeepsInv(signed, desired);
  }

  lemma RoundKeepsInv(w: World, e: nat, started: set<DomainKey>, second: bool)
    requires Inv(w) && w.link.Live(e) && e in w.work.tasks && !w.work.tasks[e].Open?
    requires forall k :: k in started ==> Served(w.work, e, k)
    ensures Inv(StartRound(w, e, started, second))
  {
    var after := StartRound(w, e, started, second);
    var desired := w.reg.Desired();
    ServedStays(w.work, after.work);
    forall k | k in started + KeysOf(desired) ensures Served(after.work, e, k) {
      if k !in started {
        var d :| d in desired && d.key == k;
        assert Start(e, d, false) in after.work.starts;
      }
    }
  }

  /** A change of the link that is none to the attempt, its connection and its socket. */
  lemma LinkKeepsInv(w: World, after: World)
    requires Inv(w) && after.work == w.work && after.sync.active == w.sync.active && after.sync.synced <= w.sync.synced
    requires after.link.epoch == w.link.epoch && after.link.controller == w.link.controller && after.link.aborted == w.link.aborted
    requires after.link.connection == w.link.connection && after.link.sockets <= w.link.sockets
    requires after.link.phase.Connected? ==> w.link.connection.Some?
    ensures Inv(after)
  {
    assert forall e :: after.link.Live(e) == w.link.Live(e);
  }

  lemma ReconnectKeepsInv(w: World, e: nat, cause: Cause)
    requires Inv(w)
    ensures Inv(ScheduleReconnect(w, e, cause)) && Inv(FailAttempt(w, e, cause))
  {
    if cause.NotTrusted? {
      LinkKeepsInv(w, HandleTrust(w, e, cause.outcome));
    }
    LinkKeepsInv(w, ScheduleReconnect(w, e, cause));
  }

  /** The step that asks for the socket. */
  predicate Connects(w: World, a: Action) {
    a.RoundDone? && Step(w, a).link.connection.Some? && w.link.connection.None?
  }

  lemma FinishRoundKeepsInv(w: World, e: nat)
    requires Inv(w)
    ensures Inv(FinishRound(w, e))
  {
    if e in w.work.tasks && w.work.tasks[e].Starting? && !RoundUnderWay(w, e) && w.link.Live(e) && w.sync.pending && !w.work.tasks[e].second {
      RoundKeepsInv(w, e, w.work.tasks[e].started, true);
    }
  }

  lemma FinishStartKeepsInv(w: World, s: Start)
    requires Inv(w)
    ensures Inv(FinishStart(w, s))
  {
    if s in w.work.starts {
      ServedStays(w.work, FinishStart(w, s).work);
    }
  }

  lemma FailStartKeepsInv(w: World, s: Start, cause: Cause)
    requires Inv(w)
    ensures Inv(FailStart(w, s, cause))
  {
    if s in w.work.starts {
      var done := w.(work := w.work.(starts := w.work.starts - multiset{s}));
      if s.delta || s.attempt !in w.work.tasks || !w.work.tasks[s.attempt].Starting? {
        OtherServed(w, s, done);
      } else {
        OtherServed(w, s, Drop(done, s.attempt));
        ReconnectKeepsInv(Drop(done, s.attempt), s.attempt, cause);
      }
    }
  }

  lemma OtherServed(w: World, s: Start, after: World)
    requires Inv(w) && after.reg == w.reg && after.sync == w.sync && after.link == w.link
    requires after.work.starts == w.work.starts - multiset{s} && after.work.fulfilled == w.work.fulfilled
    requires s.delta || s.attempt !in after.work.tasks || !after.work.tasks[s.attempt].Starting?
    requires forall e :: e in after.work.tasks ==> e in w.work.tasks && after.work.tasks[e] == w.work.tasks[e]
    requires forall e :: e in w.work.tasks && w.work.tasks[e].Open? ==> e in after.work.tasks
    ensures Inv(after)
  {
    forall e, k | e in after.work.tasks && after.work.tasks[e].Starting? && k in after.work.tasks[e].started
      ensures Served(after.work, e, k)
    {
      assert Served(w.work, e, k);
      var d: Domain :| d.key == k && (Start(e, d, false) in w.work.starts || (e, d) in w.work.fulfilled);
      assert Start(e, d, false) in after.work.starts || (e, d) in after.work.fulfilled;
    }
  }

  lemma OpenKeepsInv(w: World, e: nat)
    requires Inv(w)
    ensures Inv(OpenSocket(w, e))
  {
    if e in w.link.sockets && w.link.Live(e) && w.sync.pending {
      ApplyDeltaKeepsInv(w, w.reg.Desired());
    }
  }

  /** Calls and timers other than those of an attempt. */
  lemma CallKeepsInv(w: World, a: Action)
    requires Inv(w)
    requires a.Register? || a.Unregister? || a.SetEnvironment? || a.GraceExpires? || a.RunQueued? || a.RetryTrust? || a.RenewalDue? || a.StopAll?
    ensures Inv(Step(w, a))
  {
    match a
    case RunQueued =>
      if w.sync.queue.Some? {
        ReconcileKeepsInv(w.(sync := w.sync.(queue := None)), w.sync.queue.value.force, w.sync.queue.value.environment);
      }
    case RetryTrust => ReconcileKeepsInv(w.(link := w.link.(trust := None, terminal := false, retries := 0)), true, true);
    case RenewalDue => ReconcileKeepsInv(w, true, true);
    case _ =>
  }

  lemma TimerKeepsInv(w: World, a: Action)
    requires Inv(w) && (a.ReconnectDue? || a.TrustDue? || a.Stable?)
    ensures Inv(Step(w, a))
  {
    match a
    case ReconnectDue(e) =>
      LinkKeepsInv(w, w.(link := w.link.(reconnectTimer := None)));
      ReconcileKeepsInv(w.(link := w.link.(reconnectTimer := None)), true, true);
    case TrustDue(e, expired) =>
      var fired := w.(link := w.link.(trustTimer := None));
      LinkKeepsInv(w, fired);
      if expired {
        LinkKeepsInv(w, fired.(link := fired.link.(terminal := true, phase := Rejected)));
      } else {
        ReconcileKeepsInv(fired, true, true);
      }
    case Stable(e) => LinkKeepsInv(w, Step(w, a));
  }

  lemma SocketKeepsInv(w: World, a: Action)
    requires Inv(w) && (a.ConnectTimesOut? || a.SocketFails?)
    ensures Inv(Step(w, a))
  {
    match a
    case ConnectTimesOut(e) =>
      CloseKeepsInv(w, e);
      ReconnectKeepsInv(w.(link := w.link.(sockets := w.link.sockets - {e})), e, Plain);
    case SocketFails(e, cause, closes) =>
      CloseKeepsInv(w, e);
      ReconnectKeepsInv(w, e, cause);
      ReconnectKeepsInv(w.(link := w.link.(sockets := w.link.sockets - {e})), e, cause);
  }

  lemma CloseKeepsInv(w: World, e: nat)
    requires Inv(w)
    ensures Inv(w.(link := w.link.(sockets := w.link.sockets - {e})))
  {
    LinkKeepsInv(w, w.(link := w.link.(sockets := w.link.sockets - {e})));
  }

  lemma DropKeepsInv(w: World, e: nat)
    requires Inv(w) && (e in w.work.tasks ==> !w.work.tasks[e].Open?)
    ensures Inv(Drop(w, e))
  {
  }

  lemma StepKeepsInv(w: World, a: Action)
    requires Inv(w)
    ensures Inv(Step(w, a))
  {
    match a
    case Authenticated(e, _) => if e in w.work.tasks && w.work.tasks[e].Preparing? { DropKeepsInv(w, e); }
    case Identified(e) =>
      if e in w.work.tasks && w.work.tasks[e].Identifying? {
        DropKeepsInv(w, e);
        if w.link.Live(e) {
          RoundKeepsInv(w.(link := w.link.(phase := LoadingPhase(w.link))), e, {}, false);
        }
      }
    case RoundDone(e) => FinishRoundKeepsInv(w, e);
    case AttemptFails(e, cause) =>
      if e in w.work.tasks && w.work.tasks[e].Preparing? {
        DropKeepsInv(w, e);
        ReconnectKeepsInv(Drop(w, e), e, cause);
      }
    case StartDone(s) => FinishStartKeepsInv(w, s);
    case StartFails(s, cause) => FailStartKeepsInv(w, s, cause);
    case Opened(e) => OpenKeepsInv(w, e);
    case _ =>
      if a.ReconnectDue? || a.TrustDue? || a.Stable? {
        TimerKeepsInv(w, a);
      } else if a.ConnectTimesOut? || a.SocketFails? {
        SocketKeepsInv(w, a);
      } else {
        CallKeepsInv(w, a);
      }
  }

  lemma {:induction false} RunKeepsInv(w: World, actions: seq<Action>)
    requires Inv(w)
    ensures Inv(Run(w, actions))
    decreases |actions|
  {
    if actions != [] {
      StepKeepsInv(w, actions[0]);
      RunKeepsInv(Step(w, actions[0]), actions[1..]);
    }
  }

  // ------------------------------------------------------------- guarantees

  /** The topics are those of the domains, and no others. */
  ghost predicate TopicsAre(topics: set<Topic>, domains: set<Domain>) {
    forall t :: t in topics <==> exists d :: d in domains && t in d.topics
  }

  lemma TopicsOfMeans(domains: set<Domain>)
    ensures TopicsAre(TopicsOf(domains), domains)
  {
  }

  /** In every reachable state at most one event socket is open; it belongs to the live attempt and is
      subscribed to a topic if and only if some active domain has it, through every change of
      domains. */
  lemma OneConnectionExactTopics(actions: seq<Action>)
    ensures var w := Run(START, actions);
      && (forall e, f :: e in w.link.sockets && f in w.link.sockets ==> e == f)
      && (forall e :: e in w.link.sockets ==> w.link.Live(e) && w.link.connection.Some? && w.link.connection.value.attempt == e)
      && (w.link.connection.Some? ==>
            forall t :: t in w.link.connection.value.topics <==> exists d :: d in w.sync.active && t in d.topics)
  {
    RunKeepsInv(START, actions);
    TopicsOfMeans(Run(START, actions).sync.active);
  }

  /** A topic that is not syncing in a syncing phase has an active snapshot domain, and each of
      its active snapshot domains has finished `start` in the current attempt. */
  lemma TopicSyncedMeans(actions: seq<Action>, topic: Topic)
    ensures var w := Run(START, actions);
      w.link.phase.Syncing() && !IsTopicSyncing(w, topic) ==>
        && (exists d :: d in w.sync.active && topic in d.snapshotTopics)
        && w.link.controller.Some?
        && forall d :: d in w.sync.active && topic in d.snapshotTopics ==> (w.link.controller.value, d) in w.work.fulfilled
  {
    RunKeepsInv(START, actions);
  }

  /** The attempt that the action belongs to, if it is a continuation or callback of one. */
  function AttemptOf(a: Action): Option<nat> {
    match a
    case Authenticated(e, _) => Some(e)
    case Identified(e) => Some(e)
    case RoundDone(e) => Some(e)
    case AttemptFails(e, _) => Some(e)
    case StartDone(s) => Some(s.attempt)
    case StartFails(s, _) => Some(s.attempt)
    case Opened(e) => Some(e)
    case SocketFails(e, _, _) => Some(e)
    case ConnectTimesOut(e) => Some(e)
    case ReconnectDue(e) => Some(e)
    case TrustDue(e, _) => Some(e)
    case Stable(e) => Some(e)
    case _ => None
  }

  /** Attempt isolation: what a suspended or replaced attempt still completes changes neither the
      domains, nor what is synced, nor the phase, nor the connection. */
  lemma StaleAttemptChangesNothing(w: World, a: Action)
    requires Inv(w) && AttemptOf(a).Some? && !w.link.Live(AttemptOf(a).value)
    ensures var after := Step(w, a);
      && after.reg == w.reg && after.sync == w.sync
      && after.link.(sockets := {}, reconnectTimer := None, trustTimer := None)
         == w.link.(sockets := {}, reconnectTimer := None, trustTimer := None)
  {
  }

  /** The socket is asked for only by the live attempt, after its authentication and after the
      start of every active domain's key was fulfilled in this very attempt. */
  lemma ConnectsOnlyWhenReady(w: World, a: Action)
    requires Inv(w) && Connects(w, a)
    ensures w.link.Live(a.e) && w.work.tasks[a.e].Starting?
    ensures forall d :: d in w.sync.active ==> Fulfilled(w.work, a.e, d.key)
  {
    forall d | d in w.sync.active ensures Fulfilled(w.work, a.e, d.key) {
      assert d.key in KeysOf(w.sync.active);
      assert Served(w.work, a.e, d.key);
    }
  }

  /** The stages of an attempt come in order: its domains are started only after it was
      authenticated and identified. */
  lemma StartsOnlyAfterAuthentication(w: World, a: Action, e: nat)
    requires Inv(w) && e in Step(w, a).work.tasks && Step(w, a).work.tasks[e].Starting?
    ensures e in w.work.tasks && (w.work.tasks[e].Starting? || (w.work.tasks[e].Identifying? && a == Identified(e) && w.link.Live(e)))
  {
    assert forall f :: f in w.work.tasks ==> f <= w.link.epoch;
  }

  lemma IdentifiedOnlyAfterAuthentication(w: World, a: Action, e: nat)
    requires Inv(w) && e in Step(w, a).work.tasks && Step(w, a).work.tasks[e].Identifying?
    ensures e in w.work.tasks && (w.work.tasks[e].Identifying? || (w.work.tasks[e].Preparing? && a == Authenticated(e, true) && w.link.Live(e)))
  {
    assert forall f :: f in w.work.tasks ==> f <= w.link.epoch;
  }

  // ---------------------------------------------------------------- short runs

  lemma RunCons(w: World, a: Action, rest: seq<Action>)
    ensures Run(w, [a] + rest) == Run(Step(w, a), rest)
  {
    assert ([a] + rest)[1..] == rest;
  }

  lemma RunFour(w: World, a: Action, b: Action, c: Action, d: Action)
    ensures Run(w, [a, b, c, d]) == Step(Step(Step(Step(w, a), b), c), d)
  {
    assert [a, b, c, d] == [a] + [b, c, d];
    RunCons(w, a, [b, c, d]);
    assert [b, c, d] == [b] + [c, d];
    RunCons(Step(w, a), b, [c, d]);
    assert [c, d] == [c] + [d];
    RunCons(Step(Step(w, a), b), c, [d]);
    assert [d] == [d] + [];
    RunCons(Step(Step(Step(w, a), b), c), d, []);
  }
}
