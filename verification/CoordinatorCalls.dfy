/** What the coordinator's steps do to the socket's topics, the starts, the phases and the timers,
    and how an interruption, a failure or a refusal plays out. */
module CoordinatorCalls {
  import opened OrderedMap
  import opened ConnectionCoordinator
  import opened CoordinatorGuarantees
  import opened CoordinatorProgress
  import opened CoordinatorDomains

  // ------------------------------------------------------- rounds, socket and deltas

  /** The step that asks for the socket subscribes it to the topics of the active domains. */
  lemma OpeningTopics(w: World, a: Action)
    requires Connects(w, a)
    ensures var after := Step(w, a);
      && after.sync == w.sync && after.link.sockets == w.link.sockets + {a.e} && after.link.connection.value.attempt == a.e
      && forall t :: t in after.link.connection.value.topics <==> exists d :: d in w.sync.active && t in d.topics
  {
    TopicsOfMeans(w.sync.active);
  }

  /** The key belongs to some of the domains. */
  ghost predicate HasKey(domains: set<Domain>, key: DomainKey) {
    exists d :: d in domains && d.key == key
  }

  lemma HasKeyIff(domains: set<Domain>, key: DomainKey)
    ensures HasKey(domains, key) <==> key in KeysOf(domains)
  {
  }

  /** Taking over the desired domains keeps everything synced but the active domains whose key has
      gone. */
  ghost predicate TakesOver(w: World, after: World, desired: set<Domain>) {
    && after.sync.active == desired && !after.sync.pending
    && forall d :: d in after.sync.synced <==> d in w.sync.synced && !(d in w.sync.active && !HasKey(desired, d.key))
  }

  /** These starts begin in the attempt, once each, and no others. */
  ghost predicate Begins(w: World, after: World, e: nat, domains: set<Domain>, delta: bool) {
    forall s :: after.work.starts[s] == w.work.starts[s]
                                        + if s.attempt == e && s.delta == delta && s.domain in domains then 1 else 0
  }

  /** The desired domains whose key is none of these. */
  ghost function Others(desired: set<Domain>, keys: set<DomainKey>): set<Domain> {
    set d | d in desired && d.key !in keys
  }

  lemma TakesOverIs(w: World, desired: set<Domain>)
    ensures forall d :: d in StillSynced(w.sync, desired) <==> d in w.sync.synced && !(d in w.sync.active && !HasKey(desired, d.key))
  {
    forall d: Domain ensures HasKey(desired, d.key) <==> d.key in KeysOf(desired) {
      HasKeyIff(desired, d.key);
    }
  }

  /** A delta on a live attempt: it takes the domains over, subscribes the socket to their topics, and
      starts exactly those under a key that was not active. */
  lemma DeltaMeans(w: World, desired: set<Domain>)
    requires w.link.controller.Some? && !w.link.aborted
    ensures var after := ApplyDelta(w, desired); var e := w.link.controller.value;
      && TakesOver(w, after, desired) && Begins(w, after, e, Others(desired, KeysOf(w.sync.active)), true)
      && after.reg == w.reg && after.work.tasks == w.work.tasks && after.work.fulfilled == w.work.fulfilled
      && (w.link.connection.Some? ==>
            && after.link.connection.Some? && after.link.connection.value.attempt == w.link.connection.value.attempt
            && forall t :: t in after.link.connection.value.topics <==> exists d :: d in desired && t in d.topics)
  {
    TakesOverIs(w, desired);
    TopicsOfMeans(desired);
    var e := w.link.controller.value;
    var added := set d | d in Others(desired, KeysOf(w.sync.active)) :: Start(e, d, true);
    assert ApplyDelta(w, desired).work.starts == w.work.starts + multiset(added);
    forall s ensures s in added <==> s.attempt == e && s.delta && s.domain in Others(desired, KeysOf(w.sync.active)) {
      assert s == Start(s.attempt, s.domain, s.delta);
    }
  }

  /** A round takes the desired domains over and starts exactly those under a key that the attempt has
      not started yet. */
  lemma RoundMeans(w: World, e: nat, started: set<DomainKey>, second: bool)
    ensures var after := StartRound(w, e, started, second); var desired := w.reg.Desired();
      && TakesOver(w, after, desired) && Begins(w, after, e, Others(desired, started), false)
      && after.reg == w.reg && after.link == w.link && after.work.fulfilled == w.work.fulfilled
      && after.work.tasks == w.work.tasks[e := Starting(started + KeysOf(desired), second)]
  {
    var desired := w.reg.Desired();
    TakesOverIs(w, desired);
    var added := set d | d in Others(desired, started) :: Start(e, d, false);
    assert StartRound(w, e, started, second).work.starts == w.work.starts + multiset(added);
    forall s ensures s in added <==> s.attempt == e && !s.delta && s.domain in Others(desired, started) {
      assert s == Start(s.attempt, s.domain, s.delta);
    }
  }

  /** What a finished round leads to: a second one exactly if a change has come in during the first;
      then the socket, or the idle end without domains. */
  lemma RoundDoneMeans(w: World, e: nat)
    requires w.link.Live(e) && e in w.work.tasks && w.work.tasks[e].Starting? && !RoundUnderWay(w, e)
    ensures var after := Step(w, RoundDone(e)); var again := w.sync.pending && !w.work.tasks[e].second;
      && (again ==> after == StartRound(w, e, w.work.tasks[e].started, true) && after.work.tasks[e].second)
      && (!again && w.sync.active == {} ==> after.link.phase.Idle? && e !in after.work.tasks && after.link.sockets == w.link.sockets)
      && (!again && w.sync.active != {} ==>
            e in after.link.sockets && after.work.tasks[e].Open? && after.link.phase == w.link.phase
            && after.link.connectTimer == Some(e))
  {
  }

  /** A domain registered under a new key on a settled connection is subscribed to and started, and
      nothing else changes for the others. */
  lemma RegisterOnConnection(w: World, d: Domain)
    requires Inv(w) && SignatureInv(w) && Settled(w) && w.link.phase.Connected? && w.sync.active == w.reg.Desired()
    requires Eligible(w.reg, d) && !HasKey(w.sync.active, d.key)
    ensures var after := Step(Step(w, Register(d)), RunQueued);
      && after.sync.active == w.sync.active + {d} && after.link.epoch == w.link.epoch
      && after.link.sockets == w.link.sockets && after.link.phase.Connected? && after.link.connection.Some?
      && (forall t :: t in after.link.connection.value.topics <==> t in w.link.connection.value.topics || t in d.topics)
      && Start(w.link.epoch, d, true) in after.work.starts
      && forall s :: s in w.work.starts ==> s in after.work.starts
  {
    HasKeyIff(w.sync.active, d.key);
    var registered := Step(w, Register(d));
    DesiredAfterRegister(w.reg, d);
    KeysAfterRegister(w.reg.Desired(), d, true);
    var desired := registered.reg.Desired();
    assert desired == w.sync.active + {d} by {
      forall x ensures x in desired <==> x in w.sync.active || x == d {
        assert x in w.sync.active ==> x.key in KeysOf(w.sync.active);
      }
    }
    assert d.key in KeysOf(desired);
    var unqueued := registered.(sync := w.sync.(signature := KeysOf(desired)));
    DeltaMeans(unqueued, desired);
    TopicsOfMeans(w.sync.active);
    assert Step(registered, RunQueued) == ApplyDelta(unqueued, desired);
    assert d in Others(desired, KeysOf(w.sync.active));
  }

  /** A restart ends whatever was there, takes the domains over, and begins a new attempt exactly if
      there is a network, a domain and no terminal trust outcome. */
  lemma RestartMeans(w: World, desired: set<Domain>)
    ensures var after := Restart(w, desired);
      && after.reg == w.reg && after.link.epoch == w.link.epoch + 1 && NoTimers(after.link) && after.link.connection.None?
      && (w.link.connection.Some? ==> w.link.connection.value.attempt !in after.link.sockets)
      && after.sync.active == desired && after.sync.synced == {} && !after.sync.pending
      && (LiveNow(after.link) <==> w.reg.connected && desired != {} && !(w.link.terminal && w.link.trust.Some?))
      && (LiveNow(after.link) ==> after.work.tasks == w.work.tasks[after.link.epoch := Preparing])
      && (!LiveNow(after.link) ==> after.work == w.work)
      && (!w.reg.connected ==> after.link.phase.Offline?)
      && (w.reg.connected && desired == {} ==> after.link.phase.Idle?)
      && after.link.closed == w.link.closed && after.link.retries == w.link.retries
      && after.link.trust == w.link.trust && after.link.terminal == w.link.terminal
  {
  }

  // --------------------------------------------------------------- what a phase says

  /** What the published phase tells about the attempt, in words of its causes. */
  ghost predicate PhaseTells(l: Link) {
    match l.phase
    case Verifying => l.retries == 0 && !l.closed
    case Loading => l.retries == 0 && !l.closed
    case Reconnecting => l.retries > 0 && !l.closed
    case ControlPlaneClosed => l.closed
    case WaitingApproval => AwaitsTrust(l)
    case ApprovedConnecting => AwaitsTrust(l)
    case TrustRequired => l.terminal && l.trust == Some(Decided(true))
    case Rejected => l.terminal
    case Connected => !l.closed && l.trust.None? && !l.terminal
    case _ => true
  }

  lemma RestartTells(w: World, desired: set<Domain>)
    ensures PhaseTells(Restart(w, desired).link)
  {
  }

  lemma ReconcileTells(w: World, force: bool, environment: bool)
    requires PhaseTells(w.link)
    ensures PhaseTells(Reconcile(w, force, environment).link)
  {
    RestartTells(w.(sync := w.sync.(signature := KeysOf(w.reg.Desired()))), w.reg.Desired());
  }

  lemma FailTells(w: World, e: nat, cause: Cause)
    requires PhaseTells(w.link)
    ensures PhaseTells(ScheduleReconnect(w, e, cause).link) && PhaseTells(FailAttempt(w, e, cause).link)
  {
  }

  lemma AttemptTells(w: World, a: Action)
    requires PhaseTells(w.link) && AttemptOf(a).Some? && !a.ReconnectDue? && !a.TrustDue? && !a.Opened?
    ensures PhaseTells(Step(w, a).link)
  {
    match a
    case AttemptFails(e, cause) => FailTells(Drop(w, e), e, cause);
    case StartFails(s, cause) =>
      FailTells(Drop(w.(work := w.work.(starts := w.work.starts - multiset{s})), s.attempt), s.attempt, cause);
    case SocketFails(e, cause, _) =>
      FailTells(w, e, cause);
      FailTells(w.(link := w.link.(sockets := w.link.sockets - {e})), e, cause);
    case ConnectTimesOut(e) => FailTells(w.(link := w.link.(sockets := w.link.sockets - {e})), e, Plain);
    case _ =>
  }

  lemma CallTells(w: World, a: Action)
    requires PhaseTells(w.link) && AttemptOf(a).None?
    ensures PhaseTells(Step(w, a).link)
  {
    match a
    case RunQueued =>
      if w.sync.queue.Some? {
        ReconcileTells(w.(sync := w.sync.(queue := None)), w.sync.queue.value.force, w.sync.queue.value.environment);
      }
    case RetryTrust =>
      var retried := w.(link := w.link.(trust := None, terminal := false, retries := 0));
      RestartTells(retried.(sync := w.sync.(signature := KeysOf(w.reg.Desired()))), w.reg.Desired());
    case RenewalDue => ReconcileTells(w, true, true);
    case _ =>
  }

  lemma TimerTells(w: World, a: Action)
    requires PhaseTells(w.link) && (a.ReconnectDue? || a.TrustDue?)
    ensures PhaseTells(Step(w, a).link)
  {
    match a
    case ReconnectDue(e) => ReconcileTells(w.(link := w.link.(reconnectTimer := None)), true, true);
    case TrustDue(e, _) => ReconcileTells(w.(link := w.link.(trustTimer := None)), true, true);
  }

  lemma StepTells(w: World, a: Action)
    requires PhaseTells(w.link)
    ensures PhaseTells(Step(w, a).link)
  {
    if AttemptOf(a).None? {
      CallTells(w, a);
    } else if a.ReconnectDue? || a.TrustDue? {
      TimerTells(w, a);
    } else if !a.Opened? {
      AttemptTells(w, a);
    }
  }

  /** In every reachable state the phase tells what it says: a retry, a closed control plane, a trust
      decision, or none of these. */
  lemma {:induction false} PhasesTell(w: World, actions: seq<Action>)
    requires PhaseTells(w.link)
    ensures PhaseTells(Run(w, actions).link)
    decreases |actions|
  {
    if actions != [] {
      StepTells(w, actions[0]);
      PhasesTell(Step(w, actions[0]), actions[1..]);
    }
  }

  // ------------------------------------------------------------- failure and retry

  /** The first failure of a live attempt schedules its one retry, and until then nothing counts as
      synced; whatever else fails meanwhile changes nothing. */
  lemma FailureSchedules(w: World, e: nat, cause: Cause)
    requires w.link.Live(e) && !cause.NotTrusted?
    ensures var after := ScheduleReconnect(w, e, cause);
      && (w.link.reconnectTimer.Some? ==> after == w)
      && (w.link.reconnectTimer.None? ==>
            && after.link.reconnectTimer == Some(e) && after.link.retries == w.link.retries + 1 && after.sync.synced == {}
            && after.link.connectTimer.None? && after.sync.(synced := w.sync.synced) == w.sync && after.work == w.work
            && (after.link.phase.ControlPlaneClosed? <==> w.link.closed || cause.Closed?)
            && (after.link.phase.Reconnecting? <==> !(w.link.closed || cause.Closed?))
            && after.link.epoch == w.link.epoch && after.link.connection == w.link.connection)
  {
  }

  /** When the retry is due a new attempt begins, if there still is a network and a domain. */
  lemma RetryBegins(w: World, e: nat)
    requires w.link.Live(e) && w.link.reconnectTimer == Some(e)
    ensures var after := Step(w, ReconnectDue(e));
      && after.link.epoch == e + 1 && after.sync.active == w.reg.Desired()
      && (LiveNow(after.link) <==> w.reg.connected && w.reg.Desired() != {} && !(w.link.terminal && w.link.trust.Some?))
  {
    var fired := w.(link := w.link.(reconnectTimer := None));
    RestartMeans(fired.(sync := w.sync.(signature := KeysOf(w.reg.Desired()))), w.reg.Desired());
  }

  /** An opened socket ends the failure; once it has been stable the count of retries begins anew. */
  lemma OpenedMeans(w: World, e: nat)
    requires Inv(w) && e in w.link.sockets
    ensures var after := Step(w, Opened(e));
      && after.link.phase.Connected? && !after.link.closed && after.link.trust.None? && !after.link.terminal
      && after.link.connectTimer.None? && after.link.retries == w.link.retries && !after.sync.pending
      && (w.sync.pending ==> after.sync.active == w.reg.Desired()) && (!w.sync.pending ==> after.sync == w.sync && after.work == w.work)
      && Step(after, Stable(e)).link == after.link.(retries := 0)
  {
    OpenStage(w, e);
  }

  // ------------------------------------------------------------- interruption

  /** A short interruption leaves everything as it was. */
  lemma ShortInterruption(w: World)
    requires SignatureInv(w) && w.link.controller.Some? && w.sync.queue.None?
    requires w.reg.foreground && !w.reg.grace && !w.reg.carPlay
    ensures var away := Step(Step(w, SetEnvironment(Some(false), None, None, false)), RunQueued);
      && away == w.(reg := w.reg.(grace := true))
      && Step(Step(away, SetEnvironment(Some(true), None, None, false)), RunQueued) == w
  {
    var away := w.(reg := w.reg.(grace := true));
    assert away.reg.Desired() == w.reg.Desired();
    assert Step(Step(w, SetEnvironment(Some(false), None, None, false)), RunQueued) == away;
  }

  /** When the grace has expired the attempt and its socket end, and no domain is left active. */
  lemma GraceEnds(w: World)
    requires SignatureInv(w) && w.link.controller.Some? && w.sync.queue.None? && w.sync.signature != {}
    requires w.reg.foreground && w.reg.grace && !w.reg.carPlay && w.reg.connected
    ensures var after := Step(Step(w, GraceExpires), RunQueued);
      && !LiveNow(after.link) && after.link.connection.None? && after.link.phase.Idle? && after.sync.active == {}
      && (w.link.connection.Some? ==> w.link.connection.value.attempt !in after.link.sockets)
  {
    var expired := Step(w, GraceExpires);
    assert expired.reg.Desired() == {} && KeysOf(expired.reg.Desired()) == {};
  }

  /** Coming back after the grace has run out unnoticed replaces the connection, although the domains
      are the same. */
  lemma FrozenReturn(w: World)
    requires SignatureInv(w) && w.sync.queue.None? && w.reg.foreground && w.reg.grace && w.reg.connected && !w.reg.carPlay
    requires w.reg.Desired() != {} && !w.link.terminal
    ensures var after := Step(Step(w, SetEnvironment(Some(true), None, None, true)), RunQueued);
      && after.link.epoch == w.link.epoch + 1 && LiveNow(after.link) && after.link.connection.None?
      && after.sync.active == w.reg.Desired() && after.sync.synced == {}
  {
    var back := Step(w, SetEnvironment(Some(true), None, None, true));
    assert back.reg.Desired() == w.reg.Desired();
    RestartMeans(back.(sync := w.sync.(queue := None, signature := KeysOf(w.reg.Desired()))), w.reg.Desired());
  }

  /** In the background CarPlay keeps the background domains, and without it none is kept. */
  lemma BackgroundDomains(reg: Registry, d: Domain)
    requires WellKeyed(reg) && reg.connected && !reg.foreground
    ensures d in reg.Desired() <==> reg.Registered(d) && reg.carPlay && d.background
  {
    DesiredIff(reg, d);
  }

  /** With CarPlay the background takes effect at once, without any grace. */
  lemma CarPlayBackground(w: World)
    requires w.reg.carPlay && w.reg.foreground
    ensures var after := Step(w, SetEnvironment(Some(false), None, None, false));
      !w.reg.grace ==> !after.reg.foreground && !after.reg.grace
    ensures !Step(w, SetEnvironment(None, None, Some(true), false)).reg.grace
  {
  }

  /** Without a network everything ends, and the domains stay registered. */
  lemma NetworkLost(w: World)
    requires SignatureInv(w) && w.sync.queue.None? && w.sync.signature != {}
    ensures var after := Step(Step(w, SetEnvironment(None, Some(false), None, false)), RunQueued);
      && after.link.phase.Offline? && !LiveNow(after.link) && after.link.connection.None? && after.sync.active == {}
      && after.reg.domains == w.reg.domains
  {
    var lost := Step(w, SetEnvironment(None, Some(false), None, false));
    assert lost.reg.Desired() == {} && KeysOf(lost.reg.Desired()) == {};
  }

  // ------------------------------------------------------------------- refusal

  /** The trust exchange has ended, and nothing of an attempt is under way but timers. */
  ghost predicate ShutOut(w: World) {
    && w.link.terminal && w.link.trust.Some? && w.link.sockets == {}
    && (LiveNow(w.link) ==> StageOf(w).None? || StageOf(w) == Some(Open))
    && forall e :: e in w.work.tasks ==> e <= w.link.epoch
  }

  predicate AsksAgain(a: Action) {
    a.RetryTrust? || a.StopAll?
  }

  lemma RestartShutOut(w: World, desired: set<Domain>)
    requires ShutOut(w)
    ensures ShutOut(Restart(w, desired)) && Restart(w, desired).work == w.work && !LiveNow(Restart(w, desired).link)
  {
  }

  lemma ReconcileShutOut(w: World, force: bool, environment: bool)
    requires ShutOut(w) && !w.link.phase.Connected?
    ensures ShutOut(Reconcile(w, force, environment)) && Reconcile(w, force, environment).work == w.work
    ensures !Reconcile(w, force, environment).link.phase.Connected?
  {
    RestartShutOut(w.(sync := w.sync.(signature := KeysOf(w.reg.Desired()))), w.reg.Desired());
  }

  ghost predicate KeepsOut(w: World, after: World) {
    ShutOut(after) && !after.link.phase.Connected? && after.work.tasks.Keys <= w.work.tasks.Keys
  }

  /** The asynchronous part of an attempt that is not the current one. */
  lemma StageShutOut(w: World, a: Action)
    requires ShutOut(w) && !w.link.phase.Connected?
    requires a.Authenticated? || a.Identified? || a.RoundDone? || a.AttemptFails?
    ensures KeepsOut(w, Step(w, a))
  {
    assert a.e in w.work.tasks && !w.work.tasks[a.e].Open? ==> !w.link.Live(a.e);
  }

  lemma StartShutOut(w: World, a: Action)
    requires ShutOut(w) && !w.link.phase.Connected? && (a.StartDone? || a.StartFails?)
    ensures KeepsOut(w, Step(w, a))
  {
    if a.StartFails? {
      assert a.s.attempt in w.work.tasks && w.work.tasks[a.s.attempt].Starting? ==> !w.link.Live(a.s.attempt);
    }
  }

  lemma SocketShutOut(w: World, a: Action)
    requires ShutOut(w) && !w.link.phase.Connected? && (a.Opened? || a.SocketFails? || a.ConnectTimesOut? || a.Stable?)
    ensures KeepsOut(w, Step(w, a))
  {
  }

  lemma TimerShutOut(w: World, a: Action)
    requires ShutOut(w) && !w.link.phase.Connected? && (a.ReconnectDue? || a.TrustDue?)
    ensures KeepsOut(w, Step(w, a))
  {
    match a
    case ReconnectDue(e) => ReconcileShutOut(w.(link := w.link.(reconnectTimer := None)), true, true);
    case TrustDue(e, _) => ReconcileShutOut(w.(link := w.link.(trustTimer := None)), true, true);
  }

  lemma CallShutOut(w: World, a: Action)
    requires ShutOut(w) && !w.link.phase.Connected? && !AsksAgain(a) && AttemptOf(a).None?
    ensures KeepsOut(w, Step(w, a))
  {
    match a
    case RunQueued =>
      if w.sync.queue.Some? {
        ReconcileShutOut(w.(sync := w.sync.(queue := None)), w.sync.queue.value.force, w.sync.queue.value.environment);
      }
    case RenewalDue => ReconcileShutOut(w, true, true);
    case _ =>
  }

  lemma StepShutOut(w: World, a: Action)
    requires ShutOut(w) && !w.link.phase.Connected? && !AsksAgain(a)
    ensures KeepsOut(w, Step(w, a))
  {
    if AttemptOf(a).None? {
      CallShutOut(w, a);
    } else if a.StartDone? || a.StartFails? {
      StartShutOut(w, a);
    } else if a.ReconnectDue? || a.TrustDue? {
      TimerShutOut(w, a);
    } else if a.Opened? || a.SocketFails? || a.ConnectTimesOut? || a.Stable? {
      SocketShutOut(w, a);
    } else {
      StageShutOut(w, a);
    }
  }

  /** After a terminal trust outcome no attempt begins and no socket is asked for, over every run in
      which nobody asks again: neither failures nor registrations nor the environment do. */
  lemma {:induction false} RefusalHolds(w: World, actions: seq<Action>)
    requires ShutOut(w) && !w.link.phase.Connected? && forall a :: a in actions ==> !AsksAgain(a)
    ensures KeepsOut(w, Run(w, actions)) && Run(w, actions).link.sockets == {}
    decreases |actions|
  {
    if actions != [] {
      StepShutOut(w, actions[0]);
      RefusalHolds(Step(w, actions[0]), actions[1..]);
    }
  }

  /** Asking again begins one attempt, unless a new sign-in is needed. */
  lemma AskingAgain(w: World)
    requires w.link.terminal && w.reg.connected && w.reg.Desired() != {}
    ensures var after := Step(w, RetryTrust);
      && (w.link.phase.TrustRequired? ==> after == w)
      && (!w.link.phase.TrustRequired? ==>
            LiveNow(after.link) && after.link.epoch == w.link.epoch + 1 && !after.link.terminal && after.link.trust.None?
            && after.link.phase == (if w.link.closed then ControlPlaneClosed else Verifying))
  {
  }

  /** A decision ends the exchange, a pending request waits for its retry, and one that has lapsed
      ends it too. */
  lemma OutcomeMeans(w: World, e: nat, outcome: Outcome)
    requires w.link.Live(e)
    ensures var after := FailAttempt(w, e, NotTrusted(outcome));
      && after.link.trust == Some(outcome) && after.link.retries == 0 && after.link.reconnectTimer.None?
      && after.sync == w.sync && after.work == w.work && after.link.connectTimer.None?
      && (after.link.terminal <==> outcome != Pending(false))
      && (after.link.trustTimer.Some? <==> outcome == Pending(false))
      && (after.link.trustTimer.Some? ==> after.link.trustTimer == Some(e) && after.link.phase.WaitingApproval?)
      && (after.link.phase.TrustRequired? <==> outcome == Decided(true))
  {
  }

  /** Stopping ends everything and keeps the registrations; nothing is left for anybody to call. */
  lemma StopMeans(w: World)
    requires Inv(w)
    ensures var after := Step(w, StopAll);
      && !LiveNow(after.link) && NoTimers(after.link) && after.link.sockets == {} && after.link.connection.None?
      && after.link.phase.Idle? && after.sync.active == {} && after.sync.synced == {} && !after.sync.pending
      && after.reg.domains == w.reg.domains && !after.reg.grace && after.link.trust.None? && !after.link.terminal
      && after.link.epoch == w.link.epoch + 1 && after.link.aborted && !after.link.closed && after.sync.signature == {}
      && after.sync.queue == w.sync.queue && after.work == w.work && Step(after, RenewalDue) == after
  {
    assert forall e :: e in w.link.sockets ==> w.link.connection.Some? && e == w.link.connection.value.attempt;
  }

  // ------------------------------------------------------- single continuations

  /** A reconciliation that is queued already takes the stronger mode of the two. */
  lemma QueueMeans(sync: Sync, environment: bool, force: bool)
    ensures var after := Queue(sync, environment, force);
      && after.queue.Some?
      && (after.queue.value.environment <==> environment || (sync.queue.Some? && sync.queue.value.environment))
      && (after.queue.value.force <==> force || (sync.queue.Some? && sync.queue.value.force))
      && after.active == sync.active && after.synced == sync.synced && after.pending == sync.pending
      && after.signature == sync.signature
  {
  }

  /** What the environment becomes. Going to the background takes effect at once with CarPlay, and
      begins the grace without it; CarPlay ends a grace; coming to the foreground ends it too. */
  lemma EnvironmentMeans(w: World, foreground: Option<bool>, connected: Option<bool>, carPlay: Option<bool>, graceExpired: bool)
    ensures var (before, after) := (w.reg, Step(w, SetEnvironment(foreground, connected, carPlay, graceExpired)).reg);
      && after.domains == before.domains
      && after.connected == (if connected.Some? then connected.value else before.connected)
      && after.carPlay == (if carPlay.Some? then carPlay.value else before.carPlay)
      && (foreground == Some(true) ==> after.foreground && !after.grace)
      && (foreground == Some(false) && before.foreground ==>
            var atOnce := after.carPlay || (before.carPlay && !before.grace);
            after.foreground == !atOnce && after.grace == !atOnce)
      && (foreground != Some(true) && !before.foreground && !before.grace ==> !after.foreground && !after.grace)
      && (foreground.None? ==>
            if before.grace && after.carPlay then !after.foreground && !after.grace
            else after.foreground == before.foreground && after.grace == before.grace)
    ensures Step(w, SetEnvironment(foreground, connected, carPlay, graceExpired)).sync
         == Queue(w.sync, true, graceExpired && foreground == Some(true) && w.reg.grace)
    ensures var after := Step(w, SetEnvironment(foreground, connected, carPlay, graceExpired));
      after.link == w.link && after.work == w.work
  {
  }

  /** The grace is over: in the background, with a reconciliation of the environment queued. */
  lemma GraceExpiresMeans(w: World)
    ensures var after := Step(w, GraceExpires);
      if !w.reg.grace then after == w
      else
        && after.reg == Registry(w.reg.domains, false, w.reg.connected, w.reg.carPlay, false)
        && after.link == w.link && after.work == w.work
        && after.sync == if w.reg.foreground then Queue(w.sync, true, false) else w.sync
  {
  }

  /** A start that is fulfilled is over, and its domain is synced exactly if it was started by the
      current attempt and is still registered and active. */
  lemma StartDoneMeans(w: World, s: Start)
    requires s in w.work.starts
    ensures var after := Step(w, StartDone(s)); var current := w.link.controller == Some(s.attempt) && !w.link.aborted;
      && after.work.starts == w.work.starts - multiset{s} && after.work.tasks == w.work.tasks
      && after.work.fulfilled == w.work.fulfilled + {(s.attempt, s.domain)}
      && (forall d :: d in after.sync.synced <==>
            d in w.sync.synced || (d == s.domain && current && w.reg.Registered(d) && d in w.sync.active))
      && after.sync.active == w.sync.active && after.sync.pending == w.sync.pending
      && after.sync.signature == w.sync.signature && after.sync.queue == w.sync.queue
      && after.link == w.link && after.reg == w.reg
  {
  }

  /** A start that fails is over. In a delta that is all; in a round the attempt that waits for it
      ends, and a live one schedules its retry. */
  lemma StartFailsMeans(w: World, s: Start, cause: Cause)
    requires s in w.work.starts
    ensures var after := Step(w, StartFails(s, cause));
      var awaited := !s.delta && s.attempt in w.work.tasks && w.work.tasks[s.attempt].Starting?;
      && after.work.starts == w.work.starts - multiset{s} && after.work.fulfilled == w.work.fulfilled && after.reg == w.reg
      && after.work.tasks == (if awaited then w.work.tasks - {s.attempt} else w.work.tasks)
      && (!awaited || !w.link.Live(s.attempt) ==> after.link == w.link && after.sync == w.sync)
      && (awaited && w.link.Live(s.attempt) && !cause.NotTrusted? ==>
            after.link.reconnectTimer.Some? && (w.link.reconnectTimer.None? ==> after.sync.synced == {}))
  {
  }

  /** What is authenticated is identified next; an expired session ends the attempt. */
  lemma AuthenticatedMeans(w: World, e: nat, valid: bool)
    requires e in w.work.tasks && w.work.tasks[e].Preparing?
    ensures var after := Step(w, Authenticated(e, valid));
      && after.reg == w.reg && after.sync == w.sync && after.work.starts == w.work.starts
      && (w.link.Live(e) && valid ==> after.link == w.link && after.work.tasks == w.work.tasks[e := Identifying])
      && (!w.link.Live(e) || !valid ==> after.work.tasks == w.work.tasks - {e})
      && (!w.link.Live(e) ==> after.link == w.link)
      && (w.link.Live(e) && !valid ==> after.link.phase.SessionExpired? && after.link.reconnectTimer == w.link.reconnectTimer)
  {
  }

  /** Once the identity is known the phase says what is loaded for, and the first round begins. */
  lemma IdentifiedMeans(w: World, e: nat)
    requires e in w.work.tasks && w.work.tasks[e].Identifying? && w.link.Live(e)
    ensures var after := Step(w, Identified(e));
      var pending := w.link.trust.Some? && w.link.trust.value.Pending?;
      && e in after.work.tasks && after.work.tasks[e] == Starting(KeysOf(w.reg.Desired()), false)
      && (after.link.phase.ApprovedConnecting? <==> pending)
      && (after.link.phase.ControlPlaneClosed? <==> !pending && w.link.closed)
      && (after.link.phase.Reconnecting? <==> !pending && !w.link.closed && w.link.retries > 0)
      && (after.link.phase.Loading? <==> !pending && !w.link.closed && w.link.retries == 0)
      && after.link.(phase := w.link.phase) == w.link
  {
    assert {} + KeysOf(w.reg.Desired()) == KeysOf(w.reg.Desired());
  }

  /** A socket that has closed is gone, one that reports an error stays until it is replaced; without
      a live attempt nothing else happens. */
  lemma SocketFailsMeans(w: World, e: nat, cause: Cause, closes: bool)
    requires e in w.link.sockets
    ensures var after := Step(w, SocketFails(e, cause, closes));
      && after.link.sockets == (if closes then w.link.sockets - {e} else w.link.sockets)
      && after.work == w.work && after.reg == w.reg && after.sync.active == w.sync.active
      && (!w.link.Live(e) ==> after.link.phase == w.link.phase && after.sync == w.sync
                              && after.link.reconnectTimer == w.link.reconnectTimer)
      && (w.link.Live(e) && !cause.NotTrusted? ==> after.link.reconnectTimer.Some?)
  {
  }

  /** A socket that does not open in time is closed, and a retry is scheduled. */
  lemma TimeoutMeans(w: World, e: nat)
    requires w.link.connectTimer == Some(e) && w.link.Live(e) && !w.link.phase.Connected?
    ensures var after := Step(w, ConnectTimesOut(e));
      && after.link.sockets == w.link.sockets - {e} && after.link.reconnectTimer.Some?
      && after.work == w.work && after.reg == w.reg
      && (w.link.reconnectTimer.None? ==> after.sync.synced == {} && after.link.connectTimer.None?)
  {
  }

  /** A retry happens once, and only for its own attempt. */
  lemma RetryIsOver(w: World, e: nat)
    requires w.link.reconnectTimer == Some(e)
    ensures Step(w, ReconnectDue(e)).link.reconnectTimer.None?
    ensures !w.link.Live(e) ==> Step(w, ReconnectDue(e)).link == w.link.(reconnectTimer := None) && Step(w, ReconnectDue(e)).sync == w.sync
    ensures forall f :: f != e ==> Step(w, ReconnectDue(f)) == w
  {
  }
}
