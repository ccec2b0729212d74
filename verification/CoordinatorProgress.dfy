/** Whether anything brings the connection coordinator's current attempt on: which attempts end with
    nothing under way, and what becomes of the domains that are registered then. */
module CoordinatorProgress {
  import opened OrderedMap
  import opened ConnectionCoordinator
  import opened CoordinatorGuarantees

  predicate LiveNow(l: Link) {
    l.Live(l.epoch)
  }

  /** How far the current attempt has come; None when its asynchronous part is over. */
  function StageOf(w: World): Option<Stage> {
    if w.link.epoch in w.work.tasks then Some(w.work.tasks[w.link.epoch]) else None
  }

  predicate NoTimers(l: Link) {
    l.reconnectTimer.None? && l.trustTimer.None? && l.connectTimer.None?
  }

  predicate Refused(phase: Phase) {
    phase.Rejected? || phase.TrustRequired?
  }

  predicate Retrying(phase: Phase) {
    phase.Reconnecting? || phase.ControlPlaneClosed?
  }

  /** An await, a socket or a timer of the current attempt is still to come. */
  predicate UnderWay(w: World) {
    || (StageOf(w).Some? && !StageOf(w).value.Open?)
    || w.link.sockets != {} || !NoTimers(w.link)
  }

  // ------------------------------------------------------------------ invariant

  predicate OwnTimer(l: Link, timer: Option<nat>) {
    timer.None? || timer == Some(l.epoch)
  }

  /** The phase of a live attempt goes with what is under way. */
  ghost predicate Shape(l: Link, stage: Option<Stage>) {
    && OwnTimer(l, l.reconnectTimer) && OwnTimer(l, l.trustTimer) && OwnTimer(l, l.connectTimer)
    && if !LiveNow(l) then NoTimers(l) && !l.phase.Syncing() && !l.phase.Connected? && !l.phase.SessionExpired?
    else
      match stage
      case None =>
        && l.sockets == {} && l.connectTimer.None?
        && if l.reconnectTimer.Some? then l.trustTimer.None? && Retrying(l.phase)
           else if l.trustTimer.Some? then l.phase.WaitingApproval?
           else l.phase.Idle? || l.phase.SessionExpired? || Refused(l.phase)
      case Some(Open) =>
        && !l.phase.Idle? && !l.phase.SessionExpired?
        && (Refused(l.phase) ==> l.trustTimer.None?)
        && (Refused(l.phase) || l.trustTimer.Some? || l.reconnectTimer.Some? ==> l.connectTimer.None?)
        && (l.sockets == {} && NoTimers(l) ==> Refused(l.phase))
      case Some(_) =>
        && NoTimers(l) && l.sockets == {}
        && (l.phase.Syncing() || l.phase.ControlPlaneClosed? || l.phase.WaitingApproval?)
  }

  /** What is synced while an attempt is starting its domains, and when it ends idle. */
  ghost predicate StageSync(w: World) {
    && (forall s :: s in w.work.starts ==> s.attempt <= w.link.epoch)
    && (LiveNow(w.link) ==>
          match StageOf(w)
          case None => w.link.phase.Idle? ==> w.sync.active == {} && w.sync.synced == {}
          case Some(Starting(_, second)) =>
            KeysOf(w.sync.synced) <= KeysOf(w.sync.active) && (second || w.sync.synced <= w.sync.active)
          case Some(Open) => true
          case Some(_) => w.sync.synced == {} && forall s :: s in w.work.starts ==> s.attempt != w.link.epoch)
  }

  /** While no change of the environment is queued, nothing is desired without a network. */
  ghost predicate OfflineInv(w: World) {
    !w.reg.connected && (w.sync.queue.None? || !w.sync.queue.value.environment) ==> w.sync.signature == {}
  }

  ghost predicate ProgressInv(w: World) {
    Inv(w) && Shape(w.link, StageOf(w)) && StageSync(w) && OfflineInv(w)
  }

  // ---------------------------------------------------------------- the phases

  lemma RestartShape(w: World, desired: set<Domain>)
    requires Inv(w)
    ensures Shape(Restart(w, desired).link, StageOf(Restart(w, desired)))
  {
  }

  lemma ReconcileShape(w: World, force: bool, environment: bool)
    requires Inv(w) && Shape(w.link, StageOf(w))
    ensures Shape(Reconcile(w, force, environment).link, StageOf(Reconcile(w, force, environment)))
  {
    RestartShape(w.(sync := w.sync.(signature := KeysOf(w.reg.Desired()))), w.reg.Desired());
  }

  /** The failure of a running attempt. */
  lemma FailShape(w: World, e: nat, cause: Cause)
    requires w.link.Live(e) && StageOf(w).None? && NoTimers(w.link) && w.link.sockets == {}
    ensures Shape(FailAttempt(w, e, cause).link, StageOf(FailAttempt(w, e, cause)))
  {
  }

  /** The failure of an attempt that has asked for its socket. */
  lemma OpenFailShape(w: World, sockets: set<nat>, e: nat, cause: Cause)
    requires Shape(w.link, StageOf(w)) && w.link.Live(e) && StageOf(w) == Some(Open) && sockets <= w.link.sockets
    requires w.link.sockets != {}
    ensures var after := ScheduleReconnect(w.(link := w.link.(sockets := sockets)), e, cause);
      Shape(after.link, StageOf(after))
  {
  }

  /** A callback of an attempt that is over leaves the current one alone. */
  lemma StaleKeepsStage(w: World, a: Action)
    requires Inv(w) && AttemptOf(a).Some? && !w.link.Live(AttemptOf(a).value) && Shape(w.link, StageOf(w))
    ensures Step(w, a).link == w.link && (LiveNow(w.link) ==> StageOf(Step(w, a)) == StageOf(w))
  {
    var e := AttemptOf(a).value;
    assert e !in w.link.sockets;
    assert e == w.link.epoch ==> NoTimers(w.link);
  }

  ghost predicate Shaped(w: World) {
    Inv(w) && Shape(w.link, StageOf(w)) && StageSync(w)
  }

  ghost predicate KeepsShape(w: World, a: Action) {
    Shape(Step(w, a).link, StageOf(Step(w, a)))
  }

  lemma AuthenticatedShape(w: World, e: nat, valid: bool)
    requires Shaped(w) && w.link.Live(e)
    ensures KeepsShape(w, Authenticated(e, valid))
  {
  }

  lemma IdentifiedShape(w: World, e: nat)
    requires Shaped(w) && w.link.Live(e)
    ensures KeepsShape(w, Identified(e))
  {
  }

  lemma RoundDoneShape(w: World, e: nat)
    requires Shaped(w) && w.link.Live(e)
    ensures KeepsShape(w, RoundDone(e))
  {
  }

  lemma AttemptFailsShape(w: World, e: nat, cause: Cause)
    requires Shaped(w) && w.link.Live(e)
    ensures KeepsShape(w, AttemptFails(e, cause))
  {
    if StageOf(w) == Some(Preparing) {
      FailShape(Drop(w, e), e, cause);
    }
  }

  lemma StartFailsShape(w: World, s: Start, cause: Cause)
    requires Shaped(w) && w.link.Live(s.attempt)
    ensures KeepsShape(w, StartFails(s, cause))
  {
    if s in w.work.starts && !s.delta && StageOf(w).Some? && StageOf(w).value.Starting? {
      FailShape(Drop(w.(work := w.work.(starts := w.work.starts - multiset{s})), s.attempt), s.attempt, cause);
    }
  }

  lemma OpenStage(w: World, e: nat)
    requires Inv(w) && e in w.link.sockets
    ensures w.link.Live(e) && StageOf(w) == Some(Open)
  {
  }

  lemma OpenedShape(w: World, e: nat)
    requires Shaped(w) && w.link.Live(e)
    ensures KeepsShape(w, Opened(e))
  {
    if e in w.link.sockets {
      OpenStage(w, e);
    }
  }

  lemma SocketFailsShape(w: World, e: nat, cause: Cause, closes: bool)
    requires Shaped(w) && w.link.Live(e)
    ensures KeepsShape(w, SocketFails(e, cause, closes))
  {
    if e in w.link.sockets {
      OpenStage(w, e);
      OpenFailShape(w, if closes then w.link.sockets - {e} else w.link.sockets, e, cause);
    }
  }

  lemma TimesOutShape(w: World, e: nat)
    requires Shaped(w) && w.link.Live(e)
    ensures KeepsShape(w, ConnectTimesOut(e))
  {
    if w.link.connectTimer == Some(e) {
      assert StageOf(w) == Some(Open);
    }
  }

  lemma ReconnectDueShape(w: World, e: nat)
    requires Shaped(w) && w.link.Live(e)
    ensures KeepsShape(w, ReconnectDue(e))
  {
    var fired := w.(link := w.link.(reconnectTimer := None));
    LinkKeepsInv(w, fired);
    RestartShape(fired.(sync := w.sync.(signature := KeysOf(w.reg.Desired()))), w.reg.Desired());
  }

  lemma TrustDueShape(w: World, e: nat, expired: bool)
    requires Shaped(w) && w.link.Live(e)
    ensures KeepsShape(w, TrustDue(e, expired))
  {
    var fired := w.(link := w.link.(trustTimer := None));
    LinkKeepsInv(w, fired);
    if !expired {
      RestartShape(fired.(sync := w.sync.(signature := KeysOf(w.reg.Desired()))), w.reg.Desired());
    }
  }

  lemma CallShape(w: World, a: Action)
    requires Shaped(w) && AttemptOf(a).None?
    ensures KeepsShape(w, a)
  {
    match a
    case RunQueued =>
      if w.sync.queue.Some? {
        ReconcileShape(w.(sync := w.sync.(queue := None)), w.sync.queue.value.force, w.sync.queue.value.environment);
      }
    case RetryTrust => RetryShape(w);
    case RenewalDue => ReconcileShape(w, true, true);
    case _ =>
  }

  lemma RetryShape(w: World)
    requires Shaped(w)
    ensures KeepsShape(w, RetryTrust)
  {
    var retried := w.(link := w.link.(trust := None, terminal := false, retries := 0));
    LinkKeepsInv(w, retried);
    RestartShape(retried.(sync := w.sync.(signature := KeysOf(w.reg.Desired()))), w.reg.Desired());
  }

  lemma LiveShape(w: World, a: Action)
    requires Shaped(w) && AttemptOf(a).Some? && w.link.Live(AttemptOf(a).value)
    ensures KeepsShape(w, a)
  {
    match a
    case Authenticated(e, valid) => AuthenticatedShape(w, e, valid);
    case Identified(e) => IdentifiedShape(w, e);
    case RoundDone(e) => RoundDoneShape(w, e);
    case AttemptFails(e, cause) => AttemptFailsShape(w, e, cause);
    case StartFails(s, cause) => StartFailsShape(w, s, cause);
    case Opened(e) => OpenedShape(w, e);
    case SocketFails(e, cause, closes) => SocketFailsShape(w, e, cause, closes);
    case ConnectTimesOut(e) => TimesOutShape(w, e);
    case ReconnectDue(e) => ReconnectDueShape(w, e);
    case TrustDue(e, expired) => TrustDueShape(w, e, expired);
    case StartDone(_) =>
    case Stable(_) =>
  }

  lemma StepShape(w: World, a: Action)
    requires Shaped(w)
    ensures KeepsShape(w, a)
  {
    if AttemptOf(a).None? {
      CallShape(w, a);
    } else if w.link.Live(AttemptOf(a).value) {
      LiveShape(w, a);
    } else {
      StaleKeepsStage(w, a);
    }
  }

  // ------------------------------------------------- what is synced while starting

  ghost predicate KeepsSync(w: World, a: Action) {
    StageSync(Step(w, a))
  }

  lemma RestartSync(w: World, desired: set<Domain>)
    requires Inv(w) && forall s :: s in w.work.starts ==> s.attempt <= w.link.epoch
    ensures StageSync(Restart(w, desired))
  {
  }

  lemma DeltaSync(w: World, desired: set<Domain>)
    requires Inv(w) && StageSync(w) && w.link.connection.Some?
    ensures StageSync(ApplyDelta(w, desired))
  {
    assert StageOf(w) == Some(Open);
    forall s | s in ApplyDelta(w, desired).work.starts ensures s.attempt <= w.link.epoch {
      assert s in w.work.starts || s.attempt == w.link.controller.value;
    }
  }

  lemma ReconcileSync(w: World, force: bool, environment: bool)
    requires Inv(w) && StageSync(w)
    ensures StageSync(Reconcile(w, force, environment))
  {
    var desired := w.reg.Desired();
    var signed := w.(sync := w.sync.(signature := KeysOf(desired)));
    RestartSync(signed, desired);
    if w.link.phase.Connected? {
      DeltaSync(signed, desired);
    }
  }

  lemma CallSync(w: World, a: Action)
    requires Shaped(w) && AttemptOf(a).None?
    ensures KeepsSync(w, a)
  {
    match a
    case RunQueued => RunQueuedSync(w);
    case RetryTrust => RetrySync(w);
    case RenewalDue => ReconcileSync(w, true, true);
    case StopAll =>
    case _ => OtherCallSync(w, a);
  }

  lemma OtherCallSync(w: World, a: Action)
    requires StageSync(w) && (a.Register? || a.Unregister? || a.SetEnvironment? || a.GraceExpires?)
    ensures KeepsSync(w, a)
  {
    var after := Step(w, a);
    assert after.link == w.link && after.work == w.work && after.sync.active == w.sync.active && after.sync.synced == w.sync.synced;
  }

  lemma RunQueuedSync(w: World)
    requires Shaped(w)
    ensures KeepsSync(w, RunQueued)
  {
    if w.sync.queue.Some? {
      var unqueued := w.(sync := w.sync.(queue := None));
      assert StageSync(unqueued);
      ReconcileSync(unqueued, w.sync.queue.value.force, w.sync.queue.value.environment);
    }
  }

  lemma RetrySync(w: World)
    requires Shaped(w)
    ensures KeepsSync(w, RetryTrust)
  {
    var retried := w.(link := w.link.(trust := None, terminal := false, retries := 0));
    LinkKeepsInv(w, retried);
    RestartSync(retried.(sync := w.sync.(signature := KeysOf(w.reg.Desired()))), w.reg.Desired());
  }

  /** A round of starts in the current attempt, before which everything synced was active. */
  lemma RoundSync(w: World, e: nat, started: set<DomainKey>, second: bool)
    requires Inv(w) && w.link.Live(e) && w.sync.synced <= w.sync.active
    requires second || w.sync.synced == {}
    requires forall s :: s in w.work.starts ==> s.attempt <= w.link.epoch
    ensures StageSync(StartRound(w, e, started, second))
  {
    var after := StartRound(w, e, started, second);
    forall d | d in after.sync.synced ensures d.key in KeysOf(after.sync.active) {
      assert d in w.sync.synced && d in w.sync.active;
    }
    forall s | s in after.work.starts ensures s.attempt <= after.link.epoch {
      assert s in w.work.starts || s.attempt == e;
    }
  }

  lemma RoundDoneSync(w: World, e: nat)
    requires Shaped(w) && w.link.Live(e)
    ensures KeepsSync(w, RoundDone(e))
  {
    if StageOf(w).Some? && StageOf(w).value.Starting? && !RoundUnderWay(w, e) {
      if w.sync.pending && !StageOf(w).value.second {
        RoundSync(w, e, StageOf(w).value.started, true);
      } else if w.sync.active == {} {
        assert KeysOf(w.sync.active) == {};
        assert forall d :: d in w.sync.synced ==> d.key in KeysOf(w.sync.synced);
        assert w.sync.synced == {};
      }
    }
  }

  lemma StartDoneSync(w: World, s: Start)
    requires Shaped(w) && w.link.Live(s.attempt)
    ensures KeepsSync(w, StartDone(s))
  {
    var after := Step(w, StartDone(s));
    assert forall t :: t in after.work.starts ==> t in w.work.starts;
    if after.sync.synced != w.sync.synced {
      assert after.sync == w.sync.(synced := w.sync.synced + {s.domain}) && s.domain in w.sync.active && s in w.work.starts;
      KeysOfMore(w.sync.synced, s.domain);
      assert s.domain.key in KeysOf(w.sync.active);
    }
  }

  lemma KeysOfMore(domains: set<Domain>, d: Domain)
    ensures KeysOf(domains + {d}) == KeysOf(domains) + {d.key}
  {
    forall k | k in KeysOf(domains) + {d.key} ensures k in KeysOf(domains + {d}) {
      if k != d.key {
        var x :| x in domains && x.key == k;
        assert x in domains + {d};
      } else {
        assert d in domains + {d};
      }
    }
  }

  lemma FailSync(w: World, e: nat, cause: Cause)
    requires w.link.Live(e) && StageOf(w).None? && forall s :: s in w.work.starts ==> s.attempt <= w.link.epoch
    requires NoTimers(w.link)
    ensures StageSync(FailAttempt(w, e, cause))
  {
  }

  lemma StartFailsSync(w: World, s: Start, cause: Cause)
    requires Shaped(w) && w.link.Live(s.attempt)
    ensures KeepsSync(w, StartFails(s, cause))
  {
    if s in w.work.starts && !s.delta && StageOf(w).Some? && StageOf(w).value.Starting? {
      FailSync(Drop(w.(work := w.work.(starts := w.work.starts - multiset{s})), s.attempt), s.attempt, cause);
    }
  }

  lemma OpenedSync(w: World, e: nat)
    requires Shaped(w) && w.link.Live(e)
    ensures KeepsSync(w, Opened(e))
  {
    if e in w.link.sockets {
      OpenStage(w, e);
      DeltaSync(w, w.reg.Desired());
    }
  }

  /** The socket or its timer fails: the attempt stays at its last stage. */
  lemma ReconnectSync(w: World, sockets: set<nat>, e: nat, cause: Cause)
    requires StageSync(w) && StageOf(w) == Some(Open)
    ensures StageSync(ScheduleReconnect(w.(link := w.link.(sockets := sockets)), e, cause))
  {
  }

  lemma SocketFailsSync(w: World, e: nat, cause: Cause, closes: bool)
    requires Shaped(w) && w.link.Live(e)
    ensures KeepsSync(w, SocketFails(e, cause, closes))
  {
    if e in w.link.sockets {
      OpenStage(w, e);
      ReconnectSync(w, if closes then w.link.sockets - {e} else w.link.sockets, e, cause);
    }
  }

  lemma TimesOutSync(w: World, e: nat)
    requires Shaped(w) && w.link.Live(e)
    ensures KeepsSync(w, ConnectTimesOut(e))
  {
    if w.link.connectTimer == Some(e) {
      assert StageOf(w) == Some(Open);
      ReconnectSync(w, w.link.sockets - {e}, e, Plain);
    }
  }

  lemma ReconnectDueSync(w: World, e: nat)
    requires Shaped(w) && w.link.Live(e)
    ensures KeepsSync(w, ReconnectDue(e))
  {
    var fired := w.(link := w.link.(reconnectTimer := None));
    LinkKeepsInv(w, fired);
    RestartSync(fired.(sync := w.sync.(signature := KeysOf(w.reg.Desired()))), w.reg.Desired());
  }

  lemma TrustDueSync(w: World, e: nat, expired: bool)
    requires Shaped(w) && w.link.Live(e)
    ensures KeepsSync(w, TrustDue(e, expired))
  {
    if !expired {
      var fired := w.(link := w.link.(trustTimer := None));
      LinkKeepsInv(w, fired);
      RestartSync(fired.(sync := w.sync.(signature := KeysOf(w.reg.Desired()))), w.reg.Desired());
    }
  }

  lemma AuthenticatedSync(w: World, e: nat, valid: bool)
    requires Shaped(w) && w.link.Live(e)
    ensures KeepsSync(w, Authenticated(e, valid))
  {
  }

  lemma IdentifiedSync(w: World, e: nat)
    requires Shaped(w) && w.link.Live(e)
    ensures KeepsSync(w, Identified(e))
  {
    if StageOf(w) == Some(Identifying) {
      var loading := w.(link := w.link.(phase := LoadingPhase(w.link)));
      LinkKeepsInv(w, loading);
      RoundSync(loading, e, {}, false);
    }
  }

  lemma LiveSync(w: World, a: Action)
    requires Shaped(w) && AttemptOf(a).Some? && w.link.Live(AttemptOf(a).value)
    ensures KeepsSync(w, a)
  {
    match a
    case Authenticated(e, valid) => AuthenticatedSync(w, e, valid);
    case Identified(e) => IdentifiedSync(w, e);
    case RoundDone(e) => RoundDoneSync(w, e);
    case AttemptFails(e, cause) => if StageOf(w) == Some(Preparing) { FailSync(Drop(w, e), e, cause); }
    case StartDone(s) => StartDoneSync(w, s);
    case StartFails(s, cause) => StartFailsSync(w, s, cause);
    case Opened(e) => OpenedSync(w, e);
    case SocketFails(e, cause, closes) => SocketFailsSync(w, e, cause, closes);
    case ConnectTimesOut(e) => TimesOutSync(w, e);
    case ReconnectDue(e) => ReconnectDueSync(w, e);
    case TrustDue(e, expired) => TrustDueSync(w, e, expired);
    case Stable(_) =>
  }

  lemma StaleSync(w: World, a: Action)
    requires Shaped(w) && AttemptOf(a).Some? && !w.link.Live(AttemptOf(a).value)
    ensures KeepsSync(w, a)
  {
    StaleKeepsStage(w, a);
    StaleAttemptChangesNothing(w, a);
    assert forall s :: s in Step(w, a).work.starts ==> s in w.work.starts;
  }

  lemma OfflineKept(w: World, a: Action)
    requires OfflineInv(w)
    ensures OfflineInv(Step(w, a))
  {
  }

  lemma StepKeepsProgress(w: World, a: Action)
    requires ProgressInv(w)
    ensures ProgressInv(Step(w, a))
  {
    StepKeepsInv(w, a);
    StepShape(w, a);
    OfflineKept(w, a);
    if AttemptOf(a).None? {
      CallSync(w, a);
    } else if w.link.Live(AttemptOf(a).value) {
      LiveSync(w, a);
    } else {
      StaleSync(w, a);
    }
  }

  lemma {:induction false} RunKeepsProgress(w: World, actions: seq<Action>)
    requires ProgressInv(w)
    ensures ProgressInv(Run(w, actions))
    decreases |actions|
  {
    if actions != [] {
      StepKeepsProgress(w, actions[0]);
      RunKeepsProgress(Step(w, actions[0]), actions[1..]);
    }
  }

  // ------------------------------------------------------------- guarantees

  /** Exactly which attempts have nothing under way, over every run: those that ended idle, those
      whose session has expired, and those that the trust exchange has ended and that have neither
      a socket nor a reconnect timer left. */
  lemma NothingUnderWayIff(actions: seq<Action>)
    ensures var w := Run(START, actions);
      LiveNow(w.link) ==>
        (!UnderWay(w) <==> w.link.phase.Idle? || w.link.phase.SessionExpired?
                           || (Refused(w.link.phase) && w.link.sockets == {} && w.link.reconnectTimer.None?))
  {
    RunKeepsProgress(START, actions);
  }

  /** In such a state a newly registered eligible domain begins a new attempt if and only if the
      session has expired. In the others it is only marked pending. */
  lemma RegistrationRestartsIff(w: World, d: Domain)
    requires ProgressInv(w) && LiveNow(w.link) && !UnderWay(w)
    requires w.sync.queue.None? && w.reg.connected && d.key !in w.sync.signature && (w.reg.foreground || (w.reg.carPlay && d.background))
    ensures var after := Step(Step(w, Register(d)), RunQueued);
      && d in after.reg.Desired()
      && (after.link.epoch > w.link.epoch <==> w.link.phase.SessionExpired?)
      && (!w.link.phase.SessionExpired? ==> after.link == w.link && after.sync.active == w.sync.active && after.sync.pending)
  {
    var registered := Step(w, Register(d));
    assert registered.reg.domains[d.key] == d;
    assert d in registered.reg.Desired() && d.key in KeysOf(registered.reg.Desired());
  }

  /** Nothing is under way, and a change of the registered domains will not restart the attempt. */
  ghost predicate Stranded(w: World) {
    && ProgressInv(w) && LiveNow(w.link) && !UnderWay(w) && (w.link.phase.Idle? || Refused(w.link.phase))
    && (w.sync.queue.Some? ==> w.sync.queue.value == Queued(false, false))
  }

  /** No forced reconciliation, no change of the environment, no stop. */
  predicate Calm(a: Action) {
    !a.SetEnvironment? && !a.GraceExpires? && !a.RetryTrust? && !a.RenewalDue? && !a.StopAll?
  }

  /** Link and active domains stay, no start begins, and nothing becomes synced unless it was
      active. */
  ghost predicate StaysPut(w: World, after: World) {
    && after.link == w.link && after.sync.active == w.sync.active && after.work.starts <= w.work.starts
    && after.sync.synced <= w.sync.synced + w.sync.active
  }

  lemma CallStaysPut(w: World, a: Action)
    requires Stranded(w) && Calm(a) && AttemptOf(a).None?
    ensures Stranded(Step(w, a)) && StaysPut(w, Step(w, a))
  {
    StepKeepsProgress(w, a);
  }

  /** The current attempt has no continuation or callback left but those of its starts. */
  lemma NothingLeft(w: World, a: Action)
    requires AttemptOf(a) == Some(w.link.epoch) && !a.StartDone? && !a.StartFails?
    requires (StageOf(w).None? || StageOf(w) == Some(Open)) && w.link.sockets == {} && NoTimers(w.link) && !w.link.phase.Connected?
    ensures Step(w, a) == w
  {
  }

  lemma OneStartLess(starts: multiset<Start>, s: Start)
    ensures starts - multiset{s} <= starts
  {
  }

  lemma StartIsOver(w: World, s: Start)
    ensures var after := Step(w, StartDone(s));
      && after.reg == w.reg && after.sync.(synced := {}) == w.sync.(synced := {}) && after.work.tasks == w.work.tasks
      && StaysPut(w, after)
  {
    OneStartLess(w.work.starts, s);
  }

  lemma StartHasFailed(w: World, s: Start, cause: Cause)
    requires s.attempt == w.link.epoch && (StageOf(w).None? || StageOf(w) == Some(Open))
    ensures var after := Step(w, StartFails(s, cause));
      after.reg == w.reg && after.sync == w.sync && after.work.tasks == w.work.tasks && StaysPut(w, after)
  {
    OneStartLess(w.work.starts, s);
  }

  lemma LiveStaysPut(w: World, a: Action)
    requires Stranded(w) && AttemptOf(a).Some? && w.link.Live(AttemptOf(a).value)
    ensures Stranded(Step(w, a)) && StaysPut(w, Step(w, a))
  {
    StepKeepsProgress(w, a);
    match a
    case StartDone(s) => StartIsOver(w, s);
    case StartFails(s, cause) => StartHasFailed(w, s, cause);
    case _ => NothingLeft(w, a);
  }

  lemma StaleStaysPut(w: World, a: Action)
    requires Stranded(w) && AttemptOf(a).Some? && !w.link.Live(AttemptOf(a).value)
    ensures Stranded(Step(w, a)) && StaysPut(w, Step(w, a))
  {
    StepKeepsProgress(w, a);
    StaleKeepsStage(w, a);
    StaleAttemptChangesNothing(w, a);
  }

  /** A stranded attempt stays so over every run without a forced reconciliation, a change of the
      environment or a stop: it never asks for a socket, starts no domain, and whatever is
      registered meanwhile is neither active nor synced, unless it was active before. */
  lemma {:induction false} StrandedForGood(w: World, actions: seq<Action>)
    requires Stranded(w) && forall a :: a in actions ==> Calm(a)
    ensures Stranded(Run(w, actions)) && StaysPut(w, Run(w, actions))
    decreases |actions|
  {
    if actions != [] {
      var a := actions[0];
      if AttemptOf(a).None? {
        CallStaysPut(w, a);
      } else if w.link.Live(AttemptOf(a).value) {
        LiveStaysPut(w, a);
      } else {
        StaleStaysPut(w, a);
      }
      StrandedForGood(Step(w, a), actions[1..]);
    }
  }

  /** Over every run: once an attempt has ended idle, every domain registered later stays
      unconnected and unsynced until something of that kind happens. */
  lemma IdleAttemptStrandsDomains(before: seq<Action>, after: seq<Action>)
    requires forall a :: a in after ==> Calm(a)
    ensures var w := Run(START, before); var later := Run(w, after);
      LiveNow(w.link) && w.link.phase.Idle? && (w.sync.queue.Some? ==> w.sync.queue.value == Queued(false, false)) ==>
        && later.link == w.link && later.link.sockets == {} && later.sync.active == {} && later.sync.synced == {}
        && later.work.starts <= w.work.starts
  {
    RunKeepsProgress(START, before);
    var w := Run(START, before);
    if LiveNow(w.link) && w.link.phase.Idle? && (w.sync.queue.Some? ==> w.sync.queue.value == Queued(false, false)) {
      StrandedForGood(w, after);
    }
  }

  // ------------------------------------------------------ how it comes to that

  /** A registry whose one domain is eligible. */
  lemma OneDomain(reg: Registry, d: Domain)
    requires reg.domains == map[d.key := d] && reg.connected && reg.foreground
    ensures reg.Desired() == {d} && KeysOf({d}) == {d.key}
  {
    assert d.key in reg.domains && reg.domains[d.key] == d;
    assert d in reg.domains.Values;
  }

  /** The world when the attempt for the one domain has been authenticated. */
  function Attempting(d: Domain): World {
    World(Registry(map[d.key := d], true, true, false, false), Sync({d}, {}, false, {d.key}, None),
          START.link.(epoch := 1, controller := Some(1), phase := Verifying), Work(map[1 := Identifying], multiset{}, {}))
  }

  lemma AttemptBegins(d: Domain)
    ensures Run(START, [Register(d), SetEnvironment(Some(true), None, None, false), RunQueued, Authenticated(1, true)]) == Attempting(d)
  {
    var environment := SetEnvironment(Some(true), None, None, false);
    var w := Step(Step(START, Register(d)), environment);
    OneDomain(w.reg, d);
    var w' := Step(Step(w, RunQueued), Authenticated(1, true));
    assert w'.work.tasks == map[1 := Identifying];
    RunFour(START, Register(d), environment, RunQueued, Authenticated(1, true));
  }

  /** The world after that attempt ended idle because its domain went away meanwhile. */
  const ENDED_IDLE := World(Registry(map[], true, true, false, false), Sync({}, {}, false, {}, None),
                            START.link.(epoch := 1, controller := Some(1), phase := Idle), Work(map[], multiset{}, {}))

  /** A run into the state that strands later domains. */
  lemma AttemptEndsIdle(d: Domain)
    ensures Run(Attempting(d), [Unregister(d), RunQueued, Identified(1), RoundDone(1)]) == ENDED_IDLE
    ensures LiveNow(ENDED_IDLE.link) && ENDED_IDLE.link.phase.Idle? && ENDED_IDLE.sync.queue.None?
  {
    var w1 := Step(Attempting(d), Unregister(d));
    assert w1.reg.domains == map[];
    assert w1.reg.Desired() == {} && KeysOf({}) == {};
    var w2 := Step(w1, RunQueued);
    var w3 := Step(w2, Identified(1));
    assert w3.work.starts == multiset{} && w3.sync.active == {} && w3.sync.synced == {};
    var w4 := Step(w3, RoundDone(1));
    assert w4.work.tasks == map[];
    RunFour(Attempting(d), Unregister(d), RunQueued, Identified(1), RoundDone(1));
  }
}
