/** Whether the coordinator's active domains are the eligible registered ones once nothing is left to
    reconcile: reconciliation compares keys only, and a round of starts may read the registered
    domains before a queued reconciliation has seen them. */
module CoordinatorDomains {
  import opened OrderedMap
  import opened ConnectionCoordinator
  import opened CoordinatorGuarantees
  import opened CoordinatorProgress

  /** A live attempt with nothing left to reconcile. */
  predicate Settled(w: World) {
    LiveNow(w.link) && w.sync.queue.None? && !w.sync.pending
  }

  /** The keys of active domains that are not, or no longer, the registered object of their key. */
  function Stale(w: World): set<DomainKey> {
    set d | d in w.sync.active && !w.reg.Registered(d) :: d.key
  }

  predicate OnePerKey(domains: set<Domain>) {
    forall d, x :: d in domains && x in domains && d.key == x.key ==> d == x
  }

  predicate WellKeyed(reg: Registry) {
    forall k :: k in reg.domains ==> reg.domains[k].key == k
  }

  /** `reconcile` takes the domains over at once: it restarts, or applies a delta. */
  predicate ReconcileReads(w: World, force: bool, environment: bool) {
    || force
    || (KeysOf(w.reg.Desired()) != w.sync.signature
        && (environment || !w.reg.connected || w.link.controller.None? || w.link.aborted || w.link.phase.Connected?
            || w.link.phase.SessionExpired? || w.link.phase.Offline?))
  }

  /** The step replaces the active domains by the desired ones and reconciles their keys. */
  predicate Reconciles(w: World, a: Action) {
    match a
    case RunQueued => w.sync.queue.Some? && ReconcileReads(w, w.sync.queue.value.force, w.sync.queue.value.environment)
    case RetryTrust => w.link.terminal && !w.link.phase.TrustRequired?
    case RenewalDue => w.sync.signature != {}
    case ReconnectDue(e) => w.link.reconnectTimer == Some(e) && w.link.Live(e)
    case TrustDue(e, expired) => w.link.trustTimer == Some(e) && w.link.Live(e) && !expired
    case _ => false
  }

  /** The step replaces the active domains by the desired ones without a reconciliation: a round of
      starts, and a delta when the socket opens. */
  predicate ReadsOnly(w: World, a: Action) {
    match a
    case Identified(e) => w.link.Live(e) && StageOf(w) == Some(Identifying)
    case RoundDone(e) =>
      && w.link.Live(e) && StageOf(w).Some? && StageOf(w).value.Starting? && !RoundUnderWay(w, e)
      && w.sync.pending && !StageOf(w).value.second
    case Opened(e) => e in w.link.sockets && w.link.Live(e) && w.sync.pending
    case _ => false
  }

  /** What has happened since the domains were last read: whether they had other keys than the last
      reconciliation, and for which active keys another object, or none, was registered last. */
  datatype Trace = Trace(ahead: bool, replaced: set<DomainKey>)

  function Next(w: World, t: Trace, a: Action): Trace {
    if Reconciles(w, a) then Trace(false, {})
    else if ReadsOnly(w, a) then Trace(KeysOf(w.reg.Desired()) != w.sync.signature, {})
    else
      match a
      case Register(d) =>
        if d in w.sync.active then t.(replaced := t.replaced - {d.key})
        else if d.key in KeysOf(w.sync.active) then t.(replaced := t.replaced + {d.key})
        else t
      case Unregister(d) =>
        if w.reg.Registered(d) && d.key in KeysOf(w.sync.active) then t.(replaced := t.replaced + {d.key}) else t
      case _ => t
  }

  function TraceOf(w: World, t: Trace, actions: seq<Action>): Trace
    decreases |actions|
  {
    if actions == [] then t else TraceOf(Step(w, actions[0]), Next(w, t, actions[0]), actions[1..])
  }

  // ------------------------------------------------------------------ invariant

  ghost predicate SignatureInv(w: World) {
    && WellKeyed(w.reg)
    && (w.sync.queue.None? && w.link.controller.Some? ==> w.sync.signature == KeysOf(w.reg.Desired()))
  }

  ghost predicate Traced(w: World, t: Trace) {
    LiveNow(w.link) ==>
      && OnePerKey(w.sync.active) && t.replaced == Stale(w)
      && (!w.sync.pending ==> (t.ahead <==> KeysOf(w.sync.active) != w.sync.signature))
  }

  ghost predicate DomainsInv(w: World, t: Trace) {
    SignatureInv(w) && Traced(w, t)
  }

  lemma DesiredIsRegistered(reg: Registry)
    requires WellKeyed(reg)
    ensures OnePerKey(reg.Desired()) && forall d :: d in reg.Desired() ==> reg.Registered(d)
  {
  }

  /** Right after a read. */
  lemma ReadTraced(w: World, ahead: bool)
    requires WellKeyed(w.reg) && w.sync.active == w.reg.Desired() && (ahead <==> KeysOf(w.reg.Desired()) != w.sync.signature)
    ensures Traced(w, Trace(ahead, {}))
  {
    DesiredIsRegistered(w.reg);
    assert Stale(w) == {};
  }

  lemma ReconcileSigns(w: World, force: bool, environment: bool)
    requires WellKeyed(w.reg)
    ensures SignatureInv(Reconcile(w, force, environment))
    ensures Reconcile(w, force, environment).reg == w.reg
    ensures ReconcileReads(w, force, environment) ==>
      var after := Reconcile(w, force, environment);
      after.sync.active == w.reg.Desired() && after.sync.signature == KeysOf(w.reg.Desired())
    ensures !ReconcileReads(w, force, environment) ==>
      var after := Reconcile(w, force, environment);
      && after.sync.active == w.sync.active && after.link == w.link
      && (after.sync.pending || after.sync == w.sync)
  {
  }

  /** What the reading steps leave behind. */
  lemma ReconcilesReads(w: World, a: Action)
    requires WellKeyed(w.reg) && Reconciles(w, a)
    ensures var after := Step(w, a);
      after.reg == w.reg && after.sync.active == w.reg.Desired() && after.sync.signature == KeysOf(w.reg.Desired())
  {
    match a
    case RunQueued =>
      ReconcileSigns(w.(sync := w.sync.(queue := None)), w.sync.queue.value.force, w.sync.queue.value.environment);
    case RetryTrust => ReconcileSigns(w.(link := w.link.(trust := None, terminal := false, retries := 0)), true, true);
    case RenewalDue => ReconcileSigns(w, true, true);
    case ReconnectDue(_) => ReconcileSigns(w.(link := w.link.(reconnectTimer := None)), true, true);
    case TrustDue(_, _) => ReconcileSigns(w.(link := w.link.(trustTimer := None)), true, true);
  }

  lemma ReadsOnlyReads(w: World, a: Action)
    requires ReadsOnly(w, a)
    ensures var after := Step(w, a);
      && after.reg == w.reg && after.sync.active == w.reg.Desired() && after.sync.signature == w.sync.signature
      && after.sync.queue == w.sync.queue && after.link.controller == w.link.controller
  {
  }

  /** All other steps but registrations and queued reconciliations leave the domains alone, or end the
      attempt. */
  ghost predicate LeavesDomains(w: World, after: World) {
    && after.reg.domains == w.reg.domains && (LiveNow(after.link) ==> LiveNow(w.link))
    && (LiveNow(after.link) ==> after.sync.active == w.sync.active && after.sync.signature == w.sync.signature
                                && after.sync.pending == w.sync.pending)
  }

  lemma CallLeaves(w: World, a: Action)
    requires AttemptOf(a).None? && !Reconciles(w, a) && !a.Register? && !a.Unregister? && !a.RunQueued?
    ensures LeavesDomains(w, Step(w, a))
  {
  }

  lemma FailLeaves(w: World, e: nat, cause: Cause)
    ensures LeavesDomains(w, ScheduleReconnect(w, e, cause)) && LeavesDomains(w, FailAttempt(w, e, cause))
  {
  }

  lemma AttemptLeaves(w: World, a: Action)
    requires AttemptOf(a).Some? && !Reconciles(w, a) && !ReadsOnly(w, a) && Inv(w)
    ensures LeavesDomains(w, Step(w, a))
  {
    match a
    case AttemptFails(e, cause) => FailLeaves(Drop(w, e), e, cause);
    case StartFails(s, cause) =>
      FailLeaves(Drop(w.(work := w.work.(starts := w.work.starts - multiset{s})), s.attempt), s.attempt, cause);
    case SocketFails(e, cause, _) =>
      FailLeaves(w, e, cause);
      FailLeaves(w.(link := w.link.(sockets := w.link.sockets - {e})), e, cause);
    case ConnectTimesOut(e) => FailLeaves(w.(link := w.link.(sockets := w.link.sockets - {e})), e, Plain);
    case Identified(e) => IdentifiedLeaves(w, e);
    case RoundDone(e) => RoundLeaves(w, e);
    case StartDone(s) => StartDoneLeaves(w, s);
    case Opened(e) => OpenedLeaves(w, e);
    case _ =>
  }

  lemma StartDoneLeaves(w: World, s: Start)
    ensures LeavesDomains(w, Step(w, StartDone(s)))
  {
  }

  lemma OpenedLeaves(w: World, e: nat)
    requires !ReadsOnly(w, Opened(e))
    ensures LeavesDomains(w, Step(w, Opened(e)))
  {
  }

  lemma IdentifiedLeaves(w: World, e: nat)
    requires !ReadsOnly(w, Identified(e)) && Inv(w)
    ensures LeavesDomains(w, Step(w, Identified(e)))
  {
  }

  lemma RoundLeaves(w: World, e: nat)
    requires !ReadsOnly(w, RoundDone(e)) && Inv(w)
    ensures LeavesDomains(w, Step(w, RoundDone(e)))
  {
  }

  lemma LeftTraced(w: World, after: World, t: Trace)
    requires Traced(w, t) && LeavesDomains(w, after)
    ensures Traced(after, t)
  {
    if LiveNow(after.link) {
      assert forall d :: after.reg.Registered(d) == w.reg.Registered(d);
      assert Stale(after) == Stale(w);
    }
  }

  lemma RegisterTraced(w: World, t: Trace, d: Domain)
    requires Traced(w, t)
    ensures Traced(Step(w, Register(d)), Next(w, t, Register(d)))
  {
    var after := Step(w, Register(d));
    if LiveNow(w.link) {
      forall x | x in w.sync.active ensures after.reg.Registered(x) == if x.key == d.key then x == d else w.reg.Registered(x) {
      }
      StaleAfterRegister(w, after, d);
    }
  }

  lemma StaleAfterRegister(w: World, after: World, d: Domain)
    requires OnePerKey(w.sync.active) && after.sync.active == w.sync.active
    requires forall x :: x in w.sync.active ==> (after.reg.Registered(x) <==> if x.key == d.key then x == d else w.reg.Registered(x))
    ensures Stale(after) == if d in w.sync.active then Stale(w) - {d.key}
                            else if d.key in KeysOf(w.sync.active) then Stale(w) + {d.key} else Stale(w)
  {
  }

  lemma UnregisterTraced(w: World, t: Trace, d: Domain)
    requires Traced(w, t)
    ensures Traced(Step(w, Unregister(d)), Next(w, t, Unregister(d)))
  {
    var after := Step(w, Unregister(d));
    if LiveNow(w.link) && w.reg.Registered(d) {
      forall x | x in w.sync.active ensures after.reg.Registered(x) <==> x.key != d.key && w.reg.Registered(x) {
      }
      StaleAfterUnregister(w, after, d);
    }
  }

  lemma StaleAfterUnregister(w: World, after: World, d: Domain)
    requires after.sync.active == w.sync.active
    requires forall x :: x in w.sync.active ==> (after.reg.Registered(x) <==> x.key != d.key && w.reg.Registered(x))
    ensures Stale(after) == if d.key in KeysOf(w.sync.active) then Stale(w) + {d.key} else Stale(w)
  {
  }

  lemma RunQueuedTraced(w: World, t: Trace)
    requires Traced(w, t) && WellKeyed(w.reg) && !Reconciles(w, RunQueued)
    ensures Traced(Step(w, RunQueued), t)
  {
    if w.sync.queue.Some? {
      var after := Step(w, RunQueued);
      ReconcileSigns(w.(sync := w.sync.(queue := None)), w.sync.queue.value.force, w.sync.queue.value.environment);
      assert Stale(after) == Stale(w);
    }
  }

  lemma StepTraced(w: World, t: Trace, a: Action)
    requires Inv(w) && DomainsInv(w, t)
    ensures Traced(Step(w, a), Next(w, t, a))
  {
    if Reconciles(w, a) {
      ReconcilesReads(w, a);
      ReadTraced(Step(w, a), false);
    } else if ReadsOnly(w, a) {
      ReadsOnlyReads(w, a);
      ReadTraced(Step(w, a), KeysOf(w.reg.Desired()) != w.sync.signature);
    } else if a.Register? {
      RegisterTraced(w, t, a.d);
    } else if a.Unregister? {
      UnregisterTraced(w, t, a.d);
    } else if a.RunQueued? {
      RunQueuedTraced(w, t);
    } else {
      if AttemptOf(a).None? {
        CallLeaves(w, a);
      } else {
        AttemptLeaves(w, a);
      }
      LeftTraced(w, Step(w, a), t);
    }
  }

  // ---------------------------------------------------------------- the signature

  lemma CallSigns(w: World, a: Action)
    requires SignatureInv(w) && (a.Register? || a.Unregister? || a.SetEnvironment? || a.GraceExpires? || a.StopAll?)
    ensures SignatureInv(Step(w, a))
  {
  }

  ghost predicate LeavesSignature(w: World, after: World) {
    && after.reg == w.reg && after.sync.queue == w.sync.queue && after.sync.signature == w.sync.signature
    && after.link.controller == w.link.controller
  }

  lemma FailLeavesSignature(w: World, e: nat, cause: Cause)
    ensures LeavesSignature(w, ScheduleReconnect(w, e, cause)) && LeavesSignature(w, FailAttempt(w, e, cause))
  {
  }

  lemma AttemptLeavesSignature(w: World, a: Action)
    requires AttemptOf(a).Some? && !Reconciles(w, a)
    ensures LeavesSignature(w, Step(w, a))
  {
    match a
    case AttemptFails(e, cause) => FailLeavesSignature(Drop(w, e), e, cause);
    case StartFails(s, cause) =>
      FailLeavesSignature(Drop(w.(work := w.work.(starts := w.work.starts - multiset{s})), s.attempt), s.attempt, cause);
    case SocketFails(e, cause, _) =>
      FailLeavesSignature(w, e, cause);
      FailLeavesSignature(w.(link := w.link.(sockets := w.link.sockets - {e})), e, cause);
    case ConnectTimesOut(e) => FailLeavesSignature(w.(link := w.link.(sockets := w.link.sockets - {e})), e, Plain);
    case _ =>
  }

  lemma StepSigns(w: World, a: Action)
    requires SignatureInv(w)
    ensures SignatureInv(Step(w, a))
  {
    if Reconciles(w, a) {
      ReconcilesReads(w, a);
    } else if AttemptOf(a).Some? {
      AttemptLeavesSignature(w, a);
    } else if a.RunQueued? {
      if w.sync.queue.Some? {
        ReconcileSigns(w.(sync := w.sync.(queue := None)), w.sync.queue.value.force, w.sync.queue.value.environment);
      }
    } else if !a.RetryTrust? && !a.RenewalDue? {
      CallSigns(w, a);
    }
  }

  lemma {:induction false} RunTraced(w: World, t: Trace, actions: seq<Action>)
    requires Inv(w) && DomainsInv(w, t)
    ensures Inv(Run(w, actions)) && DomainsInv(Run(w, actions), TraceOf(w, t, actions))
    decreases |actions|
  {
    if actions != [] {
      StepKeepsInv(w, actions[0]);
      StepSigns(w, actions[0]);
      StepTraced(w, t, actions[0]);
      RunTraced(Step(w, actions[0]), Next(w, t, actions[0]), actions[1..]);
    }
  }

  // ------------------------------------------------------------- guarantees

  /** What the run has left behind unnoticed. */
  function Unnoticed(actions: seq<Action>): Trace {
    TraceOf(START, Trace(false, {}), actions)
  }

  const NOTHING := Trace(false, {})

  lemma SameDomains(w: World)
    requires WellKeyed(w.reg)
    ensures w.sync.active == w.reg.Desired() <==> KeysOf(w.sync.active) == KeysOf(w.reg.Desired()) && Stale(w) == {}
  {
    DesiredIsRegistered(w.reg);
    assert w.sync.active == w.reg.Desired() ==> Stale(w) == {};
    if KeysOf(w.sync.active) == KeysOf(w.reg.Desired()) && Stale(w) == {} {
      forall d ensures d in w.sync.active <==> d in w.reg.Desired() {
        if d in w.sync.active {
          assert d.key in KeysOf(w.reg.Desired());
          assert d.key !in Stale(w);
        }
        if d in w.reg.Desired() {
          assert d.key in KeysOf(w.sync.active);
          var x :| x in w.sync.active && x.key == d.key;
          assert x.key !in Stale(w);
        }
      }
    }
  }

  /** Over every run: with a live attempt and nothing left to reconcile, the active domains are
      exactly the eligible registered ones if and only if the last read was not ahead of its
      reconciliation and no active key was given another object after it. */
  lemma ActiveIsDesiredIff(actions: seq<Action>)
    ensures var w := Run(START, actions);
      Settled(w) ==> (w.sync.active == w.reg.Desired() <==> Unnoticed(actions) == NOTHING)
  {
    RunTraced(START, NOTHING, actions);
    SameDomains(Run(START, actions));
  }

  /** A read is ahead only if it runs between a change of the registered domains and its
      reconciliation. */
  lemma AheadOnlyWhileQueued(w: World, a: Action)
    requires Inv(w) && SignatureInv(w) && ReadsOnly(w, a) && Next(w, NOTHING, a).ahead
    ensures w.sync.queue.Some?
  {
  }

  predicate Eligible(reg: Registry, d: Domain) {
    reg.connected && (reg.foreground || (reg.carPlay && d.background))
  }

  /** The desired domains are the eligible registered ones. */
  lemma DesiredIff(reg: Registry, d: Domain)
    requires WellKeyed(reg)
    ensures d in reg.Desired() <==> reg.Registered(d) && Eligible(reg, d)
  {
    if reg.Registered(d) {
      assert reg.domains[d.key] == d;
    }
    if d in reg.domains.Values {
      var k :| k in reg.domains && reg.domains[k] == d;
    }
  }

  /** Connected and with nothing left to reconcile, the socket is subscribed to the topics of the
      active domains; these are the desired ones exactly if nothing went unnoticed, and a topic is
      then subscribed if and only if some eligible registered domain has it. */
  lemma QuietTopicsAreDesired(actions: seq<Action>)
    ensures var w := Run(START, actions);
      w.link.phase.Connected? && w.sync.queue.None? && !w.sync.pending ==>
        && w.link.connection.Some?
        && (forall t :: t in w.link.connection.value.topics <==> exists d :: d in w.sync.active && t in d.topics)
        && (w.sync.active == w.reg.Desired() <==> Unnoticed(actions) == NOTHING)
        && (Unnoticed(actions) == NOTHING ==>
              forall t :: t in w.link.connection.value.topics <==>
                exists d :: w.reg.Registered(d) && Eligible(w.reg, d) && t in d.topics)
  {
    RunKeepsInv(START, actions);
    OneConnectionExactTopics(actions);
    ActiveIsDesiredIff(actions);
    RunTraced(START, NOTHING, actions);
    var w := Run(START, actions);
    forall d ensures d in w.reg.Desired() <==> w.reg.Registered(d) && Eligible(w.reg, d) {
      DesiredIff(w.reg, d);
    }
  }

  /** Every eligible registered domain that is responsible for the topic's snapshot, of which there
      is one, has been started in the current attempt. */
  ghost predicate SnapshotStarted(w: World, topic: Topic) {
    && w.link.controller.Some? && (exists d :: d in w.reg.Desired() && topic in d.snapshotTopics)
    && forall d :: d in w.reg.Desired() && topic in d.snapshotTopics ==>
         d in w.sync.synced && (w.link.controller.value, d) in w.work.fulfilled
  }

  /** The same for readiness, in every syncing phase with nothing left to reconcile: under that
      condition, and exactly then for the domains as a whole, a topic is not syncing if and only if
      the eligible registered domains have been started. */
  lemma TopicSyncedForRegistered(actions: seq<Action>, topic: Topic)
    ensures var w := Run(START, actions);
      w.link.phase.Syncing() && w.sync.queue.None? && !w.sync.pending ==>
        && (w.sync.active == w.reg.Desired() <==> Unnoticed(actions) == NOTHING)
        && (Unnoticed(actions) == NOTHING ==> (!IsTopicSyncing(w, topic) <==> SnapshotStarted(w, topic)))
  {
    RunKeepsProgress(START, actions);
    ActiveIsDesiredIff(actions);
  }

  lemma DesiredAfterRegister(reg: Registry, d: Domain)
    requires WellKeyed(reg)
    ensures reg.(domains := reg.domains[d.key := d]).Desired()
         == (set x | x in reg.Desired() && x.key != d.key) + (if Eligible(reg, d) then {d} else {})
  {
    var after := reg.(domains := reg.domains[d.key := d]);
    forall x ensures x in after.Desired() <==> (x in reg.Desired() && x.key != d.key) || (x == d && Eligible(reg, d)) {
      if x in after.domains.Values {
        var k :| k in after.domains && after.domains[k] == x;
      }
      if x in reg.domains.Values {
        var k :| k in reg.domains && reg.domains[k] == x;
        assert k != d.key ==> after.domains[k] == x;
      }
      assert after.domains[d.key] == d;
    }
  }

  lemma KeysAfterRegister(desired: set<Domain>, d: Domain, eligible: bool)
    ensures KeysOf((set x | x in desired && x.key != d.key) + (if eligible then {d} else {}))
         == KeysOf(desired) - {d.key} + (if eligible then {d.key} else {})
  {
    var after := (set x | x in desired && x.key != d.key) + (if eligible then {d} else {});
    forall k | k in KeysOf(desired) - {d.key} ensures k in KeysOf(after) {
      var x :| x in desired && x.key == k;
      assert x in after;
    }
    if eligible {
      assert d in after;
    }
  }

  /** One registration in a connected and settled state whose active domains are the desired ones:
      after its reconciliation they are so again, if and only if the domain was not put under the
      key of another active one. */
  lemma RegisterKeepsDesiredIff(w: World, d: Domain)
    requires Inv(w) && SignatureInv(w) && Settled(w) && w.link.phase.Connected? && w.sync.active == w.reg.Desired()
    ensures var after := Step(Step(w, Register(d)), RunQueued);
      && Settled(after) && after.link.phase.Connected?
      && (after.sync.active == after.reg.Desired() <==>
            !(Eligible(w.reg, d) && d.key in KeysOf(w.sync.active) && d !in w.sync.active))
  {
    var registered := Step(w, Register(d));
    DesiredAfterRegister(w.reg, d);
    KeysAfterRegister(w.reg.Desired(), d, Eligible(w.reg, d));
    DesiredIsRegistered(w.reg);
    var desired, before := registered.reg.Desired(), w.reg.Desired();
    assert !Eligible(w.reg, d) && d.key !in KeysOf(before) ==> desired == before;
    assert Eligible(w.reg, d) && d in before ==> desired == before;
    if KeysOf(desired) == w.sync.signature {
      assert Step(registered, RunQueued) == registered.(sync := w.sync);
      assert !Eligible(w.reg, d) ==> d.key !in KeysOf(before);
      assert Eligible(w.reg, d) ==> d in desired;
    }
  }

  // ----------------------------------------------------------- counterexamples

  /** Counterexample: registering another object under a key that is already active is not
      noticed, because reconciliation compares keys only. */
  lemma SameKeyNotNoticed(w: World, d: Domain)
    requires SignatureInv(w) && w.link.phase.Connected? && w.link.controller.Some? && w.sync.queue.None?
    requires d.key in KeysOf(w.reg.Desired()) && Eligible(w.reg, d) && d !in w.sync.active
    ensures var after := Step(Step(w, Register(d)), RunQueued);
      && after.sync.active == w.sync.active && after.link == w.link && after.sync.queue.None?
      && d in after.reg.Desired() && d !in after.sync.active
  {
    DesiredAfterRegister(w.reg, d);
    KeysAfterRegister(w.reg.Desired(), d, true);
    assert KeysOf(w.reg.Desired()) - {d.key} + {d.key} == KeysOf(w.reg.Desired());
  }

  /** Counterexample while a change is pending: a domain registered during an attempt does not make
      its topic syncing again, although its `start` has not even begun. */
  lemma PendingRegistrationNotSyncing(w: World, d: Domain, topic: Topic)
    requires w.link.phase.Loading? && w.link.controller.Some? && !w.link.aborted && w.sync.queue.None?
    requires !IsTopicSyncing(w, topic) && topic in d.snapshotTopics
    requires w.reg.connected && w.reg.foreground && d.key !in w.sync.signature
    ensures var after := Step(Step(w, Register(d)), RunQueued);
      && !IsTopicSyncing(after, topic)
      && d in after.reg.Desired() && after.sync.pending && after.work == w.work
  {
    var registered := Step(w, Register(d));
    assert registered.reg.domains[d.key] == d;
    assert d in registered.reg.Desired() && d.key in KeysOf(registered.reg.Desired());
  }

  /** Counterexample with a read that is ahead: a round of starts runs between a registration and its
      reconciliation, and the domain is unregistered before that as well. The domain stays active,
      with nothing left to reconcile. */
  lemma ReadAheadKeepsUnregistered(d: Domain, passing: Domain)
    requires d.key != passing.key
    ensures var read := Step(Step(Attempting(d), Register(passing)), Identified(1));
      var w := Step(Step(read, Unregister(passing)), RunQueued);
      && Settled(w) && passing in w.sync.active && !w.reg.Registered(passing)
      && KeysOf(w.reg.Desired()) != KeysOf(w.sync.active)
  {
    var registered := Step(Attempting(d), Register(passing));
    assert registered.reg.domains[passing.key] == passing;
    assert passing in registered.reg.domains.Values && passing in registered.reg.Desired();
    var read := Step(registered, Identified(1));
    assert passing in read.sync.active && passing.key in KeysOf(read.sync.active);
    var unregistered := Step(read, Unregister(passing));
    assert unregistered.reg.domains == map[d.key := d];
    OneDomain(unregistered.reg, d);
    var w := Step(unregistered, RunQueued);
    assert w.reg.Desired() == {d};
  }
}
