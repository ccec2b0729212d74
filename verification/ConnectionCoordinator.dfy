/** `MobileControlPlaneConnectionCoordinator`
    (apps/mobile/src/control-plane/use-mobile-control-plane-runtime.ts): one attempt at a time
    authenticates, starts the registered domains and opens the shared event socket. Every step is
    one call, one timer, one socket callback or the continuation of one await. */
module ConnectionCoordinator {
  import opened OrderedMap

  type Topic(==, !new)
  type DomainKey(==, !new)

  /** A domain object; two objects may share a key, and differ at least in their `id`. */
  datatype Domain = Domain(id: nat, key: DomainKey, topics: set<Topic>, snapshotTopics: set<Topic>, background: bool)

  /** `Rejected` stands for every end of the trust exchange, an expired request included, but the one
      that needs a new sign-in. */
  datatype Phase =
    | Idle | Verifying | Loading | Connected | Reconnecting | WaitingApproval | ApprovedConnecting
    | Rejected | TrustRequired | ControlPlaneClosed | Offline | SessionExpired
  {
    /** The phases in which a topic may be syncing. */
    predicate Syncing() {
      Verifying? || Loading? || Reconnecting? || ApprovedConnecting?
    }
  }

  /** What the trust exchange came to; a pending request may have lapsed when it is received. */
  datatype Outcome = Pending(lapsed: bool) | Decided(required: bool)

  /** Why an attempt ended. */
  datatype Cause = Plain | Closed | NotTrusted(outcome: Outcome)

  datatype Queued = Queued(environment: bool, force: bool)

  datatype Connection = Connection(attempt: nat, topics: set<Topic>)

  /** How far the asynchronous part of one `restart` has come. */
  datatype Stage =
    | Preparing                                     // revalidation, renewal and session check
    | Identifying                                   // authenticated, waiting for the identity
    | Starting(started: set<DomainKey>, second: bool) // waiting for the starts of a round
    | Open                                          // the socket has been asked for

  /** One `domain.start` under way: of a round, or of a later delta. */
  datatype Start = Start(attempt: nat, domain: Domain, delta: bool)

  datatype Registry = Registry(domains: map<DomainKey, Domain>, foreground: bool, connected: bool, carPlay: bool, grace: bool) {
    function Desired(): set<Domain> {
      if connected then set d | d in domains.Values && (foreground || (carPlay && d.background)) else {}
    }

    predicate Registered(d: Domain) {
      d.key in domains && domains[d.key] == d
    }
  }

  datatype Sync = Sync(active: set<Domain>, synced: set<Domain>, pending: bool, signature: set<DomainKey>, queue: Option<Queued>)

  datatype Link = Link(epoch: nat, controller: Option<nat>, aborted: bool, connection: Option<Connection>, sockets: set<nat>,
                       phase: Phase, trust: Option<Outcome>, terminal: bool, closed: bool, retries: nat, reconnectTimer: Option<nat>, trustTimer: Option<nat>,
                       connectTimer: Option<nat>)
  {
    predicate Live(e: nat) {
      e == epoch && controller == Some(e) && !aborted
    }
  }

  datatype Work = Work(tasks: map<nat, Stage>, starts: multiset<Start>, fulfilled: set<(nat, Domain)>)

  datatype World = World(reg: Registry, sync: Sync, link: Link, work: Work)

  const START := World(Registry(map[], false, true, false, false), Sync({}, {}, false, {}, None),
                       Link(0, None, false, None, {}, Idle, None, false, false, 0, None, None, None), Work(map[], multiset{}, {}))

  function KeysOf(domains: set<Domain>): set<DomainKey> {
    set d | d in domains :: d.key
  }

  function TopicsOf(domains: set<Domain>): set<Topic> {
    set d, t | d in domains && t in d.topics :: t
  }

  datatype Action =
    | Register(d: Domain)
    | Unregister(d: Domain)
    | SetEnvironment(foreground: Option<bool>, connected: Option<bool>, carPlay: Option<bool>, graceExpired: bool)
    | GraceExpires
    | RunQueued
    | RetryTrust
    | RenewalDue
    | StopAll
    | Authenticated(e: nat, valid: bool)
    | Identified(e: nat)
    | RoundDone(e: nat)
    | AttemptFails(e: nat, cause: Cause)
    | StartDone(s: Start)
    | StartFails(s: Start, cause: Cause)
    | Opened(e: nat)
    | SocketFails(e: nat, cause: Cause, closes: bool)
    | ConnectTimesOut(e: nat)
    | ReconnectDue(e: nat)
    | TrustDue(e: nat, expired: bool)
    | Stable(e: nat)

  // ------------------------------------------------------------- specification

  function Queue(sync: Sync, environment: bool, force: bool): Sync {
    match sync.queue
    case None => sync.(queue := Some(Queued(environment, force)))
    case Some(q) => sync.(queue := Some(Queued(q.environment || environment, q.force || force)))
  }

  predicate AwaitsTrust(link: Link) {
    link.trust.Some? && link.trust.value.Pending?
  }

  /** `publishTrustOutcome`. */
  function OutcomePhase(outcome: Outcome): Phase {
    match outcome
    case Pending(_) => WaitingApproval
    case Decided(required) => if required then TrustRequired else Rejected
  }

  function RestartPhase(link: Link): Phase {
    if AwaitsTrust(link) then WaitingApproval
    else if link.closed then ControlPlaneClosed
    else if link.retries > 0 then Reconnecting
    else Verifying
  }

  /** `restart` up to its first await. */
  function Restart(w: World, desired: set<Domain>): World {
    var closed := w.link.(epoch := w.link.epoch + 1, aborted := true, connection := None,
                          reconnectTimer := None, trustTimer := None, connectTimer := None,
                          sockets := if w.link.connection.Some? then w.link.sockets - {w.link.connection.value.attempt} else w.link.sockets);
    var sync := w.sync.(active := desired, synced := {}, pending := false);
    if !w.reg.connected then w.(sync := sync, link := closed.(phase := Offline))
    else if desired == {} then w.(sync := sync, link := closed.(phase := Idle))
    else if w.link.terminal && w.link.trust.Some? then
      w.(sync := sync, link := closed.(phase := OutcomePhase(w.link.trust.value)))
    else
      w.(sync := sync, link := closed.(controller := Some(closed.epoch), aborted := false, phase := RestartPhase(w.link)),
         work := w.work.(tasks := w.work.tasks[closed.epoch := Preparing]))
  }

  /** What stopping the active domains outside `desired` leaves synced. */
  function StillSynced(sync: Sync, desired: set<Domain>): set<Domain> {
    set d | d in sync.synced && !(d in sync.active && d.key !in KeysOf(desired))
  }

  /** `applyDomainDelta` up to its first await. */
  function ApplyDelta(w: World, desired: set<Domain>): World {
    var added := set d | d in desired && d.key !in KeysOf(w.sync.active);
    var sync := w.sync.(active := desired, synced := StillSynced(w.sync, desired), pending := false);
    if w.link.controller.None? || w.link.aborted then w.(sync := sync)
    else
      w.(sync := sync,
         link := if w.link.connection.Some? then w.link.(connection := Some(w.link.connection.value.(topics := TopicsOf(desired)))) else w.link,
         work := w.work.(starts := w.work.starts + multiset(set d | d in added :: Start(w.link.controller.value, d, true))))
  }

  function Reconcile(w: World, force: bool, environment: bool): World {
    var desired := w.reg.Desired();
    if !force && KeysOf(desired) == w.sync.signature then w
    else
      var signed := w.(sync := w.sync.(signature := KeysOf(desired)));
      if !force && !environment && w.reg.connected && w.link.controller.Some? && !w.link.aborted && w.link.phase.Connected? then
        ApplyDelta(signed, desired)
      else if !force && !environment && w.reg.connected && w.link.controller.Some? && !w.link.aborted
        && !w.link.phase.SessionExpired? && !w.link.phase.Offline? then
        signed.(sync := signed.sync.(pending := true))
      else Restart(signed, desired)
  }

  /** One round of `startDomains`. */
  function StartRound(w: World, e: nat, started: set<DomainKey>, second: bool): World {
    var desired := w.reg.Desired();
    w.(sync := w.sync.(active := desired, synced := StillSynced(w.sync, desired), pending := false),
       work := w.work.(tasks := w.work.tasks[e := Starting(started + KeysOf(desired), second)],
                       starts := w.work.starts + multiset(set d | d in desired && d.key !in started :: Start(e, d, false))))
  }

  /** `handleDeviceTrustOutcome`; a request that has lapsed already is terminal at once. */
  function HandleTrust(w: World, e: nat, outcome: Outcome): World {
    if !w.link.Live(e) then w
    else
      var handled := w.link.(reconnectTimer := None, trustTimer := None, connectTimer := None, retries := 0,
                                trust := Some(outcome));
      match outcome
      case Decided(_) => w.(link := handled.(terminal := true, phase := OutcomePhase(outcome)))
      case Pending(lapsed) =>
        if lapsed then w.(link := handled.(terminal := true, phase := Rejected))
        else w.(link := handled.(terminal := false, trustTimer := Some(e), phase := WaitingApproval))
  }

  function ScheduleReconnect(w: World, e: nat, cause: Cause): World {
    if !w.link.Live(e) || w.link.reconnectTimer.Some? then w
    else if cause.NotTrusted? then HandleTrust(w, e, cause.outcome)
    else
      var closed := w.link.closed || cause.Closed?;
      w.(sync := w.sync.(synced := {}),
         link := w.link.(closed := closed, retries := w.link.retries + 1, reconnectTimer := Some(e), connectTimer := None,
                         phase := if closed then ControlPlaneClosed else Reconnecting))
  }

  /** The `catch` of an attempt. */
  function FailAttempt(w: World, e: nat, cause: Cause): World {
    if !w.link.Live(e) then w
    else if cause.NotTrusted? then HandleTrust(w, e, cause.outcome)
    else ScheduleReconnect(w, e, cause)
  }

  function Drop(w: World, e: nat): World {
    w.(work := w.work.(tasks := w.work.tasks - {e}))
  }

  function LoadingPhase(link: Link): Phase {
    if AwaitsTrust(link) then ApprovedConnecting
    else if link.closed then ControlPlaneClosed
    else if link.retries > 0 then Reconnecting
    else Loading
  }

  /** Some start of the current round of the attempt is still under way. */
  predicate RoundUnderWay(w: World, e: nat) {
    exists s :: s in w.work.starts && s.attempt == e && !s.delta
  }

  function FinishRound(w: World, e: nat): World {
    if e !in w.work.tasks || !w.work.tasks[e].Starting? || RoundUnderWay(w, e) then w
    else if !w.link.Live(e) then Drop(w, e)
    else if w.sync.pending && !w.work.tasks[e].second then StartRound(w, e, w.work.tasks[e].started, true)
    else if w.sync.active == {} then Drop(w, e).(link := w.link.(phase := Idle))
    else
      w.(link := w.link.(connection := Some(Connection(e, TopicsOf(w.sync.active))), sockets := w.link.sockets + {e},
                         connectTimer := Some(e)),
         work := w.work.(tasks := w.work.tasks[e := Open]))
  }

  function FinishStart(w: World, s: Start): World {
    if s !in w.work.starts then w
    else
      var done := w.(work := w.work.(starts := w.work.starts - multiset{s}, fulfilled := w.work.fulfilled + {(s.attempt, s.domain)}));
      if w.link.controller != Some(s.attempt) || w.link.aborted || !w.reg.Registered(s.domain) || s.domain !in w.sync.active then done
      else done.(sync := w.sync.(synced := w.sync.synced + {s.domain}))
  }

  function FailStart(w: World, s: Start, cause: Cause): World {
    if s !in w.work.starts then w
    else
      var done := w.(work := w.work.(starts := w.work.starts - multiset{s}));
      if s.delta || s.attempt !in w.work.tasks || !w.work.tasks[s.attempt].Starting? then done
      else FailAttempt(Drop(done, s.attempt), s.attempt, cause)
  }

  function OpenSocket(w: World, e: nat): World {
    if e !in w.link.sockets || !w.link.Live(e) then w
    else
      var synced := if w.sync.pending then ApplyDelta(w, w.reg.Desired()) else w;
      synced.(link := synced.link.(connectTimer := None, closed := false, trust := None, terminal := false, phase := Connected))
  }

  function StopEverything(w: World): World {
    w.(reg := w.reg.(grace := false),
       sync := w.sync.(active := {}, synced := {}, pending := false, signature := {}),
       link := Link(w.link.epoch + 1, None, true, None,
                    if w.link.connection.Some? then w.link.sockets - {w.link.connection.value.attempt} else w.link.sockets,
                    Idle, None, false, false, w.link.retries, None, None, None))
  }

  /** `resumeForeground` and `beginBackgroundGrace`. */
  function Faced(reg: Registry, foreground: Option<bool>): Registry {
    if foreground == Some(true) then reg.(foreground := true, grace := false)
    else if foreground == Some(false) && reg.foreground && !reg.grace then
      if reg.carPlay then reg.(foreground := false) else reg.(grace := true)
    else reg
  }

  function ChangeEnvironment(reg: Registry, a: Action): Registry
    requires a.SetEnvironment?
  {
    var faced := Faced(reg, a.foreground);
    var changed := faced.(connected := a.connected.GetOr(faced.connected), carPlay := a.carPlay.GetOr(faced.carPlay));
    if changed.carPlay && changed.grace then changed.(foreground := false, grace := false) else changed
  }

  function Step(w: World, a: Action): World {
    match a
    case Register(d) => w.(reg := w.reg.(domains := w.reg.domains[d.key := d]), sync := Queue(w.sync, false, false))
    case Unregister(d) =>
      if !w.reg.Registered(d) then w
      else w.(reg := w.reg.(domains := w.reg.domains - {d.key}), sync := Queue(w.sync, false, false))
    case SetEnvironment(_, _, _, graceExpired) =>
      w.(reg := ChangeEnvironment(w.reg, a),
         sync := Queue(w.sync, true, graceExpired && a.foreground == Some(true) && w.reg.grace))
    case GraceExpires =>
      if !w.reg.grace then w
      else
        var expired := w.reg.(grace := false, foreground := false);
        w.(reg := expired, sync := if w.reg.foreground then Queue(w.sync, true, false) else w.sync)
    case RunQueued =>
      if w.sync.queue.None? then w
      else Reconcile(w.(sync := w.sync.(queue := None)), w.sync.queue.value.force, w.sync.queue.value.environment)
    case RetryTrust =>
      if !w.link.terminal || w.link.phase.TrustRequired? then w
      else Reconcile(w.(link := w.link.(trust := None, terminal := false, retries := 0)), true, true)
    case RenewalDue => if w.sync.signature == {} then w else Reconcile(w, true, true)
    case StopAll => StopEverything(w)
    case Authenticated(e, valid) =>
      if e !in w.work.tasks || !w.work.tasks[e].Preparing? then w
      else if !w.link.Live(e) then Drop(w, e)
      else if !valid then Drop(w, e).(link := w.link.(phase := SessionExpired))
      else w.(work := w.work.(tasks := w.work.tasks[e := Identifying]))
    case Identified(e) =>
      if e !in w.work.tasks || !w.work.tasks[e].Identifying? then w
      else if !w.link.Live(e) then Drop(w, e)
      else StartRound(w.(link := w.link.(phase := LoadingPhase(w.link))), e, {}, false)
    case RoundDone(e) => FinishRound(w, e)
    case AttemptFails(e, cause) =>
      if e !in w.work.tasks || !w.work.tasks[e].Preparing? then w else FailAttempt(Drop(w, e), e, cause)
    case StartDone(s) => FinishStart(w, s)
    case StartFails(s, cause) => FailStart(w, s, cause)
    case Opened(e) => OpenSocket(w, e)
    case SocketFails(e, cause, closes) =>
      if e !in w.link.sockets then w
      else ScheduleReconnect(if closes then w.(link := w.link.(sockets := w.link.sockets - {e})) else w, e, cause)
    case ConnectTimesOut(e) =>
      if w.link.connectTimer != Some(e) || !w.link.Live(e) || w.link.phase.Connected? then w
      else ScheduleReconnect(w.(link := w.link.(sockets := w.link.sockets - {e})), e, Plain)
    case ReconnectDue(e) =>
      if w.link.reconnectTimer != Some(e) then w
      else
        var fired := w.(link := w.link.(reconnectTimer := None));
        if w.link.Live(e) then Reconcile(fired, true, true) else fired
    case TrustDue(e, expired) =>
      if w.link.trustTimer != Some(e) then w
      else
        var fired := w.(link := w.link.(trustTimer := None));
        if !w.link.Live(e) then fired
        else if expired then fired.(link := fired.link.(terminal := true, phase := Rejected))
        else Reconcile(fired, true, true)
    case Stable(e) => if w.link.Live(e) && w.link.phase.Connected? then w.(link := w.link.(retries := 0)) else w
  }

  function Run(w: World, actions: seq<Action>): World
    decreases |actions|
  {
    if actions == [] then w else Run(Step(w, actions[0]), actions[1..])
  }

  /** `isTopicSyncing`. */
  predicate IsTopicSyncing(w: World, topic: Topic) {
    && w.link.phase.Syncing()
    && ((forall d :: d in w.sync.active ==> topic !in d.snapshotTopics)
        || (exists d :: d in w.sync.active && topic in d.snapshotTopics && d !in w.sync.synced))
  }

  // ------------------------------------------------------------ implementation

  /** The coordinator's fields, grouped as in `World`, updated in place by its calls and by the
      continuations and callbacks of its attempts. */
  class MobileControlPlaneConnectionCoordinator {
    var reg: Registry
    var sync: Sync
    var link: Link
    var work: Work

    function State(): World
      reads this
    {
      World(reg, sync, link, work)
    }

    constructor ()
      ensures State() == START
    {
      reg := Registry(map[], false, true, false, false);
      sync := Sync({}, {}, false, {}, None);
      link := Link(0, None, false, None, {}, Idle, None, false, false, 0, None, None, None);
      work := Work(map[], multiset{}, {});
    }

    method RegisterDomain(d: Domain)
      modifies this
      ensures State() == Step(old(State()), Register(d))
    {
      reg := reg.(domains := reg.domains[d.key := d]);
      QueueReconcile(false, false);
    }

    method UnregisterDomain(d: Domain)
      modifies this
      ensures State() == Step(old(State()), Unregister(d))
    {
      if d.key !in reg.domains || reg.domains[d.key] != d {
        return;
      }
      reg := reg.(domains := reg.domains - {d.key});
      QueueReconcile(false, false);
    }

    method QueueReconcile(environment: bool, force: bool)
      modifies this`sync
      ensures sync == Queue(old(sync), environment, force)
    {
      if sync.queue.Some? {
        var q := sync.queue.value;
        if environment {
          q := q.(environment := true);
        }
        if force {
          q := q.(force := true);
        }
        sync := sync.(queue := Some(q));
        return;
      }
      sync := sync.(queue := Some(Queued(environment, force)));
    }

    method RunQueuedReconcile()
      modifies this
      ensures State() == Step(old(State()), RunQueued)
    {
      if sync.queue.Some? {
        var q := sync.queue.value;
        sync := sync.(queue := None);
        ReconcileDomains(q.force, q.environment);
      }
    }

    method ReconcileDomains(force: bool, environment: bool)
      modifies this
      ensures State() == Reconcile(old(State()), force, environment)
    {
      var desired := reg.Desired();
      var signature := KeysOf(desired);
      if !force && signature == sync.signature {
        return;
      }
      sync := sync.(signature := signature);
      if !force && !environment && reg.connected && link.controller.Some? && !link.aborted {
        if link.phase.Connected? {
          ApplyDomainDelta(desired);
          return;
        }
        if !link.phase.SessionExpired? && !link.phase.Offline? {
          sync := sync.(pending := true);
          return;
        }
      }
      RestartAttempt(desired);
    }

    method ApplyDomainDelta(desired: set<Domain>)
      modifies this
      ensures State() == ApplyDelta(old(State()), desired)
    {
      sync := sync.(pending := false);
      var added := set d | d in desired && d.key !in KeysOf(sync.active);
      sync := sync.(synced := StillSynced(sync, desired));
      sync := sync.(active := desired);
      if link.controller.None? || link.aborted {
        return;
      }
      if link.connection.Some? {
        link := link.(connection := Some(link.connection.value.(topics := TopicsOf(desired))));
      }
      work := work.(starts := work.starts + multiset(set d | d in added :: Start(link.controller.value, d, true)));
    }

    method RestartAttempt(desired: set<Domain>)
      modifies this
      ensures State() == Restart(old(State()), desired)
    {
      var phase := RestartPhase(link);
      link := link.(epoch := link.epoch + 1, aborted := true, reconnectTimer := None, trustTimer := None, connectTimer := None);
      sync := sync.(synced := {});
      if link.connection.Some? {
        link := link.(sockets := link.sockets - {link.connection.value.attempt}, connection := None);
      }
      sync := sync.(active := desired, pending := false);
      if !reg.connected {
        link := link.(phase := Offline);
        return;
      }
      if desired == {} {
        link := link.(phase := Idle);
        return;
      }
      if link.terminal && link.trust.Some? {
        link := link.(phase := OutcomePhase(link.trust.value));
        return;
      }
      link := link.(controller := Some(link.epoch), aborted := false, phase := phase);
      work := work.(tasks := work.tasks[link.epoch := Preparing]);
    }

    method BeginRound(e: nat, started: set<DomainKey>, second: bool)
      modifies this`sync, this`work
      ensures State() == StartRound(old(State()), e, started, second)
    {
      var desired := reg.Desired();
      sync := sync.(synced := StillSynced(sync, desired));
      sync := sync.(active := desired, pending := false);
      work := work.(tasks := work.tasks[e := Starting(started + KeysOf(desired), second)],
                    starts := work.starts + multiset(set d | d in desired && d.key !in started :: Start(e, d, false)));
    }

    method RoundIsDone(e: nat)
      modifies this
      ensures State() == Step(old(State()), RoundDone(e))
    {
      if e !in work.tasks || !work.tasks[e].Starting? || RoundUnderWay(State(), e) {
        return;
      }
      if !link.Live(e) {
        work := work.(tasks := work.tasks - {e});
        return;
      }
      if sync.pending && !work.tasks[e].second {
        BeginRound(e, work.tasks[e].started, true);
        return;
      }
      if sync.active == {} {
        work := work.(tasks := work.tasks - {e});
        link := link.(phase := Idle);
        return;
      }
      link := link.(connection := Some(Connection(e, TopicsOf(sync.active))), sockets := link.sockets + {e}, connectTimer := Some(e));
      work := work.(tasks := work.tasks[e := Open]);
    }

    method StartIsDone(s: Start)
      modifies this
      ensures State() == Step(old(State()), StartDone(s))
    {
      if s !in work.starts {
        return;
      }
      work := work.(starts := work.starts - multiset{s}, fulfilled := work.fulfilled + {(s.attempt, s.domain)});
      if link.controller == Some(s.attempt) && !link.aborted && reg.Registered(s.domain) && s.domain in sync.active {
        sync := sync.(synced := sync.synced + {s.domain});
      }
    }

    method SocketOpened(e: nat)
      modifies this
      ensures State() == Step(old(State()), Opened(e))
    {
      if e !in link.sockets || !link.Live(e) {
        return;
      }
      if sync.pending {
        ApplyDomainDelta(reg.Desired());
      }
      link := link.(connectTimer := None, closed := false, trust := None, terminal := false, phase := Connected);
    }

    method ScheduleNextAttempt(e: nat, cause: Cause)
      modifies this
      ensures State() == ScheduleReconnect(old(State()), e, cause)
    {
      if !link.Live(e) || link.reconnectTimer.Some? {
        return;
      }
      if cause.NotTrusted? {
        HandleTrustOutcome(e, cause.outcome);
        return;
      }
      sync := sync.(synced := {});
      link := link.(connectTimer := None);
      if cause.Closed? {
        link := link.(closed := true);
      }
      link := link.(phase := if link.closed then ControlPlaneClosed else Reconnecting);
      link := link.(retries := link.retries + 1, reconnectTimer := Some(e));
    }

    method HandleTrustOutcome(e: nat, outcome: Outcome)
      modifies this`link
      ensures State() == HandleTrust(old(State()), e, outcome)
    {
      if !link.Live(e) {
        return;
      }
      link := link.(reconnectTimer := None, trustTimer := None, connectTimer := None, retries := 0, trust := Some(outcome));
      if outcome.Pending? {
        link := link.(terminal := false, phase := WaitingApproval);
        if outcome.lapsed {
          link := link.(terminal := true, phase := Rejected);
          return;
        }
        link := link.(trustTimer := Some(e));
        return;
      }
      link := link.(terminal := true, phase := OutcomePhase(outcome));
    }

    method ChangeEnvironmentTo(foreground: Option<bool>, connected: Option<bool>, carPlay: Option<bool>, graceExpired: bool)
      modifies this`reg, this`sync
      ensures State() == Step(old(State()), SetEnvironment(foreground, connected, carPlay, graceExpired))
    {
      if graceExpired && foreground == Some(true) && reg.grace {
        QueueReconcile(true, true);
      }
      ChangeFlags(foreground, connected, carPlay, graceExpired);
      QueueReconcile(true, false);
    }

    method ChangeFlags(foreground: Option<bool>, connected: Option<bool>, carPlay: Option<bool>, ghost graceExpired: bool)
      modifies this`reg
      ensures reg == ChangeEnvironment(old(reg), SetEnvironment(foreground, connected, carPlay, graceExpired))
    {
      ChangeForeground(foreground);
      if connected.Some? {
        reg := reg.(connected := connected.value);
      }
      if carPlay.Some? {
        reg := reg.(carPlay := carPlay.value);
      }
      if reg.carPlay && reg.grace {
        reg := reg.(grace := false, foreground := false);
      }
    }

    method ChangeForeground(foreground: Option<bool>)
      modifies this`reg
      ensures reg == Faced(old(reg), foreground)
    {
      if foreground == Some(true) {
        reg := reg.(grace := false, foreground := true);
      } else if foreground == Some(false) && reg.foreground && !reg.grace {
        if reg.carPlay {
          reg := reg.(foreground := false);
        } else {
          reg := reg.(grace := true);
        }
      }
    }

    method GraceHasExpired()
      modifies this`reg, this`sync
      ensures State() == Step(old(State()), GraceExpires)
    {
      if !reg.grace {
        return;
      }
      reg := reg.(grace := false);
      if !reg.foreground {
        return;
      }
      reg := reg.(foreground := false);
      QueueReconcile(true, false);
    }

    method RetryDeviceTrust() returns (retried: bool)
      modifies this
      ensures State() == Step(old(State()), RetryTrust)
      ensures retried == (old(link).terminal && !old(link).phase.TrustRequired?)
    {
      if !link.terminal || link.phase.TrustRequired? {
        return false;
      }
      link := link.(terminal := false, trust := None, retries := 0);
      ReconcileDomains(true, true);
      retried := true;
    }

    method RenewalIsDue()
      modifies this
      ensures State() == Step(old(State()), RenewalDue)
    {
      if sync.signature != {} {
        ReconcileDomains(true, true);
      }
    }

    /** After the session check. */
    method SessionChecked(e: nat, valid: bool)
      modifies this`link, this`work
      ensures State() == Step(old(State()), Authenticated(e, valid))
    {
      if e !in work.tasks || !work.tasks[e].Preparing? {
        return;
      }
      if !link.Live(e) {
        work := work.(tasks := work.tasks - {e});
        return;
      }
      if !valid {
        work := work.(tasks := work.tasks - {e});
        link := link.(phase := SessionExpired);
        return;
      }
      work := work.(tasks := work.tasks[e := Identifying]);
    }

    /** After the identity request, whatever became of it. */
    method IdentityChecked(e: nat)
      modifies this
      ensures State() == Step(old(State()), Identified(e))
    {
      if e !in work.tasks || !work.tasks[e].Identifying? {
        return;
      }
      if !link.Live(e) {
        work := work.(tasks := work.tasks - {e});
        return;
      }
      link := link.(phase := LoadingPhase(link));
      BeginRound(e, {}, false);
    }

    /** The `catch` of an attempt. */
    method AttemptCatches(e: nat, cause: Cause)
      modifies this
      ensures State() == FailAttempt(Drop(old(State()), e), e, cause)
    {
      work := work.(tasks := work.tasks - {e});
      if !link.Live(e) {
        return;
      }
      if cause.NotTrusted? {
        HandleTrustOutcome(e, cause.outcome);
        return;
      }
      ScheduleNextAttempt(e, cause);
    }

    method PreparationFailed(e: nat, cause: Cause)
      modifies this
      ensures State() == Step(old(State()), AttemptFails(e, cause))
    {
      if e in work.tasks && work.tasks[e].Preparing? {
        AttemptCatches(e, cause);
      }
    }

    /** A failed start of a delta is caught; one of a round fails the attempt that waits for it. */
    method StartHasFailed(s: Start, cause: Cause)
      modifies this
      ensures State() == Step(old(State()), StartFails(s, cause))
    {
      if s !in work.starts {
        return;
      }
      work := work.(starts := work.starts - multiset{s});
      if s.delta || s.attempt !in work.tasks || !work.tasks[s.attempt].Starting? {
        return;
      }
      AttemptCatches(s.attempt, cause);
    }

    /** `onError` and `onClose` of the socket. */
    method SocketFailed(e: nat, cause: Cause, closes: bool)
      modifies this
      ensures State() == Step(old(State()), SocketFails(e, cause, closes))
    {
      if e !in link.sockets {
        return;
      }
      if closes {
        link := link.(sockets := link.sockets - {e});
      }
      ScheduleNextAttempt(e, cause);
    }

    method ConnectTimedOut(e: nat)
      modifies this
      ensures State() == Step(old(State()), ConnectTimesOut(e))
    {
      if link.connectTimer != Some(e) || !link.Live(e) || link.phase.Connected? {
        return;
      }
      link := link.(sockets := link.sockets - {e});
      ScheduleNextAttempt(e, Plain);
    }

    method ReconnectIsDue(e: nat)
      modifies this
      ensures State() == Step(old(State()), ReconnectDue(e))
    {
      if link.reconnectTimer != Some(e) {
        return;
      }
      link := link.(reconnectTimer := None);
      if link.Live(e) {
        ReconcileDomains(true, true);
      }
    }

    method TrustRetryIsDue(e: nat, expired: bool)
      modifies this
      ensures State() == Step(old(State()), TrustDue(e, expired))
    {
      if link.trustTimer != Some(e) {
        return;
      }
      link := link.(trustTimer := None);
      if !link.Live(e) {
        return;
      }
      if expired {
        link := link.(terminal := true, phase := Rejected);
        return;
      }
      ReconcileDomains(true, true);
    }

    method ConnectionIsStable(e: nat)
      modifies this`link
      ensures State() == Step(old(State()), Stable(e))
    {
      if link.Live(e) && link.phase.Connected? {
        link := link.(retries := 0);
      }
    }

    method StopCoordinator()
      modifies this
      ensures State() == Step(old(State()), StopAll)
    {
      sync := sync.(signature := {}, synced := {}, pending := false, active := {});
      if link.connection.Some? {
        link := link.(sockets := link.sockets - {link.connection.value.attempt});
      }
      link := Link(link.epoch + 1, None, true, None, link.sockets, Idle, None, false, false, link.retries, None, None, None);
      reg := reg.(grace := false);
    }
  }
}
