/** Refresh coalescing of `MobileDirectoryController` (apps/mobile/src/directories/controller.ts):
    one refresh runs, one set of domains waits for it, and events are gathered by a timer. */
module DirectoryRefresh {
  import opened OrderedMap

  datatype Domain = Nodes | Instances

  /** A refresh under way, started in `epoch`. */
  datatype Flight = Flight(epoch: nat, domains: set<Domain>)

  /** `outstanding` are the domains asked for since their last refresh began: what a caller still
      waits for. A stop gives these requests up. */
  datatype World = World(epoch: nat, inFlight: Option<Flight>, queued: set<Domain>, scheduled: set<Domain>, timer: bool,
                         outstanding: set<Domain>)

  const START := World(0, None, {}, {}, false, {})

  datatype Action =
    | Request(domains: set<Domain>)
    | Schedule(domains: set<Domain>)
    | TimerFires
    | Settles
    | Begin
    | Stop

  /** `requestRefresh`. */
  function Requested(w: World, domains: set<Domain>): World {
    if domains == {} then w
    else if w.inFlight.Some? then w.(queued := w.queued + domains, outstanding := w.outstanding + domains)
    else w.(inFlight := Some(Flight(w.epoch, domains)), outstanding := w.outstanding - domains)
  }

  function Step(w: World, a: Action): World {
    match a
    case Request(domains) => Requested(w, domains)
    case Schedule(domains) =>
      w.(scheduled := w.scheduled + domains, timer := true, outstanding := w.outstanding + domains)
    case TimerFires => if w.timer then Requested(w.(timer := false, scheduled := {}), w.scheduled) else w
    case Settles =>
      if w.inFlight.None? then w
      else
        var idle := w.(inFlight := None);
        if w.queued == {} || w.inFlight.value.epoch != w.epoch then idle
        else Requested(idle.(queued := {}), w.queued)
    case Begin => w.(epoch := w.epoch + 1)
    case Stop => w.(epoch := w.epoch + 1, queued := {}, scheduled := {}, timer := false, outstanding := {})
  }

  function Run(w: World, actions: seq<Action>): World
    decreases |actions|
  {
    if actions == [] then w else Run(Step(w, actions[0]), actions[1..])
  }

  class MobileDirectoryController {
    var epoch: nat
    var refreshInFlight: Option<Flight>
    var refreshQueued: set<Domain>
    var scheduledRefresh: set<Domain>
    var refreshTimer: bool
    ghost var outstanding: set<Domain>

    ghost function State(): World
      reads this
    {
      World(epoch, refreshInFlight, refreshQueued, scheduledRefresh, refreshTimer, outstanding)
    }

    constructor ()
      ensures State() == START
    {
      epoch, refreshInFlight, refreshQueued, scheduledRefresh, refreshTimer := 0, None, {}, {}, false;
      outstanding := {};
    }

    method RequestRefresh(domains: set<Domain>)
      modifies this
      ensures State() == Requested(old(State()), domains)
    {
      if domains == {} {
        return;
      }
      if refreshInFlight.Some? {
        refreshQueued := refreshQueued + domains;
        outstanding := outstanding + domains;
        return;
      }
      refreshInFlight := Some(Flight(epoch, domains));
      outstanding := outstanding - domains;
    }

    method ScheduleRefresh(domains: set<Domain>)
      modifies this
      ensures State() == Step(old(State()), Schedule(domains))
    {
      scheduledRefresh := scheduledRefresh + domains;
      outstanding := outstanding + domains;
      if !refreshTimer {
        refreshTimer := true;
      }
    }

    method RefreshTimerFires()
      modifies this
      ensures State() == Step(old(State()), TimerFires)
    {
      if refreshTimer {
        refreshTimer := false;
        var scheduled := scheduledRefresh;
        scheduledRefresh := {};
        RequestRefresh(scheduled);
      }
    }

    /** The `finally` of the refresh under way. */
    method RefreshSettles()
      modifies this
      ensures State() == Step(old(State()), Settles)
    {
      if refreshInFlight.None? {
        return;
      }
      var started := refreshInFlight.value.epoch;
      refreshInFlight := None;
      if refreshQueued == {} || started != epoch {
        return;
      }
      var queued := refreshQueued;
      refreshQueued := {};
      RequestRefresh(queued);
    }

    method StopController()
      modifies this
      ensures State() == Step(old(State()), Stop)
    {
      epoch := epoch + 1;
      refreshTimer := false;
      refreshQueued := {};
      scheduledRefresh := {};
      outstanding := {};
    }
  }

  // ------------------------------------------------------------- guarantees

  /** Whatever is outstanding is queued or scheduled, and what is scheduled has its timer. */
  ghost predicate Inv(w: World) {
    && w.outstanding <= w.queued + w.scheduled
    && (w.scheduled != {} ==> w.timer)
  }

  lemma StepKeepsInv(w: World, a: Action)
    requires Inv(w)
    ensures Inv(Step(w, a))
  {
  }

  lemma {:induction false} RunKeepsInv(w: World, actions: seq<Action>)
    requires Inv(w)
    ensures Inv(Run(w, actions))
    decreases |actions|
  {
    if actions != [] {
      StepKeepsInv(w, actions[0]);
      RunKeepsInv(Step(w, actions[0]), actions[1..]);
    }
  }

  /** A refresh of an earlier epoch settles while a request of this epoch waits for it. */
  predicate Strands(w: World, a: Action) {
    a.Settles? && w.inFlight.Some? && w.inFlight.value.epoch != w.epoch && w.queued != {}
  }

  /** That step, and no other, leaves a queue that nothing will start. */
  lemma StrandsIff(w: World, a: Action)
    requires w.inFlight.None? ==> w.queued == {}
    ensures Step(w, a).inFlight.None? && Step(w, a).queued != {} <==> Strands(w, a)
  {
  }

  predicate NeverStrands(w: World, actions: seq<Action>)
    decreases |actions|
  {
    actions == [] || (!Strands(w, actions[0]) && NeverStrands(Step(w, actions[0]), actions[1..]))
  }

  predicate Quiescent(w: World) {
    w.inFlight.None? && !w.timer
  }

  /** Trailing refresh: in every run at most one refresh is under way, and when nothing is under
      way or scheduled any more, the last refresh of every domain began after the last request for
      it - provided that no refresh outlived its epoch while a request waited for it. */
  lemma {:induction false} TrailingRefresh(w: World, actions: seq<Action>)
    requires Inv(w) && (w.inFlight.None? ==> w.queued == {}) && NeverStrands(w, actions)
    ensures Quiescent(Run(w, actions)) ==> Run(w, actions).outstanding == {}
    decreases |actions|
  {
    if actions != [] {
      StepKeepsInv(w, actions[0]);
      StrandsIff(w, actions[0]);
      TrailingRefresh(Step(w, actions[0]), actions[1..]);
    }
  }

  /** A refresh of the domain begins. */
  predicate Begins(w: World, a: Action, domain: Domain) {
    var after := Step(w, a);
    && after.inFlight.Some? && domain in after.inFlight.value.domains
    && match a
       case Request(domains) => w.inFlight.None? && domains != {}
       case TimerFires => w.timer && w.inFlight.None? && w.scheduled != {}
       case Settles => w.inFlight.Some?
       case _ => false
  }

  /** A request for the domain has been stranded, and since then the controller was not stopped and
      no refresh of the domain has begun. */
  predicate Lost(w: World, lost: bool, a: Action, domain: Domain) {
    if Strands(w, a) then lost || domain in w.outstanding
    else lost && !a.Stop? && !Begins(w, a, domain)
  }

  predicate LostBy(w: World, lost: bool, actions: seq<Action>, domain: Domain)
    decreases |actions|
  {
    if actions == [] then lost else LostBy(Step(w, actions[0]), Lost(w, lost, actions[0], domain), actions[1..], domain)
  }

  /** A domain that is waited for and not lost is scheduled, or queued behind a refresh. */
  ghost predicate Accounted(w: World, lost: bool, domain: Domain) {
    && Inv(w) && (lost ==> domain in w.outstanding)
    && (domain in w.outstanding && !lost ==> domain in w.scheduled || (w.inFlight.Some? && domain in w.queued))
  }

  lemma StepAccounts(w: World, lost: bool, a: Action, domain: Domain)
    requires Accounted(w, lost, domain)
    ensures Accounted(Step(w, a), Lost(w, lost, a, domain), domain)
  {
  }

  lemma {:induction false} RunAccounts(w: World, lost: bool, actions: seq<Action>, domain: Domain)
    requires Accounted(w, lost, domain)
    ensures Accounted(Run(w, actions), LostBy(w, lost, actions, domain), domain)
    decreases |actions|
  {
    if actions != [] {
      StepAccounts(w, lost, actions[0], domain);
      RunAccounts(Step(w, actions[0]), Lost(w, lost, actions[0], domain), actions[1..], domain);
    }
  }

  /** Over every run, a domain is still waited for when nothing is under way any more if and only if
      a request for it was stranded, with neither a stop nor a refresh of it since; it is then still
      in the queue that nothing starts. */
  lemma OnlyStrandedIsOutstanding(actions: seq<Action>, domain: Domain)
    ensures var w := Run(START, actions);
      Quiescent(w) ==>
        && (domain in w.outstanding <==> LostBy(START, false, actions, domain))
        && (domain in w.outstanding ==> domain in w.queued)
  {
    RunAccounts(START, false, actions, domain);
  }

  /** Counterexample: stopped and started again while a refresh is under way, then asked for
      instances. */
  lemma RequestStranded()
    ensures var w := Run(START, [Request({Nodes}), Stop, Begin, Request({Instances}), Settles]);
      Quiescent(w) && w.outstanding == {Instances}
  {
    var actions := [Request({Nodes}), Stop, Begin, Request({Instances}), Settles];
    assert actions[1..] == [Stop, Begin, Request({Instances}), Settles];
    assert actions[1..][1..] == [Begin, Request({Instances}), Settles];
    assert actions[1..][1..][1..] == [Request({Instances}), Settles];
    assert actions[1..][1..][1..][1..] == [Settles];
    var w3 := Step(Step(Step(START, actions[0]), Stop), Begin);
    assert Run(START, actions) == Run(w3, [Request({Instances}), Settles]);
    assert Run(w3, [Request({Instances}), Settles]) == Run(Step(w3, Request({Instances})), [Settles]);
    assert Run(Step(w3, Request({Instances})), [Settles]) == Run(Step(Step(w3, Request({Instances})), Settles), []);
  }

  // ------------------------------------------------------------------ no excess

  /** The domains that an action asks for. */
  function AskedBy(a: Action): set<Domain> {
    match a
    case Request(domains) => domains
    case Schedule(domains) => domains
    case _ => {}
  }

  function AskedIn(actions: seq<Action>): set<Domain> {
    if actions == [] then {} else AskedBy(actions[0]) + AskedIn(actions[1..])
  }

  /** Nothing is loaded, queued or scheduled that nobody asked for. */
  ghost predicate WithinAsked(w: World, asked: set<Domain>) {
    w.queued <= asked && w.scheduled <= asked && (w.inFlight.Some? ==> w.inFlight.value.domains <= asked)
  }

  lemma {:induction false} NothingExtra(w: World, actions: seq<Action>, asked: set<Domain>)
    requires WithinAsked(w, asked)
    ensures WithinAsked(Run(w, actions), asked + AskedIn(actions))
    decreases |actions|
  {
    if actions != [] {
      NothingExtra(Step(w, actions[0]), actions[1..], asked + AskedBy(actions[0]));
      assert asked + AskedBy(actions[0]) + AskedIn(actions[1..]) == asked + AskedIn(actions);
    } else {
      assert asked + {} == asked;
    }
  }

  /** A refresh begins with exactly what was asked for: the request itself, all that the timer has
      gathered, or all that was queued. */
  lemma BeginsWithAll(w: World, a: Action)
    requires w.inFlight.None? ==> w.queued == {}
    ensures var after := Step(w, a);
      && (a.Request? && w.inFlight.None? && a.domains != {} ==>
            after.inFlight == Some(Flight(w.epoch, a.domains)) && after.scheduled == w.scheduled && after.queued == w.queued)
      && (a.TimerFires? && w.timer ==>
            && !after.timer && after.scheduled == {}
            && (w.inFlight.Some? ==> after.inFlight == w.inFlight && after.queued == w.queued + w.scheduled)
            && (w.inFlight.None? && w.scheduled != {} ==> after.inFlight == Some(Flight(w.epoch, w.scheduled))))
      && (a.Settles? && w.inFlight.Some? && w.inFlight.value.epoch == w.epoch ==>
            after.queued == {} && after.inFlight == if w.queued == {} then None else Some(Flight(w.epoch, w.queued)))
      && (a.Request? && w.inFlight.Some? ==> after.inFlight == w.inFlight && after.queued == w.queued + a.domains)
  {
    assert w.queued + {} == w.queued;
  }

  /** A start and a stop begin another epoch, nothing else does; a stop also gives up what is queued
      and scheduled. Neither touches the refresh under way. */
  lemma EpochsMean(w: World, a: Action)
    ensures var after := Step(w, a);
      && after.epoch == (if a.Begin? || a.Stop? then w.epoch + 1 else w.epoch)
      && (a.Begin? || a.Stop? ==> after.inFlight == w.inFlight)
      && (a.Begin? ==> after.queued == w.queued && after.scheduled == w.scheduled && after.timer == w.timer)
      && (a.Stop? ==> after.queued == {} && after.scheduled == {} && !after.timer)
      && (a.Schedule? ==> after.timer && after.scheduled == w.scheduled + a.domains
                          && after.inFlight == w.inFlight && after.queued == w.queued)
  {
  }

  /** The domain is asked for while a refresh is under way, or by an event. */
  predicate AskedLater(w: World, a: Action, domain: Domain) {
    match a
    case Request(domains) => w.inFlight.Some? && domain in domains
    case Schedule(domains) => domain in domains
    case TimerFires => w.timer && w.inFlight.Some? && domain in w.scheduled
    case _ => false
  }

  /** What a caller waits for, exactly. */
  lemma OutstandingIff(w: World, a: Action, domain: Domain)
    ensures domain in Step(w, a).outstanding <==>
      AskedLater(w, a, domain) || (domain in w.outstanding && !Begins(w, a, domain) && !a.Stop?)
  {
  }
}
