/** Ownership of the native browser contexts of `MobileBrowserController`
    (apps/mobile/src/browser/controller.ts): preparing, releasing, suspending, recovering and
    clearing overlap, and results and close callbacks arrive late. Every step is one call or
    the continuation of one await. */
module BrowserContexts {
  import opened OrderedMap

  type ProfileId(==, !new)
  type InstanceId(==, !new)
  datatype Key = Key(profile: ProfileId, instance: InstanceId)

  /** Context states, tabs, demands and continuations are numbered as they are made. */
  type Id = int

  /** A native context: `Ready` is prepared, `Releasing` has been handed to the native release, which
      then succeeds or fails. */
  datatype Native = Preparing | Ready | Failed | Releasing | Released | ReleaseFailed {
    /** Still to be prepared, or prepared and not yet handed to the native release. */
    predicate Held() {
      Preparing? || Ready?
    }
  }

  /** `ensureContext` at its first await: what it captured before. */
  datatype Waiter = Waiter(id: Id, key: Key, generation: nat, release: Option<Id>, demand: Option<Id>, tab: Option<Id>)

  /** `ensureContext` awaiting the promise of a state, its own (`creator`) or an existing one. */
  datatype Joiner = Joiner(id: Id, key: Key, state: Id, creator: bool, demand: Option<Id>, tab: Option<Id>)

  function Bumped(generations: map<Key, nat>, keys: set<Key>): map<Key, nat> {
    map k | k in generations.Keys + keys :: (if k in generations then generations[k] else 0) + (if k in keys then 1 else 0)
  }

  function Values(contexts: map<Key, Id>, keys: set<Key>): set<Id> {
    set k | k in keys && k in contexts :: contexts[k]
  }

  function Taken(releases: map<Key, Id>, contexts: map<Key, Id>, keys: set<Key>): map<Key, Id> {
    map k | k in releases.Keys + (keys * contexts.Keys) :: if k in keys && k in contexts then contexts[k] else releases[k]
  }

  /** Who owns which native context. `pending` are the states whose release is under way, and
      `calls` counts the calls of the native release. */
  datatype Ownership = Ownership(
    generations: map<Key, nat>,
    contexts: map<Key, Id>,
    releases: map<Key, Id>,
    pending: set<Id>,
    owner: map<Id, Key>,
    native: map<Id, Native>,
    calls: multiset<Id>)
  {
    function Generation(key: Key): nat {
      if key in generations then generations[key] else 0
    }

    function ReleaseOf(key: Key): Option<Id> {
      if key in releases then Some(releases[key]) else None
    }

    predicate Current(s: Id) {
      s in owner && owner[s] in contexts && contexts[owner[s]] == s
    }

    /** `releaseContext` for each key, up to its first await. */
    function Release(keys: set<Key>): Ownership {
      this.(generations := Bumped(generations, keys), contexts := contexts - keys,
            pending := pending + Values(contexts, keys), releases := Taken(releases, contexts, keys))
    }

    /** A new context state for `key`, whose preparation begins. */
    function Create(key: Key, s: Id): Ownership {
      this.(contexts := contexts[key := s], owner := owner[s := key], native := native[s := Preparing])
    }

    function Prepare(s: Id): Ownership {
      if s in native && native[s].Preparing? then this.(native := native[s := Ready]) else this
    }

    function FailToPrepare(s: Id): Ownership {
      if s in native && native[s].Preparing? then
        this.(native := native[s := Failed], contexts := if Current(s) then contexts - {owner[s]} else contexts)
      else this
    }

    function CallNativeRelease(s: Id): Ownership {
      if s in pending && s in native && native[s].Ready? then
        this.(native := native[s := Releasing], calls := calls + multiset{s})
      else this
    }

    /** The promise of this release has been rejected. */
    predicate Broken(release: Option<Id>) {
      release.Some? && release.value in native && native[release.value].ReleaseFailed?
    }

    /** The promise of a release settles; what was never prepared is not released natively. */
    function FinishRelease(s: Id, failed: bool): Ownership {
      if s in pending && s in native && s in owner && (native[s].Failed? || native[s].Releasing?) then
        this.(native := if native[s].Releasing? then native[s := if failed then ReleaseFailed else Released] else native,
              pending := pending - {s},
              releases := if ReleaseOf(owner[s]) == Some(s) then releases - {owner[s]} else releases)
      else this
    }
  }

  datatype World = World(next: Id, tabs: map<Id, Key>, active: map<Key, Id>, timers: set<Key>, own: Ownership,
                         waiters: set<Waiter>, joiners: set<Joiner>)
  {
    predicate HasTab(key: Key) {
      exists t :: t in tabs && tabs[t] == key
    }

    predicate Demanded(key: Key, demand: Option<Id>) {
      demand.None? || (key in active && active[key] == demand.value)
    }
  }

  const EMPTY := World(0, map[], map[], {}, Ownership(map[], map[], map[], {}, map[], map[], multiset{}), {}, {})

  datatype Action =
    | CreateTab(key: Key)
    | Activate(key: Key, sameClient: bool)
    | Suspend(key: Key)
    | SuspendFires(key: Key)
    | CloseTab(tab: Id)
    | ClearProfile(profile: ProfileId)
    | SuspendAll
    | Resume(waiter: Waiter)
    | Rejoin(joiner: Joiner, activated: bool)
    | Prepared(state: Id)
    | PrepareFailed(state: Id)
    | ReleaseNative(state: Id)
    | ReleaseDone(state: Id, failed: bool)
    | TransportClosed(state: Id)
    | Recover(key: Key)

  // ------------------------------------------------------------- specification

  function ReleaseKeys(w: World, keys: set<Key>): World {
    w.(timers := w.timers - keys, own := w.own.Release(keys))
  }

  /** `ensureContext` up to its first await. */
  function Ensure(w: World, key: Key, demand: Option<Id>, tab: Option<Id>): World {
    w.(waiters := w.waiters + {Waiter(w.next, key, w.own.Generation(key), w.own.ReleaseOf(key), demand, tab)}, next := w.next + 1)
  }

  /** A failed `create` closes its own tab, without more. */
  function DropTab(w: World, tab: Option<Id>): World {
    if tab.Some? then w.(tabs := w.tabs - {tab.value}) else w
  }

  function TabbedKeys(w: World, profile: ProfileId): set<Key> {
    set t | t in w.tabs && w.tabs[t].profile == profile :: w.tabs[t]
  }

  /** `activate` before it asks for the context: the demand of the same client stays. */
  function Demand(w: World, key: Key, sameClient: bool): (r: World)
    ensures key in r.active
  {
    (if sameClient && key in w.active then w else w.(active := w.active[key := w.next], next := w.next + 1))
      .(timers := w.timers - {key})
  }

  /** `clearProfile` before its releases. */
  function Cleared(w: World, profile: ProfileId): World {
    w.(active := (map k | k in w.active && k.profile != profile :: w.active[k]),
       timers := (set k | k in w.timers && k.profile != profile),
       tabs := map t | t in w.tabs && w.tabs[t].profile != profile :: w.tabs[t])
  }

  predicate Blocked(w: World, waiter: Waiter) {
    waiter.release.Some? && waiter.release.value in w.own.pending
  }

  function ResumeWaiter(w: World, waiter: Waiter): World {
    if waiter !in w.waiters || Blocked(w, waiter) then w
    else
      var rest := w.(waiters := w.waiters - {waiter});
      var key := waiter.key;
      if w.own.Broken(waiter.release) || !w.Demanded(key, waiter.demand) || w.own.Generation(key) != waiter.generation
      then DropTab(rest, waiter.tab)
      else if key in w.own.contexts then
        rest.(joiners := w.joiners + {Joiner(waiter.id, key, w.own.contexts[key], false, waiter.demand, waiter.tab)})
      else
        rest.(next := w.next + 1, own := w.own.Create(key, w.next),
              joiners := w.joiners + {Joiner(waiter.id, key, w.next, true, waiter.demand, waiter.tab)})
  }

  /** An existing context is also activated, which may fail. */
  function RejoinState(w: World, j: Joiner, activated: bool): World {
    if j !in w.joiners || j.state !in w.own.native || w.own.native[j.state].Preparing? then w
    else
      var rest := w.(joiners := w.joiners - {j});
      if !w.own.native[j.state].Failed? && (j.creator || (activated && w.Demanded(j.key, j.demand) && w.own.Current(j.state)))
      then rest
      else DropTab(rest, j.tab)
  }

  function Step(w: World, a: Action): World {
    match a
    case CreateTab(key) =>
      var tab := w.next;
      Ensure(w.(tabs := w.tabs[tab := key], next := w.next + 1), key, None, Some(tab))
    case Activate(key, sameClient) =>
      var demanded := Demand(w, key, sameClient);
      Ensure(demanded, key, Some(demanded.active[key]), None)
    case Suspend(key) =>
      var stopped := w.(active := w.active - {key});
      if key in w.own.contexts then stopped.(timers := w.timers + {key}) else stopped
    case SuspendFires(key) => if key in w.timers then ReleaseKeys(w, {key}) else w
    case CloseTab(tab) =>
      if tab !in w.tabs then w
      else
        var key := w.tabs[tab];
        var closed := w.(tabs := w.tabs - {tab});
        if closed.HasTab(key) then closed else ReleaseKeys(closed.(active := w.active - {key}), {key})
    case ClearProfile(profile) =>
      ReleaseKeys(Cleared(w, profile), TabbedKeys(w, profile))
    case SuspendAll => ReleaseKeys(w.(active := map[], timers := {}), w.own.contexts.Keys)
    case Resume(waiter) => ResumeWaiter(w, waiter)
    case Rejoin(j, activated) => RejoinState(w, j, activated)
    case Prepared(s) => w.(own := w.own.Prepare(s))
    case PrepareFailed(s) => w.(own := w.own.FailToPrepare(s))
    case ReleaseNative(s) => w.(own := w.own.CallNativeRelease(s))
    case ReleaseDone(s, failed) => w.(own := w.own.FinishRelease(s, failed))
    case TransportClosed(s) => if w.own.Current(s) then ReleaseKeys(w, {w.own.owner[s]}) else w
    case Recover(key) => if key in w.active then Ensure(w, key, Some(w.active[key]), None) else w
  }

  function Run(w: World, actions: seq<Action>): World
    decreases |actions|
  {
    if actions == [] then w else Run(Step(w, actions[0]), actions[1..])
  }

  // ------------------------------------------------------------ implementation

  lemma BumpedOneMore(generations: map<Key, nat>, done: set<Key>, key: Key)
    requires key !in done
    ensures Bumped(Bumped(generations, done), {key}) == Bumped(generations, done + {key})
  {
  }

  lemma TakenOneMore(releases: map<Key, Id>, contexts: map<Key, Id>, done: set<Key>, key: Key)
    requires key !in done
    ensures Taken(Taken(releases, contexts, done), contexts - done, {key}) == Taken(releases, contexts, done + {key})
  {
  }

  lemma ValuesOneMore(contexts: map<Key, Id>, done: set<Key>, key: Key)
    requires key !in done
    ensures Values(contexts, done) + Values(contexts - done, {key}) == Values(contexts, done + {key})
  {
  }

  lemma ReleaseOneMore(o: Ownership, done: set<Key>, key: Key)
    requires key !in done
    ensures o.Release(done).Release({key}) == o.Release(done + {key})
  {
    BumpedOneMore(o.generations, done, key);
    TakenOneMore(o.releases, o.contexts, done, key);
    ValuesOneMore(o.contexts, done, key);
    assert o.contexts - done - {key} == o.contexts - (done + {key});
    var v := Values(o.contexts, done);
    assert (o.pending + v) + Values(o.contexts - done, {key}) == o.pending + (v + Values(o.contexts - done, {key}));
  }

  /** What the assignments of `releaseContext` amount to. */
  lemma ReleasedOne(o: Ownership, key: Key)
    ensures var bumped := o.(generations := o.generations[key := o.Generation(key) + 1]);
      o.Release({key}) == if key !in o.contexts then bumped
                          else bumped.(contexts := o.contexts - {key}, pending := o.pending + {o.contexts[key]},
                                       releases := o.releases[key := o.contexts[key]])
  {
    assert Bumped(o.generations, {key}) == o.generations[key := o.Generation(key) + 1];
    if key in o.contexts {
      assert Values(o.contexts, {key}) == {o.contexts[key]};
      assert Taken(o.releases, o.contexts, {key}) == o.releases[key := o.contexts[key]];
    } else {
      assert Values(o.contexts, {key}) == {};
      assert o.pending + {} == o.pending;
      assert Taken(o.releases, o.contexts, {key}) == o.releases;
      assert o.contexts - {key} == o.contexts;
    }
  }

  lemma ReleaseNone(o: Ownership)
    ensures o.Release({}) == o
  {
    assert Bumped(o.generations, {}) == o.generations;
    assert Taken(o.releases, o.contexts, {}) == o.releases;
    assert o.contexts - {} == o.contexts;
    assert o.pending + Values(o.contexts, {}) == o.pending;
  }

  ghost predicate ReleasedSoFar(o: Ownership, timers: set<Key>, done: set<Key>, own: Ownership, left: set<Key>) {
    own == o.Release(done) && left == timers - done
  }

  lemma ReleasedNone(o: Ownership, timers: set<Key>)
    ensures ReleasedSoFar(o, timers, {}, o, timers)
  {
    ReleaseNone(o);
    assert timers - {} == timers;
  }

  /** The controller's maps, updated in place, with the promises it waits for. */
  class MobileBrowserController {
    var next: Id
    var tabs: map<Id, Key>
    var active: map<Key, Id>
    var suspendTimers: set<Key>
    var own: Ownership
    var waiters: set<Waiter>
    var joiners: set<Joiner>

    constructor ()
      ensures State() == EMPTY
    {
      next, tabs, active, suspendTimers := 0, map[], map[], {};
      own := Ownership(map[], map[], map[], {}, map[], map[], multiset{});
      waiters, joiners := {}, {};
    }

    function State(): World
      reads this
    {
      World(next, tabs, active, suspendTimers, own, waiters, joiners)
    }

    method ReleaseContext(key: Key)
      modifies this`suspendTimers, this`own
      ensures own == old(own).Release({key}) && suspendTimers == old(suspendTimers) - {key}
    {
      suspendTimers := suspendTimers - {key};
      ReleasedOne(own, key);
      own := own.(generations := own.generations[key := own.Generation(key) + 1]);
      if key in own.contexts {
        var state := own.contexts[key];
        own := own.(contexts := own.contexts - {key}, pending := own.pending + {state}, releases := own.releases[key := state]);
      }
    }

    method ReleaseContexts(keys: set<Key>)
      modifies this`suspendTimers, this`own
      ensures own == old(own).Release(keys) && suspendTimers == old(suspendTimers) - keys
    {
      var remaining := keys;
      ghost var done: set<Key> := {};
      ReleasedNone(own, suspendTimers);
      while remaining != {}
        invariant done <= keys && done !! remaining && forall k :: k in keys ==> k in done || k in remaining
        invariant remaining <= keys
        invariant ReleasedSoFar(old(own), old(suspendTimers), done, own, suspendTimers)
        decreases |remaining|
      {
        var key :| key in remaining;
        remaining := remaining - {key};
        ReleaseAnother(key, old(own), old(suspendTimers), done);
        done := done + {key};
      }
      assert done == keys;
    }

    method ReleaseAnother(key: Key, ghost o: Ownership, ghost timers: set<Key>, ghost done: set<Key>)
      requires key !in done && ReleasedSoFar(o, timers, done, own, suspendTimers)
      modifies this`suspendTimers, this`own
      ensures ReleasedSoFar(o, timers, done + {key}, own, suspendTimers)
    {
      ReleaseOneMore(o, done, key);
      ReleaseContext(key);
      assert timers - done - {key} == timers - (done + {key});
    }

    /** `ensureContext` up to its first await. */
    method EnsureContext(key: Key, demand: Option<Id>, tab: Option<Id>)
      modifies this`waiters, this`next
      ensures State() == Ensure(old(State()), key, demand, tab)
    {
      var generation := own.Generation(key);
      var release := own.ReleaseOf(key);
      waiters := waiters + {Waiter(next, key, generation, release, demand, tab)};
      next := next + 1;
    }

    method CreateTabFor(key: Key) returns (tab: Id)
      modifies this
      ensures State() == Step(old(State()), CreateTab(key)) && tab == old(next)
    {
      tab := next;
      tabs := tabs[tab := key];
      next := next + 1;
      EnsureContext(key, None, Some(tab));
    }

    method ActivateContext(key: Key, sameClient: bool)
      modifies this
      ensures State() == Step(old(State()), Activate(key, sameClient))
    {
      if !sameClient || key !in active {
        active := active[key := next];
        next := next + 1;
      }
      suspendTimers := suspendTimers - {key};
      EnsureContext(key, Some(active[key]), None);
    }

    method SuspendContext(key: Key)
      modifies this
      ensures State() == Step(old(State()), Suspend(key))
    {
      active := active - {key};
      if key !in own.contexts || key in suspendTimers {
        return;
      }
      suspendTimers := suspendTimers + {key};
    }

    method Close(tab: Id) returns (closed: bool)
      modifies this
      ensures State() == Step(old(State()), CloseTab(tab)) && closed == (tab in old(tabs))
    {
      if tab !in tabs {
        return false;
      }
      var key := tabs[tab];
      tabs := tabs - {tab};
      if !State().HasTab(key) {
        active := active - {key};
        ReleaseContext(key);
      }
      closed := true;
    }

    method SuspendAllContexts()
      modifies this
      ensures State() == Step(old(State()), SuspendAll)
    {
      active := map[];
      suspendTimers := {};
      ReleaseContexts(own.contexts.Keys);
    }

    method ClearProfileContexts(profile: ProfileId)
      modifies this
      ensures State() == Step(old(State()), ClearProfile(profile))
    {
      var keys := TabbedKeys(State(), profile);
      active := map k | k in active && k.profile != profile :: active[k];
      suspendTimers := set k | k in suspendTimers && k.profile != profile;
      tabs := map t | t in tabs && tabs[t].profile != profile :: tabs[t];
      ReleaseContexts(keys);
    }

    /** `ensureContext` after its first await. */
    method ResumeEnsure(waiter: Waiter)
      modifies this
      ensures State() == Step(old(State()), Resume(waiter))
    {
      if waiter !in waiters || Blocked(State(), waiter) {
        return;
      }
      waiters := waiters - {waiter};
      var key := waiter.key;
      if own.Broken(waiter.release) || !State().Demanded(key, waiter.demand) || own.Generation(key) != waiter.generation {
        CloseOwnTab(waiter.tab);
        return;
      }
      if key in own.contexts {
        joiners := joiners + {Joiner(waiter.id, key, own.contexts[key], false, waiter.demand, waiter.tab)};
        return;
      }
      var state := next;
      next := next + 1;
      own := own.Create(key, state);
      joiners := joiners + {Joiner(waiter.id, key, state, true, waiter.demand, waiter.tab)};
    }

    method CloseOwnTab(tab: Option<Id>)
      modifies this`tabs
      ensures State() == DropTab(old(State()), tab)
    {
      if tab.Some? {
        tabs := tabs - {tab.value};
      }
    }

    /** `onClose` of the native tunnel. */
    method TransportHasClosed(state: Id)
      modifies this
      ensures State() == Step(old(State()), TransportClosed(state))
    {
      if own.Current(state) {
        ReleaseContext(own.owner[state]);
      }
    }
  }

  // ------------------------------------------------------------------ invariant

  ghost predicate CurrentInv(o: Ownership) {
    forall k :: k in o.contexts ==>
      var s := o.contexts[k];
      s in o.owner && o.owner[s] == k && s in o.native && o.native[s].Held() && s !in o.pending
  }

  /** At most one release is under way for a key, and never beside a current context. */
  ghost predicate ReleaseInv(o: Ownership) {
    forall s :: s in o.pending ==>
      && s in o.owner && s in o.native && !o.native[s].Released? && !o.native[s].ReleaseFailed?
      && o.owner[s] !in o.contexts
      && o.ReleaseOf(o.owner[s]) == Some(s)
  }

  /** Every context still held is current or being released. */
  ghost predicate HeldInv(o: Ownership) {
    && o.owner.Keys == o.native.Keys
    && forall s :: s in o.native ==>
         && (o.native[s].Held() ==> o.Current(s) || s in o.pending)
         && (o.native[s].Releasing? ==> s in o.pending)
  }

  /** The native release has been called once for each context handed to it, and for no other. */
  ghost predicate CallsInv(o: Ownership) {
    forall s :: o.calls[s] ==
      if s in o.native && (o.native[s].Releasing? || o.native[s].Released? || o.native[s].ReleaseFailed?) then 1 else 0
  }

  ghost predicate OwnershipInv(o: Ownership) {
    CurrentInv(o) && ReleaseInv(o) && HeldInv(o) && CallsInv(o)
  }

  /** Whoever still has the current generation waits for whatever release is under way. */
  ghost predicate WaitsForRelease(o: Ownership, x: Waiter) {
    && x.generation <= o.Generation(x.key)
    && (x.generation == o.Generation(x.key) ==>
          forall s :: s in o.pending && s in o.owner && o.owner[s] == x.key ==> x.release == Some(s))
  }

  ghost predicate Inv(w: World) {
    && OwnershipInv(w.own)
    && (forall s :: s in w.own.native ==> s < w.next)
    && forall x :: x in w.waiters ==> WaitsForRelease(w.own, x)
  }

  lemma ReleaseKeepsOwnership(o: Ownership, keys: set<Key>)
    requires OwnershipInv(o)
    ensures OwnershipInv(o.Release(keys))
    ensures forall x :: WaitsForRelease(o, x) ==> WaitsForRelease(o.Release(keys), x)
  {
  }

  /** A new tunnel starts only when no release is under way for its key. */
  lemma CreateKeepsOwnership(o: Ownership, key: Key, n: Id)
    requires OwnershipInv(o) && key !in o.contexts && n !in o.native
    requires forall s :: s in o.pending ==> o.owner[s] != key
    ensures OwnershipInv(o.Create(key, n))
    ensures forall x :: WaitsForRelease(o, x) ==> WaitsForRelease(o.Create(key, n), x)
  {
    assert forall s :: s in o.pending ==> s != n;
    CreateKeepsHeld(o, key, n);
  }

  lemma CreateKeepsHeld(o: Ownership, key: Key, n: Id)
    requires HeldInv(o) && key !in o.contexts && n !in o.native
    ensures HeldInv(o.Create(key, n))
  {
    assert forall s :: s in o.native && o.Current(s) ==> o.Create(key, n).Current(s);
  }

  lemma PrepareKeepsOwnership(o: Ownership, s: Id)
    requires OwnershipInv(o)
    ensures OwnershipInv(o.Prepare(s)) && o.Prepare(s).native.Keys == o.native.Keys
    ensures forall x :: WaitsForRelease(o, x) ==> WaitsForRelease(o.Prepare(s), x)
  {
  }

  lemma FailKeepsOwnership(o: Ownership, s: Id)
    requires OwnershipInv(o)
    ensures OwnershipInv(o.FailToPrepare(s)) && o.FailToPrepare(s).native.Keys == o.native.Keys
    ensures forall x :: WaitsForRelease(o, x) ==> WaitsForRelease(o.FailToPrepare(s), x)
  {
  }

  lemma CallKeepsOwnership(o: Ownership, s: Id)
    requires OwnershipInv(o)
    ensures OwnershipInv(o.CallNativeRelease(s)) && o.CallNativeRelease(s).native.Keys == o.native.Keys
    ensures forall x :: WaitsForRelease(o, x) ==> WaitsForRelease(o.CallNativeRelease(s), x)
  {
  }

  lemma FinishKeepsOwnership(o: Ownership, s: Id, failed: bool)
    requires OwnershipInv(o)
    ensures OwnershipInv(o.FinishRelease(s, failed)) && o.FinishRelease(s, failed).native.Keys == o.native.Keys
    ensures forall x :: WaitsForRelease(o, x) ==> WaitsForRelease(o.FinishRelease(s, failed), x)
  {
  }

  lemma EnsureKeepsInv(w: World, key: Key, demand: Option<Id>, tab: Option<Id>)
    requires Inv(w)
    ensures Inv(Ensure(w, key, demand, tab))
  {
  }

  lemma ReleaseKeepsInv(w: World, keys: set<Key>)
    requires Inv(w)
    ensures Inv(ReleaseKeys(w, keys))
  {
    ReleaseKeepsOwnership(w.own, keys);
  }

  lemma ResumeKeepsInv(w: World, waiter: Waiter)
    requires Inv(w)
    ensures Inv(ResumeWaiter(w, waiter))
  {
    if waiter in w.waiters && !Blocked(w, waiter) && w.own.Generation(waiter.key) == waiter.generation
       && waiter.key !in w.own.contexts {
      assert WaitsForRelease(w.own, waiter);
      CreateKeepsOwnership(w.own, waiter.key, w.next);
    }
  }

  lemma CallKeepsInv(w: World, a: Action)
    requires Inv(w) && (a.CreateTab? || a.Activate? || a.Suspend? || a.SuspendFires? || a.CloseTab? || a.ClearProfile? || a.SuspendAll?)
    ensures Inv(Step(w, a))
  {
    match a
    case CreateTab(key) => EnsureKeepsInv(w.(tabs := w.tabs[w.next := key], next := w.next + 1), key, None, Some(w.next));
    case Activate(key, sameClient) =>
      var demanded := Demand(w, key, sameClient);
      EnsureKeepsInv(demanded, key, Some(demanded.active[key]), None);
    case Suspend(_) =>
    case SuspendFires(key) => ReleaseKeepsInv(w, {key});
    case CloseTab(tab) =>
      if tab in w.tabs {
        ReleaseKeepsInv(w.(tabs := w.tabs - {tab}, active := w.active - {w.tabs[tab]}), {w.tabs[tab]});
      }
    case ClearProfile(profile) => ReleaseKeepsInv(Cleared(w, profile), TabbedKeys(w, profile));
    case SuspendAll => ReleaseKeepsInv(w.(active := map[], timers := {}), w.own.contexts.Keys);
  }

  lemma NativeKeepsInv(w: World, a: Action)
    requires Inv(w) && (a.Prepared? || a.PrepareFailed? || a.ReleaseNative? || a.ReleaseDone?)
    ensures Inv(Step(w, a))
  {
    match a
    case Prepared(s) => PrepareKeepsOwnership(w.own, s);
    case PrepareFailed(s) => FailKeepsOwnership(w.own, s);
    case ReleaseNative(s) => CallKeepsOwnership(w.own, s);
    case ReleaseDone(s, failed) => FinishKeepsOwnership(w.own, s, failed);
  }

  lemma StepKeepsInv(w: World, a: Action)
    requires Inv(w)
    ensures Inv(Step(w, a))
  {
    match a
    case Resume(waiter) => ResumeKeepsInv(w, waiter);
    case Rejoin(_, _) =>
    case TransportClosed(s) => if w.own.Current(s) { ReleaseKeepsInv(w, {w.own.owner[s]}); }
    case Recover(key) => if key in w.active { EnsureKeepsInv(w, key, Some(w.active[key]), None); }
    case _ =>
      if a.Prepared? || a.PrepareFailed? || a.ReleaseNative? || a.ReleaseDone? {
        NativeKeepsInv(w, a);
      } else {
        CallKeepsInv(w, a);
      }
  }

  lemma {:induction false} RunKeepsInv(w: World, actions: seq<Action>)
    requires Inv(w)
    ensures Inv(Run(w, actions))
    decreases |actions|
  {
    if actions != [] {
      StepKeepsInv(w, actions[0]);
      RunKeepsInv(Step(w, actions[0]), actions[1..]);
    }
  }

  // ---------------------------------------------------------------- conservation

  /** A prepared context is the current one of its key, or awaits release, or has been handed to the
      native release once: exactly one of the three. */
  ghost predicate Conserved(o: Ownership, s: Id)
    requires s in o.native
  {
    match o.native[s]
    case Preparing => o.calls[s] == 0 && (o.Current(s) <==> s !in o.pending)
    case Ready => o.calls[s] == 0 && (o.Current(s) <==> s !in o.pending)
    case Failed => o.calls[s] == 0 && !o.Current(s)
    case Releasing => o.calls[s] == 1 && !o.Current(s) && s in o.pending
    case Released => o.calls[s] == 1 && !o.Current(s) && s !in o.pending
    case ReleaseFailed => o.calls[s] == 1 && !o.Current(s) && s !in o.pending
  }

  /** Context conservation in every reachable state, and no key has a current context while one
      of its old contexts is still being released. */
  lemma ContextsAreConserved(actions: seq<Action>)
    ensures var o := Run(EMPTY, actions).own;
      && (forall s :: s in o.native ==> Conserved(o, s))
      && (forall k, s :: k in o.contexts && s in o.pending && s in o.owner ==> o.owner[s] != k)
      && (forall s, t :: s in o.pending && t in o.pending && s in o.owner && t in o.owner && o.owner[s] == o.owner[t] ==> s == t)
  {
    RunKeepsInv(EMPTY, actions);
  }

  lemma ReleaseMakesNoneCurrent(o: Ownership, keys: set<Key>, s: Id)
    requires s in o.owner && !o.Current(s)
    ensures s in o.Release(keys).owner && !o.Release(keys).Current(s)
  {
  }

  lemma NativeMakesNoneCurrent(w: World, a: Action, s: Id)
    requires a.Prepared? || a.PrepareFailed? || a.ReleaseNative? || a.ReleaseDone?
    requires s in w.own.owner && !w.own.Current(s)
    ensures s in Step(w, a).own.owner && !Step(w, a).own.Current(s)
  {
  }

  lemma ResumeMakesNoneCurrent(w: World, x: Waiter, s: Id)
    requires Inv(w) && s in w.own.owner && !w.own.Current(s)
    ensures s in ResumeWaiter(w, x).own.owner && !ResumeWaiter(w, x).own.Current(s)
  {
  }

  /** A context that is no longer current never becomes current again ... */
  lemma NeverCurrentAgain(w: World, a: Action, s: Id)
    requires Inv(w) && s in w.own.owner && !w.own.Current(s)
    ensures s in Step(w, a).own.owner && !Step(w, a).own.Current(s)
  {
    match a
    case SuspendFires(key) => ReleaseMakesNoneCurrent(w.own, {key}, s);
    case CloseTab(tab) => if tab in w.tabs { ReleaseMakesNoneCurrent(w.own, {w.tabs[tab]}, s); }
    case ClearProfile(profile) => ReleaseMakesNoneCurrent(w.own, TabbedKeys(w, profile), s);
    case SuspendAll => ReleaseMakesNoneCurrent(w.own, w.own.contexts.Keys, s);
    case TransportClosed(t) => if w.own.Current(t) { ReleaseMakesNoneCurrent(w.own, {w.own.owner[t]}, s); }
    case Resume(x) => ResumeMakesNoneCurrent(w, x, s);
    case Prepared(_) => NativeMakesNoneCurrent(w, a, s);
    case PrepareFailed(_) => NativeMakesNoneCurrent(w, a, s);
    case ReleaseNative(_) => NativeMakesNoneCurrent(w, a, s);
    case ReleaseDone(_, _) => NativeMakesNoneCurrent(w, a, s);
    case _ =>
  }

  /** ... so a late close callback never displaces a replacement, however much happens between. */
  lemma {:induction false} StaleCloseIgnored(w: World, actions: seq<Action>, s: Id)
    requires Inv(w) && s in w.own.owner && !w.own.Current(s)
    ensures var later := Run(w, actions);
      !later.own.Current(s) && Step(later, TransportClosed(s)) == later
    decreases |actions|
  {
    if actions != [] {
      StepKeepsInv(w, actions[0]);
      NeverCurrentAgain(w, actions[0], s);
      StaleCloseIgnored(Step(w, actions[0]), actions[1..], s);
    }
  }

  // ---------------------------------------------------------- clearing a profile

  lemma TabbedIff(w: World, key: Key)
    ensures key in TabbedKeys(w, key.profile) <==> w.HasTab(key)
  {
    if w.HasTab(key) {
      var t :| t in w.tabs && w.tabs[t] == key;
    }
  }

  /** Clearing takes away exactly the contexts of the profile whose instance has a tab. */
  lemma ClearedIff(w: World, key: Key)
    ensures key in Step(w, ClearProfile(key.profile)).own.contexts <==> key in w.own.contexts && !w.HasTab(key)
  {
    TabbedIff(w, key);
  }

  predicate NewDemand(a: Action, key: Key) {
    (a.CreateTab? || a.Activate?) && a.key == key
  }

  /** A `create` that still waits and has not been overtaken: its generation is the current one, and
      the release that it waits for has not failed. */
  predicate LiveCreate(o: Ownership, x: Waiter) {
    x.demand.None? && x.generation == o.Generation(x.key) && !o.Broken(x.release)
  }

  /** Nothing can make a context of the key any more. */
  ghost predicate Quiet(w: World, key: Key) {
    && key !in w.active && key !in w.own.contexts
    && forall x :: x in w.waiters && x.key == key ==> QuietWaiter(w.own, x)
  }

  predicate QuietWaiter(o: Ownership, x: Waiter) {
    x.demand.Some? || x.generation < o.Generation(x.key) || o.Broken(x.release)
  }

  /** What keeps it so: generations do not fall, and a failed release stays failed. */
  ghost predicate Later(o: Ownership, p: Ownership) {
    && (forall k :: o.Generation(k) <= p.Generation(k))
    && (forall r :: o.Broken(r) ==> p.Broken(r))
  }

  lemma ReleaseMovesOn(o: Ownership, keys: set<Key>)
    ensures Later(o, o.Release(keys))
  {
  }

  lemma CreateMovesOn(o: Ownership, key: Key, n: Id)
    requires n !in o.native
    ensures Later(o, o.Create(key, n))
  {
  }

  lemma NativeMovesOn(w: World, a: Action)
    requires a.Prepared? || a.PrepareFailed? || a.ReleaseNative? || a.ReleaseDone?
    ensures Later(w.own, Step(w, a).own)
  {
  }

  lemma OwnershipMovesOn(w: World, a: Action)
    requires Inv(w)
    ensures Later(w.own, Step(w, a).own)
  {
    match a
    case SuspendFires(key) => ReleaseMovesOn(w.own, {key});
    case CloseTab(tab) => if tab in w.tabs { ReleaseMovesOn(w.own, {w.tabs[tab]}); }
    case ClearProfile(profile) => ReleaseMovesOn(w.own, TabbedKeys(w, profile));
    case SuspendAll => ReleaseMovesOn(w.own, w.own.contexts.Keys);
    case TransportClosed(s) => if w.own.Current(s) { ReleaseMovesOn(w.own, {w.own.owner[s]}); }
    case Resume(x) => CreateMovesOn(w.own, x.key, w.next);
    case Prepared(_) => NativeMovesOn(w, a);
    case PrepareFailed(_) => NativeMovesOn(w, a);
    case ReleaseNative(_) => NativeMovesOn(w, a);
    case ReleaseDone(_, _) => NativeMovesOn(w, a);
    case _ =>
  }

  lemma StaysQuiet(w: World, a: Action, key: Key)
    requires Inv(w) && Quiet(w, key) && !NewDemand(a, key)
    ensures Quiet(Step(w, a), key)
  {
    OwnershipMovesOn(w, a);
    QuietWaiters(w, a, key);
    if a.Resume? {
      ResumeStaysQuiet(w, a.waiter, key);
    }
  }

  lemma QuietWaiters(w: World, a: Action, key: Key)
    requires Quiet(w, key) && !NewDemand(a, key) && Later(w.own, Step(w, a).own)
    ensures forall x :: x in Step(w, a).waiters && x.key == key ==> QuietWaiter(Step(w, a).own, x)
  {
    forall x | x in Step(w, a).waiters && x.key == key ensures QuietWaiter(Step(w, a).own, x) {
      assert x in w.waiters;
      assert QuietWaiter(w.own, x);
    }
  }

  lemma ResumeStaysQuiet(w: World, x: Waiter, key: Key)
    requires Quiet(w, key)
    ensures key !in ResumeWaiter(w, x).active && key !in ResumeWaiter(w, x).own.contexts
  {
  }

  lemma {:induction false} RunStaysQuiet(w: World, actions: seq<Action>, key: Key)
    requires Inv(w) && Quiet(w, key) && forall a :: a in actions ==> !NewDemand(a, key)
    ensures Quiet(Run(w, actions), key)
    decreases |actions|
  {
    if actions != [] {
      StaysQuiet(w, actions[0], key);
      StepKeepsInv(w, actions[0]);
      RunStaysQuiet(Step(w, actions[0]), actions[1..], key);
    }
  }

  /** A run that nobody asks for leads to a context of the key. */
  ghost predicate CanReturn(w: World, key: Key) {
    exists actions :: key in Run(w, actions).own.contexts && forall a :: a in actions ==> !NewDemand(a, key)
  }

  /** Exactly when a cleared key can have a context again although nobody creates or activates: it
      has no tab, and it had a context, or a `create` that still waits. */
  lemma ClearSettles(w: World, key: Key)
    requires Inv(w)
    ensures CanReturn(Step(w, ClearProfile(key.profile)), key) <==>
      !w.HasTab(key) && (key in w.own.contexts || exists x :: x in w.waiters && x.key == key && LiveCreate(w.own, x))
  {
    var cleared := Step(w, ClearProfile(key.profile));
    TabbedIff(w, key);
    StepKeepsInv(w, ClearProfile(key.profile));
    if !w.HasTab(key) && key in w.own.contexts {
      assert Run(cleared, []) == cleared;
    } else if !w.HasTab(key) && exists x :: x in w.waiters && x.key == key && LiveCreate(w.own, x) {
      var x :| x in w.waiters && x.key == key && LiveCreate(w.own, x);
      WaitingCreateReturns(cleared, x);
    } else {
      ClearQuiets(w, key);
      forall actions | forall a :: a in actions ==> !NewDemand(a, key) ensures key !in Run(cleared, actions).own.contexts {
        RunStaysQuiet(cleared, actions, key);
      }
    }
  }

  lemma ClearQuiets(w: World, key: Key)
    requires Inv(w)
    requires w.HasTab(key) || (key !in w.own.contexts && forall x :: x in w.waiters && x.key == key ==> !LiveCreate(w.own, x))
    ensures Quiet(Step(w, ClearProfile(key.profile)), key)
  {
    var cleared := Step(w, ClearProfile(key.profile));
    TabbedIff(w, key);
    OwnershipMovesOn(w, ClearProfile(key.profile));
    forall x | x in cleared.waiters && x.key == key ensures QuietWaiter(cleared.own, x) {
      assert WaitsForRelease(w.own, x);
    }
  }

  /** Whatever its native context is doing, a release can be finished. */
  lemma ReleaseCanFinish(o: Ownership, s: Id)
    requires s in o.pending && s in o.owner && s in o.native && !o.native[s].Released? && !o.native[s].ReleaseFailed?
    ensures var p := o.Prepare(s).CallNativeRelease(s).FinishRelease(s, false);
      s !in p.pending && !p.Broken(Some(s)) && p.generations == o.generations && p.contexts == o.contexts
  {
    var a := o.Prepare(s);
    assert a.pending == o.pending && a.owner == o.owner && a.contexts == o.contexts && a.generations == o.generations;
    assert s in a.native && (a.native[s].Ready? || a.native[s].Failed? || a.native[s].Releasing?);
    var b := a.CallNativeRelease(s);
    assert b.pending == o.pending && b.owner == o.owner && b.contexts == o.contexts && b.generations == o.generations;
    assert s in b.native && (b.native[s].Failed? || b.native[s].Releasing?);
  }

  lemma FinishSteps(w: World, s: Id)
    ensures Step(Step(Step(w, Prepared(s)), ReleaseNative(s)), ReleaseDone(s, false))
         == w.(own := w.own.Prepare(s).CallNativeRelease(s).FinishRelease(s, false))
  {
  }

  /** The release that a live `create` waits for, if any, is finished, and then it resumes. */
  lemma WaitingCreateReturns(w: World, x: Waiter)
    requires Inv(w) && x in w.waiters && LiveCreate(w.own, x)
    ensures CanReturn(w, x.key)
  {
    if Blocked(w, x) {
      var s := x.release.value;
      ReleaseCanFinish(w.own, s);
      FinishSteps(w, s);
      ResumeMakes(w.(own := w.own.Prepare(s).CallNativeRelease(s).FinishRelease(s, false)), x);
      RunFour(w, Prepared(s), ReleaseNative(s), ReleaseDone(s, false), Resume(x));
      ReturnsBy(w, [Prepared(s), ReleaseNative(s), ReleaseDone(s, false), Resume(x)], x.key);
    } else {
      ResumeMakes(w, x);
      RunCons(w, Resume(x), []);
      ReturnsBy(w, [Resume(x)], x.key);
    }
  }

  lemma ReturnsBy(w: World, actions: seq<Action>, key: Key)
    requires key in Run(w, actions).own.contexts && forall a :: a in actions ==> !NewDemand(a, key)
    ensures CanReturn(w, key)
  {
  }

  lemma ResumeMakes(w: World, x: Waiter)
    requires x in w.waiters && LiveCreate(w.own, x) && !Blocked(w, x)
    ensures x.key in Step(w, Resume(x)).own.contexts
  {
  }

  lemma RunCons(w: World, a: Action, rest: seq<Action>)
    ensures Run(w, [a] + rest) == Run(Step(w, a), rest)
  {
    assert ([a] + rest)[1..] == rest;
  }

  lemma RunFour(w: World, a: Action, b: Action, c: Action, d: Action)
    ensures Run(w, [a, b, c, d]) == Step(Step(Step(Step(w, a), b), c), d)
  {
    assert [a, b, c, d] == [a] + [b, c, d];
    RunCons(w, a, [b, c, d]);
    assert [b, c, d] == [b] + [c, d];
    RunCons(Step(w, a), b, [c, d]);
    assert [c, d] == [c] + [d];
    RunCons(Step(Step(w, a), b), c, [d]);
    assert [d] == [d] + [];
    RunCons(Step(Step(Step(w, a), b), c), d, []);
  }

  /** Counterexample: a context that was activated without a tab survives the clearing. */
  lemma TablessContextSurvives(key: Key)
    ensures var waiting := Step(EMPTY, Activate(key, false));
      var x := Waiter(1, key, 0, None, Some(0), None);
      var cleared := Step(Step(Step(waiting, Resume(x)), Prepared(2)), ClearProfile(key.profile));
      cleared.own.Current(2) && cleared.own.native[2] == Ready
  {
    var waiting := Step(EMPTY, Activate(key, false));
    var x := Waiter(1, key, 0, None, Some(0), None);
    var made := Step(waiting, Resume(x));
    assert x in waiting.waiters;
    assert made.own == EMPTY.own.Create(key, 2);
    var ready := Step(made, Prepared(2));
    assert ready.tabs == map[];
    assert TabbedKeys(ready, key.profile) == {};
  }

  /** Two `create`s of one instance share context 2; their transport closes, and a third one waits
      for the release. The user closes the third tab, and the second `create`, cancelled, drops its
      own without a release. */
  function ThreeCreates(key: Key): seq<Action> {
    [CreateTab(key), Resume(Waiter(1, key, 0, None, None, Some(0))),
     CreateTab(key), Resume(Waiter(4, key, 0, None, None, Some(3)))]
    + [Prepared(2), CloseTab(0), TransportClosed(2), CreateTab(key)]
    + [CloseTab(5), Rejoin(Joiner(4, key, 2, false, None, Some(3)), true)]
  }

  /** How it goes on after the clearing. */
  function ThirdGoesOn(key: Key): seq<Action> {
    [ReleaseNative(2), ReleaseDone(2, false), Resume(Waiter(6, key, 1, Some(2), None, Some(5)))]
  }

  /** Counterexample: no tab and no context is left, the profile is cleared, and the third `create`
      then makes context 7. */
  lemma WaitingCreateSurvives(key: Key)
    ensures var before := Run(EMPTY, ThreeCreates(key));
      && before.tabs == map[] && before.own.contexts == map[] && before.active == map[]
      && Run(Step(before, ClearProfile(key.profile)), ThirdGoesOn(key)).own.contexts == map[key := 7]
  {
    TwoCreated(key);
    ThirdWaits(key);
    TabsGone(key);
    RunConcat(EMPTY, ThreeCreates(key)[..4], ThreeCreates(key)[4..8]);
    RunConcat(EMPTY, ThreeCreates(key)[..4] + ThreeCreates(key)[4..8], ThreeCreates(key)[8..]);
    assert ThreeCreates(key)[..4] + ThreeCreates(key)[4..8] + ThreeCreates(key)[8..] == ThreeCreates(key);
    ClearNothing(NothingLeft(key), key.profile);
    ThirdMakes(key);
  }

  lemma ClearNothing(w: World, profile: ProfileId)
    requires w.tabs == map[] && w.active == map[] && w.timers == {}
    ensures Step(w, ClearProfile(profile)) == w
  {
    assert TabbedKeys(w, profile) == {};
    ReleaseNone(w.own);
  }

  function TwoShare(key: Key): World {
    World(5, map[0 := key, 3 := key], map[], {},
          Ownership(map[], map[key := 2], map[], {}, map[2 := key], map[2 := Preparing], multiset{}), {},
          {Joiner(1, key, 2, true, None, Some(0)), Joiner(4, key, 2, false, None, Some(3))})
  }

  function ThirdWaiting(key: Key, tabs: map<Id, Key>): World {
    World(7, tabs, map[], {},
          Ownership(map[key := 1], map[], map[key := 2], {2}, map[2 := key], map[2 := Ready], multiset{}),
          {Waiter(6, key, 1, Some(2), None, Some(5))},
          {Joiner(1, key, 2, true, None, Some(0)), Joiner(4, key, 2, false, None, Some(3))})
  }

  function NothingLeft(key: Key): World {
    ThirdWaiting(key, map[]).(joiners := {Joiner(1, key, 2, true, None, Some(0))})
  }

  lemma TwoCreated(key: Key)
    ensures Run(EMPTY, ThreeCreates(key)[..4]) == TwoShare(key)
  {
    var x1, x4 := Waiter(1, key, 0, None, None, Some(0)), Waiter(4, key, 0, None, None, Some(3));
    var first := World(2, map[0 := key], map[], {}, EMPTY.own, {x1}, {});
    assert Step(EMPTY, CreateTab(key)) == first;
    var made := first.(next := 3, own := EMPTY.own.Create(key, 2), waiters := {}, joiners := {Joiner(1, key, 2, true, None, Some(0))});
    assert Step(first, Resume(x1)) == made;
    var second := made.(next := 5, tabs := map[0 := key, 3 := key], waiters := {x4});
    assert Step(made, CreateTab(key)) == second;
    SecondJoins(key, second);
    RunFour(EMPTY, CreateTab(key), Resume(x1), CreateTab(key), Resume(x4));
    assert ThreeCreates(key)[..4] == [CreateTab(key), Resume(x1), CreateTab(key), Resume(x4)];
  }

  lemma SecondJoins(key: Key, w: World)
    requires w == TwoShare(key).(waiters := {Waiter(4, key, 0, None, None, Some(3))}, joiners := {Joiner(1, key, 2, true, None, Some(0))})
    ensures Step(w, Resume(Waiter(4, key, 0, None, None, Some(3)))) == TwoShare(key)
  {
  }

  lemma ThirdWaits(key: Key)
    ensures Run(TwoShare(key), ThreeCreates(key)[4..8]) == ThirdWaiting(key, map[3 := key, 5 := key])
  {
    var w := TwoShare(key);
    var prepared := w.(own := w.own.(native := map[2 := Ready]));
    assert Step(w, Prepared(2)) == prepared;
    var closed := prepared.(tabs := map[3 := key]);
    FirstCloses(key, prepared, closed);
    var broken := closed.(own := ThirdWaiting(key, map[]).own);
    TransportBreaks(key, closed, broken);
    assert Step(broken, CreateTab(key)) == ThirdWaiting(key, map[3 := key, 5 := key]);
    RunFour(w, Prepared(2), CloseTab(0), TransportClosed(2), CreateTab(key));
    assert ThreeCreates(key)[4..8] == [Prepared(2), CloseTab(0), TransportClosed(2), CreateTab(key)];
  }

  lemma FirstCloses(key: Key, w: World, closed: World)
    requires w.tabs == map[0 := key, 3 := key] && closed == w.(tabs := map[3 := key])
    ensures Step(w, CloseTab(0)) == closed
  {
    assert w.tabs - {0} == closed.tabs;
    assert 3 in closed.tabs && closed.tabs[3] == key;
  }

  lemma TransportBreaks(key: Key, w: World, broken: World)
    requires w.own == Ownership(map[], map[key := 2], map[], {}, map[2 := key], map[2 := Ready], multiset{}) && w.timers == {}
    requires broken == w.(own := ThirdWaiting(key, map[]).own)
    ensures Step(w, TransportClosed(2)) == broken
  {
    ReleasedOne(w.own, key);
    assert w.own.contexts - {key} == map[];
  }

  lemma TabsGone(key: Key)
    ensures Run(ThirdWaiting(key, map[3 := key, 5 := key]), ThreeCreates(key)[8..]) == NothingLeft(key)
  {
    var w, j := ThirdWaiting(key, map[3 := key, 5 := key]), Joiner(4, key, 2, false, None, Some(3));
    var closed := ThirdWaiting(key, map[3 := key]);
    assert w.tabs - {5} == closed.tabs;
    assert 3 in closed.tabs && closed.tabs[3] == key;
    assert Step(w, CloseTab(5)) == closed;
    SecondDrops(key, closed);
    RunCons(w, CloseTab(5), [Rejoin(j, true)]);
    RunCons(closed, Rejoin(j, true), []);
    assert ThreeCreates(key)[8..] == [CloseTab(5)] + [Rejoin(j, true)] == [CloseTab(5)] + ([Rejoin(j, true)] + []);
  }

  lemma SecondDrops(key: Key, w: World)
    requires w == ThirdWaiting(key, map[3 := key])
    ensures Step(w, Rejoin(Joiner(4, key, 2, false, None, Some(3)), true)) == NothingLeft(key)
  {
    assert w.joiners - {Joiner(4, key, 2, false, None, Some(3))} == NothingLeft(key).joiners;
  }

  lemma ThirdMakes(key: Key)
    ensures Run(NothingLeft(key), ThirdGoesOn(key)).own.contexts == map[key := 7]
  {
    var w, x := NothingLeft(key), Waiter(6, key, 1, Some(2), None, Some(5));
    FinishSteps(w, 2);
    var released := Step(Step(w, ReleaseNative(2)), ReleaseDone(2, false));
    assert released.own.generations == map[key := 1] && released.own.contexts == map[] && released.own.pending == {};
    assert released.own.native == map[2 := Released] && released.waiters == {x} && released.next == 7;
    assert Step(released, Resume(x)).own.contexts == map[key := 7];
    RunCons(w, ReleaseNative(2), [ReleaseDone(2, false), Resume(x)]);
    RunCons(Step(w, ReleaseNative(2)), ReleaseDone(2, false), [Resume(x)]);
    RunCons(released, Resume(x), []);
    assert ThirdGoesOn(key) == [ReleaseNative(2)] + [ReleaseDone(2, false), Resume(x)];
    assert [ReleaseDone(2, false), Resume(x)] == [ReleaseDone(2, false)] + [Resume(x)];
    assert [Resume(x)] == [Resume(x)] + [];
  }

  lemma {:induction false} RunConcat(w: World, a: seq<Action>, b: seq<Action>)
    ensures Run(w, a + b) == Run(Run(w, a), b)
    decreases |a|
  {
    if a == [] {
      assert a + b == b;
    } else {
      assert (a + b)[1..] == a[1..] + b;
      RunConcat(Step(w, a[0]), a[1..], b);
    }
  }
}
