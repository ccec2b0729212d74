/** What the calls of the browser controller do to one instance and to all others: which contexts
    they release, which they keep, and when an instance comes to a context. */
module BrowserCalls {
  import opened OrderedMap
  import opened BrowserContexts

  /** The key's context, if it had one, is being released, everything that waited for it is
      overtaken, and no suspension is due. */
  ghost predicate Released(w: World, after: World, k: Key) {
    && k !in after.own.contexts && k !in after.timers
    && after.own.Generation(k) == w.own.Generation(k) + 1
    && if k in w.own.contexts
       then w.own.contexts[k] in after.own.pending && after.own.ReleaseOf(k) == Some(w.own.contexts[k])
       else after.own.ReleaseOf(k) == w.own.ReleaseOf(k)
  }

  /** Context, releases and suspension of the key are as before. */
  ghost predicate KeptFor(w: World, after: World, k: Key) {
    && (k in after.own.contexts <==> k in w.own.contexts) && (k in w.own.contexts ==> after.own.contexts[k] == w.own.contexts[k])
    && after.own.Generation(k) == w.own.Generation(k) && after.own.ReleaseOf(k) == w.own.ReleaseOf(k)
    && (k in after.timers <==> k in w.timers)
  }

  ghost predicate SameDemand(w: World, after: World, k: Key) {
    (k in after.active <==> k in w.active) && (k in w.active ==> after.active[k] == w.active[k])
  }

  /** Nothing has been prepared, handed over or finished, and nobody was resumed. */
  ghost predicate NothingFinished(w: World, after: World) {
    && after.own.native == w.own.native && after.own.owner == w.own.owner && after.own.calls == w.own.calls
    && w.own.pending <= after.own.pending
    && after.waiters == w.waiters && after.joiners == w.joiners && after.next == w.next
  }

  /** Only former contexts of these keys are newly under release. */
  ghost predicate ReleasesOnly(w: World, after: World, keys: set<Key>) {
    forall s :: s in after.own.pending && s !in w.own.pending ==> exists k :: k in keys && k in w.own.contexts && w.own.contexts[k] == s
  }

  lemma ReleaseKeysMeans(w: World, keys: set<Key>)
    ensures var after := ReleaseKeys(w, keys);
      && NothingFinished(w, after) && ReleasesOnly(w, after, keys) && after.tabs == w.tabs && after.active == w.active
      && (forall k :: k in keys ==> Released(w, after, k)) && (forall k :: k !in keys ==> KeptFor(w, after, k))
  {
    forall k ensures if k in keys then Released(w, ReleaseKeys(w, keys), k) else KeptFor(w, ReleaseKeys(w, keys), k) {
      ReleaseOne(w, keys, k);
    }
  }

  lemma ReleaseOne(w: World, keys: set<Key>, k: Key)
    ensures if k in keys then Released(w, ReleaseKeys(w, keys), k) else KeptFor(w, ReleaseKeys(w, keys), k)
  {
  }

  /** Another tab of the same instance. */
  ghost predicate OtherTab(w: World, tab: Id) {
    tab in w.tabs && exists t :: t in w.tabs && t != tab && w.tabs[t] == w.tabs[tab]
  }

  lemma OtherTabIff(w: World, tab: Id)
    requires tab in w.tabs
    ensures w.(tabs := w.tabs - {tab}).HasTab(w.tabs[tab]) <==> OtherTab(w, tab)
  {
    var closed := w.(tabs := w.tabs - {tab});
    if closed.HasTab(w.tabs[tab]) {
      var t :| t in closed.tabs && closed.tabs[t] == w.tabs[tab];
      assert t in w.tabs && t != tab;
    }
    if OtherTab(w, tab) {
      var t :| t in w.tabs && t != tab && w.tabs[t] == w.tabs[tab];
      assert t in closed.tabs;
    }
  }

  /** Closing a tab takes away that tab. With another tab of the instance left that is all; the last
      one ends the instance's demand and releases its context. No other instance notices. */
  lemma CloseTabMeans(w: World, tab: Id)
    requires tab in w.tabs
    ensures var after := Step(w, CloseTab(tab)); var key := w.tabs[tab];
      && after.tabs == w.tabs - {tab} && NothingFinished(w, after) && ReleasesOnly(w, after, {key})
      && (if OtherTab(w, tab) then KeptFor(w, after, key) && SameDemand(w, after, key)
          else Released(w, after, key) && key !in after.active)
      && forall k :: k != key ==> KeptFor(w, after, k) && SameDemand(w, after, k)
  {
    var key := w.tabs[tab];
    OtherTabIff(w, tab);
    if !OtherTab(w, tab) {
      ReleaseKeysMeans(w.(tabs := w.tabs - {tab}, active := w.active - {key}), {key});
    }
  }

  /** So after closing, the instance has a context exactly if it had one and has another tab. */
  lemma ClosedIff(w: World, tab: Id)
    requires tab in w.tabs
    ensures w.tabs[tab] in Step(w, CloseTab(tab)).own.contexts <==> w.tabs[tab] in w.own.contexts && OtherTab(w, tab)
  {
    CloseTabMeans(w, tab);
  }

  lemma SuspendFiresMeans(w: World, key: Key)
    ensures var after := Step(w, SuspendFires(key));
      if key !in w.timers then after == w
      else
        && NothingFinished(w, after) && ReleasesOnly(w, after, {key}) && after.tabs == w.tabs && after.active == w.active
        && Released(w, after, key) && forall k :: k != key ==> KeptFor(w, after, k)
  {
    ReleaseKeysMeans(w, {key});
  }

  /** Suspending everything ends all demands and suspensions, and exactly the contexts. */
  lemma SuspendAllMeans(w: World)
    ensures var after := Step(w, SuspendAll);
      && NothingFinished(w, after) && ReleasesOnly(w, after, w.own.contexts.Keys) && after.tabs == w.tabs
      && after.active == map[] && after.timers == {} && after.own.contexts == map[]
      && (forall k :: k in w.own.contexts ==> Released(w, after, k))
      && forall k :: k !in w.own.contexts ==>
           after.own.Generation(k) == w.own.Generation(k) && after.own.ReleaseOf(k) == w.own.ReleaseOf(k)
  {
    var quiet := w.(active := map[], timers := {});
    ReleaseKeysMeans(quiet, w.own.contexts.Keys);
    var after := Step(w, SuspendAll);
    assert forall k :: k in after.own.contexts ==> k in w.own.contexts && false;
  }

  /** Clearing a profile ends its demands and suspensions, closes its tabs, and releases exactly its
      instances that had a tab. */
  lemma ClearProfileMeans(w: World, profile: ProfileId)
    ensures var after := Step(w, ClearProfile(profile));
      && NothingFinished(w, after)
      && (forall t :: t in after.tabs <==> t in w.tabs && w.tabs[t].profile != profile)
      && (forall k: Key :: k.profile == profile ==> k !in after.active && k !in after.timers)
      && (forall k :: w.HasTab(k) && k.profile == profile ==> Released(w, after, k))
      && (forall k :: !w.HasTab(k) && k.profile == profile ==> KeptFor(w.(timers := {}), after, k))
      && (forall k: Key :: k.profile != profile ==> KeptFor(w, after, k) && SameDemand(w, after, k))
  {
    var cleared, after := Cleared(w, profile), Step(w, ClearProfile(profile));
    ReleaseKeysMeans(cleared, TabbedKeys(w, profile));
    forall k: Key | k.profile == profile ensures if w.HasTab(k) then Released(w, after, k) else KeptFor(w.(timers := {}), after, k) {
      TabbedIff(w, k);
      assert k !in cleared.timers;
      assert if w.HasTab(k) then Released(cleared, after, k) else KeptFor(cleared, after, k);
    }
    forall k: Key | k.profile != profile ensures KeptFor(w, after, k) && SameDemand(w, after, k) {
      assert k !in TabbedKeys(w, profile) && KeptFor(cleared, after, k);
    }
  }

  lemma TransportClosedMeans(w: World, s: Id)
    requires w.own.Current(s)
    ensures var after := Step(w, TransportClosed(s)); var key := w.own.owner[s];
      && NothingFinished(w, after) && after.tabs == w.tabs && after.active == w.active
      && Released(w, after, key) && s in after.own.pending && forall k :: k != key ==> KeptFor(w, after, k)
  {
    ReleaseKeysMeans(w, {w.own.owner[s]});
  }

  // ------------------------------------------------------------- coming to a context

  /** No release of the key is under way, and it has no context. */
  ghost predicate Free(w: World, key: Key) {
    && Inv(w) && key !in w.own.contexts
    && (w.own.ReleaseOf(key).Some? ==> w.own.ReleaseOf(key).value !in w.own.pending)
  }

  /** The waiting part of a `create` that begins now, with the tab it opens. */
  function Creating(w: World, key: Key): Waiter {
    Waiter(w.next + 1, key, w.own.Generation(key), w.own.ReleaseOf(key), None, Some(w.next))
  }

  lemma CreateWaits(w: World, key: Key)
    ensures var after := Step(w, CreateTab(key));
      && Creating(w, key) in after.waiters && after.own == w.own && after.active == w.active && after.timers == w.timers
      && after.tabs == w.tabs[w.next := key] && after.next == w.next + 2
  {
  }

  /** A context that is asked for is made, prepared and then current: the `create` of an instance
      that is free. */
  lemma CreateMakesContext(w: World, key: Key)
    requires Free(w, key) && !w.own.Broken(w.own.ReleaseOf(key))
    ensures var made := Step(Step(w, CreateTab(key)), Resume(Creating(w, key)));
      var s := w.next + 2;
      && key in made.own.contexts && made.own.contexts[key] == s && made.own.native[s] == Preparing && made.HasTab(key)
      && Joiner(w.next + 1, key, s, true, None, Some(w.next)) in made.joiners
      && Step(made, Prepared(s)).own.native[s] == Ready && Step(made, Prepared(s)).own.Current(s)
  {
    CreateWaits(w, key);
    var asked := Step(w, CreateTab(key));
    var made := Step(asked, Resume(Creating(w, key)));
    assert made.tabs[w.next] == key;
  }

  /** A second `create` of an instance that has a context makes none of its own. */
  lemma CreateShares(w: World, key: Key)
    requires Inv(w) && key in w.own.contexts && !w.own.Broken(w.own.ReleaseOf(key))
    requires w.own.ReleaseOf(key).Some? ==> w.own.ReleaseOf(key).value !in w.own.pending
    ensures var shared := Step(Step(w, CreateTab(key)), Resume(Creating(w, key)));
      && shared.own == w.own && Joiner(w.next + 1, key, w.own.contexts[key], false, None, Some(w.next)) in shared.joiners
  {
    CreateWaits(w, key);
  }

  /** While the captured release is under way nothing happens to whoever waits for it. */
  lemma WaitsForItsRelease(w: World, x: Waiter)
    requires x.release.Some? && x.release.value in w.own.pending
    ensures Step(w, Resume(x)) == w
  {
  }

  /** A `create` whose only tab is closed while it waits makes no context. */
  lemma CancelledCreate(w: World, key: Key)
    requires Inv(w) && !w.HasTab(key)
    ensures var closed := Step(Step(w, CreateTab(key)), CloseTab(w.next));
      key !in Step(closed, Resume(Creating(w, key))).own.contexts
  {
    CreateWaits(w, key);
    var asked := Step(w, CreateTab(key));
    assert forall t :: t in asked.tabs && t != w.next ==> t in w.tabs && asked.tabs[t] == w.tabs[t];
    CloseTabMeans(asked, w.next);
  }

  /** A failed preparation takes the context away, and the `create` that made it drops its tab. */
  lemma FailedCreate(w: World, j: Joiner)
    requires Inv(w) && j in w.joiners && j.creator && j.state in w.own.native && w.own.native[j.state] == Preparing
    requires j.tab.Some? && w.own.Current(j.state) && w.own.owner[j.state] == j.key
    ensures var failed := Step(w, PrepareFailed(j.state));
      && j.key !in failed.own.contexts && failed.tabs == w.tabs
      && j.tab.value !in Step(failed, Rejoin(j, true)).tabs
  {
  }

  /** The `create` that made a context keeps its tab once it is prepared, and so does one that joined
      it, as long as the context is current and can be activated. */
  lemma PreparedCreate(w: World, j: Joiner)
    requires j in w.joiners && j.state in w.own.native && !w.own.native[j.state].Preparing?
    ensures var done := Step(w, Rejoin(j, true));
      && j !in done.joiners && done.own == w.own
      && (!w.own.native[j.state].Failed? && (j.creator || (w.own.Current(j.state) && j.demand.None?)) ==> done.tabs == w.tabs)
      && (w.own.native[j.state].Failed? || (!j.creator && !w.own.Current(j.state)) ==>
            done.tabs == if j.tab.Some? then w.tabs - {j.tab.value} else w.tabs)
  {
  }

  // ------------------------------------------------------------ demand and suspension

  /** A release that settles is no longer waited for by later calls, unless a newer one of the key has
      taken its place; the context itself is gone for good, and nothing else changes. */
  lemma ReleaseDoneMeans(w: World, s: Id, failed: bool)
    requires s in w.own.pending && s in w.own.native && s in w.own.owner
    requires w.own.native[s].Failed? || w.own.native[s].Releasing?
    ensures var (after, key) := (Step(w, ReleaseDone(s, failed)), w.own.owner[s]);
      && after.own.pending == w.own.pending - {s}
      && after.own.ReleaseOf(key) == (if w.own.ReleaseOf(key) == Some(s) then None else w.own.ReleaseOf(key))
      && (forall k :: k != key ==> after.own.ReleaseOf(k) == w.own.ReleaseOf(k))
      && after.own.native[s] == (if w.own.native[s].Failed? then Native.Failed else if failed then ReleaseFailed else Native.Released)
      && after.own.native == w.own.native[s := after.own.native[s]]
      && after.own.contexts == w.own.contexts && after.own.owner == w.own.owner
      && (forall k :: after.own.Generation(k) == w.own.Generation(k))
      && after.tabs == w.tabs && after.active == w.active && after.timers == w.timers
      && after.waiters == w.waiters && after.joiners == w.joiners
  {
  }

  /** Leaving ends the demand; the context stays, with one suspension due if there is one. */
  lemma SuspendMeans(w: World, key: Key)
    ensures var after := Step(w, Suspend(key));
      && key !in after.active && after.own == w.own && after.tabs == w.tabs
      && after.timers == w.timers + (if key in w.own.contexts then {key} else {})
      && (forall k :: k != key ==> SameDemand(w, after, k))
      && Step(after, Recover(key)) == after
  {
    assert w.timers + {} == w.timers;
  }

  /** Coming back in time keeps the context and takes the suspension away. */
  lemma ReturnInTime(w: World, key: Key, sameClient: bool)
    requires key in w.own.contexts
    ensures var back := Step(Step(w, Suspend(key)), Activate(key, sameClient));
      && back.own == w.own && key !in back.timers && key in back.active
      && Step(back, SuspendFires(key)) == back
  {
  }

  /** Another client takes the demand over: what the first one waits for is cancelled, what the same
      one asks again is not. */
  lemma ActivateAgain(w: World, key: Key, sameClient: bool)
    requires key in w.active && w.active[key] < w.next
    ensures var after := Step(w, Activate(key, sameClient));
      && (after.active[key] == w.active[key] <==> sameClient)
      && (w.Demanded(key, Some(w.active[key])) && (after.Demanded(key, Some(w.active[key])) <==> sameClient))
      && after.own == w.own && key !in after.timers && forall k :: k != key ==> SameDemand(w, after, k)
  {
  }

  /** A waiting call whose demand is gone makes no context and joins none. */
  lemma SupersededActivation(w: World, x: Waiter)
    requires x in w.waiters && x.demand.Some? && !w.Demanded(x.key, x.demand) && !Blocked(w, x)
    ensures var after := Step(w, Resume(x));
      after.own == w.own && after.joiners == w.joiners && after.waiters == w.waiters - {x}
  {
  }

  /** A recovery asks again on behalf of the demand that is there. */
  lemma RecoverAsks(w: World, key: Key)
    requires key in w.active
    ensures var after := Step(w, Recover(key));
      && Waiter(w.next, key, w.own.Generation(key), w.own.ReleaseOf(key), Some(w.active[key]), None) in after.waiters
      && after.own == w.own && after.active == w.active
  {
  }
}
