/** Who gets what from a refresh: a session that asks joins the flight under way or owns a new one,
    and whoever asked in time gets the result, over every run. */
module RefreshCalls {
  import opened OrderedMap
  import opened RefreshRotation

  // ------------------------------------------------------------------- asking

  /** A session that asks joins the flight under way, or owns a new one that has yet to read the
      store; everything else stays. */
  lemma RefreshMeans(c: Client, s: SessionId)
    requires s in c.sessions && !Busy(c, s)
    ensures var after := Refresh(c, s);
      && after.store == c.store && after.sessions == c.sessions && after.due == c.due && after.flight.Some?
      && var flight := after.flight.value;
         if c.flight.Some? then
           && s in flight.joined && (forall t :: t != s ==> (t in flight.joined <==> t in c.flight.value.joined))
           && flight.owner == c.flight.value.owner && flight.cached == c.flight.value.cached
           && flight.phase == c.flight.value.phase
         else flight.owner == s && flight.cached == c.sessions[s] && flight.joined == {} && flight.phase == Reading
    ensures Busy(Refresh(c, s), s)
  {
  }

  /** Whoever is not restored, or has asked already, changes nothing. */
  lemma RefreshOtherwise(c: Client, s: SessionId)
    requires s !in c.sessions || Busy(c, s)
    ensures Refresh(c, s) == c
  {
  }

  // ------------------------------------------------------------------ answered

  /** No session waits for a flight and has a result already. */
  ghost predicate OneAnswerEach(c: Client) {
    forall s :: s in c.due ==> c.flight.None? || s !in c.flight.value.joined
  }

  lemma StepKeepsOneAnswer(w: World, a: Action)
    requires OneAnswerEach(w.client)
    ensures OneAnswerEach(Step(w, a).client)
  {
  }

  /** The credential with which the flight that is under way resolves in the run, if it does. */
  function ResultOf(w: World, actions: seq<Action>): Option<Credential>
    decreases |actions|
  {
    if actions == [] || w.client.flight.None? then None
    else if actions[0].DoResolve? && w.client.flight.value.phase.Installed? then Some(w.client.flight.value.phase.tokens.credential)
    else ResultOf(Step(w, actions[0]), actions[1..])
  }

  /** Some step of the run installs the credential in the session, and in the store. */
  predicate Installs(w: World, actions: seq<Action>, s: SessionId, credential: Credential)
    decreases |actions|
  {
    actions != [] &&
    var next := Step(w, actions[0]).client;
    || (actions[0] == DoInstallJoined(s) && s in next.sessions && next.sessions[s] == Tokens(credential, None)
        && next.store == Some(Tokens(credential, None)))
    || Installs(Step(w, actions[0]), actions[1..], s, credential)
  }

  predicate DueOf(c: Client, s: SessionId, credential: Credential) {
    s in c.due && c.due[s] == credential
  }

  lemma DueStep(w: World, a: Action, s: SessionId, credential: Credential)
    requires OneAnswerEach(w.client) && DueOf(w.client, s, credential) && !a.DoRestart?
    ensures a != DoInstallJoined(s) ==> DueOf(Step(w, a).client, s, credential)
    ensures a == DoInstallJoined(s) ==>
      var next := Step(w, a).client;
      s in next.sessions && next.sessions[s] == Tokens(credential, None) && next.store == Some(Tokens(credential, None))
  {
  }

  /** A result stays due until it is installed, whatever else happens short of a restart. */
  lemma {:induction false} DueUntilInstalled(w: World, actions: seq<Action>, s: SessionId, credential: Credential)
    requires OneAnswerEach(w.client) && DueOf(w.client, s, credential) && forall a :: a in actions ==> !a.DoRestart?
    ensures DueOf(Run(w, actions).client, s, credential) || Installs(w, actions, s, credential)
    decreases |actions|
  {
    if actions != [] {
      StepKeepsOneAnswer(w, actions[0]);
      DueStep(w, actions[0], s, credential);
      if actions[0] != DoInstallJoined(s) {
        DueUntilInstalled(Step(w, actions[0]), actions[1..], s, credential);
      }
    }
  }

  predicate Waits(c: Client, s: SessionId) {
    c.flight.Some? && s in c.flight.value.joined
  }

  lemma WaitsStep(w: World, a: Action, s: SessionId)
    requires Waits(w.client, s) && !a.DoRestart?
    ensures if a.DoResolve? && w.client.flight.value.phase.Installed?
            then DueOf(Step(w, a).client, s, w.client.flight.value.phase.tokens.credential)
            else Step(w, a).client.flight.None? || Waits(Step(w, a).client, s)
  {
  }

  lemma {:induction false} WaitsUntilResolved(w: World, actions: seq<Action>, s: SessionId)
    requires OneAnswerEach(w.client) && Waits(w.client, s) && forall a :: a in actions ==> !a.DoRestart?
    ensures ResultOf(w, actions).Some? ==>
      var credential := ResultOf(w, actions).value;
      DueOf(Run(w, actions).client, s, credential) || Installs(w, actions, s, credential)
    decreases |actions|
  {
    if actions != [] && ResultOf(w, actions).Some? {
      var next := Step(w, actions[0]);
      StepKeepsOneAnswer(w, actions[0]);
      WaitsStep(w, actions[0], s);
      if actions[0].DoResolve? && w.client.flight.value.phase.Installed? {
        DueUntilInstalled(next, actions[1..], s, ResultOf(w, actions).value);
      } else {
        assert ResultOf(w, actions) == ResultOf(next, actions[1..]);
        assert next.client.flight.Some?;
        WaitsUntilResolved(next, actions[1..], s);
      }
    }
  }

  /** Over every run without a restart, with logouts, revocations and any other sessions: a session
      that asks while a flight is under way has installed that flight's credential, or is due to, once
      the flight resolves. */
  lemma AskedIsAnswered(w: World, s: SessionId, actions: seq<Action>)
    requires OneAnswerEach(w.client) && s in w.client.sessions && !Busy(w.client, s) && w.client.flight.Some?
    requires forall a :: a in actions ==> !a.DoRestart?
    ensures var asked := Step(w, DoRefresh(s));
      ResultOf(asked, actions).Some? ==>
        var credential := ResultOf(asked, actions).value;
        DueOf(Run(asked, actions).client, s, credential) || Installs(asked, actions, s, credential)
  {
    RefreshMeans(w.client, s);
    StepKeepsOneAnswer(w, DoRefresh(s));
    WaitsUntilResolved(Step(w, DoRefresh(s)), actions, s);
  }

  // ------------------------------------------------------------- failed flights

  /** A joined session installs the result that is due to it, once; what is due to others stays. */
  lemma InstallMeans(c: Client, s: SessionId)
    requires s in c.due
    ensures var after := InstallJoined(c, s);
      && s in after.sessions && after.sessions[s] == Tokens(c.due[s], None) && after.store == Some(after.sessions[s])
      && s !in after.due && after.flight == c.flight && InstallJoined(after, s) == after
      && forall t :: t != s ==>
           && (t in after.due <==> t in c.due) && (t in c.due ==> after.due[t] == c.due[t])
           && (t in after.sessions <==> t in c.sessions) && (t in c.sessions ==> after.sessions[t] == c.sessions[t])
  {
  }

  /** An attempt that is over gets no answer any more, whichever way it ended; copies of its request
      may still be under way until they are lost. */
  lemma NoLateAnswer(w: World, a: Action, reply: Reply)
    requires a.DoFail? || a.DoRestart? || (a.DoRespond? && InFlight(w.client).Some? && (InFlight(w.client).value, a.reply) in w.replies)
    ensures Step(Step(w, a), DoRespond(reply)) == Step(w, a)
    ensures Step(w, a).replies == {} && Step(w, a).wire == w.wire && Step(w, a).server == w.server
    ensures forall q :: q !in Step(Step(w, a), DoDrop(q)).wire
    ensures forall q, r :: q != r && r in w.wire ==> r in Step(Step(w, a), DoDrop(q)).wire
  {
  }

  /** A rejection takes the stored credential and the owner's session away; the flight is over for
      those who joined it, and nobody can be restored any more. */
  lemma RejectedMeans(c: Client, t: SessionId)
    requires c.flight.Some? && c.flight.value.phase.Sent?
    ensures var after := Respond(c, Rejected); var owner := c.flight.value.owner;
      && after.store.None? && after.flight.None? && after.due == c.due && owner !in after.sessions
      && (t != owner ==> (t in after.sessions <==> t in c.sessions) && (t in c.sessions ==> after.sessions[t] == c.sessions[t]))
      && t !in Restore(Restart(after), t).sessions
  {
  }

  /** A transport error ends the flight and nothing else. */
  lemma FailedMeans(c: Client)
    requires c.flight.Some? && !c.flight.value.phase.Installed?
    ensures var after := Fail(c);
      after.flight.None? && after.store == c.store && after.sessions == c.sessions && after.due == c.due
  {
  }

  /** After it the next flight, of whichever session, presents the identical request. */
  lemma FailedIsRetried(w: World, s: SessionId, random: string, rotationId: string)
    requires Inv(w) && InFlight(w.client).Some? && s in w.client.sessions && Fresh(Step(w, DoFail), random, rotationId)
    ensures var retried := Run(Step(w, DoFail), StartSteps(s, random, rotationId)).client;
      retried.flight.Some? && retried.flight.value.phase.Intended? && retried.flight.value.owner == s
      && Some(retried.flight.value.phase.pending) == InFlight(w.client)
  {
    StepKeepsInv(w, DoFail);
    StartPersistsIntent(Step(w, DoFail), s, random, rotationId);
  }

  /** The credential is a device family and something after its first dot. */
  ghost predicate HasFamily(credential: Credential, family: string, rest: string) {
    credential == family + "." + rest && family != "" && rest != "" && '.' !in family
  }

  /** Which credentials can be rotated, and to what. */
  lemma NextCredentialIff(credential: Credential, random: string)
    ensures NextCredential(credential, random).Some? <==> exists family, rest :: HasFamily(credential, family, rest)
    ensures forall family, rest :: HasFamily(credential, family, rest) ==>
              NextCredential(credential, random) == Some(family + "." + random)
  {
    forall family, rest | HasFamily(credential, family, rest)
      ensures NextCredential(credential, random) == Some(family + "." + random)
    {
      assert credential[..|family|] == family && credential[|family|] == '.';
      FirstDot(credential, |family|);
    }
    var i := IndexOfDot(credential);
    if NextCredential(credential, random).Some? {
      assert credential == credential[..i] + "." + credential[i + 1..];
      assert HasFamily(credential, credential[..i], credential[i + 1..]);
    }
  }

  /** A credential that cannot be rotated ends the flight without a write. */
  lemma MalformedEndsFlight(c: Client, random: string, rotationId: string)
    requires c.flight.Some? && c.flight.value.phase.Ready? && c.due == map[] && c.flight.value.phase.current.pending.None?
    ensures var after := Intend(c, random, rotationId); var credential := c.flight.value.phase.current.credential;
      && (after.flight.None? <==> !(exists family, rest :: HasFamily(credential, family, rest)))
      && (after.flight.None? ==> after.store == c.store && after.sessions == c.sessions && after.due == c.due)
  {
    NextCredentialIff(c.flight.value.phase.current.credential, random);
  }

  /** A logout takes the stored credential and the session's own tokens; other sessions keep theirs. */
  lemma LogoutMeans(c: Client, s: SessionId, t: SessionId)
    requires s in c.sessions
    ensures var after := Logout(c, s);
      && after.store.None? && s !in after.sessions && after.flight == c.flight && after.due == c.due
      && (t != s ==> (t in after.sessions <==> t in c.sessions) && (t in c.sessions ==> after.sessions[t] == c.sessions[t]))
  {
  }
}
