/** Refresh-credential rotation with crash recovery (apps/mobile/src/control-plane/cloud-account.ts),
    run against the recovery server that the account session tests script.

    One secure-store key is shared by any number of sessions. Every step below is one
    continuation between two awaits, one delivery by the network, or a restart of the app. */
module RefreshRotation {
  import opened OrderedMap

  type Credential = string
  type SessionId = int

  /** The intent that is written before a rotation is sent. It is also the request itself. */
  datatype Pending = Pending(previous: Credential, next: Credential, rotationId: string)

  /** What the secure store holds, and what a session caches. */
  datatype Tokens = Tokens(credential: Credential, pending: Option<Pending>)

  // ----------------------------------------------------------------- the server

  datatype Server = Server(current: Credential, committed: Option<Pending>, revoked: bool)

  datatype Reply = Accepted(credential: Credential) | Rejected

  /** An identical retry of the committed rotation is answered again; any other credential than
      the current one revokes the device session. */
  function Serve(server: Server, q: Pending): (Server, Reply) {
    if server.committed == Some(q) then (server, Accepted(q.next))
    else if q.previous != server.current then (server.(revoked := true), Rejected)
    else (server.(current := q.next, committed := Some(q)), Accepted(q.next))
  }

  class RecoveryServer {
    var serverCurrent: Credential
    var committed: Option<Pending>
    var replayRevoked: bool

    constructor (credential: Credential)
      ensures State() == Server(credential, None, false)
    {
      serverCurrent, committed, replayRevoked := credential, None, false;
    }

    function State(): Server
      reads this
    {
      Server(serverCurrent, committed, replayRevoked)
    }

    method Handle(body: Pending) returns (reply: Reply)
      modifies this
      ensures (State(), reply) == Serve(old(State()), body)
    {
      if committed.Some? && body.previous == committed.value.previous && body.next == committed.value.next
         && body.rotationId == committed.value.rotationId {
        return Accepted(body.next);
      }
      if body.previous != serverCurrent {
        replayRevoked := true;
        return Rejected;
      }
      committed := Some(Pending(body.previous, body.next, body.rotationId));
      serverCurrent := body.next;
      return Accepted(body.next);
    }
  }

  // ------------------------------------------------------------ next credentials

  function IndexOfDot(s: string): (i: int)
    ensures -1 <= i < |s|
    ensures i >= 0 ==> s[i] == '.' && '.' !in s[..i]
    ensures i < 0 ==> '.' !in s
  {
    if s == [] then -1
    else if s[0] == '.' then 0
    else
      var rest := IndexOfDot(s[1..]);
      assert s == [s[0]] + s[1..];
      assert rest >= 0 ==> s[..rest + 1] == [s[0]] + s[1..][..rest];
      if rest < 0 then -1 else rest + 1
  }

  /** `nextRefreshCredential`: the part before the first dot is kept, the rest is fresh; a
      credential without a proper dot is refused. */
  function NextCredential(current: Credential, random: string): Option<Credential> {
    var separator := IndexOfDot(current);
    if separator <= 0 || separator == |current| - 1 then None
    else Some(current[..separator] + "." + random)
  }

  /** The device family of a credential survives every rotation, and so does being rotatable. */
  lemma FamilyKept(current: Credential, random: string)
    requires random != ""
    ensures NextCredential(current, random).Some? ==>
      var next := NextCredential(current, random).value;
      && IndexOfDot(next) == IndexOfDot(current)
      && next[..IndexOfDot(next)] == current[..IndexOfDot(current)]
      && NextCredential(next, random).Some?
  {
    if NextCredential(current, random).Some? {
      var next, n := NextCredential(current, random).value, IndexOfDot(current);
      assert next[..n] == current[..n];
      FirstDot(next, n);
    }
  }

  lemma {:induction false} FirstDot(s: string, i: nat)
    requires i < |s| && s[i] == '.' && '.' !in s[..i]
    ensures IndexOfDot(s) == i
  {
    if i > 0 {
      assert s[0] == s[..i][0];
      assert s[1..][..i - 1] == s[..i][1..];
      FirstDot(s[1..], i - 1);
    }
  }

  // ------------------------------------------------------------------ the client

  /** How far the shared flight has come. */
  datatype Phase =
    | Reading                                   // waiting for the secure store
    | Ready(current: Tokens)                    // the freshest credential is known
    | Intended(current: Tokens, pending: Pending) // the intent is persisted
    | Sent(current: Tokens, pending: Pending)     // the request is on its way
    | Installed(tokens: Tokens)                   // the result is stored, the flight not yet over

  datatype Flight = Flight(owner: SessionId, cached: Tokens, joined: set<SessionId>, phase: Phase)

  /** `due` holds the joined sessions whose continuation has the flight's result but has not
      installed it yet. */
  datatype Client = Client(store: Option<Tokens>, sessions: map<SessionId, Tokens>,
                           flight: Option<Flight>, due: map<SessionId, Credential>)

  predicate Busy(c: Client, s: SessionId) {
    s in c.due || (c.flight.Some? && (s == c.flight.value.owner || s in c.flight.value.joined))
  }

  function Restore(c: Client, s: SessionId): Client {
    if c.store.None? then c else c.(sessions := c.sessions[s := c.store.value])
  }

  /** `refreshAccessToken` up to its first await: join the flight or register one. */
  function Refresh(c: Client, s: SessionId): Client {
    if s !in c.sessions || Busy(c, s) then c
    else if c.flight.Some? then c.(flight := Some(c.flight.value.(joined := c.flight.value.joined + {s})))
    else c.(flight := Some(Flight(s, c.sessions[s], {}, Reading)))
  }

  /** `freshestCredential`: what the store holds, or the cached tokens when it holds nothing. */
  function Read(c: Client): Client {
    if c.flight.None? || c.flight.value.phase != Reading then c
    else c.(flight := Some(c.flight.value.(phase := Ready(c.store.GetOr(c.flight.value.cached)))))
  }

  /** The intent to persist: the stored one if there is one, else a fresh one. */
  function IntentFor(current: Tokens, random: string, rotationId: string): Option<Pending> {
    if current.pending.Some? then current.pending
    else match NextCredential(current.credential, random)
      case None => None
      case Some(next) => Some(Pending(current.credential, next, rotationId))
  }

  /** `completeRotation` up to the request. Installs of joined sessions that are due were queued
      by the previous flight's completion and reach the store first. */
  function Intend(c: Client, random: string, rotationId: string): Client {
    if c.flight.None? || !c.flight.value.phase.Ready? || c.due != map[] then c
    else
      var flight := c.flight.value;
      match IntentFor(flight.phase.current, random, rotationId)
      case None => c.(flight := None)
      case Some(p) =>
        var tokens := flight.phase.current.(pending := Some(p));
        c.(store := Some(tokens), sessions := c.sessions[flight.owner := tokens],
           flight := Some(flight.(phase := Intended(flight.phase.current, p))))
  }

  function Send(c: Client): Client {
    if c.flight.None? || !c.flight.value.phase.Intended? then c
    else
      var phase := c.flight.value.phase;
      c.(flight := Some(c.flight.value.(phase := Sent(phase.current, phase.pending))))
  }

  /** The response: accepted tokens are installed without the intent; a rejection clears the
      device credential and the owner's session. */
  function Respond(c: Client, reply: Reply): Client {
    if c.flight.None? || !c.flight.value.phase.Sent? then c
    else
      var flight := c.flight.value;
      match reply
      case Accepted(credential) =>
        var tokens := Tokens(credential, None);
        c.(store := Some(tokens), sessions := c.sessions[flight.owner := tokens],
           flight := Some(flight.(phase := Installed(tokens))))
      case Rejected =>
        c.(store := None, sessions := c.sessions - {flight.owner}, flight := None)
  }

  /** The flight is over, and every session that joined it meanwhile has its result. */
  function Resolve(c: Client): Client {
    if c.flight.None? || !c.flight.value.phase.Installed? then c
    else
      var flight := c.flight.value;
      c.(flight := None,
         due := map s | s in flight.joined + c.due.Keys ::
           if s in flight.joined then flight.phase.tokens.credential else c.due[s])
  }

  /** A transport error or a retryable status: the intent stays in the store. */
  function Fail(c: Client): Client {
    if c.flight.Some? && c.flight.value.phase.Installed? then c else c.(flight := None)
  }

  /** A joined session installs the flight's result. */
  function InstallJoined(c: Client, s: SessionId): Client {
    if s !in c.due then c
    else
      var tokens := Tokens(c.due[s], None);
      c.(store := Some(tokens), sessions := c.sessions[s := tokens], due := c.due - {s})
  }

  /** The app is killed: only the secure store survives. */
  function Restart(c: Client): Client {
    Client(c.store, map[], None, map[])
  }

  function Logout(c: Client, s: SessionId): Client {
    if s !in c.sessions then c else c.(store := None, sessions := c.sessions - {s})
  }

  /** The secure store, the sessions and the shared flight, updated in place. */
  class AccountSessions {
    var store: Option<Tokens>
    var sessions: map<SessionId, Tokens>
    var flight: Option<Flight>
    var due: map<SessionId, Credential>

    function State(): Client
      reads this
    {
      Client(store, sessions, flight, due)
    }

    constructor (stored: Option<Tokens>)
      ensures State() == Client(stored, map[], None, map[])
    {
      store, sessions, flight, due := stored, map[], None, map[];
    }

    method RestoreSession(s: SessionId) returns (restored: bool)
      modifies this
      ensures State() == Restore(old(State()), s) && restored == old(store).Some?
    {
      if store.None? {
        return false;
      }
      sessions := sessions[s := store.value];
      restored := true;
    }

    method RefreshAccessToken(s: SessionId)
      modifies this
      ensures State() == Refresh(old(State()), s)
    {
      if s !in sessions || Busy(State(), s) {
        return;
      }
      var cached := sessions[s];
      if flight.Some? {
        flight := Some(flight.value.(joined := flight.value.joined + {s}));
        return;
      }
      flight := Some(Flight(s, cached, {}, Reading));
    }

    method FreshestCredential()
      modifies this
      ensures State() == Read(old(State()))
    {
      if flight.Some? && flight.value.phase == Reading {
        var current := if store.None? then flight.value.cached else store.value;
        flight := Some(flight.value.(phase := Ready(current)));
      }
    }

    method PersistIntent(random: string, rotationId: string)
      modifies this
      ensures State() == Intend(old(State()), random, rotationId)
    {
      if flight.None? || !flight.value.phase.Ready? || due != map[] {
        return;
      }
      var current := flight.value.phase.current;
      var pending := current.pending;
      if pending.None? {
        var next := NextCredential(current.credential, random);
        if next.None? {
          flight := None;
          return;
        }
        pending := Some(Pending(current.credential, next.value, rotationId));
      }
      Install(flight.value.owner, Tokens(current.credential, pending));
      flight := Some(flight.value.(phase := Intended(current, pending.value)));
    }

    method Install(s: SessionId, tokens: Tokens)
      modifies this
      ensures State() == old(State()).(store := Some(tokens), sessions := old(sessions)[s := tokens])
    {
      sessions := sessions[s := tokens];
      store := Some(tokens);
    }

    method SendRequest() returns (request: Option<Pending>)
      modifies this
      ensures State() == Send(old(State()))
      ensures request.Some? <==> old(flight).Some? && old(flight).value.phase.Intended?
      ensures request.Some? ==> request.value == old(flight).value.phase.pending
    {
      if flight.None? || !flight.value.phase.Intended? {
        return None;
      }
      var phase := flight.value.phase;
      flight := Some(flight.value.(phase := Sent(phase.current, phase.pending)));
      request := Some(phase.pending);
    }

    method ReceiveReply(reply: Reply)
      modifies this
      ensures State() == Respond(old(State()), reply)
    {
      if flight.None? || !flight.value.phase.Sent? {
        return;
      }
      var owner := flight.value.owner;
      if reply.Rejected? {
        store := None;
        sessions := sessions - {owner};
        flight := None;
        return;
      }
      var tokens := Tokens(reply.credential, None);
      Install(owner, tokens);
      flight := Some(flight.value.(phase := Installed(tokens)));
    }

    method ResolveFlight()
      modifies this
      ensures State() == Resolve(old(State()))
    {
      if flight.None? || !flight.value.phase.Installed? {
        return;
      }
      var joined, credential := flight.value.joined, flight.value.phase.tokens.credential;
      due := map s | s in joined + due.Keys :: if s in joined then credential else due[s];
      flight := None;
    }

    method InstallJoinedSession(s: SessionId)
      modifies this
      ensures State() == InstallJoined(old(State()), s)
    {
      if s in due {
        Install(s, Tokens(due[s], None));
        due := due - {s};
      }
    }

    method LogoutSession(s: SessionId)
      modifies this
      ensures State() == Logout(old(State()), s)
    {
      if s in sessions {
        store := None;
        sessions := sessions - {s};
      }
    }
  }

  // ------------------------------------------------------------------- all steps

  /** `wire` holds the request copies that may still reach the server and `replies` the answers
      on their way back. `drawn` are all next-credentials ever drawn, `retired` the rotations that
      the server committed before its last one, and `completed` those whose answer the client
      has installed. */
  datatype World = World(client: Client, server: Server, wire: set<Pending>, replies: set<(Pending, Reply)>,
                         drawn: set<Credential>, retired: set<Pending>, completed: set<Pending>)

  datatype Action =
    | DoRestore(s: SessionId)
    | DoRefresh(s: SessionId)
    | DoRead
    | DoIntend(random: string, rotationId: string)
    | DoSend
    | DoDeliver(q: Pending)
    | DoDrop(q: Pending)
    | DoRespond(reply: Reply)
    | DoResolve
    | DoFail
    | DoInstallJoined(s: SessionId)
    | DoRestart
    | DoLogout(s: SessionId)

  function Init(credential: Credential): World {
    World(Client(Some(Tokens(credential, None)), map[], None, map[]), Server(credential, None, false),
          {}, {}, {credential}, {}, {})
  }

  /** The request that the flight has sent, if any. */
  function InFlight(c: Client): Option<Pending> {
    if c.flight.Some? && c.flight.value.phase.Sent? then Some(c.flight.value.phase.pending) else None
  }

  function Deliver(w: World, q: Pending): World {
    if q !in w.wire then w
    else
      var (server, reply) := Serve(w.server, q);
      w.(server := server, replies := w.replies + {(q, reply)},
         retired := if server.committed != w.server.committed && w.server.committed.Some?
           then w.retired + {w.server.committed.value} else w.retired)
  }

  function Step(w: World, a: Action): World {
    match a
    case DoRestore(s) => w.(client := Restore(w.client, s))
    case DoRefresh(s) => w.(client := Refresh(w.client, s))
    case DoRead => w.(client := Read(w.client))
    case DoIntend(random, rotationId) =>
      // A random draw never repeats an earlier credential.
      var next := if w.client.flight.Some? && w.client.flight.value.phase.Ready?
        then NextCredential(w.client.flight.value.phase.current.credential, random) else None;
      if next.Some? && next.value in w.drawn then w
      else w.(client := Intend(w.client, random, rotationId),
              drawn := if next.Some? then w.drawn + {next.value} else w.drawn)
    case DoSend =>
      var client := Send(w.client);
      w.(client := client,
         wire := if InFlight(w.client).None? && InFlight(client).Some? then w.wire + {InFlight(client).value} else w.wire)
    case DoDeliver(q) => Deliver(w, q)
    case DoDrop(q) => w.(wire := w.wire - {q})
    case DoRespond(reply) =>
      var sent := InFlight(w.client);
      if sent.None? || (sent.value, reply) !in w.replies then w
      else w.(client := Respond(w.client, reply), replies := {},
              completed := if reply.Accepted? then w.completed + {sent.value} else w.completed)
    case DoResolve => w.(client := Resolve(w.client))
    case DoFail => w.(client := Fail(w.client), replies := {})
    case DoInstallJoined(s) => w.(client := InstallJoined(w.client, s))
    case DoRestart => w.(client := Restart(w.client), replies := {})
    case DoLogout(s) => w.(client := Logout(w.client, s))
  }

  function Run(w: World, actions: seq<Action>): World
    decreases |actions|
  {
    if actions == [] then w else Run(Step(w, actions[0]), actions[1..])
  }

  // ------------------------------------------------------------------- invariant

  ghost predicate ServerInv(w: World) {
    && !w.server.revoked
    && w.server.current in w.drawn
    && (w.server.committed.Some? ==>
          var last := w.server.committed.value;
          last.next == w.server.current && last.previous != w.server.current && last.previous in w.drawn)
    && forall q :: q in w.retired ==>
         && q.previous in w.drawn && q.next in w.drawn
         && q.previous != w.server.current && q.next != w.server.current
  }

  predicate WasCommitted(w: World, q: Pending) {
    q in w.retired || w.server.committed == Some(q)
  }

  /** The stored intent is the rotation committed last, or one the server has yet to commit. */
  ghost predicate IntentInv(w: World, p: Pending) {
    && p.next in w.drawn
    && (w.server.committed != Some(p) ==>
          && p.previous == w.server.current && p.next != p.previous && p !in w.retired
          && (w.server.committed.Some? ==> w.server.committed.value.previous != p.next)
          && forall q :: q in w.retired ==> q.next != p.next && q.previous != p.next)
  }

  /** The store always holds the server's current credential: as the credential, or as the next
      one of an intent that is the committed rotation. */
  ghost predicate StoreHoldsCurrent(w: World) {
    && w.client.store.Some?
    && var stored := w.client.store.value;
       match stored.pending
       case None => stored.credential == w.server.current
       case Some(p) => stored.credential == p.previous && IntentInv(w, p)
  }

  /** The flight works on what the store holds, although nobody locks the store. */
  ghost predicate FlightInv(c: Client, stored: Tokens) {
    && (c.flight.Some? ==>
          match c.flight.value.phase
          case Reading => true
          case Ready(current) => current == stored
          case Intended(current, p) => current.credential == stored.credential && stored.pending == Some(p) && c.due == map[]
          case Sent(current, p) => current.credential == stored.credential && stored.pending == Some(p) && c.due == map[]
          case Installed(tokens) => stored == tokens && tokens.pending.None? && c.due == map[])
    && forall s :: s in c.due ==> stored == Tokens(c.due[s], None)
  }

  ghost predicate NetworkInv(w: World, pending: Option<Pending>) {
    && (forall q :: q in w.wire ==> WasCommitted(w, q) || pending == Some(q))
    && (forall r :: r in w.replies ==> WasCommitted(w, r.0) && r.1 == Accepted(r.0.next))
    && (forall q :: q in w.completed <==> WasCommitted(w, q) && pending != Some(q))
  }

  ghost predicate Inv(w: World) {
    && ServerInv(w)
    && StoreHoldsCurrent(w)
    && FlightInv(w.client, w.client.store.value)
    && NetworkInv(w, w.client.store.value.pending)
  }

  lemma InitInv(initial: Credential)
    ensures Inv(Init(initial))
  {
  }

  // ------------------------------------------------------- every step but logout

  /** A delivered copy revokes the device session exactly when the server has committed a later
      rotation than that one. */
  lemma RevokesIff(w: World, q: Pending)
    requires Inv(w) && q in w.wire
    ensures Step(w, DoDeliver(q)).server.revoked <==> q in w.retired
  {
  }

  lemma DeliverKeepsInv(w: World, q: Pending)
    requires Inv(w) && !Deliver(w, q).server.revoked
    ensures Inv(Deliver(w, q))
  {
    if q in w.wire && w.server.committed != Some(q) {
      RevokesIff(w, q);
      assert w.client.store.value.pending == Some(q);
    }
  }

  lemma RespondKeepsInv(w: World, reply: Reply)
    requires Inv(w)
    ensures Inv(Step(w, DoRespond(reply)))
  {
  }

  lemma IntendKeepsInv(w: World, random: string, rotationId: string)
    requires Inv(w)
    ensures Inv(Step(w, DoIntend(random, rotationId)))
  {
    if w.client.flight.Some? && w.client.flight.value.phase.Ready? && w.client.store.value.pending.None? {
      FreshIntentKeepsInv(w, random, rotationId);
    }
  }

  lemma FreshIntentKeepsInv(w: World, random: string, rotationId: string)
    requires Inv(w) && w.client.flight.Some? && w.client.flight.value.phase.Ready? && w.client.store.value.pending.None?
    ensures Inv(Step(w, DoIntend(random, rotationId)))
  {
    var current := w.client.flight.value.phase.current;
    assert current == w.client.store.value && current.credential == w.server.current;
  }

  lemma StepKeepsInv(w: World, a: Action)
    requires Inv(w) && !a.DoLogout?
    requires !Step(w, a).server.revoked
    ensures Inv(Step(w, a))
  {
    match a
    case DoDeliver(q) => DeliverKeepsInv(w, q);
    case DoRespond(reply) => RespondKeepsInv(w, reply);
    case DoIntend(random, rotationId) => IntendKeepsInv(w, random, rotationId);
    case _ =>
  }

  // ---------------------------------------------------------------- whole runs

  /** No copy of a request is delivered after the exchange that completed it, and nobody logs
      out. Everything else may happen at any time: restarts, lost and repeated requests, lost
      responses, any number of sessions. */
  ghost predicate Disciplined(w: World, actions: seq<Action>)
    decreases |actions|
  {
    actions == [] || (&& !actions[0].DoLogout?
                      && (actions[0].DoDeliver? ==> actions[0].q !in w.completed)
                      && Disciplined(Step(w, actions[0]), actions[1..]))
  }

  /** Rotation safety: a disciplined run never revokes the device session, and the store holds
      the server's current credential all the way. */
  lemma {:induction false} RotationSafety(w: World, actions: seq<Action>)
    requires Inv(w) && Disciplined(w, actions)
    ensures Inv(Run(w, actions))
    ensures !Run(w, actions).server.revoked && StoreHoldsCurrent(Run(w, actions))
    decreases |actions|
  {
    if actions != [] {
      var a := actions[0];
      if a.DoDeliver? && a.q in w.wire {
        RevokesIff(w, a.q);
      }
      StepKeepsInv(w, a);
      RotationSafety(Step(w, a), actions[1..]);
    }
  }

  /** The run delivers, at some point, a copy of a rotation older than the last committed one. */
  predicate DeliversRetired(w: World, actions: seq<Action>)
    decreases |actions|
  {
    actions != [] && ((actions[0].DoDeliver? && actions[0].q in w.wire && actions[0].q in w.retired)
                      || DeliversRetired(Step(w, actions[0]), actions[1..]))
  }

  /** Exactly when a run without logout loses the device session. */
  lemma {:induction false} RevokedIff(w: World, actions: seq<Action>)
    requires Inv(w)
    requires forall a :: a in actions ==> !a.DoLogout?
    ensures Run(w, actions).server.revoked <==> DeliversRetired(w, actions)
    decreases |actions|
  {
    if actions != [] {
      var a := actions[0];
      assert a in actions && forall b :: b in actions[1..] ==> b in actions;
      if a.DoDeliver? && a.q in w.wire {
        RevokesIff(w, a.q);
      }
      if Step(w, a).server.revoked {
        RevokedForGood(Step(w, a), actions[1..]);
      } else {
        StepKeepsInv(w, a);
        RevokedIff(Step(w, a), actions[1..]);
      }
    }
  }

  lemma {:induction false} RevokedForGood(w: World, actions: seq<Action>)
    requires w.server.revoked
    ensures Run(w, actions).server.revoked
    decreases |actions|
  {
    if actions != [] {
      RevokedForGood(Step(w, actions[0]), actions[1..]);
    }
  }

  /** What is sent can be answered: it starts at the server's current credential or is the
      committed rotation itself, so the server accepts it and ends at its next credential. */
  lemma PresentsNothingStale(w: World)
    requires Inv(w) && InFlight(w.client).Some?
    ensures var p := InFlight(w.client).value;
      && (p.previous == w.server.current || w.server.committed == Some(p))
      && Serve(w.server, p) == (Server(p.next, Some(p), false), Accepted(p.next))
  {
  }

  /** The owner's session holds the result of its flight as soon as it is stored: it is the
      server's current credential. */
  lemma OwnerGetsTheResult(w: World, credential: Credential)
    requires Inv(w) && InFlight(w.client).Some?
    requires (InFlight(w.client).value, Accepted(credential)) in w.replies
    ensures var after := Step(w, DoRespond(Accepted(credential)));
      && credential == w.server.current
      && after.client.sessions[w.client.flight.value.owner] == Tokens(credential, None)
      && after.client.store == Some(Tokens(credential, None))
      && after.client.flight == Some(w.client.flight.value.(phase := Installed(Tokens(credential, None))))
  {
    RespondKeepsInv(w, Accepted(credential));
  }

  /** Every session that joined before the flight was over gets that result too; what it installs
      leaves the store as it is. */
  lemma JoinedCallersGetTheResult(w: World, s: SessionId)
    requires Inv(w) && w.client.flight.Some? && w.client.flight.value.phase.Installed?
    requires s in w.client.flight.value.joined
    ensures var tokens := w.client.flight.value.phase.tokens; var after := Step(w, DoResolve);
      && tokens.credential == w.server.current
      && s in after.client.due && after.client.due[s] == tokens.credential
      && Step(after, DoInstallJoined(s)).client.sessions[s] == tokens
      && Step(after, DoInstallJoined(s)).client.store == after.client.store == Some(tokens)
  {
  }

  /** Until a joined session installs its result, nothing but a restart takes it away. */
  lemma DueStays(w: World, a: Action, s: SessionId)
    requires Inv(w) && s in w.client.due && !a.DoRestart? && a != DoInstallJoined(s)
    ensures s in Step(w, a).client.due && Step(w, a).client.due[s] == w.client.due[s]
  {
  }

  // ------------------------------------------------------- recovery and examples

  /** One session starts a rotation, undisturbed. */
  function StartSteps(s: SessionId, random: string, rotationId: string): seq<Action> {
    [DoRefresh(s), DoRead, DoIntend(random, rotationId)]
  }

  /** The rotation `p` reaches the server and its answer comes back. */
  function ExchangeSteps(p: Pending): seq<Action> {
    [DoSend, DoDeliver(p), DoRespond(Accepted(p.next)), DoResolve]
  }

  lemma RunCons(w: World, a: Action, rest: seq<Action>)
    ensures Run(w, [a] + rest) == Run(Step(w, a), rest)
  {
    assert ([a] + rest)[1..] == rest;
  }

  lemma RunThree(w: World, a: Action, b: Action, c: Action)
    ensures Run(w, [a, b, c]) == Step(Step(Step(w, a), b), c)
  {
    RunCons(w, a, [b, c]);
    RunCons(Step(w, a), b, [c]);
    RunCons(Step(Step(w, a), b), c, []);
    assert [a, b, c] == [a] + [b, c] && [b, c] == [b] + [c] && [c] == [c] + [];
  }

  lemma {:induction false} RunSnoc(w: World, actions: seq<Action>, a: Action)
    ensures Run(w, actions + [a]) == Step(Run(w, actions), a)
    decreases |actions|
  {
    if actions == [] {
      RunCons(w, a, []);
      assert [] + [a] == [a] + [];
    } else {
      assert (actions + [a])[1..] == actions[1..] + [a];
      RunSnoc(Step(w, actions[0]), actions[1..], a);
    }
  }

  ghost predicate Idle(w: World) {
    Inv(w) && w.client.flight.None? && w.client.due == map[]
  }

  /** The draw gives an intent for what is stored, and does not repeat an earlier one. */
  predicate Fresh(w: World, random: string, rotationId: string)
    requires w.client.store.Some?
  {
    var stored := w.client.store.value;
    && IntentFor(stored, random, rotationId).Some?
    && (NextCredential(stored.credential, random).Some? ==> NextCredential(stored.credential, random).value !in w.drawn)
  }

  ghost predicate CanStart(w: World, s: SessionId, random: string, rotationId: string) {
    Idle(w) && s in w.client.sessions && Fresh(w, random, rotationId)
  }

  lemma StartPersistsIntent(w: World, s: SessionId, random: string, rotationId: string)
    requires CanStart(w, s, random, rotationId)
    ensures var p := IntentFor(w.client.store.value, random, rotationId).value;
      var after := Run(w, StartSteps(s, random, rotationId));
      && Inv(after)
      && after.client.store == Some(w.client.store.value.(pending := Some(p)))
      && after.client.flight.Some? && after.client.flight.value.phase == Intended(w.client.store.value, p)
      && after.client.flight.value.owner == s && after.client.flight.value.joined == {}
      && after.client.sessions == w.client.sessions[s := after.client.store.value]
      && after.(client := w.client, drawn := {}) == w.(drawn := {})
  {
    var w1 := Step(w, DoRefresh(s));
    StepKeepsInv(w, DoRefresh(s));
    var w2 := Step(w1, DoRead);
    StepKeepsInv(w1, DoRead);
    IntendKeepsInv(w2, random, rotationId);
    RunThree(w, DoRefresh(s), DoRead, DoIntend(random, rotationId));
  }

  /** The request arrives and its answer is on the way back. */
  lemma ExchangeReaches(w: World)
    requires Inv(w) && w.client.flight.Some? && w.client.flight.value.phase.Intended?
    ensures var flight := w.client.flight.value; var p := flight.phase.pending;
      var w2 := Step(Step(w, DoSend), DoDeliver(p));
      && Inv(w2) && (p, Accepted(p.next)) in w2.replies
      && w2.client == w.client.(flight := Some(flight.(phase := Sent(flight.phase.current, p))))
      && w2.server == Server(p.next, Some(p), false) && w2.wire == w.wire + {p}
      && (forall q :: WasCommitted(w, q) ==> WasCommitted(w2, q))
  {
    var p := w.client.flight.value.phase.pending;
    var w1 := Step(w, DoSend);
    StepKeepsInv(w, DoSend);
    PresentsNothingStale(w1);
    DeliverKeepsInv(w1, p);
  }

  lemma ExchangeCompletes(w: World)
    requires Inv(w) && w.client.flight.Some? && w.client.flight.value.phase.Intended?
    ensures var p := w.client.flight.value.phase.pending;
      var after := Run(w, ExchangeSteps(p));
      && Inv(after) && after.client.flight.None?
      && after.client.store == Some(Tokens(p.next, None))
      && after.client.sessions == w.client.sessions[w.client.flight.value.owner := Tokens(p.next, None)]
      && after.server == Server(p.next, Some(p), false)
      && after.wire == w.wire + {p}
      && (forall q :: WasCommitted(w, q) ==> WasCommitted(after, q))
      && (w.client.flight.value.joined == {} ==> after.client.due == map[])
  {
    var p := w.client.flight.value.phase.pending;
    var w2 := Step(Step(w, DoSend), DoDeliver(p));
    ExchangeReaches(w);
    ReplyCompletes(w2);
    RunThree(w, DoSend, DoDeliver(p), DoRespond(Accepted(p.next)));
    RunSnoc(w, [DoSend, DoDeliver(p), DoRespond(Accepted(p.next))], DoResolve);
    assert ExchangeSteps(p) == [DoSend, DoDeliver(p), DoRespond(Accepted(p.next))] + [DoResolve];
  }

  /** The answer on its way back is installed, and the flight is over. */
  lemma ReplyCompletes(w: World)
    requires Inv(w) && InFlight(w.client).Some?
    requires var p := InFlight(w.client).value; (p, Accepted(p.next)) in w.replies
    ensures var p := InFlight(w.client).value;
      var after := Step(Step(w, DoRespond(Accepted(p.next))), DoResolve);
      && Inv(after) && after.client.flight.None?
      && after.client.store == Some(Tokens(p.next, None))
      && after.client.sessions == w.client.sessions[w.client.flight.value.owner := Tokens(p.next, None)]
      && after.server == w.server && after.wire == w.wire && after.retired == w.retired
      && (w.client.flight.value.joined == {} ==> after.client.due == map[])
  {
    var p := InFlight(w.client).value;
    RespondKeepsInv(w, Accepted(p.next));
    StepKeepsInv(Step(w, DoRespond(Accepted(p.next))), DoResolve);
  }

  /** After a restart at any point whatever, one undisturbed rotation ends with the store and the
      session holding the server's current credential. A rotation that the server had already
      committed is completed, not repeated. */
  lemma RestartRecovers(w: World, s: SessionId, random: string, rotationId: string)
    requires Inv(w) && Fresh(w, random, rotationId)
    ensures var p := IntentFor(w.client.store.value, random, rotationId).value;
      var restored := Step(Step(w, DoRestart), DoRestore(s));
      var after := Run(Run(restored, StartSteps(s, random, rotationId)), ExchangeSteps(p));
      && Inv(after)
      && after.client.store == Some(Tokens(after.server.current, None))
      && after.client.sessions == map[s := Tokens(after.server.current, None)]
      && (w.server.committed.Some? && w.server.committed == w.client.store.value.pending ==> after.server == w.server)
  {
    var restored := Step(Step(w, DoRestart), DoRestore(s));
    StepKeepsInv(w, DoRestart);
    StepKeepsInv(Step(w, DoRestart), DoRestore(s));
    StartPersistsIntent(restored, s, random, rotationId);
    var started := Run(restored, StartSteps(s, random, rotationId));
    ExchangeCompletes(started);
  }

  /** The condition of `RevokedIff` does occur: once one more rotation is completed, a copy of the
      previous one that is still on its way revokes the device session. */
  lemma LateCopyRevokes(w: World, s: SessionId, random: string, rotationId: string)
    requires CanStart(w, s, random, rotationId)
    requires w.server.committed.Some? && w.client.store.value.pending.None?
    requires w.server.committed.value in w.wire
    ensures var late := w.server.committed.value;
      var p := IntentFor(w.client.store.value, random, rotationId).value;
      var after := Run(Run(w, StartSteps(s, random, rotationId)), ExchangeSteps(p));
      Inv(after) && Step(after, DoDeliver(late)).server.revoked
  {
    var late := w.server.committed.value;
    var p := IntentFor(w.client.store.value, random, rotationId).value;
    StartPersistsIntent(w, s, random, rotationId);
    var started := Run(w, StartSteps(s, random, rotationId));
    ExchangeCompletes(started);
    var after := Run(started, ExchangeSteps(p));
    assert WasCommitted(started, late);
    RevokesIff(after, late);
  }

  // ------------------------------------------------------ logout and stale caches

  /** When the store has lost the credential, a flight presents what its session cached: that
      revokes the device session exactly when the cached tokens are out of date. */
  lemma MissingStoreRevokesIff(w: World, random: string, rotationId: string)
    requires ServerInv(w) && w.client.store.None? && w.client.due == map[]
    requires w.client.flight.Some? && w.client.flight.value.phase == Reading
    requires var cached := w.client.flight.value.cached;
      && IntentFor(cached, random, rotationId).Some?
      && (NextCredential(cached.credential, random).Some? ==> NextCredential(cached.credential, random).value !in w.drawn)
    ensures var cached := w.client.flight.value.cached;
      var p := IntentFor(cached, random, rotationId).value;
      var sent := Run(Step(w, DoRead), [DoIntend(random, rotationId), DoSend, DoDeliver(p)]);
      sent.server.revoked <==>
        if cached.pending.None? then cached.credential != w.server.current
        else cached.pending != w.server.committed && cached.pending.value.previous != w.server.current
  {
    var p := IntentFor(w.client.flight.value.cached, random, rotationId).value;
    RunThree(Step(w, DoRead), DoIntend(random, rotationId), DoSend, DoDeliver(p));
  }

  /** A completed rotation leaves every other session's cached tokens out of date. */
  lemma OthersAreStale(w: World, s: SessionId, t: SessionId, random: string, rotationId: string)
    requires CanStart(w, s, random, rotationId) && w.client.store.value.pending.None?
    requires s != t && t in w.client.sessions && w.client.sessions[t] == w.client.store.value
    ensures var p := IntentFor(w.client.store.value, random, rotationId).value;
      var rotated := Run(Run(w, StartSteps(s, random, rotationId)), ExchangeSteps(p));
      && Idle(rotated)
      && t in rotated.client.sessions && rotated.client.sessions[t].pending.None?
      && rotated.client.sessions[t].credential != rotated.server.current
  {
    var p := IntentFor(w.client.store.value, random, rotationId).value;
    StartPersistsIntent(w, s, random, rotationId);
    ExchangeCompletes(Run(w, StartSteps(s, random, rotationId)));
  }

  /** Counterexample: after such a rotation one session logs out without the server hearing of
      it, and the stale one refreshes. */
  lemma LogoutLeavesStaleSession(w: World, s: SessionId, t: SessionId, random: string, rotationId: string)
    requires Idle(w) && s != t && s in w.client.sessions && t in w.client.sessions
    requires w.client.sessions[t].pending.None? && w.client.sessions[t].credential != w.server.current
    requires IntentFor(w.client.sessions[t], random, rotationId).Some?
    requires IntentFor(w.client.sessions[t], random, rotationId).value.next !in w.drawn
    ensures var q := IntentFor(w.client.sessions[t], random, rotationId).value;
      var reading := Step(Step(Step(w, DoLogout(s)), DoRefresh(t)), DoRead);
      Run(reading, [DoIntend(random, rotationId), DoSend, DoDeliver(q)]).server.revoked
  {
    MissingStoreRevokesIff(Step(Step(w, DoLogout(s)), DoRefresh(t)), random, rotationId);
  }

  // ------------------------------------------------------------- legacy fallback

  /** What becomes of one attempt against a server without the recovery route: the 404 comes
      before any change, then the old endpoint is asked with the previous credential. */
  datatype Attempt = NotDelivered | ResponseLost | Answered

  /** The old endpoint draws the next credential itself; credentials are numbered. */
  datatype Legacy = Legacy(stored: nat, current: nat, revoked: bool)

  function LegacyStep(l: Legacy, attempt: Attempt): Legacy {
    if attempt.NotDelivered? || l.revoked then l
    else if l.stored != l.current then l.(revoked := true)
    else Legacy(if attempt.Answered? then l.current + 1 else l.stored, l.current + 1, false)
  }

  function LegacyRun(l: Legacy, attempts: seq<Attempt>): Legacy
    decreases |attempts|
  {
    if attempts == [] then l else LegacyRun(LegacyStep(l, attempts[0]), attempts[1..])
  }

  ghost predicate AnyDelivered(attempts: seq<Attempt>) {
    exists j :: 0 <= j < |attempts| && attempts[j] != NotDelivered
  }

  ghost predicate LostThenDelivered(attempts: seq<Attempt>) {
    exists i, j :: 0 <= i < j < |attempts| && attempts[i] == ResponseLost && attempts[j] != NotDelivered
  }

  /** The fallback has no recovery record: it loses the device session exactly when an attempt
      reaches the server after one whose response was lost. */
  lemma {:induction false} LegacyRevokedIff(l: Legacy, attempts: seq<Attempt>)
    requires !l.revoked
    ensures LegacyRun(l, attempts).revoked <==>
      if l.stored == l.current then LostThenDelivered(attempts) else AnyDelivered(attempts)
    decreases |attempts|
  {
    if attempts != [] {
      var rest, next := attempts[1..], LegacyStep(l, attempts[0]);
      AttemptsCons(attempts);
      if next.revoked {
        LegacyRevokedForGood(next, rest);
      } else {
        LegacyRevokedIff(next, rest);
      }
    }
  }

  lemma AttemptsCons(attempts: seq<Attempt>)
    requires attempts != []
    ensures AnyDelivered(attempts) <==> attempts[0] != NotDelivered || AnyDelivered(attempts[1..])
    ensures LostThenDelivered(attempts) <==>
      (attempts[0] == ResponseLost && AnyDelivered(attempts[1..])) || LostThenDelivered(attempts[1..])
  {
    var rest := attempts[1..];
    assert forall k :: 0 < k < |attempts| ==> attempts[k] == rest[k - 1];
    if AnyDelivered(rest) {
      var j :| 0 <= j < |rest| && rest[j] != NotDelivered;
      assert attempts[j + 1] != NotDelivered;
    }
    if LostThenDelivered(rest) {
      var i, j :| 0 <= i < j < |rest| && rest[i] == ResponseLost && rest[j] != NotDelivered;
      assert attempts[i + 1] == ResponseLost && attempts[j + 1] != NotDelivered;
    }
    if LostThenDelivered(attempts) {
      var i, j :| 0 <= i < j < |attempts| && attempts[i] == ResponseLost && attempts[j] != NotDelivered;
      assert rest[j - 1] != NotDelivered;
      assert i > 0 ==> rest[i - 1] == ResponseLost;
    }
  }

  lemma {:induction false} LegacyRevokedForGood(l: Legacy, attempts: seq<Attempt>)
    requires l.revoked
    ensures LegacyRun(l, attempts) == l
    decreases |attempts|
  {
    if attempts != [] {
      LegacyRevokedForGood(LegacyStep(l, attempts[0]), attempts[1..]);
    }
  }
}
