/** Sequence and nonce discipline of `WebSocketEncryptedRelayChannel`
    (apps/mobile/src/control-plane/relay-channel.ts). Sealing is abstract: a box opens with the
    nonce it was sealed with and with no other, and nobody else can make one that opens. */
module RelayChannel {
  import opened OrderedMap
  import opened RelayCodec

  /** What a listener is called with. */
  type Body(==, !new)

  const SEAL_OVERHEAD: nat := 16
  const CLIENT: nat := 1
  const PEER: nat := 2

  /** Only the deflate flag is known to the frame format. */
  predicate KnownFlags(flags: int) {
    flags == 0 || flags == 1
  }

  /** A packed message: its flags and its length in bytes, and what its payload says when it is
      taken as it is and when it is inflated; None where that cannot be parsed. */
  datatype Message = Message(cancel: bool, flags: int, size: nat, asItIs: Option<Body>, inflated: Option<Body>) {
    predicate Valid() {
      KnownFlags(flags)
    }

    /** `unpackRelayPayload` and parsing. */
    function Read(flags: int): Option<Body> {
      if flags == 1 then inflated else asItIs
    }

    /** What its sender has packed can be read. */
    predicate Readable() {
      Read(flags).Some?
    }
  }

  datatype Box = Sealed(nonce: NonceKey, message: Message) | Forged

  const COUNTER_WRAP: nat := 0x1_0000_0000_0000

  /** What distinguishes one nonce from another. */
  datatype NonceKey = NonceKey(direction: nat, counter: nat)

  function KeyOf(direction: nat, counter: nat): NonceKey {
    NonceKey(direction % 256, counter % COUNTER_WRAP)
  }

  /** Two nonces have the same bytes exactly when they have the same key. */
  lemma KeyIsNonce(d1: nat, c1: nat, d2: nat, c2: nat)
    ensures KeyOf(d1, c1) == KeyOf(d2, c2) <==> NonceBytes(d1, c1) == NonceBytes(d2, c2)
  {
    NonceEqualIff(d1, c1, d2, c2);
  }

  /** A frame on the wire, its payload being the box. Kind, sequence and flags are outside it. */
  datatype Wire = Wire(kind: Kind, sequence: int, flags: int, box: Box)

  function Opened(box: Box, nonce: NonceKey): Option<Message> {
    if box.Sealed? && box.nonce == nonce then Some(box.message) else None
  }

  /** `encodeRelayFrame` accepts the frame: its sequence and its sealed payload fit. */
  predicate Fits(sequence: int, m: Message) {
    0 <= sequence <= 0xffff_ffff && m.size + SEAL_OVERHEAD <= RELAY_FRAME_MAX_PAYLOAD_BYTES
  }

  function Framed(direction: nat, counter: nat, m: Message): Wire {
    Wire(if m.cancel then Cancel else Data, counter + 1, m.flags, Sealed(KeyOf(direction, counter), m))
  }

  /** The condition is that of the frame format. */
  lemma FitsIsEncodable(kind: Kind, sequence: int, m: Message, payload: seq<Byte>)
    requires m.Valid() && |payload| == m.size + SEAL_OVERHEAD
    ensures Fits(sequence, m) <==> EncodeFrame(Frame(kind, sequence, m.flags, payload)).Ok?
  {
  }

  // ------------------------------------------------------------------ sending

  datatype SendResult = Sent | ChannelClosed | Backpressure | FrameRefused

  /** What has been put on the wire after sealing these messages, the first one as frame 1 with
      counter 0 (frame 0 is the handshake). A message that does not fit is sealed but not sent. */
  function SentOf(direction: nat, sealed: seq<Message>): seq<Wire> {
    if sealed == [] then []
    else
      var n := |sealed| - 1;
      SentOf(direction, sealed[..n]) + if Fits(n + 1, sealed[n]) then [Framed(direction, n, sealed[n])] else []
  }

  // ----------------------------------------------------------------- receiving

  datatype Receiver = Receiver(sequence: nat, counter: nat, closed: bool, delivered: seq<Body>)

  const LISTENING := Receiver(1, 0, false, [])

  /** `receive`; None stands for bytes that are no frame. The payload is unpacked with the flags of
      the frame, which are outside the box. */
  function Receive(r: Receiver, direction: nat, wire: Option<Wire>): Receiver {
    if r.closed then r
    else if wire.None? || !KnownFlags(wire.value.flags) then r.(closed := true)
    else if wire.value.sequence != r.sequence then r.(sequence := r.sequence + 1, closed := true)
    else
      var unsealed := Opened(wire.value.box, KeyOf(direction, r.counter));
      var body := if unsealed.None? then None else unsealed.value.Read(wire.value.flags);
      if body.None? then r.(sequence := r.sequence + 1, counter := r.counter + 1, closed := true)
      else Receiver(r.sequence + 1, r.counter + 1, false, r.delivered + [body.value])
  }

  function ReceiveAll(direction: nat, wires: seq<Option<Wire>>): Receiver {
    if wires == [] then LISTENING else Receive(ReceiveAll(direction, wires[..|wires| - 1]), direction, wires[|wires| - 1])
  }

  // ------------------------------------------------------------- the channel

  /** Both directions of a channel. What has been written follows from what was sealed; `renewals`
      counts the requests for a renewal, which are text and no frames. */
  datatype Channel = Channel(sealed: seq<Message>, renewals: nat, receiver: Receiver)

  datatype Action =
    | Sends(m: Message, ready: bool, congested: bool)
    | Renews(ready: bool, granted: bool)
    | Receives(wire: Option<Wire>)
    | ReceivesControl(valid: bool)

  /** `granted` says that the new grant is for this session. */
  function Step(c: Channel, a: Action): Channel {
    match a
    case Sends(m, ready, congested) => if ready && !congested then c.(sealed := c.sealed + [m]) else c
    case Renews(ready, granted) =>
      if !c.receiver.closed && ready && granted then c.(renewals := c.renewals + 1) else c
    case Receives(wire) => c.(receiver := Receive(c.receiver, PEER, wire))
    case ReceivesControl(valid) => if valid then c else c.(receiver := c.receiver.(closed := true))
  }

  const OPENED := Channel([], 0, LISTENING)

  function Run(actions: seq<Action>): Channel {
    if actions == [] then OPENED else Step(Run(actions[..|actions| - 1]), actions[|actions| - 1])
  }

  class EncryptedRelayChannel {
    var sendCounter: nat
    var sendSequence: nat
    var receiveCounter: nat
    var receiveSequence: nat
    var closedFlag: bool
    var written: seq<Wire>
    var delivered: seq<Body>
    var renewals: nat
    ghost var sealed: seq<Message>

    ghost predicate Valid()
      reads this
    {
      && sendCounter == |sealed| && sendSequence == |sealed| + 1
      && written == SentOf(CLIENT, sealed)
    }

    ghost function State(): Channel
      reads this
    {
      Channel(sealed, renewals, Receiver(receiveSequence, receiveCounter, closedFlag, delivered))
    }

    constructor ()
      ensures Valid() && State() == OPENED
    {
      sendCounter, sendSequence, receiveCounter, receiveSequence, closedFlag := 0, 1, 0, 1, false;
      written, delivered, sealed, renewals := [], [], [], 0;
    }

    /** Both counters advance before the frame is encoded, so also when encoding refuses it. */
    method Send(m: Message, ready: bool, congested: bool) returns (result: SendResult)
      requires Valid() && m.Valid()
      modifies this
      ensures Valid() && State() == Step(old(State()), Sends(m, ready, congested))
      ensures result == if !ready then ChannelClosed else if congested then Backpressure
                        else if Fits(|old(sealed)| + 1, m) then Sent else FrameRefused
      ensures written == if result == Sent then old(written) + [Framed(CLIENT, |old(sealed)|, m)] else old(written)
    {
      if !ready {
        return ChannelClosed;
      }
      if congested {
        return Backpressure;
      }
      var box := Sealed(KeyOf(CLIENT, sendCounter), m);
      sendCounter := sendCounter + 1;
      var sequence := sendSequence;
      sendSequence := sendSequence + 1;
      assert (sealed + [m])[..|sealed|] == sealed;
      sealed := sealed + [m];
      if sequence > 0xffff_ffff || m.size + SEAL_OVERHEAD > RELAY_FRAME_MAX_PAYLOAD_BYTES {
        return FrameRefused;
      }
      written := written + [Wire(if m.cancel then Cancel else Data, sequence, m.flags, box)];
      result := Sent;
    }

    /** A renewal is text control and takes no number. */
    method Renew(ready: bool, granted: bool) returns (asked: bool)
      requires Valid()
      modifies this`renewals
      ensures Valid() && State() == Step(old(State()), Renews(ready, granted))
      ensures asked <==> renewals == old(renewals) + 1
    {
      if closedFlag || !ready || !granted {
        return false;
      }
      renewals := renewals + 1;
      asked := true;
    }

    method OnControl(valid: bool)
      requires Valid()
      modifies this`closedFlag
      ensures Valid() && State() == Step(old(State()), ReceivesControl(valid))
    {
      if !valid {
        closedFlag := true;
      }
    }

    method OnMessage(wire: Option<Wire>)
      requires Valid()
      modifies this`receiveCounter, this`receiveSequence, this`closedFlag, this`delivered
      ensures Valid() && State() == Step(old(State()), Receives(wire))
    {
      if closedFlag {
        return;
      }
      if wire.None? || !KnownFlags(wire.value.flags) {
        closedFlag := true;
        return;
      }
      var expected := receiveSequence;
      receiveSequence := receiveSequence + 1;
      if wire.value.sequence != expected {
        closedFlag := true;
        return;
      }
      var nonce := KeyOf(PEER, receiveCounter);
      receiveCounter := receiveCounter + 1;
      var unsealed := Opened(wire.value.box, nonce);
      if unsealed.None? {
        closedFlag := true;
        return;
      }
      var body := unsealed.value.Read(wire.value.flags);
      if body.None? {
        closedFlag := true;
        return;
      }
      delivered := delivered + [body.value];
    }
  }

  // --------------------------------------------------------- what was sent

  /** The messages of the first `n` seals all fit. */
  ghost predicate AllFit(sealed: seq<Message>, n: nat) {
    n <= |sealed| && forall k :: 0 <= k < n ==> Fits(k + 1, sealed[k])
  }

  /** Every frame on the wire carries its own message with the counter one below its number, and
      numbers increase. */
  lemma {:induction false} SentAre(direction: nat, sealed: seq<Message>)
    ensures var sent := SentOf(direction, sealed);
      && (forall i :: 0 <= i < |sent| ==>
            && 1 <= sent[i].sequence <= |sealed| && Fits(sent[i].sequence, sealed[sent[i].sequence - 1])
            && sent[i] == Framed(direction, sent[i].sequence - 1, sealed[sent[i].sequence - 1]))
      && (forall i, j :: 0 <= i < j < |sent| ==> sent[i].sequence < sent[j].sequence)
      && |sent| <= |sealed|
  {
    if sealed != [] {
      SentAre(direction, sealed[..|sealed| - 1]);
    }
  }

  /** The same field by field: the kind tells a cancellation, number and flags are the message's, and
      the box opens for this direction with the counter one below the number. */
  lemma SentFields(direction: nat, sealed: seq<Message>, i: nat)
    requires i < |SentOf(direction, sealed)|
    ensures var frame := SentOf(direction, sealed)[i];
      && 1 <= frame.sequence <= |sealed|
      && var m := sealed[frame.sequence - 1];
      && (if m.cancel then frame.kind == Cancel else frame.kind == Data) && frame.flags == m.flags
      && Opened(frame.box, KeyOf(direction, frame.sequence - 1)) == Some(m)
      && 0 <= frame.sequence <= 0xffff_ffff && m.size + 16 <= 1048576
  {
    SentAre(direction, sealed);
    var frame := SentOf(direction, sealed)[i];
    assert frame == Framed(direction, frame.sequence - 1, sealed[frame.sequence - 1]);
  }

  /** Every message that fits is sent. */
  lemma {:induction false} FittingAreSent(direction: nat, sealed: seq<Message>, k: nat)
    requires k < |sealed| && Fits(k + 1, sealed[k])
    ensures exists i :: 0 <= i < |SentOf(direction, sealed)| && SentOf(direction, sealed)[i].sequence == k + 1
  {
    var n := |sealed| - 1;
    var before := SentOf(direction, sealed[..n]);
    if k < n {
      FittingAreSent(direction, sealed[..n], k);
      var i :| 0 <= i < |before| && before[i].sequence == k + 1;
      assert SentOf(direction, sealed)[i].sequence == k + 1;
    } else {
      assert SentOf(direction, sealed)[|before|].sequence == k + 1;
    }
  }

  lemma {:induction false} SentWhileFitting(direction: nat, sealed: seq<Message>)
    requires AllFit(sealed, |sealed|)
    ensures |SentOf(direction, sealed)| == |sealed|
    ensures forall k :: 0 <= k < |sealed| ==> SentOf(direction, sealed)[k] == Framed(direction, k, sealed[k])
  {
    if sealed != [] {
      SentWhileFitting(direction, sealed[..|sealed| - 1]);
    }
  }

  /** A message that does not fit comes before one that does. */
  ghost predicate RefusedBeforeSent(sealed: seq<Message>) {
    exists i, j :: 0 <= i < j < |sealed| && !Fits(i + 1, sealed[i]) && Fits(j + 1, sealed[j])
  }

  ghost predicate Numbered(wires: seq<Wire>) {
    forall k :: 0 <= k < |wires| ==> wires[k].sequence == k + 1
  }

  /** The frames are numbered 1, 2, 3, ... without a gap exactly when no message was refused before
      another one was sent. */
  lemma {:induction false} ContiguousIff(direction: nat, sealed: seq<Message>)
    ensures Numbered(SentOf(direction, sealed)) <==> !RefusedBeforeSent(sealed)
  {
    if sealed != [] {
      var n := |sealed| - 1;
      var front := sealed[..n];
      ContiguousIff(direction, front);
      RefusedStep(sealed);
      SentStep(direction, sealed);
      FullLength(direction, front);
    }
  }

  lemma FullLength(direction: nat, sealed: seq<Message>)
    ensures |SentOf(direction, sealed)| <= |sealed|
    ensures |SentOf(direction, sealed)| == |sealed| <==> AllFit(sealed, |sealed|)
  {
    SentAre(direction, sealed);
    if AllFit(sealed, |sealed|) {
      SentWhileFitting(direction, sealed);
    } else {
      RefusedShortens(direction, sealed);
    }
  }

  lemma SentStep(direction: nat, sealed: seq<Message>)
    requires sealed != []
    ensures var n := |sealed| - 1; var before := SentOf(direction, sealed[..n]);
      Numbered(SentOf(direction, sealed)) <==> Numbered(before) && (Fits(n + 1, sealed[n]) ==> |before| == n)
  {
    var n := |sealed| - 1;
    var before, after := SentOf(direction, sealed[..n]), SentOf(direction, sealed);
    assert forall k :: 0 <= k < |before| ==> after[k] == before[k];
    assert Fits(n + 1, sealed[n]) ==> after[|before|].sequence == n + 1;
  }

  lemma RefusedStep(sealed: seq<Message>)
    requires sealed != []
    ensures var n := |sealed| - 1;
      RefusedBeforeSent(sealed) <==> RefusedBeforeSent(sealed[..n]) || (Fits(n + 1, sealed[n]) && !AllFit(sealed[..n], n))
  {
    var n := |sealed| - 1;
    assert forall k :: 0 <= k < n ==> sealed[..n][k] == sealed[k];
    if RefusedBeforeSent(sealed[..n]) {
      var i, j :| 0 <= i < j < n && !Fits(i + 1, sealed[..n][i]) && Fits(j + 1, sealed[..n][j]);
      assert !Fits(i + 1, sealed[i]) && Fits(j + 1, sealed[j]);
    }
    if Fits(n + 1, sealed[n]) && !AllFit(sealed[..n], n) {
      var i :| 0 <= i < n && !Fits(i + 1, sealed[..n][i]);
      assert !Fits(i + 1, sealed[i]);
    }
  }

  lemma {:induction false} RefusedShortens(direction: nat, sealed: seq<Message>)
    requires !AllFit(sealed, |sealed|)
    ensures |SentOf(direction, sealed)| < |sealed|
  {
    var n := |sealed| - 1;
    SentAre(direction, sealed[..n]);
    if Fits(n + 1, sealed[n]) {
      assert !AllFit(sealed[..n], n) by {
        var i :| 0 <= i < |sealed| && !Fits(i + 1, sealed[i]);
        assert sealed[..n][i] == sealed[i];
      }
      RefusedShortens(direction, sealed[..n]);
    }
  }

  /** No nonce goes over the wire twice in one direction, and none is used in both. */
  lemma NoNonceTwice(d1: nat, first: seq<Message>, d2: nat, second: seq<Message>, i: nat, j: nat)
    requires i < |SentOf(d1, first)| && j < |SentOf(d2, second)|
    requires (d1 == CLIENT && d2 == PEER) || (d1 == d2 && first == second && i < j)
    ensures SentOf(d1, first)[i].box.Sealed? && SentOf(d2, second)[j].box.Sealed?
    ensures SentOf(d1, first)[i].box.nonce != SentOf(d2, second)[j].box.nonce
  {
    SentAre(d1, first);
    SentAre(d2, second);
  }

  /** The bound is exact: a nonce repeats after 2 to the power of 48 seals, and not earlier. */
  lemma NonceWraps(direction: nat, counter: nat, later: nat)
    requires counter < later
    ensures later == counter + COUNTER_WRAP ==> NonceBytes(direction, counter) == NonceBytes(direction, later)
    ensures later < counter + COUNTER_WRAP ==> NonceBytes(direction, counter) != NonceBytes(direction, later)
  {
    KeyIsNonce(direction, counter, direction, later);
    if later <= counter + COUNTER_WRAP {
      WrapMod(counter, later);
    }
  }

  lemma WrapMod(counter: nat, later: nat)
    requires counter < later <= counter + COUNTER_WRAP
    ensures counter % COUNTER_WRAP == later % COUNTER_WRAP <==> later == counter + COUNTER_WRAP
  {
  }

  // ----------------------------------------------------------- interleavings

  /** The messages that the sends of a run have sealed. */
  function SealedIn(actions: seq<Action>): seq<Message> {
    if actions == [] then []
    else
      var last := actions[|actions| - 1];
      SealedIn(actions[..|actions| - 1]) + if last.Sends? && last.ready && !last.congested then [last.m] else []
  }

  /** What an action brings in; an invalid control text ends the channel like bytes that are no
      frame. */
  function InputOf(a: Action): seq<Option<Wire>> {
    match a
    case Receives(wire) => [wire]
    case ReceivesControl(valid) => if valid then [] else [None]
    case _ => []
  }

  function InputsIn(actions: seq<Action>): seq<Option<Wire>> {
    if actions == [] then [] else InputsIn(actions[..|actions| - 1]) + InputOf(actions[|actions| - 1])
  }

  lemma {:induction false} RunSeals(actions: seq<Action>)
    ensures Run(actions).sealed == SealedIn(actions)
  {
    if actions != [] {
      RunSeals(actions[..|actions| - 1]);
    }
  }

  lemma StepReceives(c: Channel, a: Action, wires: seq<Option<Wire>>)
    requires c.receiver == ReceiveAll(PEER, wires)
    ensures Step(c, a).receiver == ReceiveAll(PEER, wires + InputOf(a))
  {
    if InputOf(a) == [] {
      assert wires + InputOf(a) == wires;
    } else {
      assert (wires + InputOf(a))[..|wires|] == wires;
    }
  }

  lemma {:induction false} RunReceives(actions: seq<Action>)
    ensures Run(actions).receiver == ReceiveAll(PEER, InputsIn(actions))
  {
    if actions != [] {
      var n := |actions| - 1;
      RunReceives(actions[..n]);
      StepReceives(Run(actions[..n]), actions[n], InputsIn(actions[..n]));
    }
  }

  /** However sends, renewals and receptions interleave, each direction goes as if it were alone:
      renewals and receptions take no number and leave no gap among the frames, and neither sends
      nor renewals move what is expected next. */
  lemma DirectionsAreIndependent(actions: seq<Action>)
    ensures Run(actions).sealed == SealedIn(actions)
    ensures Run(actions).receiver == ReceiveAll(PEER, InputsIn(actions))
    ensures Numbered(SentOf(CLIENT, Run(actions).sealed)) <==> !RefusedBeforeSent(SealedIn(actions))
  {
    RunSeals(actions);
    RunReceives(actions);
    ContiguousIff(CLIENT, SealedIn(actions));
  }

  // ----------------------------------------------------- what is delivered

  /** The network may drop, repeat, reorder, renumber, flag and invent frames, and reflect the
      client's own; it cannot seal. */
  ghost predicate FromNetwork(wire: Option<Wire>, ours: seq<Message>, theirs: seq<Message>) {
    wire.Some? && wire.value.box.Sealed? ==>
      || (exists k :: 0 <= k < |SentOf(CLIENT, ours)| && SentOf(CLIENT, ours)[k].box == wire.value.box)
      || (exists k :: 0 <= k < |SentOf(PEER, theirs)| && SentOf(PEER, theirs)[k].box == wire.value.box)
  }

  /** A box that was sent opens for the receiver's next nonce only if it is the next one that the
      peer sealed. */
  lemma SentBoxOpens(direction: nat, sealed: seq<Message>, k: nat, counter: nat)
    requires (direction == CLIENT || direction == PEER) && k < |SentOf(direction, sealed)| && counter <= 0xffff_ffff
    requires Opened(SentOf(direction, sealed)[k].box, KeyOf(PEER, counter)).Some?
    ensures direction == PEER && counter < |sealed| && Fits(counter + 1, sealed[counter])
    ensures Opened(SentOf(direction, sealed)[k].box, KeyOf(PEER, counter)).value == sealed[counter]
  {
    SentAre(direction, sealed);
    var sequence := SentOf(direction, sealed)[k].sequence;
    assert SentOf(direction, sealed)[k] == Framed(direction, sequence - 1, sealed[sequence - 1]);
  }

  lemma OpensInOrder(wire: Wire, ours: seq<Message>, theirs: seq<Message>, counter: nat)
    requires FromNetwork(Some(wire), ours, theirs) && counter <= 0xffff_ffff
    requires Opened(wire.box, KeyOf(PEER, counter)).Some?
    ensures counter < |theirs| && Fits(counter + 1, theirs[counter])
    ensures Opened(wire.box, KeyOf(PEER, counter)).value == theirs[counter]
  {
    if k :| 0 <= k < |SentOf(PEER, theirs)| && SentOf(PEER, theirs)[k].box == wire.box {
      SentBoxOpens(PEER, theirs, k, counter);
    } else {
      var k :| 0 <= k < |SentOf(CLIENT, ours)| && SentOf(CLIENT, ours)[k].box == wire.box;
      SentBoxOpens(CLIENT, ours, k, counter);
    }
  }

  /** Every delivered body was read from the peer's message of the same place, with the flags of the
      frame that brought it. */
  ghost predicate ReadInOrder(wires: seq<Option<Wire>>, delivered: seq<Body>, theirs: seq<Message>) {
    && |delivered| <= |theirs| && |delivered| <= |wires|
    && forall k :: 0 <= k < |delivered| ==> wires[k].Some? && theirs[k].Read(wires[k].value.flags) == Some(delivered[k])
  }

  ghost predicate ReceiverInv(r: Receiver, wires: seq<Option<Wire>>, theirs: seq<Message>) {
    && ReadInOrder(wires, r.delivered, theirs) && AllFit(theirs, |r.delivered|)
    && (!r.closed ==> r.counter == |r.delivered| == |wires| && r.sequence == r.counter + 1)
  }

  lemma ReceiveKeepsInv(r: Receiver, wires: seq<Option<Wire>>, wire: Option<Wire>, ours: seq<Message>, theirs: seq<Message>)
    requires ReceiverInv(r, wires, theirs) && FromNetwork(wire, ours, theirs)
    ensures ReceiverInv(Receive(r, PEER, wire), wires + [wire], theirs)
  {
    assert forall k :: 0 <= k < |r.delivered| ==> (wires + [wire])[k] == wires[k];
    if !r.closed && wire.Some? && wire.value.sequence == r.sequence {
      assert r.counter > 0 ==> Fits(r.counter, theirs[r.counter - 1]);
      if Opened(wire.value.box, KeyOf(PEER, r.counter)).Some? {
        OpensInOrder(wire.value, ours, theirs, r.counter);
      }
    }
  }

  /** Channel sequencing: whatever the network does, what is delivered comes from the first messages
      that the peer sealed, in order and each once, every one of them was really sent, and each is
      what the peer packed exactly when the frame carried the peer's flags, or when it made no
      difference to this message whether it is inflated. */
  lemma DeliveredIsPrefix(wires: seq<Option<Wire>>, ours: seq<Message>, theirs: seq<Message>)
    requires forall i :: 0 <= i < |wires| ==> FromNetwork(wires[i], ours, theirs)
    requires forall k :: 0 <= k < |theirs| ==> theirs[k].Valid()
    ensures var delivered := ReceiveAll(PEER, wires).delivered; var sent := SentOf(PEER, theirs);
      && ReadInOrder(wires, delivered, theirs) && |delivered| <= |sent|
      && forall k :: 0 <= k < |delivered| ==>
           && sent[k] == Framed(PEER, k, theirs[k])
           && (theirs[k].Read(theirs[k].flags) == Some(delivered[k]) <==>
                 wires[k].value.flags == theirs[k].flags || theirs[k].asItIs == theirs[k].inflated)
  {
    ReceivedInOrder(wires, ours, theirs);
    FlagsAreKnown(wires);
    var delivered := ReceiveAll(PEER, wires).delivered;
    SentWhileFitting(PEER, theirs[..|delivered|]);
    SentPrefix(PEER, theirs, |delivered|);
    forall k | 0 <= k < |delivered|
      ensures SentOf(PEER, theirs)[k] == Framed(PEER, k, theirs[k])
      ensures theirs[k].Read(theirs[k].flags) == Some(delivered[k]) <==>
                wires[k].value.flags == theirs[k].flags || theirs[k].asItIs == theirs[k].inflated
    {
      assert SentOf(PEER, theirs[..|delivered|])[k] == Framed(PEER, k, theirs[..|delivered|][k]);
      assert theirs[k].Valid() && KnownFlags(wires[k].value.flags);
    }
  }

  lemma {:induction false} FlagsAreKnown(wires: seq<Option<Wire>>)
    ensures var r := ReceiveAll(PEER, wires);
      && |r.delivered| <= |wires| && (!r.closed ==> |r.delivered| == |wires|)
      && forall k :: 0 <= k < |r.delivered| ==> wires[k].Some? && KnownFlags(wires[k].value.flags)
  {
    if wires != [] {
      FlagsAreKnown(wires[..|wires| - 1]);
    }
  }

  /** Counterexample without that condition: the same box in a frame whose deflate flag was changed
      closes the channel, or delivers what the payload says the other way. */
  lemma ChangedFlag(m: Message, wire: Wire)
    requires m.Valid() && m.Readable() && m.asItIs != m.inflated
    requires wire == Framed(PEER, 0, m).(flags := 1 - m.flags)
    ensures FromNetwork(Some(wire), [], [m]) <==> Fits(1, m)
    ensures var r := ReceiveAll(PEER, [Some(wire)]);
      if m.Read(1 - m.flags).None? then r.closed && r.delivered == []
      else r.delivered == [m.Read(1 - m.flags).value] && Some(r.delivered[0]) != m.Read(m.flags)
  {
    assert [Some(wire)][..0] == [] && [m][..0] == [];
    assert ReceiveAll(PEER, [Some(wire)]) == Receive(LISTENING, PEER, Some(wire));
    assert SentOf(PEER, [m]) == if Fits(1, m) then [Framed(PEER, 0, m)] else [];
    assert Fits(1, m) ==> SentOf(PEER, [m])[0].box == wire.box;
  }

  lemma {:induction false} SentPrefix(direction: nat, sealed: seq<Message>, n: nat)
    requires n <= |sealed|
    ensures SentOf(direction, sealed[..n]) <= SentOf(direction, sealed)
  {
    if n < |sealed| {
      var last := |sealed| - 1;
      SentPrefix(direction, sealed[..last], n);
      assert sealed[..last][..n] == sealed[..n];
    } else {
      assert sealed[..n] == sealed;
    }
  }

  lemma {:induction false} ReceivedInOrder(wires: seq<Option<Wire>>, ours: seq<Message>, theirs: seq<Message>)
    requires forall i :: 0 <= i < |wires| ==> FromNetwork(wires[i], ours, theirs)
    ensures ReceiverInv(ReceiveAll(PEER, wires), wires, theirs)
  {
    if wires != [] {
      var n := |wires| - 1;
      ReceivedInOrder(wires[..n], ours, theirs);
      ReceiveKeepsInv(ReceiveAll(PEER, wires[..n]), wires[..n], wires[n], ours, theirs);
      assert wires[..n] + [wires[n]] == wires;
    }
  }

  /** The first frame out of sequence closes the channel, and nothing is delivered any more. */
  lemma {:induction false} ClosedForGood(wires: seq<Option<Wire>>, n: nat)
    requires n < |wires| && (wires[n].None? || wires[n].value.sequence != n + 1)
    ensures ReceiveAll(PEER, wires).closed
    ensures ReceiveAll(PEER, wires).delivered == ReceiveAll(PEER, wires[..n]).delivered
  {
    var last := |wires| - 1;
    if n < last {
      assert wires[..last][..n] == wires[..n];
      ClosedForGood(wires[..last], n);
    } else {
      SequenceCounts(wires[..n]);
    }
  }

  lemma {:induction false} SequenceCounts(wires: seq<Option<Wire>>)
    ensures !ReceiveAll(PEER, wires).closed ==> ReceiveAll(PEER, wires).sequence == |wires| + 1
  {
    if wires != [] {
      SequenceCounts(wires[..|wires| - 1]);
    }
  }

  /** With a faithful network everything arrives as it was packed, as long as every message fits and
      can be read. */
  lemma {:induction false} FaithfulNetworkDelivers(theirs: seq<Message>, wires: seq<Option<Wire>>)
    requires AllFit(theirs, |theirs|)
    requires forall k :: 0 <= k < |theirs| ==> theirs[k].Valid() && theirs[k].Readable()
    requires |wires| == |theirs| && forall k :: 0 <= k < |wires| ==> wires[k] == Some(Framed(PEER, k, theirs[k]))
    ensures var r := ReceiveAll(PEER, wires);
      && r == Receiver(|theirs| + 1, |theirs|, false, r.delivered) && |r.delivered| == |theirs|
      && forall k :: 0 <= k < |theirs| ==> theirs[k].Read(theirs[k].flags) == Some(r.delivered[k])
  {
    if wires != [] {
      var n := |wires| - 1;
      FaithfulNetworkDelivers(theirs[..n], wires[..n]);
    }
  }

  /** Counterexample: after a refused message the next one arrives as frame 2, and even a faithful
      network then ends with a closed channel and nothing delivered. */
  lemma RefusalBreaksChannel(big: Message, small: Message)
    requires !Fits(1, big) && Fits(2, small)
    ensures var wires := SentOf(PEER, [big, small]);
      |wires| == 1 && ReceiveAll(PEER, [Some(wires[0])]).closed && ReceiveAll(PEER, [Some(wires[0])]).delivered == []
  {
    assert [big, small][..1] == [big] && [big][..0] == [];
    assert SentOf(PEER, [big]) == [];
    var wires := SentOf(PEER, [big, small]);
    assert wires == [Framed(PEER, 1, small)];
    assert [Some(wires[0])][..0] == [];
  }

  // ------------------------------------------------------------- what a step does

  /** The flags that are known are those that a frame can carry, and the deflate flag inflates. */
  lemma FlagsMean(m: Message, flags: int)
    ensures KnownFlags(flags) <==> EncodeFrame(Frame(Data, 0, flags, [])).Ok?
    ensures m.Read(0) == m.asItIs && m.Read(1) == m.inflated
  {
  }

  /** Every frame takes a number, every frame in sequence a nonce, and the channel stays open exactly
      if the frame then opens and can be read. */
  lemma ReceiveMeans(r: Receiver, direction: nat, wire: Option<Wire>)
    requires !r.closed
    ensures var after := Receive(r, direction, wire);
      var framed := wire.Some? && (wire.value.flags == 0 || wire.value.flags == 1);
      var inSequence := framed && wire.value.sequence == r.sequence;
      && after.sequence == (if framed then r.sequence + 1 else r.sequence)
      && after.counter == (if inSequence then r.counter + 1 else r.counter)
      && (!after.closed <==>
            && inSequence && wire.value.box.Sealed? && wire.value.box.nonce == KeyOf(direction, r.counter)
            && (if wire.value.flags == 1 then wire.value.box.message.inflated else wire.value.box.message.asItIs).Some?)
      && (after.closed ==> after.delivered == r.delivered)
      && (!after.closed ==> after.delivered == r.delivered + [wire.value.box.message.Read(wire.value.flags).value])
  {
  }

  /** A renewal is asked for on an open channel with a grant for this session, and takes no number. */
  lemma RenewalMeans(c: Channel, ready: bool, granted: bool)
    ensures var after := Step(c, Renews(ready, granted));
      && after.sealed == c.sealed && after.receiver == c.receiver
      && after.renewals == (if c.receiver.closed || !ready || !granted then c.renewals else c.renewals + 1)
  {
  }
}
