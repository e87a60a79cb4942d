/** Two parties and a network. The network may lose, reorder, duplicate and alter messages,
    and put or drop envelopes; the one thing it cannot do is produce a tag that nobody
    computed. Every theorem is about every run. */
module Protocol {
  import opened Wrappers
  import opened Keys
  import opened Ratchet
  import opened X3dh
  import opened Epochs
  import opened EpochLemmas

  datatype Role = Initiator | Responder

  /** `epoch` and the History are bookkeeping: no operation looks at them. The log lists the
      messages this party opened, oldest first. */
  datatype Peer = Peer(session: Option<Session>, epoch: nat, log: seq<Delivery>)

  datatype World = World(history: History, initiator: Peer, responder: Peer)

  datatype Event =
    | Send(role: Role, plaintext: Bytes)
    | Deliver(role: Role, envelope: Option<Envelope>, whisper: Whisper, newKey: KeyId)

  datatype ReceiveError = NoSession | OurOwnBaseKey | Rejected(error: Error)

  function Other(r: Role): Role {
    if r.Initiator? then Responder else Initiator
  }

  function PeerOf(w: World, r: Role): Peer {
    if r.Initiator? then w.initiator else w.responder
  }

  function WithPeer(w: World, r: Role, p: Peer): World {
    if r.Initiator? then w.(initiator := p) else w.(responder := p)
  }

  function Identity(hs: Handshake, r: Role): KeyId {
    if r.Initiator? then hs.initiatorIdentity else hs.responderIdentity
  }

  /** An envelope with the base key of the session is for that session, which its own initiator refuses
      to look up; with another base key it makes either party derive a session as a responder. */
  function SessionFor(hs: Handshake, r: Role, session: Option<Session>, envelope: Option<Envelope>)
    : Result<Session, ReceiveError>
  {
    match envelope
    case None => if session.None? then Failure(NoSession) else Success(session.value)
    case Some(e) =>
      if session.None? || session.value.baseKey != e.pre.baseKey
        then Success(ResponderSession(Claimed(Identity(hs, r), e)))
      else if r.Initiator? then Failure(OurOwnBaseKey)
      else Success(session.value)
  }

  function Receive(hs: Handshake, r: Role, session: Option<Session>, envelope: Option<Envelope>, whisper: Whisper,
                   newKey: KeyId): Result<(Session, Bytes), ReceiveError>
  {
    var s :- SessionFor(hs, r, session, envelope);
    match Decrypt(s, Identity(hs, r), whisper, newKey)
    case Success(v) => Success(v)
    case Failure(e) => Failure(Rejected(e))
  }

  /** The tags the network has seen. */
  ghost predicate Seen(h: History, tag: Tag) {
    tag.Forged? || exists k, i :: 0 <= k < |h.sent| && 0 <= i < |h.sent[k]| && h.sent[k][i].whisper.tag == tag
  }

  /** A delivery can happen when the network can make it up, with a newly generated key pair. */
  ghost predicate Enabled(w: World, e: Event) {
    e.Deliver? ==>
      Seen(w.history, e.whisper.tag) && e.newKey !in w.history.keys && e.newKey != e.whisper.message.ephemeral
  }

  function AfterSend(w: World, r: Role, plaintext: Bytes): World {
    var p, h := PeerOf(w, r), w.history;
    if p.session.None? then w
    else match Encrypt(p.session.value, Identity(h.hs, r), plaintext)
      case Failure(_) => w
      case Success((s, packet)) =>
        if p.epoch < |h.sent| then
          WithPeer(w, r, p.(session := Some(s)))
          .(history := h.(sent := h.sent[p.epoch := h.sent[p.epoch] + [packet]]))
        else w
  }

  ghost function AfterDelivery(w: World, r: Role, envelope: Option<Envelope>, whisper: Whisper, newKey: KeyId): World {
    var p, h, id := PeerOf(w, r), w.history, whisper.message.ephemeral;
    match Receive(h.hs, r, p.session, envelope, whisper, newKey)
    case Failure(_) => w
    case Success((s, plaintext)) =>
      var log := p.log + [Delivery(id, whisper.message.counter, plaintext)];
      if p.session.Some? && id in p.session.value.chains then
        WithPeer(w, r, Peer(Some(s), p.epoch, log))
      else
        WithPeer(w, r, Peer(Some(s), p.epoch + 2, log)).(history := Stepped(h, newKey))
  }

  ghost function Next(w: World, e: Event): World {
    if !Enabled(w, e) then w
    else match e
      case Send(r, plaintext) => AfterSend(w, r, plaintext)
      case Deliver(r, envelope, whisper, newKey) => AfterDelivery(w, r, envelope, whisper, newKey)
  }

  /** The initiator has stored its outgoing session, the responder has not heard of it. */
  function Start(hs: Handshake): World {
    World(History(hs, [hs.signedPreKey, hs.firstEphemeral], [[], []]),
          Peer(Some(OutgoingSession(hs)), 1, []), Peer(None, 0, []))
  }

  ghost function Run(hs: Handshake, events: seq<Event>): World {
    if events == [] then Start(hs)
    else Next(Run(hs, events[..|events| - 1]), events[|events| - 1])
  }

  ghost predicate ValidHandshake(hs: Handshake) {
    hs.initiatorIdentity != hs.responderIdentity && hs.signedPreKey != hs.firstEphemeral
  }

  // The invariant of all runs.

  /** The session the next envelope or message is tried on. */
  function Effective(hs: Handshake, r: Role, session: Option<Session>): Session {
    if session.Some? then session.value
    else if r.Initiator? then OutgoingSession(hs) else ResponderSession(hs)
  }

  ghost predicate Owns(r: Role, k: nat) {
    k % 2 == if r.Initiator? then 1 else 0
  }

  /** Message `i` of epoch `k`, with its plaintext. */
  ghost predicate HonestWhisper(h: History, k: nat, i: nat, w: Whisper, plaintext: Bytes)
    requires ValidHistory(h) && 1 <= k < |h.keys|
  {
    var r := if k % 2 == 1 then Initiator else Responder;
    w == Seal(h.keys[k], i, LastBefore(h, k), Identity(h.hs, r), Identity(h.hs, Other(r)),
              MessageKeyAt(SeedOf(h.hs, h.keys, k), i), plaintext)
  }

  ghost predicate HonestAt(h: History, k: nat, i: nat)
    requires ValidHistory(h) && 1 <= k < |h.sent| && i < |h.sent[k]|
  {
    exists plaintext :: HonestWhisper(h, k, i, h.sent[k][i].whisper, plaintext)
  }

  ghost predicate HonestlySent(h: History)
    requires ValidHistory(h)
  {
    forall k: nat, i: nat {:trigger h.sent[k][i]} :: 1 <= k < |h.sent| && i < |h.sent[k]| ==> HonestAt(h, k, i)
  }

  /** What the log of a party says about what its peer sent. */
  ghost predicate LogIsHonest(h: History, r: Role, log: seq<Delivery>)
    requires ValidHistory(h)
  {
    forall d :: d in log ==> SentAs(h, r, d)
  }

  /** Message `i` of epoch `k` is `whisper`, and the peer of `r` sealed `plaintext` in it. */
  ghost predicate SentBy(h: History, r: Role, k: nat, i: nat, whisper: Whisper, plaintext: Bytes)
    requires ValidHistory(h)
  {
    && 1 <= k < |h.keys| && !Owns(r, k)
    && i < |h.sent[k]| && h.sent[k][i].whisper == whisper
    && HonestWhisper(h, k, i, whisper, plaintext)
  }

  ghost predicate SentAs(h: History, r: Role, d: Delivery)
    requires ValidHistory(h)
  {
    exists k: nat, w: Whisper ::
      SentBy(h, r, k, d.counter, w, d.plaintext) && w.message.ephemeral == d.ephemeral && w.message.counter == d.counter
  }

  ghost predicate PeerInv(h: History, r: Role, p: Peer)
    requires ValidHistory(h)
  {
    var s := Effective(h.hs, r, p.session);
    && Owns(r, p.epoch)
    && Shape(h, s, p.epoch, p.log)
    && s.remoteIdentity == Identity(h.hs, Other(r)) && s.baseKey == h.hs.base
    && LogIsHonest(h, r, p.log)
  }

  ghost predicate EnvelopesInv(w: World) {
    var h := w.history;
    && w.initiator.session.Some?
    && (w.responder.session.None? <==> w.responder.epoch == 0)
    && w.initiator.session.value.pending in {Some(PreKeys(h.hs)), None}
    && Effective(h.hs, Responder, w.responder.session).pending.None?
    && (w.initiator.session.value.pending.None? ==> w.responder.session.Some?)
    && forall k: nat, i: nat {:trigger h.sent[k][i]} :: k < |h.sent| && i < |h.sent[k]| ==>
         || (h.sent[k][i].envelope == Some(Envelope(h.hs.initiatorIdentity, PreKeys(h.hs))) && k % 2 == 1)
         || (h.sent[k][i].envelope == None && w.responder.session.Some?)
  }

  ghost predicate Inv(w: World) {
    && ValidHistory(w.history)
    && HonestlySent(w.history)
    && PeerInv(w.history, Initiator, w.initiator)
    && PeerInv(w.history, Responder, w.responder)
    && EnvelopesInv(w)
  }
}
