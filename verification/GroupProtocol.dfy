/** The owner of sender keys, one receiver of its messages, and the network between them: what
    holds over every run, whatever is delivered, in which order and how often. */
module GroupProtocol {
  import opened Wrappers
  import opened Keys
  import opened SenderKeys
  import opened GroupMessages

  /** What the owner has sent under one key id. */
  datatype Epoch = Epoch(seed: Key, signing: KeyId, sent: seq<Bytes>)

  /** A distribution message, and the number of messages sent before it. */
  datatype Issue = Issue(distribution: Distribution, number: nat)

  /** What the receiver has had of a key id since it last processed it. Numbers wrap on the
      wire: iteration `i` of the receiver's chain is message number `base + i`. */
  datatype Account = Account(generation: nat, base: nat, from: nat, used: set<int>)

  datatype Opening = Opening(keyId: nat, generation: nat, iteration: nat, number: nat, plaintext: Bytes)

  datatype World = World(
    epochs: map<nat, Epoch>, owner: seq<State>, issued: set<Issue>,
    receiver: seq<State>, accounts: map<nat, Account>, log: seq<Opening>)

  datatype Event =
    | CreateSession(keys: NewKeys) | RotateKey(keys: NewKeys) | Send(plaintext: Bytes)
    | ProcessDistribution(issue: Issue) | Deliver(m: Message)

  const START := World(map[], [], {}, [], map[], [])

  /** Message number `n` under a key id. */
  ghost function Sent(e: Epoch, keyId: nat, n: nat): Message
    requires n < |e.sent|
  {
    SignedMessage(keyId, n, MessageKeyAt(e.seed, n), e.signing, e.sent[n])
  }

  ghost predicate WasSent(e: Epoch, keyId: nat, s: Signature) {
    exists n: nat :: n < |e.sent| && Sent(e, keyId, n).signature == s
  }

  /** Nobody but the owner signs with the owner's keys; anything else may be delivered. */
  ghost predicate Unforged(w: World, m: Message) {
    forall k {:trigger w.epochs[k]} ::
      k in w.epochs && m.signature.Signed? && m.signature.signer == w.epochs[k].signing ==>
        WasSent(w.epochs[k], k, m.signature)
  }

  ghost predicate New(w: World, k: NewKeys) {
    k.keyId !in w.epochs && forall j :: j in w.epochs ==> w.epochs[j].signing != k.signing
  }

  ghost predicate Enabled(w: World, e: Event) {
    match e
    case CreateSession(k) => New(w, k)
    case RotateKey(k) => New(w, k)
    case Send(_) => true
    case ProcessDistribution(i) => i in w.issued
    case Deliver(m) => Unforged(w, m)
  }

  ghost function Published(w: World): World {
    if w.owner == [] then w
    else
      var s := w.owner[|w.owner| - 1];
      w.(issued := w.issued + {Issue(Distribute(s), s.iteration)})
  }

  ghost function Begun(w: World, k: NewKeys, owner: seq<State>): World {
    w.(owner := owner, epochs := w.epochs[k.keyId := Epoch(Random(k.seed), k.signing, [])])
  }

  ghost function Recorded(epochs: map<nat, Epoch>, keyId: nat, plaintext: Bytes): map<nat, Epoch> {
    if keyId in epochs then epochs[keyId := epochs[keyId].(sent := epochs[keyId].sent + [plaintext])] else epochs
  }

  ghost function AccountOf(w: World, keyId: nat): Account {
    if keyId in w.accounts then w.accounts[keyId] else Account(0, 0, 0, {})
  }

  ghost function Reopened(w: World, i: Issue): Account {
    var d := i.distribution;
    Account(AccountOf(w, d.keyId).generation + 1, if i.number < d.iteration then 0 else i.number - d.iteration,
            d.iteration, {})
  }

  ghost function Delivered(w: World, m: Message, receiver: seq<State>, plaintext: Bytes): World {
    var a := AccountOf(w, m.keyId);
    w.(receiver := receiver,
       accounts := w.accounts[m.keyId := a.(used := a.used + {m.iteration})],
       log := w.log + [Opening(m.keyId, a.generation, m.iteration, a.base + m.iteration, plaintext)])
  }

  ghost function Next(w: World, e: Event): World {
    match e
    case CreateSession(k) =>
      var owner := Create(w.owner, k);
      Published(if owner == w.owner then w else Begun(w, k, owner))
    case RotateKey(k) => Published(Begun(w, k, Rotate(k)))
    case Send(p) =>
      (match Encrypt(w.owner, p)
       case Failure(_) => w
       case Success(v) => w.(owner := v.0, epochs := Recorded(w.epochs, v.1.keyId, p)))
    case ProcessDistribution(i) =>
      w.(receiver := Process(w.receiver, i.distribution),
         accounts := w.accounts[i.distribution.keyId := Reopened(w, i)])
    case Deliver(m) =>
      (match Decrypt(w.receiver, m)
       case Failure(_) => w
       case Success(v) => Delivered(w, m, v.0, v.1))
  }

  ghost predicate Runs(events: seq<Event>) {
    events != [] ==> Runs(events[..|events| - 1]) && Enabled(Run(events[..|events| - 1]), events[|events| - 1])
  }

  ghost function Run(events: seq<Event>): World {
    if events == [] then START else Next(Run(events[..|events| - 1]), events[|events| - 1])
  }

  // The invariant.

  ghost predicate EpochsDiffer(epochs: map<nat, Epoch>) {
    && (forall k :: k in epochs ==> epochs[k].seed.Random?)
    && forall j, k :: j in epochs && k in epochs && j != k ==> epochs[j].signing != epochs[k].signing
  }

  /** The owner's state is at the number of the next message, and nothing has been skipped. */
  ghost predicate OwnerAt(epochs: map<nat, Epoch>, s: State) {
    && s.keyId in epochs
    && var e := epochs[s.keyId];
       && s.iteration == |e.sent| && s.seed == ChainKeyAt(e.seed, |e.sent|) && s.messageKeys == []
       && s.signingPublic == e.signing && s.signingPrivate == Some(e.signing)
  }

  ghost predicate OwnerInv(w: World) {
    |w.owner| <= 1 && forall s :: s in w.owner ==> OwnerAt(w.epochs, s)
  }

  ghost predicate IsIssue(epochs: map<nat, Epoch>, i: Issue) {
    && i.distribution.keyId in epochs
    && var e := epochs[i.distribution.keyId];
       && i.number <= |e.sent| && i.distribution.iteration == ToUint32(i.number)
       && i.distribution.seed == ChainKeyAt(e.seed, i.number) && i.distribution.signing == e.signing
  }

  ghost predicate IssuesInv(w: World) {
    forall i :: i in w.issued ==> IsIssue(w.epochs, i)
  }

  ghost predicate ReceiverAt(w: World, s: State) {
    && s.keyId in w.epochs && s.keyId in w.accounts && s.signingPublic == w.epochs[s.keyId].signing
    && var a := w.accounts[s.keyId];
       Follows(s, ChainKeyAt(w.epochs[s.keyId].seed, a.base), a.from, a.used)
  }

  ghost predicate ReceiverInv(w: World) {
    && Distinct(w.receiver) && |w.receiver| <= 5
    && forall s :: s in w.receiver ==> ReceiverAt(w, s)
  }

  /** What was opened is what the owner sent under that number, and it is accounted for. */
  ghost predicate IsHonest(w: World, o: Opening) {
    && o.keyId in w.epochs && o.number < |w.epochs[o.keyId].sent|
    && o.plaintext == w.epochs[o.keyId].sent[o.number] && o.iteration == ToUint32(o.number)
    && o.generation <= AccountOf(w, o.keyId).generation
    && (o.generation == AccountOf(w, o.keyId).generation ==> o.iteration in AccountOf(w, o.keyId).used)
  }

  ghost predicate LogInv(w: World) {
    && (forall o :: o in w.log ==> IsHonest(w, o))
    && forall i, j :: 0 <= i < j < |w.log| ==> !SameKey(w.log[i], w.log[j])
  }

  ghost predicate SameKey(o: Opening, p: Opening) {
    o.keyId == p.keyId && o.generation == p.generation && o.iteration == p.iteration
  }

  ghost predicate Inv(w: World) {
    EpochsDiffer(w.epochs) && OwnerInv(w) && IssuesInv(w) && ReceiverInv(w) && LogInv(w)
  }

  // The owner's steps.

  /** What was true of the epochs stays true when messages or epochs are added. */
  ghost predicate Grows(was: map<nat, Epoch>, now: map<nat, Epoch>) {
    forall k :: k in was ==>
      k in now && now[k].seed == was[k].seed && now[k].signing == was[k].signing && was[k].sent <= now[k].sent
  }

  lemma GrowthKeeps(w: World, v: World)
    requires IssuesInv(w) && ReceiverInv(w) && LogInv(w)
    requires Grows(w.epochs, v.epochs) && v.issued == w.issued
    requires v.receiver == w.receiver && v.accounts == w.accounts && v.log == w.log
    ensures IssuesInv(v) && ReceiverInv(v) && LogInv(v)
  {
    forall s | s in v.receiver ensures ReceiverAt(v, s) {
      assert ReceiverAt(w, s);
    }
    forall i | i in v.issued ensures IsIssue(v.epochs, i) {
      assert IsIssue(w.epochs, i);
    }
    forall o | o in v.log ensures IsHonest(v, o) {
      assert IsHonest(w, o);
    }
  }

  lemma BegunKeeps(w: World, k: NewKeys)
    requires Inv(w) && New(w, k)
    ensures Inv(Begun(w, k, Rotate(k)))
  {
    hide ReceiverInv, LogInv, IssuesInv;
    var v := Begun(w, k, Rotate(k));
    GrowthKeeps(w, v);
    assert OwnerAt(v.epochs, NewState(k));
  }

  lemma PublishedKeeps(w: World)
    requires Inv(w)
    ensures Inv(Published(w))
  {
    if w.owner != [] {
      assert w.owner[|w.owner| - 1] in w.owner;
      ReceiverSame(w, Published(w));
    }
  }

  lemma ReceiverSame(w: World, v: World)
    requires v.epochs == w.epochs && v.receiver == w.receiver && v.accounts == w.accounts && v.log == w.log
    ensures ReceiverInv(w) ==> ReceiverInv(v)
    ensures LogInv(w) ==> LogInv(v)
  {
    assert forall s :: ReceiverAt(w, s) == ReceiverAt(v, s);
    assert forall o :: IsHonest(w, o) == IsHonest(v, o);
  }

  /** Message number `n` carries iteration `n` and is sealed with key number `n`; sending never fails
      once there is a session. */
  lemma SendsNumbered(w: World, plaintext: Bytes)
    requires OwnerInv(w) && w.owner != []
    ensures var s := w.owner[0];
            s.keyId in w.epochs && Encrypt(w.owner, plaintext).Success?
            && var v := Recorded(w.epochs, s.keyId, plaintext);
               && Encrypt(w.owner, plaintext).value.1 == Sent(v[s.keyId], s.keyId, |w.epochs[s.keyId].sent|)
               && |Encrypt(w.owner, plaintext).value.0| == 1 && OwnerAt(v, Encrypt(w.owner, plaintext).value.0[0])
  {
    var s := w.owner[0];
    assert s in w.owner;
    assert w.owner == [s];
    var e := w.epochs[s.keyId];
    ChainKeyComposes(e.seed, |e.sent|, 1);
    ChainKeyComposes(e.seed, |e.sent|, 0);
    assert ChainKeyAt(s.seed, 0) == s.seed;
    assert Skipped(s.iteration, s.seed, 0) == [];
  }

  lemma SendKeeps(w: World, plaintext: Bytes)
    requires Inv(w)
    ensures Inv(Next(w, Send(plaintext)))
  {
    if w.owner != [] {
      SendsNumbered(w, plaintext);
      hide Encrypt, OwnerAt, ReceiverInv, LogInv, IssuesInv;
      GrowthKeeps(w, Next(w, Send(plaintext)));
    }
  }

  // The receiver's steps.

  lemma ProcessedFollows(w: World, i: Issue)
    requires IsIssue(w.epochs, i) && EpochsDiffer(w.epochs)
    ensures var d := i.distribution; var a := Reopened(w, i);
            && d.keyId in w.epochs
            && Follows(State(d.keyId, d.iteration, d.seed, d.signing, None, []),
                       ChainKeyAt(w.epochs[d.keyId].seed, a.base), a.from, a.used)
  {
    var d, a := i.distribution, Reopened(w, i);
    ChainKeyComposes(w.epochs[d.keyId].seed, a.base, d.iteration);
    StartFollows(d.keyId, d.iteration, ChainKeyAt(w.epochs[d.keyId].seed, a.base), d.signing, None);
  }

  lemma ProcessKeepsReceiver(w: World, i: Issue)
    requires Inv(w) && i in w.issued
    ensures ReceiverInv(Next(w, ProcessDistribution(i)))
  {
    var d, v := i.distribution, Next(w, ProcessDistribution(i));
    var state := State(d.keyId, d.iteration, d.seed, d.signing, None, []);
    ProcessedFollows(w, i);
    AddStateKeeps(w.receiver, state);
    hide Follows, AddState, Distinct, Reopened;
    forall s | s in v.receiver ensures ReceiverAt(v, s) {
      if s != state {
        assert ReceiverAt(w, s);
      }
    }
  }

  lemma ProcessKeeps(w: World, i: Issue)
    requires Inv(w) && i in w.issued
    ensures Inv(Next(w, ProcessDistribution(i)))
  {
    var v := Next(w, ProcessDistribution(i));
    ProcessKeepsReceiver(w, i);
    hide ReceiverInv, Process;
    forall o | o in v.log ensures IsHonest(v, o) {
      assert IsHonest(w, o);
    }
  }

  lemma {:induction false} RandomChainsInjective(x: nat, m: nat, n: nat)
    requires ChainKeyAt(Random(x), m) == ChainKeyAt(Random(x), n)
    ensures m == n
  {
    if m != 0 && n != 0 {
      RandomChainsInjective(x, m - 1, n - 1);
    }
  }

  /** Opening fixes the number of the message. */
  lemma OpensItsNumber(e: Epoch, keyId: nat, n: nat, base: nat, iteration: nat)
    requires e.seed.Random? && n < |e.sent|
    ensures Open(MessageKeyAt(ChainKeyAt(e.seed, base), iteration), Sent(e, keyId, n).ciphertext)
            == if n == base + iteration then Success(e.sent[n]) else Failure(BadCiphertext)
  {
    ChainKeyComposes(e.seed, base, iteration);
    if ChainKeyAt(e.seed, n) == ChainKeyAt(e.seed, base + iteration) {
      RandomChainsInjective(e.seed.id, n, base + iteration);
    }
  }

  /** What the receiver opens was sent by the owner under that number, and not opened before. */
  lemma OpeningIsHonest(w: World, m: Message)
    requires Inv(w) && Unforged(w, m) && Decrypt(w.receiver, m).Success?
    ensures Find(w.receiver, m.keyId) < |w.receiver| && m.keyId in w.epochs && m.keyId in w.accounts
    ensures var (states, plaintext) := Decrypt(w.receiver, m).value;
            var e, a, i := w.epochs[m.keyId], w.accounts[m.keyId], Find(w.receiver, m.keyId);
            && a.base + m.iteration < |e.sent| && plaintext == e.sent[a.base + m.iteration]
            && m == Sent(e, m.keyId, a.base + m.iteration) && m.iteration !in a.used
            && |states| == |w.receiver| && states == w.receiver[i := states[i]]
            && states[i].keyId == m.keyId && states[i].signingPublic == e.signing
            && Follows(states[i], ChainKeyAt(e.seed, a.base), a.from, a.used + {m.iteration})
  {
    var i := Find(w.receiver, m.keyId);
    var s := w.receiver[i];
    assert s in w.receiver && ReceiverAt(w, s);
    var e, a := w.epochs[m.keyId], w.accounts[m.keyId];
    KeyOfIteration(s, ChainKeyAt(e.seed, a.base), a.from, a.used, m.iteration);
    assert WasSent(e, m.keyId, m.signature);
    var n: nat :| n < |e.sent| && Sent(e, m.keyId, n).signature == m.signature;
    hide Follows, GetSenderKey, OwnerInv, IssuesInv, LogInv, Open;
    OpensItsNumber(e, m.keyId, n, a.base, m.iteration);
  }

  lemma DeliverKeepsReceiver(w: World, m: Message)
    requires Inv(w) && Unforged(w, m) && Decrypt(w.receiver, m).Success?
    ensures ReceiverInv(Next(w, Deliver(m)))
  {
    OpeningIsHonest(w, m);
    hide Decrypt, Follows, OwnerInv, IssuesInv, LogInv, Unforged, Sent;
    var i, v := Find(w.receiver, m.keyId), Next(w, Deliver(m));
    forall j | 0 <= j < |v.receiver|
      ensures ReceiverAt(v, v.receiver[j]) && v.receiver[j].keyId == w.receiver[j].keyId
    {
      if j != i {
        assert w.receiver[j] in w.receiver && ReceiverAt(w, w.receiver[j]);
      }
    }
  }

  lemma DeliverKeepsLog(w: World, m: Message)
    requires Inv(w) && Unforged(w, m) && Decrypt(w.receiver, m).Success?
    ensures LogInv(Next(w, Deliver(m)))
  {
    OpeningIsHonest(w, m);
    hide Decrypt, Follows, OwnerInv, IssuesInv, ReceiverInv, Unforged;
    var v := Next(w, Deliver(m));
    forall o | o in v.log ensures IsHonest(v, o) {
      if o in w.log {
        assert IsHonest(w, o);
      }
    }
    forall i | 0 <= i < |w.log| ensures !SameKey(w.log[i], v.log[|w.log|]) {
      assert w.log[i] in w.log && IsHonest(w, w.log[i]);
    }
  }

  lemma DeliverKeeps(w: World, m: Message)
    requires Inv(w) && Unforged(w, m)
    ensures Inv(Next(w, Deliver(m)))
  {
    if Decrypt(w.receiver, m).Success? {
      DeliverKeepsReceiver(w, m);
      DeliverKeepsLog(w, m);
      hide Decrypt, LogInv, ReceiverInv;
    }
  }

  /** Only an empty record gets a state. */
  lemma CreatesOnce(owner: seq<State>, k: NewKeys)
    ensures Create(owner, k) == if owner == [] then [State(k.keyId, 0, Random(k.seed), k.signing, Some(k.signing), [])]
                                else owner
  {
  }

  lemma NextKeepsInv(w: World, e: Event)
    requires Inv(w) && Enabled(w, e)
    ensures Inv(Next(w, e))
  {
    hide Inv, New, Unforged, Decrypt, Encrypt, Process, Published;
    match e
    case CreateSession(k) =>
      CreatesOnce(w.owner, k);
      if w.owner == [] {
        BegunKeeps(w, k);
        PublishedKeeps(Begun(w, k, Rotate(k)));
      } else {
        PublishedKeeps(w);
      }
    case RotateKey(k) =>
      BegunKeeps(w, k);
      PublishedKeeps(Begun(w, k, Rotate(k)));
    case Send(p) => SendKeeps(w, p);
    case ProcessDistribution(i) => ProcessKeeps(w, i);
    case Deliver(m) => DeliverKeeps(w, m);
  }

  lemma {:induction false} RunKeepsInv(events: seq<Event>)
    requires Runs(events)
    ensures Inv(Run(events))
  {
    if events != [] {
      RunKeepsInv(events[..|events| - 1]);
      hide Inv, Next, Enabled;
      NextKeepsInv(Run(events[..|events| - 1]), events[|events| - 1]);
    }
  }

  // The theorems.

  /** Whatever is delivered, in any order and any number of times: what the receiver opens under
      a number is what the owner sent under that number. */
  lemma GroupAgreement(events: seq<Event>, o: Opening)
    requires Runs(events) && o in Run(events).log
    ensures o.keyId in Run(events).epochs && o.number < |Run(events).epochs[o.keyId].sent|
    ensures o.plaintext == Run(events).epochs[o.keyId].sent[o.number] && o.iteration == ToUint32(o.number)
  {
    RunKeepsInv(events);
    assert IsHonest(Run(events), o);
  }

  /** Until a key id is processed again, each of its iterations is opened at most once. */
  lemma OpenedAtMostOnce(events: seq<Event>, i: nat, j: nat)
    requires Runs(events) && i < j < |Run(events).log|
    ensures var o, p := Run(events).log[i], Run(events).log[j];
            o.keyId == p.keyId && o.generation == p.generation ==> o.iteration != p.iteration
  {
    RunKeepsInv(events);
    assert !SameKey(Run(events).log[i], Run(events).log[j]);
  }

  lemma RunNext(events: seq<Event>, e: Event)
    ensures Run(events + [e]) == Next(Run(events), e)
  {
    assert (events + [e])[..|events|] == events;
    hide Next;
  }

  /** What the owner's distribution message says when `n` messages have been sent under the key id. */
  ghost predicate NamesNext(d: Distribution, keyId: nat, e: Epoch) {
    && d.keyId == keyId && d.iteration == |e.sent| % 0x1_0000_0000
    && d.seed == ChainKeyAt(e.seed, |e.sent|) && d.signing == e.signing
  }

  /** create() again leaves a running session alone: no key changes, and the distribution message that it
      returns is for the next message, under the key id that this is sent under. */
  lemma CreateKeepsSession(events: seq<Event>, k: NewKeys, plaintext: Bytes)
    requires Runs(events) && Run(events).owner != []
    ensures var w, v := Run(events), Run(events + [CreateSession(k)]); var keyId := w.owner[0].keyId;
            && v == w.(issued := v.issued)
            && keyId in w.epochs && Encrypt(v.owner, plaintext).Success?
            && var e, m := w.epochs[keyId], Encrypt(v.owner, plaintext).value.1;
               && m.keyId == keyId && m.iteration == |e.sent| % 0x1_0000_0000
               && exists d :: v.issued == w.issued + {Issue(d, |e.sent|)} && NamesNext(d, keyId, e)
  {
    RunNext(events, CreateSession(k));
    RunKeepsInv(events);
    assert OwnerInv(Run(events));
    hide *;
    CreateLeaves(Run(events), k, plaintext);
  }

  lemma CreateLeaves(w: World, k: NewKeys, plaintext: Bytes)
    requires OwnerInv(w) && w.owner != []
    ensures var v := Next(w, CreateSession(k)); var keyId := w.owner[0].keyId;
            && v == w.(issued := v.issued)
            && keyId in w.epochs && Encrypt(v.owner, plaintext).Success?
            && var e, m := w.epochs[keyId], Encrypt(v.owner, plaintext).value.1;
               && m.keyId == keyId && m.iteration == |e.sent| % 0x1_0000_0000
               && exists d :: v.issued == w.issued + {Issue(d, |e.sent|)} && NamesNext(d, keyId, e)
  {
    CreatesOnce(w.owner, k);
    SendsNumbered(w, plaintext);
    var s := w.owner[0];
    assert s in w.owner && w.owner == [s] && OwnerAt(w.epochs, s);
    hide Encrypt, Create;
    var e := w.epochs[s.keyId];
    assert NamesNext(Distribute(s), s.keyId, e);
    assert Next(w, CreateSession(k)).issued == w.issued + {Issue(Distribute(s), |e.sent|)};
  }

  /** The first create() and every rotate() begin a chain of their own with nothing sent. */
  lemma BeginsAnew(events: seq<Event>, k: NewKeys, e: Event)
    requires e == RotateKey(k) || (e == CreateSession(k) && Run(events).owner == [])
    ensures var w, v := Run(events), Run(events + [e]);
            && v.owner == [State(k.keyId, 0, Random(k.seed), k.signing, Some(k.signing), [])]
            && v.epochs == w.epochs[k.keyId := Epoch(Random(k.seed), k.signing, [])]
            && v.issued == w.issued + {Issue(Distribution(k.keyId, 0, Random(k.seed), k.signing), 0)}
            && v.receiver == w.receiver && v.accounts == w.accounts && v.log == w.log
  {
    RunNext(events, e);
    CreatesOnce(Run(events).owner, k);
    hide Run, Create;
  }

  /** Who processes the distribution message that the owner has just issued opens what is sent next. */
  lemma NewcomerOpens(events: seq<Event>, i: Issue, plaintext: Bytes)
    requires Runs(events) && Run(events).owner != [] && i in Run(events).issued
    requires var keyId := Run(events).owner[0].keyId;
             keyId in Run(events).epochs && i.distribution.keyId == keyId
             && i.number == |Run(events).epochs[keyId].sent| < 0x1_0000_0000
    ensures var w := Run(events);
            var v := Run(events + [ProcessDistribution(i)] + [Send(plaintext)]);
            && Encrypt(w.owner, plaintext).Success?
            && var r := Decrypt(v.receiver, Encrypt(w.owner, plaintext).value.1);
               r.Success? && r.value.1 == plaintext
  {
    var w, d := Run(events), i.distribution;
    RunKeepsInv(events);
    RunNext(events, ProcessDistribution(i));
    var u := Next(w, ProcessDistribution(i));
    RunNext(events + [ProcessDistribution(i)], Send(plaintext));
    hide Runs, Run;
    SendsNumbered(w, plaintext);
    assert IsIssue(w.epochs, i);
    var e := Recorded(w.epochs, d.keyId, plaintext)[d.keyId];
    var s := State(d.keyId, d.iteration, d.seed, d.signing, None, []);
    AddStateKeeps(w.receiver, s);
    hide Encrypt, Decrypt, Inv, AddState, Sent;
    FindsState(u.receiver, s);
    OpensAtOnce(u.receiver, s, e, i.number);
  }

  lemma {:induction false} OpensAtOnce(states: seq<State>, s: State, e: Epoch, n: nat)
    requires Find(states, s.keyId) < |states| && states[Find(states, s.keyId)] == s
    requires n < |e.sent| && n < 0x1_0000_0000 && s.iteration == n && s.seed == ChainKeyAt(e.seed, n)
    requires s.signingPublic == e.signing
    ensures var r := Decrypt(states, Sent(e, s.keyId, n)); r.Success? && r.value.1 == e.sent[n]
  {
    ChainKeyComposes(e.seed, n, 0);

  }

  /** The owner can send as soon as there is a session, and numbers its messages one by one. */
  lemma ConsecutiveIterations(events: seq<Event>, plaintext: Bytes)
    requires Runs(events) && Run(events).owner != []
    ensures var w := Run(events); var v := Run(events + [Send(plaintext)]);
            var keyId := w.owner[0].keyId;
            && keyId in w.epochs && keyId in v.epochs && v.epochs[keyId].sent == w.epochs[keyId].sent + [plaintext]
            && v.owner != [] && v.owner[0].keyId == keyId && v.owner[0].iteration == w.owner[0].iteration + 1
            && Encrypt(w.owner, plaintext).Success?
            && Encrypt(w.owner, plaintext).value.1 == Sent(v.epochs[keyId], keyId, |w.epochs[keyId].sent|)
  {
    RunKeepsInv(events);
    assert (events + [Send(plaintext)])[..|events|] == events;
    SendsNumbered(Run(events), plaintext);
    assert Run(events).owner[0] in Run(events).owner;
    hide Encrypt, LogInv, ReceiverInv, IssuesInv, Runs;
  }

  /** What the receiver has of every key id in its record, after any run: the chain at its place, and at
      most 2000 skipped keys in rising order below it. */
  lemma ReceiverFollows(events: seq<Event>, s: State)
    requires Runs(events) && s in Run(events).receiver
    ensures |Run(events).receiver| <= 5 && Distinct(Run(events).receiver)
    ensures ReceiverAt(Run(events), s)
  {
    RunKeepsInv(events);
  }

  /** Message number `n` is opened exactly when its number is the one the receiver takes it for
      (always so below 2^32) and its key is cached or at most 2000 ahead. That covers every
      message since the distribution message but those opened and those more than 2000 back. */
  lemma OpensExactlyWhen(events: seq<Event>, s: State, n: nat)
    requires Runs(events) && s in Run(events).receiver && s.keyId in Run(events).epochs
    requires s.keyId in Run(events).accounts
    requires n < |Run(events).epochs[s.keyId].sent|
    ensures var w := Run(events); var a := w.accounts[s.keyId]; var i := ToUint32(n);
            && (Decrypt(w.receiver, Sent(w.epochs[s.keyId], s.keyId, n)).Success? <==>
                  n == a.base + i && (Holds(s.messageKeys, i) || s.iteration <= i <= s.iteration + 2000))
            && (n == a.base + i && a.from <= i <= s.iteration + 2000 && i !in a.used
                && s.iteration - i <= 2000
                ==> Decrypt(w.receiver, Sent(w.epochs[s.keyId], s.keyId, n)).Success?)
  {
    var w := Run(events);
    RunKeepsInv(events);
    hide Runs, Run;
    OpensSent(w, s, n);
  }

  lemma FindsState(states: seq<State>, s: State)
    requires Distinct(states) && s in states
    ensures Find(states, s.keyId) < |states| && states[Find(states, s.keyId)] == s
  {
    var p :| 0 <= p < |states| && states[p] == s;
  }

  lemma OpensSent(w: World, s: State, n: nat)
    requires Inv(w) && s in w.receiver && s.keyId in w.epochs && s.keyId in w.accounts
    requires n < |w.epochs[s.keyId].sent|
    ensures var a := w.accounts[s.keyId]; var i := ToUint32(n);
            && (Decrypt(w.receiver, Sent(w.epochs[s.keyId], s.keyId, n)).Success? <==>
                  n == a.base + i && (Holds(s.messageKeys, i) || s.iteration <= i <= s.iteration + 2000))
            && (n == a.base + i && a.from <= i <= s.iteration + 2000 && i !in a.used
                && s.iteration - i <= 2000
                ==> Decrypt(w.receiver, Sent(w.epochs[s.keyId], s.keyId, n)).Success?)
  {
    var e, a, i := w.epochs[s.keyId], w.accounts[s.keyId], ToUint32(n);
    AtFollows(w, s);
    FindsState(w.receiver, s);
    var seed := ChainKeyAt(e.seed, a.base);
    HandedOutExactlyWhen(s, seed, a.from, a.used, i);
    hide Inv, ReceiverAt, OwnerInv, IssuesInv, LogInv, Follows, ReceiverInv, GetSenderKey, Open, Distinct, Holds;
    if GetSenderKey(s, i).Success? {
      KeyOfIteration(s, seed, a.from, a.used, i);
      OpensItsNumber(e, s.keyId, n, a.base, i);
    }
  }

  lemma AtFollows(w: World, s: State)
    requires ReceiverInv(w) && s in w.receiver
    ensures s.keyId in w.epochs && s.keyId in w.accounts && w.epochs[s.keyId].signing == s.signingPublic
    ensures var a := w.accounts[s.keyId];
            Follows(s, ChainKeyAt(w.epochs[s.keyId].seed, a.base), a.from, a.used)
  {
    assert ReceiverAt(w, s);
  }
}
