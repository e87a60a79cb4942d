/** A session record and the storage's key pairs, as buffers: whatever is sent, received, set up and
    evicted, no session and no stored key pair ever loses a key to the wiping of another. */
module RecordBuffers {
  import opened Wrappers
  import opened Keys
  import opened Ratchet
  import opened ChainIds
  import opened X3dh
  import opened KeyBuffers
  import opened SessionBuffers
  import opened SessionTable
  import Records

  /** The private keys that the storage has: the identity key, and the prekeys under their public
      keys. It hands out its own buffers. */
  datatype Store = Store(pairs: map<KeyId, Ref>, identity: Ref)

  /** The sessions of a record are under their base keys. */
  datatype World = World(heap: Heap, sessions: map<KeyId, Entry>, store: Store)

  function Values(h: Heap, sessions: map<KeyId, Entry>): map<KeyId, Session> {
    map k | k in sessions :: EntryValue(h, sessions[k])
  }

  function Sessions(w: World): map<KeyId, Session> {
    Values(w.heap, w.sessions)
  }

  ghost predicate SessionsSound(h: Heap, sessions: map<KeyId, Entry>) {
    && (forall k :: k in sessions ==> EntrySound(h, sessions[k]) && sessions[k].baseKey == k)
    && forall a, b :: a in sessions && b in sessions && a != b ==> Refs(sessions[a]) !! Refs(sessions[b])
  }

  ghost predicate StoreSound(h: Heap, store: Store, ourIdentity: KeyId) {
    && store.identity < |h| && h[store.identity] == Private(ourIdentity)
    && forall p :: p in store.pairs ==> store.pairs[p] < |h| && h[store.pairs[p]] == Private(p)
  }

  ghost predicate InStore(store: Store, r: Ref) {
    r == store.identity || exists p :: p in store.pairs && store.pairs[p] == r
  }

  ghost predicate OutsideStore(store: Store, refs: set<Ref>) {
    forall r :: r in refs ==> !InStore(store, r)
  }

  ghost predicate SessionsOutside(store: Store, sessions: map<KeyId, Entry>) {
    forall k :: k in sessions ==> OutsideStore(store, Refs(sessions[k]))
  }

  ghost predicate SessionsApart(sessions: map<KeyId, Entry>, refs: set<Ref>) {
    forall k :: k in sessions ==> Refs(sessions[k]) !! refs
  }

  /** No two sessions share a buffer, nor does one with the storage. */
  ghost predicate Sound(w: World, ourIdentity: KeyId) {
    && SessionsSound(w.heap, w.sessions) && StoreSound(w.heap, w.store, ourIdentity)
    && SessionsOutside(w.store, w.sessions)
  }

  /** Only these buffers may differ, and those that are new. */
  ghost predicate Beside(h: Heap, gone: set<Ref>, g: Heap) {
    |h| <= |g| && forall r :: 0 <= r < |h| && r !in gone ==> g[r] == h[r]
  }

  ghost predicate OldOrNew(h: Heap, before: set<Ref>, after: set<Ref>) {
    forall r :: r in after ==> r in before || |h| <= r
  }

  lemma StoreReads(h: Heap, store: Store, ourIdentity: KeyId, gone: set<Ref>, g: Heap)
    requires StoreSound(h, store, ourIdentity) && OutsideStore(store, gone) && Beside(h, gone, g)
    ensures StoreSound(g, store, ourIdentity)
  {
    assert InStore(store, store.identity) && forall p :: p in store.pairs ==> InStore(store, store.pairs[p]);
  }

  lemma SessionsRead(h: Heap, sessions: map<KeyId, Entry>, gone: set<Ref>, g: Heap)
    requires SessionsSound(h, sessions) && Beside(h, gone, g) && SessionsApart(sessions, gone)
    ensures SessionsSound(g, sessions) && Values(g, sessions) == Values(h, sessions)
  {
    hide EntrySound, Refs, EntryValue;
    forall k | k in sessions
      ensures EntrySound(g, sessions[k]) && EntryValue(g, sessions[k]) == EntryValue(h, sessions[k])
    {
      SessionReads(h, sessions[k], gone, g);
    }
  }

  lemma SessionReads(h: Heap, e: Entry, gone: set<Ref>, g: Heap)
    requires EntrySound(h, e) && Beside(h, gone, g) && Refs(e) !! gone
    ensures EntrySound(g, e) && EntryValue(g, e) == EntryValue(h, e)
  {
    EntryInHeap(h, e);
    EntryReads(h, g, e);
    hide EntrySound, EntryValue;
  }

  lemma NewAreOutside(h: Heap, store: Store, ourIdentity: KeyId, before: set<Ref>, after: set<Ref>)
    requires StoreSound(h, store, ourIdentity) && OutsideStore(store, before) && OldOrNew(h, before, after)
    ensures OutsideStore(store, after)
  {
  }

  /** A session enters the record. */
  lemma OneJoins(w: World, ourIdentity: KeyId, d: Entry)
    requires Sound(w, ourIdentity) && d.baseKey !in w.sessions && EntrySound(w.heap, d)
    requires SessionsApart(w.sessions, Refs(d)) && OutsideStore(w.store, Refs(d))
    ensures Sound(w.(sessions := w.sessions[d.baseKey := d]), ourIdentity)
    ensures Sessions(w.(sessions := w.sessions[d.baseKey := d])) == Sessions(w)[d.baseKey := EntryValue(w.heap, d)]
  {
    hide EntrySound, EntryValue, Refs, StoreSound, InStore, OutsideStore;
  }

  /** A session leaves the record. */
  lemma OneLeaves(w: World, ourIdentity: KeyId, k: KeyId, g: Heap)
    requires Sound(w, ourIdentity) && k in w.sessions && Beside(w.heap, Refs(w.sessions[k]), g)
    ensures Sound(w.(heap := g, sessions := w.sessions - {k}), ourIdentity)
    ensures Sessions(w.(heap := g, sessions := w.sessions - {k})) == Sessions(w) - {k}
  {
    hide EntrySound, EntryValue, Refs, StoreSound;
    StoreReads(w.heap, w.store, ourIdentity, Refs(w.sessions[k]), g);
    hide InStore, OutsideStore;
    assert SessionsSound(w.heap, w.sessions - {k});
    assert Values(w.heap, w.sessions - {k}) == Values(w.heap, w.sessions) - {k};
    SessionsRead(w.heap, w.sessions - {k}, Refs(w.sessions[k]), g);
    hide Values, Beside;
  }

  /** What a session gets is old or new, so it is not another session's. */
  lemma OthersApart(h: Heap, sessions: map<KeyId, Entry>, k: KeyId, refs: set<Ref>)
    requires SessionsSound(h, sessions) && k in sessions && OldOrNew(h, Refs(sessions[k]), refs)
    ensures SessionsApart(sessions - {k}, refs)
  {
    forall j | j in sessions && j != k ensures Refs(sessions[j]) !! refs {
      EntryInHeap(h, sessions[j]);
    }
    hide EntrySound, Refs;
  }

  lemma AllApart(h: Heap, sessions: map<KeyId, Entry>, refs: set<Ref>)
    requires SessionsSound(h, sessions) && OldOrNew(h, {}, refs)
    ensures SessionsApart(sessions, refs)
  {
    forall j | j in sessions ensures Refs(sessions[j]) !! refs {
      EntryInHeap(h, sessions[j]);
    }
    hide EntrySound, Refs;
  }

  /** One session moves on, with buffers that it had or that are new. */
  lemma OneMoves(w: World, ourIdentity: KeyId, k: KeyId, g: Heap, d: Entry)
    requires Sound(w, ourIdentity) && k in w.sessions && d.baseKey == k && EntrySound(g, d)
    requires Beside(w.heap, Refs(w.sessions[k]), g) && OldOrNew(w.heap, Refs(w.sessions[k]), Refs(d))
    ensures Sound(w.(heap := g, sessions := w.sessions[k := d]), ourIdentity)
    ensures Sessions(w.(heap := g, sessions := w.sessions[k := d])) == Sessions(w)[k := EntryValue(g, d)]
  {
    hide EntrySound, EntryValue, Refs, Beside, Sessions, StoreSound, OutsideStore, SessionsSound, OldOrNew;
    OneLeaves(w, ourIdentity, k, g);
    NewAreOutside(w.heap, w.store, ourIdentity, Refs(w.sessions[k]), Refs(d));
    OthersApart(w.heap, w.sessions, k, Refs(d));
    OneJoins(w.(heap := g, sessions := w.sessions - {k}), ourIdentity, d);
    assert (w.sessions - {k})[k := d] == w.sessions[k := d];
    var v := Sessions(w);
    assert (v - {k})[k := EntryValue(g, d)] == v[k := EntryValue(g, d)];
  }

  lemma NoneMoves(w: World, ourIdentity: KeyId, g: Heap)
    requires Sound(w, ourIdentity) && Beside(w.heap, {}, g)
    ensures Sound(w.(heap := g), ourIdentity) && Sessions(w.(heap := g)) == Sessions(w)
  {
    hide EntrySound, EntryValue, Refs;
    StoreReads(w.heap, w.store, ourIdentity, {}, g);
    SessionsRead(w.heap, w.sessions, {}, g);
    hide StoreSound, Values, InStore, Beside;
  }

  /** A session in new buffers enters the record. */
  lemma OneAdded(w: World, ourIdentity: KeyId, g: Heap, d: Entry)
    requires Sound(w, ourIdentity) && d.baseKey !in w.sessions && EntrySound(g, d)
    requires Beside(w.heap, {}, g) && OldOrNew(w.heap, {}, Refs(d))
    ensures Sound(w.(heap := g, sessions := w.sessions[d.baseKey := d]), ourIdentity)
    ensures Sessions(w.(heap := g, sessions := w.sessions[d.baseKey := d]))
            == Sessions(w)[d.baseKey := EntryValue(g, d)]
  {
    NoneOutside(w.store);
    hide EntrySound, EntryValue, Refs, StoreSound, Sessions, OutsideStore, Beside, SessionsSound, OldOrNew;
    NoneMoves(w, ourIdentity, g);
    AllApart(w.heap, w.sessions, Refs(d));
    NewAreOutside(w.heap, w.store, ourIdentity, {}, Refs(d));
    OneJoins(w.(heap := g), ourIdentity, d);
  }

  lemma NoneOutside(store: Store)
    ensures OutsideStore(store, {})
  {
  }

  // Trying a message.

  lemma StepIsBeside(h: Heap, before: set<Ref>, g: Heap, after: set<Ref>)
    requires Step(h, before, g, after)
    ensures Beside(h, before, g) && OldOrNew(h, before, after)
  {
  }

  /** A copy that is wiped again leaves no more than what was left before. */
  lemma WipedAgain(h: Heap, g: Heap, d: Entry, left: set<Ref>, k: Heap)
    requires Step(h, {}, g, Refs(d) + left) && Refs(d) !! left && Step(g, Refs(d), k, {})
    ensures Step(h, {}, k, left)
  {
    hide Refs;
    StepBeside(g, Refs(d), k, {}, left);
    assert {} + left == left;
    StepThen(h, {}, g, Refs(d) + left, k, left);
  }

  lemma CopyStep(h: Heap, g: Heap, c: Entry, k: Heap, d: Entry, left: set<Ref>)
    requires Step(h, {}, g, Refs(c)) && EntryStep(g, c, k, d, left)
    ensures Step(h, {}, k, Refs(d) + left) && Refs(d) !! left && EntrySound(k, d)
  {
    hide EntrySound, Refs;
    StepThen(h, {}, g, Refs(c), k, Refs(d) + left);
  }

  /** One candidate of decryptWithSessions: a copy is stepped. If that fails it is wiped, and nothing of it
      stays but the three keys of a message whose tag or ciphertext is wrong, or the two of a chain that
      exists already. */
  method TryCandidate(h: Heap, e: Entry, ourIdentity: KeyId, w: Whisper, newKey: KeyId)
    returns (g: Heap, d: Entry, r: Result<Bytes, Error>, ghost left: set<Ref>)
    requires EntrySound(h, e)
    ensures r.Success? ==> EntrySound(g, d) && Step(h, {}, g, Refs(d))
    ensures r.Failure? ==> Step(h, {}, g, left)
    ensures left != {} ==> r.Failure? && r.error in {OverwriteAttempt, BadMac, BadCiphertext}
    ensures match Decrypt(EntryValue(h, e), ourIdentity, w, newKey)
            case Failure(f) => r == Failure(f)
            case Success(v) => r == Success(v.1) && EntryValue(g, d) == v.0
  {
    hide *;
    var copy;
    g, copy := CopyEntry(h, e);
    var g0 := g;
    g, d, r, left := DoDecrypt(g0, copy, ourIdentity, w, newKey);
    CopyStep(h, g0, copy, g, d, left);
    if r.Failure? {
      var tried := g;
      g := WipeKeyMaterial(tried, d);
      WipedAgain(h, tried, d, left, g);
    } else {
      assert Refs(d) + left == Refs(d);
    }
  }

  /** The sessions are there, and read like this. */
  ghost predicate Listed(h: Heap, list: seq<Entry>, values: seq<Session>) {
    |values| == |list| && forall i :: 0 <= i < |list| ==> EntrySound(h, list[i]) && EntryValue(h, list[i]) == values[i]
  }

  lemma ListedBeside(h: Heap, list: seq<Entry>, values: seq<Session>, g: Heap)
    requires Listed(h, list, values) && Beside(h, {}, g)
    ensures Listed(g, list, values)
  {
    hide EntrySound, EntryValue, Refs;
    forall i | 0 <= i < |list| ensures EntrySound(g, list[i]) && EntryValue(g, list[i]) == values[i] {
      SessionReads(h, list[i], {}, g);
    }
  }

  lemma BesideThen(h: Heap, gone: set<Ref>, g: Heap, k: Heap)
    requires Beside(h, gone, g) && Beside(g, {}, k)
    ensures Beside(h, gone, k)
  {
  }

  /** decryptWithSessions: the first session that opens the message, in buffers of its own. */
  method DecryptWithSessions(h: Heap, list: seq<Entry>, ghost values: seq<Session>, ourIdentity: KeyId, w: Whisper,
                             newKeys: seq<KeyId>)
    returns (g: Heap, i: nat, candidate: Option<Entry>, plaintext: Bytes)
    requires Listed(h, list, values) && |newKeys| == |list|
    ensures Beside(h, {}, g) && Records.NoneOpens(values, ourIdentity, w, newKeys, i)
    ensures candidate.None? ==> i == |list|
    ensures candidate.Some? ==>
              && i < |list| && EntrySound(g, candidate.value) && OldOrNew(h, {}, Refs(candidate.value))
              && Decrypt(values[i], ourIdentity, w, newKeys[i]) == Success((EntryValue(g, candidate.value), plaintext))
  {
    hide Decrypt, EntrySound, EntryValue, Refs, Step;
    g, i, candidate, plaintext := h, 0, None, [];
    while i < |list|
      invariant i <= |list| && candidate.None? && Beside(h, {}, g)
      invariant Records.NoneOpens(values, ourIdentity, w, newKeys, i)
    {
      ListedBeside(h, list, values, g);
      var g0 := g;
      var d, r;
      ghost var left;
      g, d, r, left := TryCandidate(g0, list[i], ourIdentity, w, newKeys[i]);
      StepIsBeside(g0, {}, g, if r.Success? then Refs(d) else left);
      BesideThen(h, {}, g0, g);
      if r.Success? {
        return g, i, Some(d), r.value;
      }
      i := i + 1;
    }
  }

  // Setting up a session.

  /** A session in new buffers, with `left` left behind. */
  ghost predicate IsNew(h: Heap, g: Heap, e: Entry, left: set<Ref>) {
    EntrySound(g, e) && Refs(e) !! left && Step(h, {}, g, Refs(e) + left)
  }

  /** Neither of the two ways into a session needs anything of it but its root and its key pair. */
  function Fresh(ephemeral: KeyId, privateKey: Ref, lastRemote: KeyId, rootKey: Ref, remoteIdentity: KeyId,
                 baseKey: KeyId): Entry {
    Entry(ephemeral, privateKey, lastRemote, 0, rootKey, map[], [], remoteIdentity, baseKey, None)
  }

  lemma FreshIsNew(h: Heap, g: Heap, e: Entry, left: set<Ref>)
    requires e.chains == map[] && e.order == [] && RatchetSound(g, e)
    requires {e.privateKey, e.rootKey} !! left && Step(h, {}, g, {e.privateKey, e.rootKey} + left)
    ensures IsNew(h, g, e, left)
  {
    NoTable(g);
    assert Refs(e) == {e.privateKey, e.rootKey};
    hide TableSound, TableRefs;
  }

  /** The 32-byte blocks of the shared secret, in the places that initSession puts them. */
  function Blocks(isInitiator: bool, a1: Key, a2: Key, a3: Key, a4: Option<Key>): Key {
    Joined([Discontinuity, if isInitiator then a1 else a2, if isInitiator then a2 else a1, a3]
           + if a4.Some? then [a4.value] else [])
  }

  function AgreeAt(h: Heap, theirs: Option<KeyId>, ours: Option<Ref>): Option<Key> {
    if theirs.Some? && ours.Some? then Some(Agree(theirs.value, At(h, ours.value))) else None
  }

  /** The buffers of a master key: what is wiped, the copy of the shared secret, and the three keys. */
  function MasterCells(secret: Key): Heap {
    [Zeros, Zeros, Zeros, Zeros, Zeros, secret,
     Hkdf(secret, Zeros, WhisperText, 0), Hkdf(secret, Zeros, WhisperText, 1), Hkdf(secret, Zeros, WhisperText, 2)]
  }

  /** The part of initSession that agrees on a master key, and wipes the agreements. The fourth is
      there only for a one-time prekey. */
  method DeriveMasterKey(h: Heap, isInitiator: bool, ourIdentity: Ref, ourEphemeral: Option<Ref>, ourSigned: Ref,
                         theirIdentity: KeyId, theirEphemeral: Option<KeyId>, theirSigned: KeyId)
    returns (g: Heap, masterKey: Ref)
    requires ourIdentity < |h| && ourSigned < |h| && (ourEphemeral.Some? ==> ourEphemeral.value < |h|)
    ensures masterKey == |h| + 6
    ensures g == h + MasterCells(Blocks(isInitiator, Agree(theirSigned, h[ourIdentity]),
                                        Agree(theirIdentity, h[ourSigned]),
                                        Agree(theirSigned, h[ourSigned]), AgreeAt(h, theirEphemeral, ourEphemeral)))
  {
    var sharedSecret, a1, a2, a3, a4 := |h|, |h| + 1, |h| + 2, |h| + 3, |h| + 4;
    var agreed := AgreeAt(h, theirEphemeral, ourEphemeral);
    g := h + [Zeros, Agree(theirSigned, At(h, ourIdentity)), Agree(theirIdentity, At(h, ourSigned)),
              Agree(theirSigned, At(h, ourSigned)), if agreed.Some? then agreed.value else Zeros];
    var fourth := if agreed.Some? then Some(At(g, a4)) else None;
    g := g[sharedSecret := Blocks(isInitiator, At(g, a1), At(g, a2), At(g, a3), fourth)];
    hide Blocks, Agree, AgreeAt;
    var copy := |g|;
    g := g + [At(g, sharedSecret)];
    masterKey := |g|;
    g := g + [Hkdf(At(g, copy), Zeros, WhisperText, 0), Hkdf(At(g, copy), Zeros, WhisperText, 1),
              Hkdf(At(g, copy), Zeros, WhisperText, 2)];
    g := Wipe(Wipe(Wipe(Wipe(Wipe(g, sharedSecret), a1), a2), a3), a4);
  }

  lemma ResponderSecret(hs: Handshake)
    ensures var a4 := if hs.preKey.Some? then Some(CalculateAgreement(hs.base, hs.preKey.value)) else None;
            Blocks(false, CalculateAgreement(hs.base, hs.responderIdentity),
                   CalculateAgreement(hs.initiatorIdentity, hs.signedPreKey),
                   CalculateAgreement(hs.base, hs.signedPreKey), a4)
            == Joined(KeyMaterial(hs))
  {
  }

  lemma InitiatorSecret(hs: Handshake)
    ensures var a4 := if hs.preKey.Some? then Some(CalculateAgreement(hs.preKey.value, hs.base)) else None;
            Blocks(true, CalculateAgreement(hs.signedPreKey, hs.initiatorIdentity),
                   CalculateAgreement(hs.responderIdentity, hs.base),
                   CalculateAgreement(hs.signedPreKey, hs.base), a4)
            == Joined(KeyMaterial(hs))
  {
  }

  /** initSession for the responder: the signed prekey is copied into the session. The copy of the
      shared secret that HKDF gets and the second of the three keys it makes are not wiped. */
  method InitIncoming(h: Heap, store: Store, hs: Handshake) returns (g: Heap, e: Entry, ghost left: set<Ref>)
    requires StoreSound(h, store, hs.responderIdentity) && hs.signedPreKey in store.pairs
    requires hs.preKey.Some? ==> hs.preKey.value in store.pairs
    ensures IsNew(h, g, e, left) && EntryValue(g, e) == ResponderSession(hs)
  {
    var signed := store.pairs[hs.signedPreKey];
    var preKey := if hs.preKey.Some? then Some(store.pairs[hs.preKey.value]) else None;
    var masterKey;
    g, masterKey := DeriveMasterKey(h, false, store.identity, preKey, signed, hs.initiatorIdentity, Some(hs.base),
                                    hs.base);
    ResponderSecret(hs);
    hide Blocks, KeyMaterial;
    var privateKey := |g|;
    g := g + [At(g, signed)];
    e := Fresh(hs.signedPreKey, privateKey, hs.base, masterKey, hs.initiatorIdentity, hs.base);
    g := Wipe(g, masterKey + 2);
    left := {masterKey - 1, masterKey + 1};
    hide *;
    IncomingIsNew(h, g, e, hs, left);
  }

  lemma IncomingIsNew(h: Heap, g: Heap, e: Entry, hs: Handshake, left: set<Ref>)
    requires |g| == |h| + 10 && g[..|h|] == h && left == {|h| + 5, |h| + 7}
    requires forall r :: |h| <= r < |g| && r !in left && r !in {|h| + 6, |h| + 9} ==> g[r] == Zeros
    requires g[|h| + 6] == MasterKey(hs) && g[|h| + 9] == Private(hs.signedPreKey)
    requires e == Fresh(hs.signedPreKey, |h| + 9, hs.base, |h| + 6, hs.initiatorIdentity, hs.base)
    ensures IsNew(h, g, e, left) && EntryValue(g, e) == ResponderSession(hs)
  {
    assert forall r :: 0 <= r < |h| ==> g[r] == g[..|h|][r];
    FreshIsNew(h, g, e, left);
    assert TableValue(g, map[]) == map[];
    hide IsNew, MasterKey;
  }

  /** calculateSendingRatchet: the root key that it replaces is not wiped. */
  method CalculateSendingRatchet(h: Heap, e: Entry, remote: KeyId) returns (g: Heap, d: Entry)
    requires e.privateKey < |h| && e.rootKey < |h|
    ensures var secret := Agree(remote, h[e.privateKey]);
            g == h + [Zeros, Hkdf(secret, h[e.rootKey], WhisperRatchet, 0),
                      Hkdf(secret, h[e.rootKey], WhisperRatchet, 1), Zeros]
    ensures d == e.(chains := e.chains[e.ephemeral := ChainRefs(ChainType.Sending, -1, Some(|h| + 2), map[])],
                    order := e.order + [e.ephemeral], rootKey := |h| + 1)
  {
    var sharedSecret, masterKey := |h|, |h| + 1;
    g := h + [Agree(remote, At(h, e.privateKey))];
    g := g + [Hkdf(At(g, sharedSecret), At(g, e.rootKey), WhisperRatchet, 0),
              Hkdf(At(g, sharedSecret), At(g, e.rootKey), WhisperRatchet, 1),
              Hkdf(At(g, sharedSecret), At(g, e.rootKey), WhisperRatchet, 2)];
    d := e.(chains := e.chains[e.ephemeral := ChainRefs(ChainType.Sending, -1, Some(masterKey + 1), map[])],
            order := e.order + [e.ephemeral], rootKey := masterKey);
    g := Wipe(Wipe(g, masterKey + 2), sharedSecret);
  }

  /** initSession for the initiator. The base key, the copy of the shared secret, the second key of HKDF
      and the first root key are not wiped. */
  method InitOutgoing(h: Heap, store: Store, hs: Handshake) returns (g: Heap, e: Entry, ghost left: set<Ref>)
    requires StoreSound(h, store, hs.initiatorIdentity)
    ensures IsNew(h, g, e, left) && EntryValue(g, e) == OutgoingSession(hs)
  {
    var base := |h|;
    g := h + [Private(hs.base)];
    var masterKey;
    g, masterKey := DeriveMasterKey(g, true, store.identity, Some(base), base, hs.responderIdentity, hs.preKey,
                                    hs.signedPreKey);
    InitiatorSecret(hs);
    hide Blocks, KeyMaterial;
    var privateKey := |g|;
    g := g + [Private(hs.firstEphemeral)];
    e := Fresh(hs.firstEphemeral, privateKey, hs.signedPreKey, masterKey, hs.responderIdentity, hs.base);
    g, e := CalculateSendingRatchet(g, e, hs.signedPreKey);
    g := Wipe(g, masterKey + 2);
    e := e.(pending := Some(PreKeyRef(hs.base, hs.signedPreKey, hs.preKey)));
    left := {base, masterKey - 1, masterKey, masterKey + 1};
    hide *;
    OutgoingIsNew(h, g, e, hs, left);
    OutgoingReads(g, e, hs);
  }

  lemma OutgoingReads(g: Heap, e: Entry, hs: Handshake)
    requires e.rootKey < |g| && g[e.rootKey] == NextRoot(hs.signedPreKey, hs.firstEphemeral, MasterKey(hs))
    requires e.rootKey + 1 < |g| && g[e.rootKey + 1] == NextSeed(hs.signedPreKey, hs.firstEphemeral, MasterKey(hs))
    requires e == Entry(hs.firstEphemeral, e.privateKey, hs.signedPreKey, 0, e.rootKey,
                        map[hs.firstEphemeral := ChainRefs(Sending, -1, Some(e.rootKey + 1), map[])],
                          [hs.firstEphemeral],
                        hs.responderIdentity, hs.base, Some(PreKeyRef(hs.base, hs.signedPreKey, hs.preKey)))
    ensures EntryValue(g, e) == OutgoingSession(hs)
  {
    assert ReadAll(g, map[]) == map[];
    assert TableValue(g, e.chains) == map[hs.firstEphemeral := NewChain(Sending, g[e.rootKey + 1])];
    hide MasterKey, KeyMaterial;
  }

  lemma OutgoingStep(h: Heap, g: Heap, left: set<Ref>, refs: set<Ref>)
    requires |g| == |h| + 15 && g[..|h|] == h && left == {|h|, |h| + 6, |h| + 7, |h| + 8}
    requires refs == {|h| + 10, |h| + 12, |h| + 13}
    requires forall r :: |h| <= r < |g| && r !in left && r !in refs ==> g[r] == Zeros
    ensures Step(h, {}, g, refs + left) && refs !! left
  {
    assert forall r :: 0 <= r < |h| ==> g[r] == g[..|h|][r];
  }

  lemma OutgoingIsNew(h: Heap, g: Heap, e: Entry, hs: Handshake, left: set<Ref>)
    requires |g| == |h| + 15 && g[..|h|] == h && e.privateKey == |h| + 10 && e.rootKey == |h| + 12
    requires left == {|h|, |h| + 6, |h| + 7, |h| + 8}
    requires forall r :: |h| <= r < |g| && r !in left && r !in {|h| + 10, |h| + 12, |h| + 13} ==> g[r] == Zeros
    requires e.ephemeral == hs.firstEphemeral && g[|h| + 10] == Private(hs.firstEphemeral)
    requires e.chains == map[hs.firstEphemeral := ChainRefs(Sending, -1, Some(|h| + 13), map[])]
    requires e.order == [hs.firstEphemeral]
    ensures IsNew(h, g, e, left)
  {
    OutgoingStep(h, g, left, {|h| + 10, |h| + 12, |h| + 13});
    OutgoingTable(|h| + 13, g, e.chains, hs.firstEphemeral);
    hide TableSound, TableRefs, Step;
    assert Refs(e) == {|h| + 10, |h| + 12, |h| + 13};
    hide Refs;
  }

  lemma OutgoingTable(r: Ref, g: Heap, chains: map<KeyId, ChainRefs>, id: KeyId)
    requires chains == map[id := ChainRefs(Sending, -1, Some(r), map[])] && r < |g|
    ensures TableSound(g, chains) && TableRefs(chains) == {r} && chains.Keys == Ids([id]) && NoRepeats([id])
  {
    var c := ChainRefs(Sending, -1, Some(r), map[]);
    NoTable(g);
    assert RefsOf(c) == {r};
    Joins(g, map[], id, c);
    assert chains == map[][id := c];
  }

  // The calls on a record.

  datatype Call =
    | Receive(ids: seq<KeyId>, newKeys: seq<KeyId>, trusted: set<KeyId>, w: Whisper)
    | ReceiveFirst(hs: Handshake, w: Whisper, newKey: KeyId)
    | Send(k: KeyId, plaintext: Bytes)
    | Initiate(hs: Handshake)
    | Evict(k: KeyId)

  /** What a call demands: the sessions it is about are there, and so are the prekeys of a first message. */
  predicate Enabled(values: map<KeyId, Session>, stored: set<KeyId>, ourIdentity: KeyId, call: Call) {
    match call
    case Receive(ids, newKeys, _, _) => |newKeys| == |ids| && forall i :: 0 <= i < |ids| ==> ids[i] in values
    case ReceiveFirst(hs, _, _) => hs.responderIdentity == ourIdentity && PreKeysStored(hs, stored)
    case Send(k, _) => k in values
    case Initiate(hs) => hs.initiatorIdentity == ourIdentity && hs.base !in values
    case Evict(k) => k in values
  }

  predicate PreKeysStored(hs: Handshake, stored: set<KeyId>) {
    hs.signedPreKey in stored && (hs.preKey.Some? ==> hs.preKey.value in stored)
  }

  /** The position of the first session that opens the message. */
  ghost function FirstOpening(values: map<KeyId, Session>, ids: seq<KeyId>, newKeys: seq<KeyId>, ourIdentity: KeyId,
                              w: Whisper): nat
    requires |newKeys| == |ids|
  {
    if ids == [] then 0
    else if ids[0] in values && Records.Opens(values[ids[0]], ourIdentity, w, newKeys[0]) then 0
    else 1 + FirstOpening(values, ids[1..], newKeys[1..], ourIdentity, w)
  }

  /** What the sessions of the record are after a call, if keys are values. */
  ghost function After(values: map<KeyId, Session>, stored: set<KeyId>, ourIdentity: KeyId,
                       call: Call): map<KeyId, Session> {
    if !Enabled(values, stored, ourIdentity, call) then values
    else match call
      case Receive(ids, newKeys, trusted, w) =>
        var i := FirstOpening(values, ids, newKeys, ourIdentity, w);
        if i >= |ids| || ids[i] !in values then values
        else Opened(values, ids[i], Decrypt(values[ids[i]], ourIdentity, w, newKeys[i]), Some(trusted))
      case ReceiveFirst(hs, w, newKey) =>
        var before := if hs.base in values then values else values[hs.base := ResponderSession(hs)];
        Opened(before, hs.base, Decrypt(before[hs.base], ourIdentity, w, newKey), None)
      case Send(k, plaintext) =>
        var r := Ratchet.Encrypt(values[k], ourIdentity, plaintext);
        if r.Success? then values[k := r.value.0] else values
      case Initiate(hs) => values[hs.base := OutgoingSession(hs)]
      case Evict(k) => values - {k}
  }

  /** A session moves on if it has opened the message, and if its identity is trusted where that is asked. */
  ghost function Opened(values: map<KeyId, Session>, k: KeyId, r: Result<(Session, Bytes), Error>,
                        trusted: Option<set<KeyId>>): map<KeyId, Session> {
    if r.Success? && (trusted.None? || r.value.0.remoteIdentity in trusted.value) then values[k := r.value.0]
      else values
  }

  ghost function RunValues(values: map<KeyId, Session>, stored: set<KeyId>, ourIdentity: KeyId,
                           calls: seq<Call>): map<KeyId, Session> {
    if calls == [] then values
    else After(RunValues(values, stored, ourIdentity, calls[..|calls| - 1]), stored, ourIdentity, calls[|calls| - 1])
  }

  lemma SessionOf(w: World, ourIdentity: KeyId, k: KeyId)
    requires Sound(w, ourIdentity) && k in w.sessions
    ensures EntrySound(w.heap, w.sessions[k]) && w.sessions[k].baseKey == k && Sessions(w).Keys == w.sessions.Keys
    ensures Sessions(w)[k] == EntryValue(w.heap, w.sessions[k]) && Sessions(w)[k].baseKey == k
  {
    hide EntrySound, StoreSound, Refs;
  }

  /** The candidate takes the place of its session, which is wiped. */
  method Replace(w: World, ghost ourIdentity: KeyId, k: KeyId, g: Heap, d: Entry) returns (v: World)
    requires Sound(w, ourIdentity) && k in w.sessions && d.baseKey == k && EntrySound(g, d)
    requires Beside(w.heap, {}, g) && OldOrNew(w.heap, {}, Refs(d))
    ensures Sound(v, ourIdentity) && v.store == w.store && Sessions(v) == Sessions(w)[k := EntryValue(g, d)]
  {
    var previous := w.sessions[k];
    SessionOf(w, ourIdentity, k);
    ReplacedApart(w, ourIdentity, k, g, d);
    hide EntrySound, Sound, Refs, EntryValue, Step, Beside, OldOrNew, Sessions;
    var wiped := WipeKeyMaterial(g, previous);
    StepIsBeside(g, Refs(previous), wiped, {});
    BesideBoth(w.heap, g, Refs(previous), wiped);
    SessionReads(g, d, Refs(previous), wiped);
    OneMoves(w, ourIdentity, k, wiped, d);
    v := w.(heap := wiped, sessions := w.sessions[k := d]);
  }

  lemma ReplacedApart(w: World, ourIdentity: KeyId, k: KeyId, g: Heap, d: Entry)
    requires Sound(w, ourIdentity) && k in w.sessions && Beside(w.heap, {}, g) && OldOrNew(w.heap, {}, Refs(d))
    ensures EntrySound(g, w.sessions[k]) && Refs(d) !! Refs(w.sessions[k])
    ensures OldOrNew(w.heap, Refs(w.sessions[k]), Refs(d))
  {
    SessionReads(w.heap, w.sessions[k], {}, g);
    EntryInHeap(w.heap, w.sessions[k]);
    hide EntrySound, Refs, StoreSound;
  }

  lemma BesideBoth(h: Heap, g: Heap, gone: set<Ref>, k: Heap)
    requires Beside(h, {}, g) && Beside(g, gone, k)
    ensures Beside(h, gone, k)
  {
  }

  lemma {:induction false} FirstIs(values: map<KeyId, Session>, ids: seq<KeyId>, newKeys: seq<KeyId>,
                                   ourIdentity: KeyId, w: Whisper, i: nat)
    requires |newKeys| == |ids| && Records.FirstToOpen(values, ids, ourIdentity, w, newKeys, i)
    requires i < |ids| ==> ids[i] in values && Records.Opens(values[ids[i]], ourIdentity, w, newKeys[i])
    ensures FirstOpening(values, ids, newKeys, ourIdentity, w) == i
  {
    hide Records.Opens;
    if i > 0 {
      assert ids[0] in values && !Records.Opens(values[ids[0]], ourIdentity, w, newKeys[0]);
      forall j | 0 <= j < i - 1
        ensures ids[1..][j] in values && !Records.Opens(values[ids[1..][j]], ourIdentity, w, newKeys[1..][j])
      {
        assert ids[1..][j] == ids[j + 1] && newKeys[1..][j] == newKeys[j + 1];
      }
      FirstIs(values, ids[1..], newKeys[1..], ourIdentity, w, i - 1);
    }
  }

  /** getSessions, in the order that is given. */
  function ListOf(sessions: map<KeyId, Entry>, ids: seq<KeyId>): (r: seq<Entry>)
    requires forall i :: 0 <= i < |ids| ==> ids[i] in sessions
    ensures |r| == |ids| && forall i :: 0 <= i < |r| ==> r[i] == sessions[ids[i]]
  {
    seq(|ids|, i requires 0 <= i < |ids| => sessions[ids[i]])
  }

  lemma ListIsListed(w: World, ourIdentity: KeyId, ids: seq<KeyId>)
    requires Sound(w, ourIdentity) && forall i :: 0 <= i < |ids| ==> ids[i] in w.sessions
    ensures forall i :: 0 <= i < |ids| ==> ids[i] in Sessions(w)
    ensures Listed(w.heap, ListOf(w.sessions, ids), Records.ViewsOf(ids, Sessions(w)))
  {
    hide EntrySound, EntryValue, StoreSound, Refs;
  }

  ghost predicate TriedInOrder(w: World, ids: seq<KeyId>, newKeys: seq<KeyId>, ourIdentity: KeyId, m: Whisper,
                               g: Heap, candidate: Option<Entry>, plaintext: Bytes, i: nat)
    requires |newKeys| == |ids|
  {
    && Beside(w.heap, {}, g) && FirstOpening(Sessions(w), ids, newKeys, ourIdentity, m) == i
    && (candidate.None? ==> i == |ids|)
    && (candidate.Some? ==>
          && i < |ids| && ids[i] in w.sessions && ids[i] in Sessions(w)
          && EntrySound(g, candidate.value) && OldOrNew(w.heap, {}, Refs(candidate.value))
          && candidate.value.baseKey == ids[i]
          && Decrypt(Sessions(w)[ids[i]], ourIdentity, m, newKeys[i])
            == Success((EntryValue(g, candidate.value), plaintext)))
  }

  method TryInOrder(w: World, ourIdentity: KeyId, ids: seq<KeyId>, newKeys: seq<KeyId>, m: Whisper)
    returns (g: Heap, candidate: Option<Entry>, plaintext: Bytes, ghost i: nat)
    requires Sound(w, ourIdentity) && |newKeys| == |ids| && forall i :: 0 <= i < |ids| ==> ids[i] in w.sessions
    ensures TriedInOrder(w, ids, newKeys, ourIdentity, m, g, candidate, plaintext, i)
  {
    ListIsListed(w, ourIdentity, ids);
    ghost var values := Records.ViewsOf(ids, Sessions(w));
    hide Sound, EntrySound, EntryValue, Beside, OldOrNew, Refs, Listed, Decrypt, Sessions, TriedInOrder;
    var j;
    g, j, candidate, plaintext := DecryptWithSessions(w.heap, ListOf(w.sessions, ids), values, ourIdentity, m, newKeys);
    i := j;
    Records.NoneOfThem(Sessions(w), ids, ourIdentity, m, newKeys, i);
    FirstIs(Sessions(w), ids, newKeys, ourIdentity, m, i);
    if candidate.Some? {
      SessionOf(w, ourIdentity, ids[i]);
      Records.DecryptKeepsBaseKey(Sessions(w)[ids[i]], ourIdentity, m, newKeys[i]);
      BaseKeyReads(g, candidate.value);
    }
    TriedThus(w, ids, newKeys, ourIdentity, m, g, candidate, plaintext, i);
  }

  lemma BaseKeyReads(g: Heap, e: Entry)
    ensures EntryValue(g, e).baseKey == e.baseKey && EntryValue(g, e).remoteIdentity == e.remoteIdentity
  {
  }

  lemma TriedThus(w: World, ids: seq<KeyId>, newKeys: seq<KeyId>, ourIdentity: KeyId, m: Whisper,
                  g: Heap, candidate: Option<Entry>, plaintext: Bytes, i: nat)
    requires |newKeys| == |ids| && Beside(w.heap, {}, g) && FirstOpening(Sessions(w), ids, newKeys, ourIdentity, m) == i
    requires candidate.None? ==> i == |ids|
    requires candidate.Some? ==>
               && i < |ids| && ids[i] in w.sessions && ids[i] in Sessions(w)
               && EntrySound(g, candidate.value) && OldOrNew(w.heap, {}, Refs(candidate.value))
               && candidate.value.baseKey == ids[i]
               && Decrypt(Sessions(w)[ids[i]], ourIdentity, m, newKeys[i])
                 == Success((EntryValue(g, candidate.value), plaintext))
    ensures TriedInOrder(w, ids, newKeys, ourIdentity, m, g, candidate, plaintext, i)
  {
    hide EntrySound, EntryValue, Beside, OldOrNew, Refs, Decrypt, Values;
  }

  lemma SameKeys(w: World)
    ensures Sessions(w).Keys == w.sessions.Keys
  {
  }

  /** decryptWhisperMessage up to storing the record. */
  method ReceiveWhisper(w: World, ourIdentity: KeyId, ids: seq<KeyId>, newKeys: seq<KeyId>, trusted: set<KeyId>,
                        m: Whisper)
    returns (v: World, r: Result<Bytes, RecordError>)
    requires Sound(w, ourIdentity)
    requires Enabled(Sessions(w), w.store.pairs.Keys, ourIdentity, Receive(ids, newKeys, trusted, m))
    ensures Sound(v, ourIdentity) && v.store == w.store
    ensures Sessions(v) == After(Sessions(w), w.store.pairs.Keys, ourIdentity, Receive(ids, newKeys, trusted, m))
  {
    SameKeys(w);
    hide Sound, EntrySound, EntryValue, Beside, OldOrNew, Refs, Decrypt, Sessions, Step;
    var g, candidate, plaintext;
    ghost var i;
    g, candidate, plaintext, i := TryInOrder(w, ourIdentity, ids, newKeys, m);
    if candidate.None? {
      NoneMoves(w, ourIdentity, g);
      return w.(heap := g), Failure(NoMatchingSession);
    }
    BaseKeyReads(g, candidate.value);
    if candidate.value.remoteIdentity !in trusted {
      var wiped := WipeKeyMaterial(g, candidate.value);
      CandidateWiped(w.heap, g, candidate.value, wiped);
      NoneMoves(w, ourIdentity, wiped);
      return w.(heap := wiped), Failure(UntrustedIdentity);
    }
    v := Replace(w, ourIdentity, candidate.value.baseKey, g, candidate.value);
    r := Success(plaintext);
  }

  lemma CandidateWiped(h: Heap, g: Heap, d: Entry, k: Heap)
    requires Beside(h, {}, g) && OldOrNew(h, {}, Refs(d)) && Step(g, Refs(d), k, {})
    ensures Beside(h, {}, k)
  {
    hide Refs;
  }

  /** decryptPreKeyWhisperMessage up to storing the record. */
  method ReceivePreKey(w: World, ourIdentity: KeyId, hs: Handshake, m: Whisper, newKey: KeyId)
    returns (v: World, r: Result<Bytes, Error>)
    requires Sound(w, ourIdentity) && Enabled(Sessions(w), w.store.pairs.Keys, ourIdentity, ReceiveFirst(hs, m, newKey))
    ensures Sound(v, ourIdentity) && v.store == w.store
    ensures Sessions(v) == After(Sessions(w), w.store.pairs.Keys, ourIdentity, ReceiveFirst(hs, m, newKey))
  {
    SameKeys(w);
    hide Sound, EntrySound, EntryValue, Beside, OldOrNew, Refs, Decrypt, Sessions, Step;
    var u := w;
    if hs.base !in w.sessions {
      u := AddIncoming(w, ourIdentity, hs);
    }
    SameKeys(u);
    v, r := TryOne(u, ourIdentity, hs.base, m, newKey);
  }

  /** initIncoming, for a base key that is new. */
  method AddIncoming(w: World, ghost ourIdentity: KeyId, hs: Handshake) returns (v: World)
    requires Sound(w, ourIdentity) && hs.base !in w.sessions
    requires hs.responderIdentity == ourIdentity && PreKeysStored(hs, w.store.pairs.Keys)
    ensures Sound(v, ourIdentity) && v.store == w.store
    ensures Sessions(v) == Sessions(w)[hs.base := ResponderSession(hs)]
  {
    StoreOf(w, ourIdentity);
    hide Sound, EntrySound, EntryValue, Beside, OldOrNew, Refs, Sessions, Step, IsNew, StoreSound;
    var g, e;
    ghost var left;
    g, e, left := InitIncoming(w.heap, w.store, hs);
    BaseKeyReads(g, e);
    NewIsBeside(w.heap, g, e, left);
    OneAdded(w, ourIdentity, g, e);
    v := w.(heap := g, sessions := w.sessions[e.baseKey := e]);
  }

  lemma StoreOf(w: World, ourIdentity: KeyId)
    requires Sound(w, ourIdentity)
    ensures StoreSound(w.heap, w.store, ourIdentity)
  {
  }

  lemma NewIsBeside(h: Heap, g: Heap, e: Entry, left: set<Ref>)
    requires IsNew(h, g, e, left)
    ensures EntrySound(g, e) && Beside(h, {}, g) && OldOrNew(h, {}, Refs(e))
  {
    hide EntrySound, Refs;
  }

  /** A copy of a session is tried, and takes its place if it opens the message. */
  method TryOne(w: World, ourIdentity: KeyId, k: KeyId, m: Whisper, newKey: KeyId)
    returns (v: World, r: Result<Bytes, Error>)
    requires Sound(w, ourIdentity) && k in w.sessions && k in Sessions(w)
    ensures Sound(v, ourIdentity) && v.store == w.store
    ensures Sessions(v) == Opened(Sessions(w), k, Decrypt(Sessions(w)[k], ourIdentity, m, newKey), None)
  {
    hide *;
    SessionOf(w, ourIdentity, k);
    ghost var s := Sessions(w)[k];
    var g, d;
    ghost var left;
    g, d, r, left := TryCandidate(w.heap, w.sessions[k], ourIdentity, m, newKey);
    if r.Failure? {
      StepIsBeside(w.heap, {}, g, left);
      NoneMoves(w, ourIdentity, g);
      v := w.(heap := g);
    } else {
      StepIsBeside(w.heap, {}, g, Refs(d));
      Records.DecryptKeepsBaseKey(s, ourIdentity, m, newKey);
      BaseKeyReads(g, d);
      v := Replace(w, ourIdentity, k, g, d);
    }
    OpenedCases(Sessions(w), k, Decrypt(s, ourIdentity, m, newKey));
  }

  lemma OpenedCases(values: map<KeyId, Session>, k: KeyId, r: Result<(Session, Bytes), Error>)
    ensures Opened(values, k, r, None) == if r.Success? then values[k := r.value.0] else values
  {
  }

  method AddOutgoing(w: World, ghost ourIdentity: KeyId, hs: Handshake) returns (v: World)
    requires Sound(w, ourIdentity) && hs.base !in w.sessions && hs.initiatorIdentity == ourIdentity
    ensures Sound(v, ourIdentity) && v.store == w.store
    ensures Sessions(v) == Sessions(w)[hs.base := OutgoingSession(hs)]
  {
    StoreOf(w, ourIdentity);
    OutgoingBaseKey(hs);
    hide Sound, EntrySound, EntryValue, Beside, OldOrNew, Refs, Sessions, Step, IsNew, StoreSound, OutgoingSession;
    var g, e;
    ghost var left;
    g, e, left := InitOutgoing(w.heap, w.store, hs);
    BaseKeyReads(g, e);
    NewIsBeside(w.heap, g, e, left);
    OneAdded(w, ourIdentity, g, e);
    v := w.(heap := g, sessions := w.sessions[e.baseKey := e]);
  }

  lemma OutgoingBaseKey(hs: Handshake)
    ensures OutgoingSession(hs).baseKey == hs.base
  {
    hide MasterKey;
  }

  method SendFrom(w: World, ourIdentity: KeyId, k: KeyId, plaintext: Bytes) returns (v: World, r: Result<Packet, Error>)
    requires Sound(w, ourIdentity) && k in w.sessions && k in Sessions(w)
    ensures Sound(v, ourIdentity) && v.store == w.store
    ensures Sessions(v) == After(Sessions(w), w.store.pairs.Keys, ourIdentity, Send(k, plaintext))
  {
    hide *;
    SessionOf(w, ourIdentity, k);
    ghost var s := Sessions(w)[k];
    var g, d;
    g, d, r := SessionBuffers.Encrypt(w.heap, w.sessions[k], ourIdentity, plaintext);
    if r.Failure? {
      v := w;
    } else {
      MovedBeside(w.heap, w.sessions[k], g, d);
      EncryptKeepsBaseKey(s, ourIdentity, plaintext);
      BaseKeyReads(g, d);
      OneMoves(w, ourIdentity, k, g, d);
      v := w.(heap := g, sessions := w.sessions[k := d]);
    }
    SentCases(Sessions(w), w.store.pairs.Keys, ourIdentity, k, plaintext);
  }

  lemma SentCases(values: map<KeyId, Session>, stored: set<KeyId>, ourIdentity: KeyId, k: KeyId, plaintext: Bytes)
    requires k in values
    ensures var r := Ratchet.Encrypt(values[k], ourIdentity, plaintext);
            After(values, stored, ourIdentity, Send(k, plaintext)) == if r.Success? then values[k := r.value.0]
              else values
  {
    hide Ratchet.Encrypt;
  }

  lemma MovedBeside(h: Heap, e: Entry, g: Heap, d: Entry)
    requires EntryStep(h, e, g, d, {})
    ensures EntrySound(g, d) && Beside(h, Refs(e), g) && OldOrNew(h, Refs(e), Refs(d))
  {
    hide EntrySound, Refs;
  }

  lemma EncryptKeepsBaseKey(s: Session, ourIdentity: KeyId, plaintext: Bytes)
    requires Ratchet.Encrypt(s, ourIdentity, plaintext).Success?
    ensures Ratchet.Encrypt(s, ourIdentity, plaintext).value.0.baseKey == s.baseKey
  {
    hide Fill, Seal;
  }

  method EvictSession(w: World, ghost ourIdentity: KeyId, k: KeyId) returns (v: World)
    requires Sound(w, ourIdentity) && k in w.sessions
    ensures Sound(v, ourIdentity) && v.store == w.store && Sessions(v) == Sessions(w) - {k}
  {
    SessionOf(w, ourIdentity, k);
    hide Sound, EntrySound, EntryValue, Beside, OldOrNew, Refs, Sessions, Step;
    var g := WipeKeyMaterial(w.heap, w.sessions[k]);
    StepIsBeside(w.heap, Refs(w.sessions[k]), g, {});
    OneLeaves(w, ourIdentity, k, g);
    v := w.(heap := g, sessions := w.sessions - {k});
  }

  /** One call, on buffers. Calls that cannot be made change nothing. */
  method Do(w: World, ourIdentity: KeyId, call: Call) returns (v: World)
    requires Sound(w, ourIdentity)
    ensures Sound(v, ourIdentity) && v.store == w.store
    ensures Sessions(v) == After(Sessions(w), w.store.pairs.Keys, ourIdentity, call)
  {
    SameKeys(w);
    if !Enabled(Sessions(w), w.store.pairs.Keys, ourIdentity, call) {
      return w;
    }
    hide Sound, Sessions, Decrypt, Ratchet.Encrypt, OutgoingSession, ResponderSession, FirstOpening;
    match call
    case Receive(ids, newKeys, trusted, m) =>
      var r;
      v, r := ReceiveWhisper(w, ourIdentity, ids, newKeys, trusted, m);
    case ReceiveFirst(hs, m, newKey) =>
      var r;
      v, r := ReceivePreKey(w, ourIdentity, hs, m, newKey);
    case Send(k, plaintext) =>
      var r;
      v, r := SendFrom(w, ourIdentity, k, plaintext);
    case Initiate(hs) =>
      v := AddOutgoing(w, ourIdentity, hs);
    case Evict(k) =>
      v := EvictSession(w, ourIdentity, k);
  }

  /** A new record on a storage with the right keys is where runs start. */
  lemma NewRecordIsSound(h: Heap, store: Store, ourIdentity: KeyId)
    requires StoreSound(h, store, ourIdentity)
    ensures Sound(World(h, map[], store), ourIdentity) && Sessions(World(h, map[], store)) == map[]
  {
    hide StoreSound;
  }

  /** Over every sequence of calls: no session and no stored key pair shares a buffer with another, every
      stored key is what it was, and the sessions read as they would if keys were values. */
  method BuffersAreValues(w: World, ourIdentity: KeyId, calls: seq<Call>) returns (v: World)
    requires Sound(w, ourIdentity)
    ensures Sound(v, ourIdentity) && v.store == w.store
    ensures Sessions(v) == RunValues(Sessions(w), w.store.pairs.Keys, ourIdentity, calls)
  {
    hide Sound, Sessions, After;
    v := w;
    for i := 0 to |calls|
      invariant Sound(v, ourIdentity) && v.store == w.store
      invariant Sessions(v) == RunValues(Sessions(w), w.store.pairs.Keys, ourIdentity, calls[..i])
    {
      assert calls[..i + 1][..i] == calls[..i] && calls[..i + 1][i] == calls[i];
      v := Do(v, ourIdentity, calls[i]);
    }
    assert calls[..|calls|] == calls;
  }

  /** What a message does to the sessions here is what SessionRecord.dfy proves of the record object. */
  lemma ReceiveIsTried(values: map<KeyId, Session>, t: Table, stored: set<KeyId>, ourIdentity: KeyId,
                       trusted: set<KeyId>,
                       w: Whisper, newKeys: seq<KeyId>, now: int)
    returns (r: Result<Bytes, RecordError>, u: Table)
    requires var ids := ByUse(t.order, t.infos);
             |newKeys| == |ids| && forall i :: 0 <= i < |ids| ==> ids[i] in values && ids[i] in t.infos
    ensures var ids := ByUse(t.order, t.infos);
            Records.Tried(values, t, ourIdentity, trusted, w, newKeys, now,
                          FirstOpening(values, ids, newKeys, ourIdentity, w),
                          r, After(values, stored, ourIdentity, Receive(ids, newKeys, trusted, w)), u)
  {
    var ids := ByUse(t.order, t.infos);
    var i := FirstOpening(values, ids, newKeys, ourIdentity, w);
    FirstIsFirst(values, ids, newKeys, ourIdentity, w);
    hide Decrypt, ByUse, FirstOpening, Records.FirstToOpen;
    if i == |ids| {
      return Failure(NoMatchingSession), t;
    }
    var v := Decrypt(values[ids[i]], ourIdentity, w, newKeys[i]).value;
    if v.0.remoteIdentity !in trusted {
      return Failure(UntrustedIdentity), t;
    }
    return Success(v.1), Put(t, ids[i], t.infos[ids[i]].(used := now));
  }

  lemma {:induction false} FirstIsFirst(values: map<KeyId, Session>, ids: seq<KeyId>, newKeys: seq<KeyId>,
                                        ourIdentity: KeyId, w: Whisper)
    requires |newKeys| == |ids| && forall i :: 0 <= i < |ids| ==> ids[i] in values
    ensures var i := FirstOpening(values, ids, newKeys, ourIdentity, w);
            && Records.FirstToOpen(values, ids, ourIdentity, w, newKeys, i)
            && (i < |ids| ==> Decrypt(values[ids[i]], ourIdentity, w, newKeys[i]).Success?)
  {
    hide Decrypt;
    if ids != [] && !Records.Opens(values[ids[0]], ourIdentity, w, newKeys[0]) {
      FirstIsFirst(values, ids[1..], newKeys[1..], ourIdentity, w);
      var i := FirstOpening(values, ids, newKeys, ourIdentity, w);
      forall j | 0 <= j < i ensures ids[j] in values && !Records.Opens(values[ids[j]], ourIdentity, w, newKeys[j]) {
        assert j > 0 ==> ids[j] == ids[1..][j - 1] && newKeys[j] == newKeys[1..][j - 1];
      }
    }
  }

  /** Why initSession copies the signed prekey: of a session that used the buffer of the storage, the
      first ratchet step would wipe the storage's key. */
  method SharedPreKeyIsLost(w: World, hs: Handshake, previousCounter: nat, newKey: KeyId) returns (g: Heap)
    requires Sound(w, hs.responderIdentity) && PreKeysStored(hs, w.store.pairs.Keys)
    requires newKey != hs.firstEphemeral && hs.firstEphemeral != hs.signedPreKey
    ensures At(w.heap, w.store.pairs[hs.signedPreKey]) == Private(hs.signedPreKey)
    ensures At(g, w.store.pairs[hs.signedPreKey]) == Zeros
  {
    StoreOf(w, hs.responderIdentity);
    var e;
    ghost var left;
    g, e, left := InitIncoming(w.heap, w.store, hs);
    var stored := w.store.pairs[hs.signedPreKey];
    var shared := e.(privateKey := stored);
    SharingIsSound(w, hs, g, e, left);
    HandshakeAgrees(hs, previousCounter, newKey);
    var h := g;
    hide EntrySound, EntryValue, StepRatchet, IsNew, Sound, StoreSound, ResponderSession;
    var d, r;
    g, d, r, left := MaybeStepRatchet(h, shared, hs.firstEphemeral, previousCounter, newKey);
    assert stored in RatchetRefs(shared);
  }

  lemma SharingIsSound(w: World, hs: Handshake, g: Heap, e: Entry, left: set<Ref>)
    requires StoreSound(w.heap, w.store, hs.responderIdentity) && hs.signedPreKey in w.store.pairs
    requires IsNew(w.heap, g, e, left) && EntryValue(g, e) == ResponderSession(hs)
    ensures var shared := e.(privateKey := w.store.pairs[hs.signedPreKey]);
            && EntrySound(g, shared) && EntryValue(g, shared) == ResponderSession(hs) && shared.chains == map[]
            && shared.privateKey < |w.heap| <= |g|
  {
    assert e.rootKey in RatchetRefs(e);
    assert TableValue(g, e.chains) == map[];
    assert e.chains == map[] by { assert e.chains.Keys == TableValue(g, e.chains).Keys; }
    NoTable(g);
    hide TableSound, TableRefs;
  }
}
