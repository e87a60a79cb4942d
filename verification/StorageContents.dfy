/** What a storage holds, and what the operations on it mean. The stores of Stores.dfy are proved to
    compute this, each on its own fields. */
module StorageContents {
  import opened Wrappers
  import SessionForms
  import SenderKeyForms

  type Bytes = seq<bv8>

  type SessionRecord = SessionForms.Record

  type SenderKeyRecord = seq<SenderKeyForms.State>

  const MAX_KEY_ID := 0xffffff

  datatype KeyPair = KeyPair(pubKey: Bytes, privKey: Bytes)

  predicate IsKeyPair(k: KeyPair) {
    |k.pubKey| == 33 && |k.privKey| == 32
  }

  datatype SignedPreKey = SignedPreKey(keyId: int, keyPair: KeyPair, signature: Bytes, createdAt: int)

  datatype Contents = Contents(
    identity: KeyPair, registrationId: int, nextPreKeyId: int, latestSignedPreKey: Option<SignedPreKey>,
    preKeys: map<int, KeyPair>, published: set<int>, signedPreKeys: map<int, KeyPair>, retired: map<int, int>,
    trusted: map<string, Bytes>, sessions: map<string, SessionRecord>, senderKeys: map<string, SenderKeyRecord>)

  // The operations of both stores.

  datatype Op =
    | StoreSession(id: string, session: SessionRecord)
    | StoreSenderKey(id: string,
                     senderKey: SenderKeyRecord) | RemoveSenderKey(id: string) | RemoveGroupSessions(groupId: string)
    | IsTrustedIdentity(identifier: string, key: Bytes, strict: bool)
    | SaveIdentity(identifier: string, key: Bytes) | RemoveIdentity(identifier: string)
    | StorePreKey(preKeyId: int, pair: KeyPair) | RemovePreKey(preKeyId: int)
    | ReservePreKey(preKeyId: int) | ReleasePreKey(preKeyId: int) | SetNextPreKeyId(preKeyId: int)
    | StoreSignedPair(signedId: int, pair: KeyPair)
    | StoreSignedPreKey(signed: SignedPreKey, now: int, gracePeriod: int) | RemoveSignedPreKey(signedId: int)

  predicate StartsWith(s: string, prefix: string) {
    prefix <= s
  }

  function WithoutSessionsOf(sessions: map<string, SessionRecord>, identifier: string): map<string, SessionRecord> {
    map id | id in sessions && id != identifier && !StartsWith(id, identifier + ".") :: sessions[id]
  }

  function WithoutGroup(senderKeys: map<string, SenderKeyRecord>, groupId: string): map<string, SenderKeyRecord> {
    map id | id in senderKeys && !StartsWith(id, groupId + "::") :: senderKeys[id]
  }

  function Retire(c: Contents, signed: SignedPreKey, now: int): map<int, int> {
    match c.latestSignedPreKey
    case None => c.retired
    case Some(latest) => if latest.keyId != signed.keyId then c.retired[latest.keyId := now] else c.retired
  }

  /** pruneRetiredSignedPreKeys */
  function Pruned(c: Contents, now: int, gracePeriod: int): Contents {
    var gone := set id | id in c.retired && now - c.retired[id] >= gracePeriod;
    c.(signedPreKeys := c.signedPreKeys - gone, retired := c.retired - gone)
  }

  /** The new contents and, for operations that return one, the boolean. */
  function Apply(c: Contents, op: Op): (Contents, bool) {
    match op
    case StoreSession(id, record) => (c.(sessions := c.sessions[id := record]), true)
    case StoreSenderKey(id, record) => (c.(senderKeys := c.senderKeys[id := record]), true)
    case RemoveSenderKey(id) => (c.(senderKeys := c.senderKeys - {id}), true)
    case RemoveGroupSessions(groupId) =>
      (c.(senderKeys := WithoutGroup(c.senderKeys, groupId)), true)
    case IsTrustedIdentity(identifier, key, strict) =>
      if identifier in c.trusted then (c, c.trusted[identifier] == key)
      else if strict then (c, false)
      else (c.(trusted := c.trusted[identifier := key]), true)
    case SaveIdentity(identifier, key) =>
      var changed := identifier !in c.trusted || c.trusted[identifier] != key;
      (c.(trusted := c.trusted[identifier := key],
          sessions := if identifier in c.trusted && changed then WithoutSessionsOf(c.sessions, identifier)
            else c.sessions), changed)
    case RemoveIdentity(identifier) =>
      (c.(trusted := c.trusted - {identifier}, sessions := WithoutSessionsOf(c.sessions, identifier)), true)
    case StorePreKey(id, pair) => (c.(preKeys := c.preKeys[id := pair]), true)
    case RemovePreKey(id) => (c.(preKeys := c.preKeys - {id}, published := c.published - {id}), true)
    case ReservePreKey(id) =>
      if id !in c.preKeys || id in c.published then (c, false) else (c.(published := c.published + {id}), true)
    case ReleasePreKey(id) => (c.(published := c.published - {id}), id in c.published)
    case SetNextPreKeyId(id) => (c.(nextPreKeyId := id), true)
    case StoreSignedPair(id, pair) => (c.(signedPreKeys := c.signedPreKeys[id := pair]), true)
    case StoreSignedPreKey(signed, now, gracePeriod) =>
      (Pruned(c.(retired := Retire(c, signed, now), signedPreKeys := c.signedPreKeys[signed.keyId := signed.keyPair],
                 latestSignedPreKey := Some(signed)), now, gracePeriod), true)
    case RemoveSignedPreKey(id) => (c.(signedPreKeys := c.signedPreKeys - {id}, retired := c.retired - {id}), true)
  }

  // What the operations do for one another.

  /** A reservation excludes another one until it is released, and releasing it leaves no trace. */
  lemma ReservedUntilReleased(c: Contents, id: int)
    ensures var (reserved, ok) := Apply(c, ReservePreKey(id));
            && (ok <==> id in c.preKeys && id !in c.published)
            && !Apply(reserved, ReservePreKey(id)).1
            && (ok ==> Apply(reserved, ReleasePreKey(id)) == (c, true))
  {
    if id !in c.published {
      assert c.published + {id} - {id} == c.published;
    }
  }

  /** A consumed prekey is gone, and cannot be reserved again. */
  lemma RemovedIsGone(c: Contents, id: int)
    ensures var after := Apply(c, RemovePreKey(id)).0;
            && id !in after.preKeys && id !in after.published && !Apply(after, ReservePreKey(id)).1
            && forall j :: j != id ==>
              (j in after.preKeys <==> j in c.preKeys) && (j in after.published <==> j in c.published)
  {
  }

  /** Whose session it is: "identifier" itself, or "identifier.device". */
  ghost predicate BelongsTo(id: string, identifier: string) {
    id == identifier || exists device: string :: id == identifier + "." + device
  }

  lemma PrefixBelongs(id: string, identifier: string)
    ensures (id == identifier || StartsWith(id, identifier + ".")) <==> BelongsTo(id, identifier)
  {
    if StartsWith(id, identifier + ".") {
      assert id == identifier + "." + id[|identifier| + 1..];
    }
  }

  /** A changed identity key takes the sessions with that identifier with it, and no others; the
      answer is whether the key is new. */
  lemma ChangedIdentityDropsSessions(c: Contents, identifier: string, key: Bytes)
    ensures var (after, changed) := Apply(c, SaveIdentity(identifier, key));
            && identifier in after.trusted && after.trusted[identifier] == key
            && (!changed <==> identifier in c.trusted && c.trusted[identifier] == key)
            && Apply(after, IsTrustedIdentity(identifier, key, true)) == (after, true)
            && forall id :: id in c.sessions ==>
                 (id !in after.sessions <==> changed && identifier in c.trusted && BelongsTo(id, identifier))
                 && (id in after.sessions ==> after.sessions[id] == c.sessions[id])
  {
    var (after, changed) := Apply(c, SaveIdentity(identifier, key));
    forall id | id in c.sessions
      ensures id !in after.sessions <==> changed && identifier in c.trusted && BelongsTo(id, identifier)
    {
      PrefixBelongs(id, identifier);
    }
  }

  predicate Expired(retired: map<int, int>, id: int, now: int, gracePeriod: int) {
    id in retired && now - retired[id] >= gracePeriod
  }

  /** A new signed prekey can be loaded if and only if its id is not that of one retired for the
      grace period: pruning looks at the ids only. The one it replaces stays for the grace period. */
  lemma SignedPreKeyLoadableWhen(c: Contents, signed: SignedPreKey, now: int, gracePeriod: int)
    ensures var after := Apply(c, StoreSignedPreKey(signed, now, gracePeriod)).0;
            && after.latestSignedPreKey == Some(signed)
            && ((signed.keyId in after.signedPreKeys && after.signedPreKeys[signed.keyId] == signed.keyPair)
                <==> !Expired(c.retired, signed.keyId, now, gracePeriod))
            && (c.latestSignedPreKey.Some? && c.latestSignedPreKey.value.keyId != signed.keyId && gracePeriod > 0 ==>
                  var previous := c.latestSignedPreKey.value.keyId;
                  previous in after.signedPreKeys <==> previous in c.signedPreKeys)
  {
    var retired := Retire(c, signed, now);
    assert Expired(retired, signed.keyId, now, gracePeriod) <==> Expired(c.retired, signed.keyId, now, gracePeriod);
  }
}
