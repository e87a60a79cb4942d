/** What can be read from a storage after any operations, said of each of its collections: the last operation
    on an entry decides what it is, and every other entry stays as it was. */
module StorageLaws {
  import opened Wrappers
  import opened StorageContents
  import opened StorageSnapshots

  /** What one operation does to one entry of a collection. */
  datatype Effect<V> = Keeps | Sets(value: V) | Drops

  function Lookup<K, V>(m: map<K, V>, k: K): Option<V> {
    if k in m then Some(m[k]) else None
  }

  function Outcome<V>(e: Effect<V>, before: Option<V>): Option<V> {
    match e
    case Keeps => before
    case Sets(v) => Some(v)
    case Drops => None
  }

  ghost predicate IsLast<V>(effects: seq<Effect<V>>, j: int) {
    0 <= j < |effects| && !effects[j].Keeps? && forall k :: j < k < |effects| ==> effects[k].Keeps?
  }

  /** An entry with these effects is what the last one that is not Keeps makes of it. */
  ghost predicate Decided<V>(initial: Option<V>, effects: seq<Effect<V>>, last: Option<V>) {
    && (forall j :: IsLast(effects, j) ==> last == if effects[j].Sets? then Some(effects[j].value) else None)
    && ((forall k :: 0 <= k < |effects| ==> effects[k].Keeps?) ==> last == initial)
  }

  /** What each operation does to the entry, on the contents that it found. */
  ghost function EffectsOf<V(!new)>(c: Contents, ops: seq<Op>, effect: (Contents, Op) -> Effect<V>): (r: seq<Effect<V>>)
    ensures |r| == |ops|
  {
    if ops == [] then []
    else
      var n := |ops| - 1;
      EffectsOf(c, ops[..n], effect) + [effect(ApplyAll(c, ops[..n]), ops[n])]
  }

  lemma {:induction false} EffectAt<V(!new)>(c: Contents, ops: seq<Op>, effect: (Contents, Op) -> Effect<V>, j: nat)
    requires j < |ops|
    ensures EffectsOf(c, ops, effect)[j] == effect(ApplyAll(c, ops[..j]), ops[j])
  {
    hide ApplyAll;
    var n := |ops| - 1;
    if j < n {
      EffectAt(c, ops[..n], effect, j);
      assert ops[..n][..j] == ops[..j];
    }
  }

  lemma DecidedNext<V>(initial: Option<V>, effects: seq<Effect<V>>, last: Option<V>, e: Effect<V>)
    requires Decided(initial, effects, last)
    ensures Decided(initial, effects + [e], Outcome(e, last))
  {
    var all, n := effects + [e], |effects|;
    assert all[n] == e && forall k :: 0 <= k < n ==> all[k] == effects[k];
    forall j | IsLast(all, j) ensures Outcome(e, last) == Outcome(all[j], None) {
      if j < n {
        assert all[n].Keeps?;
        forall k | j < k < n ensures effects[k].Keeps? {
          assert all[k].Keeps?;
        }
        assert IsLast(effects, j);
      }
    }
    if forall k :: 0 <= k < n + 1 ==> all[k].Keeps? {
      assert all[n].Keeps?;
      forall k | 0 <= k < n ensures effects[k].Keeps? {
        assert all[k].Keeps?;
      }
    }
  }

  lemma {:induction false} LastDecides<V(!new)>(c: Contents, ops: seq<Op>, get: Contents -> Option<V>,
                                                effect: (Contents, Op) -> Effect<V>)
    requires forall d, op :: get(Apply(d, op).0) == Outcome(effect(d, op), get(d))
    ensures Decided(get(c), EffectsOf(c, ops, effect), get(ApplyAll(c, ops)))
  {
    if ops == [] {
      NoEffects(get(c));
    } else {
      hide Decided, Apply, Outcome;
      var before := ApplyAll(c, ops[..|ops| - 1]);
      LastDecides(c, ops[..|ops| - 1], get, effect);
      DecidedNext(get(c), EffectsOf(c, ops[..|ops| - 1], effect), get(before), effect(before, ops[|ops| - 1]));
    }
  }

  lemma NoEffects<V>(initial: Option<V>)
    ensures Decided(initial, [], initial)
  {
  }

  /** "group::" and anything behind it. */
  ghost predicate InGroup(id: string, groupId: string) {
    exists sender: string :: id == groupId + "::" + sender
  }

  lemma PrefixInGroup(id: string, groupId: string)
    ensures StartsWith(id, groupId + "::") <==> InGroup(id, groupId)
  {
    if StartsWith(id, groupId + "::") {
      assert id == groupId + "::" + id[|groupId| + 2..];
    }
  }

  function Reserved(published: set<int>, id: int): Option<()> {
    if id in published then Some(()) else None
  }

  /** When the signed prekey `id` was retired, as of storing `signed`: a latest one with another id is retired now. */
  function RetiredAt(c: Contents, signed: SignedPreKey, now: int, id: int): Option<int> {
    if c.latestSignedPreKey.Some? && c.latestSignedPreKey.value.keyId == id && id != signed.keyId then Some(now)
    else Lookup(c.retired, id)
  }

  // Sessions.

  ghost function OnSession(c: Contents, op: Op, id: string): Effect<SessionRecord> {
    match op
    case StoreSession(i, record) => if i == id then Sets(record) else Keeps
    case RemoveIdentity(x) => if BelongsTo(id, x) then Drops else Keeps
    case SaveIdentity(x, key) =>
      if BelongsTo(id, x) && x in c.trusted && c.trusted[x] != key then Drops else Keeps
    case _ => Keeps
  }

  lemma SessionStep(c: Contents, op: Op, id: string)
    ensures Lookup(Apply(c, op).0.sessions, id) == Outcome(OnSession(c, op, id), Lookup(c.sessions, id))
  {
    if op.RemoveIdentity? || op.SaveIdentity? {
      PrefixBelongs(id, op.identifier);
    }
    hide BelongsTo;
  }

  /** A session is the record that was stored last under its id, unless an identity that it belongs to was removed
      since, or saved with another key. */
  lemma SessionReads(c: Contents, ops: seq<Op>, id: string)
    ensures Decided(Lookup(c.sessions, id), EffectsOf(c, ops, (d, op) => OnSession(d, op, id)),
                    Lookup(ApplyAll(c, ops).sessions, id))
  {
    hide *;
    forall d, op ensures Lookup(Apply(d, op).0.sessions, id) == Outcome(OnSession(d, op, id), Lookup(d.sessions, id)) {
      SessionStep(d, op, id);
    }
    LastDecides(c, ops, (d: Contents) => Lookup(d.sessions, id), (d, op) => OnSession(d, op, id));
  }

  // Sender keys.

  ghost function OnSenderKey(c: Contents, op: Op, id: string): Effect<SenderKeyRecord> {
    match op
    case StoreSenderKey(i, record) => if i == id then Sets(record) else Keeps
    case RemoveSenderKey(i) => if i == id then Drops else Keeps
    case RemoveGroupSessions(groupId) => if InGroup(id, groupId) then Drops else Keeps
    case _ => Keeps
  }

  lemma SenderKeyStep(c: Contents, op: Op, id: string)
    ensures Lookup(Apply(c, op).0.senderKeys, id) == Outcome(OnSenderKey(c, op, id), Lookup(c.senderKeys, id))
  {
    if op.RemoveGroupSessions? {
      PrefixInGroup(id, op.groupId);
    }
    hide InGroup;
  }

  /** A sender key is the record that was stored last under its id, unless it or its group was removed since. */
  lemma SenderKeyReads(c: Contents, ops: seq<Op>, id: string)
    ensures Decided(Lookup(c.senderKeys, id), EffectsOf(c, ops, (d, op) => OnSenderKey(d, op, id)),
                    Lookup(ApplyAll(c, ops).senderKeys, id))
  {
    hide *;
    forall d, op
      ensures Lookup(Apply(d, op).0.senderKeys, id) == Outcome(OnSenderKey(d, op, id), Lookup(d.senderKeys, id))
    {
      SenderKeyStep(d, op, id);
    }
    LastDecides(c, ops, (d: Contents) => Lookup(d.senderKeys, id), (d, op) => OnSenderKey(d, op, id));
  }

  // Identities.

  ghost function OnIdentity(c: Contents, op: Op, identifier: string): Effect<Bytes> {
    match op
    case IsTrustedIdentity(x, key, strict) =>
      if x == identifier && identifier !in c.trusted && !strict then Sets(key) else Keeps
    case SaveIdentity(x, key) => if x == identifier then Sets(key) else Keeps
    case RemoveIdentity(x) => if x == identifier then Drops else Keeps
    case _ => Keeps
  }

  lemma IdentityStep(c: Contents, op: Op, identifier: string)
    ensures Lookup(Apply(c, op).0.trusted, identifier)
            == Outcome(OnIdentity(c, op, identifier), Lookup(c.trusted, identifier))
  {
    if !op.IsTrustedIdentity? && !op.SaveIdentity? && !op.RemoveIdentity? {
      OthersKeepTrusted(c, op);
      hide Apply;
    } else {
      hide WithoutSessionsOf;
    }
  }

  lemma OthersKeepTrusted(c: Contents, op: Op)
    requires !op.IsTrustedIdentity? && !op.SaveIdentity? && !op.RemoveIdentity?
    ensures Apply(c, op).0.trusted == c.trusted
  {
  }

  /** The key of an identity is the one saved last, or the first that was asked for since there was none, unless the
      policy is strict. */
  lemma IdentityReads(c: Contents, ops: seq<Op>, identifier: string)
    ensures Decided(Lookup(c.trusted, identifier), EffectsOf(c, ops, (d, op) => OnIdentity(d, op, identifier)),
                    Lookup(ApplyAll(c, ops).trusted, identifier))
  {
    hide *;
    forall d, op
      ensures Lookup(Apply(d, op).0.trusted, identifier)
              == Outcome(OnIdentity(d, op, identifier), Lookup(d.trusted, identifier))
    {
      IdentityStep(d, op, identifier);
    }
    LastDecides(c, ops, (d: Contents) => Lookup(d.trusted, identifier), (d, op) => OnIdentity(d, op, identifier));
  }

  // Prekeys.

  ghost function OnPreKey(c: Contents, op: Op, id: int): Effect<KeyPair> {
    match op
    case StorePreKey(i, pair) => if i == id then Sets(pair) else Keeps
    case RemovePreKey(i) => if i == id then Drops else Keeps
    case _ => Keeps
  }

  lemma PreKeyStep(c: Contents, op: Op, id: int)
    ensures Lookup(Apply(c, op).0.preKeys, id) == Outcome(OnPreKey(c, op, id), Lookup(c.preKeys, id))
  {
  }

  /** A prekey is the pair that was stored last under its id, unless it was removed since. */
  lemma PreKeyReads(c: Contents, ops: seq<Op>, id: int)
    ensures Decided(Lookup(c.preKeys, id), EffectsOf(c, ops, (d, op) => OnPreKey(d, op, id)),
                    Lookup(ApplyAll(c, ops).preKeys, id))
  {
    hide *;
    forall d, op ensures Lookup(Apply(d, op).0.preKeys, id) == Outcome(OnPreKey(d, op, id), Lookup(d.preKeys, id)) {
      PreKeyStep(d, op, id);
    }
    LastDecides(c, ops, (d: Contents) => Lookup(d.preKeys, id), (d, op) => OnPreKey(d, op, id));
  }

  // Reservations.

  ghost function OnReservation(c: Contents, op: Op, id: int): Effect<()> {
    match op
    case ReservePreKey(i) => if i == id && id in c.preKeys then Sets(()) else Keeps
    case ReleasePreKey(i) => if i == id then Drops else Keeps
    case RemovePreKey(i) => if i == id then Drops else Keeps
    case _ => Keeps
  }

  lemma ReservationStep(c: Contents, op: Op, id: int)
    ensures Reserved(Apply(c, op).0.published, id) == Outcome(OnReservation(c, op, id), Reserved(c.published, id))
  {
    hide WithoutSessionsOf, WithoutGroup;
  }

  /** A prekey is reserved if it was reserved while it was stored, and neither released nor removed since. */
  lemma ReservationReads(c: Contents, ops: seq<Op>, id: int)
    ensures Decided(Reserved(c.published, id), EffectsOf(c, ops, (d, op) => OnReservation(d, op, id)),
                    Reserved(ApplyAll(c, ops).published, id))
  {
    hide *;
    forall d, op
      ensures Reserved(Apply(d, op).0.published, id) == Outcome(OnReservation(d, op, id), Reserved(d.published, id))
    {
      ReservationStep(d, op, id);
    }
    LastDecides(c, ops, (d: Contents) => Reserved(d.published, id), (d, op) => OnReservation(d, op, id));
  }

  // Signed prekeys.

  ghost function OnSignedPair(c: Contents, op: Op, id: int): Effect<KeyPair> {
    match op
    case StoreSignedPair(i, pair) => if i == id then Sets(pair) else Keeps
    case StoreSignedPreKey(signed, now, gracePeriod) =>
      var retiredAt := RetiredAt(c, signed, now, id);
      if retiredAt.Some? && now - retiredAt.value >= gracePeriod then Drops
      else if signed.keyId == id then Sets(signed.keyPair) else Keeps
    case RemoveSignedPreKey(i) => if i == id then Drops else Keeps
    case _ => Keeps
  }

  lemma SignedPairStep(c: Contents, op: Op, id: int)
    ensures Lookup(Apply(c, op).0.signedPreKeys, id) == Outcome(OnSignedPair(c, op, id), Lookup(c.signedPreKeys, id))
  {
    hide WithoutSessionsOf, WithoutGroup;
  }

  /** A signed prekey is the pair that was stored last under its id, unless it was removed since, or found retired
      for the grace period when a signed prekey was stored. */
  lemma SignedPairReads(c: Contents, ops: seq<Op>, id: int)
    ensures Decided(Lookup(c.signedPreKeys, id), EffectsOf(c, ops, (d, op) => OnSignedPair(d, op, id)),
                    Lookup(ApplyAll(c, ops).signedPreKeys, id))
  {
    hide *;
    forall d, op
      ensures Lookup(Apply(d, op).0.signedPreKeys, id) == Outcome(OnSignedPair(d, op, id), Lookup(d.signedPreKeys, id))
    {
      SignedPairStep(d, op, id);
    }
    LastDecides(c, ops, (d: Contents) => Lookup(d.signedPreKeys, id), (d, op) => OnSignedPair(d, op, id));
  }

  // When signed prekeys were retired.

  ghost function OnRetirement(c: Contents, op: Op, id: int): Effect<int> {
    match op
    case StoreSignedPreKey(signed, now, gracePeriod) =>
      var retiredAt := RetiredAt(c, signed, now, id);
      if retiredAt.None? then Keeps
      else if now - retiredAt.value >= gracePeriod then Drops else Sets(retiredAt.value)
    case RemoveSignedPreKey(i) => if i == id then Drops else Keeps
    case _ => Keeps
  }

  lemma RetirementStep(c: Contents, op: Op, id: int)
    ensures Lookup(Apply(c, op).0.retired, id) == Outcome(OnRetirement(c, op, id), Lookup(c.retired, id))
  {
    hide WithoutSessionsOf, WithoutGroup;
  }

  /** A signed prekey is retired by the next one with another id, until it is removed or found expired. */
  lemma RetirementReads(c: Contents, ops: seq<Op>, id: int)
    ensures Decided(Lookup(c.retired, id), EffectsOf(c, ops, (d, op) => OnRetirement(d, op, id)),
                    Lookup(ApplyAll(c, ops).retired, id))
  {
    hide *;
    forall d, op ensures Lookup(Apply(d, op).0.retired, id) == Outcome(OnRetirement(d, op, id), Lookup(d.retired, id)) {
      RetirementStep(d, op, id);
    }
    LastDecides(c, ops, (d: Contents) => Lookup(d.retired, id), (d, op) => OnRetirement(d, op, id));
  }

  // The newest signed prekey.

  ghost function OnLatest(c: Contents, op: Op): Effect<SignedPreKey> {
    match op
    case StoreSignedPreKey(signed, _, _) => Sets(signed)
    case _ => Keeps
  }

  lemma LatestStep(c: Contents, op: Op)
    ensures Apply(c, op).0.latestSignedPreKey == Outcome(OnLatest(c, op), c.latestSignedPreKey)
  {
  }

  /** The latest signed prekey is the record that was stored last; removing its pair does not change that. */
  lemma LatestReads(c: Contents, ops: seq<Op>)
    ensures Decided(c.latestSignedPreKey, EffectsOf(c, ops, (d, op) => OnLatest(d, op)),
                    ApplyAll(c, ops).latestSignedPreKey)
  {
    hide *;
    forall d, op ensures Apply(d, op).0.latestSignedPreKey == Outcome(OnLatest(d, op), d.latestSignedPreKey) {
      LatestStep(d, op);
    }
    LastDecides(c, ops, (d: Contents) => d.latestSignedPreKey, (d, op) => OnLatest(d, op));
  }

  // The counter of prekey ids.

  ghost function OnNextId(c: Contents, op: Op): Effect<int> {
    match op
    case SetNextPreKeyId(id) => Sets(id)
    case _ => Keeps
  }

  lemma NextIdStep(c: Contents, op: Op)
    ensures Some(Apply(c, op).0.nextPreKeyId) == Outcome(OnNextId(c, op), Some(c.nextPreKeyId))
  {
  }

  /** The next prekey id is the one that was set last. */
  lemma NextIdReads(c: Contents, ops: seq<Op>)
    ensures Decided(Some(c.nextPreKeyId), EffectsOf(c, ops, (d, op) => OnNextId(d, op)),
                    Some(ApplyAll(c, ops).nextPreKeyId))
  {
    hide *;
    forall d, op ensures Some(Apply(d, op).0.nextPreKeyId) == Outcome(OnNextId(d, op), Some(d.nextPreKeyId)) {
      NextIdStep(d, op);
    }
    LastDecides(c, ops, (d: Contents) => Some(d.nextPreKeyId), (d, op) => OnNextId(d, op));
  }

  // What never changes, and what the operations answer.

  lemma OwnIdentityStep(c: Contents, op: Op)
    ensures Apply(c, op).0.identity == c.identity && Apply(c, op).0.registrationId == c.registrationId
  {
  }

  lemma {:induction false} OwnIdentityStays(c: Contents, ops: seq<Op>)
    ensures ApplyAll(c, ops).identity == c.identity && ApplyAll(c, ops).registrationId == c.registrationId
  {
    hide Apply;
    if ops != [] {
      OwnIdentityStays(c, ops[..|ops| - 1]);
      OwnIdentityStep(ApplyAll(c, ops[..|ops| - 1]), ops[|ops| - 1]);
    }
  }

  /** The boolean of the operations that return one, for whatever came before. */
  lemma Answers(c: Contents, ops: seq<Op>, op: Op)
    ensures var d := ApplyAll(c, ops); var answer := Apply(d, op).1;
            match op
            case IsTrustedIdentity(x, key, strict) =>
              answer == if x in d.trusted then d.trusted[x] == key else !strict
            case SaveIdentity(x, key) => answer == (x !in d.trusted || d.trusted[x] != key)
            case ReservePreKey(id) => answer == (id in d.preKeys && id !in d.published)
            case ReleasePreKey(id) => answer == (id in d.published)
            case _ => true
  {
    hide ApplyAll;
  }
}
