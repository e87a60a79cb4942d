/** The two stores that come with the library, each on its own fields: the one in memory, and the
    memory part of the one on a file, with its snapshots. */
module Stores {
  import opened Wrappers
  import opened IntSets
  import opened Objects
  import opened StorageContents
  import opened StorageSnapshots
  import SessionForms
  import SenderKeyForms

  /** What a store calls its listeners with. */
  datatype Notice = PreKeyRemoved(id: int) | IdentityChanged(identifier: string)

  function NewContents(identity: KeyPair, registrationId: int): Contents {
    Contents(identity, registrationId, 1, None, map[], {}, map[], map[], map[], map[], map[])
  }

  function IdentityNotices(c: Contents, op: Op): seq<Notice> {
    match op
    case SaveIdentity(identifier, key) =>
      if identifier in c.trusted && c.trusted[identifier] != key then [IdentityChanged(identifier)] else []
    case _ => []
  }

  /** The store in memory tells of a removal only if the prekey was there. */
  function MemoryNotices(c: Contents, op: Op): seq<Notice> {
    if op.RemovePreKey? then if op.preKeyId in c.preKeys then [PreKeyRemoved(op.preKeyId)] else []
    else IdentityNotices(c, op)
  }

  /** The store on a file always does. */
  function FileNotices(c: Contents, op: Op): seq<Notice> {
    if op.RemovePreKey? then [PreKeyRemoved(op.preKeyId)] else IdentityNotices(c, op)
  }

  lemma PruningEnds(retired: map<int, int>, now: int, gracePeriod: int, gone: set<int>)
    requires Pruning(retired, now, gracePeriod, {}, gone)
    ensures gone == set id | id in retired && now - retired[id] >= gracePeriod
  {
    forall id ensures id in gone <==> id in retired && now - retired[id] >= gracePeriod {
      assert id in gone ==> id in retired.Keys;
    }
  }

  predicate OnRecords(op: Op) {
    op.StoreSession? || op.StoreSenderKey? || op.RemoveSenderKey? || op.RemoveGroupSessions? || op.IsTrustedIdentity?
    || op.SaveIdentity? || op.RemoveIdentity?
  }

  /** The ids that are still to be looked at, and those that had their time. */
  ghost predicate Pruning(retired: map<int, int>, now: int, gracePeriod: int, ids: set<int>, gone: set<int>) {
    && ids <= retired.Keys && ids !! gone && gone <= retired.Keys
    && forall id :: id in retired && id !in ids ==> (id in gone <==> now - retired[id] >= gracePeriod)
  }

  /** src/memory-storage.ts */
  class MemorySignalStorage {
    const identity: KeyPair
    const registrationId: int
    var sessions: map<string, SessionRecord>
    var preKeys: map<int, KeyPair>
    var published: set<int>
    var signedPreKeys: map<int, KeyPair>
    var trusted: map<string, Bytes>
    var senderKeys: map<string, SenderKeyRecord>
    var retired: map<int, int>
    var nextPreKeyId: int
    var latestSignedPreKey: Option<SignedPreKey>

    function View(): Contents
      reads this
    {
      Contents(identity, registrationId, nextPreKeyId, latestSignedPreKey, preKeys, published, signedPreKeys, retired,
               trusted, sessions, senderKeys)
    }

    constructor (identity: KeyPair, registrationId: int)
      ensures View() == NewContents(identity, registrationId)
    {
      this.identity, this.registrationId := identity, registrationId;
      sessions, preKeys, published, signedPreKeys, trusted := map[], map[], {}, map[], map[];
      senderKeys, retired, nextPreKeyId, latestSignedPreKey := map[], map[], 1, None;
    }

    /** removeSessionsForIdentifier: the keys in whatever order. */
    method RemoveSessionsFor(identifier: string)
      modifies this`sessions
      ensures sessions == WithoutSessionsOf(old(sessions), identifier)
    {
      var prefix := identifier + ".";
      var keys := sessions.Keys;
      while keys != {}
        invariant keys <= old(sessions).Keys
        invariant sessions == map id | id in old(sessions)
                  && (id in keys || !(id == identifier || StartsWith(id, prefix))) :: old(sessions)[id]
      {
        var id :| id in keys;
        keys := keys - {id};
        if id == identifier || StartsWith(id, prefix) {
          sessions := sessions - {id};
        }
      }
    }

    method RemoveGroup(groupId: string)
      modifies this`senderKeys
      ensures senderKeys == WithoutGroup(old(senderKeys), groupId)
    {
      var prefix := groupId + "::";
      var keys := senderKeys.Keys;
      while keys != {}
        invariant keys <= old(senderKeys).Keys
        invariant senderKeys == map id | id in old(senderKeys)
                  && (id in keys || !StartsWith(id, prefix)) :: old(senderKeys)[id]
      {
        var id :| id in keys;
        keys := keys - {id};
        if StartsWith(id, prefix) {
          senderKeys := senderKeys - {id};
        }
      }
    }

    /** pruneRetiredSignedPreKeys */
    method PruneRetired(now: int, gracePeriod: int)
      modifies this`retired, this`signedPreKeys
      ensures View() == Pruned(old(View()), now, gracePeriod)
    {
      ghost var gone: set<int> := {};
      var ids := retired.Keys;
      while ids != {}
        invariant Pruning(old(retired), now, gracePeriod, ids, gone)
        invariant retired == old(retired) - gone && signedPreKeys == old(signedPreKeys) - gone
      {
        ghost var any := Pick(ids);
        var id :| id in ids;
        ids := ids - {id};
        if now - retired[id] >= gracePeriod {
          signedPreKeys, retired, gone := signedPreKeys - {id}, retired - {id}, gone + {id};
        }
      }
      PruningEnds(old(retired), now, gracePeriod, gone);
    }

    method SaveIdentity(identifier: string, key: Bytes) returns (changed: bool, told: seq<Notice>)
      modifies this`trusted, this`sessions
      ensures (View(), changed) == Apply(old(View()), Op.SaveIdentity(identifier, key))
      ensures told == MemoryNotices(old(View()), Op.SaveIdentity(identifier, key))
    {
      var existing := if identifier in trusted then Some(trusted[identifier]) else None;
      changed, told := existing.None? || existing.value != key, [];
      trusted := trusted[identifier := key];
      if existing.Some? && changed {
        RemoveSessionsFor(identifier);
        told := [IdentityChanged(identifier)];
      }
    }

    method StoreSigned(signed: SignedPreKey, now: int, gracePeriod: int)
      modifies this
      ensures View() == Apply(old(View()), StoreSignedPreKey(signed, now, gracePeriod)).0
    {
      if latestSignedPreKey.Some? && latestSignedPreKey.value.keyId != signed.keyId {
        retired := retired[latestSignedPreKey.value.keyId := now];
      }
      signedPreKeys := signedPreKeys[signed.keyId := signed.keyPair];
      latestSignedPreKey := Some(signed);
      hide Pruned;
      PruneRetired(now, gracePeriod);
    }

    method IsTrusted(identifier: string, key: Bytes, strict: bool) returns (answer: bool)
      modifies this`trusted
      ensures (View(), answer) == Apply(old(View()), IsTrustedIdentity(identifier, key, strict))
    {
      if identifier !in trusted {
        if strict {
          return false;
        }
        trusted := trusted[identifier := key];
        return true;
      }
      return trusted[identifier] == key;
    }

    method Reserve(id: int) returns (answer: bool)
      modifies this`published
      ensures (View(), answer) == Apply(old(View()), ReservePreKey(id))
    {
      if id !in preKeys || id in published {
        return false;
      }
      published := published + {id};
      return true;
    }

    method DoOnRecords(op: Op) returns (answer: bool, told: seq<Notice>)
      requires OnRecords(op)
      modifies this
      ensures (View(), answer) == Apply(old(View()), op) && told == MemoryNotices(old(View()), op)
    {
      answer, told := true, [];
      hide WithoutSessionsOf, WithoutGroup, Pruned;
      match op
      case StoreSession(id, session) => sessions := sessions[id := session];
      case StoreSenderKey(id, senderKey) => senderKeys := senderKeys[id := senderKey];
      case RemoveSenderKey(id) => senderKeys := senderKeys - {id};
      case RemoveGroupSessions(groupId) => RemoveGroup(groupId);
      case IsTrustedIdentity(identifier, key, strict) => answer := IsTrusted(identifier, key, strict);
      case SaveIdentity(identifier, key) => answer, told := SaveIdentity(identifier, key);
      case RemoveIdentity(identifier) =>
        trusted := trusted - {identifier};
        RemoveSessionsFor(identifier);
    }

    method DoOnKeys(op: Op) returns (answer: bool, told: seq<Notice>)
      requires !OnRecords(op)
      modifies this
      ensures (View(), answer) == Apply(old(View()), op) && told == MemoryNotices(old(View()), op)
    {
      answer, told := true, [];
      hide WithoutSessionsOf, WithoutGroup, Pruned;
      match op
      case StorePreKey(id, pair) => preKeys := preKeys[id := pair];
      case RemovePreKey(id) =>
        if id in preKeys {
          told := [PreKeyRemoved(id)];
        }
        preKeys, published := preKeys - {id}, published - {id};
      case ReservePreKey(id) => answer := Reserve(id);
      case ReleasePreKey(id) =>
        answer := id in published;
        published := published - {id};
      case SetNextPreKeyId(id) => nextPreKeyId := id;
      case StoreSignedPair(id, pair) => signedPreKeys := signedPreKeys[id := pair];
      case StoreSignedPreKey(signed, now, gracePeriod) => StoreSigned(signed, now, gracePeriod);
      case RemoveSignedPreKey(id) => signedPreKeys, retired := signedPreKeys - {id}, retired - {id};
    }

    /** The operations, and what the listeners are told. */
    method Do(op: Op) returns (answer: bool, told: seq<Notice>)
      modifies this
      ensures (View(), answer) == Apply(old(View()), op) && told == MemoryNotices(old(View()), op)
    {
      if OnRecords(op) {
        hide *;
        answer, told := DoOnRecords(op);
      } else {
        hide *;
        answer, told := DoOnKeys(op);
      }
    }
  }

  /** The memory part of src/file-storage.ts. What is saved when is in FileStorage.dfy. */
  class FileSignalFields {
    const identity: KeyPair
    const registrationId: int
    var sessions: map<string, SessionRecord>
    var preKeys: map<int, KeyPair>
    var published: set<int>
    var signedPreKeys: map<int, KeyPair>
    var trusted: map<string, Bytes>
    var senderKeys: map<string, SenderKeyRecord>
    var retired: map<int, int>
    var nextPreKeyId: int
    var latestSignedPreKey: Option<SignedPreKey>

    function View(): Contents
      reads this
    {
      Contents(identity, registrationId, nextPreKeyId, latestSignedPreKey, preKeys, published, signedPreKeys, retired,
               trusted, sessions, senderKeys)
    }

    constructor (identity: KeyPair, registrationId: int)
      ensures View() == NewContents(identity, registrationId)
    {
      this.identity, this.registrationId := identity, registrationId;
      sessions, preKeys, published, signedPreKeys, trusted := map[], map[], {}, map[], map[];
      senderKeys, retired, nextPreKeyId, latestSignedPreKey := map[], map[], 1, None;
    }

    /** removeSessionsForIdentifier: the keys in whatever order. */
    method RemoveSessionsFor(identifier: string)
      modifies this`sessions
      ensures sessions == WithoutSessionsOf(old(sessions), identifier)
    {
      var prefix := identifier + ".";
      var keys := sessions.Keys;
      while keys != {}
        invariant keys <= old(sessions).Keys
        invariant sessions == map id | id in old(sessions)
                  && (id in keys || !(id == identifier || StartsWith(id, prefix))) :: old(sessions)[id]
      {
        var id :| id in keys;
        keys := keys - {id};
        if id == identifier || StartsWith(id, prefix) {
          sessions := sessions - {id};
        }
      }
    }

    method RemoveGroup(groupId: string)
      modifies this`senderKeys
      ensures senderKeys == WithoutGroup(old(senderKeys), groupId)
    {
      var prefix := groupId + "::";
      var keys := senderKeys.Keys;
      while keys != {}
        invariant keys <= old(senderKeys).Keys
        invariant senderKeys == map id | id in old(senderKeys)
                  && (id in keys || !StartsWith(id, prefix)) :: old(senderKeys)[id]
      {
        var id :| id in keys;
        keys := keys - {id};
        if StartsWith(id, prefix) {
          senderKeys := senderKeys - {id};
        }
      }
    }

    /** pruneRetiredSignedPreKeys */
    method PruneRetired(now: int, gracePeriod: int)
      modifies this`retired, this`signedPreKeys
      ensures View() == Pruned(old(View()), now, gracePeriod)
    {
      ghost var gone: set<int> := {};
      var ids := retired.Keys;
      while ids != {}
        invariant Pruning(old(retired), now, gracePeriod, ids, gone)
        invariant retired == old(retired) - gone && signedPreKeys == old(signedPreKeys) - gone
      {
        ghost var any := Pick(ids);
        var id :| id in ids;
        ids := ids - {id};
        if now - retired[id] >= gracePeriod {
          signedPreKeys, retired, gone := signedPreKeys - {id}, retired - {id}, gone + {id};
        }
      }
      PruningEnds(old(retired), now, gracePeriod, gone);
    }

    method SaveIdentity(identifier: string, key: Bytes) returns (changed: bool, told: seq<Notice>)
      modifies this`trusted, this`sessions
      ensures (View(), changed) == Apply(old(View()), Op.SaveIdentity(identifier, key))
      ensures told == FileNotices(old(View()), Op.SaveIdentity(identifier, key))
    {
      var existing := if identifier in trusted then Some(trusted[identifier]) else None;
      changed, told := existing.None? || existing.value != key, [];
      trusted := trusted[identifier := key];
      if existing.Some? && changed {
        RemoveSessionsFor(identifier);
        told := [IdentityChanged(identifier)];
      }
    }

    method StoreSigned(signed: SignedPreKey, now: int, gracePeriod: int)
      modifies this
      ensures View() == Apply(old(View()), StoreSignedPreKey(signed, now, gracePeriod)).0
    {
      if latestSignedPreKey.Some? && latestSignedPreKey.value.keyId != signed.keyId {
        retired := retired[latestSignedPreKey.value.keyId := now];
      }
      signedPreKeys := signedPreKeys[signed.keyId := signed.keyPair];
      latestSignedPreKey := Some(signed);
      hide Pruned;
      PruneRetired(now, gracePeriod);
    }

    method IsTrusted(identifier: string, key: Bytes, strict: bool) returns (answer: bool)
      modifies this`trusted
      ensures (View(), answer) == Apply(old(View()), IsTrustedIdentity(identifier, key, strict))
    {
      if identifier !in trusted {
        if strict {
          return false;
        }
        trusted := trusted[identifier := key];
        return true;
      }
      return trusted[identifier] == key;
    }

    method Reserve(id: int) returns (answer: bool)
      modifies this`published
      ensures (View(), answer) == Apply(old(View()), ReservePreKey(id))
    {
      if id !in preKeys || id in published {
        return false;
      }
      published := published + {id};
      return true;
    }

    method DoOnRecords(op: Op) returns (answer: bool, told: seq<Notice>)
      requires OnRecords(op)
      modifies this
      ensures (View(), answer) == Apply(old(View()), op) && told == FileNotices(old(View()), op)
    {
      answer, told := true, [];
      hide WithoutSessionsOf, WithoutGroup, Pruned;
      match op
      case StoreSession(id, session) => sessions := sessions[id := session];
      case StoreSenderKey(id, senderKey) => senderKeys := senderKeys[id := senderKey];
      case RemoveSenderKey(id) => senderKeys := senderKeys - {id};
      case RemoveGroupSessions(groupId) => RemoveGroup(groupId);
      case IsTrustedIdentity(identifier, key, strict) => answer := IsTrusted(identifier, key, strict);
      case SaveIdentity(identifier, key) => answer, told := SaveIdentity(identifier, key);
      case RemoveIdentity(identifier) =>
        trusted := trusted - {identifier};
        RemoveSessionsFor(identifier);
    }

    method DoOnKeys(op: Op) returns (answer: bool, told: seq<Notice>)
      requires !OnRecords(op)
      modifies this
      ensures (View(), answer) == Apply(old(View()), op) && told == FileNotices(old(View()), op)
    {
      answer, told := true, [];
      hide WithoutSessionsOf, WithoutGroup, Pruned;
      match op
      case StorePreKey(id, pair) => preKeys := preKeys[id := pair];
      case RemovePreKey(id) =>
        preKeys, published := preKeys - {id}, published - {id};
        told := [PreKeyRemoved(id)];
      case ReservePreKey(id) => answer := Reserve(id);
      case ReleasePreKey(id) =>
        answer := id in published;
        published := published - {id};
      case SetNextPreKeyId(id) => nextPreKeyId := id;
      case StoreSignedPair(id, pair) => signedPreKeys := signedPreKeys[id := pair];
      case StoreSignedPreKey(signed, now, gracePeriod) => StoreSigned(signed, now, gracePeriod);
      case RemoveSignedPreKey(id) => signedPreKeys, retired := signedPreKeys - {id}, retired - {id};
    }

    /** The operations, and what the listeners are told. */
    method Do(op: Op) returns (answer: bool, told: seq<Notice>)
      modifies this
      ensures (View(), answer) == Apply(old(View()), op) && told == FileNotices(old(View()), op)
    {
      if OnRecords(op) {
        hide *;
        answer, told := DoOnRecords(op);
      } else {
        hide *;
        answer, told := DoOnKeys(op);
      }
    }

    /** toSnapshot */
    method ToSnapshot() returns (p: Persisted)
      ensures p == StorageSnapshots.ToSnapshot(View())
    {
      var sessionForms := SessionsInForm();
      var senderKeyForms := SenderKeysInForm();
      p := Persisted(identity, registrationId, nextPreKeyId, latestSignedPreKey, ToObject(preKeys),
                     SortedKeys(published),
                     ToObject(signedPreKeys), ToObject(retired), trusted, sessionForms, senderKeyForms);
    }

    method SessionsInForm() returns (forms: map<string, SessionForms.RecordForm>)
      ensures forms == SerializeSessions(sessions)
    {
      forms := map[];
      var ids := sessions.Keys;
      hide SessionForms.Serialize;
      while ids != {}
        invariant ids <= sessions.Keys
        invariant forms == SerializeSessions(map id | id in sessions && id !in ids :: sessions[id])
      {
        var id :| id in ids;
        ids := ids - {id};
        if IsOwn(id) {
          forms := forms[id := SessionForms.Serialize(sessions[id])];
        }
      }
      assert (map id | id in sessions && id !in ids :: sessions[id]) == sessions;
    }

    method SenderKeysInForm() returns (forms: map<string, seq<SenderKeyForms.StateForm>>)
      ensures forms == SerializeSenderKeys(senderKeys)
    {
      forms := map[];
      var ids := senderKeys.Keys;
      hide SenderKeyForms.SerializeRecord;
      while ids != {}
        invariant ids <= senderKeys.Keys
        invariant forms == SerializeSenderKeys(map id | id in senderKeys && id !in ids :: senderKeys[id])
      {
        var id :| id in ids;
        ids := ids - {id};
        if IsOwn(id) {
          forms := forms[id := SenderKeyForms.SerializeRecord(senderKeys[id])];
        }
      }
      assert (map id | id in senderKeys && id !in ids :: senderKeys[id]) == senderKeys;
    }

    /** The sessions part of applySnapshot. */
    method AddSessions(forms: map<string, SessionForms.RecordForm>) returns (ok: bool)
      requires sessions == map[]
      modifies this`sessions
      ensures ok <==> forall id :: id in forms ==> SessionForms.Deserialize(forms[id]).Success?
      ensures ok ==> sessions == LoadSessions(forms)
    {
      var ids := forms.Keys;
      hide SessionForms.Deserialize;
      while ids != {}
        invariant ids <= forms.Keys && forall id :: id in forms && id !in ids ==>
                  SessionForms.Deserialize(forms[id]).Success?
        invariant sessions == LoadSessions(map id | id in forms && id !in ids :: forms[id])
      {
        var id :| id in ids;
        var session := SessionForms.Deserialize(forms[id]);
        if session.Failure? {
          return false;
        }
        ids := ids - {id};
        sessions := sessions[id := session.value];
      }
      assert (map id | id in forms && id !in ids :: forms[id]) == forms;
      ok := true;
    }

    method AddSenderKeys(forms: map<string, seq<SenderKeyForms.StateForm>>) returns (ok: bool)
      requires senderKeys == map[]
      modifies this`senderKeys
      ensures ok <==> forall id :: id in forms ==> SenderKeyForms.DeserializeRecord(forms[id]).Success?
      ensures ok ==> senderKeys == LoadSenderKeys(forms)
    {
      var ids := forms.Keys;
      hide SenderKeyForms.DeserializeRecord;
      while ids != {}
        invariant ids <= forms.Keys && forall id :: id in forms && id !in ids ==>
                  SenderKeyForms.DeserializeRecord(forms[id]).Success?
        invariant senderKeys == LoadSenderKeys(map id | id in forms && id !in ids :: forms[id])
      {
        var id :| id in ids;
        var record := SenderKeyForms.DeserializeRecord(forms[id]);
        if record.Failure? {
          return false;
        }
        ids := ids - {id};
        senderKeys := senderKeys[id := record.value];
      }
      assert (map id | id in forms && id !in ids :: forms[id]) == forms;
      ok := true;
    }

    /** The reservations whose prekeys are there. */
    method AddPublished(ids: seq<int>)
      requires published == {}
      modifies this`published
      ensures published == set id | id in ids && id in preKeys
    {
      for i := 0 to |ids|
        invariant published == set id | id in ids[..i] && id in preKeys
      {
        assert ids[..i + 1] == ids[..i] + [ids[i]];
        if ids[i] in preKeys {
          published := published + {ids[i]};
        }
      }
      assert ids[..|ids|] == ids;
    }

    /** The part of applySnapshot on ids and keys. */
    method AddKeys(p: Persisted)
      requires View() == NewContents(p.identity, p.registrationId)
      modifies this
      ensures View() == Contents(p.identity, p.registrationId, p.nextPreKeyId, p.latestSignedPreKey,
                                 FromObject(p.preKeys),
                                 (set id | id in p.published && id in FromObject(p.preKeys)),
                                   FromObject(p.signedPreKeys),
                                 FromObject(p.retired), p.trusted, map[], map[])
    {
      hide FromObject;
      nextPreKeyId, latestSignedPreKey := p.nextPreKeyId, p.latestSignedPreKey;
      preKeys := BuildMap(p.preKeys);
      AddPublished(p.published);
      signedPreKeys := BuildMap(p.signedPreKeys);
      retired := BuildMap(p.retired);
      trusted := p.trusted;
    }

    /** applySnapshot on a new store. */
    method ApplyPersisted(p: Persisted) returns (ok: bool)
      requires Normal(p) && View() == NewContents(p.identity, p.registrationId)
      modifies this
      ensures match ApplySnapshot(p)
              case None => !ok
              case Some(c) => ok && View() == c
    {
      hide Normal, LoadSessions, LoadSenderKeys, FromObject, SessionForms.Deserialize, SenderKeyForms.DeserializeRecord;
      AddKeys(p);
      ok := AddSessions(p.sessions);
      if ok {
        ok := AddSenderKeys(p.senderKeys);
      }
    }

    /** The store that is opened on a snapshot, if it can be. */
    static method Load(p: Persisted) returns (store: FileSignalFields?)
      ensures match ApplySnapshot(p)
              case None => store == null
              case Some(c) => store != null && fresh(store) && store.View() == c
    {
      store := null;
      if Normal(p) {
        var opening := new FileSignalFields(p.identity, p.registrationId);
        hide Normal, AllLoad;
        var ok := opening.ApplyPersisted(p);
        if ok {
          store := opening;
        }
      }
    }
  }

  /** One operation on both stores. */
  method DoBoth(memory: MemorySignalStorage, file: FileSignalFields, op: Op)
    returns (answer: bool, fileAnswer: bool, ghost sameNotices: bool)
    requires memory.View() == file.View()
    modifies memory, file
    ensures memory.View() == file.View() && (memory.View(), answer) == Apply(old(memory.View()), op)
    ensures answer == fileAnswer
    ensures sameNotices <==> !(op.RemovePreKey? && op.preKeyId !in old(memory.View()).preKeys)
  {
    hide Apply;
    var told, fileTold;
    answer, told := memory.Do(op);
    fileAnswer, fileTold := file.Do(op);
    sameNotices := told == fileTold;
  }

  /** Saving a store whose contents are in range, and loading what it saved. */
  method Reload(file: FileSignalFields) returns (loaded: FileSignalFields)
    requires InRange(file.View())
    ensures fresh(loaded) && loaded.View() == file.View()
  {
    ReloadExactlyWhen(file.View());
    hide ApplySnapshot, StorageSnapshots.ToSnapshot, Storable, NothingLost, FileSignalFields.View;
    var p := file.ToSnapshot();
    var store := FileSignalFields.Load(p);
    loaded := store;
  }

  lemma ApplyAllNone(c: Contents, ops: seq<Op>)
    ensures ApplyAll(c, ops[..0]) == c
  {
  }

  lemma ApplyAllNext(c: Contents, ops: seq<Op>, i: nat)
    requires i < |ops|
    ensures ApplyAll(c, ops[..i + 1]) == Apply(ApplyAll(c, ops[..i]), ops[i]).0
  {
    assert ops[..i + 1][..i] == ops[..i] && ops[..i + 1][i] == ops[i];
    hide Apply;
  }

  /** A new store is in range, so two new ones are where agreement starts. */
  lemma NewIsInRange(identity: KeyPair, registrationId: int)
    requires IsKeyPair(identity) && MIN_REGISTRATION_ID <= registrationId <= MAX_REGISTRATION_ID
    ensures InRange(NewContents(identity, registrationId))
  {
  }

  /** Whatever operations are done on both, and however often the file is saved and loaded in between,
      the stores have the same contents and give the same answers. */
  method StoresAgree(memory: MemorySignalStorage, file: FileSignalFields, ops: seq<Op>, reloads: set<nat>)
    returns (last: FileSignalFields, answers: seq<bool>, fileAnswers: seq<bool>)
    requires memory.View() == file.View() && InRange(memory.View())
    requires forall i :: 0 <= i < |ops| ==> OpInRange(ops[i])
    modifies memory, file
    ensures last.View() == memory.View() == ApplyAll(old(memory.View()), ops)
    ensures |answers| == |ops| && answers == fileAnswers
  {
    hide Apply, InRange, OpInRange, ApplyAll;
    last, answers, fileAnswers := file, [], [];
    ApplyAllNone(memory.View(), ops);
    for i := 0 to |ops|
      invariant (last == file || fresh(last)) && |answers| == i && answers == fileAnswers
      invariant InRange(memory.View()) && last.View() == memory.View() == ApplyAll(old(memory.View()), ops[..i])
    {
      if i in reloads {
        last := Reload(last);
      }
      ApplyKeepsInRange(memory.View(), ops[i]);
      ApplyAllNext(old(memory.View()), ops, i);
      var answer, fileAnswer;
      ghost var same;
      answer, fileAnswer, same := DoBoth(memory, last, ops[i]);
      answers, fileAnswers := answers + [answer], fileAnswers + [fileAnswer];
    }
    assert ops[..|ops|] == ops;
  }

  /** Two new stores with one identity agree after any operations in range. */
  method NewStoresAgree(identity: KeyPair, registrationId: int, ops: seq<Op>, reloads: set<nat>)
    returns (memory: MemorySignalStorage, last: FileSignalFields)
    requires IsKeyPair(identity) && MIN_REGISTRATION_ID <= registrationId <= MAX_REGISTRATION_ID
    requires forall i :: 0 <= i < |ops| ==> OpInRange(ops[i])
    ensures fresh(memory) && last.View() == memory.View() == ApplyAll(NewContents(identity, registrationId), ops)
  {
    NewIsInRange(identity, registrationId);
    hide InRange, OpInRange, ApplyAll, NewContents;
    memory := new MemorySignalStorage(identity, registrationId);
    var file := new FileSignalFields(identity, registrationId);
    var answers, fileAnswers;
    last, answers, fileAnswers := StoresAgree(memory, file, ops, reloads);
  }
}
