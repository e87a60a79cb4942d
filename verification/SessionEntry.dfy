/** The session entry as the object it is, with the operations of src/session-cipher.ts and
    src/session-record.ts on it. Each is proved to compute its function of Ratchet.dfy. */
module Entries {
  import opened Wrappers
  import opened Keys
  import opened Ratchet
  import opened Chains
  import opened ChainIds
  import opened SessionTable

  function Views(chains: map<KeyId, ChainState>): map<KeyId, Chain>
    reads chains.Values
  {
    map id | id in chains :: chains[id].View()
  }

  ghost predicate ValidTable(chains: map<KeyId, ChainState>)
    reads chains.Values
  {
    && (forall id :: id in chains ==> chains[id].Valid())
    && (forall a, b :: a in chains && b in chains && a != b ==> chains[a] != chains[b])
  }

  lemma WithChain(chains: map<KeyId, ChainState>, id: KeyId, c: ChainState)
    requires ValidTable(chains) && id !in chains && c !in chains.Values && c.Valid()
    ensures ValidTable(chains[id := c]) && Views(chains[id := c]) == Views(chains)[id := c.View()]
    ensures chains[id := c].Values <= chains.Values + {c} && chains[id := c].Keys == chains.Keys + {id}
  {
  }

  /** The keys of one chain are zeroed, and the others stay as they are. */
  method WipeAt(chains: map<KeyId, ChainState>, id: KeyId)
    requires ValidTable(chains) && id in chains
    modifies chains[id]
    ensures ValidTable(chains - {id}) && Views(chains - {id}) == old(Views(chains)) - {id}
  {
    chains[id].Wipe();
  }

  class SessionEntry {
    var info: IndexInfo
    var ephemeral: KeyId
    var ephemeralPriv: Key
    var lastRemote: KeyId
    var previousCounter: int
    var rootKey: Key
    var chains: map<KeyId, ChainState>
    var order: seq<KeyId>
    var pending: Option<PreKeyRef>
    const remoteIdentity: KeyId
    const baseKey: KeyId

    /** No two ids share a chain object, and the private key is the live one. */
    ghost predicate Valid()
      reads this, chains.Values
    {
      && ValidTable(chains) && ephemeralPriv == Private(ephemeral)
      && chains.Keys == Ids(order) && NoRepeats(order)
    }

    function View(): Session
      reads this, chains.Values
    {
      Session(ephemeral, lastRemote, previousCounter, rootKey, Views(chains), order, remoteIdentity, baseKey, pending)
    }

    /** Everything of a session but its chains. */
    constructor (s: Session, info: IndexInfo)
      ensures Valid() && chains == map[] && this.info == info
      ensures View() == s.(chains := map[], order := []) && baseKey == s.baseKey
    {
      ephemeral, ephemeralPriv, lastRemote := s.ephemeral, Private(s.ephemeral), s.lastRemote;
      previousCounter, rootKey, pending := s.previousCounter, s.rootKey, s.pending;
      remoteIdentity, baseKey := s.remoteIdentity, s.baseKey;
      chains, order, this.info := map[], [], info;
    }

    method SetInfo(info: IndexInfo)
      requires Valid()
      modifies this`info
      ensures Valid() && View() == old(View()) && this.info == info
    {
      hide ValidTable, Views, Ids, NoRepeats;
      this.info := info;
    }

    /** fillMessageKeys on one of our chains: no other chain is touched. */
    method FillAt(id: KeyId, target: int) returns (r: Result<(), Error>)
      requires Valid() && id in chains
      modifies chains[id]
      ensures Valid()
      ensures match Fill(old(View()).chains[id], target)
              case Failure(e) => r == Failure(e) && View() == old(View())
              case Success(c) => r.Success? && View() == old(View()).(chains := old(View()).chains[id := c])
    {
      ghost var views := Views(chains);
      r := chains[id].FillMessageKeys(target);
      assert Views(chains) == views[id := chains[id].View()];
      hide Fill;
    }

    method AddChain(id: KeyId, c: ChainState) returns (r: Result<(), Error>)
      requires Valid() && c !in chains.Values && c.Valid()
      modifies this`chains, this`order
      ensures Valid() && chains.Values <= old(chains.Values) + {c}
      ensures match Ratchet.AddChain(old(View()), id, c.View())
              case Failure(e) => r == Failure(e) && View() == old(View()) && chains == old(chains)
              case Success(s) => r.Success? && View() == s && chains == old(chains)[id := c]
    {
      Fields();
      if id in chains {
        return Failure(OverwriteAttempt);
      }
      WithChain(chains, id, c);
      IdAdded(order, chains.Keys, id);
      hide Ids, NoRepeats, ValidTable, Views;
      var inTable, inOrder := chains[id := c], order + [id];
      chains, order := inTable, inOrder;
      r := Success(());
    }

    method DeleteFound(id: KeyId)
      requires Valid() && id in chains
      modifies this`chains, this`order, chains[id]
      ensures Valid() && chains == old(chains) - {id}
      ensures View() == DeleteChains(old(View()), {id})
    {
      hide NoRepeats, Without, Ids, Views, ValidTable;
      IdDeleted(order, chains.Keys, id);
      WipeAt(chains, id);
      var rest, inOrder := chains - {id}, Without(order, {id});
      chains, order := rest, inOrder;
    }

    /** deleteChain: the chain is wiped and leaves the table. */
    method DeleteChain(id: KeyId) returns (found: bool)
      requires Valid()
      modifies this`chains, this`order, if id in chains then {chains[id]} else {}
      ensures found == (id in old(chains))
      ensures Valid() && chains == old(chains) - {id}
      ensures View() == DeleteChains(old(View()), {id})
    {
      found := id in chains;
      if found {
        DeleteFound(id);
      } else {
        NothingDeleted(View(), id);
        assert chains - {id} == chains;
      }
      hide *;
    }

    /** The receiving chains, oldest first. */
    method Receiving() returns (ids: seq<KeyId>)
      requires Valid()
      ensures ids == ReceivingIds(order, View().chains)
    {
      ids := [];
      ghost var views := Views(chains);
      CollectNone(order, views);
      hide ReceivingIds, NoRepeats, Ids, ValidTable, Collected;
      for i := 0 to |order|
        invariant Collected(ids, order, i, views)
      {
        CollectNext(ids, order, i, views);
        assert order[i] in views ==> views[order[i]].kind == chains[order[i]].kind;
        if order[i] in chains && chains[order[i]].kind == ChainType.Receiving {
          ids := ids + [order[i]];
        }
      }
      CollectAll(ids, order, views);
    }

    method DeleteNext(ghost before: Session, ids: seq<KeyId>, i: nat)
      requires Valid() && i < |ids| && Deleted(before, View(), ids, i)
      modifies this`chains, this`order, chains.Values
      ensures Valid() && chains.Values <= old(chains.Values)
      ensures Deleted(before, View(), ids, i + 1)
    {
      DeletedNext(before, ids, i);
      hide DeleteChains, NoRepeats, Ids;
      var _ := DeleteChain(ids[i]);
    }

    method DeleteFirst(ids: seq<KeyId>, n: nat)
      requires Valid() && n <= |ids|
      modifies this`chains, this`order, chains.Values
      ensures Valid() && chains.Values <= old(chains.Values)
      ensures Deleted(old(View()), View(), ids, n)
    {
      ghost var before := View();
      DeletedNone(before, ids);
      assert Deleted(before, before, ids, 0);
      hide *;
      for i := 0 to n
        invariant Valid() && chains.Values <= old(chains.Values)
        invariant Deleted(before, View(), ids, i)
      {
        DeleteNext(before, ids, i);
      }
    }

    method RemoveOldReceiverChains(max: nat)
      requires Valid()
      modifies this`chains, this`order, chains.Values
      ensures Valid() && chains.Values <= old(chains.Values)
      ensures View() == Ratchet.RemoveOldReceiverChains(old(View()), max)
    {
      var receiving := Receiving();
      ghost var before := View();
      var excess := |receiving| - max;
      DeleteFirst(receiving, if excess < 0 then 0 else excess);
      hide ReceivingIds, Deleted, ValidTable, Views, Surplus, DeleteChains, NoRepeats, Ids;
      SurplusDeleted(before, View(), receiving, max, if excess < 0 then 0 else excess);
    }

    /** A new chain object enters the table. */
    method AddValue(id: KeyId, value: Chain) returns (r: Result<(), Error>)
      requires Valid() && forall i :: i in value.messageKeys ==> i <= value.counter
      modifies this`chains, this`order
      ensures Valid() && fresh(chains.Values - old(chains.Values))
      ensures match Ratchet.AddChain(old(View()), id, value)
              case Failure(e) => r == Failure(e) && View() == old(View())
              case Success(s) => r.Success? && View() == s
    {
      hide Ids, NoRepeats, Ratchet.AddChain;
      var c := new ChainState(value);
      r := AddChain(id, c);
    }

    method CalculateRatchet(remote: KeyId, kind: ChainType) returns (r: Result<(), Error>)
      requires Valid()
      modifies this`chains, this`order, this`rootKey
      ensures Valid() && fresh(chains.Values - old(chains.Values))
      ensures match Ratchet.CalculateRatchet(old(View()), remote, kind)
              case Failure(e) => r == Failure(e) && View() == old(View())
              case Success(s) => r.Success? && View() == s
    {
      hide Ids, NoRepeats, Ratchet.AddChain, ValidTable, Views;
      var sharedSecret := Agree(remote, ephemeralPriv);
      r := AddValue(if kind.Sending? then ephemeral else remote,
                    NewChain(kind, Hkdf(sharedSecret, rootKey, WhisperRatchet, 1)));
      if r.Success? {
        rootKey := Hkdf(sharedSecret, rootKey, WhisperRatchet, 0);
      }
    }

    method CloseAt(id: KeyId)
      requires Valid() && id in chains
      modifies chains[id]
      ensures Valid()
      ensures View() == old(View()).(chains := old(View()).chains[id := old(View()).chains[id].(key := None)])
    {
      hide NoRepeats, Ids;
      ghost var views := Views(chains);
      chains[id].Close();
      assert Views(chains) == views[id := chains[id].View()];
    }

    method ClosePrevious(previousCounter: int) returns (r: Result<(), Error>)
      requires Valid()
      modifies if lastRemote in chains then {chains[lastRemote]} else {}
      ensures Valid()
      ensures match Ratchet.ClosePrevious(old(View()), previousCounter)
              case Failure(e) => r == Failure(e) && View() == old(View())
              case Success(s) => r.Success? && View() == s
    {
      hide Fill, NoRepeats, Ids, ValidTable;
      r := Success(());
      if lastRemote in chains {
        r := FillAt(lastRemote, previousCounter);
        if r.Success? {
          CloseAt(lastRemote);
        }
      }
    }

    method RetireSending()
      requires Valid()
      modifies this`chains, this`order, this`previousCounter, if ephemeral in chains then {chains[ephemeral]} else {}
      ensures Valid() && chains.Values <= old(chains.Values)
      ensures View() == Ratchet.RetireSending(old(View()))
    {
      Fields();
      hide DeleteChains, Views, ValidTable, Ids, NoRepeats;
      if ephemeral in chains {
        previousCounter := chains[ephemeral].counter;
        var _ := DeleteChain(ephemeral);
      }
    }

    lemma Fields()
      ensures View().chains.Keys == chains.Keys
      ensures forall id :: id in chains ==>
                View().chains[id].kind == chains[id].kind && View().chains[id].counter == chains[id].counter
    {
    }

    method StartSending(remote: KeyId, newKey: KeyId) returns (r: Result<(), Error>)
      requires Valid()
      modifies this, chains.Values
      ensures info == old(info)
      ensures Valid() && fresh(chains.Values - old(chains.Values))
      ensures match Ratchet.CalculateRatchet(old(View()).(ephemeral := newKey), remote, Sending)
              case Failure(e) => r == Failure(e)
              case Success(s) =>
                r.Success? && View() == Ratchet.RemoveOldReceiverChains(s.(lastRemote := remote), MAX_RECEIVER_CHAINS)
    {
      hide Ratchet.CalculateRatchet, Ratchet.RemoveOldReceiverChains, Views, ValidTable, Ids, NoRepeats;
      ephemeral, ephemeralPriv := newKey, Private(newKey);
      r := CalculateRatchet(remote, ChainType.Sending);
      if r.Success? {
        FinishStep(remote);
      }
    }

    method FinishStep(remote: KeyId)
      requires Valid()
      modifies this`lastRemote, this`chains, this`order, chains.Values
      ensures Valid() && chains.Values <= old(chains.Values)
      ensures View() == Ratchet.RemoveOldReceiverChains(old(View()).(lastRemote := remote), MAX_RECEIVER_CHAINS)
    {
      hide Ratchet.RemoveOldReceiverChains, Views, ValidTable, Ids, NoRepeats;
      lastRemote := remote;
      RemoveOldReceiverChains(MAX_RECEIVER_CHAINS);
    }

    /** The part of maybeStepRatchet after the previous chain is closed. */
    method Turn(remote: KeyId, newKey: KeyId) returns (r: Result<(), Error>)
      requires Valid()
      modifies this, chains.Values
      ensures info == old(info)
      ensures Valid() && fresh(chains.Values - old(chains.Values))
      ensures match Ratchet.Turn(old(View()), remote, newKey)
              case Failure(e) => r == Failure(e)
              case Success(s) => r.Success? && View() == s
    {
      hide Ratchet.CalculateRatchet, Ratchet.RetireSending, Ratchet.RemoveOldReceiverChains, Views, ValidTable, Ids,
           NoRepeats;
      r := CalculateRatchet(remote, ChainType.Receiving);
      if r.Success? {
        RetireSending();
        r := StartSending(remote, newKey);
      }
    }

    /** maybeStepRatchet */
    method MaybeStepRatchet(remote: KeyId, previousCounter: int, newKey: KeyId) returns (r: Result<(), Error>)
      requires Valid()
      modifies this, chains.Values
      ensures info == old(info)
      ensures Valid() && fresh(chains.Values - old(chains.Values))
      ensures match StepRatchet(old(View()), remote, previousCounter, newKey)
              case Failure(e) => r == Failure(e)
              case Success(s) => r.Success? && View() == s
    {
      hide Ratchet.ClosePrevious, Ratchet.Turn, ValidTable, Ids, NoRepeats;
      if remote in chains {
        r := Success(());
      } else {
        r := ClosePrevious(previousCounter);
        if r.Success? {
          r := Turn(remote, newKey);
        }
      }
    }

    /** The rest of doDecryptWhisperMessage, on the chain of the message. */
    method DecryptOnChain(ourIdentity: KeyId, w: Whisper) returns (r: Result<Bytes, Error>)
      requires Valid()
      modifies this, chains.Values
      ensures info == old(info)
      ensures Valid() && chains == old(chains)
      ensures match Ratchet.DecryptOnChain(old(View()), ourIdentity, w)
              case Failure(e) => r == Failure(e)
              case Success(v) => r == Success(v.1) && View() == v.0
    {
      var id := w.message.ephemeral;
      Fields();
      DecryptCases(View(), ourIdentity, w);
      hide Fill, Open, Ids, NoRepeats, Views, ValidTable, Ratchet.DecryptOnChain;
      if id !in chains {
        return Failure(NoChain);
      }
      if chains[id].kind.Sending? {
        return Failure(WrongDirection);
      }
      r := OpenAt(id, w.message.counter, ourIdentity, w);
      if r.Success? {
        pending := None;
      }
    }

    method TakeFilled(id: KeyId, counter: int) returns (r: Result<Key, Error>)
      requires Valid() && id in chains
      modifies chains[id]
      ensures Valid()
      ensures if counter !in old(View()).chains[id].messageKeys then r == Failure(KeyUsedOrNeverFilled)
              else
                && r == Success(old(View()).chains[id].messageKeys[counter])
                && View() == WithUsed(old(View()), id, old(View()).chains[id], counter)
    {
      hide Ids, NoRepeats;
      if counter !in chains[id].messageKeys {
        return Failure(KeyUsedOrNeverFilled);
      }
      ghost var views := Views(chains);
      var messageKey := chains[id].Take(counter);
      assert Views(chains) == views[id := chains[id].View()];
      r := Success(messageKey);
    }

    /** The chain is filled up to a message, whose key is taken out. */
    method TakeAt(id: KeyId, counter: int) returns (r: Result<Key, Error>)
      requires Valid() && id in chains
      modifies chains[id]
      ensures Valid()
      ensures match Fill(old(View()).chains[id], counter)
              case Failure(e) => r == Failure(e)
              case Success(c) =>
                if counter !in c.messageKeys then r == Failure(KeyUsedOrNeverFilled)
                else r == Success(c.messageKeys[counter]) && View() == WithUsed(old(View()), id, c, counter)
    {
      hide Fill, Views, ValidTable, Ids, NoRepeats;
      var filled := FillAt(id, counter);
      if filled.Failure? {
        return Failure(filled.error);
      }
      r := TakeFilled(id, counter);
    }

    method OpenAt(id: KeyId, counter: nat, ourIdentity: KeyId, w: Whisper) returns (r: Result<Bytes, Error>)
      requires Valid() && id in chains
      modifies chains[id]
      ensures Valid()
      ensures match Fill(old(View()).chains[id], counter)
              case Failure(e) => r == Failure(e)
              case Success(c) =>
                if counter !in c.messageKeys then r == Failure(KeyUsedOrNeverFilled)
                else
                  && r == Open(c.messageKeys[counter], ourIdentity, remoteIdentity, w)
                  && View() == WithUsed(old(View()), id, c, counter)
    {
      hide Fill, Open, Views, ValidTable, Ids, NoRepeats;
      var taken := TakeAt(id, counter);
      if taken.Failure? {
        return Failure(taken.error);
      }
      r := Open(taken.value, ourIdentity, remoteIdentity, w);
    }

    /** doDecryptWhisperMessage. Callers pass a copy: a failure may leave it anyhow. */
    method DoDecrypt(ourIdentity: KeyId, w: Whisper, newKey: KeyId) returns (r: Result<Bytes, Error>)
      requires Valid()
      modifies this, chains.Values
      ensures info == old(info)
      ensures Valid() && fresh(chains.Values - old(chains.Values))
      ensures match Decrypt(old(View()), ourIdentity, w, newKey)
              case Failure(e) => r == Failure(e)
              case Success(v) => r == Success(v.1) && View() == v.0
    {
      hide StepRatchet, Ratchet.DecryptOnChain, ValidTable, Ids, NoRepeats, Views;
      var stepped := MaybeStepRatchet(w.message.ephemeral, w.message.previousCounter, newKey);
      if stepped.Failure? {
        return Failure(stepped.error);
      }
      r := DecryptOnChain(ourIdentity, w);
    }

    /** The part of encrypt that takes the message key. */
    method SealNext(ourIdentity: KeyId, plaintext: Bytes) returns (r: Result<Packet, Error>)
      requires Valid() && ephemeral in chains && chains[ephemeral].kind.Sending?
      modifies chains.Values
      ensures Valid() && unchanged(this)
      ensures match Ratchet.Encrypt(old(View()), ourIdentity, plaintext)
              case Failure(e) => r == Failure(e)
              case Success(v) => r == Success(v.1) && View() == v.0
    {
      EncryptCases(View(), ourIdentity, plaintext);
      hide Fill, Seal, ValidTable, Ids, NoRepeats, Ratchet.Encrypt;
      var counter := chains[ephemeral].counter + 1;
      var taken := TakeAt(ephemeral, counter);
      if taken.Failure? {
        return Failure(taken.error);
      }
      var whisper := Seal(ephemeral, counter, previousCounter, ourIdentity, remoteIdentity, taken.value, plaintext);
      r := Success(Packet(if pending.Some? then Some(Envelope(ourIdentity, pending.value)) else None, whisper));
    }

    /** The body of encrypt, between loading the record and storing it. */
    method Encrypt(ourIdentity: KeyId, plaintext: Bytes) returns (r: Result<Packet, Error>)
      requires Valid()
      modifies chains.Values
      ensures Valid() && unchanged(this)
      ensures match Ratchet.Encrypt(old(View()), ourIdentity, plaintext)
              case Failure(e) => r == Failure(e)
              case Success(v) => r == Success(v.1) && View() == v.0
    {
      EncryptCases(View(), ourIdentity, plaintext);
      hide Fill, ValidTable, Ids, NoRepeats, Ratchet.Encrypt, WithUsed, SealedWith;
      if ephemeral !in chains {
        return Failure(NoChain);
      }
      if chains[ephemeral].kind.Receiving? {
        return Failure(WrongDirection);
      }
      r := SealNext(ourIdentity, plaintext);
    }

    method AddCopy(ghost v: Session, i: nat, id: KeyId, value: Chain)
      requires Valid() && i < |v.order| && id == v.order[i]
      requires PartOf(v, i, View()) && value == v.chains[id]
      requires forall j :: j in value.messageKeys ==> j <= value.counter
      modifies this`chains, this`order
      ensures Valid() && fresh(chains.Values - old(chains.Values))
      ensures PartOf(v, i + 1, View())
    {
      CopyNext(v.order, i, v.chains, order, View().chains);
      hide NoRepeats, Ids, Copied, ValidTable, Views;
      var _ := AddValue(id, value);
    }

    method ChainValue(i: nat) returns (value: Chain)
      requires Valid() && i < |order|
      ensures order[i] in View().chains && value == View().chains[order[i]]
      ensures forall j :: j in value.messageKeys ==> j <= value.counter
    {
      assert order[i] in Ids(order);
      hide NoRepeats;
      value := chains[order[i]].View();
    }

    lemma NoneCopied()
      requires Valid()
      ensures View().order == order && PartOf(View(), 0, View().(chains := map[], order := []))
    {
      NothingCopied(order, View().chains);
    }

    /** SessionEntry.deserialize(session.serialize()): the same session in objects of its own. */
    method Copy() returns (copy: SessionEntry)
      requires Valid()
      ensures fresh(copy) && fresh(copy.chains.Values)
      ensures copy.Valid() && copy.View() == View() && copy.info == info
    {
      hide View, Valid, PartOf;
      ghost var v := View();
      NoneCopied();
      copy := new SessionEntry(View(), info);
      for i := 0 to |order|
        invariant copy.Valid() && fresh(copy) && fresh(copy.chains.Values) && copy.info == info
        invariant PartOf(v, i, copy.View())
      {
        var value := ChainValue(i);
        copy.AddCopy(v, i, order[i], value);
      }
      WholeCopied(v, copy.View());
    }

    /** wipeKeyMaterial: nothing of the session can be used any more. */
    method WipeKeyMaterial()
      requires Valid()
      modifies this`ephemeralPriv, this`rootKey, chains.Values
      ensures ephemeralPriv == Zeros && rootKey == Zeros
      ensures forall id :: id in chains ==> Wiped(chains[id])
    {
      ephemeralPriv, rootKey := Zeros, Zeros;
      hide NoRepeats;
      for i := 0 to |order|
        invariant ephemeralPriv == Zeros && rootKey == Zeros
        invariant forall j :: 0 <= j < i ==> Wiped(chains[order[j]])
      {
        chains[order[i]].Wipe();
      }
    }
  }

  // The cases of decrypt and encrypt.

  lemma DecryptCases(s: Session, ourIdentity: KeyId, w: Whisper)
    ensures var id, counter, r := w.message.ephemeral, w.message.counter, Ratchet.DecryptOnChain(s, ourIdentity, w);
            if id !in s.chains then r == Failure(NoChain)
            else if s.chains[id].kind.Sending? then r == Failure(WrongDirection)
            else
              match Fill(s.chains[id], counter)
              case Failure(f) => r == Failure(f)
              case Success(c) =>
                if counter !in c.messageKeys then r == Failure(KeyUsedOrNeverFilled)
                else
                  match Open(c.messageKeys[counter], ourIdentity, s.remoteIdentity, w)
                  case Failure(f) => r == Failure(f)
                  case Success(plaintext) => r == Success((WithUsed(s, id, c, counter).(pending := None), plaintext))
  {
    hide Fill, Open;
  }

  function WithUsed(s: Session, id: KeyId, c: Chain, index: int): Session {
    s.(chains := s.chains[id := c.(messageKeys := c.messageKeys - {index})])
  }

  function SealedWith(s: Session, ourIdentity: KeyId, counter: int, messageKey: Key, plaintext: Bytes): Whisper {
    Seal(s.ephemeral, counter, s.previousCounter, ourIdentity, s.remoteIdentity, messageKey, plaintext)
  }

  lemma EncryptCases(s: Session, ourIdentity: KeyId, plaintext: Bytes)
    ensures var id, r := s.ephemeral, Ratchet.Encrypt(s, ourIdentity, plaintext);
            if id !in s.chains then r == Failure(NoChain)
            else if s.chains[id].kind.Receiving? then r == Failure(WrongDirection)
            else
              var counter := s.chains[id].counter + 1;
              match Fill(s.chains[id], counter)
              case Failure(f) => r == Failure(f)
              case Success(c) =>
                if counter !in c.messageKeys then r == Failure(KeyUsedOrNeverFilled)
                else
                  var envelope := if s.pending.Some? then Some(Envelope(ourIdentity, s.pending.value)) else None;
                  r == Success((WithUsed(s, id, c, counter),
                                Packet(envelope, SealedWith(s, ourIdentity, counter, c.messageKeys[counter],
                                                            plaintext))))
  {
    if s.ephemeral in s.chains {
      FilledTo(s.chains[s.ephemeral], s.chains[s.ephemeral].counter + 1);
    }
    hide Fill, Seal;
  }

  lemma FilledTo(c: Chain, target: int)
    requires c.counter < target
    ensures Fill(c, target).Success? ==> Fill(c, target).value.counter == target
  {
  }

  ghost predicate Wiped(c: ChainState)
    reads c
  {
    c.key in {None, Some(Zeros)} && forall i :: i in c.messageKeys ==> c.messageKeys[i] == Zeros
  }

  ghost predicate Copied(order: seq<KeyId>, i: nat, views: map<KeyId, Chain>, copied: seq<KeyId>, table: map<KeyId,
                         Chain>) {
    && views.Keys == Ids(order) && NoRepeats(order)
    && i <= |order| && copied == order[..i] && table.Keys == Ids(order[..i])
    && forall id :: id in table ==> table[id] == views[id]
  }

  /** `s` is the copy of `v` when `i` chains have been copied. */
  ghost predicate PartOf(v: Session, i: nat, s: Session) {
    s == v.(chains := s.chains, order := s.order) && Copied(v.order, i, v.chains, s.order, s.chains)
  }

  lemma WholeCopied(v: Session, s: Session)
    requires PartOf(v, |v.order|, s)
    ensures s == v
  {
    AllCopied(v.order, v.chains, s.order, s.chains);
  }

  lemma NothingCopied(order: seq<KeyId>, views: map<KeyId, Chain>)
    requires views.Keys == Ids(order) && NoRepeats(order)
    ensures Copied(order, 0, views, [], map[])
  {
  }

  lemma CopyNext(order: seq<KeyId>, i: nat, views: map<KeyId, Chain>, copied: seq<KeyId>, table: map<KeyId, Chain>)
    requires Copied(order, i, views, copied, table) && i < |order|
    ensures order[i] in views && order[i] !in table
    ensures Copied(order, i + 1, views, copied + [order[i]], table[order[i] := views[order[i]]])
  {
    assert order[..i + 1] == order[..i] + [order[i]];
    assert order[i] in order;
  }

  lemma AllCopied(order: seq<KeyId>, views: map<KeyId, Chain>, copied: seq<KeyId>, table: map<KeyId, Chain>)
    requires Copied(order, |order|, views, copied, table)
    ensures copied == order && table == views
  {
    assert order[..|order|] == order;
  }

  ghost predicate Collected(ids: seq<KeyId>, order: seq<KeyId>, i: nat, views: map<KeyId, Chain>) {
    i <= |order| && ids + ReceivingIds(order[i..], views) == ReceivingIds(order, views)
  }

  lemma CollectNone(order: seq<KeyId>, views: map<KeyId, Chain>)
    ensures Collected([], order, 0, views)
  {
    assert order[0..] == order;
  }

  lemma CollectNext(ids: seq<KeyId>, order: seq<KeyId>, i: nat, views: map<KeyId, Chain>)
    requires Collected(ids, order, i, views) && i < |order|
    ensures if order[i] in views && views[order[i]].kind.Receiving?
            then Collected(ids + [order[i]], order, i + 1, views)
            else Collected(ids, order, i + 1, views)
  {
    assert order[i..][1..] == order[i + 1..] && order[i..][0] == order[i];
  }

  lemma CollectAll(ids: seq<KeyId>, order: seq<KeyId>, views: map<KeyId, Chain>)
    requires Collected(ids, order, |order|, views)
    ensures ids == ReceivingIds(order, views)
  {
    assert order[|order|..] == [];
  }

  ghost predicate Deleted(before: Session, now: Session, ids: seq<KeyId>, i: nat) {
    i <= |ids| && now == DeleteChains(before, Ids(ids[..i]))
  }

  lemma SurplusDeleted(before: Session, now: Session, ids: seq<KeyId>, max: nat, i: nat)
    requires Deleted(before, now, ids, i) && ids == ReceivingIds(before.order, before.chains)
    requires i == if |ids| <= max then 0 else |ids| - max
    ensures now == Ratchet.RemoveOldReceiverChains(before, max)
  {
    hide DeleteChains, ReceivingIds;
    assert ids[..0] == [];
    assert Surplus(ids, max) == Ids(ids[..i]);
  }
}
