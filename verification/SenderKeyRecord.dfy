/** The sender key state and record as the objects they are, and the cipher and builder operations
    on them. Each is proved to compute its function of SenderKeys.dfy or GroupMessages.dfy. */
module SenderKeyRecords {
  import opened Wrappers
  import opened Keys
  import SenderKeys
  import opened GroupMessages

  type Bytes = SenderKeys.Bytes
  type MessageKey = SenderKeys.SenderMessageKey
  type Error = SenderKeys.Error

  datatype SenderChainKey = SenderChainKey(iteration: nat, seed: Key) {
    function GetSenderMessageKey(): MessageKey {
      SenderKeys.SenderMessageKey(iteration, Hmac(seed, 1))
    }

    function GetNext(): SenderChainKey {
      SenderChainKey(iteration + 1, Hmac(seed, 2))
    }
  }

  class SenderKeyState {
    const keyId: nat
    const signingPublic: KeyId
    const signingPrivate: Option<KeyId>
    var chainKey: SenderChainKey
    var messageKeys: seq<MessageKey>

    ghost predicate Valid()
      reads this
    {
      |messageKeys| <= SenderKeys.MAX_MESSAGE_KEYS
    }

    function View(): SenderKeys.State
      reads this
    {
      SenderKeys.State(keyId, chainKey.iteration, chainKey.seed, signingPublic, signingPrivate, messageKeys)
    }

    constructor (keyId: nat, iteration: nat, seed: Key, signingPublic: KeyId, signingPrivate: Option<KeyId>)
      ensures Valid() && View() == SenderKeys.State(keyId, iteration, seed, signingPublic, signingPrivate, [])
    {
      this.keyId, this.signingPublic, this.signingPrivate := keyId, signingPublic, signingPrivate;
      chainKey, messageKeys := SenderChainKey(iteration, seed), [];
    }

    method AddSenderMessageKey(k: MessageKey)
      requires Valid()
      modifies this`messageKeys
      ensures Valid() && messageKeys == SenderKeys.Newest(old(messageKeys) + [k])
    {
      messageKeys := messageKeys + [k];
      if |messageKeys| > SenderKeys.MAX_MESSAGE_KEYS {
        messageKeys := messageKeys[1..];
      }
    }

    method FindMessageKey(iteration: int) returns (i: nat)
      ensures i == SenderKeys.IndexOf(messageKeys, iteration)
    {
      i := 0;
      while i < |messageKeys| && messageKeys[i].iteration != iteration
        invariant i <= |messageKeys|
        invariant i + SenderKeys.IndexOf(messageKeys[i..], iteration) == SenderKeys.IndexOf(messageKeys, iteration)
      {
        assert messageKeys[i..][1..] == messageKeys[i + 1..];
        i := i + 1;
      }
    }

    /** removeSenderMessageKey */
    method RemoveSenderMessageKey(iteration: int) returns (k: Option<MessageKey>)
      requires Valid()
      modifies this`messageKeys
      ensures Valid()
      ensures var i := SenderKeys.IndexOf(old(messageKeys), iteration);
              if i == |old(messageKeys)| then k == None && messageKeys == old(messageKeys)
              else k == Some(old(messageKeys)[i]) && messageKeys == SenderKeys.RemoveAt(old(messageKeys), i)
    {
      var i := FindMessageKey(iteration);
      if i == |messageKeys| {
        return None;
      }
      k := Some(messageKeys[i]);
      messageKeys := messageKeys[..i] + messageKeys[i + 1..];
    }

    /** The loop of getSenderKey: every key on the way to `iteration` is put by. */
    method SkipTo(iteration: int) returns (next: SenderChainKey)
      requires Valid() && chainKey.iteration <= iteration
      modifies this`messageKeys
      ensures Valid()
      ensures var n := iteration - chainKey.iteration;
              && next == SenderChainKey(iteration, ChainKeyAt(chainKey.seed, n))
              && messageKeys == SenderKeys.Newest(old(messageKeys)
                                                  + SenderKeys.Skipped(chainKey.iteration, chainKey.seed, n))
    {
      next := chainKey;
      ghost var n := 0;
      assert messageKeys + SenderKeys.Skipped(chainKey.iteration, chainKey.seed, 0) == messageKeys;
      assert SenderKeys.Newest(messageKeys) == messageKeys;
      hide SenderKeys.Newest, SenderKeys.Skipped, ChainKeyAt;
      while next.iteration < iteration
        invariant 0 <= n <= iteration - chainKey.iteration && Valid()
        invariant next == SenderChainKey(chainKey.iteration + n, ChainKeyAt(chainKey.seed, n))
        invariant messageKeys
                  == SenderKeys.Newest(old(messageKeys) + SenderKeys.Skipped(chainKey.iteration, chainKey.seed, n))
      {
        SkippedNext(old(messageKeys), chainKey, n, next);
        AddSenderMessageKey(next.GetSenderMessageKey());
        next := next.GetNext();
        n := n + 1;
      }
    }

    /** getSenderKey. A failure leaves the state as it was. */
    method GetSenderKey(iteration: int) returns (r: Result<MessageKey, Error>)
      requires Valid()
      modifies this
      ensures Valid()
      ensures match SenderKeys.GetSenderKey(old(View()), iteration)
              case Failure(e) => r == Failure(e) && View() == old(View())
              case Success(v) => r == Success(v.1) && View() == v.0
    {
      if chainKey.iteration > iteration {
        var key := RemoveSenderMessageKey(iteration);
        return if key.Some? then Success(key.value) else Failure(SenderKeys.OldCounter);
      }
      if iteration - chainKey.iteration > SenderKeys.MAX_JUMP {
        return Failure(SenderKeys.TooFarAhead);
      }
      var reached := SkipTo(iteration);
      chainKey := reached.GetNext();
      r := Success(reached.GetSenderMessageKey());
    }
  }

  /** Dropping the oldest before or after one more is added comes to the same. */
  lemma NewestNext(keys: seq<MessageKey>, skipped: seq<MessageKey>, k: MessageKey)
    ensures SenderKeys.Newest(SenderKeys.Newest(keys + skipped) + [k]) == SenderKeys.Newest(keys + (skipped + [k]))
  {
    assert keys + (skipped + [k]) == keys + skipped + [k];
    NewestPush(keys + skipped, k);
    hide SenderKeys.Newest;
  }

  /** One turn of the loop of getSenderKey. */
  lemma SkippedNext(keys: seq<MessageKey>, start: SenderChainKey, n: nat, next: SenderChainKey)
    requires next == SenderChainKey(start.iteration + n, ChainKeyAt(start.seed, n))
    ensures next.GetNext() == SenderChainKey(start.iteration + n + 1, ChainKeyAt(start.seed, n + 1))
    ensures var skipped, k := SenderKeys.Skipped(start.iteration, start.seed, n), next.GetSenderMessageKey();
            SenderKeys.Newest(SenderKeys.Newest(keys + skipped) + [k])
            == SenderKeys.Newest(keys + SenderKeys.Skipped(start.iteration, start.seed, n + 1))
  {
    NewestNext(keys, SenderKeys.Skipped(start.iteration, start.seed, n), next.GetSenderMessageKey());
    hide SenderKeys.Newest;
  }

  lemma NewestPush(keys: seq<MessageKey>, k: MessageKey)
    ensures SenderKeys.Newest(SenderKeys.Newest(keys) + [k]) == SenderKeys.Newest(keys + [k])
  {
    var n := |keys| - SenderKeys.MAX_MESSAGE_KEYS;
    if n > 0 {
      assert keys[n..] + [k] == (keys + [k])[n..];
    }
  }

  function Views(states: seq<SenderKeyState>): (r: seq<SenderKeys.State>)
    reads states
  {
    seq(|states|, i requires 0 <= i < |states| reads states => states[i].View())
  }

  class SenderKeyRecord {
    var states: seq<SenderKeyState>

    ghost predicate Valid()
      reads this, states
    {
      && (forall i :: 0 <= i < |states| ==> states[i].Valid())
      && forall i, j :: 0 <= i < j < |states| ==> states[i] != states[j]
    }

    function View(): seq<SenderKeys.State>
      reads this, states
    {
      Views(states)
    }

    constructor ()
      ensures Valid() && states == []
    {
      states := [];
    }

    method FindState(keyId: nat) returns (i: nat)
      ensures i == SenderKeys.Find(View(), keyId)
    {
      i := 0;
      ghost var views := View();
      assert views[0..] == views;
      while i < |states| && states[i].keyId != keyId
        invariant i <= |states|
        invariant i + SenderKeys.Find(views[i..], keyId) == SenderKeys.Find(views, keyId)
      {
        assert views[i..][1..] == views[i + 1..];
        assert views[i..][0] == states[i].View();
        i := i + 1;
      }
      assert i < |states| ==> views[i..][0] == states[i].View();
    }

    /** addSenderKeyState */
    method AddSenderKeyState(keyId: nat, iteration: nat, seed: Key, signingPublic: KeyId, signingPrivate: Option<KeyId>)
      requires Valid()
      modifies this
      ensures Valid() && fresh(set s | s in states && s !in old(states) :: s)
      ensures View() == SenderKeys.AddState(old(View()),
                                            SenderKeys.State(keyId, iteration, seed, signingPublic, signingPrivate, []))
    {
      RemoveSenderKeyState(keyId);
      var s := new SenderKeyState(keyId, iteration, seed, signingPublic, signingPrivate);
      PushState(s);
    }

    method RemoveSenderKeyState(keyId: nat)
      requires Valid()
      modifies this
      ensures Valid() && forall s :: s in states ==> s in old(states)
      ensures var i, views := SenderKeys.Find(old(View()), keyId), old(View());
              View() == if i < |views| then SenderKeys.RemoveAt(views, i) else views
    {
      ghost var views := View();
      var i := FindState(keyId);
      hide SenderKeys.Find;
      if i < |states| {
        var rest := states[..i] + states[i + 1..];
        assert Views(rest) == SenderKeys.RemoveAt(views, i);
        states := rest;
      }
    }

    method PushState(s: SenderKeyState)
      requires Valid() && s.Valid() && s !in states
      modifies this
      ensures Valid() && forall t :: t in states ==> t == s || t in old(states)
      ensures var all := old(View()) + [s.View()];
              View() == if |all| > SenderKeys.MAX_STATES then all[1..] else all
    {
      ghost var views := View();
      states := states + [s];
      assert View() == views + [s.View()];
      if |states| > SenderKeys.MAX_STATES {
        states := states[1..];
      }
    }

    /** setSenderKeyState */
    method SetSenderKeyState(keyId: nat, iteration: nat, seed: Key, signingPublic: KeyId, signingPrivate: Option<KeyId>)
      modifies this
      ensures Valid() && View() == [SenderKeys.State(keyId, iteration, seed, signingPublic, signingPrivate, [])]
    {
      var s := new SenderKeyState(keyId, iteration, seed, signingPublic, signingPrivate);
      states := [s];
    }

    method KeyAt(i: nat, iteration: int) returns (r: Result<MessageKey, Error>)
      requires Valid() && i < |states|
      modifies states[i]
      ensures Valid()
      ensures match SenderKeys.GetSenderKey(old(View())[i], iteration)
              case Failure(e) => r == Failure(e) && View() == old(View())
              case Success(v) => r == Success(v.1) && View() == old(View())[i := v.0]
    {
      ghost var views := View();
      hide SenderKeys.GetSenderKey;
      r := states[i].GetSenderKey(iteration);
      assert View() == views[i := states[i].View()];
    }
  }

  /** GroupCipher.encrypt, between loading the record and storing it. */
  method EncryptGroup(record: SenderKeyRecord, plaintext: Bytes) returns (r: Result<Message, Error>)
    requires record.Valid()
    modifies record.states
    ensures record.Valid()
    ensures match Encrypt(old(record.View()), plaintext)
            case Failure(e) => r == Failure(e) && record.View() == old(record.View())
            case Success(v) => r == Success(v.1) && record.View() == v.0
  {
    hide SenderKeys.GetSenderKey;
    if record.states == [] {
      return Failure(SenderKeys.NoState);
    }
    ghost var views := record.View();
    var i := |record.states| - 1;
    var state := record.states[i];
    if state.signingPrivate.None? {
      return Failure(SenderKeys.NoSigningKey);
    }
    var iteration := state.chainKey.iteration;
    var key := record.KeyAt(i, iteration);
    if key.Failure? {
      return Failure(key.error);
    }
    assert record.View() == views[..i] + [record.View()[i]];
    r := Success(SignedMessage(state.keyId, iteration, key.value.seed, state.signingPrivate.value, plaintext));
  }

  /** GroupCipher.decrypt, between loading the record and storing it. Without success the record
      is not stored. */
  method DecryptGroup(record: SenderKeyRecord, m: Message) returns (r: Result<Bytes, Error>)
    requires record.Valid()
    modifies record.states
    ensures record.Valid()
    ensures match Decrypt(old(record.View()), m)
            case Failure(e) => r == Failure(e)
            case Success(v) => r == Success(v.1) && record.View() == v.0
  {
    hide SenderKeys.GetSenderKey;
    var i := record.FindState(m.keyId);
    if i == |record.states| {
      return Failure(SenderKeys.NoState);
    }
    var state := record.states[i];
    if m.signature != Signed(state.signingPublic, m.keyId, m.iteration, m.ciphertext) {
      return Failure(SenderKeys.BadSignature);
    }
    var key := record.KeyAt(i, m.iteration);
    if key.Failure? {
      return Failure(key.error);
    }
    r := Open(key.value.seed, m.ciphertext);
  }

  /** GroupSessionBuilder.create, up to storing the record. */
  method CreateGroup(record: SenderKeyRecord, k: NewKeys) returns (d: Distribution)
    requires record.Valid()
    modifies record
    ensures record.Valid() && record.View() == Create(old(record.View()), k) && record.states != []
    ensures old(record.states) != [] ==> record.states == old(record.states) && record.View() == old(record.View())
    ensures old(record.states) == [] ==>
              record.View() == [SenderKeys.State(k.keyId, 0, Random(k.seed), k.signing, Some(k.signing), [])]
    ensures var s := record.View()[|record.states| - 1];
            d == Distribution(s.keyId, s.iteration % 0x1_0000_0000, s.seed, s.signingPublic)
  {
    if record.states == [] {
      assert record.View() == [];
      record.AddSenderKeyState(k.keyId, 0, Random(k.seed), k.signing, Some(k.signing));
    }
    d := Distribute(record.states[|record.states| - 1].View());
  }

  /** GroupSessionBuilder.rotate, up to storing the record. */
  method RotateGroup(k: NewKeys) returns (record: SenderKeyRecord, d: Distribution)
    ensures fresh(record) && record.Valid() && record.View() == Rotate(k)
    ensures record.View() == [SenderKeys.State(k.keyId, 0, Random(k.seed), k.signing, Some(k.signing), [])]
    ensures d == Distribution(k.keyId, 0, Random(k.seed), k.signing)
  {
    record := new SenderKeyRecord();
    record.SetSenderKeyState(k.keyId, 0, Random(k.seed), k.signing, Some(k.signing));
    assert record.states[0].View() == record.View()[0];
    d := Distribute(record.states[|record.states| - 1].View());
  }

  lemma ProcessAdds(states: seq<SenderKeys.State>, d: Distribution)
    ensures |states| < 5 && (forall s :: s in states ==> s.keyId != d.keyId) ==>
              Process(states, d) == states + [SenderKeys.State(d.keyId, d.iteration, d.seed, d.signing, None, [])]
  {
    var i := SenderKeys.Find(states, d.keyId);
    assert i < |states| ==> states[i] in states;
  }

  datatype ProcessError = InvalidChainKeyLength(length: nat) | InvalidSigningKeyLength(length: nat)

  /** GroupSessionBuilder.process, up to storing the record, for a message whose keys have the lengths
      given. Keys of other lengths than the library makes are refused before the record is loaded. */
  method ProcessGroup(record: SenderKeyRecord, d: Distribution, chainKeyLength: nat, signatureKeyLength: nat)
    returns (r: Result<(), ProcessError>)
    requires record.Valid()
    modifies record
    ensures record.Valid()
    ensures r.Success? <==> chainKeyLength == 32 && signatureKeyLength in {32, 33}
    ensures r == Failure(InvalidChainKeyLength(chainKeyLength)) <==> chainKeyLength != 32
    ensures r == Failure(InvalidSigningKeyLength(signatureKeyLength)) <==>
              chainKeyLength == 32 && signatureKeyLength !in {32, 33}
    ensures record.View() == if r.Success? then Process(old(record.View()), d) else old(record.View())
    ensures r.Success? && |old(record.states)| < 5 && (forall s :: s in old(record.View()) ==> s.keyId != d.keyId) ==>
              record.View()
              == old(record.View()) + [SenderKeys.State(d.keyId, d.iteration, d.seed, d.signing, None, [])]
  {
    if chainKeyLength != 32 {
      return Failure(InvalidChainKeyLength(chainKeyLength));
    }
    if signatureKeyLength != 32 && signatureKeyLength != 33 {
      return Failure(InvalidSigningKeyLength(signatureKeyLength));
    }
    ghost var views := record.View();
    ProcessAdds(views, d);
    hide Process, SenderKeys.AddState, SenderKeyRecord.Valid;
    record.AddSenderKeyState(d.keyId, d.iteration, d.seed, d.signing, None);
    r := Success(());
  }
}
