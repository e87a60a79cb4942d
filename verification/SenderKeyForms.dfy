/** The serialized sender key record, with the older forms of its bytes that deserialize still takes. */
module SenderKeyForms {
  import opened Wrappers
  import opened Texts

  datatype MessageKey = MessageKey(iteration: int, seed: Bytes)

  datatype State = State(
    keyId: int, iteration: int, seed: Bytes, publicKey: Bytes, privateKey: Option<Bytes>, messageKeys: seq<MessageKey>)

  /** How bytes may be written: base64, a Buffer that the JSON reviver has made, an object with a list
      of numbers or with base64, or something else. */
  datatype Form = Text(s: string) | Revived(bytes: Bytes) | Data(numbers: Bytes) | DataText(s: string) | Other

  datatype MessageKeyForm = MessageKeyForm(iteration: int, seed: Form)

  datatype StateForm = StateForm(
    keyId: int, iteration: int, seed: Form, publicKey: Form, privateKey: Option<Form>, messageKeys: seq<MessageKeyForm>)

  datatype Error = UnknownForm

  /** toB64Buffer */
  function ToBuffer(f: Form): Result<Bytes, Error> {
    match f
    case Text(s) => Success(FromBase64(s))
    case Revived(bytes) => Success(bytes)
    case Data(numbers) => Success(numbers)
    case DataText(s) => Success(FromBase64(s))
    case Other => Failure(UnknownForm)
  }

  /** A value that JavaScript takes for false: among the forms only the empty string is one. */
  predicate Falsy(f: Form) {
    f == Text("")
  }

  function SerializeKeys(keys: seq<MessageKey>): (r: seq<MessageKeyForm>)
    ensures |r| == |keys|
  {
    seq(|keys|, i requires 0 <= i < |keys| => MessageKeyForm(keys[i].iteration, Text(Base64(keys[i].seed))))
  }

  function Serialize(s: State): StateForm {
    StateForm(s.keyId, s.iteration, Text(Base64(s.seed)), Text(Base64(s.publicKey)),
              if s.privateKey.Some? then Some(Text(Base64(s.privateKey.value))) else None, SerializeKeys(s.messageKeys))
  }

  function DeserializeKeys(keys: seq<MessageKeyForm>): Result<seq<MessageKey>, Error> {
    if keys == [] then Success([])
    else
      var front :- DeserializeKeys(keys[..|keys| - 1]);
      var seed :- ToBuffer(keys[|keys| - 1].seed);
      Success(front + [MessageKey(keys[|keys| - 1].iteration, seed)])
  }

  function DeserializePrivate(f: Option<Form>): Result<Option<Bytes>, Error> {
    if f.None? || Falsy(f.value) then Success(None)
    else
      var bytes :- ToBuffer(f.value);
      Success(Some(bytes))
  }

  function Deserialize(f: StateForm): Result<State, Error> {
    var seed :- ToBuffer(f.seed);
    var publicKey :- ToBuffer(f.publicKey);
    var privateKey :- DeserializePrivate(f.privateKey);
    var messageKeys :- DeserializeKeys(f.messageKeys);
    Success(State(f.keyId, f.iteration, seed, publicKey, privateKey, messageKeys))
  }

  lemma {:induction false} KeysRead(keys: seq<MessageKey>)
    ensures DeserializeKeys(SerializeKeys(keys)) == Success(keys)
  {
    if keys != [] {
      var n := |keys| - 1;
      KeysRead(keys[..n]);
      Base64Reads(keys[n].seed);
      assert SerializeKeys(keys)[..n] == SerializeKeys(keys[..n]);
      assert keys == keys[..n] + [keys[n]];
      hide Base64, FromBase64;
    }
  }

  /** A state comes back from its serialized form if and only if its private key, if it has one, is not
      without bytes. */
  lemma StateReads(s: State)
    ensures Deserialize(Serialize(s)) == Success(s) <==> s.privateKey != Some([])
    ensures s.privateKey == Some([]) ==> Deserialize(Serialize(s)) == Success(s.(privateKey := None))
  {
    KeysRead(s.messageKeys);
    Base64Reads(s.seed);
    Base64Reads(s.publicKey);
    if s.privateKey.Some? {
      Base64Reads(s.privateKey.value);
      Base64Empty(s.privateKey.value);
    }
    hide Base64, FromBase64, DeserializeKeys, SerializeKeys;
  }

  /** `f` is one of the forms of these bytes. */
  ghost predicate Writes(f: Form, bytes: Bytes) {
    f in {Text(Base64(bytes)), Revived(bytes), Data(bytes), DataText(Base64(bytes))}
  }

  ghost predicate WritesKeys(keys: seq<MessageKeyForm>, values: seq<MessageKey>) {
    |keys| == |values|
    && forall i :: 0 <= i < |keys| ==> keys[i].iteration == values[i].iteration && Writes(keys[i].seed, values[i].seed)
  }

  ghost predicate WritesState(f: StateForm, s: State) {
    && f.keyId == s.keyId && f.iteration == s.iteration && Writes(f.seed, s.seed) && Writes(f.publicKey, s.publicKey)
    && (f.privateKey.Some? <==> s.privateKey.Some?)
    && (f.privateKey.Some? ==> Writes(f.privateKey.value, s.privateKey.value) && s.privateKey.value != [])
    && WritesKeys(f.messageKeys, s.messageKeys)
  }

  lemma FormReads(f: Form, bytes: Bytes)
    requires Writes(f, bytes)
    ensures ToBuffer(f) == Success(bytes) && (bytes != [] ==> !Falsy(f))
  {
    Base64Reads(bytes);
    Base64Empty(bytes);
    hide Base64, FromBase64;
  }

  lemma {:induction false} KeyFormsRead(keys: seq<MessageKeyForm>, values: seq<MessageKey>)
    requires WritesKeys(keys, values)
    ensures DeserializeKeys(keys) == Success(values)
  {
    hide Writes;
    if keys != [] {
      var n := |keys| - 1;
      KeyFormsRead(keys[..n], values[..n]);
      FormReads(keys[n].seed, values[n].seed);
      assert values == values[..n] + [values[n]];
    }
  }

  /** However the bytes of a state are written, it is read as the same state. */
  lemma FormsRead(f: StateForm, s: State)
    requires WritesState(f, s)
    ensures Deserialize(f) == Success(s)
  {
    FormReads(f.seed, s.seed);
    FormReads(f.publicKey, s.publicKey);
    if s.privateKey.Some? {
      FormReads(f.privateKey.value, s.privateKey.value);
    }
    KeyFormsRead(f.messageKeys, s.messageKeys);
    hide Writes, WritesKeys, ToBuffer, DeserializeKeys;
  }

  /** SenderKeyRecord.serialize and deserialize: the states in their order. */
  function SerializeRecord(states: seq<State>): (r: seq<StateForm>)
    ensures |r| == |states|
  {
    seq(|states|, i requires 0 <= i < |states| => Serialize(states[i]))
  }

  function DeserializeRecord(states: seq<StateForm>): Result<seq<State>, Error> {
    if states == [] then Success([])
    else
      var front :- DeserializeRecord(states[..|states| - 1]);
      var last :- Deserialize(states[|states| - 1]);
      Success(front + [last])
  }

  /** The loop of SenderKeyRecord.deserialize. */
  method BuildStates(states: seq<StateForm>) returns (r: Result<seq<State>, Error>)
    ensures r == DeserializeRecord(states)
  {
    var built: seq<State> := [];
    for i := 0 to |states|
      invariant DeserializeRecord(states[..i]) == Success(built)
    {
      assert states[..i + 1][..i] == states[..i] && states[..i + 1][i] == states[i];
      var state := Deserialize(states[i]);
      if state.Failure? {
        FailsFrom(states, i + 1);
        return Failure(state.error);
      }
      built := built + [state.value];
    }
    assert states[..|states|] == states;
    r := Success(built);
  }

  lemma {:induction false} FailsFrom(states: seq<StateForm>, n: nat)
    requires n <= |states| && DeserializeRecord(states[..n]).Failure?
    ensures DeserializeRecord(states) == DeserializeRecord(states[..n])
    decreases |states|
  {
    if n < |states| {
      assert states[..|states| - 1][..n] == states[..n];
      FailsFrom(states[..|states| - 1], n);
    } else {
      assert states[..n] == states;
    }
  }

  function WithoutEmpty(states: seq<State>): (r: seq<State>)
    ensures |r| == |states|
  {
    seq(|states|, i requires 0 <= i < |states| =>
      states[i].(privateKey := if states[i].privateKey == Some([]) then None else states[i].privateKey))
  }

  ghost predicate NoEmptyKeys(states: seq<State>) {
    forall i :: 0 <= i < |states| ==> states[i].privateKey != Some([])
  }

  lemma {:induction false} StatesRead(states: seq<State>)
    ensures DeserializeRecord(SerializeRecord(states)) == Success(WithoutEmpty(states))
  {
    hide Serialize, Deserialize;
    if states != [] {
      var n := |states| - 1;
      StatesRead(states[..n]);
      StateReads(states[n]);
      assert SerializeRecord(states)[..n] == SerializeRecord(states[..n]);
      assert WithoutEmpty(states) == WithoutEmpty(states[..n]) + [WithoutEmpty(states)[n]];
    }
  }

  lemma SameWithoutEmpty(states: seq<State>)
    ensures WithoutEmpty(states) == states <==> NoEmptyKeys(states)
  {
    forall i | 0 <= i < |states| ensures WithoutEmpty(states)[i] == states[i] <==> states[i].privateKey != Some([]) {
    }
  }

  /** A record comes back from its serialized form if and only if no private key is without bytes. */
  lemma RecordReads(states: seq<State>)
    ensures DeserializeRecord(SerializeRecord(states)) == Success(states) <==> NoEmptyKeys(states)
  {
    StatesRead(states);
    SameWithoutEmpty(states);
    hide WithoutEmpty, NoEmptyKeys;
  }

  /** What is written of a state, field by field. */
  lemma WrittenAs(s: State)
    ensures var f := Serialize(s);
            && f.keyId == s.keyId && f.iteration == s.iteration
            && f.seed == Text(Base64(s.seed)) && f.publicKey == Text(Base64(s.publicKey))
            && f.privateKey == (if s.privateKey.Some? then Some(Text(Base64(s.privateKey.value))) else None)
            && |f.messageKeys| == |s.messageKeys|
            && forall i :: 0 <= i < |f.messageKeys| ==>
                 f.messageKeys[i] == MessageKeyForm(s.messageKeys[i].iteration, Text(Base64(s.messageKeys[i].seed)))
  {
    hide Base64;
  }

  ghost predicate Readable(f: StateForm) {
    && f.seed != Other && f.publicKey != Other && f.privateKey != Some(Other)
    && forall i :: 0 <= i < |f.messageKeys| ==> f.messageKeys[i].seed != Other
  }

  lemma {:induction false} KeysReadWhen(keys: seq<MessageKeyForm>)
    ensures DeserializeKeys(keys).Success? <==> forall i :: 0 <= i < |keys| ==> keys[i].seed != Other
  {
    if keys != [] {
      var n := |keys| - 1;
      KeysReadWhen(keys[..n]);
      assert forall i :: 0 <= i < n ==> keys[..n][i] == keys[i];
      assert ToBuffer(keys[n].seed).Success? <==> keys[n].seed != Other;
      hide ToBuffer;
    }
  }

  lemma StateReadsWhen(f: StateForm)
    ensures Deserialize(f).Success? <==> Readable(f)
  {
    KeysReadWhen(f.messageKeys);
    hide DeserializeKeys;
  }

  /** A record is refused exactly when some bytes in it are in none of the known forms. */
  lemma {:induction false} ReadExactlyWhen(states: seq<StateForm>)
    ensures DeserializeRecord(states).Success? <==> forall i :: 0 <= i < |states| ==> Readable(states[i])
  {
    hide Deserialize, Readable;
    if states != [] {
      var n := |states| - 1;
      ReadExactlyWhen(states[..n]);
      assert forall i :: 0 <= i < n ==> states[..n][i] == states[i];
      StateReadsWhen(states[n]);
    }
  }
}
