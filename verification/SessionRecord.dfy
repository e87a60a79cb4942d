/** The session record: up to 40 sessions with one peer, at most one of them open. Candidates
    are tried on copies; the oldest closed sessions make room. */
module Records {
  import opened Wrappers
  import opened Keys
  import opened Ratchet
  import opened Chains
  import opened ChainIds
  import opened Entries
  import opened SessionTable
  import opened X3dh

  // Trying a message on sessions.

  ghost predicate Opens(s: Session, ourIdentity: KeyId, w: Whisper, newKey: KeyId) {
    Decrypt(s, ourIdentity, w, newKey).Success?
  }

  /** One candidate: a copy is stepped, and the original is left alone. */
  method TryCandidate(session: SessionEntry, ourIdentity: KeyId, w: Whisper, newKey: KeyId, now: int)
    returns (candidate: SessionEntry, r: Result<Bytes, Error>)
    requires session.Valid()
    ensures fresh(candidate) && fresh(candidate.chains.Values)
    ensures r.Success? <==> Opens(session.View(), ourIdentity, w, newKey)
    ensures r.Success? ==> candidate.Valid() && candidate.info == session.info.(used := now)
                           && Decrypt(session.View(), ourIdentity, w, newKey) == Success((candidate.View(), r.value))
  {
    hide Decrypt, SessionEntry.Valid, SessionEntry.View;
    candidate := session.Copy();
    r := candidate.DoDecrypt(ourIdentity, w, newKey);
    if r.Success? {
      candidate.SetInfo(candidate.info.(used := now));
    } else {
      candidate.WipeKeyMaterial();
    }
  }

  /** None of the first `n` sessions opens the message. */
  ghost predicate NoneOpens(views: seq<Session>, ourIdentity: KeyId, w: Whisper, newKeys: seq<KeyId>, n: nat) {
    n <= |views| == |newKeys| && forall i :: 0 <= i < n ==> !Opens(views[i], ourIdentity, w, newKeys[i])
  }

  /** The sessions as they stand. */
  ghost predicate Stand(sessions: seq<SessionEntry>, views: seq<Session>)
    reads sessions, set i, c | 0 <= i < |sessions| && c in sessions[i].chains.Values :: c
  {
    |views| == |sessions| && forall i {:trigger sessions[i]} :: 0 <= i < |sessions| ==>
      sessions[i].Valid() && sessions[i].View() == views[i]
  }

  /** decryptWithSessions: the first session that opens the message, on a copy. Nothing that
      exists before the call is modified: when every candidate fails, each session keeps its
      keys, and on success only a new object has moved on. */
  method DecryptWithSessions(sessions: seq<SessionEntry>, ghost views: seq<Session>, ourIdentity: KeyId, w: Whisper,
                             newKeys: seq<KeyId>, now: int)
    returns (i: nat, candidate: SessionEntry?, plaintext: Bytes)
    requires Stand(sessions, views) && |newKeys| == |sessions|
    ensures Stand(sessions, views) && NoneOpens(views, ourIdentity, w, newKeys, i)
    ensures candidate == null ==> i == |sessions|
    ensures candidate != null ==>
              && i < |sessions| && fresh(candidate) && fresh(candidate.chains.Values) && candidate.Valid()
              && Decrypt(views[i], ourIdentity, w, newKeys[i]) == Success((candidate.View(), plaintext))
              && candidate.info == sessions[i].info.(used := now)
  {
    hide Opens, Decrypt, ValidTable, Views, Ids, NoRepeats;
    i, candidate, plaintext := 0, null, [];
    while i < |sessions|
      invariant i <= |sessions| && Stand(sessions, views) && NoneOpens(views, ourIdentity, w, newKeys, i)
      invariant candidate == null
    {
      var copy, tried := TryCandidate(sessions[i], ourIdentity, w, newKeys[i], now);
      if tried.Success? {
        return i, copy, tried.value;
      }
      i := i + 1;
    }
  }

  ghost predicate EntriesValid(sessions: map<KeyId, SessionEntry>)
    reads sessions.Values, set k, c | k in sessions && c in sessions[k].chains.Values :: c
  {
    forall k :: k in sessions ==> sessions[k].Valid() && sessions[k].baseKey == k
  }

  /** The two sessions have no object in common. */
  ghost predicate Apart(a: SessionEntry, b: SessionEntry)
    reads a, b
  {
    a != b && a.chains.Values !! b.chains.Values
  }

  ghost predicate Separate(sessions: map<KeyId, SessionEntry>)
    reads sessions.Values
  {
    forall a, b :: a in sessions && b in sessions && a != b ==> Apart(sessions[a], sessions[b])
  }

  ghost predicate AllApart(sessions: map<KeyId, SessionEntry>, s: SessionEntry)
    reads sessions.Values, s
  {
    forall k :: k in sessions ==> Apart(sessions[k], s)
  }

  lemma SeparateAdd(sessions: map<KeyId, SessionEntry>, s: SessionEntry)
    requires Separate(sessions) && EntriesValid(sessions) && s.Valid()
    requires AllApart(sessions, s)
    ensures Separate(sessions[s.baseKey := s]) && EntriesValid(sessions[s.baseKey := s])
  {
    var t := sessions[s.baseKey := s];
    forall a, b | a in t && b in t && a != b ensures Apart(t[a], t[b]) {
      if b != s.baseKey && a != s.baseKey {
        assert Apart(sessions[a], sessions[b]);
      }
    }
  }

  function Infos(sessions: map<KeyId, SessionEntry>): map<KeyId, IndexInfo>
    reads sessions.Values
  {
    map k | k in sessions :: sessions[k].info
  }

  function Contents(sessions: map<KeyId, SessionEntry>): map<KeyId, Session>
    reads sessions.Values, set k, c | k in sessions && c in sessions[k].chains.Values :: c
  {
    map k | k in sessions :: sessions[k].View()
  }

  lemma EntryRemoved(sessions: map<KeyId, SessionEntry>, k: KeyId)
    requires k in sessions && EntriesValid(sessions) && Separate(sessions)
    ensures EntriesValid(sessions - {k}) && Separate(sessions - {k})
    ensures sessions[k].Valid() && AllApart(sessions - {k}, sessions[k])
    ensures Infos(sessions - {k}) == Infos(sessions) - {k}
    ensures Contents(sessions - {k}) == Contents(sessions) - {k}
  {
    hide ValidTable, Ids, NoRepeats, Views;
  }

  lemma InInfos(sessions: map<KeyId, SessionEntry>, k: KeyId)
    requires k in Infos(sessions)
    ensures k in sessions
  {
  }

  lemma InfoOf(sessions: map<KeyId, SessionEntry>, k: KeyId)
    requires k in sessions
    ensures k in Infos(sessions) && Infos(sessions)[k] == sessions[k].info
  {
  }

  ghost function Objects(sessions: map<KeyId, SessionEntry>): (r: set<object>)
    reads sessions.Values
  {
    sessions.Values + set k, c: ChainState | k in sessions && c in sessions[k].chains.Values :: c
  }

  lemma ObjectsExist(sessions: map<KeyId, SessionEntry>)
    ensures forall o :: o in Objects(sessions) ==> allocated(o)
  {
  }

  lemma NewIsApart(sessions: map<KeyId, SessionEntry>, s: SessionEntry)
    requires s !in Objects(sessions) && Objects(sessions) !! s.chains.Values
    ensures AllApart(sessions, s)
  {
    forall k | k in sessions ensures Apart(sessions[k], s) {
      InObjects(sessions, k);
    }
  }

  lemma InObjects(sessions: map<KeyId, SessionEntry>, k: KeyId)
    requires k in sessions
    ensures sessions[k] in Objects(sessions) && sessions[k].chains.Values <= Objects(sessions)
  {
  }

  lemma ContentsPut(sessions: map<KeyId, SessionEntry>, s: SessionEntry)
    ensures Contents(sessions[s.baseKey := s]) == Contents(sessions)[s.baseKey := s.View()]
  {
    hide SessionEntry.View;
  }

  lemma InfosPut(sessions: map<KeyId, SessionEntry>, s: SessionEntry)
    ensures Infos(sessions[s.baseKey := s]) == Infos(sessions)[s.baseKey := s.info]
    ensures Infos(sessions).Keys == sessions.Keys && sessions[s.baseKey := s].Keys == sessions.Keys + {s.baseKey}
  {
  }

  lemma ObjectsReplaced(sessions: map<KeyId, SessionEntry>, s: SessionEntry)
    ensures Objects(sessions[s.baseKey := s]) <= Objects(sessions) + {s} + s.chains.Values
  {
  }

  lemma EntryReplaced(sessions: map<KeyId, SessionEntry>, s: SessionEntry)
    requires EntriesValid(sessions) && Separate(sessions)
    requires s.Valid() && AllApart(sessions, s) && s.baseKey in sessions
    ensures var t := sessions[s.baseKey := s];
            && EntriesValid(t) && Separate(t) && AllApart(t, sessions[s.baseKey])
            && Contents(t) == Contents(sessions)[s.baseKey := s.View()]
    ensures sessions[s.baseKey].Valid()
  {
    SeparateAdd(sessions, s);
    hide ValidTable, Ids, NoRepeats, Views;
    forall k | k in sessions && k != s.baseKey ensures Apart(sessions[k], sessions[s.baseKey]) {
    }
  }

  ghost predicate Within(sessions: map<KeyId, SessionEntry>, objects: set<object>)
    reads sessions.Values
  {
    forall k :: k in sessions ==> sessions[k] in objects && sessions[k].chains.Values <= objects
  }

  lemma WithinObjects(sessions: map<KeyId, SessionEntry>)
    ensures Within(sessions, Objects(sessions))
  {
  }

  lemma WithinIsObjects(sessions: map<KeyId, SessionEntry>, objects: set<object>)
    requires Within(sessions, objects)
    ensures Objects(sessions) <= objects
  {
  }

  /** Every entry of `now` was there before. */
  ghost predicate Kept<T>(before: map<KeyId, T>, now: map<KeyId, T>) {
    forall k :: k in now ==> k in before && now[k] == before[k]
  }

  ghost predicate Erased(s: SessionEntry)
    reads s, s.chains.Values
  {
    s.ephemeralPriv == Zeros && s.rootKey == Zeros && forall id :: id in s.chains ==> Wiped(s.chains[id])
  }

  /** wipeKeyMaterial on a session that is no longer in the table: no key that the sessions in
      the table, or one that has replaced it, can reach is lost. */
  method WipeReplaced(s: SessionEntry, rest: map<KeyId, SessionEntry>)
    requires s.Valid() && EntriesValid(rest) && Separate(rest)
    requires AllApart(rest, s)
    modifies s`ephemeralPriv, s`rootKey, s.chains.Values
    ensures EntriesValid(rest) && Separate(rest)
    ensures Contents(rest) == old(Contents(rest)) && Infos(rest) == old(Infos(rest))
    ensures Objects(rest) == old(Objects(rest))
    ensures Erased(s)
  {
    hide Ids, NoRepeats, ValidTable, Views, EntriesValid, Separate, Contents, SessionEntry.View;
    s.WipeKeyMaterial();
  }

  ghost predicate Listed(sessions: map<KeyId, SessionEntry>, ids: seq<KeyId>, list: seq<SessionEntry>) {
    |list| == |ids| && forall i :: 0 <= i < |ids| ==> ids[i] in sessions && list[i] == sessions[ids[i]]
  }

  ghost function ViewsOf(ids: seq<KeyId>, contents: map<KeyId, Session>): (r: seq<Session>)
    requires forall i :: 0 <= i < |ids| ==> ids[i] in contents
  {
    seq(|ids|, i requires 0 <= i < |ids| => contents[ids[i]])
  }

  lemma ListStands(sessions: map<KeyId, SessionEntry>, ids: seq<KeyId>, list: seq<SessionEntry>)
    requires EntriesValid(sessions) && Listed(sessions, ids, list)
    ensures Stand(list, ViewsOf(ids, Contents(sessions)))
  {
    hide ValidTable, Ids, NoRepeats, Views;
  }

  /** The first `i` sessions do not open the message. */
  ghost predicate FirstToOpen(contents: map<KeyId, Session>, ids: seq<KeyId>, ourIdentity: KeyId, w: Whisper,
                              newKeys: seq<KeyId>, i: nat)
  {
    && i <= |ids| == |newKeys|
    && forall j :: 0 <= j < i ==> ids[j] in contents && !Opens(contents[ids[j]], ourIdentity, w, newKeys[j])
  }

  lemma NoneOfThem(contents: map<KeyId, Session>, ids: seq<KeyId>, ourIdentity: KeyId, w: Whisper, newKeys: seq<KeyId>,
                   i: nat)
    requires forall j :: 0 <= j < |ids| ==> ids[j] in contents
    requires NoneOpens(ViewsOf(ids, contents), ourIdentity, w, newKeys, i)
    ensures FirstToOpen(contents, ids, ourIdentity, w, newKeys, i)
  {
    hide Opens;
    forall j | 0 <= j < i ensures !Opens(contents[ids[j]], ourIdentity, w, newKeys[j]) {
      assert !Opens(ViewsOf(ids, contents)[j], ourIdentity, w, newKeys[j]);
    }
  }

  /** The copy of session `i`, after the message. */
  ghost predicate CandidateOf(sessions: map<KeyId, SessionEntry>, ids: seq<KeyId>, ourIdentity: KeyId, w: Whisper,
                              newKeys: seq<KeyId>, now: int, i: nat, candidate: SessionEntry, plaintext: Bytes)
    reads sessions.Values, set k, c | k in sessions
      && c in sessions[k].chains.Values :: c, candidate, candidate.chains.Values
  {
    && i < |ids| == |newKeys| && ids[i] in sessions
    && Decrypt(sessions[ids[i]].View(), ourIdentity, w, newKeys[i]) == Success((candidate.View(), plaintext))
    && candidate.info == sessions[ids[i]].info.(used := now)
  }

  lemma IsCandidate(sessions: map<KeyId, SessionEntry>, ids: seq<KeyId>, list: seq<SessionEntry>, ourIdentity: KeyId,
                    w: Whisper,
                    newKeys: seq<KeyId>, now: int, i: nat, candidate: SessionEntry, plaintext: Bytes)
    requires Listed(sessions, ids, list) && i < |ids| == |newKeys|
    requires Decrypt(ViewsOf(ids, Contents(sessions))[i], ourIdentity, w, newKeys[i])
             == Success((candidate.View(), plaintext))
    requires candidate.info == list[i].info.(used := now)
    ensures CandidateOf(sessions, ids, ourIdentity, w, newKeys, now, i, candidate, plaintext)
  {
    hide Decrypt, SessionEntry.View;
  }

  lemma CandidateMeans(sessions: map<KeyId, SessionEntry>, ids: seq<KeyId>, ourIdentity: KeyId, w: Whisper,
                       newKeys: seq<KeyId>, now: int, i: nat, candidate: SessionEntry, plaintext: Bytes)
    requires EntriesValid(sessions)
    requires CandidateOf(sessions, ids, ourIdentity, w, newKeys, now, i, candidate, plaintext)
    ensures i < |ids| == |newKeys| && ids[i] in sessions && ids[i] in Contents(sessions) && ids[i] in Infos(sessions)
    ensures candidate.baseKey == ids[i]
    ensures candidate.info == Infos(sessions)[ids[i]].(used := now)
    ensures Decrypt(Contents(sessions)[ids[i]], ourIdentity, w, newKeys[i]) == Success((candidate.View(), plaintext))
  {
    DecryptKeepsBaseKey(sessions[ids[i]].View(), ourIdentity, w, newKeys[i]);
    hide Decrypt;
  }

  lemma StepKeepsBaseKey(s: Session, remote: KeyId, previousCounter: int, newKey: KeyId)
    requires StepRatchet(s, remote, previousCounter, newKey).Success?
    ensures StepRatchet(s, remote, previousCounter, newKey).value.baseKey == s.baseKey
  {
    hide Fill, ReceivingIds;
  }

  lemma DecryptKeepsBaseKey(s: Session, ourIdentity: KeyId, w: Whisper, newKey: KeyId)
    requires Decrypt(s, ourIdentity, w, newKey).Success?
    ensures Decrypt(s, ourIdentity, w, newKey).value.0.baseKey == s.baseKey
  {
    StepKeepsBaseKey(s, w.message.ephemeral, w.message.previousCounter, newKey);
    hide Fill, Open, StepRatchet;
  }

  /** What decryptWhisperMessage makes of a record: the first session in getSessions order that
      opens the message moves on, if its identity is trusted, and every other stays as it is. */
  ghost predicate Tried(before: map<KeyId, Session>, t: Table, ourIdentity: KeyId, trusted: set<KeyId>, w: Whisper,
                        newKeys: seq<KeyId>, now: int, i: nat, r: Result<Bytes, RecordError>,
                        after: map<KeyId, Session>, u: Table)
  {
    var ids := ByUse(t.order, t.infos);
    && FirstToOpen(before, ids, ourIdentity, w, newKeys, i)
    && if i == |newKeys| then r == Failure(NoMatchingSession) && after == before && u == t
       else
         && ids[i] in before && ids[i] in t.infos
         && match Decrypt(before[ids[i]], ourIdentity, w, newKeys[i])
            case Failure(_) => false
            case Success(v) =>
              if v.0.remoteIdentity !in trusted then r == Failure(UntrustedIdentity) && after == before && u == t
              else
                && r == Success(v.1) && after == before[ids[i] := v.0]
                && u == Put(t, ids[i], t.infos[ids[i]].(used := now))
  }

  /** The sessions in getSessions order, each with the key pair that its attempt generates: whether it opens. */
  ghost predicate OpensAt(before: map<KeyId, Session>, ids: seq<KeyId>, ourIdentity: KeyId, w: Whisper,
                          newKeys: seq<KeyId>, i: int)
  {
    0 <= i < |ids| && i < |newKeys| && ids[i] in before && Decrypt(before[ids[i]], ourIdentity, w, newKeys[i]).Success?
  }

  /** What comes of trying: nothing opens; the first that opens has an identity that is not trusted; or it has
      one that is, and then it alone moves on, with the time of the message. */
  lemma TriedMeans(before: map<KeyId, Session>, t: Table, ourIdentity: KeyId, trusted: set<KeyId>, w: Whisper,
                   newKeys: seq<KeyId>, now: int, i: nat, r: Result<Bytes, RecordError>, after: map<KeyId, Session>,
                   u: Table)
    requires Tried(before, t, ourIdentity, trusted, w, newKeys, now, i, r, after, u)
    ensures var ids := ByUse(t.order, t.infos);
            && (forall j :: 0 <= j < i ==> !OpensAt(before, ids, ourIdentity, w, newKeys, j))
            && (r == Failure(NoMatchingSession) <==>
                  forall j :: 0 <= j < |newKeys| ==> !OpensAt(before, ids, ourIdentity, w, newKeys, j))
            && (r.Failure? ==> r.error in {NoMatchingSession, UntrustedIdentity} && after == before && u == t)
            && (OpensAt(before, ids, ourIdentity, w, newKeys, i) ==>
                  var v := Decrypt(before[ids[i]], ourIdentity, w, newKeys[i]).value;
                  && (r == Failure(UntrustedIdentity) <==> v.0.remoteIdentity !in trusted)
                  && (v.0.remoteIdentity in trusted ==>
                        && r == Success(v.1) && after == before[ids[i] := v.0] && ids[i] in t.infos
                        && u.infos == t.infos[ids[i] := t.infos[ids[i]].(used := now)] && u.order == t.order))
  {
    hide Decrypt, ByUse;
    assert i < |newKeys| ==> OpensAt(before, ByUse(t.order, t.infos), ourIdentity, w, newKeys, i);
  }

  // A first message, or one sent before the initiator has heard from us.

  /** What a PreKeyWhisperMessage says about its handshake. */
  datatype Incoming = Incoming(identity: KeyId, baseKey: KeyId, preKeyId: Option<int>, signedPreKeyId: int)

  /** The key pairs that the storage has under the ids that it gave out. */
  datatype PreKeyStore = PreKeyStore(preKeys: map<int, KeyId>, signedPreKeys: map<int, KeyId>)

  datatype IncomingError =
    | UntrustedPeer | OurOwnBaseKey | InvalidPreKeyId | MissingSignedPreKey | NotDecrypted(error: Error)

  /** The checks of initIncoming, in their order; whether the session is known already. */
  function Admit(t: Table, m: Incoming, store: PreKeyStore, trusted: set<KeyId>): Result<bool, IncomingError> {
    if m.identity !in trusted then Failure(UntrustedPeer)
    else if m.baseKey in t.infos then (if t.infos[m.baseKey].ours then Failure(OurOwnBaseKey) else Success(true))
    else if m.preKeyId.Some? && m.preKeyId.value !in store.preKeys then Failure(InvalidPreKeyId)
    else if m.signedPreKeyId !in store.signedPreKeys then Failure(MissingSignedPreKey)
    else Success(false)
  }

  function HandshakeOf(m: Incoming, ourIdentity: KeyId, store: PreKeyStore): Handshake {
    Handshake(m.identity, ourIdentity, m.baseKey,
              if m.signedPreKeyId in store.signedPreKeys then store.signedPreKeys[m.signedPreKeyId] else 0,
              if m.preKeyId.Some? && m.preKeyId.value in store.preKeys then Some(store.preKeys[m.preKeyId.value])
                else None, 0)
  }

  /** The sessions with the one of the message among them. */
  ghost function WithIncoming(before: map<KeyId, Session>, m: Incoming, ourIdentity: KeyId, store: PreKeyStore)
    : (r: map<KeyId, Session>)
    ensures m.baseKey in r
  {
    if m.baseKey in before then before else before[m.baseKey := ResponderSession(HandshakeOf(m, ourIdentity, store))]
  }

  function TableWithIncoming(t: Table, m: Incoming, now: int): Table {
    if m.baseKey in t.infos then t else SessionTable.Start(t, m.baseKey, now, false)
  }

  lemma OldestNext(order: seq<KeyId>, i: nat, infos: map<KeyId, IndexInfo>, best: Option<KeyId>)
    requires i < |order| && (forall j :: 0 <= j < |order| ==> order[j] in infos) && (best.Some? ==> best.value in infos)
    ensures var closed := infos[order[i]].closed;
            Oldest(order[i..], infos, best)
            == Oldest(order[i + 1..], infos,
                      if closed != -1 && (best.None? || closed < infos[best.value].closed) then Some(order[i])
                        else best)
  {
    assert order[i..][0] == order[i] && order[i..][1..] == order[i + 1..];
  }

  lemma OldestOfNone(order: seq<KeyId>, infos: map<KeyId, IndexInfo>, best: Option<KeyId>)
    ensures Oldest(order[|order|..], infos, best) == best
  {
  }

  lemma ValuesInObjects(sessions: map<KeyId, SessionEntry>)
    ensures forall k :: k in sessions ==> sessions[k] in Objects(sessions)
  {
  }

  lemma BaseKeyOfView(s: SessionEntry)
    ensures s.View().baseKey == s.baseKey
  {
  }

  lemma PutSame(t: Table, k: KeyId)
    requires k in t.infos
    ensures Put(t, k, t.infos[k]) == t
  {
  }

  class SessionRecord {
    var sessions: map<KeyId, SessionEntry>
    var order: seq<KeyId>

    /** Each session under its base key, and no two with an object in common. */
    ghost predicate Valid()
      reads this, sessions.Values, set k, c | k in sessions && c in sessions[k].chains.Values :: c
    {
      && sessions.Keys == Ids(order) && NoRepeats(order)
      && EntriesValid(sessions) && Separate(sessions)
    }

    function View(): Table
      reads this, sessions.Values
    {
      Table(order, Infos(sessions))
    }

    constructor ()
      ensures Valid() && View() == Table([], map[])
    {
      sessions, order := map[], [];
    }

    /** getOpenSession */
    method GetOpenSession() returns (s: SessionEntry?)
      requires Valid()
      ensures match FirstOpen(order, View().infos)
              case None => s == null
              case Some(k) => k in sessions && s == sessions[k] && s.baseKey == k
    {
      s := null;
      ghost var infos := View().infos;
      for i := 0 to |order|
        invariant FirstOpen(order[i..], infos) == FirstOpen(order, infos)
      {
        assert order[i..][0] == order[i] && order[i..][1..] == order[i + 1..];
        if sessions[order[i]].info.closed == -1 {
          return sessions[order[i]];
        }
      }
    }

    /** setSession: a session already under the base key is replaced in place. */
    method SetSession(s: SessionEntry)
      requires Valid() && s.Valid()
      requires AllApart(sessions, s)
      modifies this`sessions, this`order
      ensures Valid() && sessions == old(sessions)[s.baseKey := s]
      ensures View() == Put(old(View()), s.baseKey, s.info)
      ensures Contents(sessions) == old(Contents(sessions))[s.baseKey := s.View()]
    {
      hide Ids, NoRepeats, Separate, EntriesValid, AllApart, Contents, Infos, SessionEntry.View, SessionEntry.Valid;
      SeparateAdd(sessions, s);
      ContentsPut(sessions, s);
      InfosPut(sessions, s);
      var inOrder := order;
      if s.baseKey !in sessions {
        IdAdded(order, sessions.Keys, s.baseKey);
        inOrder := order + [s.baseKey];
      }
      Adopt(sessions[s.baseKey := s], inOrder);
    }

    method Adopt(table: map<KeyId, SessionEntry>, inOrder: seq<KeyId>)
      requires table.Keys == Ids(inOrder) && NoRepeats(inOrder) && EntriesValid(table) && Separate(table)
      modifies this`sessions, this`order
      ensures Valid() && sessions == table && order == inOrder
      ensures Infos(table) == old(Infos(table)) && Contents(table) == old(Contents(table))
    {
      hide Ids, NoRepeats, Separate, EntriesValid, Contents, Infos;
      sessions, order := table, inOrder;
    }

    method SetInfo(s: SessionEntry, info: IndexInfo)
      requires Valid() && s.baseKey in sessions && sessions[s.baseKey] == s
      modifies s`info
      ensures Valid() && View() == old(View()).(infos := old(View()).infos[s.baseKey := info])
      ensures Contents(sessions) == old(Contents(sessions)) && Objects(sessions) <= old(Objects(sessions))
    {
      ghost var infos, contents, objects := Infos(sessions), Contents(sessions), Objects(sessions);
      WithinObjects(sessions);
      hide Ids, NoRepeats, SessionEntry.Valid, SessionEntry.View, Objects;
      s.SetInfo(info);
      assert Infos(sessions) == infos[s.baseKey := info];
      assert Contents(sessions) == contents;
      WithinIsObjects(sessions, objects);
    }

    /** closeSession on the open session, as both handshakes and closeOpenSession do. */
    method CloseOpen(now: int)
      requires Valid()
      modifies sessions.Values
      ensures Valid() && View() == Close(old(View()), now)
      ensures Contents(sessions) == old(Contents(sessions)) && Objects(sessions) <= old(Objects(sessions))
      ensures forall k :: k in sessions ==> sessions[k].chains == old(sessions[k].chains)
    {
      hide Valid, Infos, FirstOpen, Contents, Objects;
      var s := GetOpenSession();
      if s != null {
        InfoOf(sessions, s.baseKey);
        SetInfo(s, s.info.(closed := now));
      }
    }

    method FindOldest() returns (best: Option<KeyId>)
      requires Valid()
      ensures best == Oldest(order, Infos(sessions), None)
    {
      best := None;
      ghost var infos := Infos(sessions);
      KeysOf();
      hide Oldest, Infos, Valid;
      assert order[0..] == order;
      for i := 0 to |order|
        invariant best.Some? ==> best.value in sessions
        invariant Oldest(order[i..], infos, best) == Oldest(order, infos, None)
      {
        OldestNext(order, i, infos, best);
        var info := sessions[order[i]].info;
        if info.closed != -1 && (best.None? || info.closed < sessions[best.value].info.closed) {
          best := Some(order[i]);
        }
      }
      OldestOfNone(order, infos, best);
    }

    lemma KeysOf()
      requires Valid()
      ensures forall i :: 0 <= i < |order| ==> order[i] in sessions
      ensures Infos(sessions).Keys == sessions.Keys && forall k :: k in sessions ==>
                Infos(sessions)[k] == sessions[k].info
    {
      hide EntriesValid, Separate;
      assert forall i :: 0 <= i < |order| ==> order[i] in Ids(order);
    }

    method Drop(k: KeyId) returns (s: SessionEntry)
      requires Valid() && k in sessions
      modifies this`sessions, this`order
      ensures Valid() && sessions == old(sessions) - {k} && View() == Remove(old(View()), {k})
      ensures Contents(sessions) == old(Contents(sessions)) - {k}
      ensures s == old(sessions[k]) && s.Valid() && AllApart(sessions, s)
    {
      hide Ids, NoRepeats, Without, ValidTable, Views, EntriesValid, Separate, Apart, AllApart, Infos, Contents,
           SessionEntry.Valid;
      IdDeleted(order, sessions.Keys, k);
      EntryRemoved(sessions, k);
      s := sessions[k];
      var rest, inOrder := sessions - {k}, Without(order, {k});
      sessions, order := rest, inOrder;
    }

    method Evict(k: KeyId)
      requires Valid() && k in sessions
      modifies this`sessions, this`order, sessions[k], sessions[k].chains.Values
      ensures Valid() && sessions == old(sessions) - {k} && View() == Remove(old(View()), {k})
      ensures Contents(sessions) == old(Contents(sessions)) - {k} && Erased(old(sessions[k]))
      ensures forall j :: j in sessions ==> sessions[j].chains == old(sessions[j].chains)
    {
      hide Ids, NoRepeats, EntriesValid, Separate, Apart, AllApart, Infos, Contents, SessionEntry.Valid, Remove, Erased;
      var s := Drop(k);
      WipeReplaced(s, sessions);
    }

    method EvictWithin(k: KeyId, ghost objects: set<object>)
      requires Valid() && k in sessions && Within(sessions, objects)
      modifies this`sessions, this`order, objects
      ensures Valid() && Within(sessions, objects) && View() == Remove(old(View()), {k})
      ensures Contents(sessions) == old(Contents(sessions)) - {k}
    {
      hide Ids, NoRepeats, EntriesValid, Separate, Contents, SessionEntry.Valid, Remove, Infos;
      Evict(k);
    }

    lemma IsProper()
      requires Valid()
      ensures Proper(View())
    {
    }

    method EvictOldest(ghost objects: set<object>) returns (r: Result<(), RecordError>)
      requires Valid() && Within(sessions, objects) && |order| > CLOSED_SESSIONS_MAX
      modifies this`sessions, this`order, objects
      ensures Valid() && Within(sessions, objects) && Kept(old(Contents(sessions)), Contents(sessions))
      ensures match r
              case Success(_) => SessionTable.RemoveOldSessions(View()) == SessionTable.RemoveOldSessions(old(View()))
                                 && |order| < old(|order|)
              case Failure(e) => SessionTable.RemoveOldSessions(old(View())) == Failure(e)
    {
      hide Valid, Proper, EntriesValid, Separate, Within, Contents, Oldest, Infos, Remove,
           SessionTable.RemoveOldSessions;
      IsProper();
      EvictOne(View());
      var oldest := FindOldest();
      if oldest.None? {
        return Failure(CorruptSessions);
      }
      assert oldest.value in sessions by { assert View().infos == Infos(sessions); InInfos(sessions, oldest.value); }
      EvictWithin(oldest.value, objects);
      r := Success(());
    }

    /** removeOldSessions: it throws if and only if more than 40 sessions are open. */
    method RemoveOldSessions(ghost objects: set<object>) returns (r: Result<(), RecordError>)
      requires Valid() && Within(sessions, objects)
      modifies this`sessions, this`order, objects
      ensures Valid() && Within(sessions, objects) && Kept(old(Contents(sessions)), Contents(sessions))
      ensures match SessionTable.RemoveOldSessions(old(View()))
              case Failure(e) => r == Failure(e)
              case Success(t) => r.Success? && View() == t
    {
      hide Within, Objects, Contents, Ids, NoRepeats, EntriesValid, Separate, SessionEntry.Valid, Infos;
      r := Success(());
      while |order| > CLOSED_SESSIONS_MAX
        invariant r.Success? && Valid() && Within(sessions, objects)
        invariant Kept(old(Contents(sessions)), Contents(sessions))
        invariant SessionTable.RemoveOldSessions(View()) == SessionTable.RemoveOldSessions(old(View()))
        decreases |order|
      {
        r := EvictOldest(objects);
        if r.Failure? {
          return;
        }
      }
    }

    method RemoveIfStale(ghost was: Table, n: nat, k: KeyId, cutoff: int, ghost objects: set<object>)
      requires Proper(was) && n < |was.order| && k == was.order[n]
      requires Valid() && Within(sessions, objects) && View() == Remove(was, StaleAmong(was, cutoff, n))
      modifies this`sessions, this`order, objects
      ensures Valid() && Within(sessions, objects) && Kept(old(Contents(sessions)), Contents(sessions))
      ensures View() == Remove(was, StaleAmong(was, cutoff, n + 1))
    {
      hide Valid, Proper, EntriesValid, Separate, Within, Contents, Infos, Remove, StaleAmong;
      StaleNext(was, cutoff, n);
      InInfos(sessions, k);
      var info := sessions[k].info;
      assert was.infos[k] == info by { InfoOf(sessions, k); }
      if info.closed != -1 && LastUsed(info) < cutoff {
        EvictWithin(k, objects);
      }
    }

    /** removeStaleSessions */
    method RemoveStaleSessions(cutoff: int, ghost objects: set<object>)
      requires Valid() && Within(sessions, objects)
      modifies this`sessions, this`order, objects
      ensures Valid() && Within(sessions, objects) && Kept(old(Contents(sessions)), Contents(sessions))
      ensures View() == SessionTable.RemoveStaleSessions(old(View()), cutoff)
    {
      ghost var was := View();
      var keys := order;
      hide Valid, Proper, Within, Contents, EntriesValid, Separate, Infos, Remove, StaleAmong,
           SessionTable.RemoveStaleSessions;
      IsProper();
      StaleNone(was, cutoff);
      StaleAll(was, cutoff);
      for i := 0 to |keys|
        invariant Valid() && Within(sessions, objects) && Kept(old(Contents(sessions)), Contents(sessions))
        invariant View() == Remove(was, StaleAmong(was, cutoff, i))
      {
        RemoveIfStale(was, i, keys[i], cutoff, objects);
      }
    }

    /** The part of storeRecord before the storage is called. */
    method PrepareToStore(now: int, maxAge: int) returns (r: Result<(), RecordError>)
      requires Valid()
      modifies this`sessions, this`order, Objects(sessions)
      ensures Valid() && Kept(old(Contents(sessions)), Contents(sessions))
      ensures match StoreRecord(old(View()), now, maxAge)
              case Failure(e) => r == Failure(e)
              case Success(t) => r.Success? && View() == t
    {
      ghost var objects := Objects(sessions);
      WithinObjects(sessions);
      hide Within, Objects, Contents, Ids, NoRepeats, EntriesValid, Separate, SessionEntry.Valid, Infos;
      r := RemoveOldSessions(objects);
      if r.Success? && maxAge != 0 {
        RemoveStaleSessions(now - maxAge, objects);
      }
    }

    method CloseBeside(s: SessionEntry, now: int)
      requires Valid() && s.Valid() && AllApart(sessions, s)
      modifies sessions.Values
      ensures Valid() && View() == Close(old(View()), now) && AllApart(sessions, s)
      ensures s.Valid() && s.View() == old(s.View()) && unchanged(s)
      ensures Contents(sessions) == old(Contents(sessions)) && Objects(sessions) <= old(Objects(sessions))
    {
      hide Valid, Infos, EntriesValid, Separate, Contents, Objects;
      CloseOpen(now);
    }

    /** A new session of either handshake: the open one is closed first. */
    method Start(s: SessionEntry, now: int)
      requires Valid() && s.Valid() && AllApart(sessions, s) && s.info == IndexInfo(-1, now, now, s.info.ours)
      modifies this`sessions, this`order, sessions.Values
      ensures Valid() && View() == SessionTable.Start(old(View()), s.baseKey, now, s.info.ours)
      ensures s.View() == old(s.View()) && sessions == old(sessions)[s.baseKey := s]
      ensures Contents(sessions) == old(Contents(sessions))[s.baseKey := s.View()]
      ensures Objects(sessions) <= old(Objects(sessions) + {s} + s.chains.Values)
    {
      hide Ids, NoRepeats, EntriesValid, Separate, SessionEntry.Valid, SessionEntry.View, Contents, Objects, AllApart;
      CloseBeside(s, now);
      ObjectsReplaced(sessions, s);
      hide Infos, Valid;
      SetSession(s);
    }

    /** The stepped copy takes the place of its session, whose keys are then wiped. */
    method Replace(s: SessionEntry)
      requires Valid() && s.Valid() && AllApart(sessions, s) && s.baseKey in sessions
      modifies this`sessions, this`order, sessions[s.baseKey], sessions[s.baseKey].chains.Values
      ensures Valid() && View() == Put(old(View()), s.baseKey, s.info)
      ensures Contents(sessions) == old(Contents(sessions)[s.baseKey := s.View()])
      ensures sessions == old(sessions)[s.baseKey := s] && Erased(old(sessions[s.baseKey]))
      ensures Objects(sessions) <= old(Objects(sessions) + {s} + s.chains.Values)
    {
      hide Objects, Ids, NoRepeats, EntriesValid, Separate, SessionEntry.Valid, Contents, Infos, AllApart, Apart,
           SessionEntry.View, Erased;
      ObjectsReplaced(sessions, s);
      EntryReplaced(sessions, s);
      var previous := sessions[s.baseKey];
      SetSession(s);
      WipeReplaced(previous, sessions);
    }

    /** getSessions */
    method GetSessions() returns (ids: seq<KeyId>, list: seq<SessionEntry>)
      requires Valid()
      ensures ids == ByUse(order, Infos(sessions)) && Listed(sessions, ids, list)
      ensures |ids| == |order|
    {
      ids := ByUse(order, Infos(sessions));
      ByUseSorts(order, Infos(sessions));
      assert |multiset(ids)| == |multiset(order)|;
      forall i | 0 <= i < |ids| ensures ids[i] in sessions {
        assert ids[i] in multiset(order);
      }
      var table := sessions;
      list := seq(|ids|, i requires 0 <= i < |ids| && ids[i] in table => table[ids[i]]);
    }

    lemma StandingViews(ids: seq<KeyId>, list: seq<SessionEntry>) returns (views: seq<Session>)
      requires Valid() && Listed(sessions, ids, list)
      ensures Listed(sessions, ids, list) && |list| == |ids|
      ensures (forall i :: 0 <= i < |ids| ==> ids[i] in Contents(sessions))
      ensures views == ViewsOf(ids, Contents(sessions)) && Stand(list, views)
    {
      views := ViewsOf(ids, Contents(sessions));
      ListStands(sessions, ids, list);
    }

    lemma NoneOfThese(ids: seq<KeyId>, list: seq<SessionEntry>, views: seq<Session>, ourIdentity: KeyId, w: Whisper,
                      newKeys: seq<KeyId>, i: nat)
      requires forall j :: 0 <= j < |ids| ==> ids[j] in Contents(sessions)
      requires views == ViewsOf(ids, Contents(sessions)) && NoneOpens(views, ourIdentity, w, newKeys, i)
      requires |list| == |ids|
      ensures FirstToOpen(Contents(sessions), ids, ourIdentity, w, newKeys, i) && |ids| == |newKeys|
    {
      NoneOfThem(Contents(sessions), ids, ourIdentity, w, newKeys, i);
    }

    /** The sessions are tried in getSessions order, and none of them changes. */
    method TryInOrder(ourIdentity: KeyId, w: Whisper, newKeys: seq<KeyId>, now: int)
      returns (ghost i: nat, candidate: SessionEntry?, plaintext: Bytes)
      requires Valid() && |newKeys| == |order|
      ensures FirstToOpen(Contents(sessions), ByUse(order, Infos(sessions)), ourIdentity, w, newKeys, i)
      ensures candidate == null <==> i == |newKeys|
      ensures candidate != null ==>
                && candidate.Valid() && fresh(candidate) && fresh(candidate.chains.Values)
                && CandidateOf(sessions, ByUse(order, Infos(sessions)), ourIdentity, w, newKeys, now, i, candidate,
                               plaintext)
    {
      hide Listed, FirstToOpen, NoneOpens, Opens, Decrypt, Valid, SessionEntry.Valid, Contents, Infos, Stand, ViewsOf,
           ByUse, SessionEntry.View, CandidateOf;
      var ids, list := GetSessions();
      ghost var views := StandingViews(ids, list);
      i, candidate, plaintext := DecryptWithSessions(list, views, ourIdentity, w, newKeys, now);
      NoneOfThese(ids, list, views, ourIdentity, w, newKeys, i);
      if candidate != null {
        IsCandidate(sessions, ids, list, ourIdentity, w, newKeys, now, i, candidate, plaintext);
      }
    }

    /** decryptWhisperMessage up to storing the record. `newKeys` are the key pairs that the
        attempts generate if they come to it, `trusted` the identities that isTrustedIdentity accepts. */
    method TrySessions(ourIdentity: KeyId, trusted: set<KeyId>, w: Whisper, newKeys: seq<KeyId>, now: int)
      returns (ghost i: nat, r: Result<Bytes, RecordError>)
      requires Valid() && |newKeys| == |order|
      modifies this`sessions, this`order, Objects(sessions)
      ensures Valid() && fresh(Objects(sessions) - old(Objects(sessions)))
      ensures Tried(old(Contents(sessions)), old(View()), ourIdentity, trusted, w, newKeys, now, i, r,
                    Contents(sessions), View())
    {
      hide Objects, FirstToOpen, Opens, Decrypt, Ids, NoRepeats, EntriesValid, Separate, SessionEntry.Valid, Contents,
           Infos,
           CandidateOf;
      ghost var ids, objects := ByUse(order, Infos(sessions)), Objects(sessions);
      ObjectsExist(sessions);
      var candidate, plaintext;
      i, candidate, plaintext := TryInOrder(ourIdentity, w, newKeys, now);
      if candidate == null {
        return i, Failure(NoMatchingSession);
      }
      CandidateMeans(sessions, ids, ourIdentity, w, newKeys, now, i, candidate, plaintext);
      if candidate.remoteIdentity !in trusted {
        candidate.WipeKeyMaterial();
        return i, Failure(UntrustedIdentity);
      }
      assert candidate !in objects && objects !! candidate.chains.Values && Objects(sessions) == objects;
      NewIsApart(sessions, candidate);
      InObjects(sessions, candidate.baseKey);
      Replace(candidate);
      r := Success(plaintext);
    }

    /** decryptWhisperMessage: a message that no session opens, or that a session with an untrusted
        identity opens, changes nothing. `after` and `u` are the record before it is made ready to store. */
    method DecryptWhisperMessage(ourIdentity: KeyId, trusted: set<KeyId>, w: Whisper, newKeys: seq<KeyId>, now: int,
                                 maxAge: int)
      returns (ghost i: nat, ghost tried: Result<Bytes, RecordError>, ghost after: map<KeyId, Session>, ghost u: Table,
               r: Result<Bytes, RecordError>)
      requires Valid() && |newKeys| == |order|
      modifies this`sessions, this`order, Objects(sessions)
      ensures Valid()
      ensures Tried(old(Contents(sessions)), old(View()), ourIdentity, trusted, w, newKeys, now, i, tried, after, u)
      ensures tried.Failure? ==> r == tried && Contents(sessions) == after && View() == u
      ensures tried.Success? ==>
                && Kept(after, Contents(sessions))
                && match StoreRecord(u, now, maxAge)
                   case Failure(e) => r == Failure(e)
                   case Success(t) => r == tried && View() == t
    {
      hide Tried, Ids, NoRepeats, EntriesValid, Separate, SessionEntry.Valid, Contents, Infos, StoreRecord, Objects;
      i, r := TrySessions(ourIdentity, trusted, w, newKeys, now);
      tried, after, u := r, Contents(sessions), View();
      if r.Success? {
        var stored := PrepareToStore(now, maxAge);
        if stored.Failure? {
          r := Failure(stored.error);
        }
      }
    }

    /** The part of initIncoming that sets up a session the record does not have. */
    method OpenIncoming(h: Handshake, now: int)
      requires Valid() && h.base !in sessions
      modifies this`sessions, this`order, sessions.Values
      ensures Valid() && h.base in sessions && View() == SessionTable.Start(old(View()), h.base, now, false)
      ensures Contents(sessions) == old(Contents(sessions))[h.base := ResponderSession(h)]
      ensures fresh(Objects(sessions) - old(Objects(sessions)))
    {
      hide Valid, SessionEntry.Valid, SessionEntry.View, Objects, Contents, Infos, MasterKey;
      ghost var objects := Objects(sessions);
      ObjectsExist(sessions);
      var s := new SessionEntry(ResponderSession(h), IndexInfo(-1, now, now, false));
      assert s !in objects && s.chains.Values == {};
      NewIsApart(sessions, s);
      Start(s, now);
    }

    /** initIncoming: the id of the one-time prekey that a new session has used up, if there is one. */
    method InitIncoming(m: Incoming, ourIdentity: KeyId, trusted: set<KeyId>, store: PreKeyStore, now: int)
      returns (r: Result<Option<int>, IncomingError>)
      requires Valid()
      modifies this`sessions, this`order, sessions.Values
      ensures Valid() && fresh(Objects(sessions) - old(Objects(sessions)))
      ensures match Admit(old(View()), m, store, trusted)
              case Failure(e) =>
                r == Failure(e) && sessions == old(sessions) && Contents(sessions) == old(Contents(sessions))
                  && View() == old(View())
              case Success(known) =>
                && r == Success(if known then None else m.preKeyId) && m.baseKey in sessions
                && View() == TableWithIncoming(old(View()), m, now)
                && Contents(sessions) == WithIncoming(old(Contents(sessions)), m, ourIdentity, store)
    {
      hide Valid, SessionEntry.Valid, SessionEntry.View, Objects, Contents, MasterKey;
      KnownBaseKey(m.baseKey);
      if m.identity !in trusted {
        return Failure(UntrustedPeer);
      }
      if m.baseKey in sessions {
        return if sessions[m.baseKey].info.ours then Failure(OurOwnBaseKey) else Success(None);
      }
      if m.preKeyId.Some? && m.preKeyId.value !in store.preKeys {
        return Failure(InvalidPreKeyId);
      }
      if m.signedPreKeyId !in store.signedPreKeys {
        return Failure(MissingSignedPreKey);
      }
      hide Infos;
      OpenIncoming(HandshakeOf(m, ourIdentity, store), now);
      r := Success(m.preKeyId);
    }

    lemma SessionAt(k: KeyId)
      requires Valid() && k in sessions
      ensures var s := sessions[k];
              && s.Valid() && s.baseKey == k && s.View().baseKey == k
              && k in Contents(sessions) && Contents(sessions)[k] == s.View()
              && k in View().infos && View().infos[k] == s.info
    {
      hide ValidTable, Ids, NoRepeats, Views;
    }

    lemma KnownBaseKey(k: KeyId)
      requires Valid()
      ensures k in sessions ==> sessions[k].baseKey == k && sessions[k].Valid()
      ensures k in Contents(sessions) <==> k in sessions
    {
    }

    /** The part of decryptPreKeyWhisperMessage after initIncoming: a copy of the session is tried,
        and takes its place if it opens the message. Otherwise no session has moved. */
    method TryIncoming(k: KeyId, ourIdentity: KeyId, w: Whisper, newKey: KeyId) returns (r: Result<Bytes, Error>)
      requires Valid() && k in sessions
      modifies this`sessions, this`order, Objects(sessions)
      ensures Valid() && View() == old(View()) && k in old(Contents(sessions))
      ensures match Decrypt(old(Contents(sessions))[k], ourIdentity, w, newKey)
              case Failure(e) => r == Failure(e) && Contents(sessions) == old(Contents(sessions))
              case Success(v) => r == Success(v.1) && Contents(sessions) == old(Contents(sessions))[k := v.0]
    {
      hide Valid, SessionEntry.Valid, SessionEntry.View, Objects, Contents, Infos, Decrypt;
      SessionAt(k);
      ghost var objects, was := Objects(sessions), View();
      ObjectsExist(sessions);
      InObjects(sessions, k);
      var candidate := sessions[k].Copy();
      ghost var s := candidate.View();
      r := candidate.DoDecrypt(ourIdentity, w, newKey);
      if r.Failure? {
        candidate.WipeKeyMaterial();
        return;
      }
      DecryptKeepsBaseKey(s, ourIdentity, w, newKey);
      BaseKeyOfView(candidate);
      assert candidate !in objects && objects !! candidate.chains.Values && Objects(sessions) == objects;
      NewIsApart(sessions, candidate);
      PutSame(was, k);
      Replace(candidate);
    }

    /** decryptPreKeyWhisperMessage up to storing the record, with the id of the prekey to be removed
        then. If it throws, the record is not stored. */
    method DecryptPreKeyMessage(m: Incoming, ourIdentity: KeyId, trusted: set<KeyId>, store: PreKeyStore,
                                w: Whisper, newKey: KeyId, now: int)
      returns (r: Result<(Bytes, Option<int>), IncomingError>)
      requires Valid()
      modifies this`sessions, this`order, Objects(sessions)
      ensures Valid()
      ensures match Admit(old(View()), m, store, trusted)
              case Failure(e) =>
                r == Failure(e) && Contents(sessions) == old(Contents(sessions)) && View() == old(View())
              case Success(known) =>
                && View() == TableWithIncoming(old(View()), m, now)
                && var before := WithIncoming(old(Contents(sessions)), m, ourIdentity, store);
                   match Decrypt(before[m.baseKey], ourIdentity, w, newKey)
                   case Failure(e) => r == Failure(NotDecrypted(e)) && Contents(sessions) == before
                   case Success(v) =>
                     && r == Success((v.1, if known then None else m.preKeyId))
                     && Contents(sessions) == before[m.baseKey := v.0]
    {
      hide Valid, SessionEntry.Valid, SessionEntry.View, Objects, Contents, Infos, MasterKey, Decrypt, Admit;
      ValuesInObjects(sessions);
      var admitted := InitIncoming(m, ourIdentity, trusted, store, now);
      if admitted.Failure? {
        return Failure(admitted.error);
      }
      var plaintext := TryIncoming(m.baseKey, ourIdentity, w, newKey);
      r := if plaintext.Success? then Success((plaintext.value, admitted.value))
        else Failure(NotDecrypted(plaintext.error));
    }
  }
}
