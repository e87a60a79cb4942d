/** What the times of a session record mean: when a session goes for having been used too long ago,
    and in what order closed sessions go. Everything is said of the fields themselves. */
module SessionTimes {
  import opened Wrappers
  import opened Keys
  import opened Ratchet
  import opened ChainIds
  import opened SessionTable

  // removeStaleSessions

  /** Exactly the closed sessions go whose last use, or whose creation if they were never used, lies
      before the cutoff, and the others stay as they are and in their order. */
  lemma StaleExactlyWhen(t: Table, cutoff: int, k: KeyId)
    requires k in t.infos
    ensures var u, i := RemoveStaleSessions(t, cutoff), t.infos[k];
            && (k !in u.infos <==> i.closed != -1 && (if i.used != 0 then i.used < cutoff else i.created < cutoff))
            && (k in u.infos ==> u.infos[k] == i)
  {
  }

  lemma StaleKeepsOrder(t: Table, cutoff: int)
    requires Proper(t)
    ensures var u := RemoveStaleSessions(t, cutoff);
            && u.infos.Keys <= t.infos.Keys && (forall k :: k in u.order <==> k in u.infos)
            && forall a, b :: Precedes(u.order, a, b) ==> Precedes(t.order, a, b)
  {
    var gone := set k | k in t.infos && IsStale(t.infos, k, cutoff);
    RemoveIsProper(t, gone);
    var u := RemoveStaleSessions(t, cutoff);
    assert forall k :: k in u.order <==> k in Ids(u.order);
    forall a, b | Precedes(u.order, a, b) ensures Precedes(t.order, a, b) {
      PrecedesThrough(t.order, gone, a, b);
    }
  }

  /** storeRecord: a session that is kept by removeOldSessions is stored if and only if it is open, or no
      age is given, or it was used, or else created, within that age. */
  lemma StoredExactlyWhen(t: Table, now: int, maxAge: int, k: KeyId)
    requires RemoveOldSessions(t).Success? && k in RemoveOldSessions(t).value.infos
    ensures StoreRecord(t, now, maxAge).Success?
    ensures var i, u := RemoveOldSessions(t).value.infos[k], StoreRecord(t, now, maxAge).value;
            && (k in u.infos <==> maxAge == 0 || i.closed == -1
                                  || (if i.used != 0 then now - i.used <= maxAge else now - i.created <= maxAge))
            && (k in u.infos ==> u.infos[k] == i)
  {
    hide RemoveOldSessions;
    StaleExactlyWhen(RemoveOldSessions(t).value, now - maxAge, k);
    hide RemoveStaleSessions;
  }

  // Over calls.

  /** A session is in use when it opens a message: unless it is evicted then and there because there are
      more than 40, the record that is stored has it, with the time of the message. */
  lemma OpenedIsStored(t: Table, calls: seq<Call>, k: KeyId, now: nat, maxAge: nat)
    requires Stored(t) && now > 0
    requires ApplyAll(t, calls, maxAge).Success? && k in ApplyAll(t, calls, maxAge).value.infos
    ensures var before, after := ApplyAll(t, calls, maxAge).value,
            ApplyAll(t, calls + [Call(DecryptMessage(k), now)], maxAge);
            && after.Success? && |before.order| <= 40
            && k in after.value.infos && after.value.infos[k] == before.infos[k].(used := now)
  {
    var before := ApplyAll(t, calls, maxAge).value;
    RecordsStayStored(t, calls, maxAge);
    assert (calls + [Call(DecryptMessage(k), now)])[..|calls|] == calls;
    var u := Put(before, k, before.infos[k].(used := now));
    assert RemoveOldSessions(u) == Success(u);
    StoredExactlyWhen(u, now, maxAge, k);
    hide Stored, StoreRecord, RemoveOldSessions;
  }

  // What the calls write down.

  lemma StoringKeepsInfos(t: Table, now: int, maxAge: int)
    requires Proper(t) && OneOpen(t.infos)
    ensures RemoveOldSessions(t).Success? && StoreRecord(t, now, maxAge).Success?
    ensures var u := RemoveOldSessions(t).value; forall j :: j in u.infos ==> j in t.infos && u.infos[j] == t.infos[j]
    ensures var u := StoreRecord(t, now, maxAge).value;
            forall j :: j in u.infos ==> j in t.infos && u.infos[j] == t.infos[j]
  {
    FewOpen(t.infos);
    EvictsTheOldest(t);
    hide RemoveOldSessions, Without, Older;
  }

  /** A new session is open, created and used now, and ours if we made its base key. The one that was open before
      it is closed now; every other one that stays is as it was. */
  lemma HandshakeRecords(t: Table, c: Call, maxAge: int, k: KeyId)
    requires Stored(t) && (c.op == InitOutgoing(k) || (c.op == DecryptPreKeyMessage(k) && k !in t.infos))
    ensures var r := Apply(t, c.op, c.now, maxAge);
            && r.Success? && k in r.value.infos
            && r.value.infos[k] == IndexInfo(-1, c.now, c.now, c.op.InitOutgoing?)
            && forall j :: j in r.value.infos && j != k ==>
                 && j in t.infos
                 && r.value.infos[j] == if t.infos[j].closed == -1 then t.infos[j].(closed := c.now) else t.infos[j]
  {
    HandshakeIsCurrent(t, k, c.now, maxAge);
    StartKeepsOneOpen(t, k, c.now, c.op.InitOutgoing?);
    StoringKeepsInfos(Start(t, k, c.now, c.op.InitOutgoing?), c.now, maxAge);
    StartedInfos(t, k, c.now, c.op.InitOutgoing?);
    var r := Apply(t, c.op, c.now, maxAge);
    if r.Success? {
      FirstOpenIsOpen(r.value.order, r.value.infos);
    }
    hide Start, StoreRecord, RemoveOldSessions, Stored, FirstOpen;
  }

  /** Closing closes the one that is open. */
  lemma ClosedInfos(t: Table, now: int)
    requires Stored(t)
    ensures Close(t, now).infos.Keys == t.infos.Keys
    ensures forall j :: j in t.infos ==>
              Close(t, now).infos[j] == if t.infos[j].closed == -1 then t.infos[j].(closed := now) else t.infos[j]
  {
    FirstOpenIsOpen(t.order, t.infos);
    forall j | j in t.infos
      ensures Close(t, now).infos[j] == if t.infos[j].closed == -1 then t.infos[j].(closed := now) else t.infos[j]
    {
      assert j in Ids(t.order) && (t.infos[j].closed == -1 <==> IsOpen(t.infos, j));
    }
  }

  lemma StartedInfos(t: Table, k: KeyId, now: int, ours: bool)
    requires Stored(t)
    ensures var u := Start(t, k, now, ours);
            && k in u.infos && u.infos[k] == IndexInfo(-1, now, now, ours)
            && forall j :: j in u.infos && j != k ==>
                 && j in t.infos
                 && u.infos[j] == if t.infos[j].closed == -1 then t.infos[j].(closed := now) else t.infos[j]
  {
    ClosedInfos(t, now);
    hide Close, Stored;
  }

  /** Every other call leaves what is written of the sessions alone, but for the time of the message that one of
      them has opened, and of closing. */
  lemma OtherCallsRecord(t: Table, c: Call, maxAge: int, j: KeyId)
    requires Stored(t) && !c.op.InitOutgoing? && (c.op.DecryptPreKeyMessage? ==> c.op.baseKey in t.infos)
    ensures var r := Apply(t, c.op, c.now, maxAge);
            && r.Success?
            && (j in r.value.infos ==>
                  && j in t.infos
                  && r.value.infos[j] == if c.op == DecryptMessage(j) then t.infos[j].(used := c.now)
                    else if c.op.CloseOpenSession? && t.infos[j].closed == -1 then t.infos[j].(closed := c.now)
                    else t.infos[j])
  {
    PreparedIsProper(t, c);
    StoringKeepsInfos(Prepared(t, c), c.now, maxAge);
    PreparedInfos(t, c, j);
    AppliedIsStored(t, c, maxAge);
    hide *;
  }

  lemma PreparedInfos(t: Table, c: Call, j: KeyId)
    requires Stored(t) && !c.op.InitOutgoing? && (c.op.DecryptPreKeyMessage? ==> c.op.baseKey in t.infos)
    ensures j in Prepared(t, c).infos ==>
              && j in t.infos
              && Prepared(t, c).infos[j] == if c.op == DecryptMessage(j) then t.infos[j].(used := c.now)
                else if c.op.CloseOpenSession? && t.infos[j].closed == -1 then t.infos[j].(closed := c.now)
                else t.infos[j]
  {
    ClosedInfos(t, c.now);
    hide Close, Stored;
  }

  lemma AppliedIsStored(t: Table, c: Call, maxAge: int)
    requires Stored(t) && !c.op.InitOutgoing? && (c.op.DecryptPreKeyMessage? ==> c.op.baseKey in t.infos)
    ensures Apply(t, c.op, c.now, maxAge)
            in {Success(Prepared(t, c)), StoreRecord(Prepared(t, c), c.now, maxAge)}
  {
    NothingToClose(t, c.now);
    hide StoreRecord, FirstOpen, Close;
  }

  // In what order closed sessions go.

  /** Not a handshake with this base key. */
  predicate Spares(op: Op, k: KeyId) {
    op != InitOutgoing(k) && op != DecryptPreKeyMessage(k)
  }

  predicate IsHandshake(op: Op, k: KeyId) {
    op == InitOutgoing(k) || op == DecryptPreKeyMessage(k)
  }

  ghost predicate ClosedAt(t: Table, k: KeyId, time: int) {
    k in t.infos ==> t.infos[k].closed == time
  }

  /** `a` was closed at `ta` and `b` at `tb`, and `a` is not kept without `b`. */
  ghost predicate InOrder(t: Table, a: KeyId, ta: int, b: KeyId, tb: int) {
    ClosedAt(t, a, ta) && ClosedAt(t, b, tb) && (a in t.infos ==> b in t.infos)
  }

  /** The record as a call leaves it before the surplus is evicted. */
  ghost function Prepared(t: Table, c: Call): Table {
    match c.op
    case InitOutgoing(k) => Start(t, k, c.now, true)
    case DecryptPreKeyMessage(k) => if k in t.infos then t else Start(t, k, c.now, false)
    case DecryptMessage(k) => if k in t.infos then Put(t, k, t.infos[k].(used := c.now)) else t
    case Encrypt => t
    case CloseOpenSession => Close(t, c.now)
  }

  lemma PreparedIsProper(t: Table, c: Call)
    requires Stored(t)
    ensures Proper(Prepared(t, c)) && OneOpen(Prepared(t, c).infos)
    ensures Apply(t, c.op, c.now, 0) == RemoveOldSessions(Prepared(t, c))
  {
    hide NoRepeats, Ids, Start, Close;
    CloseClosesAll(t, c.now);
    if c.op.InitOutgoing? || c.op.DecryptPreKeyMessage? {
      StartKeepsOneOpen(t, c.op.baseKey, c.now, c.op.InitOutgoing?);
    }
    if c.op.DecryptMessage? && c.op.baseKey in t.infos {
      assert forall k :: IsOpen(Prepared(t, c).infos, k) <==> IsOpen(t.infos, k);
    }
    NothingToClose(t, c.now);
  }

  lemma NothingToClose(t: Table, now: int)
    ensures FirstOpen(t.order, t.infos).None? ==> Close(t, now) == t
  {
  }

  lemma PreparedKeepsTime(t: Table, c: Call, k: KeyId, time: nat)
    requires ClosedAt(t, k, time) && Spares(c.op, k)
    ensures ClosedAt(Prepared(t, c), k, time) && (k in Prepared(t, c).infos <==> k in t.infos)
  {
    FirstOpenIsOpen(t.order, t.infos);
  }

  lemma EvictionKeepsTime(t: Table, k: KeyId, time: int)
    requires Proper(t) && OneOpen(t.infos) && ClosedAt(t, k, time)
    ensures RemoveOldSessions(t).Success? && ClosedAt(RemoveOldSessions(t).value, k, time)
  {
    FewOpen(t.infos);
    EvictsTheOldest(t);
    hide RemoveOldSessions, Without;
  }

  lemma EvictionKeepsOrder(t: Table, a: KeyId, ta: nat, b: KeyId, tb: nat)
    requires Proper(t) && OneOpen(t.infos) && InOrder(t, a, ta, b, tb) && ta < tb
    ensures RemoveOldSessions(t).Success? && InOrder(RemoveOldSessions(t).value, a, ta, b, tb)
  {
    EvictionKeepsTime(t, a, ta);
    EvictionKeepsTime(t, b, tb);
    EvictsTheOldest(t);
    hide RemoveOldSessions, Without, Precedes;
    var u := RemoveOldSessions(t).value;
    assert b in t.infos && b !in u.infos ==> OlderThanClosed(t, b, u.infos.Keys);
    assert a in u.infos ==> a in u.infos.Keys;
  }

  lemma {:induction false} CallsKeepTime(t: Table, calls: seq<Call>, k: KeyId, time: nat)
    requires Stored(t) && ClosedAt(t, k, time)
    requires forall c :: c in calls ==> Spares(c.op, k)
    ensures ApplyAll(t, calls, 0).Success? && ClosedAt(ApplyAll(t, calls, 0).value, k, time)
  {
    if calls != [] {
      var front, c := calls[..|calls| - 1], calls[|calls| - 1];
      CallsKeepTime(t, front, k, time);
      RecordsStayStored(t, front, 0);
      hide Stored, ClosedAt, Apply, Prepared, Spares;
      var before := ApplyAll(t, front, 0).value;
      PreparedIsProper(before, c);
      PreparedKeepsTime(before, c, k, time);
      EvictionKeepsTime(Prepared(before, c), k, time);
    }
  }

  lemma {:induction false} CallsKeepOrder(t: Table, calls: seq<Call>, a: KeyId, ta: nat, b: KeyId, tb: nat)
    requires Stored(t) && InOrder(t, a, ta, b, tb) && ta < tb
    requires forall c :: c in calls ==> Spares(c.op, a) && Spares(c.op, b)
    ensures ApplyAll(t, calls, 0).Success? && InOrder(ApplyAll(t, calls, 0).value, a, ta, b, tb)
  {
    if calls != [] {
      var front, c := calls[..|calls| - 1], calls[|calls| - 1];
      CallsKeepOrder(t, front, a, ta, b, tb);
      RecordsStayStored(t, front, 0);
      hide Stored, ClosedAt, Apply, Prepared, Spares;
      var before := ApplyAll(t, front, 0).value;
      PreparedIsProper(before, c);
      PreparedKeepsTime(before, c, a, ta);
      PreparedKeepsTime(before, c, b, tb);
      EvictionKeepsOrder(Prepared(before, c), a, ta, b, tb);
    }
  }

  lemma {:induction false} ApplyAllComposes(t: Table, x: seq<Call>, y: seq<Call>, maxAge: int)
    requires ApplyAll(t, x, maxAge).Success?
    ensures ApplyAll(t, x + y, maxAge) == ApplyAll(ApplyAll(t, x, maxAge).value, y, maxAge)
  {
    if y == [] {
      assert x + y == x;
    } else {
      assert (x + y)[..|x + y| - 1] == x + y[..|y| - 1];
      ApplyAllComposes(t, x, y[..|y| - 1], maxAge);
    }
  }

  /** A handshake with a new base key closes the open session, with the time of the handshake. */
  lemma HandshakeCloses(t: Table, c: Call, k: KeyId, a: KeyId)
    requires Stored(t) && IsHandshake(c.op, k) && k !in t.infos && a in t.infos && t.infos[a].closed == -1
    ensures var r := Apply(t, c.op, c.now, 0);
            && r.Success? && Stored(r.value)
            && (a in r.value.infos ==> r.value.infos[a].closed == c.now)
            && (forall b :: b in r.value.infos ==> b == k || b in t.infos)
  {
    FirstOpenIsOpen(t.order, t.infos);
    ApplyKeeps(t, c.op, c.now, 0);
    PreparedIsProper(t, c);
    assert a in Ids(t.order) && IsOpen(t.infos, a);
    assert ClosedAt(Prepared(t, c), a, c.now);
    EvictionKeepsTime(Prepared(t, c), a, c.now);
    EvictsTheOldest(Prepared(t, c));
    hide RemoveOldSessions;
  }

  /** Of two sessions that later handshakes closed, and that no handshake started again, the one that
      was closed first goes first. */
  lemma ClosedFirstGoesFirst(t: Table, first: Call, j: KeyId, between: seq<Call>, second: Call, k: KeyId,
                             rest: seq<Call>,
                             a: KeyId, b: KeyId)
    requires Stored(t) && a in t.infos && t.infos[a].closed == -1
    requires IsHandshake(first.op, j) && j !in t.infos
    requires var u := ApplyAll(t, [first] + between, 0);
             u.Success? && b in u.value.infos && u.value.infos[b].closed == -1 && k !in u.value.infos
    requires IsHandshake(second.op, k) && first.now < second.now
    requires forall c :: c in between + [second] + rest ==> Spares(c.op, a)
    requires forall c :: c in rest ==> Spares(c.op, b)
    ensures ApplyAll(t, [first] + between + [second] + rest, 0).Success?
    ensures var u := ApplyAll(t, [first] + between + [second] + rest, 0).value;
            && (a in u.infos ==> b in u.infos && u.infos[a].closed == first.now)
            && (b in u.infos ==> u.infos[b].closed == second.now)
  {
    hide Stored, Apply, Spares;
    HandshakeCloses(t, first, j, a);
    ApplyOne(t, first);
    ApplyAllComposes(t, [first], between, 0);
    var t1 := Apply(t, first.op, first.now, 0).value;
    CallsKeepTime(t1, between, a, first.now);
    RecordsStayStored(t1, between, 0);
    var t2 := ApplyAll(t1, between, 0).value;
    HandshakeCloses(t2, second, k, b);
    var t3 := Apply(t2, second.op, second.now, 0).value;
    ApplyOne(t2, second);
    SecondHandshake(t2, second, a, first.now, b, k);
    ApplyAllComposes(t, [first] + between, [second], 0);
    ApplyAllComposes(t, [first] + between + [second], rest, 0);
    CallsKeepOrder(t3, rest, a, first.now, b, second.now);
  }

  lemma ApplyOne(t: Table, c: Call)
    ensures ApplyAll(t, [c], 0) == Apply(t, c.op, c.now, 0)
  {
    assert [c][..0] == [];
    hide Apply;
  }

  lemma SecondHandshake(t: Table, c: Call, a: KeyId, ta: nat, b: KeyId, k: KeyId)
    requires Stored(t) && IsHandshake(c.op, k) && k !in t.infos && b in t.infos && t.infos[b].closed == -1
    requires ClosedAt(t, a, ta) && ta < c.now && Spares(c.op, a)
    ensures var r := Apply(t, c.op, c.now, 0); r.Success? && InOrder(r.value, a, ta, b, c.now)
  {
    FirstOpenIsOpen(t.order, t.infos);
    PreparedIsProper(t, c);
    PreparedKeepsTime(t, c, a, ta);
    assert b in Ids(t.order) && IsOpen(t.infos, b);
    assert ClosedAt(Prepared(t, c), b, c.now) && b in Prepared(t, c).infos;
    EvictionKeepsOrder(Prepared(t, c), a, ta, b, c.now);
    hide RemoveOldSessions;
  }
}
