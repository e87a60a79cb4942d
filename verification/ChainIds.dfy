/** Lists of chain ids, as the insertion order of the chain dictionary. */
module ChainIds {
  import opened Keys
  import opened Ratchet

  lemma {:induction false} WithoutAppend(a: seq<KeyId>, b: seq<KeyId>, gone: set<KeyId>)
    ensures Without(a + b, gone) == Without(a, gone) + Without(b, gone)
  {
    if a == [] {
      assert a + b == b;
    } else {
      assert (a + b)[1..] == a[1..] + b;
      WithoutAppend(a[1..], b, gone);
    }
  }

  lemma {:induction false} WithoutNone(a: seq<KeyId>, gone: set<KeyId>)
    requires forall k :: k in a ==> k !in gone
    ensures Without(a, gone) == a
  {
    if a != [] {
      WithoutNone(a[1..], gone);
    }
  }

  lemma {:induction false} WithoutAll(a: seq<KeyId>, gone: set<KeyId>)
    requires forall k :: k in a ==> k in gone
    ensures Without(a, gone) == []
  {
    if a != [] {
      WithoutAll(a[1..], gone);
    }
  }

  lemma {:induction false} ReceivingAll(a: seq<KeyId>, last: KeyId, chains: map<KeyId, Chain>)
    requires forall k :: k in a ==> k in chains && chains[k].kind.Receiving?
    requires last in chains && chains[last].kind.Sending?
    ensures ReceivingIds(a + [last], chains) == a
  {
    if a != [] {
      assert (a + [last])[1..] == a[1..] + [last];
      ReceivingAll(a[1..], last, chains);
    }
  }

  lemma WithoutFront(a: seq<KeyId>, b: seq<KeyId>, gone: set<KeyId>)
    requires (forall k :: k in a ==> k in gone) && (forall k :: k in b ==> k !in gone)
    ensures Without(a + b, gone) == b
  {
    WithoutAppend(a, b, gone);
    WithoutAll(a, gone);
    WithoutNone(b, gone);
  }

  ghost predicate NoRepeats(w: seq<KeyId>) {
    forall i, j :: 0 <= i < j < |w| ==> w[i] != w[j]
  }

  lemma HalvesDisjoint(w: seq<KeyId>, d: nat, k: KeyId)
    requires NoRepeats(w) && d <= |w| && k in w[d..]
    ensures k !in w[..d]
  {
    var p :| 0 <= p < |w| - d && w[d..][p] == k;
    assert w[d + p] == k;
  }

  /** Of the receiving ids `w` followed by the sending id `last` the surplus at the front goes. */
  lemma TrimFront(w: seq<KeyId>, last: KeyId, s: Session, max: nat, d: nat)
    requires NoRepeats(w) && last !in w && s.order == w + [last]
    requires d == if |w| <= max then 0 else |w| - max
    requires forall k :: k in w ==> k in s.chains && s.chains[k].kind.Receiving?
    requires last in s.chains && s.chains[last].kind.Sending?
    ensures RemoveOldReceiverChains(s, max) == DeleteChains(s, Ids(w[..d]))
    ensures Without(s.order, Ids(w[..d])) == w[d..] + [last]
  {
    ReceivingAll(w, last, s.chains);
    var gone := Ids(w[..d]);
    assert Surplus(w, max) == gone;
    forall k | k in w[d..] + [last] ensures k !in gone {
      if k in w[d..] {
        HalvesDisjoint(w, d, k);
      }
    }
    assert w + [last] == w[..d] + (w[d..] + [last]);
    WithoutFront(w[..d], w[d..] + [last], gone);
  }

  // Deleting one chain after the other.

  lemma {:induction false} WithoutMembers(order: seq<KeyId>, gone: set<KeyId>)
    ensures forall k :: k in Without(order, gone) <==> k in order && k !in gone
  {
    if order != [] {
      WithoutMembers(order[1..], gone);
    }
  }

  lemma {:induction false} ReceivingMembers(order: seq<KeyId>, chains: map<KeyId, Chain>)
    ensures forall k :: k in ReceivingIds(order, chains) ==> k in order && k in chains && chains[k].kind.Receiving?
  {
    if order != [] {
      ReceivingMembers(order[1..], chains);
    }
  }

  lemma {:induction false} WithoutKeepsDistinct(order: seq<KeyId>, gone: set<KeyId>)
    requires NoRepeats(order)
    ensures NoRepeats(Without(order, gone))
  {
    if order != [] {
      WithoutKeepsDistinct(order[1..], gone);
      WithoutMembers(order[1..], gone);
    }
  }

  lemma {:induction false} WithoutTwice(order: seq<KeyId>, a: set<KeyId>, b: set<KeyId>)
    ensures Without(Without(order, a), b) == Without(order, a + b)
  {
    if order != [] {
      WithoutTwice(order[1..], a, b);
    }
  }

  lemma NothingDeleted(s: Session, id: KeyId)
    requires id !in s.chains && id !in s.order
    ensures DeleteChains(s, {id}) == s && s.chains - {id} == s.chains
  {
    WithoutNone(s.order, {id});
  }

  lemma DeletedNone(s: Session, ids: seq<KeyId>)
    ensures DeleteChains(s, Ids(ids[..0])) == s
  {
    WithoutNone(s.order, Ids(ids[..0]));
    assert s.chains - {} == s.chains;
  }

  lemma DeletedNext(s: Session, ids: seq<KeyId>, i: nat)
    requires i < |ids|
    ensures DeleteChains(DeleteChains(s, Ids(ids[..i])), {ids[i]}) == DeleteChains(s, Ids(ids[..i + 1]))
  {
    assert ids[..i + 1] == ids[..i] + [ids[i]];
    assert Ids(ids[..i + 1]) == Ids(ids[..i]) + {ids[i]};
    WithoutTwice(s.order, Ids(ids[..i]), {ids[i]});
    hide Without, Ids;
    assert s.chains - Ids(ids[..i]) - {ids[i]} == s.chains - (Ids(ids[..i]) + {ids[i]});
  }

  lemma IdAdded(order: seq<KeyId>, keys: set<KeyId>, id: KeyId)
    requires keys == Ids(order) && NoRepeats(order) && id !in keys
    ensures keys + {id} == Ids(order + [id]) && NoRepeats(order + [id])
  {
  }

  lemma IdDeleted(order: seq<KeyId>, keys: set<KeyId>, id: KeyId)
    requires keys == Ids(order) && NoRepeats(order)
    ensures keys - {id} == Ids(Without(order, {id})) && NoRepeats(Without(order, {id}))
  {
    WithoutKeepsDistinct(order, {id});
    WithoutMembers(order, {id});
  }
}
