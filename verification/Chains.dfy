/** The chains of a session as the objects they are: getChain hands out a reference, and
    filling, pruning and wiping change the chain behind it. */
module Chains {
  import opened Wrappers
  import opened Keys
  import opened IntSets
  import opened Ratchet

  class ChainState {
    const kind: ChainType
    var counter: int
    var key: Option<Key>
    var messageKeys: map<int, Key>

    ghost predicate Valid()
      reads this
    {
      forall i :: i in messageKeys ==> i <= counter
    }

    function View(): Chain
      reads this
    {
      Chain(kind, counter, key, messageKeys)
    }

    constructor (c: Chain)
      ensures View() == c
    {
      kind, counter, key, messageKeys := c.kind, c.counter, c.key, c.messageKeys;
    }

    /** Zeroes every key and leaves the chain in place. */
    method Wipe()
      modifies this
      ensures counter == old(counter) && messageKeys.Keys == old(messageKeys.Keys)
      ensures key in {None, Some(Zeros)} && forall i :: i in messageKeys ==> messageKeys[i] == Zeros
    {
      if key.Some? {
        key := Some(Zeros);
      }
      messageKeys := map i | i in messageKeys :: Zeros;
    }

    /** The chain key is wiped and deleted: no further keys can be derived. */
    method Close()
      requires Valid()
      modifies this`key
      ensures Valid() && View() == old(View()).(key := None)
    {
      key := None;
    }

    /** Takes a cached message key out of the chain. */
    method Take(index: int) returns (messageKey: Key)
      requires Valid() && index in messageKeys
      modifies this`messageKeys
      ensures Valid() && messageKey == old(messageKeys)[index]
      ensures View() == old(View()).(messageKeys := old(messageKeys) - {index})
    {
      messageKey := messageKeys[index];
      messageKeys := messageKeys - {index};
    }

    method PruneNext(ghost before: map<int, Key>, indexes: seq<int>, i: nat)
      requires Pruning(before, messageKeys, indexes, i) && i < |indexes|
      modifies this`messageKeys
      ensures Pruning(before, messageKeys, indexes, i + 1)
    {
      NextIndex(before, messageKeys, indexes, i);
      hide Pruning, SortedKeys;
      messageKeys := messageKeys - {indexes[i]};
    }

    /** pruneMessageKeys: the lowest counters go first. */
    method Prune()
      modifies this`messageKeys
      ensures View() == old(View()).(messageKeys := Newest(old(messageKeys)))
    {
      ghost var before := messageKeys;
      var indexes := SortedKeys(messageKeys.Keys);
      var excess := |indexes| - MAX_MESSAGE_KEYS;
      var i := 0;
      PruningStarts(messageKeys, indexes);
      hide *;
      while i < excess
        invariant 0 <= i && (i <= excess || i == 0)
        invariant Pruning(before, messageKeys, indexes, i)
      {
        PruneNext(before, indexes, i);
        i := i + 1;
      }
      PruningEnds(before, messageKeys, indexes, i);
    }

    /** One turn of the loop of fillMessageKeys. */
    method Advance()
      requires Valid() && key.Some?
      modifies this
      ensures Valid() && counter == old(counter) + 1 && View() == Advanced(old(View()))
    {
      var current := key.value;
      messageKeys := messageKeys[counter + 1 := Hmac(current, 1)];
      key := Some(Hmac(current, 2));
      counter := counter + 1;
    }

    /** fillMessageKeys: all or nothing. */
    method FillMessageKeys(target: int) returns (r: Result<(), Error>)
      requires Valid()
      modifies this
      ensures Valid()
      ensures match Fill(old(View()), target)
              case Failure(e) => r == Failure(e) && View() == old(View())
              case Success(c) => r.Success? && View() == c
    {
      ghost var before := View();
      var startCounter := counter;
      FillingErrors(before, target);
      assert Filling(before, View());
      hide Filling, Fill;
      while counter < target
        invariant Valid()
        invariant startCounter <= counter && (counter <= target || counter == startCounter)
        invariant counter == startCounter ==> View() == before
        invariant startCounter < counter ==> target - startCounter <= MAX_FILL && before.key.Some? && key.Some?
        invariant Filling(before, View())
      {
        if target - counter > 2000 {
          return Failure(TooFarAhead);
        }
        if key.None? {
          return Failure(ChainClosed);
        }
        FillingNext(before, View());
        Advance();
      }
      if counter != startCounter {
        FillingEnds(before, View(), target);
        Prune();
        NewestIsPart(before, target);
      }
      r := Success(());
    }
  }

  // Pruning.

  /** What is left after the first `i` of the sorted indexes are gone. */
  ghost predicate Pruning(before: map<int, Key>, now: map<int, Key>, indexes: seq<int>, i: nat) {
    && indexes == SortedKeys(before.Keys) && i <= |indexes|
    && now == before - Members(indexes[..i])
  }

  lemma PruningStarts(before: map<int, Key>, indexes: seq<int>)
    requires indexes == SortedKeys(before.Keys)
    ensures Pruning(before, before, indexes, 0)
  {
    hide SortedKeys;
    MinusIs(before, Members(indexes[..0]), before);
  }

  lemma NextIndex(before: map<int, Key>, now: map<int, Key>, indexes: seq<int>, i: nat)
    requires Pruning(before, now, indexes, i) && i < |indexes|
    ensures indexes[i] in now && Pruning(before, now - {indexes[i]}, indexes, i + 1)
  {
    SortedMembers(before.Keys);
    NextMember(indexes, i);
    assert indexes[i] in Members(indexes);
    hide SortedKeys, Members, Ascending;
    MinusOne(before, Members(indexes[..i]), indexes[i]);
  }

  lemma MinusOne(m: map<int, Key>, gone: set<int>, i: int)
    requires i in m && i !in gone
    ensures i in m - gone && m - gone - {i} == m - (gone + {i})
  {
    MinusIs(m, gone + {i}, m - gone - {i});
  }

  lemma PruningEnds(before: map<int, Key>, now: map<int, Key>, indexes: seq<int>, i: nat)
    requires Pruning(before, now, indexes, i)
    requires i == if |indexes| <= MAX_MESSAGE_KEYS then 0 else |indexes| - MAX_MESSAGE_KEYS
    ensures now == Newest(before)
  {
    assert |before.Keys| == |before|;
    hide SortedKeys, Members, Newest;
    PrunedKeys(before, i);
    NewestEntries(before);
    MinusIs(before, Members(indexes[..i]), Newest(before));
  }

  lemma MinusIs(m: map<int, Key>, gone: set<int>, rest: map<int, Key>)
    requires rest.Keys == m.Keys - gone && forall i :: i in rest ==> rest[i] == m[i]
    ensures rest == m - gone
  {
    var d := m - gone;
    assert d.Keys == rest.Keys;
    assert forall i :: i in d <==> i in d.Keys;
    assert forall i :: i in rest <==> i in rest.Keys;
    assert forall i :: i in d ==> d[i] == rest[i];
  }

  lemma NewestEntries(m: map<int, Key>)
    ensures Newest(m).Keys == Greatest(m.Keys, MAX_MESSAGE_KEYS)
    ensures forall i :: i in Newest(m) ==> i in m && Newest(m)[i] == m[i]
  {
  }

  lemma PrunedKeys(m: map<int, Key>, d: nat)
    requires d == if |m| <= MAX_MESSAGE_KEYS then 0 else |m| - MAX_MESSAGE_KEYS
    ensures d <= |SortedKeys(m.Keys)| && Newest(m).Keys == m.Keys - Members(SortedKeys(m.Keys)[..d])
  {
    assert |m.Keys| == |m|;
    if d == 0 {
      NewestOfSmall(m);
      hide Newest, SortedKeys;
    } else {
      NewestEntries(m);
      hide Newest, SortedKeys, Members, Greatest;
      DropLowest(m.Keys, MAX_MESSAGE_KEYS);
    }
  }

  // Filling.

  ghost function Advanced(c: Chain): Chain {
    if c.key.None? then c
    else Chain(c.kind, c.counter + 1, Some(Hmac(c.key.value, 2)), c.messageKeys[c.counter + 1 := Hmac(c.key.value, 1)])
  }

  /** The chain part of the way through a fill: the iterated KDF, nothing pruned yet. */
  ghost predicate Filling(before: Chain, now: Chain) {
    && (forall i :: i in before.messageKeys ==> i <= before.counter)
    && before.counter <= now.counter
    && if before.counter == now.counter then now == before
       else before.key.Some?
            && now == Chain(before.kind, now.counter, Some(ChainKeyAt(before.key.value, now.counter - before.counter)),
                            before.messageKeys + Derived(before.key.value, before.counter, now.counter))
  }

  lemma FillingNext(before: Chain, now: Chain)
    requires Filling(before, now) && now.key.Some?
    ensures Filling(before, Advanced(now))
  {
    MergedStep(before, now.counter + 1);
    if now == before {
      assert Derived(before.key.value, before.counter, before.counter) == map[];
      assert before.messageKeys + map[] == before.messageKeys;
    }
    hide Derived;
  }

  lemma FillingEnds(before: Chain, now: Chain, target: int)
    requires Filling(before, now) && now.counter == target && before.counter < target <= before.counter + MAX_FILL
    ensures Fill(before, target) == Success(now.(messageKeys := Newest(now.messageKeys)))
  {
    hide Newest, Derived;
  }

  /** Which error a fill raises can be read off the chain before it starts. */
  lemma FillingErrors(before: Chain, target: int)
    ensures target <= before.counter ==> Fill(before, target) == Success(before)
    ensures before.counter < target && target - before.counter > MAX_FILL ==>
              Fill(before, target) == Failure(TooFarAhead)
    ensures before.counter < target && target - before.counter <= MAX_FILL && before.key.None? ==>
              Fill(before, target) == Failure(ChainClosed)
  {
  }

  lemma NewestIsPart(before: Chain, target: int)
    requires Fill(before, target).Success? && before.counter < target
    requires forall i :: i in before.messageKeys ==> i <= before.counter
    ensures forall i :: i in Fill(before, target).value.messageKeys ==> i <= target
  {
    FillIsFilled(before, target);
    hide Fill;
  }

  lemma DerivedStep(key: Key, counter: int, next: int)
    requires counter < next
    ensures Derived(key, counter, next)
            == Derived(key, counter, next - 1)[next := MessageKeyAt(key, next - counter - 1)]
  {
    hide MessageKeyAt;
  }

  lemma PutBeside(m: map<int, Key>, n: map<int, Key>, i: int, k: Key)
    ensures m + n[i := k] == (m + n)[i := k]
  {
  }

  lemma MergedStep(c: Chain, next: int)
    requires c.counter < next && c.key.Some?
    ensures var m := c.messageKeys + Derived(c.key.value, c.counter, next - 1);
            c.messageKeys + Derived(c.key.value, c.counter, next)
            == m[next := MessageKeyAt(c.key.value, next - c.counter - 1)]
  {
    DerivedStep(c.key.value, c.counter, next);
    hide Derived, MessageKeyAt;
    PutBeside(c.messageKeys, Derived(c.key.value, c.counter, next - 1), next,
              MessageKeyAt(c.key.value, next - c.counter - 1));
  }
}
