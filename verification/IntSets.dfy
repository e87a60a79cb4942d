/** Finite sets of counters, listed in the order in which JavaScript lists integer keys. */
module IntSets {
  /** The members of `s` above `k`. */
  function Above(s: set<int>, k: int): (r: set<int>) {
    set j | j in s && j > k
  }

  /** The counters from `lo + 1` to `hi`. */
  function Interval(lo: int, hi: int): (r: set<int>)
    ensures forall j :: j in r <==> lo < j <= hi
    ensures |r| == if lo <= hi then hi - lo else 0
    decreases hi - lo
  {
    if hi <= lo then {} else Interval(lo, hi - 1) + {hi}
  }

  lemma SubsetSize(a: set<int>, b: set<int>)
    requires a <= b
    ensures |a| <= |b|
    ensures |a| == |b| ==> a == b
  {
    assert b == a + (b - a);
  }

  /** Members above `k` that reach no further than `hi` leave room for themselves. */
  lemma AboveFits(s: set<int>, k: int, hi: int)
    requires k <= hi && forall j :: j in s ==> j <= hi
    ensures |Above(s, k)| <= hi - k
  {
    SubsetSize(Above(s, k), Interval(k, hi));
  }

  lemma Pick<T>(s: set<T>) returns (x: T)
    requires s != {}
    ensures x in s
  {
    x :| x in s;
  }

  lemma {:induction false} HasLeast(s: set<int>) returns (lo: int)
    requires s != {}
    ensures lo in s && forall j :: j in s ==> lo <= j
  {
    var x := Pick(s);
    if s == {x} {
      lo := x;
    } else {
      var y := HasLeast(s - {x});
      lo := if x < y then x else y;
      forall j | j in s ensures lo <= j {
        assert j == x || j in s - {x};
      }
    }
  }

  function Members(r: seq<int>): set<int> {
    set k | k in r
  }

  predicate Ascending(r: seq<int>) {
    forall i, j :: 0 <= i < j < |r| ==> r[i] < r[j]
  }

  lemma LeastExists(s: set<int>)
    requires s != {}
    ensures exists lo :: lo in s && forall j :: j in s ==> lo <= j
  {
    var lo := HasLeast(s);
  }

  function Least(s: set<int>): (lo: int)
    requires s != {}
    ensures lo in s && forall j :: j in s ==> lo <= j
  {
    LeastExists(s);
    var lo :| lo in s && forall j :: j in s ==> lo <= j;
    lo
  }

  /** `Object.keys` of an object whose keys are non-negative integers. */
  function SortedKeys(s: set<int>): (r: seq<int>)
    ensures |r| == |s|
  {
    if s == {} then [] else [Least(s)] + SortedKeys(s - {Least(s)})
  }

  lemma ConsMembers(lo: int, r: seq<int>)
    ensures Members([lo] + r) == Members(r) + {lo}
  {
  }

  lemma ConsAscending(lo: int, r: seq<int>)
    requires Ascending(r) && forall k :: k in Members(r) ==> lo < k
    ensures Ascending([lo] + r)
  {
    assert forall i :: 0 <= i < |r| ==> r[i] in Members(r);
  }

  lemma SortedStep(s: set<int>, lo: int, r: seq<int>)
    requires lo in s && (forall j :: j in s ==> lo <= j)
    requires Ascending(r) && Members(r) == s - {lo}
    ensures Ascending([lo] + r) && Members([lo] + r) == s
  {
    ConsMembers(lo, r);
    ConsAscending(lo, r);
    hide Members, Ascending;
  }

  lemma {:induction false} SortedMembers(s: set<int>)
    ensures Ascending(SortedKeys(s))
    ensures Members(SortedKeys(s)) == s
  {
    if s != {} {
      SortedMembers(s - {Least(s)});
      hide Members, Ascending;
      SortedStep(s, Least(s), SortedKeys(s - {Least(s)}));
    }
  }

  lemma AboveLast(s: set<int>, r: seq<int>)
    requires Ascending(r) && r != []
    requires Members(r) == s
    ensures Above(s, r[|r| - 1]) == {}
  {
    assert forall j :: j in s ==> j in r;
  }

  lemma AboveNext(s: set<int>, r: seq<int>, i: nat)
    requires Ascending(r) && i + 1 < |r|
    requires Members(r) == s
    ensures |Above(s, r[i])| == |Above(s, r[i + 1])| + 1
  {
    forall j | j in Above(s, r[i])
      ensures j in Above(s, r[i + 1]) + {r[i + 1]}
    {
      assert j in Members(r);
      var p :| 0 <= p < |r| && r[p] == j;
      assert p > i;
    }
    assert r[i + 1] in Members(r);
    assert Above(s, r[i]) == Above(s, r[i + 1]) + {r[i + 1]};
  }

  /** In the sorted list, position and number of greater members determine each other. */
  lemma {:induction false} SortedPosition(s: set<int>, i: nat)
    requires i < |SortedKeys(s)|
    ensures |Above(s, SortedKeys(s)[i])| == |s| - 1 - i
    decreases |SortedKeys(s)| - i
  {
    SortedMembers(s);
    hide SortedKeys, Above, Ascending, Members;
    if i == |SortedKeys(s)| - 1 {
      AboveLast(s, SortedKeys(s));
    } else {
      SortedPosition(s, i + 1);
      AboveNext(s, SortedKeys(s), i);
    }
  }

  /** The members with fewer than `max` greater ones. */
  function Greatest(s: set<int>, max: nat): (r: set<int>) {
    set k | k in s && |Above(s, k)| < max
  }

  lemma {:induction false} AscendingSize(r: seq<int>)
    requires Ascending(r)
    ensures |Members(r)| == |r|
  {
    if r != [] {
      AscendingSize(r[1..]);
      assert Members(r) == Members(r[1..]) + {r[0]};
    }
  }

  lemma GreatestAt(s: set<int>, max: nat, p: nat)
    requires max <= |s| && p < |s|
    ensures SortedKeys(s)[p] in Greatest(s, max) <==> |s| - max <= p
  {
    SortedPosition(s, p);
    SortedMembers(s);
    assert SortedKeys(s)[p] in Members(SortedKeys(s));
  }

  /** The elements of `r` in `g` are those from position `d` on. */
  ghost predicate AtTop(g: set<int>, r: seq<int>, d: nat) {
    forall p: nat {:trigger r[p]} :: p < |r| ==> (r[p] in g <==> d <= p)
  }

  lemma TopMembers(g: set<int>, r: seq<int>, d: nat)
    requires d <= |r| && g <= Members(r) && AtTop(g, r, d)
    ensures g == Members(r[d..])
  {
    forall k ensures k in g <==> k in r[d..] {
      if k in g {
        assert k in Members(r);
        var p :| 0 <= p < |r| && r[p] == k;
        assert r[d..][p - d] == k;
      }
      if k in r[d..] {
        var p :| 0 <= p < |r| - d && r[d..][p] == k;
        assert r[p + d] == k;
      }
    }
  }

  lemma GreatestAtTop(s: set<int>, max: nat)
    requires max <= |s|
    ensures AtTop(Greatest(s, max), SortedKeys(s), |s| - max)
  {
    hide Greatest, SortedKeys;
    forall p: nat | p < |SortedKeys(s)| ensures SortedKeys(s)[p] in Greatest(s, max) <==> |s| - max <= p {
      GreatestAt(s, max, p);
    }
  }

  lemma GreatestMembers(s: set<int>, max: nat)
    requires max <= |s|
    ensures Greatest(s, max) == Members(SortedKeys(s)[|s| - max..])
  {
    GreatestAtTop(s, max);
    SortedMembers(s);
    assert Greatest(s, max) <= s;
    hide SortedKeys, Ascending, Greatest, Members, AtTop;
    TopMembers(Greatest(s, max), SortedKeys(s), |s| - max);
  }

  lemma GreatestSize(s: set<int>, max: nat)
    requires max <= |s|
    ensures |Greatest(s, max)| == max
  {
    GreatestMembers(s, max);
    SortedMembers(s);
    AscendingSize(SortedKeys(s)[|s| - max..]);
  }

  lemma SplitMembers(r: seq<int>, d: nat)
    requires Ascending(r) && d <= |r|
    ensures Members(r) - Members(r[..d]) == Members(r[d..])
  {
    forall k ensures k in Members(r) - Members(r[..d]) <==> k in Members(r[d..]) {
      assert r == r[..d] + r[d..];
      if k in r[d..] {
        var p :| 0 <= p < |r| - d && r[d..][p] == k;
        assert r[d + p] == k;
      }
    }
  }

  /** Dropping the lowest members leaves the greatest. */
  lemma DropLowest(s: set<int>, max: nat)
    requires max <= |s|
    ensures s - Members(SortedKeys(s)[..|s| - max]) == Greatest(s, max)
  {
    GreatestMembers(s, max);
    SortedMembers(s);
    hide SortedKeys, Members, Greatest;
    SplitMembers(SortedKeys(s), |s| - max);
  }

  lemma NextMember(r: seq<int>, i: nat)
    requires Ascending(r) && i < |r|
    ensures r[i] in r && r[i] !in Members(r[..i]) && Members(r[..i + 1]) == Members(r[..i]) + {r[i]}
  {
    assert r[..i + 1] == r[..i] + [r[i]];
  }
}
