/** Objects with string-keyed properties, as JSON has them, and maps with integer keys in that form. */
module Objects {
  import opened IntSets
  import opened Texts

  /** Own properties in their order. */
  type Object<V> = seq<(string, V)>

  ghost predicate DistinctNames<V>(o: Object<V>) {
    forall i, j :: 0 <= i < j < |o| ==> o[i].0 != o[j].0
  }

  function IndexOf<V>(o: Object<V>, name: string): (r: nat)
    ensures r <= |o| && (r < |o| ==> o[r].0 == name)
    ensures forall i :: 0 <= i < r ==> o[i].0 != name
  {
    if o == [] || o[0].0 == name then 0 else 1 + IndexOf(o[1..], name)
  }

  /** o[name] = value */
  function Assign<V>(o: Object<V>, name: string, value: V): Object<V> {
    var i := IndexOf(o, name);
    if i < |o| then o[i := (name, value)] else o + [(name, value)]
  }

  lemma AssignNew<V>(o: Object<V>, name: string, value: V)
    requires forall i :: 0 <= i < |o| ==> o[i].0 != name
    ensures Assign(o, name, value) == o + [(name, value)]
  {
  }

  // Integer keys.

  /** Object.fromEntries of a Map with integer keys, in ascending order. */
  function ToObject<V>(m: map<int, V>): (r: Object<V>)
  {
    Named(SortedIds(m), m)
  }

  function SortedIds<V>(m: map<int, V>): (r: seq<int>)
    ensures forall i :: 0 <= i < |r| ==> r[i] in m
    ensures Members(r) == m.Keys && Ascending(r)
  {
    SortedMembers(m.Keys);
    var r := SortedKeys(m.Keys);
    assert forall i :: 0 <= i < |r| ==> r[i] in Members(r);
    r
  }

  function Named<V>(ids: seq<int>, m: map<int, V>): (r: Object<V>)
    requires forall i :: 0 <= i < |ids| ==> ids[i] in m
    ensures |r| == |ids|
  {
    seq(|ids|, i requires 0 <= i < |ids| => (Decimal(ids[i]), m[ids[i]]))
  }

  /** map.set(Number(name), value) for one property after the other. */
  function FromObject<V>(o: Object<V>): map<int, V> {
    if o == [] then map[]
    else
      var front, last := FromObject(o[..|o| - 1]), o[|o| - 1];
      var id := ParseDecimal(last.0);
      if id.Some? then front[id.value := last.1] else front
  }

  lemma NamedLast<V>(ids: seq<int>, m: map<int, V>)
    requires ids != [] && forall i :: 0 <= i < |ids| ==> ids[i] in m
    ensures FromObject(Named(ids, m)) == FromObject(Named(ids[..|ids| - 1], m))[ids[|ids| - 1] := m[ids[|ids| - 1]]]
  {
    DecimalParses(ids[|ids| - 1]);
    hide Decimal, ParseDecimal;
    assert Named(ids, m)[..|ids| - 1] == Named(ids[..|ids| - 1], m);
  }

  ghost predicate PartOf<V>(n: map<int, V>, keys: set<int>, m: map<int, V>) {
    n.Keys == keys && forall k :: k in n ==> k in m && n[k] == m[k]
  }

  lemma PartGrows<V>(n: map<int, V>, ids: seq<int>, m: map<int, V>)
    requires ids != [] && PartOf(n, Members(ids[..|ids| - 1]), m) && ids[|ids| - 1] in m
    ensures PartOf(n[ids[|ids| - 1] := m[ids[|ids| - 1]]], Members(ids), m)
  {
    assert ids == ids[..|ids| - 1] + [ids[|ids| - 1]];
    assert Members(ids) == Members(ids[..|ids| - 1]) + {ids[|ids| - 1]};
  }

  lemma {:induction false} NamedReads<V>(ids: seq<int>, m: map<int, V>)
    requires forall i :: 0 <= i < |ids| ==> ids[i] in m
    ensures PartOf(FromObject(Named(ids, m)), Members(ids), m)
  {
    if ids != [] {
      hide FromObject, Named, Members, PartOf;
      NamedReads(ids[..|ids| - 1], m);
      NamedLast(ids, m);
      PartGrows(FromObject(Named(ids[..|ids| - 1], m)), ids, m);
    }
  }

  /** A map with integer keys comes back from its object. */
  lemma FromObjectInverts<V>(m: map<int, V>)
    ensures FromObject(ToObject(m)) == m
  {
    NamedReads(SortedIds(m), m);
  }

  method BuildMap<V>(o: Object<V>) returns (m: map<int, V>)
    ensures m == FromObject(o)
  {
    m := map[];
    for i := 0 to |o|
      invariant m == FromObject(o[..i])
    {
      assert o[..i + 1][..i] == o[..i] && o[..i + 1][i] == o[i];
      var id := ParseDecimal(o[i].0);
      if id.Some? {
        m := m[id.value := o[i].1];
      }
    }
    assert o[..|o|] == o;
  }
}
