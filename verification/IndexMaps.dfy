/** Insertion-ordered sets and maps: a key keeps the place of its first insertion,
    and removal shifts the later keys down without reordering them. */
module IndexMaps {
  import opened Wrappers

  /** An insertion-ordered set is a sequence without repetitions. */
  type IndexSet = seq<string>

  ghost predicate NoDup<T>(s: seq<T>) {
    forall i, j :: 0 <= i < j < |s| ==> s[i] != s[j]
  }

  function SetInsert<T(==)>(s: seq<T>, x: T): seq<T> {
    if x in s then s else s + [x]
  }

  function ShiftRemove<T(==)>(s: seq<T>, x: T): seq<T> {
    if s == [] then []
    else if s[0] == x then s[1..]
    else [s[0]] + ShiftRemove(s[1..], x)
  }

  /** The elements of s that satisfy p, in order. */
  function Filter<T>(s: seq<T>, p: T -> bool): seq<T> {
    if s == [] then []
    else (if p(s[0]) then [s[0]] else []) + Filter(s[1..], p)
  }

  /** The values that m holds for ids, in the order of ids; ids without a value are skipped. */
  function Lookup<V>(ids: seq<string>, m: map<string, V>): seq<V> {
    if ids == [] then []
    else (if ids[0] in m then [m[ids[0]]] else []) + Lookup(ids[1..], m)
  }

  datatype IndexMap<V> = IndexMap(keys: seq<string>, entries: map<string, V>) {

    ghost predicate Valid() {
      && NoDup(keys)
      && (forall k :: k in keys <==> k in entries)
    }

    function Insert(k: string, v: V): IndexMap<V> {
      IndexMap(if k in entries then keys else keys + [k], entries[k := v])
    }

    function Remove(k: string): IndexMap<V> {
      IndexMap(ShiftRemove(keys, k), entries - {k})
    }

    function Values(): seq<V> {
      Lookup(keys, entries)
    }
  }

  /** The value under k, if there is one. */
  function At<V>(m: IndexMap<V>, k: string): Option<V> {
    if k in m.entries then Some(m.entries[k]) else None
  }

  lemma {:induction false} ShiftRemoveMember<T>(s: seq<T>, x: T)
    requires NoDup(s)
    ensures NoDup(ShiftRemove(s, x))
    ensures forall y :: y in ShiftRemove(s, x) <==> y in s && y != x
  {
    if s != [] && s[0] != x {
      ShiftRemoveMember(s[1..], x);
      assert s == [s[0]] + s[1..];
      assert forall y :: y in s <==> y == s[0] || y in s[1..];
      assert s[0] !in ShiftRemove(s[1..], x);
    } else if s != [] {
      assert s == [s[0]] + s[1..];
      assert forall y :: y in s <==> y == s[0] || y in s[1..];
    }
  }

  /** Removal closes the gap: the elements after position k move down by one. */
  lemma {:induction false} ShiftRemoveAt<T>(s: seq<T>, k: nat)
    requires NoDup(s) && k < |s|
    ensures ShiftRemove(s, s[k]) == s[..k] + s[k + 1..]
  {
    if k > 0 {
      ShiftRemoveAt(s[1..], k - 1);
    }
  }

  lemma {:induction false} ShiftRemoveAbsent<T>(s: seq<T>, x: T)
    requires x !in s
    ensures ShiftRemove(s, x) == s
  {
    if s != [] {
      ShiftRemoveAbsent(s[1..], x);
    }
  }

  lemma {:induction false} FilterMember<T>(s: seq<T>, p: T -> bool)
    ensures forall x :: x in Filter(s, p) <==> x in s && p(x)
  {
    if s != [] {
      FilterMember(s[1..], p);
      assert forall x :: x in s <==> x == s[0] || x in s[1..];
    }
  }

  /** Inserting keeps the map well formed and every other binding in place. */
  lemma InsertValid<V>(m: IndexMap<V>, k: string, v: V)
    requires m.Valid()
    ensures m.Insert(k, v).Valid()
    ensures m.keys <= m.Insert(k, v).keys
  {
    var n := m.Insert(k, v);
    assert forall j :: j in n.keys <==> j in m.keys || j == k;
  }

  lemma RemoveValid<V>(m: IndexMap<V>, k: string)
    requires m.Valid()
    ensures m.Remove(k).Valid()
  {
    ShiftRemoveMember(m.keys, k);
  }
}
