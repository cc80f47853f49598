/** When the order in which provider streams are merged does not matter. */
module Confluence {
  import opened Wrappers
  import opened Sequences
  import opened IndexMaps
  import opened Entities
  import opened TopologyModel
  import opened TopologyTheorems
  import opened EventLog
  import opened Diffs
  import opened Discovery

  datatype Entity = C(component: Component) | P(app: App) | A(area: Area)

  /** The entity a reference denotes, if it is present. */
  function Value(s: State, r: EntityRef): Option<Entity> {
    if !Has(s, r) then None
    else match r.kind
      case ComponentKind => Some(C(s.components.entries[r.id]))
      case AppKind => Some(P(s.apps.entries[r.id]))
      case AreaKind => Some(A(s.areas.entries[r.id]))
  }

  function MemberRef(rel: Relation, id: string): EntityRef {
    EntityRef(if rel == ComponentsInArea then ComponentKind else AppKind, id)
  }

  // ---------------------------------------------------------------- one mutation

  lemma OtherValue(s: State, op: Op, r: EntityRef)
    requires RefOf(op) != r
    ensures Value(Apply(s, op), r) == Value(s, r)
  {
    match r.kind
    case ComponentKind =>
    case AppKind =>
    case AreaKind =>
  }

  lemma OwnValue(s: State, t: State, op: Op)
    requires Value(s, RefOf(op)) == Value(t, RefOf(op))
    ensures Value(Apply(s, op), RefOf(op)) == Value(Apply(t, op), RefOf(op))
  {
    match op
    case AddComponent(_) =>
    case AddApp(_) =>
    case AddArea(_) =>
    case RemoveComponent(_) =>
    case RemoveApp(_) =>
    case RemoveArea(_) =>
  }

  // ---------------------------------------------------------------- what a run says about a few references

  /** The mutations that touch one of refs, in order. */
  function Only(ops: seq<Op>, refs: set<EntityRef>): seq<Op> {
    if ops == [] then []
    else
      var last := ops[|ops| - 1];
      Only(ops[..|ops| - 1], refs) + (if RefOf(last) in refs then [last] else [])
  }

  lemma OnlyLast(ops: seq<Op>, refs: set<EntityRef>)
    requires ops != []
    ensures var pre, last := ops[..|ops| - 1], ops[|ops| - 1];
            Only(ops, refs) == if RefOf(last) in refs then Only(pre, refs) + [last] else Only(pre, refs)
  {
  }

  lemma {:induction false} OnlyConcat(a: seq<Op>, b: seq<Op>, refs: set<EntityRef>)
    ensures Only(a + b, refs) == Only(a, refs) + Only(b, refs)
  {
    if b == [] {
      assert a + b == a;
    } else {
      var n := |b| - 1;
      assert (a + b)[..|a + b| - 1] == a + b[..n];
      OnlyConcat(a, b[..n], refs);
    }
  }

  lemma {:induction false} OnlyNone(ops: seq<Op>, refs: set<EntityRef>)
    requires forall op | op in ops :: RefOf(op) !in refs
    ensures Only(ops, refs) == []
  {
    if ops != [] {
      OnlyNone(ops[..|ops| - 1], refs);
    }
  }

  /** The value of r depends on nothing but the mutations that touch r. */
  lemma {:induction false} ValueProjects(s: State, ops: seq<Op>, refs: set<EntityRef>, r: EntityRef)
    requires WellFormed(s) && r in refs
    ensures Value(Run(s, ops), r) == Value(Run(s, Only(ops, refs)), r)
  {
    if ops != [] {
      var pre, last := ops[..|ops| - 1], ops[|ops| - 1];
      ValueProjects(s, pre, refs, r);
      OnlyLast(ops, refs);
      RunSnoc(s, Only(pre, refs), last);
      if RefOf(last) == r {
        OwnValue(Run(s, pre), Run(s, Only(pre, refs)), last);
      } else {
        OtherValue(Run(s, pre), last, r);
        OtherValue(Run(s, Only(pre, refs)), last, r);
      }
    }
  }

  /** The references a membership can depend on: the entity, and for areas the area. */
  function Watch(rel: Relation, id: string, x: string): set<EntityRef> {
    {MemberRef(rel, id)} + (if rel == AppsOnComponent then {} else {EntityRef(AreaKind, x)})
  }

  lemma SameTaking(rel: Relation, s: State, t: State, op: Op, id: string, x: string)
    requires WellFormed(s) && WellFormed(t)
    requires forall r | r in Watch(rel, id, x) :: Value(s, r) == Value(t, r)
    ensures TakesOut(rel, s, op, id, x) == TakesOut(rel, t, op, id, x)
  {
    assert Value(s, MemberRef(rel, id)) == Value(t, MemberRef(rel, id));
    if rel != AppsOnComponent {
      assert EntityRef(AreaKind, x) in Watch(rel, id, x);
      assert Value(s, EntityRef(AreaKind, x)) == Value(t, EntityRef(AreaKind, x));
    }
  }

  lemma UntouchedMember(rel: Relation, s: State, op: Op, id: string, x: string)
    requires RefOf(op) !in Watch(rel, id, x)
    ensures !Files(rel, op, id, x) && !TakesOut(rel, s, op, id, x)
  {
    assert MemberRef(rel, id) in Watch(rel, id, x);
    assert rel != AppsOnComponent ==> EntityRef(AreaKind, x) in Watch(rel, id, x);
  }

  /** Membership depends on nothing but the mutations of what it watches. */
  lemma {:induction false} MemberProjects(rel: Relation, s: State, ops: seq<Op>, id: string, x: string)
    requires WellFormed(s)
    ensures Member(rel, Run(s, ops), id, x) == Member(rel, Run(s, Only(ops, Watch(rel, id, x))), id, x)
  {
    if ops != [] {
      var refs := Watch(rel, id, x);
      var pre, last := ops[..|ops| - 1], ops[|ops| - 1];
      var t, u := Run(s, pre), Run(s, Only(pre, refs));
      MemberProjects(rel, s, pre, id, x);
      OnlyLast(ops, refs);
      RunWellFormed(s, pre);
      RunWellFormed(s, Only(pre, refs));
      ApplyMember(rel, t, last, id, x);
      if RefOf(last) in refs {
        RunSnoc(s, Only(pre, refs), last);
        ApplyMember(rel, u, last, id, x);
        forall r | r in refs ensures Value(t, r) == Value(u, r) {
          ValueProjects(s, pre, refs, r);
        }
        SameTaking(rel, t, u, last, id, x);
      } else {
        UntouchedMember(rel, t, last, id, x);
      }
    }
  }

  // ---------------------------------------------------------------- what a run does to one area membership

  /** The run files id under x and nothing later in it takes it out. */
  predicate FilesForGood(rel: Relation, s: State, ops: seq<Op>, id: string, x: string) {
    ops != [] &&
    var pre, last := ops[..|ops| - 1], ops[|ops| - 1];
    Files(rel, last, id, x) || (FilesForGood(rel, s, pre, id, x) && !TakesOut(rel, Run(s, pre), last, id, x))
  }

  /** Nothing in the run takes id out of x. */
  predicate Spares(rel: Relation, s: State, ops: seq<Op>, id: string, x: string) {
    ops == [] ||
    var pre, last := ops[..|ops| - 1], ops[|ops| - 1];
    Spares(rel, s, pre, id, x) && !TakesOut(rel, Run(s, pre), last, id, x)
  }

  /** The run removes the area x while it is present. */
  predicate RemovesArea(s: State, ops: seq<Op>, x: string) {
    ops != [] &&
    var pre, last := ops[..|ops| - 1], ops[|ops| - 1];
    RemovesArea(s, pre, x) || (last == RemoveArea(x) && x in Run(s, pre).areas.entries)
  }

  /** A run leaves id in x if it files it there for good, or finds it there and spares it. */
  lemma {:induction false} MemberAfter(rel: Relation, s: State, ops: seq<Op>, id: string, x: string)
    requires WellFormed(s)
    ensures Member(rel, Run(s, ops), id, x) <==>
            FilesForGood(rel, s, ops, id, x) || (Member(rel, s, id, x) && Spares(rel, s, ops, id, x))
  {
    if ops != [] {
      var pre, last := ops[..|ops| - 1], ops[|ops| - 1];
      MemberAfter(rel, s, pre, id, x);
      RunWellFormed(s, pre);
      ApplyMember(rel, Run(s, pre), last, id, x);
      assert !(Files(rel, last, id, x) && TakesOut(rel, Run(s, pre), last, id, x));
    }
  }

  lemma {:induction false} ForGoodConcat(rel: Relation, s: State, a: seq<Op>, b: seq<Op>, id: string, x: string)
    ensures FilesForGood(rel, s, a + b, id, x) <==>
            || FilesForGood(rel, Run(s, a), b, id, x)
            || (FilesForGood(rel, s, a, id, x) && Spares(rel, Run(s, a), b, id, x))
  {
    if b == [] {
      AppendNothing(a);
    } else {
      FrontOfConcat(a, b);
      StateConcat(s, a, b[..|b| - 1]);
      ForGoodConcat(rel, s, a, b[..|b| - 1], id, x);
    }
  }

  lemma TakingByPart(rel: Relation, s: State, t: State, op: Op, id: string, x: string)
    requires RefOf(op) in Watch(rel, id, x) && Value(s, RefOf(op)) == Value(t, RefOf(op))
    ensures TakesOut(rel, s, op, id, x) == TakesOut(rel, t, op, id, x)
  {
  }

  /** The mutations of one reference do the same from any two states that agree on it. */
  lemma {:induction false} PartFrom(rel: Relation, s: State, t: State, ops: seq<Op>, id: string, x: string,
          r: EntityRef)
    requires r in Watch(rel, id, x) && Value(s, r) == Value(t, r)
    requires forall op | op in ops :: RefOf(op) == r
    ensures Value(Run(s, ops), r) == Value(Run(t, ops), r)
    ensures FilesForGood(rel, s, ops, id, x) == FilesForGood(rel, t, ops, id, x)
    ensures Spares(rel, s, ops, id, x) == Spares(rel, t, ops, id, x)
  {
    if ops != [] {
      var pre, last := ops[..|ops| - 1], ops[|ops| - 1];
      assert last in ops && forall op | op in pre :: op in ops;
      PartFrom(rel, s, t, pre, id, x, r);
      TakingByPart(rel, Run(s, pre), Run(t, pre), last, id, x);
      OwnValue(Run(s, pre), Run(t, pre), last);
    }
  }

  function OfEntity(rel: Relation, ops: seq<Op>, id: string): seq<Op> {
    Only(ops, {MemberRef(rel, id)})
  }

  function OfArea(ops: seq<Op>, x: string): seq<Op> {
    Only(ops, {EntityRef(AreaKind, x)})
  }

  lemma PartStep(rel: Relation, s: State, pre: seq<Op>, last: Op, id: string, x: string)
    requires WellFormed(s) && rel != AppsOnComponent
    ensures RefOf(last) == MemberRef(rel, id) ==>
              TakesOut(rel, Run(s, pre), last, id, x) == TakesOut(rel, Run(s, OfEntity(rel, pre, id)), last, id, x)
    ensures RefOf(last) == EntityRef(AreaKind, x) ==>
              TakesOut(rel, Run(s, pre), last, id, x) == TakesOut(rel, Run(s, OfArea(pre, x)), last, id, x)
    ensures RefOf(last) != MemberRef(rel, id) ==> !Files(rel, last, id, x)
    ensures RefOf(last) !in Watch(rel, id, x) ==> !TakesOut(rel, Run(s, pre), last, id, x)
  {
    var e, a := MemberRef(rel, id), EntityRef(AreaKind, x);
    assert e in Watch(rel, id, x) && a in Watch(rel, id, x);
    if RefOf(last) == e {
      ValueProjects(s, pre, {e}, e);
      TakingByPart(rel, Run(s, pre), Run(s, OfEntity(rel, pre, id)), last, id, x);
    } else if RefOf(last) == a {
      ValueProjects(s, pre, {a}, a);
      TakingByPart(rel, Run(s, pre), Run(s, OfArea(pre, x)), last, id, x);
    } else {
      UntouchedMember(rel, Run(s, pre), last, id, x);
    }
  }

  /** The entity's own mutations and the area's each decide for themselves whether a
      membership is spared; only the former file it. */
  lemma {:induction false} ByParts(rel: Relation, s: State, ops: seq<Op>, id: string, x: string)
    requires WellFormed(s) && rel != AppsOnComponent
    ensures Spares(rel, s, ops, id, x) <==>
            Spares(rel, s, OfEntity(rel, ops, id), id, x) && Spares(rel, s, OfArea(ops, x), id, x)
    ensures FilesForGood(rel, s, ops, id, x) ==> FilesForGood(rel, s, OfEntity(rel, ops, id), id, x)
    ensures Spares(rel, s, OfArea(ops, x), id, x) ==>
              (FilesForGood(rel, s, ops, id, x) <==> FilesForGood(rel, s, OfEntity(rel, ops, id), id, x))
  {
    if ops != [] {
      var e, a := MemberRef(rel, id), EntityRef(AreaKind, x);
      var pre, last := ops[..|ops| - 1], ops[|ops| - 1];
      ByParts(rel, s, pre, id, x);
      PartStep(rel, s, pre, last, id, x);
      OnlyLast(ops, {e});
      OnlyLast(ops, {a});
      SnocParts(rel, s, OfEntity(rel, pre, id), last, id, x);
      SnocParts(rel, s, OfArea(pre, x), last, id, x);
    }
  }

  lemma SnocParts(rel: Relation, s: State, ops: seq<Op>, last: Op, id: string, x: string)
    ensures Spares(rel, s, ops + [last], id, x) <==>
            Spares(rel, s, ops, id, x) && !TakesOut(rel, Run(s, ops), last, id, x)
    ensures FilesForGood(rel, s, ops + [last], id, x) <==>
            Files(rel, last, id, x) ||
            (FilesForGood(rel, s, ops, id, x) && !TakesOut(rel, Run(s, ops), last, id, x))
  {
    assert (ops + [last])[..|ops|] == ops;
  }

  lemma AreaTakes(rel: Relation, s: State, pre: seq<Op>, last: Op, id: string, x: string)
    requires WellFormed(s) && rel != AppsOnComponent && RefOf(last) == EntityRef(AreaKind, x)
    ensures TakesOut(rel, Run(s, OfArea(pre, x)), last, id, x) <==>
            last == RemoveArea(x) && x in Run(s, pre).areas.entries
  {
    ValueProjects(s, pre, {EntityRef(AreaKind, x)}, EntityRef(AreaKind, x));
  }

  /** The mutations of an area spare its members unless they remove it while it is present. */
  lemma {:induction false} AreaSpares(rel: Relation, s: State, ops: seq<Op>, id: string, x: string)
    requires WellFormed(s) && rel != AppsOnComponent
    ensures Spares(rel, s, OfArea(ops, x), id, x) <==> !RemovesArea(s, ops, x)
  {
    if ops != [] {
      var pre, last := ops[..|ops| - 1], ops[|ops| - 1];
      AreaSpares(rel, s, pre, id, x);
      OnlyLast(ops, {EntityRef(AreaKind, x)});
      if RefOf(last) == EntityRef(AreaKind, x) {
        AreaTakes(rel, s, pre, last, id, x);
        SnocParts(rel, s, OfArea(pre, x), last, id, x);
      }
    }
  }

  // ---------------------------------------------------------------- merged streams

  /** All mutations a list of items leads to. */
  function ItemsOps(items: seq<Item>): seq<Op> {
    AllOps(OkDiffs(items))
  }

  lemma ItemsOpsSnoc(items: seq<Item>, item: Item)
    ensures ItemsOps(items + [item]) == ItemsOps(items) + ItemOps(item)
  {
    ItemAdds(items, item);
  }

  lemma {:induction false} ItemsOpsConcat(a: seq<Item>, b: seq<Item>)
    ensures ItemsOps(a + b) == ItemsOps(a) + ItemsOps(b)
  {
    if b == [] {
      AppendNothing(a);
      AppendNothing(ItemsOps(a));
    } else {
      var pre, last := b[..|b| - 1], b[|b| - 1];
      SplitLast(a, b);
      ItemsOpsSnoc(a + pre, last);
      ItemsOpsSnoc(pre, last);
      ItemsOpsConcat(a, pre);
      Assoc(ItemsOps(a), ItemsOps(pre), ItemOps(last));
    }
  }

  /** The references a stream touches. */
  function Touched(items: seq<Item>): set<EntityRef> {
    set op | op in ItemsOps(items) :: RefOf(op)
  }

  ghost predicate Disjoint(streams: seq<seq<Item>>) {
    forall i, j | 0 <= i < j < |streams| :: Touched(streams[i]) !! Touched(streams[j])
  }

  /** No stream removes an area that an entity added by another stream names. */
  ghost predicate AreasRespected(streams: seq<seq<Item>>) {
    forall i, j, x | 0 <= i < |streams| && 0 <= j < |streams| && i != j ::
      RemoveArea(x) in ItemsOps(streams[i]) ==> !NamesArea(ItemsOps(streams[j]), x)
  }

  /** Some added entity names area x. */
  predicate NamesArea(ops: seq<Op>, x: string) {
    exists op | op in ops ::
      (op.AddComponent? && op.component.areaId == Some(x)) || (op.AddApp? && op.app.areaId == Some(x))
  }

  lemma HeadTail(items: seq<Item>)
    requires items != []
    ensures ItemsOps(items) == ItemsOps([items[0]]) + ItemsOps(items[1..])
  {
    assert items == [items[0]] + items[1..];
    ItemsOpsConcat([items[0]], items[1..]);
  }

  lemma {:induction false} MergedOps(streams: seq<seq<Item>>, picks: seq<nat>)
    requires Schedule(streams, picks)
    ensures forall op | op in ItemsOps(Merged(streams, picks)) ::
              exists i :: 0 <= i < |streams| && op in ItemsOps(streams[i])
    decreases |picks|
  {
    if picks != [] {
      var i := picks[0];
      var head := streams[i][0];
      var left := Pop(streams, i);
      MergedOps(left, picks[1..]);
      HeadTail(streams[i]);
      ItemsOpsConcat([head], Merged(left, picks[1..]));
      forall op | op in ItemsOps(Merged(streams, picks))
        ensures exists k :: 0 <= k < |streams| && op in ItemsOps(streams[k])
      {
        if op in ItemsOps([head]) {
          assert op in ItemsOps(streams[i]);
        } else {
          var k :| 0 <= k < |left| && op in ItemsOps(left[k]);
          assert op in ItemsOps(streams[k]);
        }
      }
    }
  }

  /** In any merge, what stream i alone touches comes out as in stream i itself. */
  lemma {:induction false} MergeKeepsOrder(streams: seq<seq<Item>>, picks: seq<nat>, i: nat, refs: set<EntityRef>)
    requires Schedule(streams, picks) && i < |streams| == |Rest(streams, picks)|
    requires forall j | 0 <= j < |streams| && j != i :: Touched(streams[j]) !! refs
    ensures Only(ItemsOps(Merged(streams, picks)), refs) + Only(ItemsOps(Rest(streams, picks)[i]), refs)
            == Only(ItemsOps(streams[i]), refs)
    decreases |picks|
  {
    if picks == [] {
      assert ItemsOps([]) == [];
      assert Only([], refs) + Only(ItemsOps(streams[i]), refs) == Only(ItemsOps(streams[i]), refs);
    } else {
      var p := picks[0];
      var head := streams[p][0];
      var left := Pop(streams, p);
      HeadTail(streams[p]);
      forall j | 0 <= j < |left| && j != i ensures Touched(left[j]) !! refs {
        assert Touched(left[j]) <= Touched(streams[j]);
      }
      MergeKeepsOrder(left, picks[1..], i, refs);
      var tail := Merged(left, picks[1..]);
      ItemsOpsConcat([head], tail);
      OnlyConcat(ItemsOps([head]), ItemsOps(tail), refs);
      Assoc(Only(ItemsOps([head]), refs), Only(ItemsOps(tail), refs), Only(ItemsOps(Rest(streams, picks)[i]), refs));
      if p == i {
        OnlyConcat(ItemsOps([head]), ItemsOps(streams[i][1..]), refs);
      } else {
        forall op | op in ItemsOps([head]) ensures RefOf(op) !in refs {
          assert op in ItemsOps(streams[p]);
          assert RefOf(op) in Touched(streams[p]);
        }
        OnlyNone(ItemsOps([head]), refs);
        assert left[i] == streams[i];
        assert [] + Only(ItemsOps(streams[i]), refs) == Only(ItemsOps(streams[i]), refs);
      }
    }
  }

  /** A complete merge does to whatever a single stream owns what that stream does. */
  lemma MergedPart(streams: seq<seq<Item>>, p: seq<nat>, i: nat, refs: set<EntityRef>)
    requires Complete(streams, p) && i < |streams|
    requires forall j | 0 <= j < |streams| && j != i :: Touched(streams[j]) !! refs
    ensures Only(ItemsOps(Merged(streams, p)), refs) == Only(ItemsOps(streams[i]), refs)
  {
    RestLength(streams, p);
    MergeKeepsOrder(streams, p, i, refs);
    assert Rest(streams, p)[i] == [];
    AppendNothing(Only(ItemsOps(Merged(streams, p)), refs));
  }

  /** Draining stream i first and then merging the others is a merge of all. */
  lemma {:induction false} DrainFirst(streams: seq<seq<Item>>, i: nat, rest: seq<nat>) returns (picks: seq<nat>)
    requires i < |streams| && Complete(streams[i := []], rest)
    ensures Complete(streams, picks)
    ensures Merged(streams, picks) == streams[i] + Merged(streams[i := []], rest)
    decreases |streams[i]|
  {
    if streams[i] == [] {
      assert streams[i := []] == streams;
      picks := rest;
    } else {
      assert Pop(streams, i)[i := []] == streams[i := []];
      var more := DrainFirst(Pop(streams, i), i, rest);
      picks := [i] + more;
      assert picks[1..] == more;
      assert streams[i] == [streams[i][0]] + streams[i][1..];
    }
  }

  lemma {:induction false} SomeMerge(streams: seq<seq<Item>>, n: nat) returns (picks: seq<nat>)
    requires n <= |streams| && forall i | 0 <= i < n :: streams[i] == []
    ensures Complete(streams, picks)
    decreases |streams| - n
  {
    if n == |streams| {
      picks := [];
    } else {
      var rest := SomeMerge(streams[n := []], n + 1);
      picks := DrainFirst(streams, n, rest);
    }
  }

  lemma OnlyOwner(streams: seq<seq<Item>>, i: nat, r: EntityRef)
    requires Disjoint(streams) && i < |streams| && r in Touched(streams[i])
    ensures forall j | 0 <= j < |streams| && j != i :: r !in Touched(streams[j])
  {
    forall j | 0 <= j < |streams| && j != i ensures r !in Touched(streams[j]) {
      if j < i {
        assert Touched(streams[j]) !! Touched(streams[i]);
      } else {
        assert Touched(streams[i]) !! Touched(streams[j]);
      }
    }
  }

  lemma Owner(streams: seq<seq<Item>>, r: EntityRef) returns (i: nat)
    requires Disjoint(streams) && streams != []
    ensures i < |streams|
    ensures forall j | 0 <= j < |streams| && j != i :: r !in Touched(streams[j])
  {
    if k: nat :| k < |streams| && r in Touched(streams[k]) {
      i := k;
      OnlyOwner(streams, i, r);
    } else {
      i := 0;
    }
  }

  // ---------------------------------------------------------------- the theorem

  lemma SameValue(s: State, streams: seq<seq<Item>>, p: seq<nat>, q: seq<nat>, r: EntityRef)
    requires WellFormed(s) && Complete(streams, p) && Complete(streams, q) && Disjoint(streams) && streams != []
    ensures Value(Run(s, ItemsOps(Merged(streams, p))), r) == Value(Run(s, ItemsOps(Merged(streams, q))), r)
  {
    var i := Owner(streams, r);
    MergedPart(streams, p, i, {r});
    MergedPart(streams, q, i, {r});
    ValueProjects(s, ItemsOps(Merged(streams, p)), {r}, r);
    ValueProjects(s, ItemsOps(Merged(streams, q)), {r}, r);
  }

  lemma SameHosted(s: State, streams: seq<seq<Item>>, p: seq<nat>, q: seq<nat>, id: string, x: string)
    requires WellFormed(s) && Complete(streams, p) && Complete(streams, q) && Disjoint(streams) && streams != []
    ensures Member(AppsOnComponent, Run(s, ItemsOps(Merged(streams, p))), id, x) ==
            Member(AppsOnComponent, Run(s, ItemsOps(Merged(streams, q))), id, x)
  {
    var i := Owner(streams, EntityRef(AppKind, id));
    assert Watch(AppsOnComponent, id, x) == {EntityRef(AppKind, id)};
    MergedPart(streams, p, i, Watch(AppsOnComponent, id, x));
    MergedPart(streams, q, i, Watch(AppsOnComponent, id, x));
    MemberProjects(AppsOnComponent, s, ItemsOps(Merged(streams, p)), id, x);
    MemberProjects(AppsOnComponent, s, ItemsOps(Merged(streams, q)), id, x);
  }

  /** The same entities under the same keys, listed in whatever order. */
  ghost predicate SameEntities(s: State, t: State) {
    && s.components.entries == t.components.entries && multiset(s.components.keys) == multiset(t.components.keys)
    && s.apps.entries == t.apps.entries && multiset(s.apps.keys) == multiset(t.apps.keys)
    && s.areas.entries == t.areas.entries && multiset(s.areas.keys) == multiset(t.areas.keys)
  }

  /** The same ids in the index, those of absent entities included. */
  ghost predicate SameRelation(rel: Relation, s: State, t: State) {
    forall id, x :: Member(rel, s, id, x) == Member(rel, t, id, x)
  }

  /** The same results of the relation query, in whatever order. */
  ghost predicate SameListing(rel: Relation, s: State, t: State) {
    match rel
    case AppsOnComponent => forall h :: multiset(AppsOfComponent(s, h)) == multiset(AppsOfComponent(t, h))
    case ComponentsInArea => forall x :: multiset(ComponentsOfArea(s, x)) == multiset(ComponentsOfArea(t, x))
    case AppsInArea => forall x :: multiset(AppsOfArea(s, x)) == multiset(AppsOfArea(t, x))
  }

  /** What can be compared of a relation: the index, or what its query lists. */
  datatype Aspect = Filing(rel: Relation) | Listing(rel: Relation)

  ghost predicate Same(aspect: Aspect, s: State, t: State) {
    match aspect
    case Filing(rel) => SameRelation(rel, s, t)
    case Listing(rel) => SameListing(rel, s, t)
  }

  /** id is filed under x, and the query finds its entity. */
  predicate ListedIn(rel: Relation, s: State, id: string, x: string) {
    Member(rel, s, id, x) && Has(s, MemberRef(rel, id))
  }

  lemma {:induction false} NoDupMultiset<T>(a: seq<T>)
    requires NoDup(a)
    ensures forall k :: multiset(a)[k] == if k in a then 1 else 0
  {
    if a != [] {
      NoDupMultiset(a[1..]);
      assert a == [a[0]] + a[1..];
    }
  }

  lemma SameKeys<T>(a: seq<T>, b: seq<T>)
    requires NoDup(a) && NoDup(b) && forall k :: k in a <==> k in b
    ensures multiset(a) == multiset(b)
  {
    NoDupMultiset(a);
    NoDupMultiset(b);
  }

  lemma SameValuesSameEntities(s: State, t: State)
    requires WellFormed(s) && WellFormed(t)
    requires forall r :: Value(s, r) == Value(t, r)
    ensures SameEntities(s, t)
  {
    forall k
      ensures k in s.components.entries <==> k in t.components.entries
      ensures k in s.components.entries ==> s.components.entries[k] == t.components.entries[k]
    {
      assert Value(s, EntityRef(ComponentKind, k)) == Value(t, EntityRef(ComponentKind, k));
    }
    forall k
      ensures k in s.apps.entries <==> k in t.apps.entries
      ensures k in s.apps.entries ==> s.apps.entries[k] == t.apps.entries[k]
    {
      assert Value(s, EntityRef(AppKind, k)) == Value(t, EntityRef(AppKind, k));
    }
    forall k
      ensures k in s.areas.entries <==> k in t.areas.entries
      ensures k in s.areas.entries ==> s.areas.entries[k] == t.areas.entries[k]
    {
      assert Value(s, EntityRef(AreaKind, k)) == Value(t, EntityRef(AreaKind, k));
    }
    assert s.components.entries == t.components.entries;
    assert s.apps.entries == t.apps.entries;
    assert s.areas.entries == t.areas.entries;
    SameKeys(s.components.keys, t.components.keys);
    SameKeys(s.apps.keys, t.apps.keys);
    SameKeys(s.areas.keys, t.areas.keys);
  }

  lemma LookupsAlike<V>(a: seq<string>, b: seq<string>, m: map<string, V>, idOf: V -> string)
    requires NoDup(a) && NoDup(b) && forall k | k in m :: idOf(m[k]) == k
    ensures multiset(Lookup(a, m)) == multiset(Lookup(b, m)) <==> forall k | k in m :: k in a <==> k in b
  {
    LookupNoDup(a, m, idOf);
    LookupNoDup(b, m, idOf);
    LookupMember(a, m);
    LookupMember(b, m);
    if forall k | k in m :: k in a <==> k in b {
      SameKeys(Lookup(a, m), Lookup(b, m));
    } else {
      var k :| k in m && (k in a) != (k in b);
      assert (m[k] in Lookup(a, m)) != (m[k] in Lookup(b, m));
      assert m[k] in multiset(Lookup(a, m)) <==> m[k] in Lookup(a, m);
      assert m[k] in multiset(Lookup(b, m)) <==> m[k] in Lookup(b, m);
    }
  }

  /** The same present entities are filed under x. */
  ghost predicate ListedAlike(rel: Relation, s: State, t: State, x: string) {
    forall id :: ListedIn(rel, s, id, x) == ListedIn(rel, t, id, x)
  }

  lemma QueryByMembers<V>(rel: Relation, s: State, t: State, x: string, m: map<string, V>, idOf: V -> string)
    requires NoDup(Filed(rel, s, x)) && NoDup(Filed(rel, t, x)) && forall k | k in m :: idOf(m[k]) == k
    requires forall k :: Has(s, MemberRef(rel, k)) == (k in m) && Has(t, MemberRef(rel, k)) == (k in m)
    ensures multiset(Lookup(Filed(rel, s, x), m)) == multiset(Lookup(Filed(rel, t, x), m)) <==>
            ListedAlike(rel, s, t, x)
  {
    LookupsAlike(Filed(rel, s, x), Filed(rel, t, x), m, idOf);
    forall id
      ensures ListedIn(rel, s, id, x) == (id in m && id in Filed(rel, s, x))
      ensures ListedIn(rel, t, id, x) == (id in m && id in Filed(rel, t, x))
    {
      assert Has(s, MemberRef(rel, id)) == (id in m) && Has(t, MemberRef(rel, id)) == (id in m);
    }
  }

  /** With the same entities, relation queries list the same exactly if the same present
      entities are filed. */
  lemma ListingByMembers(rel: Relation, s: State, t: State)
    requires WellFormed(s) && WellFormed(t) && SameEntities(s, t)
    ensures SameListing(rel, s, t) <==> forall x :: ListedAlike(rel, s, t, x)
  {
    match rel
    case AppsOnComponent =>
      forall x
        ensures multiset(AppsOfComponent(s, x)) == multiset(AppsOfComponent(t, x)) <==> ListedAlike(rel, s, t, x)
      {
        QueryByMembers(rel, s, t, x, s.apps.entries, (app: App) => app.id);
      }
    case ComponentsInArea =>
      forall x
        ensures multiset(ComponentsOfArea(s, x)) == multiset(ComponentsOfArea(t, x)) <==> ListedAlike(rel, s, t, x)
      {
        QueryByMembers(rel, s, t, x, s.components.entries, (c: Component) => c.id);
      }
    case AppsInArea =>
      forall x
        ensures multiset(AppsOfArea(s, x)) == multiset(AppsOfArea(t, x)) <==> ListedAlike(rel, s, t, x)
      {
        QueryByMembers(rel, s, t, x, s.apps.entries, (app: App) => app.id);
      }
  }

  /** The topology after one merge of the streams. */
  function Merge(s: State, streams: seq<seq<Item>>, picks: seq<nat>): State
    requires Schedule(streams, picks)
  {
    Run(s, ItemsOps(Merged(streams, picks)))
  }

  /** Stream i, run alone, leaves id filed under x, and stream k, run alone, removes x. */
  predicate Clash(rel: Relation, s: State, streams: seq<seq<Item>>, i: nat, k: nat, id: string, x: string) {
    && i < |streams| && k < |streams| && i != k
    && FilesForGood(rel, s, ItemsOps(streams[i]), id, x)
    && RemovesArea(s, ItemsOps(streams[k]), x)
  }

  ghost predicate ClashOver(rel: Relation, s: State, streams: seq<seq<Item>>, id: string, x: string) {
    exists i, k :: Clash(rel, s, streams, i, k, id, x)
  }

  ghost predicate ClashFree(rel: Relation, s: State, streams: seq<seq<Item>>) {
    forall id, x :: !ClashOver(rel, s, streams, id, x)
  }

  /** A clash over an entity that stream i, run alone, leaves present. */
  predicate SeenClash(rel: Relation, s: State, streams: seq<seq<Item>>, i: nat, k: nat, id: string, x: string) {
    Clash(rel, s, streams, i, k, id, x) && Has(Run(s, ItemsOps(streams[i])), MemberRef(rel, id))
  }

  ghost predicate SeenClashOver(rel: Relation, s: State, streams: seq<seq<Item>>, id: string, x: string) {
    exists i, k :: SeenClash(rel, s, streams, i, k, id, x)
  }

  ghost predicate SeenClashFree(rel: Relation, s: State, streams: seq<seq<Item>>) {
    forall id, x :: !SeenClashOver(rel, s, streams, id, x)
  }

  /** All complete merges agree on an aspect. */
  ghost predicate MergesAlike(aspect: Aspect, s: State, streams: seq<seq<Item>>) {
    forall p, q | Complete(streams, p) && Complete(streams, q) ::
      Same(aspect, Merge(s, streams, p), Merge(s, streams, q))
  }

  /** What a stream does not touch, it does not change. */
  lemma UntouchedPart(items: seq<Item>, r: EntityRef)
    requires r !in Touched(items)
    ensures Only(ItemsOps(items), {r}) == []
  {
    assert forall op | op in ItemsOps(items) :: RefOf(op) in Touched(items);
    OnlyNone(ItemsOps(items), {r});
  }

  lemma {:induction false} OnlyTouches(ops: seq<Op>, r: EntityRef)
    ensures forall op | op in Only(ops, {r}) :: RefOf(op) == r
  {
    if ops != [] {
      OnlyTouches(ops[..|ops| - 1], r);
    }
  }

  lemma {:induction false} ForGoodFiles(rel: Relation, s: State, ops: seq<Op>, id: string, x: string)
    requires FilesForGood(rel, s, ops, id, x)
    ensures exists op :: op in ops && Files(rel, op, id, x)
  {
    var pre, last := ops[..|ops| - 1], ops[|ops| - 1];
    if Files(rel, last, id, x) {
      assert last in ops;
    } else {
      ForGoodFiles(rel, s, pre, id, x);
    }
  }

  lemma {:induction false} RemovesByRemoval(s: State, ops: seq<Op>, x: string)
    requires RemovesArea(s, ops, x)
    ensures RemoveArea(x) in ops
  {
    var pre := ops[..|ops| - 1];
    if RemovesArea(s, pre, x) {
      RemovesByRemoval(s, pre, x);
    }
  }

  lemma FilerOwns(rel: Relation, s: State, streams: seq<seq<Item>>, i: nat, id: string, x: string)
    requires Disjoint(streams) && i < |streams| && FilesForGood(rel, s, ItemsOps(streams[i]), id, x)
    ensures forall j | 0 <= j < |streams| && j != i :: MemberRef(rel, id) !in Touched(streams[j])
  {
    ForGoodFiles(rel, s, ItemsOps(streams[i]), id, x);
    var op :| op in ItemsOps(streams[i]) && Files(rel, op, id, x);
    assert RefOf(op) == MemberRef(rel, id);
    OnlyOwner(streams, i, RefOf(op));
  }

  lemma RemoverOwns(s: State, streams: seq<seq<Item>>, k: nat, x: string)
    requires Disjoint(streams) && k < |streams| && RemovesArea(s, ItemsOps(streams[k]), x)
    ensures forall j | 0 <= j < |streams| && j != k :: EntityRef(AreaKind, x) !in Touched(streams[j])
  {
    RemovesByRemoval(s, ItemsOps(streams[k]), x);
    OnlyOwner(streams, k, RefOf(RemoveArea(x)));
  }

  /** In a clash stream i touches the entity and stream k the area, and no other does. */
  lemma ClashOwners(rel: Relation, s: State, streams: seq<seq<Item>>, i: nat, k: nat, id: string, x: string)
    requires Disjoint(streams) && Clash(rel, s, streams, i, k, id, x)
    ensures forall j | 0 <= j < |streams| && j != i :: MemberRef(rel, id) !in Touched(streams[j])
    ensures forall j | 0 <= j < |streams| && j != k :: EntityRef(AreaKind, x) !in Touched(streams[j])
  {
    FilerOwns(rel, s, streams, i, id, x);
    RemoverOwns(s, streams, k, x);
  }

  /** A stream drained first is followed by just what the owner of r does to r. */
  lemma AfterDraining(streams: seq<seq<Item>>, i: nat, rest: seq<nat>, k: nat, r: EntityRef)
    requires i < |streams| && k < |streams| && i != k && Complete(streams[i := []], rest)
    requires forall j | 0 <= j < |streams| && j != k :: r !in Touched(streams[j])
    ensures Only(ItemsOps(Merged(streams[i := []], rest)), {r}) == Only(ItemsOps(streams[k]), {r})
  {
    var left := streams[i := []];
    assert Touched([]) == {};
    forall j | 0 <= j < |left| && j != k ensures Touched(left[j]) !! {r} {
      assert r !in Touched(left[j]);
    }
    MergedPart(left, rest, k, {r});
  }

  lemma AfterDrainingNothing(streams: seq<seq<Item>>, i: nat, rest: seq<nat>, r: EntityRef)
    requires i < |streams| && Complete(streams[i := []], rest)
    requires forall j | 0 <= j < |streams| && j != i :: r !in Touched(streams[j])
    ensures Only(ItemsOps(Merged(streams[i := []], rest)), {r}) == []
  {
    var left := streams[i := []];
    assert Touched([]) == {};
    forall op | op in ItemsOps(Merged(left, rest)) ensures RefOf(op) !in {r} {
      MergedOps(left, rest);
      var j :| 0 <= j < |left| && op in ItemsOps(left[j]);
      assert RefOf(op) in Touched(left[j]);
    }
    OnlyNone(ItemsOps(Merged(left, rest)), {r});
  }

  /** The filing stream first: the removal comes after it and takes the entity out. */
  lemma FilingFirst(rel: Relation, s: State, streams: seq<seq<Item>>, i: nat, k: nat, id: string, x: string)
    returns (picks: seq<nat>)
    requires WellFormed(s) && Disjoint(streams) && rel != AppsOnComponent && Clash(rel, s, streams, i, k, id, x)
    ensures Complete(streams, picks) && !Member(rel, Merge(s, streams, picks), id, x)
  {
    var e, a := MemberRef(rel, id), EntityRef(AreaKind, x);
    ClashOwners(rel, s, streams, i, k, id, x);
    var rest := SomeMerge(streams[i := []], 0);
    picks := DrainFirst(streams, i, rest);
    var first, later := ItemsOps(streams[i]), ItemsOps(Merged(streams[i := []], rest));
    var t := Run(s, first);
    ItemsOpsConcat(streams[i], Merged(streams[i := []], rest));
    RunWellFormed(s, first);
    AfterDrainingNothing(streams, i, rest, e);
    AfterDraining(streams, i, rest, k, a);
    UntouchedPart(streams[i], a);
    ValueProjects(s, first, {a}, a);
    OnlyTouches(ItemsOps(streams[k]), a);
    PartFrom(rel, s, t, OfArea(ItemsOps(streams[k]), x), id, x, a);
    AreaSpares(rel, s, ItemsOps(streams[k]), id, x);
    ByParts(rel, t, later, id, x);
    MemberAfter(rel, t, later, id, x);
    StateConcat(s, first, later);
  }

  /** The removing stream first: what the other then files stays. */
  lemma RemovingFirst(rel: Relation, s: State, streams: seq<seq<Item>>, i: nat, k: nat, id: string, x: string)
    returns (picks: seq<nat>)
    requires WellFormed(s) && Disjoint(streams) && rel != AppsOnComponent && Clash(rel, s, streams, i, k, id, x)
    ensures Complete(streams, picks) && Member(rel, Merge(s, streams, picks), id, x)
  {
    var e, a := MemberRef(rel, id), EntityRef(AreaKind, x);
    ClashOwners(rel, s, streams, i, k, id, x);
    var rest := SomeMerge(streams[k := []], 0);
    picks := DrainFirst(streams, k, rest);
    var first, later := ItemsOps(streams[k]), ItemsOps(Merged(streams[k := []], rest));
    var t := Run(s, first);
    ItemsOpsConcat(streams[k], Merged(streams[k := []], rest));
    RunWellFormed(s, first);
    AfterDrainingNothing(streams, k, rest, a);
    AfterDraining(streams, k, rest, i, e);
    UntouchedPart(streams[k], e);
    ValueProjects(s, first, {e}, e);
    OnlyTouches(ItemsOps(streams[i]), e);
    PartFrom(rel, s, t, OfEntity(rel, ItemsOps(streams[i]), id), id, x, e);
    ByParts(rel, s, ItemsOps(streams[i]), id, x);
    ByParts(rel, t, later, id, x);
    MemberAfter(rel, t, later, id, x);
    StateConcat(s, first, later);
  }

  lemma SameInArea(rel: Relation, s: State, streams: seq<seq<Item>>, p: seq<nat>, q: seq<nat>, id: string, x: string)
    requires WellFormed(s) && Complete(streams, p) && Complete(streams, q) && Disjoint(streams) && streams != []
    requires !ClashOver(rel, s, streams, id, x) && rel != AppsOnComponent
    ensures Member(rel, Merge(s, streams, p), id, x) == Member(rel, Merge(s, streams, q), id, x)
  {
    var e, a := MemberRef(rel, id), EntityRef(AreaKind, x);
    var i := Owner(streams, e);
    var k := Owner(streams, a);
    if i == k {
      MergedPart(streams, p, i, Watch(rel, id, x));
      MergedPart(streams, q, i, Watch(rel, id, x));
      MemberProjects(rel, s, ItemsOps(Merged(streams, p)), id, x);
      MemberProjects(rel, s, ItemsOps(Merged(streams, q)), id, x);
    } else {
      assert !Clash(rel, s, streams, i, k, id, x);
      UntouchedPart(streams[i], a);
      ByParts(rel, s, ItemsOps(streams[i]), id, x);
      AreaSpares(rel, s, ItemsOps(streams[k]), id, x);
      OwnedParts(rel, s, streams, p, i, k, id, x);
      OwnedParts(rel, s, streams, q, i, k, id, x);
    }
  }

  /** Where one stream owns the entity and another the area, and they do not clash, a
      membership is decided by each of them alone. */
  lemma OwnedParts(rel: Relation, s: State, streams: seq<seq<Item>>, p: seq<nat>, i: nat, k: nat, id: string, x: string)
    requires WellFormed(s) && Complete(streams, p) && rel != AppsOnComponent && i < |streams| && k < |streams|
    requires forall j | 0 <= j < |streams| && j != i :: MemberRef(rel, id) !in Touched(streams[j])
    requires forall j | 0 <= j < |streams| && j != k :: EntityRef(AreaKind, x) !in Touched(streams[j])
    requires var mine, area := OfEntity(rel, ItemsOps(streams[i]), id), OfArea(ItemsOps(streams[k]), x);
             !FilesForGood(rel, s, mine, id, x) || Spares(rel, s, area, id, x)
    ensures var mine, area := OfEntity(rel, ItemsOps(streams[i]), id), OfArea(ItemsOps(streams[k]), x);
            Member(rel, Merge(s, streams, p), id, x) <==>
            || FilesForGood(rel, s, mine, id, x)
            || (Member(rel, s, id, x) && Spares(rel, s, mine, id, x) && Spares(rel, s, area, id, x))
  {
    var ops := ItemsOps(Merged(streams, p));
    MergedPart(streams, p, i, {MemberRef(rel, id)});
    MergedPart(streams, p, k, {EntityRef(AreaKind, x)});
    ByParts(rel, s, ops, id, x);
    MemberAfter(rel, s, ops, id, x);
  }

  /** The area indexes, exactly: with disjoint references, all complete merges agree on an
      area index if and only if no stream, run alone, files an entity for good under an area
      that another stream, run alone, removes. */
  lemma AreaMergesAlike(rel: Relation, s: State, streams: seq<seq<Item>>)
    requires WellFormed(s) && Disjoint(streams) && rel != AppsOnComponent
    ensures MergesAlike(Filing(rel), s, streams) <==> ClashFree(rel, s, streams)
  {
    if ClashFree(rel, s, streams) {
      forall p, q | Complete(streams, p) && Complete(streams, q)
        ensures SameRelation(rel, Merge(s, streams, p), Merge(s, streams, q))
      {
        if streams == [] {
          assert p == [] && q == [];
        } else {
          forall id, x ensures Member(rel, Merge(s, streams, p), id, x) == Member(rel, Merge(s, streams, q), id, x) {
            SameInArea(rel, s, streams, p, q, id, x);
          }
        }
      }
    } else {
      var id, x :| ClashOver(rel, s, streams, id, x);
      var i: nat, k: nat :| Clash(rel, s, streams, i, k, id, x);
      var p := FilingFirst(rel, s, streams, i, k, id, x);
      var q := RemovingFirst(rel, s, streams, i, k, id, x);
      assert !Same(Filing(rel), Merge(s, streams, p), Merge(s, streams, q));
    }
  }

  /** Whether an entity is present after a merge is up to the stream that owns it. */
  lemma PresentByOwner(s: State, streams: seq<seq<Item>>, p: seq<nat>, i: nat, r: EntityRef)
    requires WellFormed(s) && Complete(streams, p) && i < |streams|
    requires forall j | 0 <= j < |streams| && j != i :: r !in Touched(streams[j])
    ensures Has(Merge(s, streams, p), r) == Has(Run(s, ItemsOps(streams[i])), r)
  {
    MergedPart(streams, p, i, {r});
    ValueProjects(s, ItemsOps(Merged(streams, p)), {r}, r);
    ValueProjects(s, ItemsOps(streams[i]), {r}, r);
  }

  lemma SameListed(rel: Relation, s: State, streams: seq<seq<Item>>, p: seq<nat>, q: seq<nat>, id: string, x: string)
    requires WellFormed(s) && Complete(streams, p) && Complete(streams, q) && Disjoint(streams) && streams != []
    requires !SeenClashOver(rel, s, streams, id, x) && rel != AppsOnComponent
    ensures ListedIn(rel, Merge(s, streams, p), id, x) == ListedIn(rel, Merge(s, streams, q), id, x)
  {
    var e := MemberRef(rel, id);
    if i: nat, k: nat :| Clash(rel, s, streams, i, k, id, x) {
      assert !SeenClash(rel, s, streams, i, k, id, x);
      ClashOwners(rel, s, streams, i, k, id, x);
      PresentByOwner(s, streams, p, i, e);
      PresentByOwner(s, streams, q, i, e);
    } else {
      assert !ClashOver(rel, s, streams, id, x);
      SameInArea(rel, s, streams, p, q, id, x);
      SameValue(s, streams, p, q, e);
    }
  }

  lemma MergesList(rel: Relation, s: State, streams: seq<seq<Item>>, p: seq<nat>, q: seq<nat>)
    requires WellFormed(s) && Disjoint(streams) && Complete(streams, p) && Complete(streams, q)
    ensures var t, u := Merge(s, streams, p), Merge(s, streams, q);
            SameListing(rel, t, u) <==> forall x :: ListedAlike(rel, t, u, x)
  {
    RunWellFormed(s, ItemsOps(Merged(streams, p)));
    RunWellFormed(s, ItemsOps(Merged(streams, q)));
    EntityMergesAlike(s, streams, p, q);
    ListingByMembers(rel, Merge(s, streams, p), Merge(s, streams, q));
  }

  /** What areas list, exactly: with disjoint references, all complete merges list the same
      in every area if and only if no two streams clash over an entity that is left present. */
  lemma AreaListingsAlike(rel: Relation, s: State, streams: seq<seq<Item>>)
    requires WellFormed(s) && Disjoint(streams) && rel != AppsOnComponent
    ensures MergesAlike(Listing(rel), s, streams) <==> SeenClashFree(rel, s, streams)
  {
    if SeenClashFree(rel, s, streams) {
      forall p, q | Complete(streams, p) && Complete(streams, q)
        ensures SameListing(rel, Merge(s, streams, p), Merge(s, streams, q))
      {
        var t, u := Merge(s, streams, p), Merge(s, streams, q);
        if streams == [] {
          assert p == [] && q == [];
        } else {
          forall x ensures ListedAlike(rel, t, u, x) {
            forall id ensures ListedIn(rel, t, id, x) == ListedIn(rel, u, id, x) {
              SameListed(rel, s, streams, p, q, id, x);
            }
          }
        }
        MergesList(rel, s, streams, p, q);
      }
    } else {
      var id, x :| SeenClashOver(rel, s, streams, id, x);
      var i: nat, k: nat :| SeenClash(rel, s, streams, i, k, id, x);
      var p := FilingFirst(rel, s, streams, i, k, id, x);
      var q := RemovingFirst(rel, s, streams, i, k, id, x);
      ClashOwners(rel, s, streams, i, k, id, x);
      PresentByOwner(s, streams, q, i, MemberRef(rel, id));
      assert ListedIn(rel, Merge(s, streams, p), id, x) != ListedIn(rel, Merge(s, streams, q), id, x);
      assert !ListedAlike(rel, Merge(s, streams, p), Merge(s, streams, q), x);
      MergesList(rel, s, streams, p, q);
      assert !Same(Listing(rel), Merge(s, streams, p), Merge(s, streams, q));
    }
  }

  /** It is enough that no stream removes an area that another stream's entities name. */
  lemma RespectedIsClashFree(rel: Relation, s: State, streams: seq<seq<Item>>)
    requires AreasRespected(streams) && rel != AppsOnComponent
    ensures ClashFree(rel, s, streams) && SeenClashFree(rel, s, streams)
  {
    forall id, x ensures !ClashOver(rel, s, streams, id, x) {
      if i: nat, k: nat :| Clash(rel, s, streams, i, k, id, x) {
        ForGoodFiles(rel, s, ItemsOps(streams[i]), id, x);
        RemovesByRemoval(s, ItemsOps(streams[k]), x);
        assert NamesArea(ItemsOps(streams[i]), x);
      }
    }
    ClashFreeSeen(rel, s, streams);
  }

  lemma ClashFreeSeen(rel: Relation, s: State, streams: seq<seq<Item>>)
    requires ClashFree(rel, s, streams)
    ensures SeenClashFree(rel, s, streams)
  {
    forall id, x ensures !SeenClashOver(rel, s, streams, id, x) {
      if i: nat, k: nat :| SeenClash(rel, s, streams, i, k, id, x) {
        assert ClashOver(rel, s, streams, id, x);
      }
    }
  }

  lemma HostMergesAlike(s: State, streams: seq<seq<Item>>)
    requires WellFormed(s) && Disjoint(streams)
    ensures MergesAlike(Filing(AppsOnComponent), s, streams) && MergesAlike(Listing(AppsOnComponent), s, streams)
  {
    forall p, q | Complete(streams, p) && Complete(streams, q)
      ensures SameRelation(AppsOnComponent, Merge(s, streams, p), Merge(s, streams, q))
      ensures SameListing(AppsOnComponent, Merge(s, streams, p), Merge(s, streams, q))
    {
      var t, u := Merge(s, streams, p), Merge(s, streams, q);
      if streams == [] {
        assert p == [] && q == [];
      } else {
        forall id, x ensures Member(AppsOnComponent, t, id, x) == Member(AppsOnComponent, u, id, x) {
          SameHosted(s, streams, p, q, id, x);
        }
        forall x ensures ListedAlike(AppsOnComponent, t, u, x) {
          forall id ensures ListedIn(AppsOnComponent, t, id, x) == ListedIn(AppsOnComponent, u, id, x) {
            SameValue(s, streams, p, q, MemberRef(AppsOnComponent, id));
          }
        }
        MergesList(AppsOnComponent, s, streams, p, q);
      }
    }
  }

  lemma EntityMergesAlike(s: State, streams: seq<seq<Item>>, p: seq<nat>, q: seq<nat>)
    requires WellFormed(s) && Disjoint(streams) && Complete(streams, p) && Complete(streams, q)
    ensures SameEntities(Merge(s, streams, p), Merge(s, streams, q))
  {
    var t, u := Merge(s, streams, p), Merge(s, streams, q);
    RunWellFormed(s, ItemsOps(Merged(streams, p)));
    RunWellFormed(s, ItemsOps(Merged(streams, q)));
    if streams == [] {
      assert p == [] && q == [];
    } else {
      forall r ensures Value(t, r) == Value(u, r) {
        SameValue(s, streams, p, q, r);
      }
      SameValuesSameEntities(t, u);
    }
  }

  /** Confluence: when the diffs of different providers touch disjoint references, all ways
      of merging the streams give the same entities and the same hosts. They give the same
      area indexes if and only if no two streams clash, and areas that list the same if and
      only if no two streams clash over an entity that is left present. */
  lemma MergeOrderDoesNotMatter(s: State, streams: seq<seq<Item>>)
    requires WellFormed(s) && Disjoint(streams)
    ensures forall p, q | Complete(streams, p) && Complete(streams, q) ::
              SameEntities(Merge(s, streams, p), Merge(s, streams, q))
    ensures MergesAlike(Filing(AppsOnComponent), s, streams) && MergesAlike(Listing(AppsOnComponent), s, streams)
    ensures forall rel | rel != AppsOnComponent ::
              && (MergesAlike(Filing(rel), s, streams) <==> ClashFree(rel, s, streams))
              && (MergesAlike(Listing(rel), s, streams) <==> SeenClashFree(rel, s, streams))
    ensures AreasRespected(streams) ==> forall rel :: MergesAlike(Filing(rel), s, streams)
    ensures AreasRespected(streams) ==> forall rel :: MergesAlike(Listing(rel), s, streams)
  {
    forall p, q | Complete(streams, p) && Complete(streams, q)
      ensures SameEntities(Merge(s, streams, p), Merge(s, streams, q))
    {
      EntityMergesAlike(s, streams, p, q);
    }
    HostMergesAlike(s, streams);
    forall rel | rel != AppsOnComponent
      ensures MergesAlike(Filing(rel), s, streams) <==> ClashFree(rel, s, streams)
      ensures MergesAlike(Listing(rel), s, streams) <==> SeenClashFree(rel, s, streams)
      ensures AreasRespected(streams) ==> ClashFree(rel, s, streams) && SeenClashFree(rel, s, streams)
    {
      AreaMergesAlike(rel, s, streams);
      AreaListingsAlike(rel, s, streams);
      if AreasRespected(streams) {
        RespectedIsClashFree(rel, s, streams);
      }
    }
  }

  /** These steps take a discovery task to the end of its streams. */
  ghost predicate Finished(streams: seq<seq<Item>>, start: Sys, steps: seq<TaskStep>) {
    CanRun(Launch(streams, start), steps) && CanStep(RunTask(Launch(streams, start), steps), EndOfStreams)
  }

  ghost function FinalState(streams: seq<seq<Item>>, start: Sys, steps: seq<TaskStep>): State
    requires Finished(streams, start, steps)
  {
    RunTask(Launch(streams, start), steps).topo.state
  }

  lemma WaitingState(streams: seq<seq<Item>>, start: Sys, t: Task)
    requires EventLog.Inv(start) && start.writer.None?
    requires TaskInv(streams, start, t) && t.phase.AwaitEvent?
    ensures Schedule(streams, t.picks) && t.topo.state == Merge(start.state, streams, t.picks)
  {
    IdleIsWholeDiffs(streams, start, t);
  }

  lemma EndedState(streams: seq<seq<Item>>, start: Sys, t: Task)
    requires EventLog.Inv(start) && start.writer.None?
    requires TaskInv(streams, start, t) && CanStep(t, EndOfStreams)
    ensures Complete(streams, t.picks) && t.topo.state == Merge(start.state, streams, t.picks)
  {
    WaitingState(streams, start, t);
  }

  lemma RunEnds(streams: seq<seq<Item>>, start: Sys, from: Task, steps: seq<TaskStep>)
    requires EventLog.Inv(start) && start.writer.None? && TaskInv(streams, start, from)
    requires CanRun(from, steps) && CanStep(RunTask(from, steps), EndOfStreams)
    ensures Complete(streams, RunTask(from, steps).picks)
    ensures RunTask(from, steps).topo.state == Merge(start.state, streams, RunTask(from, steps).picks)
  {
    RunKeepsInv(streams, start, from, steps);
    EndedState(streams, start, RunTask(from, steps));
  }

  lemma FinishedState(streams: seq<seq<Item>>, start: Sys, steps: seq<TaskStep>)
    requires EventLog.Inv(start) && start.writer.None? && Finished(streams, start, steps)
    ensures var picks := RunTask(Launch(streams, start), steps).picks;
            Complete(streams, picks) && FinalState(streams, start, steps) == Merge(start.state, streams, picks)
  {
    LaunchInv(streams, start);
    RunEnds(streams, start, Launch(streams, start), steps);
  }

  /** Every merge of the streams is the work of some finished task. */
  lemma SomeTaskMerges(streams: seq<seq<Item>>, start: Sys, picks: seq<nat>) returns (steps: seq<TaskStep>)
    requires EventLog.Inv(start) && start.writer.None? && Complete(streams, picks)
    ensures Finished(streams, start, steps)
    ensures FinalState(streams, start, steps) == Merge(start.state, streams, picks)
  {
    steps := RunTo(streams, start, picks);
    FinishedState(streams, start, steps);
  }

  /** All finished tasks over the same streams agree on an aspect. */
  ghost predicate TasksAlike(aspect: Aspect, streams: seq<seq<Item>>, start: Sys) {
    forall a, b | Finished(streams, start, a) && Finished(streams, start, b) ::
      Same(aspect, FinalState(streams, start, a), FinalState(streams, start, b))
  }

  lemma TasksAreMerges(aspect: Aspect, streams: seq<seq<Item>>, start: Sys)
    requires EventLog.Inv(start) && start.writer.None?
    ensures TasksAlike(aspect, streams, start) <==> MergesAlike(aspect, start.state, streams)
  {
    if MergesAlike(aspect, start.state, streams) {
      forall a, b | Finished(streams, start, a) && Finished(streams, start, b)
        ensures Same(aspect, FinalState(streams, start, a), FinalState(streams, start, b))
      {
        FinishedState(streams, start, a);
        FinishedState(streams, start, b);
      }
    }
    if TasksAlike(aspect, streams, start) {
      forall p, q | Complete(streams, p) && Complete(streams, q)
        ensures Same(aspect, Merge(start.state, streams, p), Merge(start.state, streams, q))
      {
        var a := SomeTaskMerges(streams, start, p);
        var b := SomeTaskMerges(streams, start, q);
      }
    }
  }

  /** Discovery tasks over the same streams, each run to the end of its streams under its
      own interleaving with readers, leave the same entities and hosts. They leave the same
      area indexes if and only if no two streams clash, and areas that list the same if and
      only if no two streams clash over an entity that is left present. */
  lemma FinishedTasksConverge(streams: seq<seq<Item>>, start: Sys)
    requires EventLog.Inv(start) && start.writer.None? && Disjoint(streams)
    ensures forall a, b | Finished(streams, start, a) && Finished(streams, start, b) ::
              SameEntities(FinalState(streams, start, a), FinalState(streams, start, b))
    ensures TasksAlike(Filing(AppsOnComponent), streams, start) && TasksAlike(Listing(AppsOnComponent), streams, start)
    ensures forall rel | rel != AppsOnComponent ::
              && (TasksAlike(Filing(rel), streams, start) <==> ClashFree(rel, start.state, streams))
              && (TasksAlike(Listing(rel), streams, start) <==> SeenClashFree(rel, start.state, streams))
  {
    IdleState(start);
    RunWellFormed(INIT, Concat(start.done));
    MergeOrderDoesNotMatter(start.state, streams);
    forall a, b | Finished(streams, start, a) && Finished(streams, start, b)
      ensures SameEntities(FinalState(streams, start, a), FinalState(streams, start, b))
    {
      FinishedState(streams, start, a);
      FinishedState(streams, start, b);
    }
    forall aspect: Aspect
      ensures TasksAlike(aspect, streams, start) <==> MergesAlike(aspect, start.state, streams)
    {
      TasksAreMerges(aspect, streams, start);
    }
  }

  const NOTHING := EntityCollection([], [], [])

  /** One provider removes area x, the other adds component c. */
  function Remover(x: string): seq<Item> {
    [Ok(Diff([EntityRef(AreaKind, x)], NOTHING))]
  }

  function Adder(c: Component): seq<Item> {
    [Ok(Diff([], NOTHING.(components := [c])))]
  }

  lemma OneItem(item: Item)
    ensures ItemsOps([item]) == ItemOps(item)
  {
    var none: seq<Item> := [];
    ItemAdds(none, item);
    assert none + [item] == [item];
    assert AllOps(OkDiffs(none)) == [];
    assert [] + ItemOps(item) == ItemOps(item);
  }

  lemma RemoverOps(x: string)
    ensures ItemsOps(Remover(x)) == [RemoveArea(x)]
  {
    var d := Diff([EntityRef(AreaKind, x)], NOTHING);
    assert DiffOps(d) == [RemoveArea(x)];
    OneItem(Ok(d));
  }

  lemma AdderOps(c: Component)
    ensures ItemsOps(Adder(c)) == [AddComponent(c)]
  {
    var d := Diff([], NOTHING.(components := [c]));
    assert DiffOps(d) == [AddComponent(c)];
    OneItem(Ok(d));
  }

  lemma TwoDisjoint(a: seq<Item>, b: seq<Item>, r: EntityRef, q: EntityRef)
    requires r != q
    requires (forall op | op in ItemsOps(a) :: RefOf(op) == r) && (forall op | op in ItemsOps(b) :: RefOf(op) == q)
    ensures Disjoint([a, b])
  {
    assert forall t | t in Touched(a) :: t == r;
    assert forall t | t in Touched(b) :: t == q;
    DisjointPair(a, b);
  }

  lemma DisjointPair(a: seq<Item>, b: seq<Item>)
    requires Touched(a) !! Touched(b)
    ensures Disjoint([a, b])
  {
  }

  lemma RemovesOne(s: State, y: string, x: string)
    ensures RemovesArea(s, [RemoveArea(y)], x) <==> x == y && x in s.areas.entries
  {
    var ops := [RemoveArea(y)];
    assert ops[..|ops| - 1] == [];
  }

  /** With two streams, of which only the second removes areas, a clash is of the first with it. */
  lemma PairClash(rel: Relation, s: State, a: seq<Item>, b: seq<Item>, i: nat, k: nat, id: string, x: string)
    requires !RemovesArea(s, ItemsOps(a), x)
    ensures Clash(rel, s, [a, b], i, k, id, x) <==>
            i == 0 && k == 1 && FilesForGood(rel, s, ItemsOps(a), id, x) && RemovesArea(s, ItemsOps(b), x)
  {
  }

  /** One provider's mutations, none of which removes an area, against the removal of x. */
  lemma AgainstRemover(s: State, a: seq<Item>, x: string, i: nat, k: nat, id: string, y: string)
    requires forall op | op in ItemsOps(a) :: !op.RemoveArea?
    ensures Clash(ComponentsInArea, s, [a, Remover(x)], i, k, id, y) <==>
            && i == 0 && k == 1 && y == x && x in s.areas.entries
            && FilesForGood(ComponentsInArea, s, ItemsOps(a), id, y)
  {
    if RemovesArea(s, ItemsOps(a), y) {
      RemovesByRemoval(s, ItemsOps(a), y);
      assert false;
    }
    RemoverOps(x);
    RemovesOne(s, x, y);
    PairClash(ComponentsInArea, s, a, Remover(x), i, k, id, y);
  }

  lemma AddsForGood(s: State, c: Component, id: string, x: string)
    ensures FilesForGood(ComponentsInArea, s, [AddComponent(c)], id, x) <==> c.id == id && c.areaId == Some(x)
    ensures Has(Run(s, [AddComponent(c)]), c.Ref())
  {
    var ops := [AddComponent(c)];
    assert ops[..|ops| - 1] == [];
  }

  lemma AdderClash(s: State, a: seq<Item>, x: string, c: Component)
    requires ItemsOps(a) == [AddComponent(c)] && c.areaId == Some(x)
    ensures x in s.areas.entries ==> SeenClashOver(ComponentsInArea, s, [a, Remover(x)], c.id, x)
    ensures x !in s.areas.entries ==> ClashFree(ComponentsInArea, s, [a, Remover(x)])
  {
    AddsForGood(s, c, c.id, x);
    if x in s.areas.entries {
      AgainstRemover(s, a, x, 0, 1, c.id, x);
      assert SeenClash(ComponentsInArea, s, [a, Remover(x)], 0, 1, c.id, x);
    } else {
      forall id, y ensures !ClashOver(ComponentsInArea, s, [a, Remover(x)], id, y) {
        if i: nat, k: nat :| Clash(ComponentsInArea, s, [a, Remover(x)], i, k, id, y) {
          AgainstRemover(s, a, x, i, k, id, y);
        }
      }
    }
  }

  lemma AdderDisjoint(a: seq<Item>, x: string, c: Component)
    requires ItemsOps(a) == [AddComponent(c)]
    ensures Disjoint([a, Remover(x)])
  {
    RemoverOps(x);
    TwoDisjoint(a, Remover(x), c.Ref(), EntityRef(AreaKind, x));
  }

  lemma RemovedAreaMatters(s: State, a: seq<Item>, x: string, c: Component)
    requires WellFormed(s) && ItemsOps(a) == [AddComponent(c)] && c.areaId == Some(x)
    ensures Disjoint([a, Remover(x)])
    ensures MergesAlike(Listing(ComponentsInArea), s, [a, Remover(x)]) <==> x !in s.areas.entries
    ensures MergesAlike(Filing(ComponentsInArea), s, [a, Remover(x)]) <==> x !in s.areas.entries
  {
    AdderDisjoint(a, x, c);
    AreaMergesAlike(ComponentsInArea, s, [a, Remover(x)]);
    AreaListingsAlike(ComponentsInArea, s, [a, Remover(x)]);
    AdderClash(s, a, x, c);
    if ClashFree(ComponentsInArea, s, [a, Remover(x)]) {
      ClashFreeSeen(ComponentsInArea, s, [a, Remover(x)]);
    }
  }

  /** Disjoint references are not enough for the areas: if one provider adds a component and
      another removes the area it names, all merges list the same in every area if and only
      if the area was not there in the first place; and the same goes for the index. */
  lemma RemovedAreaOrderMatters(s: State, x: string, c: Component)
    requires WellFormed(s) && c.areaId == Some(x)
    ensures Disjoint([Adder(c), Remover(x)])
    ensures MergesAlike(Listing(ComponentsInArea), s, [Adder(c), Remover(x)]) <==> x !in s.areas.entries
    ensures MergesAlike(Filing(ComponentsInArea), s, [Adder(c), Remover(x)]) <==> x !in s.areas.entries
  {
    AdderOps(c);
    RemovedAreaMatters(s, Adder(c), x, c);
  }

  /** One provider adds a component, adds it again without its area, and removes it. */
  function Flicker(c: Component): seq<Item> {
    Adder(c) + Adder(c.(areaId := None)) + [Ok(Diff([c.Ref()], NOTHING))]
  }

  function FlickerOps(c: Component): seq<Op> {
    [AddComponent(c), AddComponent(c.(areaId := None)), RemoveComponent(c.id)]
  }

  lemma FlickerMakes(c: Component)
    ensures ItemsOps(Flicker(c)) == FlickerOps(c)
  {
    var d := Diff([c.Ref()], NOTHING);
    assert DiffOps(d) == [RemoveComponent(c.id)];
    AdderOps(c);
    AdderOps(c.(areaId := None));
    OneItem(Ok(d));
    ItemsOpsConcat(Adder(c), Adder(c.(areaId := None)));
    ItemsOpsConcat(Adder(c) + Adder(c.(areaId := None)), [Ok(d)]);
  }

  lemma FlickerLeaves(s: State, c: Component, x: string)
    requires c.areaId == Some(x)
    ensures !Has(Run(s, FlickerOps(c)), c.Ref())
    ensures FilesForGood(ComponentsInArea, s, FlickerOps(c), c.id, x)
  {
    var bare := c.(areaId := None);
    var add, again, remove := AddComponent(c), AddComponent(bare), RemoveComponent(c.id);
    assert FlickerOps(c) == [add] + [again] + [remove];
    RunSnoc(s, [add] + [again], remove);
    RunSnoc(s, [add], again);
    RemoveOneHas(Run(s, [add] + [again]), c.Ref());
    AddsForGood(s, c, c.id, x);
    SnocParts(ComponentsInArea, s, [add], again, c.id, x);
    SnocParts(ComponentsInArea, s, [add] + [again], remove, c.id, x);
    assert Run(s, [add] + [again]).components.entries[c.id] == bare;
  }

  /** With a flickering stream every clash is over the component that is gone in the end. */
  lemma FlickerClash(s: State, a: seq<Item>, x: string, c: Component)
    requires ItemsOps(a) == FlickerOps(c) && c.areaId == Some(x) && x in s.areas.entries
    ensures Clash(ComponentsInArea, s, [a, Remover(x)], 0, 1, c.id, x)
    ensures forall i, k, id, y :: !SeenClash(ComponentsInArea, s, [a, Remover(x)], i, k, id, y)
  {
    FlickerLeaves(s, c, x);
    AgainstRemover(s, a, x, 0, 1, c.id, x);
    forall i: nat, k: nat, id, y ensures !SeenClash(ComponentsInArea, s, [a, Remover(x)], i, k, id, y) {
      AgainstRemover(s, a, x, i, k, id, y);
      if Clash(ComponentsInArea, s, [a, Remover(x)], i, k, id, y) {
        ForGoodFiles(ComponentsInArea, s, FlickerOps(c), id, y);
      }
    }
  }

  lemma FlickerDisjoint(a: seq<Item>, x: string, c: Component)
    requires ItemsOps(a) == FlickerOps(c)
    ensures Disjoint([a, Remover(x)])
  {
    RemoverOps(x);
    TwoDisjoint(a, Remover(x), c.Ref(), EntityRef(AreaKind, x));
  }

  /** A clash that no listing shows: the id of an absent component may or may not be left
      behind in the index, and queries skip it. */
  lemma UnseenClash(s: State, x: string, c: Component)
    requires WellFormed(s) && c.areaId == Some(x) && x in s.areas.entries
    ensures Disjoint([Flicker(c), Remover(x)])
    ensures !MergesAlike(Filing(ComponentsInArea), s, [Flicker(c), Remover(x)])
    ensures MergesAlike(Listing(ComponentsInArea), s, [Flicker(c), Remover(x)])
  {
    FlickerMakes(c);
    UnseenClashOf(s, Flicker(c), x, c);
  }

  lemma UnseenClashOf(s: State, a: seq<Item>, x: string, c: Component)
    requires WellFormed(s) && c.areaId == Some(x) && x in s.areas.entries && ItemsOps(a) == FlickerOps(c)
    ensures Disjoint([a, Remover(x)])
    ensures !MergesAlike(Filing(ComponentsInArea), s, [a, Remover(x)])
    ensures MergesAlike(Listing(ComponentsInArea), s, [a, Remover(x)])
  {
    FlickerDisjoint(a, x, c);
    FlickerClash(s, a, x, c);
    AreaMergesAlike(ComponentsInArea, s, [a, Remover(x)]);
    AreaListingsAlike(ComponentsInArea, s, [a, Remover(x)]);
    assert ClashOver(ComponentsInArea, s, [a, Remover(x)], c.id, x);
  }
}
