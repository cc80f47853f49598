/** One discovery diff: references to remove, then entities to add, applied under one guard. */
module Diffs {
  import opened Wrappers
  import opened IndexMaps
  import opened Entities
  import opened TopologyModel
  import opened Topologies
  import opened Sequences

  datatype Diff = Diff(remove: seq<EntityRef>, add: EntityCollection)

  function RemoveOp(r: EntityRef): Op {
    match r.kind
    case ComponentKind => RemoveComponent(r.id)
    case AppKind => RemoveApp(r.id)
    case AreaKind => RemoveArea(r.id)
  }

  function RemoveOps(refs: seq<EntityRef>): seq<Op> {
    seq(|refs|, i requires 0 <= i < |refs| => RemoveOp(refs[i]))
  }

  function ComponentOps(cs: seq<Component>): seq<Op> {
    seq(|cs|, i requires 0 <= i < |cs| => AddComponent(cs[i]))
  }

  function AppOps(apps: seq<App>): seq<Op> {
    seq(|apps|, i requires 0 <= i < |apps| => AddApp(apps[i]))
  }

  function AreaOps(areas: seq<Area>): seq<Op> {
    seq(|areas|, i requires 0 <= i < |areas| => AddArea(areas[i]))
  }

  function AddOps(add: EntityCollection): seq<Op> {
    ComponentOps(add.components) + AppOps(add.apps) + AreaOps(add.areas)
  }

  function DiffOps(d: Diff): seq<Op> {
    RemoveOps(d.remove) + AddOps(d.add)
  }

  // ---------------------------------------------------------------- the loops

  /** The guard has brought the topology from s, and its batch from `batch`, by these mutations. */
  ghost predicate Advanced(guard: TopologyWriteGuard, s: State, batch: seq<Event>, ops: seq<Op>)
    reads guard, guard.topology.state
  {
    && guard.topology.state.Valid()
    && guard.topology.state.Snapshot() == Run(s, ops)
    && guard.pending == batch + Events(s, ops)
  }

  lemma PrefixGrows(s: State, batch: seq<Event>, ops: seq<Op>, i: nat)
    requires i < |ops|
    ensures Run(s, ops[..i + 1]) == Apply(Run(s, ops[..i]), ops[i])
    ensures batch + Events(s, ops[..i + 1]) == (batch + Events(s, ops[..i])) + EventsOf(Run(s, ops[..i]), ops[i])
  {
    assert ops[..i + 1] == ops[..i] + [ops[i]];
    RunSnoc(s, ops[..i], ops[i]);
    Assoc(batch, Events(s, ops[..i]), EventsOf(Run(s, ops[..i]), ops[i]));
  }

  method RemoveOne(guard: TopologyWriteGuard, r: EntityRef)
    requires guard.topology.state.Valid()
    modifies guard.topology.state, guard`pending
    ensures guard.topology.state.Valid()
    ensures guard.topology.state.Snapshot() == Apply(old(guard.topology.state.Snapshot()), RemoveOp(r))
    ensures guard.pending == old(guard.pending) + EventsOf(old(guard.topology.state.Snapshot()), RemoveOp(r))
  {
    match r.kind {
      case ComponentKind => guard.RemoveComponent(r.id);
      case AppKind => guard.RemoveApp(r.id);
      case AreaKind => guard.RemoveArea(r.id);
    }
  }

  method RemoveAll(guard: TopologyWriteGuard, remove: seq<EntityRef>)
    requires guard.topology.state.Valid()
    modifies guard.topology.state, guard`pending
    ensures Advanced(guard, old(guard.topology.state.Snapshot()), old(guard.pending), RemoveOps(remove))
  {
    ghost var s, batch, ops := guard.topology.state.Snapshot(), guard.pending, RemoveOps(remove);
    assert ops[..0] == [] && ops[..|remove|] == ops;
    for i := 0 to |remove|
      invariant Advanced(guard, s, batch, ops[..i])
    {
      PrefixGrows(s, batch, ops, i);
      RemoveOne(guard, remove[i]);
    }
  }

  method AddComponents(guard: TopologyWriteGuard, components: seq<Component>)
    requires guard.topology.state.Valid()
    modifies guard.topology.state, guard`pending
    ensures Advanced(guard, old(guard.topology.state.Snapshot()), old(guard.pending), ComponentOps(components))
  {
    ghost var s, batch, ops := guard.topology.state.Snapshot(), guard.pending, ComponentOps(components);
    assert ops[..0] == [] && ops[..|components|] == ops;
    for i := 0 to |components|
      invariant Advanced(guard, s, batch, ops[..i])
    {
      PrefixGrows(s, batch, ops, i);
      guard.AddComponent(components[i]);
    }
  }

  method AddApps(guard: TopologyWriteGuard, apps: seq<App>)
    requires guard.topology.state.Valid()
    modifies guard.topology.state, guard`pending
    ensures Advanced(guard, old(guard.topology.state.Snapshot()), old(guard.pending), AppOps(apps))
  {
    ghost var s, batch, ops := guard.topology.state.Snapshot(), guard.pending, AppOps(apps);
    assert ops[..0] == [] && ops[..|apps|] == ops;
    for i := 0 to |apps|
      invariant Advanced(guard, s, batch, ops[..i])
    {
      PrefixGrows(s, batch, ops, i);
      guard.AddApp(apps[i]);
    }
  }

  method AddAreas(guard: TopologyWriteGuard, areas: seq<Area>)
    requires guard.topology.state.Valid()
    modifies guard.topology.state, guard`pending
    ensures Advanced(guard, old(guard.topology.state.Snapshot()), old(guard.pending), AreaOps(areas))
  {
    ghost var s, batch, ops := guard.topology.state.Snapshot(), guard.pending, AreaOps(areas);
    assert ops[..0] == [] && ops[..|areas|] == ops;
    for i := 0 to |areas|
      invariant Advanced(guard, s, batch, ops[..i])
    {
      PrefixGrows(s, batch, ops, i);
      guard.AddArea(areas[i]);
    }
  }

  /** A diff takes the write lock, removes, adds components, apps and areas, and drops the guard. */
  method ApplyDiff(topology: Topology, d: Diff)
    requires topology.state.Valid()
    modifies topology.state, topology`log
    ensures topology.state.Valid()
    ensures topology.state.Snapshot() == Run(old(topology.state.Snapshot()), DiffOps(d))
    ensures topology.log == old(topology.log) + Events(old(topology.state.Snapshot()), DiffOps(d))
  {
    ghost var s := topology.state.Snapshot();
    ghost var r, c, a, x := RemoveOps(d.remove), ComponentOps(d.add.components), AppOps(d.add.apps),
      AreaOps(d.add.areas);
    RunFour(s, r, c, a, x);
    var guard := new TopologyWriteGuard(topology);
    RemoveAll(guard, d.remove);
    AddComponents(guard, d.add.components);
    AddApps(guard, d.add.apps);
    AddAreas(guard, d.add.areas);
    guard.Drop();
  }

  lemma RunThree(s: State, c: seq<Op>, a: seq<Op>, x: seq<Op>)
    ensures Run(s, c + a + x) == Run(Run(Run(s, c), a), x)
    ensures Events(s, c + a + x) == Events(s, c) + Events(Run(s, c), a) + Events(Run(Run(s, c), a), x)
  {
    RunConcat(s, c + a, x);
    RunConcat(s, c, a);
  }

  lemma RunFour(s: State, r: seq<Op>, c: seq<Op>, a: seq<Op>, x: seq<Op>)
    ensures Run(s, r + (c + a + x)) == Run(Run(Run(Run(s, r), c), a), x)
    ensures Events(s, r + (c + a + x)) ==
            [] + Events(s, r) + Events(Run(s, r), c) + Events(Run(Run(s, r), c), a) +
              Events(Run(Run(Run(s, r), c), a), x)
  {
    RunConcat(s, r, c + a + x);
    RunThree(Run(s, r), c, a, x);
    Regroup(Events(s, r), Events(Run(s, r), c), Events(Run(Run(s, r), c), a), Events(Run(Run(Run(s, r), c), a), x));
  }

  lemma Regroup<T>(a: seq<T>, b: seq<T>, c: seq<T>, d: seq<T>)
    ensures a + (b + c + d) == [] + a + b + c + d
  {
  }

  // ---------------------------------------------------------------- the batch of a diff

  /** The references of `refs` that are in `live`, each at its first occurrence. */
  function FirstPresent(refs: seq<EntityRef>, live: set<EntityRef>): seq<EntityRef> {
    if refs == [] then []
    else
      var pre, last := refs[..|refs| - 1], refs[|refs| - 1];
      FirstPresent(pre, live) + (if last in live && last !in pre then [last] else [])
  }

  lemma {:induction false} FirstPresentIs(refs: seq<EntityRef>, live: set<EntityRef>)
    ensures forall r :: r in FirstPresent(refs, live) <==> r in refs && r in live
    ensures forall p, q | 0 <= p < q < |FirstPresent(refs, live)| ::
              FirstBefore(refs, FirstPresent(refs, live)[p], FirstPresent(refs, live)[q])
  {
    if refs != [] {
      var n := |refs| - 1;
      var pre, last := refs[..n], refs[n];
      assert refs == pre + [last];
      FirstPresentIs(pre, live);
      var was, l := FirstPresent(pre, live), FirstPresent(refs, live);
      forall p, q | 0 <= p < q < |l| ensures FirstBefore(refs, l[p], l[q]) {
        assert l[p] == was[p] && was[p] in was;
        if q < |was| {
          assert l[q] == was[q] && FirstBefore(pre, was[p], was[q]);
          FirstBeforeLonger(refs, l[p], l[q]);
        } else {
          NewComesLast(refs, l[p]);
        }
      }
    }
  }

  function AddedAll(refs: seq<EntityRef>): seq<Event> {
    seq(|refs|, i requires 0 <= i < |refs| => Added(refs[i]))
  }

  function RemovedAll(refs: seq<EntityRef>): seq<Event> {
    seq(|refs|, i requires 0 <= i < |refs| => Removed(refs[i]))
  }

  lemma HasIsRef(s: State, r: EntityRef)
    ensures Has(s, r) <==> r in Refs(s)
  {
  }

  lemma RemoveOpsSnoc(refs: seq<EntityRef>)
    requires refs != []
    ensures RemoveOps(refs) == RemoveOps(refs[..|refs| - 1]) + [RemoveOp(refs[|refs| - 1])]
  {
  }

  lemma {:induction false} RemovalsLeave(s: State, refs: seq<EntityRef>, r: EntityRef)
    ensures Has(Run(s, RemoveOps(refs)), r) <==> Has(s, r) && r !in refs
  {
    if refs != [] {
      var pre, last := refs[..|refs| - 1], refs[|refs| - 1];
      RemovalsLeave(s, pre, r);
      RemoveOpsSnoc(refs);
      RunSnoc(s, RemoveOps(pre), RemoveOp(last));
      RemoveOneHas(Run(s, RemoveOps(pre)), last);
      MemberSnoc(refs, r);
    }
  }

  lemma RemovalEvents(s: State, pre: seq<EntityRef>, last: EntityRef)
    ensures EventsOf(Run(s, RemoveOps(pre)), RemoveOp(last)) ==
              RemovedAll(if last in Refs(s) && last !in pre then [last] else [])
  {
    HasIsRef(s, last);
    RemovalsLeave(s, pre, last);
    assert RefOf(RemoveOp(last)) == last;
  }

  lemma {:induction false} RemovalsBatch(s: State, refs: seq<EntityRef>)
    ensures Events(s, RemoveOps(refs)) == RemovedAll(FirstPresent(refs, Refs(s)))
  {
    if refs != [] {
      var pre, last := refs[..|refs| - 1], refs[|refs| - 1];
      var more := if last in Refs(s) && last !in pre then [last] else [];
      RemovalsBatch(s, pre);
      RemoveOpsSnoc(refs);
      RunSnoc(s, RemoveOps(pre), RemoveOp(last));
      RemovalEvents(s, pre, last);
      RemovedAllConcat(FirstPresent(pre, Refs(s)), more);
      assert FirstPresent(refs, Refs(s)) == FirstPresent(pre, Refs(s)) + more;
    }
  }

  lemma RemovedAllConcat(a: seq<EntityRef>, b: seq<EntityRef>)
    ensures RemovedAll(a + b) == RemovedAll(a) + RemovedAll(b)
  {
  }

  lemma RemoveOneHas(s: State, last: EntityRef)
    ensures forall r :: Has(Apply(s, RemoveOp(last)), r) <==> Has(s, r) && r != last
  {
    match last.kind
    case ComponentKind =>
    case AppKind =>
    case AreaKind =>
  }

  function OpRefs(ops: seq<Op>): seq<EntityRef> {
    seq(|ops|, i requires 0 <= i < |ops| => RefOf(ops[i]))
  }

  lemma AddedAllSnoc(ops: seq<Op>)
    requires ops != []
    ensures AddedAll(OpRefs(ops)) == AddedAll(OpRefs(ops[..|ops| - 1])) + [Added(RefOf(ops[|ops| - 1]))]
  {
  }

  lemma {:induction false} AdditionEvents(s: State, ops: seq<Op>)
    requires forall op | op in ops :: IsAdd(op)
    ensures Events(s, ops) == AddedAll(OpRefs(ops))
  {
    if ops != [] {
      var pre, last := ops[..|ops| - 1], ops[|ops| - 1];
      assert last in ops && forall op | op in pre :: op in ops;
      AdditionEvents(s, pre);
      AddedAllSnoc(ops);
      assert EventsOf(Run(s, pre), last) == [Added(RefOf(last))];
    }
  }

  lemma {:induction false} AdditionsLeave(s: State, ops: seq<Op>, r: EntityRef)
    requires forall op | op in ops :: IsAdd(op)
    ensures Has(Run(s, ops), r) <==> Has(s, r) || exists op :: op in ops && RefOf(op) == r
  {
    if ops != [] {
      var pre, last := ops[..|ops| - 1], ops[|ops| - 1];
      assert ops == pre + [last];
      AdditionsLeave(s, pre, r);
      AddOneHas(Run(s, pre), last);
    }
  }

  lemma AddOneHas(s: State, op: Op)
    requires IsAdd(op)
    ensures forall r :: Has(Apply(s, op), r) <==> Has(s, r) || r == RefOf(op)
  {
    match op
    case AddComponent(_) =>
    case AddApp(_) =>
    case AddArea(_) =>
  }

  /** The references of a collection: those of its components, then its apps, then its areas. */
  lemma RefsInOrder(add: EntityCollection)
    ensures var n, m := |add.components|, |add.components| + |add.apps|;
            && |add.EntityRefs()| == m + |add.areas|
            && (forall i | 0 <= i < n :: add.EntityRefs()[i] == EntityRef(ComponentKind, add.components[i].id))
            && (forall i | n <= i < m :: add.EntityRefs()[i] == EntityRef(AppKind, add.apps[i - n].id))
            && (forall i | m <= i < m + |add.areas| :: add.EntityRefs()[i] == EntityRef(AreaKind, add.areas[i - m].id))
  {
  }

  lemma AddOpsRefs(add: EntityCollection)
    ensures |AddOps(add)| == |add.EntityRefs()|
    ensures forall i | 0 <= i < |AddOps(add)| :: IsAdd(AddOps(add)[i]) && RefOf(AddOps(add)[i]) == add.EntityRefs()[i]
  {
  }

  lemma AddOpsMembers(add: EntityCollection, r: EntityRef)
    ensures forall op | op in AddOps(add) :: IsAdd(op)
    ensures (exists op :: op in AddOps(add) && RefOf(op) == r) <==> r in add.EntityRefs()
  {
    AddOpsRefs(add);
    if r in add.EntityRefs() {
      var i :| 0 <= i < |add.EntityRefs()| && add.EntityRefs()[i] == r;
      assert AddOps(add)[i] in AddOps(add);
    }
  }

  /** The effect of one diff on presence and on the log: what is present afterwards is what
      was, minus the removed, plus the added; the batch is one `Removed` for each distinct
      reference that was present, at its first occurrence, then one `Added` for every
      entity of the collection, in the order of its references. */
  lemma DiffBatch(s: State, d: Diff)
    ensures Refs(Run(s, DiffOps(d))) == (Refs(s) - (set r | r in d.remove)) + (set r | r in d.add.EntityRefs())
    ensures Events(s, DiffOps(d)) == RemovedAll(FirstPresent(d.remove, Refs(s))) + AddedAll(d.add.EntityRefs())
  {
    var mid := Run(s, RemoveOps(d.remove));
    RunConcat(s, RemoveOps(d.remove), AddOps(d.add));
    RemovalsBatch(s, d.remove);
    AddedBatch(mid, d.add);
    forall r ensures r in Refs(Run(s, DiffOps(d))) <==> (r in Refs(s) && r !in d.remove) || r in d.add.EntityRefs() {
      HasIsRef(s, r);
      HasIsRef(Run(s, DiffOps(d)), r);
      RemovalsLeave(s, d.remove, r);
      AddOpsMembers(d.add, r);
      AdditionsLeave(mid, AddOps(d.add), r);
    }
  }

  lemma AddedBatch(s: State, add: EntityCollection)
    ensures Events(s, AddOps(add)) == AddedAll(add.EntityRefs())
  {
    AddOpsRefs(add);
    assert OpRefs(AddOps(add)) == add.EntityRefs();
    AdditionEvents(s, AddOps(add));
  }

  // ---------------------------------------------------------------- the values after a diff

  /** What the last addition of a component, app or area with this id carries, if there is one. */
  function LastComponent(cs: seq<Component>, id: string): Option<Component> {
    if cs == [] then None
    else if cs[|cs| - 1].id == id then Some(cs[|cs| - 1])
    else LastComponent(cs[..|cs| - 1], id)
  }

  function LastApp(apps: seq<App>, id: string): Option<App> {
    if apps == [] then None
    else if apps[|apps| - 1].id == id then Some(apps[|apps| - 1])
    else LastApp(apps[..|apps| - 1], id)
  }

  function LastArea(areas: seq<Area>, id: string): Option<Area> {
    if areas == [] then None
    else if areas[|areas| - 1].id == id then Some(areas[|areas| - 1])
    else LastArea(areas[..|areas| - 1], id)
  }

  lemma {:induction false} RemovedValues(s: State, refs: seq<EntityRef>)
    ensures var t := Run(s, RemoveOps(refs));
            && (forall k :: At(t.components, k) ==
                  if EntityRef(ComponentKind, k) in refs then None else At(s.components, k))
            && (forall k :: At(t.apps, k) == if EntityRef(AppKind, k) in refs then None else At(s.apps, k))
            && (forall k :: At(t.areas, k) == if EntityRef(AreaKind, k) in refs then None else At(s.areas, k))
  {
    if refs != [] {
      var pre, last := refs[..|refs| - 1], refs[|refs| - 1];
      RemovedValues(s, pre);
      assert RemoveOps(refs) == RemoveOps(pre) + [RemoveOp(last)];
      RunSnoc(s, RemoveOps(pre), RemoveOp(last));
      assert forall r :: r in refs <==> r in pre || r == last;
      RemovedValue(Run(s, RemoveOps(pre)), last);
    }
  }

  lemma RemovedValue(s: State, last: EntityRef)
    ensures var t := Apply(s, RemoveOp(last));
            && (forall k :: At(t.components, k) ==
                  if EntityRef(ComponentKind, k) == last then None else At(s.components, k))
            && (forall k :: At(t.apps, k) == if EntityRef(AppKind, k) == last then None else At(s.apps, k))
            && (forall k :: At(t.areas, k) == if EntityRef(AreaKind, k) == last then None else At(s.areas, k))
  {
    match last.kind
    case ComponentKind =>
    case AppKind =>
    case AreaKind =>
  }

  function Or<V>(first: Option<V>, otherwise: Option<V>): Option<V> {
    if first.Some? then first else otherwise
  }

  lemma AddedValue(s: State, op: Op)
    ensures op.AddComponent? ==>
              && Apply(s, op).apps == s.apps && Apply(s, op).areas == s.areas
              && forall k :: At(Apply(s, op).components, k) ==
                   if k == op.component.id then Some(op.component) else At(s.components, k)
    ensures op.AddApp? ==>
              && Apply(s, op).components == s.components && Apply(s, op).areas == s.areas
              && forall k :: At(Apply(s, op).apps, k) == if k == op.app.id then Some(op.app) else At(s.apps, k)
    ensures op.AddArea? ==>
              && Apply(s, op).components == s.components && Apply(s, op).apps == s.apps
              && forall k :: At(Apply(s, op).areas, k) == if k == op.area.id then Some(op.area) else At(s.areas, k)
  {
  }

  lemma {:induction false} AddedComponents(s: State, cs: seq<Component>)
    ensures var t := Run(s, ComponentOps(cs));
            && t.apps == s.apps && t.areas == s.areas
            && forall k :: At(t.components, k) == Or(LastComponent(cs, k), At(s.components, k))
  {
    if cs != [] {
      var pre, last := cs[..|cs| - 1], cs[|cs| - 1];
      AddedComponents(s, pre);
      assert ComponentOps(cs) == ComponentOps(pre) + [AddComponent(last)];
      RunSnoc(s, ComponentOps(pre), AddComponent(last));
      AddedValue(Run(s, ComponentOps(pre)), AddComponent(last));
    }
  }

  lemma {:induction false} AddedApps(s: State, apps: seq<App>)
    ensures var t := Run(s, AppOps(apps));
            && t.components == s.components && t.areas == s.areas
            && forall k :: At(t.apps, k) == Or(LastApp(apps, k), At(s.apps, k))
  {
    if apps != [] {
      var pre, last := apps[..|apps| - 1], apps[|apps| - 1];
      AddedApps(s, pre);
      assert AppOps(apps) == AppOps(pre) + [AddApp(last)];
      RunSnoc(s, AppOps(pre), AddApp(last));
      AddedValue(Run(s, AppOps(pre)), AddApp(last));
    }
  }

  lemma {:induction false} AddedAreas(s: State, areas: seq<Area>)
    ensures var t := Run(s, AreaOps(areas));
            && t.components == s.components && t.apps == s.apps
            && forall k :: At(t.areas, k) == Or(LastArea(areas, k), At(s.areas, k))
  {
    if areas != [] {
      var pre, last := areas[..|areas| - 1], areas[|areas| - 1];
      AddedAreas(s, pre);
      assert AreaOps(areas) == AreaOps(pre) + [AddArea(last)];
      RunSnoc(s, AreaOps(pre), AddArea(last));
      AddedValue(Run(s, AreaOps(pre)), AddArea(last));
    }
  }

  /** The value of every entity after one diff: the last one added under its id, else
      nothing if it was removed, else what it was. */
  lemma DiffValues(s: State, d: Diff)
    ensures var t := Run(s, DiffOps(d));
            && (forall k :: At(t.components, k) ==
                  Or(LastComponent(d.add.components, k),
                     if EntityRef(ComponentKind, k) in d.remove then None else At(s.components, k)))
            && (forall k :: At(t.apps, k) ==
                  Or(LastApp(d.add.apps, k), if EntityRef(AppKind, k) in d.remove then None else At(s.apps, k)))
            && (forall k :: At(t.areas, k) ==
                  Or(LastArea(d.add.areas, k), if EntityRef(AreaKind, k) in d.remove then None else At(s.areas, k)))
  {
    var r, c, a, x := RemoveOps(d.remove), ComponentOps(d.add.components), AppOps(d.add.apps), AreaOps(d.add.areas);
    assert DiffOps(d) == r + c + a + x;
    RunConcat(s, r + c + a, x);
    RunConcat(s, r + c, a);
    RunConcat(s, r, c);
    RemovedValues(s, d.remove);
    AddedComponents(Run(s, r), d.add.components);
    AddedApps(Run(s, r + c), d.add.apps);
    AddedAreas(Run(s, r + c + a), d.add.areas);
  }
}
