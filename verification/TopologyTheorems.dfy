/** What the relationship indexes promise over whole runs of a topology. */
module TopologyTheorems {
  import opened Wrappers
  import opened IndexMaps
  import opened Sequences
  import opened Entities
  import R = RelationIndex
  import opened TopologyModel

  datatype Relation = AppsOnComponent | ComponentsInArea | AppsInArea

  // ---------------------------------------------------------------- one relation of the topology

  function IndexOf(rel: Relation, s: State): map<string, IndexSet> {
    match rel
    case AppsOnComponent => s.appsByComponent
    case ComponentsInArea => s.componentsByArea
    case AppsInArea => s.appsByArea
  }

  function Labels(rel: Relation, s: State): map<string, Option<string>> {
    match rel
    case AppsOnComponent => map k | k in s.apps.entries :: s.apps.entries[k].ComponentId()
    case ComponentsInArea => map k | k in s.components.entries :: s.components.entries[k].areaId
    case AppsInArea => map k | k in s.apps.entries :: s.apps.entries[k].areaId
  }

  function Keys(rel: Relation, s: State): seq<string> {
    if rel == ComponentsInArea then s.components.keys else s.apps.keys
  }

  function Project(rel: Relation, s: State): R.Rel {
    R.Rel(Keys(rel, s), Labels(rel, s), IndexOf(rel, s))
  }

  function ProjectOp(rel: Relation, s: State, op: Op): R.RelOp {
    match (rel, op)
    case (AppsOnComponent, AddApp(a)) => R.Put(a.id, a.ComponentId())
    case (AppsOnComponent, RemoveApp(id)) => R.Del(id)
    case (AppsInArea, AddApp(a)) => R.Put(a.id, a.areaId)
    case (AppsInArea, RemoveApp(id)) => R.Del(id)
    case (ComponentsInArea, AddComponent(c)) => R.Put(c.id, c.areaId)
    case (ComponentsInArea, RemoveComponent(id)) => R.Del(id)
    case (AppsOnComponent, _) => R.Skip
    case (_, RemoveArea(x)) => if x in s.areas.entries then R.Drop(x) else R.Skip
    case (_, _) => R.Skip
  }

  lemma ApplyProjects(rel: Relation, s: State, op: Op)
    requires WellFormed(s)
    ensures Project(rel, Apply(s, op)) == R.Step(Project(rel, s), ProjectOp(rel, s, op))
  {
    match rel
    case AppsOnComponent => ApplyProjectsHosts(s, op);
    case ComponentsInArea => ApplyProjectsComponents(s, op);
    case AppsInArea => ApplyProjectsApps(s, op);
  }

  lemma ApplyProjectsHosts(s: State, op: Op)
    requires WellFormed(s)
    ensures Project(AppsOnComponent, Apply(s, op)) ==
              R.Step(Project(AppsOnComponent, s), ProjectOp(AppsOnComponent, s, op))
  {
    match op
    case AddApp(a) => AddAppProjectsHosts(s, a);
    case RemoveApp(id) => RemoveAppProjectsHosts(s, id);
    case _ =>
      assert Apply(s, op).apps == s.apps && Apply(s, op).appsByComponent == s.appsByComponent;
      assert Labels(AppsOnComponent, Apply(s, op)) == Labels(AppsOnComponent, s);
  }

  lemma AddAppProjectsHosts(s: State, a: App)
    ensures Project(AppsOnComponent, Apply(s, AddApp(a))) ==
              R.Step(Project(AppsOnComponent, s), R.Put(a.id, a.ComponentId()))
  {
    assert Labels(AppsOnComponent, Apply(s, AddApp(a))) == Labels(AppsOnComponent, s)[a.id := a.ComponentId()];
  }

  lemma RemoveAppProjectsHosts(s: State, id: string)
    ensures Project(AppsOnComponent, Apply(s, RemoveApp(id))) == R.Step(Project(AppsOnComponent, s), R.Del(id))
  {
    if id in s.apps.entries {
      assert Labels(AppsOnComponent, Apply(s, RemoveApp(id))) == Labels(AppsOnComponent, s) - {id};
    }
  }

  lemma ApplyProjectsComponents(s: State, op: Op)
    requires WellFormed(s)
    ensures Project(ComponentsInArea, Apply(s, op)) ==
              R.Step(Project(ComponentsInArea, s), ProjectOp(ComponentsInArea, s, op))
  {
    match op
    case AddComponent(c) => AddComponentProjects(s, c);
    case RemoveComponent(id) => RemoveComponentProjects(s, id);
    case _ =>
      assert Apply(s, op).components == s.components;
      assert Labels(ComponentsInArea, Apply(s, op)) == Labels(ComponentsInArea, s);
  }

  lemma AddComponentProjects(s: State, c: Component)
    ensures Project(ComponentsInArea, Apply(s, AddComponent(c))) ==
              R.Step(Project(ComponentsInArea, s), R.Put(c.id, c.areaId))
  {
    assert Labels(ComponentsInArea, Apply(s, AddComponent(c))) == Labels(ComponentsInArea, s)[c.id := c.areaId];
  }

  lemma RemoveComponentProjects(s: State, id: string)
    ensures Project(ComponentsInArea, Apply(s, RemoveComponent(id))) == R.Step(Project(ComponentsInArea, s), R.Del(id))
  {
    if id in s.components.entries {
      assert Labels(ComponentsInArea, Apply(s, RemoveComponent(id))) == Labels(ComponentsInArea, s) - {id};
    }
  }

  lemma ApplyProjectsApps(s: State, op: Op)
    requires WellFormed(s)
    ensures Project(AppsInArea, Apply(s, op)) == R.Step(Project(AppsInArea, s), ProjectOp(AppsInArea, s, op))
  {
    match op
    case AddApp(a) => AddAppProjects(s, a);
    case RemoveApp(id) => RemoveAppProjects(s, id);
    case _ => OtherProjects(s, op);
  }

  lemma AddAppProjects(s: State, a: App)
    ensures Project(AppsInArea, Apply(s, AddApp(a))) == R.Step(Project(AppsInArea, s), R.Put(a.id, a.areaId))
  {
    assert Labels(AppsInArea, Apply(s, AddApp(a))) == Labels(AppsInArea, s)[a.id := a.areaId];
  }

  lemma OtherProjects(s: State, op: Op)
    requires !op.AddApp? && !op.RemoveApp?
    ensures Project(AppsInArea, Apply(s, op)) == R.Step(Project(AppsInArea, s), ProjectOp(AppsInArea, s, op))
  {
    assert Apply(s, op).apps == s.apps;
    assert Labels(AppsInArea, Apply(s, op)) == Labels(AppsInArea, s);
  }

  lemma RemoveAppProjects(s: State, id: string)
    ensures Project(AppsInArea, Apply(s, RemoveApp(id))) == R.Step(Project(AppsInArea, s), R.Del(id))
  {
    if id in s.apps.entries {
      assert Labels(AppsInArea, Apply(s, RemoveApp(id))) == Labels(AppsInArea, s) - {id};
    }
  }

  function ProjectOps(rel: Relation, ops: seq<Op>): seq<R.RelOp> {
    if ops == [] then []
    else
      var pre := ops[..|ops| - 1];
      ProjectOps(rel, pre) + [ProjectOp(rel, Run(INIT, pre), ops[|ops| - 1])]
  }

  lemma {:induction false} ProjectOpsLength(rel: Relation, ops: seq<Op>)
    ensures |ProjectOps(rel, ops)| == |ops|
  {
    if ops != [] {
      ProjectOpsLength(rel, ops[..|ops| - 1]);
    }
  }

  lemma ProjectOpsLast(rel: Relation, pre: seq<Op>, op: Op)
    ensures ProjectOps(rel, pre + [op]) == ProjectOps(rel, pre) + [ProjectOp(rel, Run(INIT, pre), op)]
  {
    assert (pre + [op])[..|pre|] == pre;
  }

  lemma ProjectOpsAt(rel: Relation, ops: seq<Op>, i: nat)
    requires i < |ops| == |ProjectOps(rel, ops)|
    ensures ProjectOps(rel, ops)[i] == ProjectOp(rel, Run(INIT, ops[..i]), ops[i])
  {
    ProjectOpsPrefix(rel, ops, i + 1);
    ProjectOpsLength(rel, ops[..i]);
    PrefixStep(ops, i);
    ProjectOpsLast(rel, ops[..i], ops[i]);
    LastOfPrefix(ProjectOps(rel, ops), i, ProjectOps(rel, ops[..i]), ProjectOp(rel, Run(INIT, ops[..i]), ops[i]));
  }

  lemma {:induction false} ProjectOpsPrefix(rel: Relation, ops: seq<Op>, i: nat)
    requires i <= |ops| == |ProjectOps(rel, ops)|
    ensures ProjectOps(rel, ops)[..i] == ProjectOps(rel, ops[..i])
  {
    if i == |ops| {
      assert ops[..i] == ops;
    } else {
      var pre := ops[..|ops| - 1];
      ProjectOpsLength(rel, pre);
      ProjectOpsPrefix(rel, pre, i);
      assert pre[..i] == ops[..i];
    }
  }

  lemma {:induction false} RunProjects(rel: Relation, ops: seq<Op>)
    ensures Project(rel, Run(INIT, ops)) == R.Run(ProjectOps(rel, ops))
  {
    if ops == [] {
      assert Labels(rel, INIT) == map[];
    } else {
      var n := |ops| - 1;
      var s := Run(INIT, ops[..n]);
      RunProjects(rel, ops[..n]);
      RunWellFormed(INIT, ops[..n]);
      ApplyProjects(rel, s, ops[n]);
      R.RunSnoc(ProjectOps(rel, ops[..n]), ProjectOp(rel, s, ops[n]));
    }
  }

  // ---------------------------------------------------------------- queries against scans

  /** The relation queries return, in order, exactly what a filter of the entity listing returns. */
  ghost predicate QueriesAgree(rel: Relation, s: State) {
    match rel
    case AppsOnComponent => forall h :: AppsOfComponent(s, h) == AppsOnScan(s, h)
    case ComponentsInArea => forall x :: ComponentsOfArea(s, x) == ComponentsInScan(s, x)
    case AppsInArea => forall x :: AppsOfArea(s, x) == AppsInScan(s, x)
  }

  function AppsOnScan(s: State, h: string): seq<App> {
    Filter(Apps(s), (a: App) => a.isLocatedOn == h)
  }

  function ComponentsInScan(s: State, x: string): seq<Component> {
    Filter(Components(s), (c: Component) => c.areaId == Some(x))
  }

  function AppsInScan(s: State, x: string): seq<App> {
    Filter(Apps(s), (a: App) => a.areaId == Some(x))
  }

  lemma {:induction false} LookupPresent<V>(ids: seq<string>, m: map<string, V>)
    ensures Lookup(R.Present(ids, m.Keys), m) == Lookup(ids, m)
  {
    if ids != [] {
      LookupPresent(ids[1..], m);
      var rest := R.Present(ids[1..], m.Keys);
      if ids[0] in m {
        assert ([ids[0]] + rest)[1..] == rest;
      } else {
        assert [] + rest == rest;
      }
    }
  }

  lemma {:induction false} FilterLookup<V>(keys: seq<string>, m: map<string, V>, labels: map<string, Option<string>>,
          x: string, p: V -> bool)
    requires labels.Keys == m.Keys
    requires forall k | k in m :: p(m[k]) == R.Labelled(labels, x, k)
    ensures Filter(Lookup(keys, m), p) == Lookup(R.Pick(keys, labels, x), m)
  {
    if keys != [] {
      var k := keys[0];
      var rest := Lookup(keys[1..], m);
      FilterLookup(keys[1..], m, labels, x, p);
      assert Lookup(keys, m) == (if k in m then [m[k]] else []) + rest;
      if k in m {
        assert ([m[k]] + rest)[1..] == rest;
        var picked := R.Pick(keys[1..], labels, x);
        assert ([k] + picked)[1..] == picked;
        assert [] + picked == picked;
      } else {
        assert [] + rest == rest;
        assert [] + R.Pick(keys[1..], labels, x) == R.Pick(keys[1..], labels, x);
      }
    }
  }

  /** With entities that know their own key, a listing determines the ids it was read from. */
  lemma {:induction false} LookupInjective<V>(a: seq<string>, b: seq<string>, m: map<string, V>, idOf: V -> string)
    requires forall k | k in m :: idOf(m[k]) == k
    requires (forall k | k in a :: k in m) && (forall k | k in b :: k in m)
    requires Lookup(a, m) == Lookup(b, m)
    ensures a == b
  {
    LookupLength(a, m);
    LookupLength(b, m);
    if a != [] {
      assert a[0] in a && Lookup(a, m) == [m[a[0]]] + Lookup(a[1..], m);
      assert b[0] in b && Lookup(b, m) == [m[b[0]]] + Lookup(b[1..], m);
      assert Lookup(a, m)[0] == Lookup(b, m)[0];
      assert Lookup(a, m)[1..] == Lookup(a[1..], m);
      assert Lookup(b, m)[1..] == Lookup(b[1..], m);
      LookupInjective(a[1..], b[1..], m, idOf);
    }
  }

  lemma {:induction false} LookupLength<V>(ids: seq<string>, m: map<string, V>)
    requires forall k | k in ids :: k in m
    ensures |Lookup(ids, m)| == |ids|
  {
    if ids != [] {
      assert ids[0] in ids;
      LookupLength(ids[1..], m);
    }
  }

  /** Entity listings agree exactly when the id listings behind them do. */
  lemma ListingsMatch<V>(r: R.Rel, x: string, m: map<string, V>, p: V -> bool, idOf: V -> string)
    requires r.labels.Keys == m.Keys
    requires forall k | k in m :: p(m[k]) == R.Labelled(r.labels, x, k)
    requires forall k | k in m :: idOf(m[k]) == k
    ensures Lookup(R.Listed(r.index, x), m) == Filter(Lookup(r.keys, m), p) <==> R.Observed(r, x) == R.Scan(r, x)
  {
    LookupPresent(R.Listed(r.index, x), m);
    FilterLookup(r.keys, m, r.labels, x, p);
    R.PresentMember(R.Listed(r.index, x), m.Keys);
    R.PickMember(r.keys, r.labels, x);
    if Lookup(R.Observed(r, x), m) == Lookup(R.Scan(r, x), m) {
      LookupInjective(R.Observed(r, x), R.Scan(r, x), m, idOf);
    }
  }

  lemma QueriesMatch(rel: Relation, s: State)
    requires WellFormed(s)
    ensures QueriesAgree(rel, s) <==> R.Agrees(Project(rel, s))
  {
    var r := Project(rel, s);
    match rel
    case AppsOnComponent =>
      forall h ensures AppsOfComponent(s, h) == AppsOnScan(s, h) <==> R.Observed(r, h) == R.Scan(r, h) {
        ListingsMatch(r, h, s.apps.entries, (a: App) => a.isLocatedOn == h, (a: App) => a.id);
      }
    case ComponentsInArea =>
      forall x ensures ComponentsOfArea(s, x) == ComponentsInScan(s, x) <==> R.Observed(r, x) == R.Scan(r, x) {
        ListingsMatch(r, x, s.components.entries, (c: Component) => c.areaId == Some(x), (c: Component) => c.id);
      }
    case AppsInArea =>
      forall x ensures AppsOfArea(s, x) == AppsInScan(s, x) <==> R.Observed(r, x) == R.Scan(r, x) {
        ListingsMatch(r, x, s.apps.entries, (a: App) => a.areaId == Some(x), (a: App) => a.id);
      }
  }

  // ---------------------------------------------------------------- exact refinement over runs

  /** What a caller can check before a mutation so that a relation stays exact:
      re-adding keeps the host, or the area; an area may still be given to an entity
      that has none, when nothing listed after it is in that area; and an area is
      removed only when no entity names it. */
  ghost predicate Careful(rel: Relation, s: State, op: Op) {
    match (rel, op)
    case (AppsOnComponent, AddApp(a)) =>
      a.id in s.apps.entries ==> s.apps.entries[a.id].isLocatedOn == a.isLocatedOn
    case (ComponentsInArea, AddComponent(c)) =>
      c.id in s.components.entries ==>
        || s.components.entries[c.id].areaId == c.areaId
        || (s.components.entries[c.id].areaId == None && R.LastOf(Project(rel, s), c.id, c.areaId))
    case (AppsInArea, AddApp(a)) =>
      a.id in s.apps.entries ==>
        || s.apps.entries[a.id].areaId == a.areaId
        || (s.apps.entries[a.id].areaId == None && R.LastOf(Project(rel, s), a.id, a.areaId))
    case (ComponentsInArea, RemoveArea(x)) =>
      x in s.areas.entries ==> forall k | k in s.components.entries :: s.components.entries[k].areaId != Some(x)
    case (AppsInArea, RemoveArea(x)) =>
      x in s.areas.entries ==> forall k | k in s.apps.entries :: s.apps.entries[k].areaId != Some(x)
    case (_, _) => true
  }

  lemma CarefulProjects(rel: Relation, s: State, op: Op)
    ensures Careful(rel, s, op) <==> R.Careful(Project(rel, s), ProjectOp(rel, s, op))
  {
    if op.RemoveArea? && rel != AppsOnComponent && op.id in s.areas.entries {
      var l := Labels(rel, s);
      assert (forall k | k in l :: l[k] != Some(op.id)) <==> R.Careful(Project(rel, s), R.Drop(op.id));
      assert rel == ComponentsInArea ==> l.Keys == s.components.entries.Keys;
      assert rel == AppsInArea ==> l.Keys == s.apps.entries.Keys;
      assert Careful(rel, s, op) <==> forall k | k in l :: l[k] != Some(op.id);
    }
  }

  ghost predicate CarefulRun(rel: Relation, ops: seq<Op>) {
    forall i | 0 <= i < |ops| :: Careful(rel, Run(INIT, ops[..i]), ops[i])
  }

  ghost predicate AgreeThroughout(rel: Relation, ops: seq<Op>) {
    forall i | 0 <= i <= |ops| :: QueriesAgree(rel, Run(INIT, ops[..i]))
  }

  /** The refinement, exactly: the queries of a relation equal the ordered filters of the
      entity listing at every point of a run if and only if every mutation was careful. */
  lemma IndexRefinesScan(rel: Relation, ops: seq<Op>)
    ensures AgreeThroughout(rel, ops) <==> CarefulRun(rel, ops)
  {
    var rops := ProjectOps(rel, ops);
    ProjectOpsLength(rel, ops);
    forall i | 0 <= i <= |ops|
      ensures QueriesAgree(rel, Run(INIT, ops[..i])) <==> R.Agrees(R.Run(rops[..i]))
    {
      RunProjects(rel, ops[..i]);
      ProjectOpsPrefix(rel, ops, i);
      RunWellFormed(INIT, ops[..i]);
      QueriesMatch(rel, Run(INIT, ops[..i]));
    }
    forall i | 0 <= i < |ops|
      ensures Careful(rel, Run(INIT, ops[..i]), ops[i]) <==> R.Careful(R.Run(rops[..i]), rops[i])
    {
      RunProjects(rel, ops[..i]);
      ProjectOpsPrefix(rel, ops, i);
      ProjectOpsAt(rel, ops, i);
      CarefulProjects(rel, Run(INIT, ops[..i]), ops[i]);
    }
    R.RunExact(rops);
  }

  /** Re-adds of apps keep their host. */
  ghost predicate HostsKept(ops: seq<Op>) {
    forall i | 0 <= i < |ops| && ops[i].AddApp? ::
      var s := Run(INIT, ops[..i]);
      ops[i].app.id in s.apps.entries ==> s.apps.entries[ops[i].app.id].isLocatedOn == ops[i].app.isLocatedOn
  }

  /** Hosting: whatever component and area mutations interleave, the apps of every host are
      the filter of the app listing by that host, at every point of a run, if and only if
      re-added apps keep their host. */
  lemma HostedAppsAreTheScan(ops: seq<Op>)
    ensures AgreeThroughout(AppsOnComponent, ops) <==> HostsKept(ops)
  {
    IndexRefinesScan(AppsOnComponent, ops);
  }

  /** Re-adds keep the area, and an area is removed only when no entity names it. */
  ghost predicate AreasKept(ops: seq<Op>) {
    forall i | 0 <= i < |ops| ::
      var s := Run(INIT, ops[..i]);
      match ops[i]
      case AddComponent(c) => c.id in s.components.entries ==> s.components.entries[c.id].areaId == c.areaId
      case AddApp(a) => a.id in s.apps.entries ==> s.apps.entries[a.id].areaId == a.areaId
      case RemoveArea(x) => x in s.areas.entries ==>
        && (forall k | k in s.components.entries :: s.components.entries[k].areaId != Some(x))
        && (forall k | k in s.apps.entries :: s.apps.entries[k].areaId != Some(x))
      case _ => true
  }

  lemma AreaMembersAreTheScan(ops: seq<Op>)
    requires AreasKept(ops)
    ensures AgreeThroughout(ComponentsInArea, ops) && AgreeThroughout(AppsInArea, ops)
  {
    forall i | 0 <= i < |ops|
      ensures Careful(ComponentsInArea, Run(INIT, ops[..i]), ops[i])
      ensures Careful(AppsInArea, Run(INIT, ops[..i]), ops[i])
    {
      var s := Run(INIT, ops[..i]);
      assert match ops[i]
             case AddComponent(c) => c.id in s.components.entries ==> s.components.entries[c.id].areaId == c.areaId
             case AddApp(a) => a.id in s.apps.entries ==> s.apps.entries[a.id].areaId == a.areaId
             case RemoveArea(x) => x in s.areas.entries ==>
               && (forall k | k in s.components.entries :: s.components.entries[k].areaId != Some(x))
               && (forall k | k in s.apps.entries :: s.apps.entries[k].areaId != Some(x))
             case _ => true;
    }
    IndexRefinesScan(ComponentsInArea, ops);
    IndexRefinesScan(AppsInArea, ops);
  }

  // ---------------------------------------------------------------- history, with no discipline

  /** op files entity id under x. */
  predicate Files(rel: Relation, op: Op, id: string, x: string) {
    match rel
    case AppsOnComponent => op.AddApp? && op.app.id == id && op.app.isLocatedOn == x
    case ComponentsInArea => op.AddComponent? && op.component.id == id && op.component.areaId == Some(x)
    case AppsInArea => op.AddApp? && op.app.id == id && op.app.areaId == Some(x)
  }

  /** op, made in state s, takes entity id out of x: a removal of the entity made while it
      belonged to x, or a successful removal of the area x. */
  predicate TakesOut(rel: Relation, s: State, op: Op, id: string, x: string) {
    match rel
    case AppsOnComponent =>
      op == RemoveApp(id) && id in s.apps.entries && s.apps.entries[id].isLocatedOn == x
    case ComponentsInArea =>
      || (op == RemoveComponent(id) && id in s.components.entries && s.components.entries[id].areaId == Some(x))
      || (op == RemoveArea(x) && x in s.areas.entries)
    case AppsInArea =>
      || (op == RemoveApp(id) && id in s.apps.entries && s.apps.entries[id].areaId == Some(x))
      || (op == RemoveArea(x) && x in s.areas.entries)
  }

  /** id is filed under x in the index of the relation. */
  predicate Member(rel: Relation, s: State, id: string, x: string) {
    id in Filed(rel, s, x)
  }

  /** The ids filed under x. */
  function Filed(rel: Relation, s: State, x: string): IndexSet {
    R.Listed(IndexOf(rel, s), x)
  }

  /** The one-step law of every index: filing puts in, taking out takes out, the rest stays. */
  lemma ApplyMember(rel: Relation, s: State, op: Op, id: string, x: string)
    requires WellFormed(s)
    ensures Member(rel, Apply(s, op), id, x) <==>
            Files(rel, op, id, x) || (Member(rel, s, id, x) && !TakesOut(rel, s, op, id, x))
  {
    match rel
    case AppsOnComponent => ApplyHosted(s, op, id, x);
    case ComponentsInArea => ApplyComponentInArea(s, op, id, x);
    case AppsInArea => ApplyAppInArea(s, op, id, x);
  }

  lemma UnfileMember(index: map<string, IndexSet>, lab: Option<string>, k: string, id: string, x: string)
    requires R.IndexShape(index)
    ensures id in R.Listed(R.Unfile(index, lab, k), x) <==> id in R.Listed(index, x) && !(lab == Some(x) && k == id)
  {
    R.UnfileListed(index, lab, k, x);
    if lab == Some(x) && x in index {
      ShiftRemoveMember(index[x], k);
    }
  }

  lemma ApplyHosted(s: State, op: Op, id: string, x: string)
    requires WellFormed(s)
    ensures Member(AppsOnComponent, Apply(s, op), id, x) <==>
            Files(AppsOnComponent, op, id, x) ||
              (Member(AppsOnComponent, s, id, x) && !TakesOut(AppsOnComponent, s, op, id, x))
  {
    match op
    case AddApp(a) => R.FileListed(s.appsByComponent, a.ComponentId(), a.id, x);
    case RemoveApp(k) =>
      if k in s.apps.entries {
        UnfileMember(s.appsByComponent, s.apps.entries[k].ComponentId(), k, id, x);
      }
    case _ =>
  }

  lemma ApplyComponentInArea(s: State, op: Op, id: string, x: string)
    requires WellFormed(s)
    ensures Member(ComponentsInArea, Apply(s, op), id, x) <==>
            Files(ComponentsInArea, op, id, x) ||
              (Member(ComponentsInArea, s, id, x) && !TakesOut(ComponentsInArea, s, op, id, x))
  {
    match op
    case AddComponent(c) => R.FileListed(s.componentsByArea, c.areaId, c.id, x);
    case RemoveComponent(k) =>
      if k in s.components.entries {
        UnfileMember(s.componentsByArea, s.components.entries[k].areaId, k, id, x);
      }
    case _ =>
  }

  lemma ApplyAppInArea(s: State, op: Op, id: string, x: string)
    requires WellFormed(s)
    ensures Member(AppsInArea, Apply(s, op), id, x) <==>
            Files(AppsInArea, op, id, x) || (Member(AppsInArea, s, id, x) && !TakesOut(AppsInArea, s, op, id, x))
  {
    match op
    case AddApp(a) => R.FileListed(s.appsByArea, a.areaId, a.id, x);
    case RemoveApp(k) =>
      if k in s.apps.entries {
        UnfileMember(s.appsByArea, s.apps.entries[k].areaId, k, id, x);
      }
    case _ =>
  }

  /** Mutation i files id under x and nothing later takes it out. */
  ghost predicate FiledAndKept(rel: Relation, ops: seq<Op>, i: nat, id: string, x: string) {
    && i < |ops|
    && Files(rel, ops[i], id, x)
    && (forall j | i < j < |ops| :: !TakesOut(rel, Run(INIT, ops[..j]), ops[j], id, x))
  }

  /** Mutation i is the first of those: id has been filed under x since then. */
  ghost predicate FiledSince(rel: Relation, ops: seq<Op>, i: nat, id: string, x: string) {
    && FiledAndKept(rel, ops, i, id, x)
    && (forall h | 0 <= h < i :: !FiledAndKept(rel, ops, h, id, x))
  }

  lemma ClearsProjects(rel: Relation, s: State, op: Op, id: string, x: string)
    ensures TakesOut(rel, s, op, id, x) <==>
            ProjectOp(rel, s, op) == R.Drop(x) ||
              (ProjectOp(rel, s, op) == R.Del(id) && R.Labelled(Labels(rel, s), x, id))
  {
    match rel
    case AppsOnComponent =>
    case ComponentsInArea =>
    case AppsInArea =>
  }

  lemma TakesOutProjects(rel: Relation, ops: seq<Op>, j: nat, id: string, x: string)
    requires j < |ops| == |ProjectOps(rel, ops)|
    ensures TakesOut(rel, Run(INIT, ops[..j]), ops[j], id, x) <==> R.Clears(ProjectOps(rel, ops), j, id, x)
  {
    RunProjects(rel, ops[..j]);
    ProjectOpsAt(rel, ops, j);
    ProjectOpsPrefix(rel, ops, j);
    ClearsProjects(rel, Run(INIT, ops[..j]), ops[j], id, x);
  }

  lemma FilesProjects(rel: Relation, s: State, op: Op, id: string, x: string)
    ensures Files(rel, op, id, x) <==> ProjectOp(rel, s, op) == R.Put(id, Some(x))
  {
    match rel
    case AppsOnComponent =>
    case ComponentsInArea =>
    case AppsInArea =>
  }

  lemma FiledProjects(rel: Relation, ops: seq<Op>, i: nat, id: string, x: string)
    ensures FiledAndKept(rel, ops, i, id, x) <==> R.LivePut(ProjectOps(rel, ops), i, id, x)
  {
    var rops := ProjectOps(rel, ops);
    ProjectOpsLength(rel, ops);
    if i < |ops| {
      ProjectOpsAt(rel, ops, i);
      FilesProjects(rel, Run(INIT, ops[..i]), ops[i], id, x);
      forall j | i < j < |ops|
        ensures TakesOut(rel, Run(INIT, ops[..j]), ops[j], id, x) <==> R.Clears(rops, j, id, x)
      {
        TakesOutProjects(rel, ops, j, id, x);
      }
    }
  }

  /** The exact content of an index over arbitrary runs: id is filed under x if and only if
      some mutation filed it there and no later one took it out. */
  lemma IndexHistory(rel: Relation, ops: seq<Op>, id: string, x: string)
    ensures id in R.Listed(IndexOf(rel, Run(INIT, ops)), x) <==> exists i :: FiledAndKept(rel, ops, i, id, x)
  {
    var rops := ProjectOps(rel, ops);
    RunProjects(rel, ops);
    R.ListedHistory(rops, x);
    R.SinceLeast(rops, id, x);
    var rank := k => R.Since(rops, k, x);
    assert id in R.Listed(R.Run(rops).index, x) <==> rank(id).Some?;
    if i: nat :| R.LivePut(rops, i, id, x) {
      FiledProjects(rel, ops, i, id, x);
    }
    if i: nat :| FiledAndKept(rel, ops, i, id, x) {
      FiledProjects(rel, ops, i, id, x);
    }
  }

  /** The exact order of an index over arbitrary runs: ids stand in the order of the
      mutations since which each has been filed. */
  lemma IndexOrder(rel: Relation, ops: seq<Op>, x: string, p: nat, q: nat)
    requires p < q < |R.Listed(IndexOf(rel, Run(INIT, ops)), x)|
    ensures var l := R.Listed(IndexOf(rel, Run(INIT, ops)), x);
            exists i, j :: i < j && FiledSince(rel, ops, i, l[p], x) && FiledSince(rel, ops, j, l[q], x)
  {
    var rops := ProjectOps(rel, ops);
    RunProjects(rel, ops);
    R.ListedHistory(rops, x);
    var l := R.Listed(IndexOf(rel, Run(INIT, ops)), x);
    var rank := k => R.Since(rops, k, x);
    assert R.RankBelow(rank, l[p], l[q]);
    SinceProjects(rel, ops, l[p], x);
    SinceProjects(rel, ops, l[q], x);
  }

  lemma SinceProjects(rel: Relation, ops: seq<Op>, id: string, x: string)
    requires R.Since(ProjectOps(rel, ops), id, x).Some?
    ensures FiledSince(rel, ops, R.Since(ProjectOps(rel, ops), id, x).value, id, x)
  {
    var rops := ProjectOps(rel, ops);
    R.SinceLeast(rops, id, x);
    var i := R.Since(rops, id, x).value;
    FiledProjects(rel, ops, i, id, x);
    forall h: nat | h < i ensures !FiledAndKept(rel, ops, h, id, x) {
      FiledProjects(rel, ops, h, id, x);
    }
  }

  // ---------------------------------------------------------------- forward and backward queries

  /** In every reachable state, relation listings name present entities, each once. */
  lemma ListingsAreClean(rel: Relation, ops: seq<Op>, x: string)
    ensures var s := Run(INIT, ops);
            && WellFormed(s)
            && NoDup(R.Listed(IndexOf(rel, s), x))
            && (rel == AppsOnComponent ==>
                  NoDup(AppsOfComponent(s, x)) && forall a | a in AppsOfComponent(s, x) :: a in Apps(s))
            && (rel == ComponentsInArea ==>
                  NoDup(ComponentsOfArea(s, x)) && forall c | c in ComponentsOfArea(s, x) :: c in Components(s))
            && (rel == AppsInArea ==> NoDup(AppsOfArea(s, x)) && forall a | a in AppsOfArea(s, x) :: a in Apps(s))
  {
    RunWellFormed(INIT, ops);
    var s := Run(INIT, ops);
    match rel
    case AppsOnComponent => LookupClean(R.Listed(s.appsByComponent, x), s.apps, (a: App) => a.id);
    case ComponentsInArea => LookupClean(R.Listed(s.componentsByArea, x), s.components, (c: Component) => c.id);
    case AppsInArea => LookupClean(R.Listed(s.appsByArea, x), s.apps, (a: App) => a.id);
  }

  lemma {:induction false} LookupMember<V>(ids: seq<string>, m: map<string, V>)
    ensures forall v :: v in Lookup(ids, m) <==> exists k :: k in ids && k in m && m[k] == v
  {
    if ids != [] {
      LookupMember(ids[1..], m);
      assert forall k :: k in ids <==> k == ids[0] || k in ids[1..];
      forall v ensures v in Lookup(ids, m) <==> exists k :: k in ids && k in m && m[k] == v {
        if k :| k in ids && k in m && m[k] == v {
          if k in ids[1..] {
            assert v in Lookup(ids[1..], m);
          }
        }
      }
    }
  }

  lemma {:induction false} LookupNoDup<V>(ids: seq<string>, m: map<string, V>, idOf: V -> string)
    requires NoDup(ids)
    requires forall k | k in m :: idOf(m[k]) == k
    ensures NoDup(Lookup(ids, m))
  {
    if ids != [] {
      LookupNoDup(ids[1..], m, idOf);
      LookupMember(ids[1..], m);
      assert forall k | k in ids[1..] :: k != ids[0];
      assert ids[0] in m ==> m[ids[0]] !in Lookup(ids[1..], m);
    }
  }

  lemma LookupClean<V>(ids: seq<string>, m: IndexMap<V>, idOf: V -> string)
    requires NoDup(ids) && m.Valid()
    requires forall k | k in m.entries :: idOf(m.entries[k]) == k
    ensures NoDup(Lookup(ids, m.entries))
    ensures forall v | v in Lookup(ids, m.entries) :: v in m.Values()
  {
    LookupNoDup(ids, m.entries, idOf);
    LookupMember(ids, m.entries);
    LookupMember(m.keys, m.entries);
  }

  lemma {:induction false} HostsFiled(ops: seq<Op>)
    ensures R.Filed(Project(AppsOnComponent, Run(INIT, ops)))
  {
    if ops == [] {
      assert Labels(AppsOnComponent, INIT) == map[];
    } else {
      var n := |ops| - 1;
      var s := Run(INIT, ops[..n]);
      HostsFiled(ops[..n]);
      RunWellFormed(INIT, ops[..n]);
      ApplyProjects(AppsOnComponent, s, ops[n]);
      R.StepFiled(Project(AppsOnComponent, s), ProjectOp(AppsOnComponent, s, ops[n]));
    }
  }

  /** In every reachable state, an app whose host exists is listed among the apps of that host. */
  lemma HostedAppIsListed(ops: seq<Op>, id: string, c: Component)
    requires ComponentOfApp(Run(INIT, ops), id) == Ok(Some(c))
    ensures Run(INIT, ops).apps.entries[id] in AppsOfComponent(Run(INIT, ops), c.id)
  {
    var s := Run(INIT, ops);
    HostsFiled(ops);
    RunWellFormed(INIT, ops);
    assert s.apps.entries[id].isLocatedOn == c.id;
    assert id in Labels(AppsOnComponent, s) && Labels(AppsOnComponent, s)[id] == Some(c.id);
    LookupMember(R.Listed(s.appsByComponent, c.id), s.apps.entries);
  }

  /** With hosts kept, an app listed under a component is located there. */
  lemma ListedAppIsHosted(ops: seq<Op>, id: string, c: Component)
    requires HostsKept(ops)
    requires c in Components(Run(INIT, ops)) && id in Run(INIT, ops).apps.entries
    requires Run(INIT, ops).apps.entries[id] in AppsOfComponent(Run(INIT, ops), c.id)
    ensures ComponentOfApp(Run(INIT, ops), id) == Ok(Some(c))
  {
    var s := Run(INIT, ops);
    RunWellFormed(INIT, ops);
    HostedAppsAreTheScan(ops);
    assert ops[..|ops|] == ops;
    assert AppsOfComponent(s, c.id) == AppsOnScan(s, c.id);
    FilterMember(Apps(s), (a: App) => a.isLocatedOn == c.id);
    LookupMember(s.components.keys, s.components.entries);
  }

  /** With areas kept, a component is listed in an area exactly when its own area query says so. */
  lemma ComponentAreaConverse(ops: seq<Op>, id: string, area: Area)
    requires AreasKept(ops)
    requires id in Run(INIT, ops).components.entries
    requires area.id in Run(INIT, ops).areas.entries && Run(INIT, ops).areas.entries[area.id] == area
    ensures AreaOfComponent(Run(INIT, ops), id) == Ok(Some(area)) <==>
            Run(INIT, ops).components.entries[id] in ComponentsOfArea(Run(INIT, ops), area.id)
  {
    var s := Run(INIT, ops);
    AreaMembersAreTheScan(ops);
    RunWellFormed(INIT, ops);
    assert ops[..|ops|] == ops;
    assert QueriesAgree(ComponentsInArea, s);
    assert ComponentsOfArea(s, area.id) == ComponentsInScan(s, area.id);
    FilterMember(Components(s), (c: Component) => c.areaId == Some(area.id));
    LookupMember(s.components.keys, s.components.entries);
  }

  /** The same for apps. */
  lemma AppAreaConverse(ops: seq<Op>, id: string, area: Area)
    requires AreasKept(ops)
    requires id in Run(INIT, ops).apps.entries
    requires area.id in Run(INIT, ops).areas.entries && Run(INIT, ops).areas.entries[area.id] == area
    ensures AreaOfApp(Run(INIT, ops), id) == Ok(Some(area)) <==>
            Run(INIT, ops).apps.entries[id] in AppsOfArea(Run(INIT, ops), area.id)
  {
    var s := Run(INIT, ops);
    AreaMembersAreTheScan(ops);
    RunWellFormed(INIT, ops);
    assert ops[..|ops|] == ops;
    assert QueriesAgree(AppsInArea, s);
    assert AppsOfArea(s, area.id) == AppsInScan(s, area.id);
    FilterMember(Apps(s), (a: App) => a.areaId == Some(area.id));
    LookupMember(s.apps.keys, s.apps.entries);
  }

  /** Members of existing areas are filed there: components, and apps. */
  ghost predicate ComponentsFiled(s: State) {
    forall k | k in s.components.entries && AreaNamed(s, s.components.entries[k].areaId).Some? ::
      k in R.Listed(s.componentsByArea, s.components.entries[k].areaId.value)
  }

  ghost predicate AppsFiled(s: State) {
    forall k | k in s.apps.entries && AreaNamed(s, s.apps.entries[k].areaId).Some? ::
      k in R.Listed(s.appsByArea, s.apps.entries[k].areaId.value)
  }

  /** Every entity that names area x is filed there. */
  ghost predicate NamersFiled(s: State, x: string) {
    && (forall k | k in s.components.entries && s.components.entries[k].areaId == Some(x) ::
         k in R.Listed(s.componentsByArea, x))
    && (forall k | k in s.apps.entries && s.apps.entries[k].areaId == Some(x) :: k in R.Listed(s.appsByArea, x))
  }

  lemma FiledAfterAdd(s: State, op: Op)
    requires WellFormed(s) && ComponentsFiled(s) && AppsFiled(s) && (op.AddComponent? || op.AddApp?)
    ensures ComponentsFiled(Apply(s, op)) && AppsFiled(Apply(s, op))
  {
    var n := Apply(s, op);
    assert forall x :: AreaNamed(n, x) == AreaNamed(s, x);
  }

  lemma FiledAfterRemove(s: State, op: Op)
    requires WellFormed(s) && ComponentsFiled(s) && AppsFiled(s) && (op.RemoveComponent? || op.RemoveApp?)
    ensures ComponentsFiled(Apply(s, op)) && AppsFiled(Apply(s, op))
  {
    var n := Apply(s, op);
    assert forall x :: AreaNamed(n, x) == AreaNamed(s, x);
    if op.RemoveComponent? && op.id in s.components.entries {
      forall k | k in n.components.entries && AreaNamed(n, n.components.entries[k].areaId).Some?
        ensures k in R.Listed(n.componentsByArea, n.components.entries[k].areaId.value)
      {
        var x := n.components.entries[k].areaId.value;
        UnfileMember(s.componentsByArea, s.components.entries[op.id].areaId, op.id, k, x);
      }
    }
    if op.RemoveApp? && op.id in s.apps.entries {
      forall k | k in n.apps.entries && AreaNamed(n, n.apps.entries[k].areaId).Some?
        ensures k in R.Listed(n.appsByArea, n.apps.entries[k].areaId.value)
      {
        var x := n.apps.entries[k].areaId.value;
        UnfileMember(s.appsByArea, s.apps.entries[op.id].areaId, op.id, k, x);
      }
    }
  }

  lemma FiledAfterArea(s: State, op: Op)
    requires WellFormed(s) && ComponentsFiled(s) && AppsFiled(s) && (op.AddArea? || op.RemoveArea?)
    ensures ComponentsFiled(Apply(s, op)) && AppsFiled(Apply(s, op)) <==> (op.AddArea? ==> NamersFiled(s, op.area.id))
  {
    var n := Apply(s, op);
    if op.AddArea? {
      assert forall x: Option<string> :: AreaNamed(n, x).Some? <==> x == Some(op.area.id) || AreaNamed(s, x).Some?;
    } else {
      assert forall x: Option<string> :: AreaNamed(n, x).Some? ==> x != Some(op.id) && AreaNamed(s, x).Some?;
    }
  }

  /** Of the six mutations only `AddArea` can leave an entity out of the listing of the area
      its query answers: exactly when it brings in an area that some entity already names
      without being filed there. */
  lemma AreaMembersFiledStep(s: State, op: Op)
    requires WellFormed(s) && ComponentsFiled(s) && AppsFiled(s)
    ensures ComponentsFiled(Apply(s, op)) && AppsFiled(Apply(s, op)) <==> (op.AddArea? ==> NamersFiled(s, op.area.id))
  {
    match op
    case AddComponent(_) => FiledAfterAdd(s, op);
    case AddApp(_) => FiledAfterAdd(s, op);
    case RemoveComponent(_) => FiledAfterRemove(s, op);
    case RemoveApp(_) => FiledAfterRemove(s, op);
    case _ => FiledAfterArea(s, op);
  }

  /** op adds entity id, whatever area it names. */
  predicate Adds(rel: Relation, op: Op, id: string) {
    if rel == ComponentsInArea then op.AddComponent? && op.component.id == id else op.AddApp? && op.app.id == id
  }

  /** The run adds entity id after its last successful removal of the area x. */
  predicate AddedSinceRemoval(rel: Relation, ops: seq<Op>, id: string, x: string) {
    ops != [] &&
    var pre, last := ops[..|ops| - 1], ops[|ops| - 1];
    || Adds(rel, last, id)
    || (AddedSinceRemoval(rel, pre, id, x) && !(last == RemoveArea(x) && x in Run(INIT, pre).areas.entries))
  }

  lemma NamerStep(rel: Relation, s: State, op: Op, id: string, x: string)
    requires WellFormed(s) && rel != AppsOnComponent && R.Labelled(Labels(rel, Apply(s, op)), x, id)
    ensures Adds(rel, op, id) ==> Files(rel, op, id, x)
    ensures !Adds(rel, op, id) ==>
              && R.Labelled(Labels(rel, s), x, id)
              && (TakesOut(rel, s, op, id, x) <==> op == RemoveArea(x) && x in s.areas.entries)
  {
    match op
    case AddComponent(_) =>
    case AddApp(_) =>
    case AddArea(_) =>
    case RemoveComponent(_) =>
    case RemoveApp(_) =>
    case RemoveArea(_) =>
  }

  /** An entity that names area x is filed there exactly if it was added after the last
      removal of the area. */
  lemma {:induction false} NamerIsFiled(rel: Relation, ops: seq<Op>, id: string, x: string)
    requires rel != AppsOnComponent && R.Labelled(Labels(rel, Run(INIT, ops)), x, id)
    ensures Member(rel, Run(INIT, ops), id, x) <==> AddedSinceRemoval(rel, ops, id, x)
  {
    if ops != [] {
      var pre, last := ops[..|ops| - 1], ops[|ops| - 1];
      RunWellFormed(INIT, pre);
      ApplyMember(rel, Run(INIT, pre), last, id, x);
      NamerStep(rel, Run(INIT, pre), last, id, x);
      if !Adds(rel, last, id) {
        NamerIsFiled(rel, pre, id, x);
      }
    }
  }

  /** Every entity that names area x was added after the last removal of x. */
  ghost predicate NamersReadded(ops: seq<Op>, x: string) {
    var s := Run(INIT, ops);
    && (forall k | k in s.components.entries && s.components.entries[k].areaId == Some(x) ::
          AddedSinceRemoval(ComponentsInArea, ops, k, x))
    && (forall k | k in s.apps.entries && s.apps.entries[k].areaId == Some(x) ::
          AddedSinceRemoval(AppsInArea, ops, k, x))
  }

  lemma FiledIffReadded(ops: seq<Op>, x: string)
    ensures NamersFiled(Run(INIT, ops), x) <==> NamersReadded(ops, x)
  {
    var s := Run(INIT, ops);
    forall k | k in s.components.entries && s.components.entries[k].areaId == Some(x)
      ensures k in R.Listed(s.componentsByArea, x) <==> AddedSinceRemoval(ComponentsInArea, ops, k, x)
    {
      assert R.Labelled(Labels(ComponentsInArea, s), x, k);
      NamerIsFiled(ComponentsInArea, ops, k, x);
    }
    forall k | k in s.apps.entries && s.apps.entries[k].areaId == Some(x)
      ensures k in R.Listed(s.appsByArea, x) <==> AddedSinceRemoval(AppsInArea, ops, k, x)
    {
      assert R.Labelled(Labels(AppsInArea, s), x, k);
      NamerIsFiled(AppsInArea, ops, k, x);
    }
  }

  /** Whenever the area query of an entity answers x, the entity is listed in x. */
  ghost predicate AnswersListed(ops: seq<Op>) {
    var s := Run(INIT, ops);
    && (forall id, x: Area | AreaOfComponent(s, id) == Ok(Some(x)) ::
          s.components.entries[id] in ComponentsOfArea(s, x.id))
    && (forall id, x: Area | AreaOfApp(s, id) == Ok(Some(x)) :: s.apps.entries[id] in AppsOfArea(s, x.id))
  }

  lemma {:induction false} LookupHas<V>(ids: seq<string>, m: map<string, V>, id: string, idOf: V -> string)
    requires id in m && forall k | k in m :: idOf(m[k]) == k
    ensures m[id] in Lookup(ids, m) <==> id in ids
  {
    if ids != [] {
      LookupHas(ids[1..], m, id, idOf);
    }
  }

  lemma ComponentAnswers(s: State)
    requires WellFormed(s)
    ensures ComponentsFiled(s) <==>
            forall id, x: Area | AreaOfComponent(s, id) == Ok(Some(x)) ::
              s.components.entries[id] in ComponentsOfArea(s, x.id)
  {
    forall id: string, x: Area | id in s.components.entries
      ensures s.components.entries[id] in ComponentsOfArea(s, x.id) <==> id in R.Listed(s.componentsByArea, x.id)
    {
      LookupHas(R.Listed(s.componentsByArea, x.id), s.components.entries, id, (c: Component) => c.id);
    }
    forall id | id in s.components.entries && AreaNamed(s, s.components.entries[id].areaId).Some?
      ensures AreaNamed(s, s.components.entries[id].areaId).value.id == s.components.entries[id].areaId.value
      ensures AreaOfComponent(s, id) == Ok(Some(AreaNamed(s, s.components.entries[id].areaId).value))
    {
    }
  }

  lemma AppAnswers(s: State)
    requires WellFormed(s)
    ensures AppsFiled(s) <==>
            forall id, x: Area | AreaOfApp(s, id) == Ok(Some(x)) :: s.apps.entries[id] in AppsOfArea(s, x.id)
  {
    forall id: string, x: Area | id in s.apps.entries
      ensures s.apps.entries[id] in AppsOfArea(s, x.id) <==> id in R.Listed(s.appsByArea, x.id)
    {
      LookupHas(R.Listed(s.appsByArea, x.id), s.apps.entries, id, (a: App) => a.id);
    }
    forall id | id in s.apps.entries && AreaNamed(s, s.apps.entries[id].areaId).Some?
      ensures AreaNamed(s, s.apps.entries[id].areaId).value.id == s.apps.entries[id].areaId.value
      ensures AreaOfApp(s, id) == Ok(Some(AreaNamed(s, s.apps.entries[id].areaId).value))
    {
    }
  }

  lemma AnswersAreFiled(ops: seq<Op>)
    ensures AnswersListed(ops) <==> ComponentsFiled(Run(INIT, ops)) && AppsFiled(Run(INIT, ops))
  {
    RunWellFormed(INIT, ops);
    ComponentAnswers(Run(INIT, ops));
    AppAnswers(Run(INIT, ops));
  }

  ghost predicate ReaddedBefore(pre: seq<Op>, op: Op) {
    op.AddArea? ==> NamersReadded(pre, op.area.id)
  }

  ghost predicate AnswersListedThroughout(ops: seq<Op>) {
    forall i | 0 <= i <= |ops| :: AnswersListed(ops[..i])
  }

  ghost predicate ReaddedThroughout(ops: seq<Op>) {
    forall i | 0 <= i < |ops| :: ReaddedBefore(ops[..i], ops[i])
  }

  lemma ThroughoutSnoc(ops: seq<Op>)
    requires ops != []
    ensures var pre, last := ops[..|ops| - 1], ops[|ops| - 1];
            && (AnswersListedThroughout(ops) <==> AnswersListedThroughout(pre) && AnswersListed(ops))
            && (ReaddedThroughout(ops) <==> ReaddedThroughout(pre) && ReaddedBefore(pre, last))
            && (AnswersListedThroughout(pre) ==> AnswersListed(pre))
  {
    var pre := ops[..|ops| - 1];
    PrefixesSnoc(ops, pre, (o: seq<Op>) => AnswersListed(o));
    StepsSnoc(ops, pre, (o: seq<Op>, op: Op) => ReaddedBefore(o, op));
    assert pre[..|pre|] == pre;
  }

  lemma AnswersListedStep(ops: seq<Op>)
    requires ops != [] && AnswersListed(ops[..|ops| - 1])
    ensures AnswersListed(ops) <==> ReaddedBefore(ops[..|ops| - 1], ops[|ops| - 1])
  {
    var pre, last := ops[..|ops| - 1], ops[|ops| - 1];
    RunWellFormed(INIT, pre);
    AnswersAreFiled(pre);
    AnswersAreFiled(ops);
    AreaMembersFiledStep(Run(INIT, pre), last);
    if last.AddArea? {
      FiledIffReadded(pre, last.area.id);
    }
  }

  /** Over whole runs: at every point, every entity is listed in the area its area query
      answers, if and only if whenever an area is added, each entity that names it was last
      added after the last removal of that area. */
  lemma {:induction false} AreaMembersFiled(ops: seq<Op>)
    ensures AnswersListedThroughout(ops) <==> ReaddedThroughout(ops)
  {
    if ops == [] {
      AnswersAreFiled([]);
    } else {
      AreaMembersFiled(ops[..|ops| - 1]);
      ThroughoutSnoc(ops);
      if AnswersListedThroughout(ops[..|ops| - 1]) {
        AnswersListedStep(ops);
      }
    }
  }

  /** What a relation query lists under x belongs to x: its host is x, or it names area x. */
  ghost predicate ListsOnlyOwn(rel: Relation, s: State) {
    match rel
    case AppsOnComponent => forall h, a | a in AppsOfComponent(s, h) :: a.isLocatedOn == h
    case ComponentsInArea => forall x, c | c in ComponentsOfArea(s, x) :: c.areaId == Some(x)
    case AppsInArea => forall x, a | a in AppsOfArea(s, x) :: a.areaId == Some(x)
  }

  /** Every present entity filed under x carries the label x. */
  ghost predicate FiledOwn(rel: Relation, s: State, x: string) {
    forall id | Member(rel, s, id, x) && id in Labels(rel, s) :: Labels(rel, s)[id] == Some(x)
  }

  lemma {:induction false} LookupSource<V>(ids: seq<string>, m: map<string, V>, v: V) returns (k: string)
    requires v in Lookup(ids, m)
    ensures k in ids && k in m && m[k] == v
  {
    if ids[0] in m && m[ids[0]] == v {
      k := ids[0];
    } else {
      k := LookupSource(ids[1..], m, v);
    }
  }

  lemma LookupOwn<V>(rel: Relation, s: State, x: string, m: map<string, V>, p: V -> bool)
    requires Labels(rel, s).Keys == m.Keys
    requires forall k | k in m :: p(m[k]) == (Labels(rel, s)[k] == Some(x))
    ensures (forall v | v in Lookup(Filed(rel, s, x), m) :: p(v)) <==> FiledOwn(rel, s, x)
  {
    var ids := Filed(rel, s, x);
    LookupMember(ids, m);
    if FiledOwn(rel, s, x) {
      forall v | v in Lookup(ids, m) ensures p(v) {
        var k := LookupSource(ids, m, v);
        assert Member(rel, s, k, x) && k in Labels(rel, s);
      }
    }
    if forall v | v in Lookup(ids, m) :: p(v) {
      forall id | Member(rel, s, id, x) && id in Labels(rel, s) ensures Labels(rel, s)[id] == Some(x) {
        assert m[id] in Lookup(ids, m);
      }
    }
  }

  lemma ListsWhatIsFiled(rel: Relation, s: State)
    ensures ListsOnlyOwn(rel, s) <==> forall x :: FiledOwn(rel, s, x)
  {
    match rel
    case AppsOnComponent =>
      forall x ensures (forall a | a in AppsOfComponent(s, x) :: a.isLocatedOn == x) <==> FiledOwn(rel, s, x) {
        var p := (a: App) => a.isLocatedOn == x;
        LookupOwn(rel, s, x, s.apps.entries, p);
        assert AppsOfComponent(s, x) == Lookup(Filed(rel, s, x), s.apps.entries);
        assert forall a :: p(a) == (a.isLocatedOn == x);
      }
    case ComponentsInArea =>
      forall x ensures (forall c | c in ComponentsOfArea(s, x) :: c.areaId == Some(x)) <==> FiledOwn(rel, s, x) {
        var p := (c: Component) => c.areaId == Some(x);
        LookupOwn(rel, s, x, s.components.entries, p);
        assert ComponentsOfArea(s, x) == Lookup(Filed(rel, s, x), s.components.entries);
        assert forall c :: p(c) == (c.areaId == Some(x));
      }
    case AppsInArea =>
      forall x ensures (forall a | a in AppsOfArea(s, x) :: a.areaId == Some(x)) <==> FiledOwn(rel, s, x) {
        var p := (a: App) => a.areaId == Some(x);
        LookupOwn(rel, s, x, s.apps.entries, p);
        assert AppsOfArea(s, x) == Lookup(Filed(rel, s, x), s.apps.entries);
        assert forall a :: p(a) == (a.areaId == Some(x));
      }
  }

  /** The run has filed id under x and not taken it out since. */
  ghost predicate StillFiled(rel: Relation, ops: seq<Op>, id: string, x: string) {
    exists i :: FiledAndKept(rel, ops, i, id, x)
  }

  /** An addition after this run does not meet its entity still filed elsewhere. */
  ghost predicate MeetsNoOther(rel: Relation, pre: seq<Op>, op: Op) {
    forall x :: MeetsNoneAt(rel, pre, op, x)
  }

  /** It does not meet it still filed under x, unless it files it there again. */
  ghost predicate MeetsNoneAt(rel: Relation, pre: seq<Op>, op: Op, x: string) {
    forall id | Adds(rel, op, id) && !Files(rel, op, id, x) :: !StillFiled(rel, pre, id, x)
  }

  lemma LabelStep(rel: Relation, s: State, op: Op, id: string, x: string)
    ensures Adds(rel, op, id) ==>
              && (R.Labelled(Labels(rel, Apply(s, op)), x, id) <==> Files(rel, op, id, x))
              && !TakesOut(rel, s, op, id, x) && id in Labels(rel, Apply(s, op))
    ensures !Adds(rel, op, id) && id in Labels(rel, Apply(s, op)) ==>
              && id in Labels(rel, s) && Labels(rel, Apply(s, op))[id] == Labels(rel, s)[id]
              && !Files(rel, op, id, x)
  {
    match op
    case AddComponent(_) =>
    case AddApp(_) =>
    case AddArea(_) =>
    case RemoveComponent(_) =>
    case RemoveApp(_) =>
    case RemoveArea(_) =>
  }

  lemma FiledOwnStep(rel: Relation, s: State, op: Op, x: string)
    requires WellFormed(s) && FiledOwn(rel, s, x)
    ensures FiledOwn(rel, Apply(s, op), x) <==>
            forall id | Adds(rel, op, id) && !Files(rel, op, id, x) :: !Member(rel, s, id, x)
  {
    var n := Apply(s, op);
    forall id
      ensures (Member(rel, n, id, x) && id in Labels(rel, n) ==> Labels(rel, n)[id] == Some(x)) <==>
              (Adds(rel, op, id) && !Files(rel, op, id, x) ==> !Member(rel, s, id, x))
    {
      ApplyMember(rel, s, op, id, x);
      LabelStep(rel, s, op, id, x);
    }
  }

  lemma FiledOwnByHistory(rel: Relation, pre: seq<Op>, op: Op, x: string)
    requires FiledOwn(rel, Run(INIT, pre), x)
    ensures FiledOwn(rel, Apply(Run(INIT, pre), op), x) <==> MeetsNoneAt(rel, pre, op, x)
  {
    var s := Run(INIT, pre);
    RunWellFormed(INIT, pre);
    FiledOwnStep(rel, s, op, x);
    forall id ensures Member(rel, s, id, x) <==> StillFiled(rel, pre, id, x) {
      IndexHistory(rel, pre, id, x);
    }
  }

  lemma ListsOnlyOwnStep(rel: Relation, pre: seq<Op>, op: Op)
    requires ListsOnlyOwn(rel, Run(INIT, pre))
    ensures ListsOnlyOwn(rel, Apply(Run(INIT, pre), op)) <==> MeetsNoOther(rel, pre, op)
  {
    ListsWhatIsFiled(rel, Run(INIT, pre));
    ListsWhatIsFiled(rel, Apply(Run(INIT, pre), op));
    forall x ensures FiledOwn(rel, Apply(Run(INIT, pre), op), x) <==> MeetsNoneAt(rel, pre, op, x) {
      FiledOwnByHistory(rel, pre, op, x);
    }
  }

  ghost predicate ListsOnlyOwnThroughout(rel: Relation, ops: seq<Op>) {
    forall i | 0 <= i <= |ops| :: ListsOnlyOwn(rel, Run(INIT, ops[..i]))
  }

  ghost predicate MeetsNoOtherThroughout(rel: Relation, ops: seq<Op>) {
    forall i | 0 <= i < |ops| :: MeetsNoOther(rel, ops[..i], ops[i])
  }

  lemma OwnThroughoutSnoc(rel: Relation, ops: seq<Op>)
    requires ops != []
    ensures var pre := ops[..|ops| - 1];
            && (ListsOnlyOwnThroughout(rel, ops) <==>
                  ListsOnlyOwnThroughout(rel, pre) && ListsOnlyOwn(rel, Run(INIT, ops)))
            && (ListsOnlyOwnThroughout(rel, pre) ==> ListsOnlyOwn(rel, Run(INIT, pre)))
  {
    var pre := ops[..|ops| - 1];
    PrefixesSnoc(ops, pre, (o: seq<Op>) => ListsOnlyOwn(rel, Run(INIT, o)));
    assert pre[..|pre|] == pre;
  }

  lemma MeetsThroughoutSnoc(rel: Relation, ops: seq<Op>)
    requires ops != []
    ensures var pre, last := ops[..|ops| - 1], ops[|ops| - 1];
            MeetsNoOtherThroughout(rel, ops) <==> MeetsNoOtherThroughout(rel, pre) && MeetsNoOther(rel, pre, last)
  {
    StepsSnoc(ops, ops[..|ops| - 1], (o: seq<Op>, op: Op) => MeetsNoOther(rel, o, op));
  }

  /** The counterpart, for all three relations: at every point of a run queries list under x
      only what belongs to x, if and only if no addition of an entity meets it still filed
      under something else. */
  lemma {:induction false} ListedBelongs(rel: Relation, ops: seq<Op>)
    ensures ListsOnlyOwnThroughout(rel, ops) <==> MeetsNoOtherThroughout(rel, ops)
  {
    if ops == [] {
      ListsWhatIsFiled(rel, INIT);
    } else {
      var pre, last := ops[..|ops| - 1], ops[|ops| - 1];
      ListedBelongs(rel, pre);
      OwnThroughoutSnoc(rel, ops);
      MeetsThroughoutSnoc(rel, ops);
      if ListsOnlyOwnThroughout(rel, pre) {
        ListsOnlyOwnStep(rel, pre, last);
      }
    }
  }

  // ---------------------------------------------------------------- the gaps, concretely

  lemma LookupOne<V>(k: string, m: map<string, V>)
    requires k in m
    ensures Lookup([k], m) == [m[k]]
  {
    assert [k][1..] == [];
  }

  lemma FilterOne<T>(x: T, p: T -> bool)
    ensures Filter([x], p) == if p(x) then [x] else []
  {
    assert [x][1..] == [];
  }

  /** Re-adding an app on another host leaves it listed on the old one, where no filter puts it. */
  lemma RehostedAppStaysListed(a: App, b: App)
    requires a.id == b.id && a.isLocatedOn != b.isLocatedOn
    ensures var s := Run(INIT, [AddApp(a), AddApp(b)]);
            && AppsOfComponent(s, a.isLocatedOn) == [b]
            && AppsOnScan(s, a.isLocatedOn) == []
  {
    var ops := [AddApp(a), AddApp(b)];
    assert ops[..1] == [AddApp(a)] && ops[..1][..0] == [];
    assert Run(INIT, []) == INIT;
    var s1 := Run(INIT, ops[..1]);
    assert s1 == Apply(INIT, AddApp(a));
    var s := Run(INIT, ops);
    assert s == Apply(s1, AddApp(b));
    assert R.Listed(s.appsByComponent, a.isLocatedOn) == [a.id];
    assert s.apps.keys == [a.id];
    LookupOne(a.id, s.apps.entries);
    FilterOne(b, (app: App) => app.isLocatedOn == a.isLocatedOn);
  }

  /** A component that is given its area late is listed in the order of the additions to the
      area, not in the order of the components. */
  lemma LateComponentOutOfOrder(first: Component, other: Component, again: Component, x: string)
    requires first.id == again.id != other.id && first.areaId == None
    requires other.areaId == Some(x) && again.areaId == Some(x)
    ensures var s := Run(INIT, [AddComponent(first), AddComponent(other), AddComponent(again)]);
            && ComponentsOfArea(s, x) == [other, again]
            && ComponentsInScan(s, x) == [again, other]
  {
    var ops := [AddComponent(first), AddComponent(other), AddComponent(again)];
    assert ops[..2] == [AddComponent(first), AddComponent(other)];
    assert ops[..2][..1] == [AddComponent(first)] && ops[..2][..1][..0] == [];
    assert Run(INIT, []) == INIT;
    var s1 := Run(INIT, [AddComponent(first)]);
    assert s1 == Apply(INIT, AddComponent(first));
    var s2 := Run(INIT, ops[..2]);
    assert s2 == Apply(s1, AddComponent(other));
    var s := Run(INIT, ops);
    assert s == Apply(s2, AddComponent(again));
    assert s.components.keys == [first.id, other.id];
    assert R.Listed(s.componentsByArea, x) == [other.id, first.id];
    LookupTwo(other.id, first.id, s.components.entries);
    LookupTwo(first.id, other.id, s.components.entries);
    FilterBoth(again, other, (c: Component) => c.areaId == Some(x));
  }

  lemma LookupTwo<V>(j: string, k: string, m: map<string, V>)
    requires j in m && k in m
    ensures Lookup([j, k], m) == [m[j], m[k]]
  {
    assert [j, k][1..] == [k];
    LookupOne(k, m);
  }

  lemma FilterBoth<T>(x: T, y: T, p: T -> bool)
    requires p(x) && p(y)
    ensures Filter([x, y], p) == [x, y]
  {
    assert [x, y][1..] == [y];
    FilterOne(y, p);
  }

  /** After an area is removed and added again, a component that still names it is said to
      be in the area while the area lists nothing. */
  lemma ReaddedAreaListsNothing(first: Area, again: Area, c: Component)
    requires first.id == again.id && c.areaId == Some(again.id)
    ensures var s := Run(INIT, [AddArea(first), AddComponent(c), RemoveArea(again.id), AddArea(again)]);
            && AreaOfComponent(s, c.id) == Ok(Some(again))
            && ComponentsOfArea(s, again.id) == []
            && ComponentsInScan(s, again.id) == [c]
  {
    var ops := [AddArea(first), AddComponent(c), RemoveArea(again.id), AddArea(again)];
    assert ops[..3] == [AddArea(first), AddComponent(c), RemoveArea(again.id)];
    assert ops[..3][..2] == [AddArea(first), AddComponent(c)];
    assert ops[..3][..2][..1] == [AddArea(first)] && ops[..3][..2][..1][..0] == [];
    assert Run(INIT, []) == INIT;
    var s1 := Run(INIT, [AddArea(first)]);
    assert s1 == Apply(INIT, AddArea(first));
    var s2 := Run(INIT, ops[..3][..2]);
    assert s2 == Apply(s1, AddComponent(c));
    var s3 := Run(INIT, ops[..3]);
    assert s3 == Apply(s2, RemoveArea(again.id));
    var s := Run(INIT, ops);
    assert s == Apply(s3, AddArea(again));
    assert s.components.keys == [c.id];
    LookupOne(c.id, s.components.entries);
    FilterOne(c, (d: Component) => d.areaId == Some(again.id));
  }

  /** The same for an app. */
  lemma ReaddedAreaListsNoApp(first: Area, again: Area, a: App)
    requires first.id == again.id && a.areaId == Some(again.id)
    ensures var s := Run(INIT, [AddArea(first), AddApp(a), RemoveArea(again.id), AddArea(again)]);
            && AreaOfApp(s, a.id) == Ok(Some(again))
            && AppsOfArea(s, again.id) == []
            && AppsInScan(s, again.id) == [a]
  {
    var ops := [AddArea(first), AddApp(a), RemoveArea(again.id), AddArea(again)];
    assert ops[..3] == [AddArea(first), AddApp(a), RemoveArea(again.id)];
    assert ops[..3][..2] == [AddArea(first), AddApp(a)];
    assert ops[..3][..2][..1] == [AddArea(first)] && ops[..3][..2][..1][..0] == [];
    assert Run(INIT, []) == INIT;
    var s1 := Run(INIT, [AddArea(first)]);
    assert s1 == Apply(INIT, AddArea(first));
    var s2 := Run(INIT, ops[..3][..2]);
    assert s2 == Apply(s1, AddApp(a));
    var s3 := Run(INIT, ops[..3]);
    assert s3 == Apply(s2, RemoveArea(again.id));
    var s := Run(INIT, ops);
    assert s == Apply(s3, AddArea(again));
    assert s.apps.keys == [a.id];
    LookupOne(a.id, s.apps.entries);
    FilterOne(a, (b: App) => b.areaId == Some(again.id));
  }
}
