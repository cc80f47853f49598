/** What the lookups of a topology answer, in terms of the mutations made so far alone. */
module TopologyQueries {
  import opened Wrappers
  import opened IndexMaps
  import opened Entities
  import opened TopologyModel
  import opened TopologyTheorems

  /** The last mutation that names the entity r. */
  function LastOn(ops: seq<Op>, r: EntityRef): Option<Op> {
    if ops == [] then None
    else if Names(ops[|ops| - 1], r) then Some(ops[|ops| - 1])
    else LastOn(ops[..|ops| - 1], r)
  }

  predicate Names(op: Op, r: EntityRef) {
    match op
    case AddComponent(c) => r == EntityRef(ComponentKind, c.id)
    case AddApp(a) => r == EntityRef(AppKind, a.id)
    case AddArea(a) => r == EntityRef(AreaKind, a.id)
    case RemoveComponent(id) => r == EntityRef(ComponentKind, id)
    case RemoveApp(id) => r == EntityRef(AppKind, id)
    case RemoveArea(id) => r == EntityRef(AreaKind, id)
  }

  /** The component last added under id and not removed since. */
  function LastComponentAdded(ops: seq<Op>, id: string): Option<Component> {
    match LastOn(ops, EntityRef(ComponentKind, id))
    case Some(AddComponent(c)) => Some(c)
    case _ => None
  }

  function LastAppAdded(ops: seq<Op>, id: string): Option<App> {
    match LastOn(ops, EntityRef(AppKind, id))
    case Some(AddApp(a)) => Some(a)
    case _ => None
  }

  function LastAreaAdded(ops: seq<Op>, id: string): Option<Area> {
    match LastOn(ops, EntityRef(AreaKind, id))
    case Some(AddArea(a)) => Some(a)
    case _ => None
  }

  lemma ComponentStep(s: State, op: Op, id: string)
    ensures At(Apply(s, op).components, id) ==
            if !Names(op, EntityRef(ComponentKind, id)) then At(s.components, id)
            else match op
              case AddComponent(e) => Some(e)
              case _ => None
  {
    match op
    case AddComponent(_) =>
    case AddApp(_) =>
    case AddArea(_) =>
    case RemoveComponent(_) =>
    case RemoveApp(_) =>
    case RemoveArea(_) =>
  }

  lemma {:induction false} LastComponentPresent(ops: seq<Op>, id: string)
    ensures At(Run(INIT, ops).components, id) == LastComponentAdded(ops, id)
  {
    if ops != [] {
      var pre, last := ops[..|ops| - 1], ops[|ops| - 1];
      LastComponentPresent(pre, id);
      ComponentStep(Run(INIT, pre), last, id);
    }
  }

  lemma AppStep(s: State, op: Op, id: string)
    ensures At(Apply(s, op).apps, id) ==
            if !Names(op, EntityRef(AppKind, id)) then At(s.apps, id)
            else match op
              case AddApp(e) => Some(e)
              case _ => None
  {
    match op
    case AddComponent(_) =>
    case AddApp(_) =>
    case AddArea(_) =>
    case RemoveComponent(_) =>
    case RemoveApp(_) =>
    case RemoveArea(_) =>
  }

  lemma {:induction false} LastAppPresent(ops: seq<Op>, id: string)
    ensures At(Run(INIT, ops).apps, id) == LastAppAdded(ops, id)
  {
    if ops != [] {
      var pre, last := ops[..|ops| - 1], ops[|ops| - 1];
      LastAppPresent(pre, id);
      AppStep(Run(INIT, pre), last, id);
    }
  }

  lemma AreaStep(s: State, op: Op, id: string)
    ensures At(Apply(s, op).areas, id) ==
            if !Names(op, EntityRef(AreaKind, id)) then At(s.areas, id)
            else match op
              case AddArea(e) => Some(e)
              case _ => None
  {
    match op
    case AddComponent(_) =>
    case AddApp(_) =>
    case AddArea(_) =>
    case RemoveComponent(_) =>
    case RemoveApp(_) =>
    case RemoveArea(_) =>
  }

  lemma {:induction false} LastAreaPresent(ops: seq<Op>, id: string)
    ensures At(Run(INIT, ops).areas, id) == LastAreaAdded(ops, id)
  {
    if ops != [] {
      var pre, last := ops[..|ops| - 1], ops[|ops| - 1];
      LastAreaPresent(pre, id);
      AreaStep(Run(INIT, pre), last, id);
    }
  }

  /** A lookup finds exactly the entity last added under the id and not removed since; a
      miss names the id and the kind that was asked for. */
  lemma LookupsAnswer(ops: seq<Op>, id: string)
    ensures var s := Run(INIT, ops);
            && (forall c :: GetComponent(s, id) == Ok(c) <==> LastComponentAdded(ops, id) == Some(c))
            && (forall a :: GetApp(s, id) == Ok(a) <==> LastAppAdded(ops, id) == Some(a))
            && (forall a :: GetArea(s, id) == Ok(a) <==> LastAreaAdded(ops, id) == Some(a))
            && (forall e :: GetComponent(s, id) == Err(e) <==>
                  LastComponentAdded(ops, id) == None && e == NotFound(EntityRef(ComponentKind, id)))
            && (forall e :: GetApp(s, id) == Err(e) <==>
                  LastAppAdded(ops, id) == None && e == NotFound(EntityRef(AppKind, id)))
            && (forall e :: GetArea(s, id) == Err(e) <==>
                  LastAreaAdded(ops, id) == None && e == NotFound(EntityRef(AreaKind, id)))
  {
    LastComponentPresent(ops, id);
    LastAppPresent(ops, id);
    LastAreaPresent(ops, id);
  }

  /** The last mutation on component id added it with area x, and the last on that area added x. */
  predicate ComponentNames(ops: seq<Op>, id: string, x: Area) {
    && LastComponentAdded(ops, id).Some?
    && LastComponentAdded(ops, id).value.areaId == Some(x.id)
    && LastAreaAdded(ops, x.id) == Some(x)
  }

  predicate AppNames(ops: seq<Op>, id: string, x: Area) {
    && LastAppAdded(ops, id).Some?
    && LastAppAdded(ops, id).value.areaId == Some(x.id)
    && LastAreaAdded(ops, x.id) == Some(x)
  }

  predicate AppSitsOn(ops: seq<Op>, id: string, c: Component) {
    && LastAppAdded(ops, id).Some?
    && LastAppAdded(ops, id).value.isLocatedOn == c.id
    && LastComponentAdded(ops, c.id) == Some(c)
  }

  lemma {:induction false} LastAddedId(ops: seq<Op>, id: string)
    ensures LastComponentAdded(ops, id).Some? ==> LastComponentAdded(ops, id).value.id == id
    ensures LastAppAdded(ops, id).Some? ==> LastAppAdded(ops, id).value.id == id
    ensures LastAreaAdded(ops, id).Some? ==> LastAreaAdded(ops, id).value.id == id
  {
    if ops != [] {
      LastAddedId(ops[..|ops| - 1], id);
    }
  }

  /** What an entity that names area x, or none, is answered. */
  lemma AreaNamedByRun(ops: seq<Op>, area: Option<string>)
    ensures forall x :: AreaNamed(Run(INIT, ops), area) == Some(x) <==>
              area == Some(x.id) && LastAreaAdded(ops, x.id) == Some(x)
  {
    if area.Some? {
      LastAreaPresent(ops, area.value);
      LastAddedId(ops, area.value);
    }
  }

  /** The area query of a component, over every run: it answers the area x exactly if the
      component was last added naming it and x was last added under that id; a miss exactly
      if the component is absent; and no area otherwise. */
  lemma AreaOfComponentAnswers(ops: seq<Op>, id: string)
    ensures var r := AreaOfComponent(Run(INIT, ops), id);
            && (forall x :: r == Ok(Some(x)) <==> ComponentNames(ops, id, x))
            && (forall e :: r == Err(e) <==>
                  LastComponentAdded(ops, id) == None && e == NotFound(EntityRef(ComponentKind, id)))
            && (r == Ok(None) <==> LastComponentAdded(ops, id).Some? && forall x :: !ComponentNames(ops, id, x))
  {
    LookupsAnswer(ops, id);
    if LastComponentAdded(ops, id).Some? {
      AreaNamedByRun(ops, LastComponentAdded(ops, id).value.areaId);
      var found := AreaNamed(Run(INIT, ops), LastComponentAdded(ops, id).value.areaId);
      assert forall x :: found == Some(x) <==> ComponentNames(ops, id, x);
      assert found == None || found == Some(found.value);
    }
  }

  /** The same for apps. */
  lemma AreaOfAppAnswers(ops: seq<Op>, id: string)
    ensures var r := AreaOfApp(Run(INIT, ops), id);
            && (forall x :: r == Ok(Some(x)) <==> AppNames(ops, id, x))
            && (forall e :: r == Err(e) <==>
                  LastAppAdded(ops, id) == None && e == NotFound(EntityRef(AppKind, id)))
            && (r == Ok(None) <==> LastAppAdded(ops, id).Some? && forall x :: !AppNames(ops, id, x))
  {
    LookupsAnswer(ops, id);
    if LastAppAdded(ops, id).Some? {
      AreaNamedByRun(ops, LastAppAdded(ops, id).value.areaId);
      var found := AreaNamed(Run(INIT, ops), LastAppAdded(ops, id).value.areaId);
      assert forall x :: found == Some(x) <==> AppNames(ops, id, x);
      assert found == None || found == Some(found.value);
    }
  }

  /** The host query of an app, likewise. */
  lemma ComponentOfAppAnswers(ops: seq<Op>, id: string)
    ensures var r := ComponentOfApp(Run(INIT, ops), id);
            && (forall c :: r == Ok(Some(c)) <==> AppSitsOn(ops, id, c))
            && (forall e :: r == Err(e) <==>
                  LastAppAdded(ops, id) == None && e == NotFound(EntityRef(AppKind, id)))
            && (r == Ok(None) <==> LastAppAdded(ops, id).Some? && forall c :: !AppSitsOn(ops, id, c))
  {
    LookupsAnswer(ops, id);
    if LastAppAdded(ops, id).Some? {
      var host := LastAppAdded(ops, id).value.isLocatedOn;
      LastComponentPresent(ops, host);
      LastAddedId(ops, host);
      var found := At(Run(INIT, ops).components, host);
      assert forall c :: found == Some(c) <==> AppSitsOn(ops, id, c);
      assert found == None || found == Some(found.value);
    }
  }
}
