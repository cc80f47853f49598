/** The topology as a value: three insertion-ordered entity maps, three relationship
    indexes, the six mutations, the queries, and the events each mutation emits. */
module TopologyModel {
  import opened Wrappers
  import opened IndexMaps
  import opened Sequences
  import opened Entities
  import opened RelationIndex

  datatype State = State(
    components: IndexMap<Component>,
    apps: IndexMap<App>,
    areas: IndexMap<Area>,
    appsByComponent: map<string, IndexSet>,
    componentsByArea: map<string, IndexSet>,
    appsByArea: map<string, IndexSet>)

  const INIT := State(IndexMap([], map[]), IndexMap([], map[]), IndexMap([], map[]), map[], map[], map[])

  datatype Op =
    | AddComponent(component: Component)
    | AddApp(app: App)
    | AddArea(area: Area)
    | RemoveComponent(id: string)
    | RemoveApp(id: string)
    | RemoveArea(id: string)

  datatype Event = Added(ref: EntityRef) | Removed(ref: EntityRef)

  function Apply(s: State, op: Op): State {
    match op
    case AddComponent(c) =>
      s.(components := s.components.Insert(c.id, c),
         componentsByArea := File(s.componentsByArea, c.areaId, c.id))
    case AddApp(a) =>
      s.(apps := s.apps.Insert(a.id, a),
         appsByComponent := File(s.appsByComponent, a.ComponentId(), a.id),
         appsByArea := File(s.appsByArea, a.areaId, a.id))
    case AddArea(a) =>
      s.(areas := s.areas.Insert(a.id, a))
    case RemoveComponent(id) =>
      if id !in s.components.entries then s
      else
        s.(components := s.components.Remove(id),
           componentsByArea := Unfile(s.componentsByArea, s.components.entries[id].areaId, id))
    case RemoveApp(id) =>
      if id !in s.apps.entries then s
      else
        var a := s.apps.entries[id];
        s.(apps := s.apps.Remove(id),
           appsByComponent := Unfile(s.appsByComponent, a.ComponentId(), id),
           appsByArea := Unfile(s.appsByArea, a.areaId, id))
    case RemoveArea(id) =>
      if id !in s.areas.entries then s
      else
        s.(areas := s.areas.Remove(id),
           componentsByArea := s.componentsByArea - {id},
           appsByArea := s.appsByArea - {id})
  }

  /** The state after a run of mutations on s. */
  function Run(s: State, ops: seq<Op>): State {
    if ops == [] then s
    else Apply(Run(s, ops[..|ops| - 1]), ops[|ops| - 1])
  }

  function RefOf(op: Op): EntityRef {
    match op
    case AddComponent(c) => c.Ref()
    case AddApp(a) => a.Ref()
    case AddArea(a) => a.Ref()
    case RemoveComponent(id) => EntityRef(ComponentKind, id)
    case RemoveApp(id) => EntityRef(AppKind, id)
    case RemoveArea(id) => EntityRef(AreaKind, id)
  }

  predicate IsAdd(op: Op) {
    op.AddComponent? || op.AddApp? || op.AddArea?
  }

  predicate Has(s: State, r: EntityRef) {
    match r.kind
    case ComponentKind => r.id in s.components.entries
    case AppKind => r.id in s.apps.entries
    case AreaKind => r.id in s.areas.entries
  }

  /** The references of all entities present. */
  function Refs(s: State): set<EntityRef> {
    (set id | id in s.components.entries :: EntityRef(ComponentKind, id)) +
    (set id | id in s.apps.entries :: EntityRef(AppKind, id)) +
    (set id | id in s.areas.entries :: EntityRef(AreaKind, id))
  }

  /** The events a guard batches for one mutation: removing a missing id emits nothing. */
  function EventsOf(s: State, op: Op): seq<Event> {
    if IsAdd(op) then [Added(RefOf(op))]
    else if Has(s, RefOf(op)) then [Removed(RefOf(op))]
    else []
  }

  function Events(s: State, ops: seq<Op>): seq<Event> {
    if ops == [] then []
    else Events(s, ops[..|ops| - 1]) + EventsOf(Run(s, ops[..|ops| - 1]), ops[|ops| - 1])
  }

  // ---------------------------------------------------------------- queries

  datatype Missing = NotFound(ref: EntityRef)

  function GetComponent(s: State, id: string): Result<Component, Missing> {
    if id in s.components.entries then Ok(s.components.entries[id]) else Err(NotFound(EntityRef(ComponentKind, id)))
  }

  function GetApp(s: State, id: string): Result<App, Missing> {
    if id in s.apps.entries then Ok(s.apps.entries[id]) else Err(NotFound(EntityRef(AppKind, id)))
  }

  function GetArea(s: State, id: string): Result<Area, Missing> {
    if id in s.areas.entries then Ok(s.areas.entries[id]) else Err(NotFound(EntityRef(AreaKind, id)))
  }

  function Components(s: State): seq<Component> { s.components.Values() }

  function Apps(s: State): seq<App> { s.apps.Values() }

  function AppsOfComponent(s: State, host: string): seq<App> {
    Lookup(Listed(s.appsByComponent, host), s.apps.entries)
  }

  function ComponentsOfArea(s: State, area: string): seq<Component> {
    Lookup(Listed(s.componentsByArea, area), s.components.entries)
  }

  function AppsOfArea(s: State, area: string): seq<App> {
    Lookup(Listed(s.appsByArea, area), s.apps.entries)
  }

  function ComponentOfApp(s: State, id: string): Result<Option<Component>, Missing> {
    match GetApp(s, id)
    case Err(e) => Err(e)
    case Ok(a) =>
      Ok(if a.isLocatedOn in s.components.entries then Some(s.components.entries[a.isLocatedOn]) else None)
  }

  function AreaNamed(s: State, area: Option<string>): Option<Area> {
    if area.Some? && area.value in s.areas.entries then Some(s.areas.entries[area.value]) else None
  }

  function AreaOfComponent(s: State, id: string): Result<Option<Area>, Missing> {
    match GetComponent(s, id)
    case Err(e) => Err(e)
    case Ok(c) => Ok(AreaNamed(s, c.areaId))
  }

  function AreaOfApp(s: State, id: string): Result<Option<Area>, Missing> {
    match GetApp(s, id)
    case Err(e) => Err(e)
    case Ok(a) => Ok(AreaNamed(s, a.areaId))
  }

  // ---------------------------------------------------------------- shape

  /** Keys are entity ids, listings have no duplicates, and no index entry is empty. */
  ghost predicate WellFormed(s: State) {
    && s.components.Valid() && s.apps.Valid() && s.areas.Valid()
    && (forall k | k in s.components.entries :: s.components.entries[k].id == k)
    && (forall k | k in s.apps.entries :: s.apps.entries[k].id == k)
    && (forall k | k in s.areas.entries :: s.areas.entries[k].id == k)
    && IndexShape(s.appsByComponent) && IndexShape(s.componentsByArea) && IndexShape(s.appsByArea)
  }

  lemma ApplyWellFormed(s: State, op: Op)
    requires WellFormed(s)
    ensures WellFormed(Apply(s, op))
  {
    match op
    case AddComponent(c) =>
      InsertValid(s.components, c.id, c);
      FileShape(s.componentsByArea, c.areaId, c.id);
    case AddApp(a) =>
      InsertValid(s.apps, a.id, a);
      FileShape(s.appsByComponent, a.ComponentId(), a.id);
      FileShape(s.appsByArea, a.areaId, a.id);
    case AddArea(a) =>
      InsertValid(s.areas, a.id, a);
    case RemoveComponent(id) =>
      if id in s.components.entries {
        RemoveValid(s.components, id);
        UnfileShape(s.componentsByArea, s.components.entries[id].areaId, id);
      }
    case RemoveApp(id) =>
      if id in s.apps.entries {
        RemoveValid(s.apps, id);
        UnfileShape(s.appsByComponent, s.apps.entries[id].ComponentId(), id);
        UnfileShape(s.appsByArea, s.apps.entries[id].areaId, id);
      }
    case RemoveArea(id) =>
      RemoveValid(s.areas, id);
  }

  /** Every run from a well-formed state, the empty topology included, stays well formed. */
  lemma {:induction false} RunWellFormed(s: State, ops: seq<Op>)
    requires WellFormed(s)
    ensures WellFormed(Run(s, ops))
  {
    if ops != [] {
      RunWellFormed(s, ops[..|ops| - 1]);
      ApplyWellFormed(Run(s, ops[..|ops| - 1]), ops[|ops| - 1]);
    }
  }

  lemma RunSnoc(s: State, ops: seq<Op>, op: Op)
    ensures Run(s, ops + [op]) == Apply(Run(s, ops), op)
    ensures Events(s, ops + [op]) == Events(s, ops) + EventsOf(Run(s, ops), op)
  {
    assert (ops + [op])[..|ops|] == ops;
  }

  lemma {:induction false} StateConcat(s: State, a: seq<Op>, b: seq<Op>)
    ensures Run(s, a + b) == Run(Run(s, a), b)
  {
    if b == [] {
      AppendNothing(a);
    } else {
      FrontOfConcat(a, b);
      StateConcat(s, a, b[..|b| - 1]);
    }
  }

  lemma {:induction false} BatchConcat(s: State, a: seq<Op>, b: seq<Op>)
    ensures Events(s, a + b) == Events(s, a) + Events(Run(s, a), b)
  {
    if b == [] {
      AppendNothing(a);
      AppendNothing(Events(s, a));
    } else {
      var pre, last := b[..|b| - 1], b[|b| - 1];
      FrontOfConcat(a, b);
      BatchConcat(s, a, pre);
      StateConcat(s, a, pre);
      Assoc(Events(s, a), Events(Run(s, a), pre), EventsOf(Run(Run(s, a), pre), last));
    }
  }

  /** Running a and then b: states compose and events join. */
  lemma RunConcat(s: State, a: seq<Op>, b: seq<Op>)
    ensures Run(s, a + b) == Run(Run(s, a), b)
    ensures Events(s, a + b) == Events(s, a) + Events(Run(s, a), b)
  {
    StateConcat(s, a, b);
    BatchConcat(s, a, b);
  }
}
