/** The topology as objects: the state behind the lock, whose fields are updated in place,
    and the write guard that mutates it and batches the events. */
module Topologies {
  import opened Wrappers
  import opened IndexMaps
  import opened Entities
  import opened R = RelationIndex
  import opened M = TopologyModel

  class TopologyState {
    var components: IndexMap<Component>
    var apps: IndexMap<App>
    var areas: IndexMap<Area>
    /** Component id -> ids of the apps hosted on it. */
    var appsByComponent: map<string, IndexSet>
    /** Area id -> ids of the components in it. */
    var componentsByArea: map<string, IndexSet>
    /** Area id -> ids of the apps in it. */
    var appsByArea: map<string, IndexSet>

    function Snapshot(): State
      reads this
    {
      State(components, apps, areas, appsByComponent, componentsByArea, appsByArea)
    }

    ghost predicate Valid()
      reads this
    {
      WellFormed(Snapshot())
    }

    constructor ()
      ensures Valid() && Snapshot() == INIT
    {
      components, apps, areas := IndexMap([], map[]), IndexMap([], map[]), IndexMap([], map[]);
      appsByComponent, componentsByArea, appsByArea := map[], map[], map[];
    }

    method InsertComponent(id: string, component: Component)
      requires Valid() && id == component.id
      modifies this
      ensures Valid() && Snapshot() == Apply(old(Snapshot()), AddComponent(component))
    {
      ApplyWellFormed(Snapshot(), AddComponent(component));
      if component.areaId.Some? {
        var area := component.areaId.value;
        var members := if area in componentsByArea then componentsByArea[area] else [];
        componentsByArea := componentsByArea[area := SetInsert(members, id)];
      }
      components := components.Insert(id, component);
    }

    method RemoveComponent(id: string) returns (removed: Option<Component>)
      requires Valid()
      modifies this
      ensures Valid() && Snapshot() == Apply(old(Snapshot()), M.RemoveComponent(id))
      ensures removed == if id in old(components).entries then Some(old(components).entries[id]) else None
    {
      ghost var was := Snapshot();
      if id !in components.entries {
        return None;
      }
      var component := components.entries[id];
      components := components.Remove(id);
      if component.areaId.Some? && component.areaId.value in componentsByArea {
        var area := component.areaId.value;
        var members := ShiftRemove(componentsByArea[area], id);
        componentsByArea := componentsByArea[area := members];
        if members == [] {
          componentsByArea := componentsByArea - {area};
        }
      }
      removed := Some(component);
      assert Snapshot() == Apply(was, M.RemoveComponent(id));
      ApplyWellFormed(was, M.RemoveComponent(id));
    }

    method InsertApp(id: string, app: App)
      requires Valid() && id == app.id
      modifies this
      ensures Valid() && Snapshot() == Apply(old(Snapshot()), AddApp(app))
    {
      ApplyWellFormed(Snapshot(), AddApp(app));
      if app.ComponentId().Some? {
        var host := app.ComponentId().value;
        var hosted := if host in appsByComponent then appsByComponent[host] else [];
        appsByComponent := appsByComponent[host := SetInsert(hosted, id)];
      }
      if app.areaId.Some? {
        var area := app.areaId.value;
        var members := if area in appsByArea then appsByArea[area] else [];
        appsByArea := appsByArea[area := SetInsert(members, id)];
      }
      apps := apps.Insert(id, app);
    }

    method RemoveApp(id: string) returns (removed: Option<App>)
      requires Valid()
      modifies this
      ensures Valid() && Snapshot() == Apply(old(Snapshot()), M.RemoveApp(id))
      ensures removed == if id in old(apps).entries then Some(old(apps).entries[id]) else None
    {
      ghost var was := Snapshot();
      if id !in apps.entries {
        return None;
      }
      var app := apps.entries[id];
      apps := apps.Remove(id);
      UnlistFromHost(app.ComponentId(), id);
      UnlistFromArea(app.areaId, id);
      removed := Some(app);
      ApplyWellFormed(was, M.RemoveApp(id));
    }

    method UnlistFromHost(component: Option<string>, id: string)
      modifies this`appsByComponent
      ensures appsByComponent == Unfile(old(appsByComponent), component, id)
    {
      if component.Some? && component.value in appsByComponent {
        var host := component.value;
        var hosted := ShiftRemove(appsByComponent[host], id);
        appsByComponent := appsByComponent[host := hosted];
        if hosted == [] {
          appsByComponent := appsByComponent - {host};
        }
      }
    }

    method UnlistFromArea(area: Option<string>, id: string)
      modifies this`appsByArea
      ensures appsByArea == Unfile(old(appsByArea), area, id)
    {
      if area.Some? && area.value in appsByArea {
        var members := ShiftRemove(appsByArea[area.value], id);
        appsByArea := appsByArea[area.value := members];
        if members == [] {
          appsByArea := appsByArea - {area.value};
        }
      }
    }

    method InsertArea(id: string, area: Area)
      requires Valid() && id == area.id
      modifies this
      ensures Valid() && Snapshot() == Apply(old(Snapshot()), AddArea(area))
    {
      ApplyWellFormed(Snapshot(), AddArea(area));
      areas := areas.Insert(id, area);
    }

    method RemoveArea(id: string) returns (removed: Option<Area>)
      requires Valid()
      modifies this
      ensures Valid() && Snapshot() == Apply(old(Snapshot()), M.RemoveArea(id))
      ensures removed == if id in old(areas).entries then Some(old(areas).entries[id]) else None
    {
      ApplyWellFormed(Snapshot(), M.RemoveArea(id));
      if id !in areas.entries {
        return None;
      }
      removed := Some(areas.entries[id]);
      areas := areas.Remove(id);
      componentsByArea := componentsByArea - {id};
      appsByArea := appsByArea - {id};
    }
  }

  /** The shared topology: the state, and the event channel as the log of all events sent. */
  class Topology {
    const state: TopologyState
    var log: seq<Event>

    constructor ()
      ensures state.Valid() && state.Snapshot() == INIT && log == []
      ensures fresh(state)
    {
      state := new TopologyState();
      log := [];
    }
  }

  /** Holds the write lock for its lifetime: mutations take effect at once, events wait in
      `pending` until the guard is dropped. */
  class TopologyWriteGuard {
    const topology: Topology
    var pending: seq<Event>

    constructor (topology: Topology)
      ensures this.topology == topology && pending == []
    {
      this.topology := topology;
      pending := [];
    }

    method AddComponent(component: Component)
      requires topology.state.Valid()
      modifies topology.state, this`pending
      ensures topology.state.Valid()
      ensures topology.state.Snapshot() == Apply(old(topology.state.Snapshot()), M.AddComponent(component))
      ensures pending == old(pending) + EventsOf(old(topology.state.Snapshot()), M.AddComponent(component))
    {
      topology.state.InsertComponent(component.id, component);
      pending := pending + [Added(component.Ref())];
    }

    method AddApp(app: App)
      requires topology.state.Valid()
      modifies topology.state, this`pending
      ensures topology.state.Valid()
      ensures topology.state.Snapshot() == Apply(old(topology.state.Snapshot()), M.AddApp(app))
      ensures pending == old(pending) + EventsOf(old(topology.state.Snapshot()), M.AddApp(app))
    {
      topology.state.InsertApp(app.id, app);
      pending := pending + [Added(app.Ref())];
    }

    method AddArea(area: Area)
      requires topology.state.Valid()
      modifies topology.state, this`pending
      ensures topology.state.Valid()
      ensures topology.state.Snapshot() == Apply(old(topology.state.Snapshot()), M.AddArea(area))
      ensures pending == old(pending) + EventsOf(old(topology.state.Snapshot()), M.AddArea(area))
    {
      topology.state.InsertArea(area.id, area);
      pending := pending + [Added(area.Ref())];
    }

    method RemoveComponent(id: string)
      requires topology.state.Valid()
      modifies topology.state, this`pending
      ensures topology.state.Valid()
      ensures topology.state.Snapshot() == Apply(old(topology.state.Snapshot()), M.RemoveComponent(id))
      ensures pending == old(pending) + EventsOf(old(topology.state.Snapshot()), M.RemoveComponent(id))
    {
      var removed := topology.state.RemoveComponent(id);
      if removed.Some? {
        pending := pending + [Removed(EntityRef(ComponentKind, id))];
      }
    }

    method RemoveApp(id: string)
      requires topology.state.Valid()
      modifies topology.state, this`pending
      ensures topology.state.Valid()
      ensures topology.state.Snapshot() == Apply(old(topology.state.Snapshot()), M.RemoveApp(id))
      ensures pending == old(pending) + EventsOf(old(topology.state.Snapshot()), M.RemoveApp(id))
    {
      var removed := topology.state.RemoveApp(id);
      if removed.Some? {
        pending := pending + [Removed(EntityRef(AppKind, id))];
      }
    }

    method RemoveArea(id: string)
      requires topology.state.Valid()
      modifies topology.state, this`pending
      ensures topology.state.Valid()
      ensures topology.state.Snapshot() == Apply(old(topology.state.Snapshot()), M.RemoveArea(id))
      ensures pending == old(pending) + EventsOf(old(topology.state.Snapshot()), M.RemoveArea(id))
    {
      var removed := topology.state.RemoveArea(id);
      if removed.Some? {
        pending := pending + [Removed(EntityRef(AreaKind, id))];
      }
    }

    /** Dropping the guard sends the batch, in order, before the lock is given up. */
    method Drop()
      modifies topology`log, this`pending
      ensures topology.log == old(topology.log) + old(pending)
      ensures pending == []
    {
      while pending != []
        invariant topology.log + pending == old(topology.log) + old(pending)
        decreases |pending|
      {
        topology.log := topology.log + [pending[0]];
        pending := pending[1..];
      }
    }
  }
}
