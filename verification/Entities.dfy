/** The three kinds of entity, references to them, and a batch of entities to add.
    `details` stands for everything the topology carries along unread: name, tags,
    metadata, translation id and data provider. */
module Entities {
  import opened Wrappers

  datatype EntityKind = ComponentKind | AppKind | AreaKind

  datatype EntityRef = EntityRef(kind: EntityKind, id: string)

  datatype Component = Component(id: string, areaId: Option<string>, details: string) {
    function Ref(): EntityRef { EntityRef(ComponentKind, id) }
  }

  datatype App = App(id: string, isLocatedOn: string, areaId: Option<string>, details: string) {
    function Ref(): EntityRef { EntityRef(AppKind, id) }

    /** An app always names a host; the host need not exist. */
    function ComponentId(): Option<string> { Some(isLocatedOn) }
  }

  datatype Area = Area(id: string, details: string) {
    function Ref(): EntityRef { EntityRef(AreaKind, id) }
  }

  function ComponentRefs(cs: seq<Component>): seq<EntityRef> {
    seq(|cs|, i requires 0 <= i < |cs| => cs[i].Ref())
  }

  function AppRefs(apps: seq<App>): seq<EntityRef> {
    seq(|apps|, i requires 0 <= i < |apps| => apps[i].Ref())
  }

  function AreaRefs(areas: seq<Area>): seq<EntityRef> {
    seq(|areas|, i requires 0 <= i < |areas| => areas[i].Ref())
  }

  datatype EntityCollection = EntityCollection(components: seq<Component>, apps: seq<App>, areas: seq<Area>) {
    /** References to all entities of the collection: components, then apps, then areas. */
    function EntityRefs(): seq<EntityRef> {
      ComponentRefs(components) + AppRefs(apps) + AreaRefs(areas)
    }
  }
}
