# Verified model of the OpenSOVD core

A Dafny model of the parts of the OpenSOVD server and client that keep state or
transform data, with proofs of what they promise. `dafny verify dfyconfig.toml`
checks all of it.

- **The topology** (`opensovd-core/src/topology.rs`). `Topologies` has the state behind
  the lock and the write guard as classes updated in place; each method is proved to take
  one step of the specification in `TopologyModel` (`Apply`, `EventsOf`), which also
  defines the queries; `TopologyQueries` says what the lookups answer in terms of the run
  alone. `RelationIndex` isolates one relationship index, `TopologyTheorems`
  carries its results to the three indexes of the topology: when the indexes equal a filter
  of the entity listings (exactly), and what they hold in any run at all.
- **Locking and events** (`topology.rs`). `EventLog` is a step system of readers, one
  writer whose guard batches events and sends them as it is dropped, and receivers that
  subscribe, read, receive and lag at their own pace.
- **Discovery** (`run_discovery` in `opensovd-server/src/server.rs`). `Diffs` applies one
  diff through the guard, `Discovery` has the event loop as methods and as a step system
  interleaved with readers and receivers, with a shutdown at the two await points, and
  `Confluence` says when the order of merging provider streams does not matter.
- **TLS handshake admission** (`opensovd-server/src/tls.rs`). `Tls` has the permits, the
  spawned tasks and the queue of completed handshakes as a step system, and the listener
  as a class that refines it.
- **Data providers** (`opensovd-providers/src/data/builder.rs`, `opensovd-core/src/data.rs`).
  `DataProviders` has the builder, the built provider, and both the derived and the
  overridden facets; `Facets` says what the facets mean for the listing.
- **Requests** (`opensovd-client/src/client.rs` and the path templates, the encode set of
  `opensovd-server/src/routes/entities/mod.rs`). `PercentEncoding` and `RequestUri` prove
  that whatever the client builds is read back, over all byte strings. Encoding and
  decoding follow sections 2.1 and 3.3 of RFC 3986.

Indexed maps and sets are values (`IndexMaps`) held in the fields that the methods
reassign: an insertion keeps the place of a key already present, `shift_remove` keeps the
order of the rest. Runs of mutations, batches and replays are sequences; `Run(INIT, ops)`
is the topology after `ops`, so a statement about it is one about every reachable state.

## What the proofs show about the code

- The relationship indexes are *not* always equal to a scan of the entities. Adding an id
  again with another host or area leaves it filed under the old one, because insertion does
  not look at the entry it overwrites (`topology.rs:59-67`, `82-96`); a component or app
  without an area that is given one later is filed at the end of the index rather than at
  its place in the listing; and removing an area drops its index entries while entities
  still name it (`topology.rs:123-128`). `IndexRefinesScan` gives the exact condition.
  `RehostedAppStaysListed`, `LateComponentOutOfOrder` and `ReaddedAreaListsNothing` show
  the three gaps. `AreaMembersFiled` says for which runs the last one stays closed, and
  `ListedBelongs` for which runs the first one does.
- The order in which provider streams are merged can decide which entities an area lists,
  even when the providers touch disjoint references. `AreaListingsAlike` gives the exact
  condition, `RemovedAreaOrderMatters` an instance on either side of it. For the index
  behind the listing, which may keep ids of absent entities, `AreaMergesAlike` gives it;
  `UnseenClash` is where the two differ.
- The server's encode set is said to encode everything except unreserved characters
  (`opensovd-server/src/routes/entities/mod.rs:83-84`). It leaves the sub-delimiters alone,
  and also backslash, caret and bar, which section 3.3 of RFC 3986 does not allow in a
  segment (`ServerLeavesAlone`, `WellFormedSegments`). Round trips are not affected.
- Two documents name operations that the code does not have, and the model follows the
  code: `flush_events` (`topology.rs:393`), and `merge` and `merge_unchecked`
  (`docs/architecture.md:24-25` and `154`).

## Model

| member | source | states |
|---|---|---|
| TopologyTheorems.IndexRefinesScan | opensovd-core/src/topology.rs:59-206 | for each of the three relations and every run: the relation query equals the ordered filter of the entity listing at every point of the run if and only if each mutation met a condition on the entry it overwrote or the area it removed |
| TopologyTheorems.HostedAppsAreTheScan | opensovd-core/src/topology.rs:82-171 | `apps_of_component(h)` is the filter of `apps()` by host, for every host and whatever else interleaves, exactly when re-added apps keep their host |
| TopologyTheorems.AreaMembersAreTheScan | opensovd-core/src/topology.rs:59-206 | if re-adds keep the area and no area is removed while an entity names it, both area queries are the ordered filters of the listings throughout the run |
| RelationIndex.StepExact | opensovd-core/src/topology.rs:59-128 | from an exact index, one mutation leaves the queries equal to the scan if and only if it is careful |
| RelationIndex.RunExact | opensovd-core/src/topology.rs:59-128 | queries equal the scan at every point of a run of one index if and only if every step was careful |
| TopologyTheorems.IndexHistory | opensovd-core/src/topology.rs:59-128 | in any run, an id is filed under x if and only if some addition filed it there and no later removal of the entity, made while it belonged to x, nor removal of the area x followed |
| TopologyTheorems.IndexOrder | opensovd-core/src/topology.rs:59-128 | in any run, the ids of an index entry stand in the order of the additions since which each has been filed without interruption |
| RelationIndex.ListedHistory | opensovd-core/src/topology.rs:59-128 | the content and the order of one index entry, in terms of the steps of the run alone |
| RelationIndex.SinceLeast | opensovd-core/src/topology.rs:59-128 | the step an id has been filed since is the least one that filed it and was never undone |
| TopologyModel.RunWellFormed | opensovd-core/src/topology.rs:35-128 | after any run map keys are entity ids, listings have no duplicates, and no index entry is empty or repeats an id |
| TopologyModel.RunConcat | opensovd-core/src/topology.rs:288-342 | the state of a joined run is the second run on the state of the first, and the events are joined |
| TopologyTheorems.ListingsAreClean | opensovd-core/src/topology.rs:165-206 | in every reachable state relation queries yield present entities only, each once |
| TopologyQueries.LookupsAnswer | opensovd-core/src/topology.rs:135-182 | in every reachable state a lookup finds exactly the entity last added under the id and not removed since, and a miss names the id and the kind asked for |
| TopologyQueries.AreaOfComponentAnswers | opensovd-core/src/topology.rs:229-238 | over every run: the query answers the area x exactly if the last mutation of the component added it with that area and the last of the area added x; a miss exactly if the component is absent; none otherwise |
| TopologyQueries.AreaOfAppAnswers | opensovd-core/src/topology.rs:245-254 | the same for apps, whatever the index holds |
| TopologyQueries.ComponentOfAppAnswers | opensovd-core/src/topology.rs:213-222 | over every run: the query answers the component c exactly if the last mutation of the app added it on c and the last of that component added c; a miss exactly if the app is absent; none otherwise |
| TopologyTheorems.HostedAppIsListed | opensovd-core/src/topology.rs:165-222 | in every reachable state an app whose host exists is among the apps of that host |
| TopologyTheorems.ListedAppIsHosted | opensovd-core/src/topology.rs:165-222 | the converse, when re-added apps keep their host |
| TopologyTheorems.ComponentAreaConverse | opensovd-core/src/topology.rs:191-238 | when areas are kept, a component is listed in an area exactly when `area_of_component` answers that area |
| TopologyTheorems.AppAreaConverse | opensovd-core/src/topology.rs:200-254 | when areas are kept, an app is listed in an area exactly when `area_of_app` answers that area |
| TopologyTheorems.AreaMembersFiledStep | opensovd-core/src/topology.rs:59-128 | of the six mutations only adding an area can leave an entity out of the listing of the area its query answers, exactly when some entity names the area without being filed there |
| TopologyTheorems.AreaMembersFiled | opensovd-core/src/topology.rs:59-254 | over whole runs: what `area_of_component` and `area_of_app` answer lists the entity in turn, at every point, if and only if whenever an area is added each entity that names it was last added after the last successful removal of that area |
| TopologyTheorems.NamerIsFiled | opensovd-core/src/topology.rs:59-128 | in any run an entity that names an area is filed there exactly if it was added after the last successful removal of the area |
| TopologyTheorems.ListedBelongs | opensovd-core/src/topology.rs:59-206 | the counterpart, for all three relations: at every point of a run queries list under x only entities whose host or area is x, if and only if no addition of an entity meets it still filed under another label |
| RelationIndex.StepFiled | opensovd-core/src/topology.rs:59-128 | without the removal of a named area no entity is ever missing from the entry of its label, whatever is re-added |
| TopologyTheorems.RehostedAppStaysListed | opensovd-core/src/topology.rs:82-96 | for every app: added again on another host, it is still listed on the old one, where the filter finds nothing |
| TopologyTheorems.ReaddedAreaListsNothing | opensovd-core/src/topology.rs:712-740 | for every area and component that names it: the area removed and added again lists nothing while the component still answers with it |
| TopologyTheorems.ReaddedAreaListsNoApp | opensovd-core/src/topology.rs:82-128 | the same for an app that names the area |
| TopologyTheorems.LateComponentOutOfOrder | opensovd-core/src/topology.rs:59-67 | for all such components: one that is added without an area and given it after another was filed there is listed after that other, where the filter of the listing puts it before |
| TopologyTheorems.ApplyMember | opensovd-core/src/topology.rs:59-128 | one mutation files an id, takes it out, or leaves its membership alone, for each index |
| Topologies.TopologyState.constructor | opensovd-core/src/topology.rs:48-57 | a new state is the empty topology |
| Topologies.TopologyState.InsertComponent | opensovd-core/src/topology.rs:59-67 | takes the state by the step of the specification that adds a component |
| Topologies.TopologyState.RemoveComponent | opensovd-core/src/topology.rs:69-80 | takes the state by the removing step and returns the component that was there, if any |
| Topologies.TopologyState.InsertApp | opensovd-core/src/topology.rs:82-96 | takes the state by the step that adds an app to both of its indexes |
| Topologies.TopologyState.RemoveApp | opensovd-core/src/topology.rs:98-117 | takes the state by the removing step and returns the app that was there, if any |
| Topologies.TopologyState.InsertArea | opensovd-core/src/topology.rs:119-121 | takes the state by the step that adds an area |
| Topologies.TopologyState.RemoveArea | opensovd-core/src/topology.rs:123-128 | takes the state by the removing step, index entries included only if the area existed, and returns the area |
| Topologies.TopologyWriteGuard.constructor | opensovd-core/src/topology.rs:395-402 | a new guard has nothing pending |
| Topologies.TopologyWriteGuard.AddComponent | opensovd-core/src/topology.rs:290-295 | the component is added at once and one `Added` is pending |
| Topologies.TopologyWriteGuard.AddApp | opensovd-core/src/topology.rs:298-302 | the app is added at once and one `Added` is pending |
| Topologies.TopologyWriteGuard.AddArea | opensovd-core/src/topology.rs:305-309 | the area is added at once and one `Added` is pending |
| Topologies.TopologyWriteGuard.RemoveComponent | opensovd-core/src/topology.rs:312-317 | the component is removed at once; a `Removed` is pending exactly if it was there |
| Topologies.TopologyWriteGuard.RemoveApp | opensovd-core/src/topology.rs:320-325 | the app is removed at once; a `Removed` is pending exactly if it was there |
| Topologies.TopologyWriteGuard.RemoveArea | opensovd-core/src/topology.rs:328-333 | the area is removed at once; a `Removed` is pending exactly if it was there |
| Topologies.TopologyWriteGuard.Drop | opensovd-core/src/topology.rs:336-342 | the whole batch goes to the log, in order, and nothing stays pending |
| EventLog.RunReplays | opensovd-core/src/topology.rs:288-342 | replaying the events of any run over the references before it gives the references after it |
| EventLog.ReplayOverlap | opensovd-core/src/topology.rs:376-387 | replaying a suffix of a log over a state that already reflects it changes nothing |
| EventLog.SubscribeThenRead | opensovd-core/src/topology.rs:336-387 | a receiver from log position k that snapshots later and replays everything from k ends with exactly the references present |
| EventLog.NextKeepsInv | opensovd-core/src/topology.rs:282-402 | each step of a reader, writer or receiver keeps exclusion, the shape of the log, and that every view plus what is still to come equals the state |
| EventLog.LogIsWholeBatches | opensovd-core/src/topology.rs:282-402 | over all interleavings the log is whole guard batches in lock order and then what the open guard has sent; log and pending events together replay to the state |
| EventLog.ReaderSeesTheLog | opensovd-core/src/topology.rs:267-387 | whoever holds a read guard sees a state that equals the replay of the log, made of whole batches |
| EventLog.SnapshotIsOfTheLog | opensovd-core/src/topology.rs:380-387 | what a receiver reads through a read guard is the replay of the log, made of whole batches |
| EventLog.DroppedBatchIsFixed | opensovd-core/src/topology.rs:336-342 | from the beginning of its drop to the release of the lock a guard changes nothing and sends just its batch |
| EventLog.CaughtUpReceiverIsRight | opensovd-core/src/topology.rs:376-387 | a receiver that has read since it last lagged, once caught up with nothing left to send, holds exactly the references present |
| EventLog.SkippedEventIsLost | opensovd-core/src/topology.rs:358-369 | concretely: a view kept across a skipped removal stays wrong |
| EventLog.HarmlessSkips | opensovd-core/src/topology.rs:358-378 | a view kept across skipped events ends right if and only if it already held what they say last about every reference that the later events do not mention |
| EventLog.SubscriberStartsAtTheEnd | opensovd-core/src/topology.rs:376-378 | whatever happens after it subscribes, a receiver stands after the events sent before and those it has passed, and has a view exactly if it has read the state since it subscribed and last lagged |
| EventLog.ReceiverConverges | opensovd-core/src/topology.rs:376-387 | from every reachable point at which nobody writes, any receiver, lagged or not, can come to hold exactly the references present |
| Diffs.RemoveAll | opensovd-server/src/server.rs:431-437 | the removals of a diff, one by one, reach the state and batch of the specified run |
| Diffs.AddComponents | opensovd-server/src/server.rs:438-440 | the loop over components reaches the state and batch of the specified run |
| Diffs.AddApps | opensovd-server/src/server.rs:441-443 | the loop over apps reaches the state and batch of the specified run |
| Diffs.AddAreas | opensovd-server/src/server.rs:444-446 | the loop over areas reaches the state and batch of the specified run |
| Diffs.ApplyDiff | opensovd-server/src/server.rs:429-447 | a diff under one guard takes the state by the removals and then the additions, and the log by exactly their events |
| Diffs.DiffBatch | opensovd-server/src/server.rs:429-447 | references afterwards are those before, minus the removed, plus the added; the batch is one `Removed` for each distinct present reference and then one `Added` for each entity |
| Diffs.FirstPresentIs | opensovd-server/src/server.rs:431-437 | the `Removed` events name exactly the removed references that were present, in the order of their first occurrences |
| Diffs.AddOpsRefs | opensovd-core/src/entity/mod.rs:122-130 | the additions of a diff touch the references of its collection, in the order of `entity_refs` |
| Diffs.RefsInOrder | opensovd-core/src/entity/mod.rs:122-130 | `entity_refs` names the components, then the apps, then the areas, each under its own kind and id |
| Diffs.DiffValues | opensovd-server/src/server.rs:429-447 | every entity afterwards is the last one added under its id, else absent if removed, else what it was |
| Discovery.ProcessEvents | opensovd-server/src/server.rs:425-453 | the event loop, stopped after any number of events, leaves state and log at the fold of the diffs that took effect |
| Discovery.RunDiscovery | opensovd-server/src/server.rs:407-462 | providers that fail to start and error items contribute nothing; the rest is the fold of a prefix of the Ok diffs |
| Discovery.StartedConcat | opensovd-server/src/server.rs:412-420 | a provider that fails to start costs nothing but itself: the streams of the others are all there, in order |
| Discovery.OkDiffsConcat | opensovd-server/src/server.rs:427-452 | an error item costs nothing but itself |
| Discovery.StoppedIsLeftByLoop | opensovd-server/src/server.rs:425-461 | every stopped task leaves the state and log of the loop over the events it took, with the last diff caught waiting for the lock or not |
| Discovery.LoopIsSomeTask | opensovd-server/src/server.rs:425-461 | for every order of events and either fate of the last diff, some task that a shutdown stops leaves just that |
| Discovery.StepKeepsInv | opensovd-server/src/server.rs:425-461 | each step of the task, of a shutdown, of a reader or a receiver keeps what lock, applied and received diffs have to do with each other |
| Discovery.OnlyWholeDiffsAreSeen | opensovd-server/src/server.rs:425-461 | over all interleavings, whenever the write lock is free, hence for every reader and after a shutdown, state and log are the fold of whole diffs: all Ok items received, or all but the last |
| Confluence.ValueProjects | opensovd-core/src/topology.rs:59-128 | the entity under a reference depends on nothing but the mutations of that reference |
| Confluence.MemberProjects | opensovd-core/src/topology.rs:59-128 | a membership depends on nothing but the mutations of the entity and, for areas, of the area |
| Confluence.MergeKeepsOrder | opensovd-server/src/server.rs:425-427 | any merge of the streams keeps the order of what one stream alone touches |
| Confluence.MergeOrderDoesNotMatter | opensovd-server/src/server.rs:425-447 | if providers touch disjoint references, all complete merges give the same entity maps up to listing order and the same hosting; they give the same area indexes if and only if no two streams clash, and areas that list the same entities if and only if no two streams clash over an entity that is left present; neither happens if no provider removes an area that another's entities name |
| Confluence.AreaMergesAlike | opensovd-server/src/server.rs:425-447 | the exact condition for an area index, ids of absent entities included, from any state: no stream, run alone, files an entity for good under an area that another stream, run alone, removes while it is present |
| Confluence.AreaListingsAlike | opensovd-core/src/topology.rs:191-206 | the exact condition for what `components_of_area` and `apps_of_area` list, up to order, from any state: no such clash is over an entity that its stream, run alone, leaves present |
| Confluence.ListingByMembers | opensovd-core/src/topology.rs:165-206 | in states with the same entities, a relation query lists the same up to order exactly if the same present entities are filed |
| Confluence.RespectedIsClashFree | opensovd-server/src/server.rs:425-447 | streams do not clash, seen or unseen, if none removes an area that another's entities name |
| Confluence.MemberAfter | opensovd-core/src/topology.rs:59-128 | a run from any state leaves an id in an index entry if and only if it files it there for good, or finds it there and spares it |
| Confluence.ByParts | opensovd-core/src/topology.rs:59-128 | whether a membership is spared is decided by the mutations of the entity and those of the area, each alone; filing by the former |
| Confluence.DrainFirst | opensovd-server/src/server.rs:425-427 | draining one stream before merging the others is one of the merges |
| Confluence.FinishedTasksConverge | opensovd-server/src/server.rs:425-457 | discovery tasks run to the end of the same streams under any interleavings leave the same entities and hosts; the same area indexes if and only if the streams do not clash; and areas that list the same if and only if they do not clash over an entity that is left present |
| Confluence.TasksAreMerges | opensovd-server/src/server.rs:425-457 | finished tasks agree on an index, or on what a relation query lists, exactly if the merges of their streams do |
| Confluence.SomeTaskMerges | opensovd-server/src/server.rs:425-457 | every merge of the streams is what some finished task leaves |
| Discovery.CarryOut | opensovd-server/src/server.rs:425-453 | progress: from a waiting task, whatever order the streams yield in, some run takes and applies it all and waits again |
| Confluence.RemovedAreaOrderMatters | opensovd-core/src/topology.rs:123-128 | for every state, area and component that names it: when one provider adds the component and another removes the area, all merges list the same in every area if and only if the area was not there, and likewise for the index |
| Confluence.UnseenClash | opensovd-core/src/topology.rs:191-206 | for every state, present area and component that names it: a provider that adds the component, adds it again without area and removes it clashes with the removal of the area in the index, and all merges still list the same |
| Tls.Admission | opensovd-server/src/tls.rs:107-219 | in every run permits and live tasks make 256, the queue holds at most 256, every accepted connection is in exactly one place, none is returned twice, returns follow the order of completion, at most 512 are pending |
| Tls.FateFollowsHandshake | opensovd-server/src/tls.rs:170-219 | in every run a connection is handed over, queued or returned only if its handshake succeeded, fails exactly if it failed or timed out, and is otherwise where its steps have left it; the returned and then the queued ones are those handed over, in that order; the listener pauses exactly from an accept error until it wakes up |
| Tls.PausedIsQuiet | opensovd-server/src/tls.rs:206-210 | from an accept error until the pause is over nothing is accepted and nothing returned |
| Tls.BoundIsReached | opensovd-server/src/tls.rs:107-219 | some run has 512 connections pending, so the bound is tight |
| Tls.DroppedOnlyWhenFull | opensovd-server/src/tls.rs:178-204 | a connection is dropped on arrival exactly when live tasks hold all permits |
| Tls.NextKeepsInv | opensovd-server/src/tls.rs:170-219 | each step of the listener or of a task keeps the invariant |
| Tls.WorkFalls | opensovd-server/src/tls.rs:183-216 | every step other than accepting strictly lessens the work left |
| Tls.SomethingCanHappen | opensovd-server/src/tls.rs:183-216 | short of idleness some step other than accepting is enabled |
| Tls.DrainingTerminates | opensovd-server/src/tls.rs:183-216 | draining takes no more steps than the work left, and where it can go no further all permits are free and every connection is dropped, failed or returned |
| Tls.TlsListener.constructor | opensovd-server/src/tls.rs:107-116 | a new listener has all 256 permits and nothing under way |
| Tls.TlsListener.OnTcp | opensovd-server/src/tls.rs:176-204 | takes a permit and starts a handshake, or drops the connection |
| Tls.TlsListener.OnTask | opensovd-server/src/tls.rs:183-198 | takes one step of a handshake task; the permit is given back only as the task ends |
| Tls.TlsListener.Accept | opensovd-server/src/tls.rs:170-219 | returns the oldest completed connection at the first `recv` that yields one, having taken exactly the steps of the system up to it |
| DataProviders.DefaultCategories | opensovd-core/src/data.rs:88-99 | computes the categories of the listing, each from the first item that has it |
| DataProviders.DefaultGroups | opensovd-core/src/data.rs:103-122 | computes the groups of the listing, of one category or of all, each from its first mention |
| DataProviders.DefaultTags | opensovd-core/src/data.rs:126-139 | computes the tags of the listing, each at its first occurrence |
| DataProviders.BuiltDataProvider.Categories | opensovd-providers/src/data/builder.rs:334-345 | returns what the default returns on the provider's unfiltered listing |
| DataProviders.BuiltDataProvider.Groups | opensovd-providers/src/data/builder.rs:347-369 | returns what the default returns on the unfiltered listing, for every category filter |
| DataProviders.BuiltDataProvider.Tags | opensovd-providers/src/data/builder.rs:371-384 | returns what the default returns on the unfiltered listing |
| Facets.CategoryFacet | opensovd-providers/src/data/builder.rs:266-345 | a category is listed, once, exactly when the listing filtered by it is not empty, with the translation id of the first item there |
| Facets.TagFacet | opensovd-providers/src/data/builder.rs:266-384 | a tag is listed, once, exactly when the listing filtered by it is not empty |
| Facets.GroupFacet | opensovd-providers/src/data/builder.rs:266-369 | a group, in one category or in all, is listed, once, exactly when the listing filtered by both is not empty, with the category of the first item there |
| Facets.GroupsByCategory | opensovd-providers/src/data/builder.rs:334-369 | the groups without a filter are the union of the groups of each listed category |
| Facets.FacetsAllMet | opensovd-providers/src/data/builder.rs:266-295 | an item matches a filter exactly if it matches each facet of it alone |
| Facets.AnyWantedWillDo | opensovd-providers/src/data/builder.rs:266-295 | within a facet any one of the wanted values will do: wanting a and b is wanting a or wanting b, whatever the other facets |
| Facets.ListIsMatching | opensovd-providers/src/data/builder.rs:300-307 | for every filter, the listing is the full listing at just the positions whose item matches, in order |
| Facets.FacetOrder | opensovd-providers/src/data/builder.rs:334-384 | categories, groups and tags are listed in the order in which the listing first mentions them, within an item in the order of the item |
| DataProviders.DataProviderBuilder.constructor | opensovd-providers/src/data/builder.rs:104-106 | a new builder has had no calls |
| DataProviders.DataProviderBuilder.ReadData | opensovd-providers/src/data/builder.rs:112-136 | registers a readable resource, with empty groups and tags, after those called for before |
| DataProviders.DataProviderBuilder.WriteData | opensovd-providers/src/data/builder.rs:142-166 | registers a writable resource, with empty groups and tags, after those called for before |
| DataProviders.DataProviderBuilder.Data | opensovd-providers/src/data/builder.rs:173-198 | registers a readable and writable resource, with empty groups and tags, after those called for before |
| DataProviders.DataProviderBuilder.Groups | opensovd-providers/src/data/builder.rs:202-207 | sets the groups of the last resource only; does nothing without one |
| DataProviders.DataProviderBuilder.Tags | opensovd-providers/src/data/builder.rs:210-216 | sets the tags of the last resource only; does nothing without one |
| DataProviders.DataProviderBuilder.TranslationId | opensovd-providers/src/data/builder.rs:219-225 | sets the translation id of the last resource only; does nothing without one |
| DataProviders.DataProviderBuilder.Schema | opensovd-providers/src/data/builder.rs:231-237 | sets the schema of the last resource only; does nothing without one |
| DataProviders.ModifiersFollow | opensovd-providers/src/data/builder.rs:112-237 | after any sequence of calls, entry k is the k-th registration with exactly the last modifier of each sort called before the next registration |
| DataProviders.RegistrationsAreFinal | opensovd-providers/src/data/builder.rs:112-237 | what the builder holds after any calls is the registrations in their final form, under the ids they were registered with |
| DataProviders.DataProviderBuilder.Build | opensovd-providers/src/data/builder.rs:244-253 | after any calls, succeeds exactly if the ids registered are distinct, and then holds and lists the registrations in order, each as the modifiers called before the next one leave it; else the error names the id at the smallest index that repeats an earlier one |
| PercentEncoding.RoundTrip | opensovd-server/src/routes/entities/mod.rs:85-105 | for every encode set: decoding undoes encoding on all byte strings if and only if the set holds the percent sign or every hexadecimal digit |
| PercentEncoding.BothDecodeAlike | opensovd-client/src/client.rs:319-322 | one decoder undoes the client's and the server's encoder on every byte string |
| PercentEncoding.EncodingsInjective | opensovd-client/src/client.rs:319-322 | distinct ids have distinct encodings, under each encoder and across the two |
| PercentEncoding.EncodingStaysInSegment | opensovd-server/src/routes/entities/mod.rs:85-105 | neither encoder emits a slash, a question mark or a hash |
| PercentEncoding.ServerLeavesAlone | opensovd-server/src/routes/entities/mod.rs:83-100 | the bytes the server leaves alone are exactly the unreserved ones, the sub-delimiters, and backslash, caret and bar |
| PercentEncoding.ClientLeavesAlone | opensovd-client/src/client.rs:320-322 | the client leaves alone letters and digits and nothing else |
| PercentEncoding.HexDigits | opensovd-client/src/client.rs:320-322 | hexadecimal digits are written in upper case and read in either |
| PercentEncoding.WellFormedSegments | opensovd-server/src/routes/entities/mod.rs:83-105 | the client always emits a segment of RFC 3986; the server does exactly for ids without backslash, caret and bar |
| PercentEncoding.DotSegments | opensovd-server/src/routes/entities/mod.rs:85-105 | the client never emits a dot segment; the server does for the ids `.` and `..` only |
| RequestUri.RouteSegments | opensovd-client/src/entities/component.rs:20-63 | the router recognises the path template of every target but those with an empty id, and decodes the ids |
| RequestUri.ParseSegments | opensovd-client/src/entities/component.rs:20-63 | the template literals and decoded ids of every target are recovered from its segments |
| RequestUri.SplitJoinPath | opensovd-client/src/entities/component.rs:20-63 | splitting a path on slashes gives its segments back, if none holds a slash |
| RequestUri.ListPaths | opensovd-client/src/client.rs:163-189 | the paths of the three entity listings |
| RequestUri.ComponentDataPaths | opensovd-client/src/entities/component.rs:20-49 | the paths of a component's data, categories and groups |
| RequestUri.ComponentDataItemPath | opensovd-client/src/entities/component.rs:30-35 | the path of a data item of a component |
| RequestUri.ComponentRelationPaths | opensovd-client/src/entities/component.rs:52-63 | the paths of a component's relations |
| RequestUri.AppDataPaths | opensovd-client/src/entities/app.rs:20-49 | the paths of an app's data, categories and groups |
| RequestUri.AppDataItemPath | opensovd-client/src/entities/app.rs:30-35 | the path of a data item of an app |
| RequestUri.AppRelationPaths | opensovd-client/src/entities/app.rs:52-63 | the paths of an app's relations |
| RequestUri.AreaPaths | opensovd-client/src/entities/area.rs:17-22 | the path of an area's contents |
| RequestUri.QueryRoundTrip | opensovd-client/src/client.rs:336-342 | the query of a built URI splits back into its pairs if and only if no key holds `=`, `&` or `#` and no value `&` or `#` |
| RequestUri.PathRoundTrip | opensovd-client/src/client.rs:336-342 | cutting a built URI at the first question mark gives the base back, whatever the query |
| RequestUri.RequestRoundTrip | opensovd-client/src/client.rs:311-342 | every target of the client is recovered from its URI: template literals, decoded ids, and a query that asks for the schema exactly if it was wanted and holds nothing else; the router recognises it unless an id is empty |
| RequestUri.TargetsDiffer | opensovd-client/src/client.rs:311-342 | no two targets share a URI, with or without the schema asked for |

The router's side of `RequestUri` follows `opensovd-server/src/routes/data.rs:42-62` and
the `routes` functions of `opensovd-server/src/routes/entities/component.rs`, `app.rs` and
`area.rs`.

## Left out

- AreaMembersAreTheScan: one direction only, because its condition (re-adds keep the area) is stricter than needed; the condition that is also necessary is the one of IndexRefinesScan.
- OnlyWholeDiffsAreSeen: no writer other than discovery interleaves; in the server only `run_discovery` takes the write lock. EventLog has no such restriction.
- Topologies.TopologyWriteGuard.constructor: the class does not hold the lock; that a guard is made only when no reader or other guard is there is part of the step system in EventLog.
- Topologies.TopologyWriteGuard.Drop: that the batch is sent before the lock is released is, likewise, part of the step system in EventLog.
- RouteSegments: that no path with an empty parameter is matched is how the router of axum, which is not part of this repository, treats a segment of a route.
- Accept: dropping the listener while tasks run is not modelled, so handing over never fails; `accept` is not cancelled during its pause.
- Text: byte strings stand for UTF-8; a URI is not parsed, normalised or limited in length as `http::Uri` does.
- Names, tags, metadata, translation id and data provider of an entity are one opaque field, which the topology never reads.
- `IndexMap`, `IndexSet` and `HashMap` are values in class fields; hashing and aliasing are not captured.
- The `RwLock` is mutual exclusion, the broadcast channel an append-only log whose receivers may lag at any time (its capacity of 64 is not modelled), the `mpsc` channel a bounded queue, the semaphore a counter, timeouts and sleeps nondeterministic steps.
- `mem::forget` of a guard, panics and lock poisoning.
- Reading and writing values, the read and write adapters, and JSON schemas: opaque strings. Listing a built provider cannot fail, so the error path of the derived facets is absent.
- `areas()`, and the methods that push entities to an `EntityCollection`: one line each, used by no property.
- HTTP handlers, routing by axum, JSON shaping, schema generation and `Host` handling; the capability routes, which the client never requests.
- JWT and Rego authorisation, TLS cryptography and certificate loading.
- `ServerBuilder`, `ClientBuilder`, the command line, CORS, logging, systemd, Unix sockets, the MCP server, mocks and Python tests.
- `Unit`, `PhysicalDimension`, conversion of `DataCategory` and `normalize_base`.
