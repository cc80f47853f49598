/** Data providers: the facets every provider derives from its listing, a builder that
    registers resources and rejects repeated ids, and the built provider, whose own facet
    computations must return what the derived ones would. */
module DataProviders {
  import opened Wrappers
  import opened Sequences
  import opened IndexMaps

  datatype Metadata = Metadata(
    id: string,
    name: string,
    category: string,
    translationId: Option<string>,
    groups: seq<string>,
    tags: seq<string>,
    schema: Option<string>,
    isReadable: bool,
    isWritable: bool)

  datatype DataFilter = DataFilter(groups: seq<string>, categories: seq<string>, tags: seq<string>)

  const ALL := DataFilter([], [], [])

  datatype CategoryInfo = CategoryInfo(category: string, translationId: Option<string>)

  datatype GroupInfo = GroupInfo(
    id: string,
    category: string,
    categoryTranslationId: Option<string>,
    group: Option<string>,
    groupTranslationId: Option<string>)

  datatype TagInfo = TagInfo(id: string, description: Option<string>, translationId: Option<string>)

  // ---------------------------------------------------------------- listing

  /** Within a facet any of the wanted values will do; all facets must be met; an empty
      facet wants nothing. */
  predicate MatchesFilter(m: Metadata, f: DataFilter) {
    && (f.categories == [] || exists c :: c in f.categories && c == m.category)
    && (f.groups == [] || exists g :: g in f.groups && g in m.groups)
    && (f.tags == [] || exists t :: t in f.tags && t in m.tags)
  }

  /** The items that match, in order. */
  function Select(ms: seq<Metadata>, f: DataFilter): seq<Metadata> {
    if ms == [] then []
    else
      var pre, last := ms[..|ms| - 1], ms[|ms| - 1];
      Select(pre, f) + (if MatchesFilter(last, f) then [last] else [])
  }

  lemma {:induction false} SelectAll(ms: seq<Metadata>)
    ensures Select(ms, ALL) == ms
  {
    if ms != [] {
      SelectAll(ms[..|ms| - 1]);
    }
  }

  // ---------------------------------------------------------------- facets

  /** One entry for each category, from the first item that has it. */
  function CategoriesOf(ms: seq<Metadata>): seq<CategoryInfo> {
    if ms == [] then []
    else
      var pre, last := ms[..|ms| - 1], ms[|ms| - 1];
      CategoriesOf(pre) +
      (if exists m :: m in pre && m.category == last.category then []
       else [CategoryInfo(last.category, last.translationId)])
  }

  predicate InCategory(m: Metadata, category: Option<string>) {
    category.None? || m.category == category.value
  }

  /** A group mention: the group and the category of the item that mentions it. */
  type Mention = (string, string)

  function MentionsOf(m: Metadata, category: Option<string>): seq<Mention> {
    if InCategory(m, category) then seq(|m.groups|, i requires 0 <= i < |m.groups| => (m.groups[i], m.category)) else []
  }

  function Mentions(ms: seq<Metadata>, category: Option<string>): seq<Mention> {
    if ms == [] then []
    else Mentions(ms[..|ms| - 1], category) + MentionsOf(ms[|ms| - 1], category)
  }

  function ToGroup(mention: Mention): GroupInfo {
    GroupInfo(mention.0, mention.1, None, None, None)
  }

  /** One entry for each group, from its first mention. */
  function GroupsOf(mentions: seq<Mention>): seq<GroupInfo> {
    if mentions == [] then []
    else
      var pre, last := mentions[..|mentions| - 1], mentions[|mentions| - 1];
      GroupsOf(pre) + (if exists m :: m in pre && m.0 == last.0 then [] else [ToGroup(last)])
  }

  function AllTags(ms: seq<Metadata>): seq<string> {
    if ms == [] then [] else AllTags(ms[..|ms| - 1]) + ms[|ms| - 1].tags
  }

  /** One entry for each tag, at its first occurrence. */
  function TagsOf(tags: seq<string>): seq<TagInfo> {
    if tags == [] then []
    else
      var pre, last := tags[..|tags| - 1], tags[|tags| - 1];
      TagsOf(pre) + (if last in pre then [] else [TagInfo(last, None, None)])
  }

  lemma CategoriesStep(ms: seq<Metadata>, i: nat)
    requires i < |ms|
    ensures CategoriesOf(ms[..i + 1]) ==
            CategoriesOf(ms[..i]) +
            (if exists m :: m in ms[..i] && m.category == ms[i].category then []
             else [CategoryInfo(ms[i].category, ms[i].translationId)])
    ensures forall m :: m in ms[..i + 1] <==> m in ms[..i] || m == ms[i]
  {
    PrefixStep(ms, i);
    assert ms[..i + 1][..i] == ms[..i];
  }

  lemma MentionsStep(ms: seq<Metadata>, category: Option<string>, i: nat)
    requires i < |ms|
    ensures Mentions(ms[..i + 1], category) == Mentions(ms[..i], category) + MentionsOf(ms[i], category)
  {
    assert ms[..i + 1][..i] == ms[..i];
  }

  lemma AllTagsStep(ms: seq<Metadata>, i: nat)
    requires i < |ms|
    ensures AllTags(ms[..i + 1]) == AllTags(ms[..i]) + ms[i].tags
  {
    assert ms[..i + 1][..i] == ms[..i];
  }

  lemma GroupsStep(mentions: seq<Mention>, i: nat)
    requires i < |mentions|
    ensures GroupsOf(mentions[..i + 1]) ==
            GroupsOf(mentions[..i]) +
            (if exists m :: m in mentions[..i] && m.0 == mentions[i].0 then [] else [ToGroup(mentions[i])])
    ensures forall m :: m in mentions[..i + 1] <==> m in mentions[..i] || m == mentions[i]
  {
    PrefixStep(mentions, i);
    assert mentions[..i + 1][..i] == mentions[..i];
  }

  lemma TagsStep(tags: seq<string>, i: nat)
    requires i < |tags|
    ensures TagsOf(tags[..i + 1]) ==
              TagsOf(tags[..i]) + (if tags[i] in tags[..i] then [] else [TagInfo(tags[i], None, None)])
    ensures forall t :: t in tags[..i + 1] <==> t in tags[..i] || t == tags[i]
  {
    PrefixStep(tags, i);
    assert tags[..i + 1][..i] == tags[..i];
  }

  /** The facets a provider derives from its full listing unless it has its own. */
  method DefaultCategories(all: seq<Metadata>) returns (infos: seq<CategoryInfo>)
    ensures infos == CategoriesOf(all)
  {
    var seen: set<string> := {};
    infos := [];
    for i := 0 to |all|
      invariant infos == CategoriesOf(all[..i])
      invariant forall c :: c in seen <==> exists m :: m in all[..i] && m.category == c
    {
      var m := all[i];
      CategoriesStep(all, i);
      if m.category !in seen {
        seen := seen + {m.category};
        infos := infos + [CategoryInfo(m.category, m.translationId)];
      }
    }
    assert all[..|all|] == all;
  }

  /** Passes on the mentions whose group has not been seen. */
  method KeepUnseen(mentions: seq<Mention>) returns (infos: seq<GroupInfo>)
    ensures infos == GroupsOf(mentions)
  {
    var seen: set<string> := {};
    infos := [];
    for i := 0 to |mentions|
      invariant infos == GroupsOf(mentions[..i])
      invariant forall g :: g in seen <==> exists m :: m in mentions[..i] && m.0 == g
    {
      var m := mentions[i];
      GroupsStep(mentions, i);
      if m.0 !in seen {
        seen := seen + {m.0};
        infos := infos + [ToGroup(m)];
      }
    }
    assert mentions[..|mentions|] == mentions;
  }

  method DefaultGroups(all: seq<Metadata>, category: Option<string>) returns (infos: seq<GroupInfo>)
    ensures infos == GroupsOf(Mentions(all, category))
  {
    var mentions: seq<Mention> := [];
    for i := 0 to |all|
      invariant mentions == Mentions(all[..i], category)
    {
      MentionsStep(all, category, i);
      mentions := mentions + MentionsOf(all[i], category);
    }
    assert all[..|all|] == all;
    infos := KeepUnseen(mentions);
  }

  method KeepUnseenTags(tags: seq<string>) returns (infos: seq<TagInfo>)
    ensures infos == TagsOf(tags)
  {
    var seen: set<string> := {};
    infos := [];
    for i := 0 to |tags|
      invariant infos == TagsOf(tags[..i])
      invariant forall t :: t in seen <==> t in tags[..i]
    {
      TagsStep(tags, i);
      if tags[i] !in seen {
        seen := seen + {tags[i]};
        infos := infos + [TagInfo(tags[i], None, None)];
      }
    }
    assert tags[..|tags|] == tags;
  }

  method DefaultTags(all: seq<Metadata>) returns (infos: seq<TagInfo>)
    ensures infos == TagsOf(AllTags(all))
  {
    var tags: seq<string> := [];
    for i := 0 to |all|
      invariant tags == AllTags(all[..i])
    {
      AllTagsStep(all, i);
      tags := tags + all[i].tags;
    }
    assert all[..|all|] == all;
    infos := KeepUnseenTags(tags);
  }

  // ---------------------------------------------------------------- the built provider

  /** A registered resource; `resource` stands for the object that reads and writes the value. */
  datatype ResourceEntry = ResourceEntry(metadata: Metadata, resource: string)

  function Metadatas(entries: seq<ResourceEntry>): seq<Metadata> {
    seq(|entries|, i requires 0 <= i < |entries| => entries[i].metadata)
  }

  function Ids(entries: seq<ResourceEntry>): seq<string> {
    seq(|entries|, i requires 0 <= i < |entries| => entries[i].metadata.id)
  }

  datatype BuiltDataProvider = BuiltDataProvider(resources: IndexMap<ResourceEntry>) {

    function List(filter: DataFilter): seq<Metadata> {
      Select(Metadatas(resources.Values()), filter)
    }

    /** The provider's own categories, straight from the resources: what its listing implies. */
    method Categories() returns (infos: seq<CategoryInfo>)
      ensures infos == CategoriesOf(List(ALL))
    {
      var entries := resources.Values();
      ghost var all := Metadatas(entries);
      SelectAll(all);
      var seen: set<string> := {};
      infos := [];
      for i := 0 to |entries|
        invariant infos == CategoriesOf(all[..i])
        invariant forall c :: c in seen <==> exists m :: m in all[..i] && m.category == c
      {
        var r := entries[i];
        CategoriesStep(all, i);
        if r.metadata.category !in seen {
          seen := seen + {r.metadata.category};
          infos := infos + [CategoryInfo(r.metadata.category, r.metadata.translationId)];
        }
      }
      assert all[..|all|] == all;
    }

    method Groups(category: Option<string>) returns (infos: seq<GroupInfo>)
      ensures infos == GroupsOf(Mentions(List(ALL), category))
    {
      var entries := resources.Values();
      ghost var all := Metadatas(entries);
      SelectAll(all);
      var mentions: seq<Mention> := [];
      for i := 0 to |entries|
        invariant mentions == Mentions(all[..i], category)
      {
        MentionsStep(all, category, i);
        mentions := mentions + MentionsOf(entries[i].metadata, category);
      }
      assert all[..|all|] == all;
      infos := KeepUnseen(mentions);
    }

    method Tags() returns (infos: seq<TagInfo>)
      ensures infos == TagsOf(AllTags(List(ALL)))
    {
      var entries := resources.Values();
      ghost var all := Metadatas(entries);
      SelectAll(all);
      var tags: seq<string> := [];
      for i := 0 to |entries|
        invariant tags == AllTags(all[..i])
      {
        AllTagsStep(all, i);
        tags := tags + entries[i].metadata.tags;
      }
      assert all[..|all|] == all;
      infos := KeepUnseenTags(tags);
    }
  }

  // ---------------------------------------------------------------- the builder

  datatype BuildError = DuplicateResourceId(id: string)

  /** The calls on a builder: registering a resource, and the four modifiers. */
  datatype Call =
    | Add(entry: ResourceEntry)
    | SetGroups(groups: seq<string>)
    | SetTags(tags: seq<string>)
    | SetTranslationId(translationId: string)
    | SetSchema(schema: string)

  function Modify(m: Metadata, call: Call): Metadata {
    match call
    case Add(_) => m
    case SetGroups(groups) => m.(groups := groups)
    case SetTags(tags) => m.(tags := tags)
    case SetTranslationId(id) => m.(translationId := Some(id))
    case SetSchema(schema) => m.(schema := Some(schema))
  }

  /** A modifier edits the resource registered last; without one it does nothing. */
  function Register(entries: seq<ResourceEntry>, call: Call): seq<ResourceEntry> {
    if call.Add? then entries + [call.entry]
    else if entries == [] then []
    else
      var n := |entries| - 1;
      entries[..n] + [entries[n].(metadata := Modify(entries[n].metadata, call))]
  }

  function Registered(calls: seq<Call>): seq<ResourceEntry> {
    if calls == [] then [] else Register(Registered(calls[..|calls| - 1]), calls[|calls| - 1])
  }

  /** The positions of the registrations among the calls. */
  function Adds(calls: seq<Call>): seq<nat> {
    if calls == [] then []
    else
      var n := |calls| - 1;
      Adds(calls[..n]) + (if calls[n].Add? then [n] else [])
  }

  /** The value the last modifier of each sort sets, if there is one. */
  function LastGroups(calls: seq<Call>, otherwise: seq<string>): seq<string> {
    if calls == [] then otherwise
    else if calls[|calls| - 1].SetGroups? then calls[|calls| - 1].groups
    else LastGroups(calls[..|calls| - 1], otherwise)
  }

  function LastTags(calls: seq<Call>, otherwise: seq<string>): seq<string> {
    if calls == [] then otherwise
    else if calls[|calls| - 1].SetTags? then calls[|calls| - 1].tags
    else LastTags(calls[..|calls| - 1], otherwise)
  }

  function LastTranslationId(calls: seq<Call>, otherwise: Option<string>): Option<string> {
    if calls == [] then otherwise
    else if calls[|calls| - 1].SetTranslationId? then Some(calls[|calls| - 1].translationId)
    else LastTranslationId(calls[..|calls| - 1], otherwise)
  }

  function LastSchema(calls: seq<Call>, otherwise: Option<string>): Option<string> {
    if calls == [] then otherwise
    else if calls[|calls| - 1].SetSchema? then Some(calls[|calls| - 1].schema)
    else LastSchema(calls[..|calls| - 1], otherwise)
  }

  /** A resource as the modifiers after it leave it. */
  function Modified(e: ResourceEntry, modifiers: seq<Call>): ResourceEntry {
    var m := e.metadata;
    e.(metadata := m.(
      groups := LastGroups(modifiers, m.groups),
      tags := LastTags(modifiers, m.tags),
      translationId := LastTranslationId(modifiers, m.translationId),
      schema := LastSchema(modifiers, m.schema)))
  }

  /** The end of the modifiers of the k-th resource: the next registration, or the last call. */
  function EndOf(calls: seq<Call>, k: nat): nat {
    if k + 1 < |Adds(calls)| then Adds(calls)[k + 1] else |calls|
  }

  lemma {:induction false} AddsRise(calls: seq<Call>)
    ensures forall k | 0 <= k < |Adds(calls)| :: Adds(calls)[k] < |calls| && calls[Adds(calls)[k]].Add?
    ensures forall k | 0 <= k < |Adds(calls)| :: Adds(calls)[k] < EndOf(calls, k) <= |calls|
  {
    if calls != [] {
      var n := |calls| - 1;
      AddsRise(calls[..n]);
      var was, now := Adds(calls[..n]), Adds(calls);
      forall k | 0 <= k < |now| ensures now[k] < EndOf(calls, k) <= |calls| {
        if k < |was| {
          assert was[k] == now[k] && was[k] < EndOf(calls[..n], k);
        }
      }
    }
  }

  /** The k-th registration. */
  function AddedEntry(calls: seq<Call>, k: nat): ResourceEntry
    requires k < |Adds(calls)|
  {
    AddsRise(calls);
    calls[Adds(calls)[k]].entry
  }

  /** The k-th registration as the modifiers between it and the next one leave it. */
  function FinalEntry(calls: seq<Call>, k: nat): ResourceEntry
    requires k < |Adds(calls)|
  {
    AddsRise(calls);
    Modified(AddedEntry(calls, k), calls[Adds(calls)[k] + 1..EndOf(calls, k)])
  }

  function AddedIds(calls: seq<Call>): seq<string> {
    seq(|Adds(calls)|, k requires 0 <= k < |Adds(calls)| => AddedEntry(calls, k).metadata.id)
  }

  function FinalEntries(calls: seq<Call>): seq<ResourceEntry> {
    seq(|Adds(calls)|, k requires 0 <= k < |Adds(calls)| => FinalEntry(calls, k))
  }

  lemma RegisteredSnoc(calls: seq<Call>, call: Call)
    ensures Registered(calls + [call]) == Register(Registered(calls), call)
  {
    assert (calls + [call])[..|calls|] == calls;
  }

  class DataProviderBuilder {
    var resources: seq<ResourceEntry>
    ghost var calls: seq<Call>

    ghost predicate Valid()
      reads this
    {
      resources == Registered(calls)
    }

    constructor ()
      ensures Valid() && calls == []
    {
      resources, calls := [], [];
    }

    method ReadData(id: string, name: string, category: string, schema: string, resource: string)
      requires Valid()
      modifies this
      ensures Valid() && |calls| == |old(calls)| + 1 && calls == old(calls) + [calls[|calls| - 1]]
      ensures calls[|calls| - 1] == Add(ResourceEntry(
                metadata := Metadata(id := id, name := name, category := category, translationId := None,
                  groups := [], tags := [], schema := Some(schema), isReadable := true, isWritable := false),
                resource := resource))
    {
      var metadata := Metadata(id, name, category, None, [], [], Some(schema), true, false);
      var entry := ResourceEntry(metadata, resource);
      resources := resources + [entry];
      calls := calls + [Add(entry)];
      RegisteredSnoc(old(calls), Add(entry));
    }

    method WriteData(id: string, name: string, category: string, schema: string, resource: string)
      requires Valid()
      modifies this
      ensures Valid() && |calls| == |old(calls)| + 1 && calls == old(calls) + [calls[|calls| - 1]]
      ensures calls[|calls| - 1] == Add(ResourceEntry(
                metadata := Metadata(id := id, name := name, category := category, translationId := None,
                  groups := [], tags := [], schema := Some(schema), isReadable := false, isWritable := true),
                resource := resource))
    {
      var metadata := Metadata(id, name, category, None, [], [], Some(schema), false, true);
      var entry := ResourceEntry(metadata, resource);
      resources := resources + [entry];
      calls := calls + [Add(entry)];
      RegisteredSnoc(old(calls), Add(entry));
    }

    method Data(id: string, name: string, category: string, schema: string, resource: string)
      requires Valid()
      modifies this
      ensures Valid() && |calls| == |old(calls)| + 1 && calls == old(calls) + [calls[|calls| - 1]]
      ensures calls[|calls| - 1] == Add(ResourceEntry(
                metadata := Metadata(id := id, name := name, category := category, translationId := None,
                  groups := [], tags := [], schema := Some(schema), isReadable := true, isWritable := true),
                resource := resource))
    {
      var metadata := Metadata(id, name, category, None, [], [], Some(schema), true, true);
      var entry := ResourceEntry(metadata, resource);
      resources := resources + [entry];
      calls := calls + [Add(entry)];
      RegisteredSnoc(old(calls), Add(entry));
    }

    method Groups(groups: seq<string>)
      requires Valid()
      modifies this
      ensures Valid() && calls == old(calls) + [SetGroups(groups)]
    {
      if |resources| > 0 {
        var last := resources[|resources| - 1];
        resources := resources[|resources| - 1 := last.(metadata := last.metadata.(groups := groups))];
      }
      calls := calls + [SetGroups(groups)];
      RegisteredSnoc(old(calls), SetGroups(groups));
    }

    method Tags(tags: seq<string>)
      requires Valid()
      modifies this
      ensures Valid() && calls == old(calls) + [SetTags(tags)]
    {
      if |resources| > 0 {
        var last := resources[|resources| - 1];
        resources := resources[|resources| - 1 := last.(metadata := last.metadata.(tags := tags))];
      }
      calls := calls + [SetTags(tags)];
      RegisteredSnoc(old(calls), SetTags(tags));
    }

    method TranslationId(id: string)
      requires Valid()
      modifies this
      ensures Valid() && calls == old(calls) + [SetTranslationId(id)]
    {
      if |resources| > 0 {
        var last := resources[|resources| - 1];
        resources := resources[|resources| - 1 := last.(metadata := last.metadata.(translationId := Some(id)))];
      }
      calls := calls + [SetTranslationId(id)];
      RegisteredSnoc(old(calls), SetTranslationId(id));
    }

    method Schema(schema: string)
      requires Valid()
      modifies this
      ensures Valid() && calls == old(calls) + [SetSchema(schema)]
    {
      if |resources| > 0 {
        var last := resources[|resources| - 1];
        resources := resources[|resources| - 1 := last.(metadata := last.metadata.(schema := Some(schema)))];
      }
      calls := calls + [SetSchema(schema)];
      RegisteredSnoc(old(calls), SetSchema(schema));
    }

    /** Succeeds exactly when the registered ids are distinct, and then holds and lists the
        registrations in order, each with the modifiers called before the next; otherwise
        the error names the id at the smallest index that repeats an earlier one. */
    method Build() returns (r: Result<BuiltDataProvider, BuildError>)
      requires Valid()
      ensures r.Ok? <==> NoDup(AddedIds(calls))
      ensures r.Ok? ==> r.value.resources.Valid() && r.value.resources.keys == AddedIds(calls)
      ensures r.Ok? ==> r.value.resources.Values() == FinalEntries(calls)
      ensures r.Ok? ==> r.value.List(ALL) == Metadatas(FinalEntries(calls))
      ensures r.Err? ==> exists j: nat :: FirstRepeat(AddedIds(calls), j) && r.error.id == AddedIds(calls)[j]
    {
      RegistrationsAreFinal(calls);
      var built: IndexMap<ResourceEntry> := IndexMap([], map[]);
      for i := 0 to |resources|
        invariant Built(built, resources, i)
      {
        var entry := resources[i];
        var before := built;
        built := built.Insert(entry.metadata.id, entry);
        if entry.metadata.id in before.entries {
          RepeatFound(before, resources, i);
          return Err(DuplicateResourceId(entry.metadata.id));
        }
        BuiltOneMore(before, resources, i);
      }
      BuiltAll(built, resources);
      r := Ok(BuiltDataProvider(built));
    }
  }

  /** The map holds the first i resources under their ids, in order. */
  ghost predicate Built(m: IndexMap<ResourceEntry>, entries: seq<ResourceEntry>, i: nat) {
    && i <= |entries|
    && m.Valid()
    && m.keys == Ids(entries)[..i]
    && (forall k | 0 <= k < i :: m.entries[Ids(entries)[k]] == entries[k])
  }

  lemma BuiltKey(m: IndexMap<ResourceEntry>, entries: seq<ResourceEntry>, i: nat, k: nat)
    requires Built(m, entries, i) && k < i
    ensures Ids(entries)[k] in m.entries
  {
    assert m.keys[k] == Ids(entries)[k] && m.keys[k] in m.keys;
  }

  lemma BuiltOneMore(m: IndexMap<ResourceEntry>, entries: seq<ResourceEntry>, i: nat)
    requires Built(m, entries, i) && i < |entries| && entries[i].metadata.id !in m.entries
    ensures Built(m.Insert(entries[i].metadata.id, entries[i]), entries, i + 1)
  {
    var ids := Ids(entries);
    var n := m.Insert(ids[i], entries[i]);
    InsertValid(m, ids[i], entries[i]);
    PrefixStep(ids, i);
    forall k | 0 <= k < i + 1 ensures n.entries[ids[k]] == entries[k] {
      if k < i {
        BuiltKey(m, entries, i, k);
      }
    }
  }

  lemma RepeatFound(m: IndexMap<ResourceEntry>, entries: seq<ResourceEntry>, i: nat)
    requires Built(m, entries, i) && i < |entries| && entries[i].metadata.id in m.entries
    ensures FirstRepeat(Ids(entries), i) && !NoDup(Ids(entries))
  {
    var ids := Ids(entries);
    assert ids[i] in m.keys;
    var k :| 0 <= k < i && ids[..i][k] == ids[i];
    assert ids[k] == ids[i];
  }

  lemma BuiltAll(m: IndexMap<ResourceEntry>, entries: seq<ResourceEntry>)
    requires Built(m, entries, |entries|)
    ensures NoDup(Ids(entries)) && m.Values() == entries && m.keys == Ids(entries)
    ensures BuiltDataProvider(m).List(ALL) == Metadatas(entries)
  {
    assert Ids(entries)[..|entries|] == Ids(entries);
    ValuesInOrder(m, entries);
    SelectAll(Metadatas(entries));
  }

  /** The id at j repeats an earlier one, and no smaller index does. */
  ghost predicate FirstRepeat(ids: seq<string>, j: nat) {
    j < |ids| && ids[j] in ids[..j] && NoDup(ids[..j])
  }

  lemma ValuesInOrder(m: IndexMap<ResourceEntry>, entries: seq<ResourceEntry>)
    requires m.Valid() && m.keys == Ids(entries)
    requires forall k | 0 <= k < |entries| :: m.entries[m.keys[k]] == entries[k]
    ensures m.Values() == entries
  {
    LookupAll(m.keys, m.entries, entries);
  }

  lemma {:induction false} LookupAll(keys: seq<string>, m: map<string, ResourceEntry>, entries: seq<ResourceEntry>)
    requires |keys| == |entries|
    requires forall k | 0 <= k < |keys| :: keys[k] in m && m[keys[k]] == entries[k]
    ensures Lookup(keys, m) == entries
  {
    if keys != [] {
      LookupAll(keys[1..], m, entries[1..]);
      assert entries == [entries[0]] + entries[1..];
    }
  }

  // ---------------------------------------------------------------- modifiers follow their resource

  /** Entry k of the builder is the k-th registration with exactly the modifiers that were
      called between it and the next registration; modifiers before the first registration
      have no effect. */
  lemma {:induction false} ModifiersFollow(calls: seq<Call>)
    ensures |Registered(calls)| == |Adds(calls)|
    ensures forall k | 0 <= k < |Registered(calls)| :: Follows(calls, Registered(calls), k)
  {
    if calls != [] {
      var n := |calls| - 1;
      var pre, last := calls[..n], calls[n];
      ModifiersFollow(pre);
      AddsRise(pre);
      AddsRise(calls);
      var was, now := Registered(pre), Registered(calls);
      forall k | 0 <= k < |now| ensures Follows(calls, now, k) {
        if k < |was| {
          assert Follows(pre, was, k);
          FollowsOn(calls, was, now, k);
        } else {
          assert calls[n + 1..] == [];
        }
      }
    }
  }

  lemma FollowsIsFinal(calls: seq<Call>, entries: seq<ResourceEntry>, k: nat)
    requires Follows(calls, entries, k)
    ensures entries[k] == FinalEntry(calls, k) && entries[k].metadata.id == AddedEntry(calls, k).metadata.id
  {
  }

  /** What the builder holds after any calls is the registrations in their final form. */
  lemma RegistrationsAreFinal(calls: seq<Call>)
    ensures Registered(calls) == FinalEntries(calls)
    ensures Ids(Registered(calls)) == AddedIds(calls)
  {
    ModifiersFollow(calls);
    var entries := Registered(calls);
    forall k | 0 <= k < |entries|
      ensures entries[k] == FinalEntries(calls)[k] && entries[k].metadata.id == AddedIds(calls)[k]
    {
      FollowsIsFinal(calls, entries, k);
    }
  }

  ghost predicate Follows(calls: seq<Call>, entries: seq<ResourceEntry>, k: nat) {
    && k < |entries| && k < |Adds(calls)|
    && Spans(calls, entries[k], Adds(calls)[k], EndOf(calls, k))
  }

  /** The call at i registers the entry, and the modifiers up to e leave it like this. */
  ghost predicate Spans(calls: seq<Call>, entry: ResourceEntry, i: nat, e: nat) {
    && i < e <= |calls| && calls[i].Add?
    && entry == Modified(calls[i].entry, calls[i + 1..e])
  }

  lemma EndMoves(calls: seq<Call>, k: nat)
    requires calls != [] && k < |Adds(calls[..|calls| - 1])|
    ensures k < |Adds(calls)| && Adds(calls)[k] == Adds(calls[..|calls| - 1])[k]
    ensures var pre, last := calls[..|calls| - 1], calls[|calls| - 1];
            if k == |Adds(pre)| - 1 && !last.Add? then EndOf(pre, k) == |pre| && EndOf(calls, k) == |calls|
            else EndOf(calls, k) == EndOf(pre, k)
  {
    var n := |calls| - 1;
    assert Adds(calls) == Adds(calls[..n]) + (if calls[n].Add? then [n] else []);
  }

  lemma FollowsOn(calls: seq<Call>, was: seq<ResourceEntry>, now: seq<ResourceEntry>, k: nat)
    requires calls != [] && now == Register(was, calls[|calls| - 1])
    requires |was| == |Adds(calls[..|calls| - 1])| && Follows(calls[..|calls| - 1], was, k)
    requires Adds(calls[..|calls| - 1])[k] < EndOf(calls, k) <= |calls|
    ensures Follows(calls, now, k)
  {
    var last := calls[|calls| - 1];
    EndMoves(calls, k);
    var i, e := Adds(calls)[k], EndOf(calls[..|calls| - 1], k);
    KeptSpans(calls, |calls| - 1, was[k], i, e);
    if k == |was| - 1 && !last.Add? {
      RegisterModifies(was, last);
      ModifiedSpans(calls, |calls| - 1, was[k], i);
    } else {
      RegisterKeeps(was, last, k);
    }
  }

  lemma KeptSpans(calls: seq<Call>, n: nat, entry: ResourceEntry, i: nat, e: nat)
    requires n <= |calls| && Spans(calls[..n], entry, i, e)
    ensures Spans(calls, entry, i, e)
  {
    SliceOfPrefix(calls, n, i + 1, e);
  }

  lemma ModifiedSpans(calls: seq<Call>, n: nat, entry: ResourceEntry, i: nat)
    requires |calls| == n + 1 && Spans(calls, entry, i, n)
    ensures Spans(calls, entry.(metadata := Modify(entry.metadata, calls[n])), i, n + 1)
  {
    SliceSnoc(calls, i + 1);
    assert calls[i + 1..n + 1] == calls[i + 1..];
    ModifyOnce(calls[i].entry, calls[i + 1..n], calls[n]);
  }

  lemma RegisterModifies(entries: seq<ResourceEntry>, call: Call)
    requires entries != [] && !call.Add?
    ensures var n := |entries| - 1;
            |Register(entries, call)| == |entries| &&
            Register(entries, call)[n] == entries[n].(metadata := Modify(entries[n].metadata, call))
  {
  }

  lemma RegisterKeeps(entries: seq<ResourceEntry>, call: Call, k: nat)
    requires k < |entries| && (call.Add? || k < |entries| - 1)
    ensures k < |Register(entries, call)| && Register(entries, call)[k] == entries[k]
  {
  }

  lemma ModifyOnce(e: ResourceEntry, modifiers: seq<Call>, last: Call)
    ensures var m := Modified(e, modifiers);
            Modified(e, modifiers + [last]) == m.(metadata := Modify(m.metadata, last))
  {
    assert (modifiers + [last])[..|modifiers|] == modifiers;
  }
}
