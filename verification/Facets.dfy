/** What the facets of a built provider say about its listing. */
module Facets {
  import opened Wrappers
  import opened Sequences
  import opened IndexMaps
  import opened DataProviders

  /** The filter for one group, if given, in one category, if given. */
  function ByGroup(g: string, category: Option<string>): DataFilter {
    DataFilter([g], if category.Some? then [category.value] else [], [])
  }

  function ByCategory(c: string): DataFilter { DataFilter([], [c], []) }

  function ByTag(t: string): DataFilter { DataFilter([], [], [t]) }

  lemma FilterMeaning(m: Metadata, c: string, t: string, g: string, category: Option<string>)
    ensures MatchesFilter(m, ByCategory(c)) <==> m.category == c
    ensures MatchesFilter(m, ByTag(t)) <==> t in m.tags
    ensures MatchesFilter(m, ByGroup(g, category)) <==> g in m.groups && InCategory(m, category)
  {
    assert c in [c] && t in [t] && g in [g];
    assert category.Some? ==> category.value in [category.value];
  }

  /** A filter wants all of its facets met. */
  lemma FacetsAllMet(m: Metadata, f: DataFilter)
    ensures MatchesFilter(m, f) <==>
            && MatchesFilter(m, DataFilter(f.groups, [], []))
            && MatchesFilter(m, DataFilter([], f.categories, []))
            && MatchesFilter(m, DataFilter([], [], f.tags))
  {
  }

  /** Within a facet any one of the wanted values will do. */
  lemma AnyWantedWillDo(m: Metadata, f: DataFilter, a: seq<string>, b: seq<string>)
    requires a != [] && b != []
    ensures MatchesFilter(m, f.(groups := a + b)) <==>
            MatchesFilter(m, f.(groups := a)) || MatchesFilter(m, f.(groups := b))
    ensures MatchesFilter(m, f.(categories := a + b)) <==>
            MatchesFilter(m, f.(categories := a)) || MatchesFilter(m, f.(categories := b))
    ensures MatchesFilter(m, f.(tags := a + b)) <==>
            MatchesFilter(m, f.(tags := a)) || MatchesFilter(m, f.(tags := b))
  {
    assert a + b != [];
    assert forall x :: x in a + b <==> x in a || x in b;
  }

  /** Listing with a filter, exactly: some positions of the full listing, in order, and
      just those whose item matches. */
  lemma ListIsMatching(p: BuiltDataProvider, f: DataFilter) returns (kept: seq<nat>)
    ensures KeptBy(p.List(ALL), f, kept, p.List(f))
  {
    ListSelects(p, f);
    kept := SelectPositions(p.List(ALL), f);
  }

  /** sel is the items of ms at the positions kept, which are those that match, in order. */
  ghost predicate KeptBy(ms: seq<Metadata>, f: DataFilter, kept: seq<nat>, sel: seq<Metadata>) {
    && |kept| == |sel|
    && (forall j, k | 0 <= j < k < |kept| :: kept[j] < kept[k])
    && (forall i: nat :: i in kept <==> i < |ms| && MatchesFilter(ms[i], f))
    && (forall k | 0 <= k < |kept| :: kept[k] < |ms| && sel[k] == ms[kept[k]])
  }

  lemma KeepNext(ms: seq<Metadata>, f: DataFilter, kept: seq<nat>, sel: seq<Metadata>, last: Metadata)
    requires KeptBy(ms, f, kept, sel)
    ensures MatchesFilter(last, f) ==> KeptBy(ms + [last], f, kept + [|ms|], sel + [last])
    ensures !MatchesFilter(last, f) ==> KeptBy(ms + [last], f, kept, sel)
  {
    var now := ms + [last];
    assert forall i | 0 <= i < |ms| :: now[i] == ms[i];
    assert forall i :: i in kept + [|ms|] <==> i in kept || i == |ms|;
  }

  lemma {:induction false} SelectPositions(ms: seq<Metadata>, f: DataFilter) returns (kept: seq<nat>)
    ensures KeptBy(ms, f, kept, Select(ms, f))
  {
    if ms == [] {
      kept := [];
    } else {
      var pre, last := ms[..|ms| - 1], ms[|ms| - 1];
      kept := SelectPositions(pre, f);
      KeepNext(pre, f, kept, Select(pre, f), last);
      assert ms == pre + [last];
      if MatchesFilter(last, f) {
        kept := kept + [|pre|];
      } else {
        AppendNothing(Select(pre, f));
      }
    }
  }

  lemma {:induction false} SelectMember(ms: seq<Metadata>, f: DataFilter, m: Metadata)
    ensures m in Select(ms, f) <==> m in ms && MatchesFilter(m, f)
  {
    if ms != [] {
      SelectMember(ms[..|ms| - 1], f, m);
      MemberSnoc(ms, m);
    }
  }

  lemma {:induction false} SelectNone(ms: seq<Metadata>, f: DataFilter)
    ensures Select(ms, f) == [] <==> forall m | m in ms :: !MatchesFilter(m, f)
  {
    if ms != [] {
      var pre, last := ms[..|ms| - 1], ms[|ms| - 1];
      SelectNone(pre, f);
      assert ms == pre + [last];
      assert last in ms && forall m | m in pre :: m in ms;
    }
  }

  // ---------------------------------------------------------------- categories

  lemma {:induction false} CategoryMember(ms: seq<Metadata>, c: string)
    ensures (exists ci :: ci in CategoriesOf(ms) && ci.category == c) <==> exists m :: m in ms && m.category == c
  {
    if ms != [] {
      var pre, last := ms[..|ms| - 1], ms[|ms| - 1];
      CategoryMember(pre, c);
      assert ms == pre + [last];
      assert forall m :: m in ms <==> m in pre || m == last;
      var more :=
        if exists m :: m in pre && m.category == last.category then []
        else [CategoryInfo(last.category, last.translationId)];
      assert forall ci :: ci in CategoriesOf(ms) <==> ci in CategoriesOf(pre) || ci in more;
    }
  }

  lemma {:induction false} CategoriesDistinct(ms: seq<Metadata>)
    ensures forall i, j | 0 <= i < j < |CategoriesOf(ms)| ::
              CategoriesOf(ms)[i].category != CategoriesOf(ms)[j].category
  {
    if ms != [] {
      var pre, last := ms[..|ms| - 1], ms[|ms| - 1];
      CategoriesDistinct(pre);
      CategoryMember(pre, last.category);
      var was, now := CategoriesOf(pre), CategoriesOf(ms);
      forall i, j | 0 <= i < j < |now| ensures now[i].category != now[j].category {
        assert now[i] == was[i] && was[i] in was;
        assert j < |was| ==> now[j] == was[j];
      }
    }
  }

  lemma {:induction false} CategoryFromFirst(ms: seq<Metadata>, ci: CategoryInfo)
    requires ci in CategoriesOf(ms)
    ensures Select(ms, ByCategory(ci.category)) != []
    ensures Select(ms, ByCategory(ci.category))[0].translationId == ci.translationId
  {
    var pre, last := ms[..|ms| - 1], ms[|ms| - 1];
    FilterMeaning(last, ci.category, "", "", None);
    if ci in CategoriesOf(pre) {
      CategoryFromFirst(pre, ci);
    } else {
      assert ci == CategoryInfo(last.category, last.translationId);
      forall m | m in pre ensures !MatchesFilter(m, ByCategory(ci.category)) {
        FilterMeaning(m, ci.category, "", "", None);
      }
      SelectNone(pre, ByCategory(ci.category));
    }
  }

  // ---------------------------------------------------------------- tags

  lemma {:induction false} TagMember(tags: seq<string>, t: string)
    ensures (exists ti :: ti in TagsOf(tags) && ti.id == t) <==> t in tags
    ensures forall ti | ti in TagsOf(tags) :: ti == TagInfo(ti.id, None, None)
  {
    if tags != [] {
      var pre, last := tags[..|tags| - 1], tags[|tags| - 1];
      TagMember(pre, t);
      TagMember(pre, last);
      assert tags == pre + [last];
      var more := if last in pre then [] else [TagInfo(last, None, None)];
      assert forall ti :: ti in TagsOf(tags) <==> ti in TagsOf(pre) || ti in more;
    }
  }

  lemma {:induction false} TagsDistinct(tags: seq<string>)
    ensures NoDup(TagsOf(tags))
  {
    if tags != [] {
      var pre, last := tags[..|tags| - 1], tags[|tags| - 1];
      TagsDistinct(pre);
      TagMember(pre, last);
    }
  }

  lemma {:induction false} AllTagsMember(ms: seq<Metadata>, t: string)
    ensures t in AllTags(ms) <==> exists m :: m in ms && t in m.tags
  {
    if ms != [] {
      var pre, last := ms[..|ms| - 1], ms[|ms| - 1];
      AllTagsMember(pre, t);
      assert ms == pre + [last];
    }
  }

  // ---------------------------------------------------------------- groups

  lemma {:induction false} GroupMember(mentions: seq<Mention>, g: string)
    ensures (exists gi :: gi in GroupsOf(mentions) && gi.id == g) <==> exists m :: m in mentions && m.0 == g
  {
    if mentions != [] {
      var pre, last := mentions[..|mentions| - 1], mentions[|mentions| - 1];
      GroupMember(pre, g);
      assert mentions == pre + [last];
      assert forall m :: m in mentions <==> m in pre || m == last;
      var more := if exists m :: m in pre && m.0 == last.0 then [] else [ToGroup(last)];
      assert forall gi :: gi in GroupsOf(mentions) <==> gi in GroupsOf(pre) || gi in more;
    }
  }

  lemma {:induction false} GroupsDistinct(mentions: seq<Mention>)
    ensures forall i, j | 0 <= i < j < |GroupsOf(mentions)| :: GroupsOf(mentions)[i].id != GroupsOf(mentions)[j].id
  {
    if mentions != [] {
      var pre, last := mentions[..|mentions| - 1], mentions[|mentions| - 1];
      GroupsDistinct(pre);
      GroupMember(pre, last.0);
      var was, now := GroupsOf(pre), GroupsOf(mentions);
      forall i, j | 0 <= i < j < |now| ensures now[i].id != now[j].id {
        assert now[i] == was[i] && was[i] in was;
        assert j < |was| ==> now[j] == was[j];
      }
    }
  }

  lemma MentionOne(m: Metadata, category: Option<string>, g: string)
    ensures (exists k :: k in MentionsOf(m, category) && k.0 == g) <==> g in m.groups && InCategory(m, category)
    ensures forall k | k in MentionsOf(m, category) :: k.1 == m.category
  {
    if g in m.groups && InCategory(m, category) {
      var i :| 0 <= i < |m.groups| && m.groups[i] == g;
      assert MentionsOf(m, category)[i] == (g, m.category);
    }
  }

  lemma MentionConcat(a: seq<Mention>, b: seq<Mention>, g: string)
    ensures (exists k :: k in a + b && k.0 == g) <==>
            (exists k :: k in a && k.0 == g) || (exists k :: k in b && k.0 == g)
  {
    assert forall k :: k in a + b <==> k in a || k in b;
  }

  lemma MatchSnoc(ms: seq<Metadata>, f: DataFilter)
    requires ms != []
    ensures (exists m :: m in ms && MatchesFilter(m, f)) <==>
            (exists m :: m in ms[..|ms| - 1] && MatchesFilter(m, f)) || MatchesFilter(ms[|ms| - 1], f)
  {
    assert ms == ms[..|ms| - 1] + [ms[|ms| - 1]];
  }

  lemma {:induction false} MentionMember(ms: seq<Metadata>, category: Option<string>, g: string)
    ensures (exists k :: k in Mentions(ms, category) && k.0 == g) <==>
            exists m :: m in ms && MatchesFilter(m, ByGroup(g, category))
  {
    if ms != [] {
      var pre, last := ms[..|ms| - 1], ms[|ms| - 1];
      MentionMember(pre, category, g);
      MentionConcat(Mentions(pre, category), MentionsOf(last, category), g);
      MatchSnoc(ms, ByGroup(g, category));
      MentionOne(last, category, g);
      FilterMeaning(last, "", "", g, category);
    }
  }

  /** The first mention of g, which is where its entry comes from. */
  function FirstMention(mentions: seq<Mention>, g: string): Option<Mention> {
    if mentions == [] then None
    else
      var before := FirstMention(mentions[..|mentions| - 1], g);
      if before.Some? then before
      else if mentions[|mentions| - 1].0 == g then Some(mentions[|mentions| - 1])
      else None
  }

  lemma {:induction false} FirstMentionSome(mentions: seq<Mention>, g: string)
    ensures FirstMention(mentions, g).Some? <==> exists m :: m in mentions && m.0 == g
    ensures FirstMention(mentions, g).Some? ==> FirstMention(mentions, g).value in mentions
  {
    if mentions != [] {
      var pre, last := mentions[..|mentions| - 1], mentions[|mentions| - 1];
      FirstMentionSome(pre, g);
      assert mentions == pre + [last];
    }
  }

  lemma {:induction false} GroupFromFirst(mentions: seq<Mention>, gi: GroupInfo)
    requires gi in GroupsOf(mentions)
    ensures FirstMention(mentions, gi.id).Some? && gi == ToGroup(FirstMention(mentions, gi.id).value)
  {
    var pre, last := mentions[..|mentions| - 1], mentions[|mentions| - 1];
    if gi in GroupsOf(pre) {
      GroupFromFirst(pre, gi);
    } else {
      FirstMentionSome(pre, gi.id);
    }
  }

  lemma {:induction false} FirstMentionConcat(a: seq<Mention>, b: seq<Mention>, g: string)
    ensures FirstMention(a + b, g) == if FirstMention(a, g).Some? then FirstMention(a, g) else FirstMention(b, g)
  {
    if b == [] {
      AppendNothing(a);
    } else {
      FrontOfConcat(a, b);
      FirstMentionConcat(a, b[..|b| - 1], g);
    }
  }

  /** The category at a group's first mention is that of the first item listed for the group. */
  lemma {:induction false} FirstMentionIsFirstItem(ms: seq<Metadata>, category: Option<string>, g: string)
    ensures FirstMention(Mentions(ms, category), g).Some? <==> Select(ms, ByGroup(g, category)) != []
    ensures FirstMention(Mentions(ms, category), g).Some? ==>
              Select(ms, ByGroup(g, category)) != [] &&
              FirstMention(Mentions(ms, category), g).value.1 == Select(ms, ByGroup(g, category))[0].category
  {
    if ms != [] {
      var pre, last := ms[..|ms| - 1], ms[|ms| - 1];
      FirstMentionIsFirstItem(pre, category, g);
      FirstMentionConcat(Mentions(pre, category), MentionsOf(last, category), g);
      FirstMentionSome(MentionsOf(last, category), g);
      MentionOne(last, category, g);
      FilterMeaning(last, "", "", g, category);
    }
  }

  // ---------------------------------------------------------------- order

  function CategoryNames(ms: seq<Metadata>): seq<string> {
    seq(|ms|, i requires 0 <= i < |ms| => ms[i].category)
  }

  function GroupLists(ms: seq<Metadata>): seq<seq<string>> {
    seq(|ms|, i requires 0 <= i < |ms| => ms[i].groups)
  }

  function TagLists(ms: seq<Metadata>): seq<seq<string>> {
    seq(|ms|, i requires 0 <= i < |ms| => ms[i].tags)
  }

  /** The items of one category, or of all. */
  function InCategories(category: Option<string>): DataFilter {
    DataFilter([], if category.Some? then [category.value] else [], [])
  }

  lemma {:induction false} CategoriesInOrder(ms: seq<Metadata>)
    ensures forall i, j | 0 <= i < j < |CategoriesOf(ms)| ::
              FirstBefore(CategoryNames(ms), CategoriesOf(ms)[i].category, CategoriesOf(ms)[j].category)
    ensures forall ci | ci in CategoriesOf(ms) :: ci.category in CategoryNames(ms)
  {
    if ms != [] {
      var pre, last := ms[..|ms| - 1], ms[|ms| - 1];
      CategoriesInOrder(pre);
      var names, was, now := CategoryNames(ms), CategoriesOf(pre), CategoriesOf(ms);
      assert names == CategoryNames(pre) + [last.category];
      assert names[..|names| - 1] == CategoryNames(pre);
      forall i, j | 0 <= i < j < |now| ensures FirstBefore(names, now[i].category, now[j].category) {
        assert now[i] == was[i] && was[i] in was;
        if j < |was| {
          FirstBeforeLonger(names, now[i].category, now[j].category);
        } else {
          NotNamedBefore(pre, last.category);
          NewComesLast(names, now[i].category);
        }
      }
    }
  }

  lemma NotNamedBefore(ms: seq<Metadata>, c: string)
    ensures c in CategoryNames(ms) <==> exists m :: m in ms && m.category == c
  {
    if c in CategoryNames(ms) {
      var i :| 0 <= i < |ms| && CategoryNames(ms)[i] == c;
      assert ms[i] in ms;
    }
    if m :| m in ms && m.category == c {
      var i :| 0 <= i < |ms| && ms[i] == m;
      assert CategoryNames(ms)[i] == c;
    }
  }

  lemma {:induction false} TagsInOrder(tags: seq<string>)
    ensures forall i, j | 0 <= i < j < |TagsOf(tags)| :: FirstBefore(tags, TagsOf(tags)[i].id, TagsOf(tags)[j].id)
    ensures forall ti | ti in TagsOf(tags) :: ti.id in tags
  {
    if tags != [] {
      var pre, last := tags[..|tags| - 1], tags[|tags| - 1];
      TagsInOrder(pre);
      assert tags == pre + [last];
      var was, now := TagsOf(pre), TagsOf(tags);
      forall i, j | 0 <= i < j < |now| ensures FirstBefore(tags, now[i].id, now[j].id) {
        assert now[i] == was[i] && was[i] in was;
        if j < |was| {
          FirstBeforeLonger(tags, now[i].id, now[j].id);
        } else {
          NewComesLast(tags, now[i].id);
        }
      }
    }
  }

  /** The groups mentioned, in order. */
  function Mentioned(mentions: seq<Mention>): seq<string> {
    seq(|mentions|, i requires 0 <= i < |mentions| => mentions[i].0)
  }

  lemma MentionedMember(mentions: seq<Mention>, g: string)
    ensures g in Mentioned(mentions) <==> exists m :: m in mentions && m.0 == g
  {
    if g in Mentioned(mentions) {
      var i :| 0 <= i < |mentions| && Mentioned(mentions)[i] == g;
      assert mentions[i] in mentions;
    }
    if m :| m in mentions && m.0 == g {
      var i :| 0 <= i < |mentions| && mentions[i] == m;
      assert Mentioned(mentions)[i] == g;
    }
  }

  lemma {:induction false} GroupsInOrder(mentions: seq<Mention>)
    ensures forall i, j | 0 <= i < j < |GroupsOf(mentions)| ::
              FirstBefore(Mentioned(mentions), GroupsOf(mentions)[i].id, GroupsOf(mentions)[j].id)
    ensures forall gi | gi in GroupsOf(mentions) :: gi.id in Mentioned(mentions)
  {
    if mentions != [] {
      var pre, last := mentions[..|mentions| - 1], mentions[|mentions| - 1];
      GroupsInOrder(pre);
      var names, was, now := Mentioned(mentions), GroupsOf(pre), GroupsOf(mentions);
      assert names == Mentioned(pre) + [last.0];
      assert names[..|names| - 1] == Mentioned(pre);
      forall i, j | 0 <= i < j < |now| ensures FirstBefore(names, now[i].id, now[j].id) {
        assert now[i] == was[i] && was[i] in was;
        if j < |was| {
          FirstBeforeLonger(names, now[i].id, now[j].id);
        } else {
          MentionedMember(pre, last.0);
          NewComesLast(names, now[i].id);
        }
      }
    }
  }

  lemma {:induction false} MentionedAre(ms: seq<Metadata>, category: Option<string>)
    ensures Mentioned(Mentions(ms, category)) == Concat(GroupLists(Select(ms, InCategories(category))))
  {
    if ms != [] {
      var pre, last := ms[..|ms| - 1], ms[|ms| - 1];
      var f := InCategories(category);
      MentionedAre(pre, category);
      assert category.Some? ==> category.value in f.categories;
      assert MatchesFilter(last, f) <==> InCategory(last, category);
      assert Mentioned(MentionsOf(last, category)) == if InCategory(last, category) then last.groups else [];
      MentionedConcat(Mentions(pre, category), MentionsOf(last, category));
      if MatchesFilter(last, f) {
        assert GroupLists(Select(pre, f) + [last]) == GroupLists(Select(pre, f)) + [last.groups];
        ConcatSnoc(GroupLists(Select(pre, f)), last.groups);
      } else {
        AppendNothing(Select(pre, f));
        AppendNothing(Mentioned(Mentions(pre, category)));
      }
    }
  }

  lemma MentionedConcat(a: seq<Mention>, b: seq<Mention>)
    ensures Mentioned(a + b) == Mentioned(a) + Mentioned(b)
  {
  }

  lemma {:induction false} AllTagsAre(ms: seq<Metadata>)
    ensures AllTags(ms) == Concat(TagLists(ms))
  {
    if ms != [] {
      var pre, last := ms[..|ms| - 1], ms[|ms| - 1];
      AllTagsAre(pre);
      assert TagLists(ms) == TagLists(pre) + [last.tags];
      ConcatSnoc(TagLists(pre), last.tags);
    }
  }

  /** Facets are listed in the order in which the full listing first mentions them, within
      an item in the order of the item: categories, groups of all items or of those of one
      category, and tags. */
  lemma FacetOrder(p: BuiltDataProvider, category: Option<string>)
    ensures var ms := p.List(ALL);
            && (forall i, j | 0 <= i < j < |CategoriesOf(ms)| ::
                  FirstBefore(CategoryNames(ms), CategoriesOf(ms)[i].category, CategoriesOf(ms)[j].category))
            && (var infos := GroupsOf(Mentions(ms, category));
                forall i, j | 0 <= i < j < |infos| ::
                  FirstBefore(Concat(GroupLists(p.List(InCategories(category)))), infos[i].id, infos[j].id))
            && (var infos := TagsOf(AllTags(ms));
                forall i, j | 0 <= i < j < |infos| :: FirstBefore(Concat(TagLists(ms)), infos[i].id, infos[j].id))
  {
    var ms := p.List(ALL);
    CategoriesInOrder(ms);
    GroupsInOrder(Mentions(ms, category));
    MentionedAre(ms, category);
    ListSelects(p, InCategories(category));
    TagsInOrder(AllTags(ms));
    AllTagsAre(ms);
  }

  // ---------------------------------------------------------------- the theorems

  lemma ListSelects(p: BuiltDataProvider, f: DataFilter)
    ensures p.List(f) == Select(p.List(ALL), f)
  {
    SelectAll(Metadatas(p.resources.Values()));
  }

  /** Categories are exact and duplicate free: one is listed if and only if the listing
      filtered by it is not empty, and its translation id is that of the first item there. */
  lemma CategoryFacet(p: BuiltDataProvider, c: string)
    ensures var infos := CategoriesOf(p.List(ALL));
            && ((exists ci :: ci in infos && ci.category == c) <==> p.List(ByCategory(c)) != [])
            && (forall i, j | 0 <= i < j < |infos| :: infos[i].category != infos[j].category)
            && (forall ci | ci in infos && ci.category == c ::
                  p.List(ByCategory(c)) != [] && ci.translationId == p.List(ByCategory(c))[0].translationId)
  {
    var ms := p.List(ALL);
    ListSelects(p, ByCategory(c));
    CategoriesDistinct(ms);
    CategoryMember(ms, c);
    forall ci | ci in CategoriesOf(ms) && ci.category == c
      ensures p.List(ByCategory(c)) != [] && ci.translationId == p.List(ByCategory(c))[0].translationId
    {
      CategoryFromFirst(ms, ci);
    }
    SelectNone(ms, ByCategory(c));
    forall m ensures MatchesFilter(m, ByCategory(c)) <==> m.category == c {
      FilterMeaning(m, c, "", "", None);
    }
  }

  /** Tags are exact and duplicate free. */
  lemma TagFacet(p: BuiltDataProvider, t: string)
    ensures var infos := TagsOf(AllTags(p.List(ALL)));
            && ((exists ti :: ti in infos && ti.id == t) <==> p.List(ByTag(t)) != [])
            && (forall i, j | 0 <= i < j < |infos| :: infos[i].id != infos[j].id)
            && (forall ti | ti in infos && ti.id == t ::
                  ti == TagInfo(id := t, description := None, translationId := None))
  {
    var ms := p.List(ALL);
    ListSelects(p, ByTag(t));
    TagMember(AllTags(ms), t);
    AllTagsMember(ms, t);
    TagsDistinct(AllTags(ms));
    var infos := TagsOf(AllTags(ms));
    forall i, j | 0 <= i < j < |infos| ensures infos[i].id != infos[j].id {
      assert infos[i] in infos && infos[j] in infos && infos[i] != infos[j];
    }
    SelectNone(ms, ByTag(t));
    forall m ensures MatchesFilter(m, ByTag(t)) <==> t in m.tags {
      FilterMeaning(m, "", t, "", None);
    }
  }

  /** Groups, of all categories or of one, are exact and duplicate free, and carry the
      category of the first item listed for the group. */
  lemma GroupFacet(p: BuiltDataProvider, category: Option<string>, g: string)
    ensures var infos := GroupsOf(Mentions(p.List(ALL), category));
            && ((exists gi :: gi in infos && gi.id == g) <==> p.List(ByGroup(g, category)) != [])
            && (forall i, j | 0 <= i < j < |infos| :: infos[i].id != infos[j].id)
            && (forall gi | gi in infos && gi.id == g ::
                  p.List(ByGroup(g, category)) != [] &&
                  gi == GroupInfo(id := g, category := p.List(ByGroup(g, category))[0].category,
                    categoryTranslationId := None, group := None, groupTranslationId := None))
  {
    var ms := p.List(ALL);
    var mentions := Mentions(ms, category);
    ListSelects(p, ByGroup(g, category));
    GroupsDistinct(mentions);
    GroupMember(mentions, g);
    FirstMentionSome(mentions, g);
    FirstMentionIsFirstItem(ms, category, g);
    forall gi | gi in GroupsOf(mentions) && gi.id == g
      ensures gi == ToGroup((g, Select(ms, ByGroup(g, category))[0].category))
    {
      GroupFromFirst(mentions, gi);
    }
  }

  function GroupIds(infos: seq<GroupInfo>): set<string> {
    set gi | gi in infos :: gi.id
  }

  /** The groups of all categories are the union of the groups of each listed category. */
  lemma GroupsByCategory(p: BuiltDataProvider, g: string)
    ensures var ms := p.List(ALL);
            g in GroupIds(GroupsOf(Mentions(ms, None))) <==>
            exists ci :: ci in CategoriesOf(ms) && g in GroupIds(GroupsOf(Mentions(ms, Some(ci.category))))
  {
    var ms := p.List(ALL);
    GroupListed(ms, None, g);
    if m :| m in ms && MatchesFilter(m, ByGroup(g, None)) {
      FilterMeaning(m, "", "", g, None);
      FilterMeaning(m, "", "", g, Some(m.category));
      CategoryMember(ms, m.category);
      GroupListed(ms, Some(m.category), g);
    }
    if ci :| ci in CategoriesOf(ms) && g in GroupIds(GroupsOf(Mentions(ms, Some(ci.category)))) {
      GroupListed(ms, Some(ci.category), g);
      var m :| m in ms && MatchesFilter(m, ByGroup(g, Some(ci.category)));
      FilterMeaning(m, "", "", g, Some(ci.category));
      FilterMeaning(m, "", "", g, None);
    }
  }

  lemma GroupListed(ms: seq<Metadata>, category: Option<string>, g: string)
    ensures g in GroupIds(GroupsOf(Mentions(ms, category))) <==>
            exists m :: m in ms && MatchesFilter(m, ByGroup(g, category))
  {
    GroupMember(Mentions(ms, category), g);
    MentionMember(ms, category, g);
  }
}
