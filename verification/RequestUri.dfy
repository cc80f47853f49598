/** The URIs the client builds, and what a reader of them recovers. */
module RequestUri {
  import opened Wrappers
  import opened Sequences
  import opened PercentEncoding

  const EQUALS: byte := 0x3D
  const AMPERSAND: byte := 0x26

  /** A literal of the program text, as bytes. */
  function Text(s: string): Bytes
    requires forall i | 0 <= i < |s| :: s[i] < 128 as char
  {
    seq(|s|, i requires 0 <= i < |s| => s[i] as int)
  }

  // ---------------------------------------------------------------- requests

  datatype Owner = OfComponent | OfApp

  /** Everything the client asks for. Reading a data item and writing it have the same target
      and differ in the method only. */
  datatype Target =
    | ListComponents | ListApps | ListAreas
    | DataList(owner: Owner, id: Bytes)
    | DataItem(owner: Owner, id: Bytes, dataId: Bytes)
    | DataCategories(owner: Owner, id: Bytes)
    | DataGroups(owner: Owner, id: Bytes)
    | BelongsTo(owner: Owner, id: Bytes)
    | Hosts(id: Bytes)
    | IsLocatedOn(id: Bytes)
    | Contains(id: Bytes)

  const COMPONENTS := Text("components")
  const APPS := Text("apps")
  const AREAS := Text("areas")
  const DATA := Text("data")
  const DATA_CATEGORIES := Text("data-categories")
  const DATA_GROUPS := Text("data-groups")
  const BELONGS_TO := Text("belongs-to")
  const HOSTS := Text("hosts")
  const IS_LOCATED_ON := Text("is-located-on")
  const CONTAINS := Text("contains")

  function OwnerText(owner: Owner): Bytes {
    if owner == OfComponent then COMPONENTS else APPS
  }

  function EncodeId(id: Bytes): Bytes {
    Encode(NON_ALPHANUMERIC, id)
  }

  /** The segments of the path template, with the ids encoded. */
  function Segments(r: Target): seq<Bytes> {
    match r
    case ListComponents => [COMPONENTS]
    case ListApps => [APPS]
    case ListAreas => [AREAS]
    case DataList(owner, id) => [OwnerText(owner), EncodeId(id), DATA]
    case DataItem(owner, id, dataId) => [OwnerText(owner), EncodeId(id), DATA, EncodeId(dataId)]
    case DataCategories(owner, id) => [OwnerText(owner), EncodeId(id), DATA_CATEGORIES]
    case DataGroups(owner, id) => [OwnerText(owner), EncodeId(id), DATA_GROUPS]
    case BelongsTo(owner, id) => [OwnerText(owner), EncodeId(id), BELONGS_TO]
    case Hosts(id) => [COMPONENTS, EncodeId(id), HOSTS]
    case IsLocatedOn(id) => [APPS, EncodeId(id), IS_LOCATED_ON]
    case Contains(id) => [AREAS, EncodeId(id), CONTAINS]
  }

  /** Each segment after a slash. */
  function JoinPath(segments: seq<Bytes>): Bytes {
    if segments == [] then [] else [SLASH] + segments[0] + JoinPath(segments[1..])
  }

  function Path(r: Target): Bytes {
    JoinPath(Segments(r))
  }

  // ---------------------------------------------------------------- building

  type Query = seq<(Bytes, Bytes)>

  function SchemaQuery(withSchema: bool): Query {
    if withSchema then [(Text("include-schema"), Text("true"))] else []
  }

  function Pair(p: (Bytes, Bytes)): Bytes {
    p.0 + [EQUALS] + p.1
  }

  function JoinQuery(q: Query): Bytes
    requires q != []
  {
    if |q| == 1 then Pair(q[0]) else Pair(q[0]) + [AMPERSAND] + JoinQuery(q[1..])
  }

  function BuildQuery(base: Bytes, q: Query): Bytes {
    if q == [] then base else base + [QUESTION] + JoinQuery(q)
  }

  function BuildUri(base: Bytes, path: Bytes, q: Query): Bytes {
    BuildQuery(base + path, q)
  }

  // ---------------------------------------------------------------- reading

  /** What stands before the first separator, and what stands after it, if there is one. */
  function Cut(t: Bytes, sep: byte): (Bytes, Option<Bytes>) {
    if t == [] then ([], None)
    else if t[0] == sep then ([], Some(t[1..]))
    else
      var rest := Cut(t[1..], sep);
      ([t[0]] + rest.0, rest.1)
  }

  function Split(t: Bytes, sep: byte): (pieces: seq<Bytes>)
    ensures pieces != []
    decreases |t|
  {
    if t == [] then [[]]
    else
      var rest := Split(t[1..], sep);
      if t[0] == sep then [[]] + rest else [[t[0]] + rest[0]] + rest[1..]
  }

  /** The URI without its fragment, cut at the first question mark. */
  function Parts(uri: Bytes): (Bytes, Option<Bytes>) {
    Cut(Cut(uri, HASH).0, QUESTION)
  }

  function ReadPath(uri: Bytes): Bytes {
    Parts(uri).0
  }

  function ReadPair(piece: Bytes): (Bytes, Bytes) {
    var kv := Cut(piece, EQUALS);
    (kv.0, if kv.1.Some? then kv.1.value else [])
  }

  /** How the server reads the query: it includes the schema if the query says so. */
  predicate AsksForSchema(q: Query) {
    exists i :: 0 <= i < |q| && q[i].0 == Text("include-schema") && q[i].1 == Text("true")
  }

  function ReadPairs(pieces: seq<Bytes>): Query {
    seq(|pieces|, i requires 0 <= i < |pieces| => ReadPair(pieces[i]))
  }

  function ReadQuery(uri: Bytes): Query {
    match Parts(uri).1
    case None => []
    case Some(q) => ReadPairs(Split(q, AMPERSAND))
  }

  /** The target whose path template the segments fit, with the ids decoded. */
  function Parse(segments: seq<Bytes>): Option<Target> {
    if |segments| == 1 then
      if segments[0] == Text("components") then Some(ListComponents)
      else if segments[0] == Text("apps") then Some(ListApps)
      else if segments[0] == Text("areas") then Some(ListAreas)
      else None
    else if |segments| == 3 then
      ParseOne(segments[0], Decode(segments[1]), segments[2])
    else if |segments| == 4 && segments[0] in {Text("components"), Text("apps")} && segments[2] == Text("data") then
      Some(DataItem(if segments[0] == Text("components") then OfComponent else OfApp,
                    Decode(segments[1]), Decode(segments[3])))
    else None
  }

  function ParseOne(collection: Bytes, id: Bytes, tail: Bytes): Option<Target> {
    if collection == Text("components") then
      if tail == Text("hosts") then Some(Hosts(id)) else ParseOwned(OfComponent, id, tail)
    else if collection == Text("apps") then
      if tail == Text("is-located-on") then Some(IsLocatedOn(id)) else ParseOwned(OfApp, id, tail)
    else if collection == Text("areas") && tail == Text("contains") then Some(Contains(id))
    else None
  }

  function ParseOwned(owner: Owner, id: Bytes, tail: Bytes): Option<Target> {
    if tail == Text("data") then Some(DataList(owner, id))
    else if tail == Text("data-categories") then Some(DataCategories(owner, id))
    else if tail == Text("data-groups") then Some(DataGroups(owner, id))
    else if tail == Text("belongs-to") then Some(BelongsTo(owner, id))
    else None
  }

  /** The router fits the same templates, and matches no empty parameter. */
  function Route(segments: seq<Bytes>): Option<Target> {
    if [] in segments then None else Parse(segments)
  }

  // ---------------------------------------------------------------- cutting and splitting

  lemma {:induction false} CutAt(a: Bytes, sep: byte, b: Bytes)
    requires sep !in a
    ensures Cut(a + [sep] + b, sep) == (a, Some(b))
  {
    if a == [] {
      assert [] + [sep] + b == [sep] + b && ([sep] + b)[1..] == b;
    } else {
      assert a == [a[0]] + a[1..] && a[0] in a && forall x | x in a[1..] :: x in a;
      CutAt(a[1..], sep, b);
      assert (a + [sep] + b)[1..] == a[1..] + [sep] + b;
    }
  }

  lemma {:induction false} CutNone(a: Bytes, sep: byte)
    requires sep !in a
    ensures Cut(a, sep) == (a, None)
  {
    if a != [] {
      assert a == [a[0]] + a[1..] && a[0] in a && forall x | x in a[1..] :: x in a;
      CutNone(a[1..], sep);
    }
  }

  lemma {:induction false} CutBytes(t: Bytes, sep: byte)
    ensures sep !in Cut(t, sep).0
    ensures forall x | x in Cut(t, sep).0 :: x in t
    ensures Cut(t, sep).1.Some? ==> forall x | x in Cut(t, sep).1.value :: x in t
  {
    if t != [] {
      CutBytes(t[1..], sep);
      assert forall x | x in t[1..] :: x in t;
    }
  }

  lemma {:induction false} SplitWhole(a: Bytes, sep: byte)
    requires sep !in a
    ensures Split(a, sep) == [a]
  {
    if a != [] {
      assert a == [a[0]] + a[1..] && a[0] in a && forall x | x in a[1..] :: x in a;
      SplitWhole(a[1..], sep);
      assert [a[1..]][1..] == [];
    }
  }

  lemma {:induction false} SplitAt(a: Bytes, sep: byte, b: Bytes)
    requires sep !in a
    ensures Split(a + [sep] + b, sep) == [a] + Split(b, sep)
  {
    if a == [] {
      assert [] + [sep] + b == [sep] + b && ([sep] + b)[1..] == b;
    } else {
      assert a == [a[0]] + a[1..] && a[0] in a && forall x | x in a[1..] :: x in a;
      SplitAt(a[1..], sep, b);
      assert (a + [sep] + b)[1..] == a[1..] + [sep] + b;
      assert ([a[1..]] + Split(b, sep))[1..] == Split(b, sep);
    }
  }

  lemma {:induction false} SplitBytes(t: Bytes, sep: byte)
    ensures forall p | p in Split(t, sep) :: sep !in p && forall x | x in p :: x in t
    decreases |t|
  {
    if t != [] {
      var rest := Split(t[1..], sep);
      SplitBytes(t[1..], sep);
      assert rest == [rest[0]] + rest[1..];
      assert rest[0] in rest;
      forall p | p in Split(t, sep) ensures sep !in p && forall x | x in p :: x in t {
        if t[0] == sep {
          assert p == [] || p in rest;
        } else {
          assert p == [t[0]] + rest[0] || p in rest[1..];
        }
      }
    }
  }

  lemma SplitFront(sep: byte, t: Bytes)
    ensures Split([sep] + t, sep) == [[]] + Split(t, sep)
  {
    assert ([sep] + t)[1..] == t;
  }

  /** Splitting a joined path recovers its segments, after the empty piece before the first slash. */
  lemma {:induction false} SplitJoinPath(segments: seq<Bytes>)
    requires forall s | s in segments :: SLASH !in s
    ensures Split(JoinPath(segments), SLASH) == [[]] + segments
  {
    if segments == [] {
      assert [[]] + segments == [[]];
    } else {
      var first, others := segments[0], segments[1..];
      assert segments == [first] + others && first in segments && forall s | s in others :: s in segments;
      SplitJoinPath(others);
      SplitBeforeSlash(first, JoinPath(others), others);
      SplitFront(SLASH, first + JoinPath(others));
      Assoc([SLASH], first, JoinPath(others));
    }
  }

  lemma {:induction false} SplitBeforeSlash(a: Bytes, rest: Bytes, segments: seq<Bytes>)
    requires SLASH !in a && Split(rest, SLASH) == [[]] + segments
    ensures Split(a + rest, SLASH) == [a] + segments
  {
    if a == [] {
      assert a + rest == rest;
    } else {
      assert a == [a[0]] + a[1..] && a[0] in a && forall x | x in a[1..] :: x in a;
      SplitBeforeSlash(a[1..], rest, segments);
      assert (a + rest)[1..] == a[1..] + rest;
      assert ([a[1..]] + segments)[1..] == segments;
    }
  }

  // ---------------------------------------------------------------- paths

  lemma TextConcat(a: string, b: string)
    requires forall i | 0 <= i < |a| :: a[i] < 128 as char
    requires forall i | 0 <= i < |b| :: b[i] < 128 as char
    ensures Text(a + b) == Text(a) + Text(b)
  {
  }

  lemma JoinThree(a: string, id: Bytes, b: string)
    requires forall i | 0 <= i < |a| :: a[i] < 128 as char
    requires forall i | 0 <= i < |b| :: b[i] < 128 as char
    ensures JoinPath([Text(a), id, Text(b)]) == Text("/" + a + "/") + id + Text("/" + b)
  {
    TextConcat("/" + a, "/");
    TextConcat("/", a);
    TextConcat("/", b);
    assert Text("/") == [SLASH];
    assert [Text(a), id, Text(b)][1..] == [id, Text(b)] && [id, Text(b)][1..] == [Text(b)] && [Text(b)][1..] == [];
    assert JoinPath([Text(b)]) == [SLASH] + Text(b);
    assert JoinPath([id, Text(b)]) == [SLASH] + id + ([SLASH] + Text(b));
  }

  lemma {:induction false} JoinSnoc(segments: seq<Bytes>, last: Bytes)
    ensures JoinPath(segments + [last]) == JoinPath(segments) + [SLASH] + last
  {
    if segments == [] {
      assert segments + [last] == [last] && [last][1..] == [];
    } else {
      assert (segments + [last])[1..] == segments[1..] + [last];
      JoinSnoc(segments[1..], last);
    }
  }

  lemma JoinOne(a: string)
    requires forall i | 0 <= i < |a| :: a[i] < 128 as char
    ensures JoinPath([Text(a)]) == Text("/" + a)
  {
    TextConcat("/", a);
    assert [Text(a)][1..] == [];
  }

  /** The paths, as the client writes them. */
  lemma ListPaths()
    ensures Path(ListComponents) == Text("/components")
    ensures Path(ListApps) == Text("/apps")
    ensures Path(ListAreas) == Text("/areas")
  {
    JoinOne("components");
    JoinOne("apps");
    JoinOne("areas");
  }

  lemma ComponentPath(id: Bytes, tail: string)
    requires forall i | 0 <= i < |tail| :: tail[i] < 128 as char
    ensures JoinPath([COMPONENTS, EncodeId(id), Text(tail)]) == Text("/components/") + EncodeId(id) + Text("/" + tail)
  {
    JoinThree("components", EncodeId(id), tail);
    assert "/" + "components" + "/" == "/components/";
  }

  lemma ComponentDataPaths(id: Bytes)
    ensures Path(DataList(OfComponent, id)) == Text("/components/") + EncodeId(id) + Text("/data")
    ensures Path(DataCategories(OfComponent, id)) == Text("/components/") + EncodeId(id) + Text("/data-categories")
    ensures Path(DataGroups(OfComponent, id)) == Text("/components/") + EncodeId(id) + Text("/data-groups")
  {
    ComponentPath(id, "data");
    ComponentPath(id, "data-categories");
    ComponentPath(id, "data-groups");
    assert "/" + "data" == "/data";
    assert "/" + "data-categories" == "/data-categories";
    assert "/" + "data-groups" == "/data-groups";
  }

  lemma ComponentRelationPaths(id: Bytes)
    ensures Path(Hosts(id)) == Text("/components/") + EncodeId(id) + Text("/hosts")
    ensures Path(BelongsTo(OfComponent, id)) == Text("/components/") + EncodeId(id) + Text("/belongs-to")
  {
    ComponentPath(id, "hosts");
    ComponentPath(id, "belongs-to");
    assert "/" + "hosts" == "/hosts";
    assert "/" + "belongs-to" == "/belongs-to";
  }

  lemma ComponentDataItemPath(id: Bytes, dataId: Bytes)
    ensures Path(DataItem(OfComponent, id, dataId)) ==
            Text("/components/") + EncodeId(id) + Text("/data") + [SLASH] + EncodeId(dataId)
  {
    ComponentDataPaths(id);
    var segments := [COMPONENTS, EncodeId(id), DATA];
    assert Segments(DataItem(OfComponent, id, dataId)) == segments + [EncodeId(dataId)];
    assert Segments(DataList(OfComponent, id)) == segments;
    JoinSnoc(segments, EncodeId(dataId));
  }

  lemma AppPath(id: Bytes, tail: string)
    requires forall i | 0 <= i < |tail| :: tail[i] < 128 as char
    ensures JoinPath([APPS, EncodeId(id), Text(tail)]) == Text("/apps/") + EncodeId(id) + Text("/" + tail)
  {
    JoinThree("apps", EncodeId(id), tail);
    assert "/" + "apps" + "/" == "/apps/";
  }

  lemma AppDataPaths(id: Bytes)
    ensures Path(DataList(OfApp, id)) == Text("/apps/") + EncodeId(id) + Text("/data")
    ensures Path(DataCategories(OfApp, id)) == Text("/apps/") + EncodeId(id) + Text("/data-categories")
    ensures Path(DataGroups(OfApp, id)) == Text("/apps/") + EncodeId(id) + Text("/data-groups")
  {
    AppPath(id, "data");
    AppPath(id, "data-categories");
    AppPath(id, "data-groups");
    assert "/" + "data" == "/data";
    assert "/" + "data-categories" == "/data-categories";
    assert "/" + "data-groups" == "/data-groups";
  }

  lemma AppRelationPaths(id: Bytes)
    ensures Path(IsLocatedOn(id)) == Text("/apps/") + EncodeId(id) + Text("/is-located-on")
    ensures Path(BelongsTo(OfApp, id)) == Text("/apps/") + EncodeId(id) + Text("/belongs-to")
  {
    AppPath(id, "is-located-on");
    AppPath(id, "belongs-to");
    assert "/" + "is-located-on" == "/is-located-on";
    assert "/" + "belongs-to" == "/belongs-to";
  }

  lemma AppDataItemPath(id: Bytes, dataId: Bytes)
    ensures Path(DataItem(OfApp, id, dataId)) ==
            Text("/apps/") + EncodeId(id) + Text("/data") + [SLASH] + EncodeId(dataId)
  {
    AppDataPaths(id);
    var segments := [APPS, EncodeId(id), DATA];
    assert Segments(DataItem(OfApp, id, dataId)) == segments + [EncodeId(dataId)];
    assert Segments(DataList(OfApp, id)) == segments;
    JoinSnoc(segments, EncodeId(dataId));
  }

  lemma AreaPaths(id: Bytes)
    ensures Path(Contains(id)) == Text("/areas/") + EncodeId(id) + Text("/contains")
  {
    JoinThree("areas", EncodeId(id), "contains");
    assert "/" + "areas" + "/" == "/areas/" && "/" + "contains" == "/contains";
  }

  predicate Plain(t: Bytes) {
    SLASH !in t && QUESTION !in t && HASH !in t
  }

  lemma LiteralsPlain()
    ensures Plain(COMPONENTS) && Plain(APPS) && Plain(AREAS) && Plain(DATA) && Plain(DATA_CATEGORIES)
    ensures Plain(DATA_GROUPS) && Plain(BELONGS_TO) && Plain(HOSTS) && Plain(IS_LOCATED_ON) && Plain(CONTAINS)
  {
  }

  lemma SegmentsPlain(r: Target)
    ensures forall s | s in Segments(r) :: Plain(s)
  {
    LiteralsPlain();
    match r
    case ListComponents =>
    case ListApps =>
    case ListAreas =>
    case DataItem(_, id, dataId) =>
      EncodingStaysInSegment(id);
      EncodingStaysInSegment(dataId);
    case _ => EncodingStaysInSegment(r.id);
  }

  lemma {:induction false} JoinPathBytes(segments: seq<Bytes>)
    requires forall s | s in segments :: Plain(s)
    ensures QUESTION !in JoinPath(segments) && HASH !in JoinPath(segments)
  {
    if segments != [] {
      assert segments[0] in segments && forall s | s in segments[1..] :: s in segments;
      JoinPathBytes(segments[1..]);
    }
  }

  /** Reading undoes the path templates. */
  lemma ParseSegments(r: Target)
    ensures Parse(Segments(r)) == Some(r)
  {
    assert |COMPONENTS| == 10 && |APPS| == 4 && |AREAS| == 5 && |DATA| == 4 && |DATA_CATEGORIES| == 15;
    assert |DATA_GROUPS| == 11 && |BELONGS_TO| == 10 && |HOSTS| == 5 && |IS_LOCATED_ON| == 13 && |CONTAINS| == 8;
    match r
    case ListComponents =>
    case ListApps =>
    case ListAreas =>
    case DataItem(_, id, dataId) =>
      BothDecodeAlike(id);
      BothDecodeAlike(dataId);
    case _ => BothDecodeAlike(r.id);
  }

  /** The ids of a target. */
  function Ids(r: Target): seq<Bytes> {
    match r
    case ListComponents => []
    case ListApps => []
    case ListAreas => []
    case DataItem(_, id, dataId) => [id, dataId]
    case _ => [r.id]
  }

  lemma EmptyEncoding(id: Bytes)
    ensures EncodeId(id) == [] <==> id == []
  {
    if id != [] {
      assert |EncodeByte(NON_ALPHANUMERIC, id[0])| > 0;
    }
  }

  /** The router recognises every target but those with an empty id. */
  lemma RouteSegments(r: Target)
    ensures Route(Segments(r)) == if [] in Ids(r) then None else Some(r)
  {
    ParseSegments(r);
    assert COMPONENTS[0] != 0 && APPS[0] != 0 && AREAS[0] != 0 && DATA[0] != 0 && DATA_CATEGORIES[0] != 0;
    assert DATA_GROUPS[0] != 0 && BELONGS_TO[0] != 0 && HOSTS[0] != 0 && IS_LOCATED_ON[0] != 0 && CONTAINS[0] != 0;
    match r
    case ListComponents =>
    case ListApps =>
    case ListAreas =>
    case DataItem(_, id, dataId) =>
      EmptyEncoding(id);
      EmptyEncoding(dataId);
    case _ => EmptyEncoding(r.id);
  }

  // ---------------------------------------------------------------- queries

  /** Keys hold no separator at all; values may hold an equals sign. */
  predicate Clean(q: Query) {
    forall p | p in q ::
      && EQUALS !in p.0 && AMPERSAND !in p.0 && HASH !in p.0
      && AMPERSAND !in p.1 && HASH !in p.1
  }

  lemma ReadPairsFront(piece: Bytes, pieces: seq<Bytes>)
    ensures ReadPairs([piece] + pieces) == [ReadPair(piece)] + ReadPairs(pieces)
  {
  }

  lemma CleanPair(p: (Bytes, Bytes))
    requires Clean([p])
    ensures ReadPair(Pair(p)) == p && AMPERSAND !in Pair(p) && HASH !in Pair(p)
  {
    assert p in [p];
    CutAt(p.0, EQUALS, p.1);
  }

  lemma {:induction false} SplitJoinQuery(q: Query)
    requires q != [] && Clean(q)
    ensures ReadPairs(Split(JoinQuery(q), AMPERSAND)) == q
    ensures HASH !in JoinQuery(q)
  {
    var p, others := q[0], q[1..];
    assert q == [p] + others && p in q && forall x | x in others :: x in q;
    CleanPair(p);
    if |q| == 1 {
      SplitWhole(Pair(p), AMPERSAND);
      assert ReadPairs([Pair(p)]) == [p];
    } else {
      SplitJoinQuery(others);
      SplitAt(Pair(p), AMPERSAND, JoinQuery(others));
      ReadPairsFront(Pair(p), Split(JoinQuery(others), AMPERSAND));
    }
  }

  /** Whatever is read from a URI is clean. */
  lemma ReadIsClean(uri: Bytes)
    ensures Clean(ReadQuery(uri))
  {
    var text := Cut(uri, HASH).0;
    CutBytes(uri, HASH);
    CutBytes(text, QUESTION);
    if Parts(uri).1.Some? {
      var query := Parts(uri).1.value;
      SplitBytes(query, AMPERSAND);
      forall piece | piece in Split(query, AMPERSAND)
        ensures Clean([ReadPair(piece)])
      {
        CutBytes(piece, EQUALS);
      }
      var pieces := Split(query, AMPERSAND);
      forall p | p in ReadPairs(pieces)
        ensures EQUALS !in p.0 && AMPERSAND !in p.0 && HASH !in p.0 && AMPERSAND !in p.1 && HASH !in p.1
      {
        var i :| 0 <= i < |pieces| && ReadPair(pieces[i]) == p;
        assert pieces[i] in pieces && Clean([p]) && p in [p];
      }
    }
  }

  lemma HashCut(text: Bytes, rest: Bytes)
    requires HASH !in text && HASH !in rest
    ensures Cut(text + rest, HASH).0 == text + rest
  {
    CutNone(text + rest, HASH);
  }

  /** With a base free of question marks and hashes, the query splits back into its pairs
      if and only if no key holds an equals sign, ampersand or hash and no value an
      ampersand or hash. */
  lemma QueryRoundTrip(base: Bytes, q: Query)
    requires QUESTION !in base && HASH !in base
    ensures ReadQuery(BuildQuery(base, q)) == q <==> Clean(q)
  {
    ReadIsClean(BuildQuery(base, q));
    if Clean(q) {
      if q == [] {
        CutNone(base, HASH);
        CutNone(base, QUESTION);
      } else {
        SplitJoinQuery(q);
        var uri := BuildQuery(base, q);
        HashCut(base, [QUESTION] + JoinQuery(q));
        assert base + ([QUESTION] + JoinQuery(q)) == uri;
        CutAt(base, QUESTION, JoinQuery(q));
      }
    }
  }

  /** Whatever the query, the path is read back. */
  lemma PathRoundTrip(base: Bytes, q: Query)
    requires QUESTION !in base && HASH !in base
    ensures ReadPath(BuildQuery(base, q)) == base
  {
    if q == [] {
      CutNone(base, HASH);
      CutNone(base, QUESTION);
    } else {
      var tail := [QUESTION] + JoinQuery(q);
      assert BuildQuery(base, q) == base + tail;
      CutPast(base, tail, HASH);
      var cut := Cut(tail, HASH);
      assert cut.0[0] == QUESTION;
      assert base + cut.0 == base + [QUESTION] + cut.0[1..];
      CutAt(base, QUESTION, cut.0[1..]);
    }
  }

  lemma {:induction false} CutPast(a: Bytes, b: Bytes, sep: byte)
    requires sep !in a
    ensures Cut(a + b, sep).0 == a + Cut(b, sep).0
  {
    if a == [] {
      assert a + b == b;
    } else {
      assert a == [a[0]] + a[1..] && a[0] in a && forall x | x in a[1..] :: x in a;
      assert (a + b)[1..] == a[1..] + b;
      CutPast(a[1..], b, sep);
    }
  }

  // ---------------------------------------------------------------- whole requests

  lemma SchemaQueryAsks(withSchema: bool)
    ensures AsksForSchema(SchemaQuery(withSchema)) <==> withSchema
    ensures |SchemaQuery(withSchema)| == if withSchema then 1 else 0
  {
    if withSchema {
      assert SchemaQuery(withSchema)[0] == (Text("include-schema"), Text("true"));
    }
  }

  lemma SchemaQueryClean(withSchema: bool)
    ensures Clean(SchemaQuery(withSchema))
  {
  }

  /** Every target is recovered from its URI: the path after the base splits on slashes
      into the segments of its template, these decode to exactly the ids asked for, the
      router recognises them unless an id is empty, and the query reads back. */
  lemma RequestRoundTrip(base: Bytes, r: Target, withSchema: bool)
    requires QUESTION !in base && HASH !in base
    ensures var uri := BuildUri(base, Path(r), SchemaQuery(withSchema));
            && ReadPath(uri) == base + Path(r)
            && Split(ReadPath(uri)[|base|..], SLASH) == [[]] + Segments(r)
            && Parse(Split(ReadPath(uri)[|base|..], SLASH)[1..]) == Some(r)
            && Route(Split(ReadPath(uri)[|base|..], SLASH)[1..]) == (if [] in Ids(r) then None else Some(r))
            && (AsksForSchema(ReadQuery(uri)) <==> withSchema)
            && |ReadQuery(uri)| == (if withSchema then 1 else 0)
  {
    SegmentsPlain(r);
    JoinPathBytes(Segments(r));
    PathRoundTrip(base + Path(r), SchemaQuery(withSchema));
    assert (base + Path(r))[|base|..] == Path(r);
    SplitJoinPath(Segments(r));
    assert ([[]] + Segments(r))[1..] == Segments(r);
    ParseSegments(r);
    RouteSegments(r);
    SchemaQueryClean(withSchema);
    SchemaQueryAsks(withSchema);
    QueryRoundTrip(base + Path(r), SchemaQuery(withSchema));
  }

  /** No two targets share a URI, with or without the schema asked for. */
  lemma TargetsDiffer(base: Bytes, r: Target, i: bool, s: Target, j: bool)
    requires QUESTION !in base && HASH !in base
    requires BuildUri(base, Path(r), SchemaQuery(i)) == BuildUri(base, Path(s), SchemaQuery(j))
    ensures r == s && i == j
  {
    RequestRoundTrip(base, r, i);
    RequestRoundTrip(base, s, j);
  }
}
