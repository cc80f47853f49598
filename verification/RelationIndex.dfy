/** One relationship index, seen alone: entities in listing order, the label each of
    them carries (its host, its area), and the index from a label to the ids filed
    under it. The index is maintained incrementally; the scan is what it speeds up. */
module RelationIndex {
  import opened Wrappers
  import opened IndexMaps
  import opened Sequences

  datatype Rel = Rel(keys: seq<string>, labels: map<string, Option<string>>, index: map<string, IndexSet>)

  /** File an entity, delete an entity, drop a whole index entry, or leave all as it is. */
  datatype RelOp = Put(id: string, lab: Option<string>) | Del(id: string) | Drop(x: string) | Skip

  const EMPTY := Rel([], map[], map[])

  function Listed(index: map<string, IndexSet>, x: string): IndexSet {
    if x in index then index[x] else []
  }

  function File(index: map<string, IndexSet>, lab: Option<string>, id: string): map<string, IndexSet> {
    if lab.Some? then index[lab.value := SetInsert(Listed(index, lab.value), id)] else index
  }

  function Unfile(index: map<string, IndexSet>, lab: Option<string>, id: string): map<string, IndexSet> {
    if lab.Some? && lab.value in index then
      var rest := ShiftRemove(index[lab.value], id);
      if rest == [] then index - {lab.value} else index[lab.value := rest]
    else index
  }

  function Step(r: Rel, op: RelOp): Rel {
    match op
    case Put(id, lab) =>
      Rel(if id in r.labels then r.keys else r.keys + [id], r.labels[id := lab], File(r.index, lab, id))
    case Del(id) =>
      if id in r.labels then
        Rel(ShiftRemove(r.keys, id), r.labels - {id}, Unfile(r.index, r.labels[id], id))
      else r
    case Drop(x) => r.(index := r.index - {x})
    case Skip => r
  }

  function Run(ops: seq<RelOp>): Rel {
    if ops == [] then EMPTY
    else Step(Run(ops[..|ops| - 1]), ops[|ops| - 1])
  }

  lemma RunSnoc(ops: seq<RelOp>, op: RelOp)
    ensures Run(ops + [op]) == Step(Run(ops), op)
  {
    assert (ops + [op])[..|ops|] == ops;
  }

  predicate Labelled(labels: map<string, Option<string>>, x: string, id: string) {
    id in labels && labels[id] == Some(x)
  }

  /** The keys labelled x, in order. */
  function Pick(keys: seq<string>, labels: map<string, Option<string>>, x: string): seq<string> {
    if keys == [] then []
    else (if Labelled(labels, x, keys[0]) then [keys[0]] else []) + Pick(keys[1..], labels, x)
  }

  /** The ids that belong to `live`, in order. */
  function Present(ids: seq<string>, live: set<string>): seq<string> {
    if ids == [] then []
    else (if ids[0] in live then [ids[0]] else []) + Present(ids[1..], live)
  }

  /** The simple form: walk every entity in listing order and keep those labelled x. */
  function Scan(r: Rel, x: string): seq<string> {
    Pick(r.keys, r.labels, x)
  }

  /** What a query through the index yields: filed ids whose entity exists. */
  function Observed(r: Rel, x: string): seq<string> {
    Present(Listed(r.index, x), r.labels.Keys)
  }

  /** No index entry is empty or repeats an id. */
  ghost predicate IndexShape(index: map<string, IndexSet>) {
    forall x | x in index :: index[x] != [] && NoDup(index[x])
  }

  ghost predicate Shape(r: Rel) {
    && NoDup(r.keys)
    && (forall k :: k in r.keys <==> k in r.labels)
    && IndexShape(r.index)
  }

  ghost predicate Exact(r: Rel) {
    forall x :: Listed(r.index, x) == Scan(r, x)
  }

  ghost predicate Agrees(r: Rel) {
    forall x :: Observed(r, x) == Scan(r, x)
  }

  // ---------------------------------------------------------------- shape

  lemma FileListed(index: map<string, IndexSet>, lab: Option<string>, id: string, x: string)
    ensures Listed(File(index, lab, id), x) ==
            if lab == Some(x) then SetInsert(Listed(index, x), id) else Listed(index, x)
  {
  }

  lemma UnfileListed(index: map<string, IndexSet>, lab: Option<string>, id: string, x: string)
    ensures Listed(Unfile(index, lab, id), x) ==
            if lab == Some(x) then ShiftRemove(Listed(index, x), id) else Listed(index, x)
  {
  }

  lemma FileShape(index: map<string, IndexSet>, lab: Option<string>, id: string)
    requires IndexShape(index)
    ensures IndexShape(File(index, lab, id))
  {
  }

  lemma UnfileShape(index: map<string, IndexSet>, lab: Option<string>, id: string)
    requires IndexShape(index)
    ensures IndexShape(Unfile(index, lab, id))
  {
    if lab.Some? && lab.value in index {
      ShiftRemoveMember(index[lab.value], id);
    }
  }

  lemma StepShape(r: Rel, op: RelOp)
    requires Shape(r)
    ensures Shape(Step(r, op))
  {
    match op
    case Put(id, lab) => FileShape(r.index, lab, id);
    case Del(id) =>
      if id in r.labels {
        ShiftRemoveMember(r.keys, id);
        UnfileShape(r.index, r.labels[id], id);
      }
    case Drop(x) =>
    case Skip =>
  }

  lemma {:induction false} RunShape(ops: seq<RelOp>)
    ensures Shape(Run(ops))
  {
    if ops != [] {
      RunShape(ops[..|ops| - 1]);
      StepShape(Run(ops[..|ops| - 1]), ops[|ops| - 1]);
    }
  }

  // ---------------------------------------------------------------- scans

  lemma {:induction false} PickMember(keys: seq<string>, labels: map<string, Option<string>>, x: string)
    ensures forall k :: k in Pick(keys, labels, x) <==> k in keys && Labelled(labels, x, k)
  {
    if keys != [] {
      PickMember(keys[1..], labels, x);
      assert forall k :: k in keys <==> k == keys[0] || k in keys[1..];
    }
  }

  lemma {:induction false} PickConcat(a: seq<string>, b: seq<string>, labels: map<string, Option<string>>, x: string)
    ensures Pick(a + b, labels, x) == Pick(a, labels, x) + Pick(b, labels, x)
  {
    if a == [] {
      assert a + b == b;
    } else {
      assert (a + b)[1..] == a[1..] + b;
      PickConcat(a[1..], b, labels, x);
    }
  }

  lemma {:induction false} PickSame(keys: seq<string>, m: map<string, Option<string>>, n: map<string, Option<string>>,
          x: string)
    requires forall k | k in keys :: Labelled(m, x, k) == Labelled(n, x, k)
    ensures Pick(keys, m, x) == Pick(keys, n, x)
  {
    if keys != [] {
      assert keys[0] in keys;
      assert forall k | k in keys[1..] :: k in keys;
      PickSame(keys[1..], m, n, x);
    }
  }

  lemma PickOne(id: string, labels: map<string, Option<string>>, x: string)
    ensures Pick([id], labels, x) == if Labelled(labels, x, id) then [id] else []
  {
    assert [id][1..] == [];
  }

  /** Deleting a key and then picking is picking and then deleting. */
  lemma {:induction false} PickShiftRemove(keys: seq<string>, id: string, m: map<string, Option<string>>,
          n: map<string, Option<string>>, x: string)
    requires NoDup(keys)
    requires forall k | k in keys && k != id :: Labelled(m, x, k) == Labelled(n, x, k)
    ensures Pick(ShiftRemove(keys, id), n, x) == ShiftRemove(Pick(keys, m, x), id)
  {
    if keys != [] {
      var head, tail := keys[0], keys[1..];
      assert keys == [head] + tail;
      assert forall k | k in tail :: k in keys;
      if head == id {
        assert id !in tail;
        PickMember(tail, m, x);
        ShiftRemoveAbsent(Pick(tail, m, x), id);
        PickSame(tail, m, n, x);
        assert ([id] + Pick(tail, m, x))[1..] == Pick(tail, m, x);
        assert [] + Pick(tail, m, x) == Pick(tail, m, x);
      } else {
        PickShiftRemove(tail, id, m, n, x);
        var rest := ShiftRemove(tail, id);
        assert ([head] + rest)[1..] == rest;
        assert head in keys;
        if Labelled(m, x, head) {
          assert ([head] + Pick(tail, m, x))[1..] == Pick(tail, m, x);
        }
      }
    }
  }

  lemma {:induction false} PresentAll(ids: seq<string>, live: set<string>)
    requires forall k | k in ids :: k in live
    ensures Present(ids, live) == ids
  {
    if ids != [] {
      assert ids[0] in ids;
      assert forall k | k in ids[1..] :: k in ids;
      PresentAll(ids[1..], live);
    }
  }

  lemma {:induction false} PresentMember(ids: seq<string>, live: set<string>)
    ensures forall k :: k in Present(ids, live) <==> k in ids && k in live
  {
    if ids != [] {
      PresentMember(ids[1..], live);
      assert forall k :: k in ids <==> k == ids[0] || k in ids[1..];
    }
  }

  /** No entity carrying the label `lab` is listed after `id`. */
  ghost predicate LastOf(r: Rel, id: string, lab: Option<string>) {
    forall p, q :: 0 <= p < q < |r.keys| && r.keys[p] == id && r.keys[q] in r.labels ==> r.labels[r.keys[q]] != lab
  }

  /** What a caller must check so that the index keeps agreeing with the scan. */
  ghost predicate Careful(r: Rel, op: RelOp) {
    match op
    case Put(id, lab) =>
      id in r.labels ==> r.labels[id] == lab || (r.labels[id] == None && LastOf(r, id, lab))
    case Del(id) => true
    case Drop(x) => forall id | id in r.labels :: r.labels[id] != Some(x)
    case Skip => true
  }

  lemma PutFresh(r: Rel, id: string, lab: Option<string>, x: string)
    requires Shape(r) && Exact(r) && id !in r.labels
    ensures Listed(Step(r, Put(id, lab)).index, x) == Scan(Step(r, Put(id, lab)), x)
  {
    var n := Step(r, Put(id, lab));
    FileListed(r.index, lab, id, x);
    PickConcat(r.keys, [id], n.labels, x);
    PickOne(id, n.labels, x);
    PickSame(r.keys, r.labels, n.labels, x);
    assert Listed(r.index, x) == Scan(r, x);
    PickMember(r.keys, r.labels, x);
  }

  lemma PutSame(r: Rel, id: string, lab: Option<string>, x: string)
    requires Shape(r) && Exact(r) && id in r.labels && r.labels[id] == lab
    ensures Listed(Step(r, Put(id, lab)).index, x) == Scan(Step(r, Put(id, lab)), x)
  {
    var n := Step(r, Put(id, lab));
    assert n.labels == r.labels && n.keys == r.keys;
    FileListed(r.index, lab, id, x);
    assert Listed(r.index, x) == Scan(r, x);
    PickMember(r.keys, r.labels, x);
  }

  /** Around the position of `id`, giving an unlabelled entity the label x puts it
      between the earlier and the later entities labelled x. */
  lemma ScanAround(r: Rel, id: string, p: nat, x: string)
    requires Shape(r) && p < |r.keys| && r.keys[p] == id && r.labels[id] == None
    ensures Scan(r, x) == Early(r, p, x) + Late(r, p, x)
    ensures Scan(Step(r, Put(id, Some(x))), x) == Early(r, p, x) + [id] + Late(r, p, x)
  {
    var n := Step(r, Put(id, Some(x)));
    PickSplit(r.keys, p, r.labels, x);
    PickSplit(r.keys, p, n.labels, x);
    PickSame(r.keys[..p], r.labels, n.labels, x);
    PickSame(r.keys[p + 1..], r.labels, n.labels, x);
  }

  function Early(r: Rel, p: nat, x: string): seq<string>
    requires p < |r.keys|
  {
    Pick(r.keys[..p], r.labels, x)
  }

  function Late(r: Rel, p: nat, x: string): seq<string>
    requires p < |r.keys|
  {
    Pick(r.keys[p + 1..], r.labels, x)
  }

  lemma PickSplit(keys: seq<string>, p: nat, labels: map<string, Option<string>>, x: string)
    requires p < |keys|
    ensures Pick(keys, labels, x) ==
            Pick(keys[..p], labels, x) + (if Labelled(labels, x, keys[p]) then [keys[p]] else []) +
              Pick(keys[p + 1..], labels, x)
  {
    var a, b := keys[..p], keys[p + 1..];
    assert keys == (a + [keys[p]]) + b;
    PickConcat(a + [keys[p]], b, labels, x);
    PickConcat(a, [keys[p]], labels, x);
    PickOne(keys[p], labels, x);
  }

  lemma PutLast(r: Rel, id: string, lab: Option<string>, x: string)
    requires Shape(r) && Exact(r) && id in r.labels && r.labels[id] == None && LastOf(r, id, lab)
    ensures Listed(Step(r, Put(id, lab)).index, x) == Scan(Step(r, Put(id, lab)), x)
  {
    if lab == Some(x) {
      PutLastHere(r, id, x);
    } else {
      FileListed(r.index, lab, id, x);
      assert Listed(r.index, x) == Scan(r, x);
      PickSame(r.keys, r.labels, Step(r, Put(id, lab)).labels, x);
    }
  }

  lemma PutLastHere(r: Rel, id: string, x: string)
    requires Shape(r) && Exact(r) && id in r.labels && r.labels[id] == None && LastOf(r, id, Some(x))
    ensures Listed(Step(r, Put(id, Some(x))).index, x) == Scan(Step(r, Put(id, Some(x))), x)
  {
    var p :| 0 <= p < |r.keys| && r.keys[p] == id;
    ScanAround(r, id, p, x);
    NoneLater(r, id, p, x);
    ListedAppends(r, id, x);
    AppendNothing(Early(r, p, x));
    AppendNothing(Early(r, p, x) + [id]);
  }

  lemma ListedAppends(r: Rel, id: string, x: string)
    requires Shape(r) && Exact(r) && id in r.labels && r.labels[id] == None
    ensures Listed(Step(r, Put(id, Some(x))).index, x) == Scan(r, x) + [id]
  {
    FileListed(r.index, Some(x), id, x);
    assert Listed(r.index, x) == Scan(r, x);
    PickMember(r.keys, r.labels, x);
  }

  lemma NoneLater(r: Rel, id: string, p: nat, x: string)
    requires p < |r.keys| && r.keys[p] == id && LastOf(r, id, Some(x))
    ensures Late(r, p, x) == []
  {
    var b := r.keys[p + 1..];
    PickMember(b, r.labels, x);
    forall k | k in b ensures !Labelled(r.labels, x, k) {
      var q :| 0 <= q < |b| && b[q] == k;
      assert r.keys[p + 1 + q] == k;
    }
    Inhabited(Pick(b, r.labels, x));
  }

  lemma Inhabited(s: seq<string>)
    ensures s == [] || exists k :: k in s
  {
    if s != [] {
      assert s[0] in s;
    }
  }

  lemma DelExact(r: Rel, id: string, x: string)
    requires Shape(r) && Exact(r) && id in r.labels
    ensures Listed(Step(r, Del(id)).index, x) == Scan(Step(r, Del(id)), x)
  {
    var n := Step(r, Del(id));
    UnfileListed(r.index, r.labels[id], id, x);
    assert Listed(r.index, x) == Scan(r, x);
    PickShiftRemove(r.keys, id, r.labels, n.labels, x);
    if r.labels[id] != Some(x) {
      PickMember(r.keys, r.labels, x);
      ShiftRemoveAbsent(Scan(r, x), id);
    }
  }

  lemma DropExact(r: Rel, y: string, x: string)
    requires Shape(r) && Exact(r) && Careful(r, Drop(y))
    ensures Listed(Step(r, Drop(y)).index, x) == Scan(Step(r, Drop(y)), x)
  {
    assert Listed(r.index, x) == Scan(r, x);
    PickMember(r.keys, r.labels, x);
    if x == y {
      Inhabited(Scan(r, x));
    }
  }

  /** A careful step keeps the index exact. */
  lemma CarefulKeepsExact(r: Rel, op: RelOp)
    requires Shape(r) && Exact(r) && Careful(r, op)
    ensures Exact(Step(r, op))
  {
    forall x ensures Listed(Step(r, op).index, x) == Scan(Step(r, op), x) {
      assert Listed(r.index, x) == Scan(r, x);
      match op
      case Put(id, lab) =>
        if id !in r.labels {
          PutFresh(r, id, lab, x);
        } else if r.labels[id] == lab {
          PutSame(r, id, lab, x);
        } else {
          PutLast(r, id, lab, x);
        }
      case Del(id) =>
        if id in r.labels {
          DelExact(r, id, x);
        }
      case Drop(y) => DropExact(r, y, x);
      case Skip =>
    }
  }

  lemma ExactAgrees(r: Rel)
    requires Exact(r)
    ensures Agrees(r)
  {
    forall x ensures Observed(r, x) == Scan(r, x) {
      assert Listed(r.index, x) == Scan(r, x);
      PickMember(r.keys, r.labels, x);
      PresentAll(Scan(r, x), r.labels.Keys);
    }
  }

  /** A careless relabelling is visible at once: the id stays filed under its old label. */
  lemma CarelessRelabelDisagrees(r: Rel, id: string, lab: Option<string>, x: string)
    requires Shape(r) && Exact(r) && id in r.labels && r.labels[id] == Some(x) && lab != Some(x)
    ensures !Agrees(Step(r, Put(id, lab)))
  {
    var n := Step(r, Put(id, lab));
    FileListed(r.index, lab, id, x);
    assert Listed(r.index, x) == Scan(r, x);
    PickMember(r.keys, r.labels, x);
    PresentMember(Listed(n.index, x), n.labels.Keys);
    PickMember(n.keys, n.labels, x);
    assert id in Observed(n, x) && id !in Scan(n, x);
  }

  /** A late first labelling is visible at once: the id is filed out of listing order. */
  lemma LateLabelDisagrees(r: Rel, id: string, x: string)
    requires Shape(r) && Exact(r) && id in r.labels && r.labels[id] == None && !LastOf(r, id, Some(x))
    ensures !Agrees(Step(r, Put(id, Some(x))))
  {
    var p, q :| 0 <= p < q < |r.keys| && r.keys[p] == id && r.keys[q] in r.labels && r.labels[r.keys[q]] == Some(x);
    ScanAround(r, id, p, x);
    ObservedAppends(r, id, x);
    LaterMember(r, id, p, q, x);
    EndsElsewhere(Early(r, p, x), id, Late(r, p, x));
    var n := Step(r, Put(id, Some(x)));
    assert Observed(n, x) != Scan(n, x);
  }

  lemma LaterMember(r: Rel, id: string, p: nat, q: nat, x: string)
    requires Shape(r) && p < q < |r.keys| && r.keys[p] == id && Labelled(r.labels, x, r.keys[q])
    ensures Late(r, p, x) != [] && id !in Late(r, p, x)
  {
    assert r.keys[p + 1..][q - p - 1] == r.keys[q];
    PickMember(r.keys[p + 1..], r.labels, x);
    assert r.keys[q] in Late(r, p, x);
  }

  lemma ObservedAppends(r: Rel, id: string, x: string)
    requires Shape(r) && Exact(r) && id in r.labels && r.labels[id] == None
    ensures Observed(Step(r, Put(id, Some(x))), x) == Scan(r, x) + [id]
  {
    var n := Step(r, Put(id, Some(x)));
    ListedAppends(r, id, x);
    PickMember(r.keys, r.labels, x);
    PresentAll(Listed(n.index, x), n.labels.Keys);
  }

  lemma EndsElsewhere(a: seq<string>, id: string, b: seq<string>)
    requires id !in b && b != []
    ensures a + b + [id] != a + [id] + b
  {
    assert (a + b + [id])[|a| + |b|] == id;
    assert (a + [id] + b)[|a| + |b|] == b[|b| - 1];
  }

  lemma CarelessDropDisagrees(r: Rel, x: string)
    requires Shape(r) && Exact(r) && !Careful(r, Drop(x))
    ensures !Agrees(Step(r, Drop(x)))
  {
    var n := Step(r, Drop(x));
    var id :| id in r.labels && r.labels[id] == Some(x);
    PickMember(n.keys, n.labels, x);
    assert id in Scan(n, x) && Observed(n, x) == [];
  }

  /** Exactness of one step: starting from an exact index, queries after the step equal
      the scan if and only if the step was careful. */
  lemma StepExact(r: Rel, op: RelOp)
    requires Shape(r) && Exact(r)
    ensures Agrees(Step(r, op)) <==> Careful(r, op)
    ensures Exact(Step(r, op)) <==> Careful(r, op)
  {
    if Careful(r, op) {
      CarefulKeepsExact(r, op);
      ExactAgrees(Step(r, op));
    } else {
      match op {
        case Put(id, lab) =>
          if r.labels[id].Some? {
            CarelessRelabelDisagrees(r, id, lab, r.labels[id].value);
          } else {
            LateLabelDisagrees(r, id, lab.value);
          }
        case Drop(x) => CarelessDropDisagrees(r, x);
        case _ =>
      }
      if Exact(Step(r, op)) {
        ExactAgrees(Step(r, op));
      }
    }
  }

  ghost predicate CarefulRun(ops: seq<RelOp>) {
    forall i | 0 <= i < |ops| :: Careful(Run(ops[..i]), ops[i])
  }

  ghost predicate AgreesThroughout(ops: seq<RelOp>) {
    forall i | 0 <= i <= |ops| :: Agrees(Run(ops[..i]))
  }

  lemma CarefulSnoc(ops: seq<RelOp>)
    requires ops != []
    ensures var pre, last := ops[..|ops| - 1], ops[|ops| - 1];
            CarefulRun(ops) <==> CarefulRun(pre) && Careful(Run(pre), last)
  {
    StepsSnoc(ops, ops[..|ops| - 1], (o: seq<RelOp>, op: RelOp) => Careful(Run(o), op));
  }

  lemma AgreesSnoc(ops: seq<RelOp>)
    requires ops != []
    ensures AgreesThroughout(ops) <==> AgreesThroughout(ops[..|ops| - 1]) && Agrees(Run(ops))
  {
    PrefixesSnoc(ops, ops[..|ops| - 1], (o: seq<RelOp>) => Agrees(Run(o)));
  }

  lemma {:induction false} CarefulRunExact(ops: seq<RelOp>)
    requires CarefulRun(ops)
    ensures Exact(Run(ops))
  {
    if ops != [] {
      var pre := ops[..|ops| - 1];
      CarefulSnoc(ops);
      CarefulRunExact(pre);
      RunShape(pre);
      StepExact(Run(pre), ops[|ops| - 1]);
    }
  }

  /** Over whole runs: queries equal the scan at every point of the run if and only if
      every step of it was careful. */
  lemma {:induction false} RunExact(ops: seq<RelOp>)
    ensures AgreesThroughout(ops) <==> CarefulRun(ops)
  {
    if ops == [] {
      assert Agrees(EMPTY);
    } else {
      var pre := ops[..|ops| - 1];
      RunExact(pre);
      AgreesSnoc(ops);
      CarefulSnoc(ops);
      if CarefulRun(pre) {
        CarefulRunExact(pre);
        RunShape(pre);
        StepExact(Run(pre), ops[|ops| - 1]);
      }
    }
  }

  // ---------------------------------------------------------------- history

  /** Step j takes `id` out of the entry x: it deletes the entity while it is labelled x,
      or drops the entry. */
  predicate Clears(ops: seq<RelOp>, j: nat, id: string, x: string)
    requires j < |ops|
  {
    || ops[j] == Drop(x)
    || (ops[j] == Del(id) && Labelled(Run(ops[..j]).labels, x, id))
  }

  /** Step i files `id` under x and no later step takes it out. */
  ghost predicate LivePut(ops: seq<RelOp>, i: nat, id: string, x: string) {
    && i < |ops|
    && ops[i] == Put(id, Some(x))
    && (forall j | i < j < |ops| :: !Clears(ops, j, id, x))
  }

  /** The step since which `id` has been filed under x without interruption. */
  function Since(ops: seq<RelOp>, id: string, x: string): Option<nat> {
    if ops == [] then None
    else
      var n := |ops| - 1;
      var before := Since(ops[..n], id, x);
      if Clears(ops, n, id, x) then None
      else if before == None && ops[n] == Put(id, Some(x)) then Some(n)
      else before
  }

  lemma {:induction false} SinceLeast(ops: seq<RelOp>, id: string, x: string)
    ensures Since(ops, id, x).Some? <==> exists i :: LivePut(ops, i, id, x)
    ensures Since(ops, id, x).Some? ==>
              LivePut(ops, Since(ops, id, x).value, id, x) &&
              forall i | 0 <= i < Since(ops, id, x).value :: !LivePut(ops, i, id, x)
  {
    if ops != [] {
      var n := |ops| - 1;
      var pre := ops[..n];
      SinceLeast(pre, id, x);
      assert forall j | 0 <= j < n :: pre[..j] == ops[..j];
      assert forall j | 0 <= j < n :: Clears(pre, j, id, x) == Clears(ops, j, id, x);
      assert forall i | 0 <= i < n :: LivePut(ops, i, id, x) <==> LivePut(pre, i, id, x) && !Clears(ops, n, id, x) by {
        forall i | 0 <= i < n
          ensures LivePut(ops, i, id, x) <==> LivePut(pre, i, id, x) && !Clears(ops, n, id, x)
        {
          if LivePut(ops, i, id, x) {
            assert LivePut(pre, i, id, x);
          }
        }
      }
      if Clears(ops, n, id, x) {
        assert !LivePut(ops, n, id, x);
      } else if ops[n] == Put(id, Some(x)) {
        assert LivePut(ops, n, id, x);
      }
    }
  }

  /** ids are exactly the ones with a rank, in strictly rising rank. */
  ghost predicate RankedBy(rank: string -> Option<nat>, ids: seq<string>) {
    && (forall id :: id in ids <==> rank(id).Some?)
    && Rising(rank, ids)
  }

  ghost predicate Rising(rank: string -> Option<nat>, ids: seq<string>) {
    forall p, q | 0 <= p < q < |ids| :: RankBelow(rank, ids[p], ids[q])
  }

  predicate RankBelow(rank: string -> Option<nat>, a: string, b: string) {
    rank(a).Some? && rank(b).Some? && rank(a).value < rank(b).value
  }

  lemma RankedAppend(rank: string -> Option<nat>, next: string -> Option<nat>, ids: seq<string>, id: string, n: nat)
    requires RankedBy(rank, ids) && rank(id) == None && next(id) == Some(n)
    requires forall k | k != id :: next(k) == rank(k)
    requires forall k | rank(k).Some? :: rank(k).value < n
    ensures RankedBy(next, ids + [id])
  {
    var now := ids + [id];
    assert forall p | 0 <= p < |ids| :: ids[p] in ids && now[p] == ids[p];
    forall p, q | 0 <= p < q < |now| ensures RankBelow(next, now[p], now[q]) {
      if q < |ids| {
        assert RankBelow(rank, ids[p], ids[q]);
      }
    }
  }

  lemma RankedRemove(rank: string -> Option<nat>, next: string -> Option<nat>, ids: seq<string>, id: string)
    requires RankedBy(rank, ids) && NoDup(ids) && next(id) == None
    requires forall k | k != id :: next(k) == rank(k)
    ensures RankedBy(next, ShiftRemove(ids, id))
  {
    ShiftRemoveMember(ids, id);
    if id in ids {
      var i :| 0 <= i < |ids| && ids[i] == id;
      ShiftRemoveAt(ids, i);
      RisingWithout(rank, next, ids, i);
    } else {
      ShiftRemoveAbsent(ids, id);
      RankedSame(rank, next, ids);
    }
  }

  lemma RisingWithout(rank: string -> Option<nat>, next: string -> Option<nat>, ids: seq<string>, i: nat)
    requires Rising(rank, ids) && NoDup(ids) && i < |ids|
    requires forall k | k != ids[i] :: next(k) == rank(k)
    ensures Rising(next, ids[..i] + ids[i + 1..])
  {
    var now := ids[..i] + ids[i + 1..];
    forall p, q | 0 <= p < q < |now| ensures RankBelow(next, now[p], now[q]) {
      var p', q' := if p < i then p else p + 1, if q < i then q else q + 1;
      assert now[p] == ids[p'] && now[q] == ids[q'];
      assert RankBelow(rank, ids[p'], ids[q']);
    }
  }

  lemma RankedSame(rank: string -> Option<nat>, next: string -> Option<nat>, ids: seq<string>)
    requires RankedBy(rank, ids)
    requires forall k | k in ids || rank(k).Some? || next(k).Some? :: next(k) == rank(k)
    ensures RankedBy(next, ids)
  {
    forall p, q | 0 <= p < q < |ids| ensures RankBelow(next, ids[p], ids[q]) {
      assert RankBelow(rank, ids[p], ids[q]);
    }
  }

  lemma HistoryPut(ops: seq<RelOp>, op: RelOp, was: seq<string>, x: string)
    requires op.Put? && RankedBy(k => Since(ops, k, x), was)
    ensures RankedBy(k => Since(ops + [op], k, x), if op.lab == Some(x) then SetInsert(was, op.id) else was)
  {
    assert (ops + [op])[..|ops|] == ops;
    SinceBound(ops, x);
    if op.lab == Some(x) && op.id !in was {
      assert Since(ops, op.id, x) == None;
      RankedAppend(k => Since(ops, k, x), k => Since(ops + [op], k, x), was, op.id, |ops|);
    } else {
      RankedSame(k => Since(ops, k, x), k => Since(ops + [op], k, x), was);
    }
  }

  lemma HistoryDel(ops: seq<RelOp>, id: string, was: seq<string>, x: string)
    requires RankedBy(k => Since(ops, k, x), was) && NoDup(was)
    ensures RankedBy(k => Since(ops + [Del(id)], k, x),
                     if Labelled(Run(ops).labels, x, id) then ShiftRemove(was, id) else was)
  {
    assert (ops + [Del(id)])[..|ops|] == ops;
    if Labelled(Run(ops).labels, x, id) {
      RankedRemove(k => Since(ops, k, x), k => Since(ops + [Del(id)], k, x), was, id);
    } else {
      RankedSame(k => Since(ops, k, x), k => Since(ops + [Del(id)], k, x), was);
    }
  }

  lemma HistoryDrop(ops: seq<RelOp>, y: string, was: seq<string>, x: string)
    requires RankedBy(k => Since(ops, k, x), was)
    ensures RankedBy(k => Since(ops + [Drop(y)], k, x), if x == y then [] else was)
  {
    assert (ops + [Drop(y)])[..|ops|] == ops;
    if x != y {
      RankedSame(k => Since(ops, k, x), k => Since(ops + [Drop(y)], k, x), was);
    }
  }

  /** The index entry x holds exactly the ids with a live filing, ordered by the step
      since which each has been there. No assumption on the run. */
  lemma {:induction false} ListedHistory(ops: seq<RelOp>, x: string)
    ensures RankedBy(id => Since(ops, id, x), Listed(Run(ops).index, x))
  {
    if ops != [] {
      var n := |ops| - 1;
      var pre, op := ops[..n], ops[n];
      assert ops == pre + [op];
      var r := Run(pre);
      ListedHistory(pre, x);
      RunShape(pre);
      var was := Listed(r.index, x);
      match op {
        case Put(id, lab) =>
          FileListed(r.index, lab, id, x);
          HistoryPut(pre, op, was, x);
        case Del(id) =>
          HistoryDel(pre, id, was, x);
          if id in r.labels {
            UnfileListed(r.index, r.labels[id], id, x);
          }
        case Drop(y) =>
          HistoryDrop(pre, y, was, x);
        case Skip =>
          RankedSame(k => Since(pre, k, x), k => Since(ops, k, x), was);
      }
    }
  }

  lemma {:induction false} SinceBound(ops: seq<RelOp>, x: string)
    ensures forall id | Since(ops, id, x).Some? :: Since(ops, id, x).value < |ops|
  {
    if ops != [] {
      SinceBound(ops[..|ops| - 1], x);
    }
  }

  // ---------------------------------------------------------------- inclusion

  /** Every labelled entity is filed under its label. */
  ghost predicate Filed(r: Rel) {
    forall id | id in r.labels && r.labels[id].Some? :: id in Listed(r.index, r.labels[id].value)
  }

  /** Without drops, no entity is ever missing from its entry, whatever is re-added. */
  lemma StepFiled(r: Rel, op: RelOp)
    requires Shape(r) && Filed(r) && (op.Drop? ==> Careful(r, op))
    ensures Filed(Step(r, op))
  {
    var n := Step(r, op);
    forall id | id in n.labels && n.labels[id].Some? ensures id in Listed(n.index, n.labels[id].value) {
      var x := n.labels[id].value;
      match op
      case Put(i, lab) => FileListed(r.index, lab, i, x);
      case Del(i) =>
        if i in r.labels {
          UnfileListed(r.index, r.labels[i], i, x);
          if r.labels[i] == Some(x) && x in r.index {
            ShiftRemoveMember(r.index[x], i);
          }
        }
      case Drop(y) =>
      case Skip =>
    }
  }
}
