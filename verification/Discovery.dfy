/** Discovery: several provider streams merged into one, each diff applied under one
    write guard, errors skipped, and a shutdown that can only fall between diffs. */
module Discovery {
  import opened Wrappers
  import opened Sequences
  import opened TopologyModel
  import opened Topologies
  import opened EventLog
  import opened Diffs

  type Item = Result<Diff, string>

  // ---------------------------------------------------------------- merging streams

  function Pop(streams: seq<seq<Item>>, i: nat): seq<seq<Item>>
    requires i < |streams| && streams[i] != []
  {
    streams[i := streams[i][1..]]
  }

  /** picks names, in turn, the stream that yields next. */
  predicate Schedule(streams: seq<seq<Item>>, picks: seq<nat>)
    decreases |picks|
  {
    picks == [] ||
    (picks[0] < |streams| && streams[picks[0]] != [] && Schedule(Pop(streams, picks[0]), picks[1..]))
  }

  /** The items the merged stream yields. */
  function Merged(streams: seq<seq<Item>>, picks: seq<nat>): seq<Item>
    requires Schedule(streams, picks)
    decreases |picks|
  {
    if picks == [] then []
    else [streams[picks[0]][0]] + Merged(Pop(streams, picks[0]), picks[1..])
  }

  /** What the streams still hold afterwards. */
  function Rest(streams: seq<seq<Item>>, picks: seq<nat>): seq<seq<Item>>
    requires Schedule(streams, picks)
    decreases |picks|
  {
    if picks == [] then streams else Rest(Pop(streams, picks[0]), picks[1..])
  }

  predicate Exhausted(streams: seq<seq<Item>>) {
    forall i | 0 <= i < |streams| :: streams[i] == []
  }

  predicate Complete(streams: seq<seq<Item>>, picks: seq<nat>) {
    Schedule(streams, picks) && Exhausted(Rest(streams, picks))
  }

  lemma {:induction false} ScheduleSnoc(streams: seq<seq<Item>>, picks: seq<nat>, i: nat)
    requires Schedule(streams, picks) && |Rest(streams, picks)| == |streams|
    requires i < |streams| && Rest(streams, picks)[i] != []
    ensures Schedule(streams, picks + [i])
    ensures Merged(streams, picks + [i]) == Merged(streams, picks) + [Rest(streams, picks)[i][0]]
    ensures Rest(streams, picks + [i]) == Pop(Rest(streams, picks), i)
    decreases |picks|
  {
    if picks == [] {
      assert [] + [i] == [i] && [i][1..] == [];
    } else {
      ScheduleSnoc(Pop(streams, picks[0]), picks[1..], i);
      assert (picks + [i])[1..] == picks[1..] + [i];
    }
  }

  lemma {:induction false} SchedulePrefix(streams: seq<seq<Item>>, picks: seq<nat>, k: nat)
    requires Schedule(streams, picks) && k < |picks|
    ensures Schedule(streams, picks[..k])
    ensures |Rest(streams, picks[..k])| == |streams|
    ensures picks[k] < |streams| && Rest(streams, picks[..k])[picks[k]] != []
    decreases |picks|
  {
    if k > 0 {
      SchedulePrefix(Pop(streams, picks[0]), picks[1..], k - 1);
      assert picks[..k][1..] == picks[1..][..k - 1];
    } else {
      assert picks[..0] == [];
    }
  }

  lemma {:induction false} RestLength(streams: seq<seq<Item>>, picks: seq<nat>)
    requires Schedule(streams, picks)
    ensures |Rest(streams, picks)| == |streams|
    decreases |picks|
  {
    if picks != [] {
      RestLength(Pop(streams, picks[0]), picks[1..]);
    }
  }

  /** The diffs among the items; errors contribute nothing. */
  function OkDiffs(items: seq<Item>): seq<Diff> {
    if items == [] then []
    else
      var last := items[|items| - 1];
      OkDiffs(items[..|items| - 1]) + (if last.Ok? then [last.value] else [])
  }

  function Guards(diffs: seq<Diff>): seq<seq<Op>> {
    seq(|diffs|, i requires 0 <= i < |diffs| => DiffOps(diffs[i]))
  }

  /** All the mutations of a list of diffs, in order. */
  function AllOps(diffs: seq<Diff>): seq<Op> {
    Concat(Guards(diffs))
  }

  lemma AllOpsSnoc(diffs: seq<Diff>, d: Diff)
    ensures AllOps(diffs + [d]) == AllOps(diffs) + DiffOps(d)
  {
    assert Guards(diffs + [d]) == Guards(diffs) + [DiffOps(d)];
    ConcatSnoc(Guards(diffs), DiffOps(d));
  }

  lemma OkDiffsSnoc(items: seq<Item>, item: Item)
    ensures OkDiffs(items + [item]) == OkDiffs(items) + (if item.Ok? then [item.value] else [])
  {
    assert (items + [item])[..|items|] == items;
  }

  // ---------------------------------------------------------------- the loop

  /** The streams of the providers that started. */
  function Started(providers: seq<Result<seq<Item>, string>>): seq<seq<Item>> {
    if providers == [] then []
    else
      var last := providers[|providers| - 1];
      Started(providers[..|providers| - 1]) + (if last.Ok? then [last.value] else [])
  }

  /** Providers that fail to start cost nothing but themselves: of the others, every stream
      is there, in the order of the providers. */
  lemma StartedConcat(a: seq<Result<seq<Item>, string>>, b: seq<Result<seq<Item>, string>>)
    ensures Started(a + b) == Started(a) + Started(b)
    ensures forall stream: seq<Item> :: Started([Ok(stream)]) == [stream]
    ensures forall e: string :: Started([Err(e)]) == []
  {
    forall r: Result<seq<Item>, string> ensures Started([r]) == if r.Ok? then [r.value] else [] {
      StartedOne(r);
    }
    StartedJoin(a, b);
  }

  lemma StartedOne(r: Result<seq<Item>, string>)
    ensures Started([r]) == if r.Ok? then [r.value] else []
  {
    assert [r][..0] == [];
  }

  lemma {:induction false} StartedJoin(a: seq<Result<seq<Item>, string>>, b: seq<Result<seq<Item>, string>>)
    ensures Started(a + b) == Started(a) + Started(b)
  {
    if b == [] {
      AppendNothing(a);
      AppendNothing(Started(a));
    } else {
      var pre, last := b[..|b| - 1], b[|b| - 1];
      FrontOfConcat(a, b);
      StartedJoin(a, pre);
      Assoc(Started(a), Started(pre), if last.Ok? then [last.value] else []);
    }
  }

  /** The same for the diffs among the items. */
  lemma OkDiffsConcat(a: seq<Item>, b: seq<Item>)
    ensures OkDiffs(a + b) == OkDiffs(a) + OkDiffs(b)
    ensures forall d: Diff :: OkDiffs([Ok(d)]) == [d]
    ensures forall e: string :: OkDiffs([Err(e)]) == []
  {
    forall r: Item ensures OkDiffs([r]) == if r.Ok? then [r.value] else [] {
      OkDiffsOne(r);
    }
    OkDiffsJoin(a, b);
  }

  lemma OkDiffsOne(r: Item)
    ensures OkDiffs([r]) == if r.Ok? then [r.value] else []
  {
    assert [r][..0] == [];
  }

  lemma {:induction false} OkDiffsJoin(a: seq<Item>, b: seq<Item>)
    ensures OkDiffs(a + b) == OkDiffs(a) + OkDiffs(b)
  {
    if b == [] {
      AppendNothing(a);
      AppendNothing(OkDiffs(a));
    } else {
      var pre, last := b[..|b| - 1], b[|b| - 1];
      FrontOfConcat(a, b);
      OkDiffsJoin(a, pre);
      Assoc(OkDiffs(a), OkDiffs(pre), if last.Ok? then [last.value] else []);
    }
  }

  /** The diffs that take effect: all of those received, except that a shutdown may
      catch the last one while it waits for the write lock. */
  function Effective(items: seq<Item>, caught: bool): seq<Diff> {
    if caught && items != [] then OkDiffs(items[..|items| - 1]) else OkDiffs(items)
  }

  function ItemOps(item: Item): seq<Op> {
    if item.Ok? then DiffOps(item.value) else []
  }

  lemma ReceiveOne(streams: seq<seq<Item>>, picks: seq<nat>, k: nat)
    requires Schedule(streams, picks) && k < |picks|
    ensures Schedule(streams, picks[..k]) && Schedule(streams, picks[..k + 1])
    ensures var left := Rest(streams, picks[..k]);
            && picks[k] < |left| && left[picks[k]] != []
            && Rest(streams, picks[..k + 1]) == Pop(left, picks[k])
            && Merged(streams, picks[..k + 1]) == Merged(streams, picks[..k]) + [left[picks[k]][0]]
  {
    SchedulePrefix(streams, picks, k);
    ScheduleSnoc(streams, picks[..k], picks[k]);
    assert picks[..k + 1] == picks[..k] + [picks[k]];
  }

  lemma ItemAdds(items: seq<Item>, item: Item)
    ensures AllOps(OkDiffs(items + [item])) == AllOps(OkDiffs(items)) + ItemOps(item)
    ensures Effective(items + [item], true) == OkDiffs(items)
  {
    OkDiffsSnoc(items, item);
    assert (items + [item])[..|items|] == items;
    if item.Ok? {
      AllOpsSnoc(OkDiffs(items), item.value);
    } else {
      assert OkDiffs(items) + [] == OkDiffs(items);
      assert AllOps(OkDiffs(items)) + [] == AllOps(OkDiffs(items));
    }
  }

  /** Handles one event of the merged stream. */
  method ProcessEvent(topology: Topology, item: Item)
    requires topology.state.Valid()
    modifies topology.state, topology`log
    ensures topology.state.Valid()
    ensures topology.state.Snapshot() == Run(old(topology.state.Snapshot()), ItemOps(item))
    ensures topology.log == old(topology.log) + Events(old(topology.state.Snapshot()), ItemOps(item))
  {
    match item {
      case Ok(d) => ApplyDiff(topology, d);
      case Err(_) =>
    }
  }

  /** These mutations have brought the topology from state s and this log to where it is. */
  ghost predicate Reached(topology: Topology, s: State, log: seq<Event>, ops: seq<Op>)
    reads topology, topology.state
  {
    && topology.state.Valid()
    && topology.state.Snapshot() == Run(s, ops)
    && topology.log == log + Events(s, ops)
  }

  lemma ReachedFurther(s: State, log: seq<Event>, ops: seq<Op>, more: seq<Op>)
    ensures Run(s, ops + more) == Run(Run(s, ops), more)
    ensures log + Events(s, ops + more) == (log + Events(s, ops)) + Events(Run(s, ops), more)
  {
    RunConcat(s, ops, more);
    Assoc(log, Events(s, ops), Events(Run(s, ops), more));
  }

  /** The mutations of the first k events that take effect. */
  function OpsUpTo(streams: seq<seq<Item>>, picks: seq<nat>, k: nat): seq<Op>
    requires k <= |picks| && Schedule(streams, picks[..k])
  {
    AllOps(OkDiffs(Merged(streams, picks[..k])))
  }

  lemma OpsGrow(streams: seq<seq<Item>>, picks: seq<nat>, k: nat)
    requires Schedule(streams, picks) && k < |picks|
    ensures Schedule(streams, picks[..k]) && Schedule(streams, picks[..k + 1])
    ensures var left := Rest(streams, picks[..k]);
            && picks[k] < |left| && left[picks[k]] != []
            && Rest(streams, picks[..k + 1]) == Pop(left, picks[k])
            && OpsUpTo(streams, picks, k + 1) == OpsUpTo(streams, picks, k) + ItemOps(left[picks[k]][0])
  {
    ReceiveOne(streams, picks, k);
    ItemAdds(Merged(streams, picks[..k]), Rest(streams, picks[..k])[picks[k]][0]);
  }

  /** How many events the loop processes. */
  function Processed(picks: seq<nat>, caught: bool): nat {
    if caught && picks != [] then |picks| - 1 else |picks|
  }

  lemma ProcessedOps(streams: seq<seq<Item>>, picks: seq<nat>, caught: bool)
    requires Schedule(streams, picks)
    ensures Schedule(streams, picks[..Processed(picks, caught)])
    ensures OpsUpTo(streams, picks, Processed(picks, caught)) == AllOps(Effective(Merged(streams, picks), caught))
  {
    assert picks[..|picks|] == picks;
    if caught && picks != [] {
      var k := |picks| - 1;
      ReceiveOne(streams, picks, k);
      ItemAdds(Merged(streams, picks[..k]), Rest(streams, picks[..k])[picks[k]][0]);
    }
  }

  /** What the streams hold and what has been done after each event, step by step. */
  ghost predicate Trace(picks: seq<nat>, lefts: seq<seq<seq<Item>>>, done: seq<seq<Op>>) {
    && |lefts| == |done| == |picks| + 1 && done[0] == []
    && forall k | 0 <= k < |picks| :: TraceStep(lefts[k], done[k], picks[k], lefts[k + 1], done[k + 1])
  }

  ghost predicate TraceStep(left: seq<seq<Item>>, done: seq<Op>, i: nat, next: seq<seq<Item>>, more: seq<Op>) {
    && i < |left| && left[i] != []
    && next == Pop(left, i) && more == done + ItemOps(left[i][0])
  }

  lemma AllPrefixes(all: seq<seq<Item>>, picks: seq<nat>)
    requires Schedule(all, picks)
    ensures forall k | 0 <= k <= |picks| :: Schedule(all, picks[..k])
  {
    assert picks[..|picks|] == picks;
    forall k | 0 <= k <= |picks| ensures Schedule(all, picks[..k]) {
      if k < |picks| {
        SchedulePrefix(all, picks, k);
      }
    }
  }

  lemma OpsGrowBy(all: seq<seq<Item>>, picks: seq<nat>, k: nat)
    requires Schedule(all, picks) && k < |picks|
    requires Schedule(all, picks[..k]) && Schedule(all, picks[..k + 1])
    ensures TraceStep(Rest(all, picks[..k]), OpsUpTo(all, picks, k), picks[k],
              Rest(all, picks[..k + 1]), OpsUpTo(all, picks, k + 1))
  {
    OpsGrow(all, picks, k);
  }

  lemma TraceOf(all: seq<seq<Item>>, picks: seq<nat>, caught: bool)
    returns (lefts: seq<seq<seq<Item>>>, done: seq<seq<Op>>)
    requires Schedule(all, picks)
    ensures Trace(picks, lefts, done) && lefts[0] == all
    ensures done[Processed(picks, caught)] == AllOps(Effective(Merged(all, picks), caught))
  {
    AllPrefixes(all, picks);
    lefts := seq(|picks| + 1, k requires 0 <= k <= |picks| => Rest(all, picks[..k]));
    done := seq(|picks| + 1, k requires 0 <= k <= |picks| => OpsUpTo(all, picks, k));
    assert lefts[0] == all && done[0] == [] by {
      assert picks[..0] == [];
    }
    ProcessedOps(all, picks, caught);
    forall k | 0 <= k < |picks| ensures TraceStep(lefts[k], done[k], picks[k], lefts[k + 1], done[k + 1]) {
      OpsGrowBy(all, picks, k);
    }
  }

  /** Handles one event, from wherever the events before it have brought the topology. */
  method ProcessNext(topology: Topology, item: Item, ghost s: State, ghost log: seq<Event>, ghost ops: seq<Op>)
    requires Reached(topology, s, log, ops)
    modifies topology.state, topology`log
    ensures Reached(topology, s, log, ops + ItemOps(item))
  {
    ReachedFurther(s, log, ops, ItemOps(item));
    ProcessEvent(topology, item);
  }

  /** The event loop up to the shutdown after |picks| events; `caught` says that the
      shutdown finds the last event not yet processed. */
  method ProcessEvents(topology: Topology, all: seq<seq<Item>>, picks: seq<nat>, caught: bool)
    requires topology.state.Valid()
    requires Schedule(all, picks)
    modifies topology.state, topology`log
    ensures Reached(topology, old(topology.state.Snapshot()), old(topology.log),
              AllOps(Effective(Merged(all, picks), caught)))
  {
    var streams := all;
    ghost var s, log := topology.state.Snapshot(), topology.log;
    ghost var lefts, done := TraceOf(all, picks, caught);
    for k := 0 to |picks|
      invariant streams == lefts[k] && k <= Processed(picks, caught)
      invariant Reached(topology, s, log, done[k])
    {
      assert TraceStep(lefts[k], done[k], picks[k], lefts[k + 1], done[k + 1]);
      var i := picks[k];
      var item := streams[i][0];
      streams := streams[i := streams[i][1..]];
      if caught && k == |picks| - 1 {
        return;
      }
      ProcessNext(topology, item, s, log, done[k]);
    }
  }

  /** One run of discovery. The environment decides which providers start, which stream
      yields next, when the run is shut down, and whether the shutdown catches the last
      diff waiting for the lock. */
  method RunDiscovery(topology: Topology, providers: seq<Result<seq<Item>, string>>, picks: seq<nat>, caught: bool)
    requires topology.state.Valid()
    requires Schedule(Started(providers), picks)
    modifies topology.state, topology`log
    ensures topology.state.Valid()
    ensures var ops := AllOps(Effective(Merged(Started(providers), picks), caught));
            && topology.state.Snapshot() == Run(old(topology.state.Snapshot()), ops)
            && topology.log == old(topology.log) + Events(old(topology.state.Snapshot()), ops)
  {
    var streams: seq<seq<Item>> := [];
    assert providers[..0] == [];
    for p := 0 to |providers|
      invariant streams == Started(providers[..p])
    {
      assert providers[..p + 1][..p] == providers[..p];
      match providers[p] {
        case Ok(stream) => streams := streams + [stream];
        case Err(_) =>
      }
    }
    assert providers[..|providers|] == providers;
    if streams == [] {
      return;
    }
    ProcessEvents(topology, streams, picks, caught);
  }

  // ---------------------------------------------------------------- the step system

  /** Where the task stands: waiting for an event, holding a diff and waiting for the write
      lock, applying the rest of a diff, dropping the guard, or stopped. Only the two
      waits are await points, so only there can a shutdown cancel the task. */
  datatype Phase = AwaitEvent | AwaitLock(d: Diff) | Applying(d: Diff, rest: seq<Op>) | Dropping(d: Diff) | Stopped

  /** `received` and `applied` record the items taken from the streams and the diffs whose
      guard has been dropped; `picks` records the streams in the order they yielded. */
  datatype Task = Task(
    streams: seq<seq<Item>>,
    picks: seq<nat>,
    received: seq<Item>,
    applied: seq<Diff>,
    phase: Phase,
    topo: Sys)

  /** Steps of the task, a shutdown, and any step of a reader or an event receiver. */
  datatype TaskStep =
    | TakeNext(i: nat) | TakeLock | ApplyOne | BeginDropping | SendOne | GiveUpLock
    | EndOfStreams | Shutdown | Other(a: Action)

  predicate IsReaderStep(a: Action) {
    a.AcquireRead? || a.ReleaseRead? || a.Subscribe? || a.Receive? || a.Lag? || a.Snapshot?
  }

  predicate CanStep(t: Task, step: TaskStep) {
    match step
    case TakeNext(i) => t.phase.AwaitEvent? && i < |t.streams| && t.streams[i] != []
    case TakeLock => t.phase.AwaitLock? && Enabled(t.topo, AcquireWrite)
    case ApplyOne => t.phase.Applying? && t.phase.rest != [] && Enabled(t.topo, Mutate(t.phase.rest[0]))
    case BeginDropping => t.phase.Applying? && t.phase.rest == [] && Enabled(t.topo, BeginDrop)
    case SendOne => t.phase.Dropping? && Enabled(t.topo, Send)
    case GiveUpLock => t.phase.Dropping? && Enabled(t.topo, ReleaseWrite)
    case EndOfStreams => t.phase.AwaitEvent? && Exhausted(t.streams)
    case Shutdown => t.phase.AwaitEvent? || t.phase.AwaitLock?
    case Other(a) => IsReaderStep(a) && Enabled(t.topo, a)
  }

  function StepTask(t: Task, step: TaskStep): Task
    requires CanStep(t, step)
  {
    match step
    case TakeNext(i) =>
      var item := t.streams[i][0];
      t.(streams := Pop(t.streams, i), picks := t.picks + [i], received := t.received + [item],
         phase := if item.Ok? then AwaitLock(item.value) else AwaitEvent)
    case TakeLock => t.(topo := Next(t.topo, AcquireWrite), phase := Applying(t.phase.d, DiffOps(t.phase.d)))
    case ApplyOne => t.(topo := Next(t.topo, Mutate(t.phase.rest[0])), phase := Applying(t.phase.d, t.phase.rest[1..]))
    case BeginDropping => t.(topo := Next(t.topo, BeginDrop), phase := Dropping(t.phase.d))
    case SendOne => t.(topo := Next(t.topo, Send))
    case GiveUpLock =>
      t.(topo := Next(t.topo, ReleaseWrite), applied := t.applied + [t.phase.d], phase := AwaitEvent)
    case EndOfStreams => t.(phase := Stopped)
    case Shutdown => t.(phase := Stopped)
    case Other(a) => t.(topo := Next(t.topo, a))
  }

  ghost predicate CanRun(t: Task, steps: seq<TaskStep>)
    decreases |steps|
  {
    steps == [] || (CanStep(t, steps[0]) && CanRun(StepTask(t, steps[0]), steps[1..]))
  }

  ghost function RunTask(t: Task, steps: seq<TaskStep>): Task
    requires CanRun(t, steps)
    decreases |steps|
  {
    if steps == [] then t else RunTask(StepTask(t, steps[0]), steps[1..])
  }

  function Launch(streams: seq<seq<Item>>, topo: Sys): Task {
    Task(streams, [], [], [], AwaitEvent, topo)
  }

  /** How far the applied diffs lag behind the received ones, and what the lock holds. */
  ghost predicate InPhase(t: Task) {
    match t.phase
    case AwaitEvent => t.topo.writer.None? && OkDiffs(t.received) == t.applied
    case AwaitLock(d) =>
      && t.topo.writer.None?
      && OkDiffs(t.received) == t.applied + [d]
      && t.received != [] && t.received[|t.received| - 1] == Ok(d)
    case Applying(d, rest) =>
      && t.topo.writer.Some? && !t.topo.writer.value.dropping
      && OkDiffs(t.received) == t.applied + [d]
      && OpenOps(t.topo) + rest == DiffOps(d)
    case Dropping(d) =>
      && t.topo.writer.Some?
      && OkDiffs(t.received) == t.applied + [d]
      && OpenOps(t.topo) == DiffOps(d)
    case Stopped =>
      t.topo.writer.None? && (OkDiffs(t.received) == t.applied || exists d :: OkDiffs(t.received) == t.applied + [d])
  }

  ghost predicate TaskInv(streams: seq<seq<Item>>, start: Sys, t: Task) {
    && EventLog.Inv(t.topo)
    && t.topo.done == start.done + Guards(t.applied)
    && InPhase(t)
    && Schedule(streams, t.picks)
    && t.received == Merged(streams, t.picks)
    && t.streams == Rest(streams, t.picks)
  }

  lemma TakeNextKeepsInv(streams: seq<seq<Item>>, start: Sys, t: Task, i: nat)
    requires TaskInv(streams, start, t) && CanStep(t, TakeNext(i))
    ensures TaskInv(streams, start, StepTask(t, TakeNext(i)))
  {
    RestLength(streams, t.picks);
    ScheduleSnoc(streams, t.picks, i);
    OkDiffsSnoc(t.received, t.streams[i][0]);
  }

  lemma ApplyOneKeepsPhase(t: Task)
    requires InPhase(t) && CanStep(t, ApplyOne)
    ensures InPhase(StepTask(t, ApplyOne))
  {
    Assoc(OpenOps(t.topo), [t.phase.rest[0]], t.phase.rest[1..]);
    assert [t.phase.rest[0]] + t.phase.rest[1..] == t.phase.rest;
  }

  lemma ApplyOneKeepsInv(streams: seq<seq<Item>>, start: Sys, t: Task)
    requires TaskInv(streams, start, t) && CanStep(t, ApplyOne)
    ensures TaskInv(streams, start, StepTask(t, ApplyOne))
  {
    var op := t.phase.rest[0];
    ApplyOneKeepsPhase(t);
    assert StepTask(t, ApplyOne).topo == Next(t.topo, Mutate(op)) && Next(t.topo, Mutate(op)).done == t.topo.done;
    NextKeepsInv(t.topo, Mutate(op));
  }

  lemma GiveUpLockRecords(start: Sys, t: Task)
    requires InPhase(t) && CanStep(t, GiveUpLock) && t.topo.done == start.done + Guards(t.applied)
    ensures var n := StepTask(t, GiveUpLock);
            InPhase(n) && n.topo.done == start.done + Guards(n.applied)
  {
    assert Guards(t.applied + [t.phase.d]) == Guards(t.applied) + [DiffOps(t.phase.d)];
    Assoc(start.done, Guards(t.applied), [DiffOps(t.phase.d)]);
  }

  lemma GiveUpLockKeepsInv(streams: seq<seq<Item>>, start: Sys, t: Task)
    requires TaskInv(streams, start, t) && CanStep(t, GiveUpLock)
    ensures TaskInv(streams, start, StepTask(t, GiveUpLock))
  {
    GiveUpLockRecords(start, t);
    assert StepTask(t, GiveUpLock).topo == Next(t.topo, ReleaseWrite);
    NextKeepsInv(t.topo, ReleaseWrite);
  }

  lemma TakeLockKeepsInv(streams: seq<seq<Item>>, start: Sys, t: Task)
    requires TaskInv(streams, start, t) && CanStep(t, TakeLock)
    ensures TaskInv(streams, start, StepTask(t, TakeLock))
  {
    assert [] + DiffOps(t.phase.d) == DiffOps(t.phase.d);
    NextKeepsInv(t.topo, AcquireWrite);
  }

  lemma BeginDroppingKeepsInv(streams: seq<seq<Item>>, start: Sys, t: Task)
    requires TaskInv(streams, start, t) && CanStep(t, BeginDropping)
    ensures TaskInv(streams, start, StepTask(t, BeginDropping))
  {
    assert OpenOps(t.topo) + [] == OpenOps(t.topo);
    NextKeepsInv(t.topo, BeginDrop);
  }

  lemma SendOneKeepsInv(streams: seq<seq<Item>>, start: Sys, t: Task)
    requires TaskInv(streams, start, t) && CanStep(t, SendOne)
    ensures TaskInv(streams, start, StepTask(t, SendOne))
  {
    NextKeepsInv(t.topo, Send);
  }

  lemma ReaderStepLeaves(s: Sys, a: Action)
    requires Enabled(s, a) && IsReaderStep(a)
    ensures Next(s, a).writer == s.writer && Next(s, a).done == s.done
  {
  }

  lemma OtherKeepsInv(streams: seq<seq<Item>>, start: Sys, t: Task, a: Action)
    requires TaskInv(streams, start, t) && CanStep(t, Other(a))
    ensures TaskInv(streams, start, StepTask(t, Other(a)))
  {
    ReaderStepLeaves(t.topo, a);
    SamePhase(t, t.(topo := Next(t.topo, a)));
    NextKeepsInv(t.topo, a);
  }

  lemma SamePhase(t: Task, n: Task)
    requires InPhase(t) && n.phase == t.phase && n.received == t.received && n.applied == t.applied
    requires n.topo.writer == t.topo.writer
    ensures InPhase(n)
  {
    match t.phase
    case Stopped =>
    case _ =>
  }

  lemma StepKeepsInv(streams: seq<seq<Item>>, start: Sys, t: Task, step: TaskStep)
    requires TaskInv(streams, start, t) && CanStep(t, step)
    ensures TaskInv(streams, start, StepTask(t, step))
  {
    match step
    case TakeNext(i) => TakeNextKeepsInv(streams, start, t, i);
    case TakeLock => TakeLockKeepsInv(streams, start, t);
    case ApplyOne => ApplyOneKeepsInv(streams, start, t);
    case BeginDropping => BeginDroppingKeepsInv(streams, start, t);
    case SendOne => SendOneKeepsInv(streams, start, t);
    case GiveUpLock => GiveUpLockKeepsInv(streams, start, t);
    case EndOfStreams =>
    case Shutdown =>
    case Other(a) => OtherKeepsInv(streams, start, t, a);
  }

  lemma {:induction false} RunKeepsInv(streams: seq<seq<Item>>, start: Sys, t: Task, steps: seq<TaskStep>)
    requires TaskInv(streams, start, t) && CanRun(t, steps)
    ensures TaskInv(streams, start, RunTask(t, steps))
    decreases |steps|
  {
    if steps != [] {
      StepKeepsInv(streams, start, t, steps[0]);
      RunKeepsInv(streams, start, StepTask(t, steps[0]), steps[1..]);
    }
  }

  lemma LaunchInv(streams: seq<seq<Item>>, start: Sys)
    requires EventLog.Inv(start) && start.writer.None?
    ensures TaskInv(streams, start, Launch(streams, start))
  {
    assert start.done + [] == start.done;
  }

  /** With the lock free, state and log are those of the applied diffs and nothing else. */
  lemma IdleIsWholeDiffs(streams: seq<seq<Item>>, start: Sys, t: Task)
    requires EventLog.Inv(start) && start.writer.None? && TaskInv(streams, start, t) && t.topo.writer.None?
    ensures t.topo.state == Run(start.state, AllOps(t.applied))
    ensures t.topo.log == start.log + Events(start.state, AllOps(t.applied))
  {
    ConcatConcat(start.done, Guards(t.applied));
    IdleState(start);
    IdleState(t.topo);
    RunConcat(INIT, Concat(start.done), AllOps(t.applied));
  }

  lemma IdleState(s: Sys)
    requires Logged(s) && s.writer.None?
    ensures s.state == Run(INIT, Concat(s.done)) && s.log == Events(INIT, Concat(s.done))
  {
    LoggedIsEvents(s);
    assert s.log + [] == s.log;
    assert Concat(s.done) + [] == Concat(s.done);
  }

  lemma AppliedIsPrefix(t: Task)
    requires InPhase(t) && Locked(t.topo)
    ensures t.topo.readers > 0 || t.phase.Stopped? ==> t.topo.writer.None?
    ensures t.applied <= OkDiffs(t.received) && |OkDiffs(t.received)| <= |t.applied| + 1
  {
  }

  /** Atomicity and prefix, over every interleaving of discovery with readers and event
      receivers: whenever the write lock is free (so whenever anyone reads, and once the
      task has stopped), state and log are the fold of whole diffs; those diffs are the
      Ok items received so far, or all but the last of them; and the items received are
      an order-preserving merge of the streams. */
  lemma OnlyWholeDiffsAreSeen(streams: seq<seq<Item>>, start: Sys, steps: seq<TaskStep>)
    requires EventLog.Inv(start) && start.writer.None? && CanRun(Launch(streams, start), steps)
    ensures var t := RunTask(Launch(streams, start), steps);
            && (t.topo.readers > 0 || t.phase.Stopped? ==> t.topo.writer.None?)
            && (t.topo.writer.None? ==>
                  && t.topo.state == Run(start.state, AllOps(t.applied))
                  && t.topo.log == start.log + Events(start.state, AllOps(t.applied)))
            && t.applied <= OkDiffs(t.received) && |OkDiffs(t.received)| <= |t.applied| + 1
            && Schedule(streams, t.picks) && t.received == Merged(streams, t.picks)
  {
    LaunchInv(streams, start);
    RunKeepsInv(streams, start, Launch(streams, start), steps);
    var t := RunTask(Launch(streams, start), steps);
    AppliedIsPrefix(t);
    if t.topo.writer.None? {
      IdleIsWholeDiffs(streams, start, t);
    }
  }

  // ---------------------------------------------------------------- every schedule is carried out by some run

  lemma {:induction false} RunTaskConcat(t: Task, a: seq<TaskStep>, b: seq<TaskStep>)
    requires CanRun(t, a) && CanRun(RunTask(t, a), b)
    ensures CanRun(t, a + b) && RunTask(t, a + b) == RunTask(RunTask(t, a), b)
    decreases |a|
  {
    if a == [] {
      assert a + b == b;
    } else {
      assert (a + b)[1..] == a[1..] + b;
      RunTaskConcat(StepTask(t, a[0]), a[1..], b);
    }
  }

  lemma OneStep(t: Task, step: TaskStep)
    requires CanStep(t, step)
    ensures CanRun(t, [step]) && RunTask(t, [step]) == StepTask(t, step)
  {
    assert [step][1..] == [];
    assert CanRun(StepTask(t, step), []);
  }

  /** The task waits for an event and nobody holds the lock. */
  predicate Waiting(t: Task) {
    t.phase.AwaitEvent? && t.topo.writer.None? && t.topo.readers == 0
  }

  lemma {:induction false} ReleaseReaders(t: Task) returns (steps: seq<TaskStep>)
    requires t.phase.AwaitEvent?
    ensures CanRun(t, steps) && RunTask(t, steps) == t.(topo := t.topo.(readers := 0))
    decreases t.topo.readers
  {
    if t.topo.readers == 0 {
      steps := [];
    } else {
      var n := StepTask(t, Other(ReleaseRead));
      OneStep(t, Other(ReleaseRead));
      var rest := ReleaseReaders(n);
      RunTaskConcat(t, [Other(ReleaseRead)], rest);
      steps := [Other(ReleaseRead)] + rest;
    }
  }

  /** Nothing but the topology and the phase differs. */
  predicate SameProgress(t: Task, n: Task) {
    && n.streams == t.streams && n.picks == t.picks
    && n.received == t.received && n.applied == t.applied
    && n.topo.readers == t.topo.readers
  }

  lemma {:induction false} ApplyRest(t: Task) returns (steps: seq<TaskStep>)
    requires t.phase.Applying? && t.topo.writer.Some? && !t.topo.writer.value.dropping
    ensures CanRun(t, steps)
    ensures var n := RunTask(t, steps);
            && SameProgress(t, n) && n.phase == Applying(t.phase.d, [])
            && n.topo.writer.Some? && !n.topo.writer.value.dropping
    decreases |t.phase.rest|
  {
    if t.phase.rest == [] {
      steps := [];
    } else {
      OneStep(t, ApplyOne);
      var rest := ApplyRest(StepTask(t, ApplyOne));
      RunTaskConcat(t, [ApplyOne], rest);
      steps := [ApplyOne] + rest;
    }
  }

  lemma {:induction false} SendRest(t: Task) returns (steps: seq<TaskStep>)
    requires t.phase.Dropping? && t.topo.writer.Some? && t.topo.writer.value.dropping
    ensures CanRun(t, steps)
    ensures var n := RunTask(t, steps);
            && SameProgress(t, n) && n.phase == t.phase
            && n.topo.writer.Some? && n.topo.writer.value.dropping && n.topo.writer.value.pending == []
    decreases |t.topo.writer.value.pending|
  {
    if t.topo.writer.value.pending == [] {
      steps := [];
    } else {
      OneStep(t, SendOne);
      var rest := SendRest(StepTask(t, SendOne));
      RunTaskConcat(t, [SendOne], rest);
      steps := [SendOne] + rest;
    }
  }

  /** A task that waits for the free lock can apply its diff and come back to waiting. */
  lemma CarryOutDiff(t: Task) returns (steps: seq<TaskStep>)
    requires t.phase.AwaitLock? && t.topo.writer.None? && t.topo.readers == 0
    ensures CanRun(t, steps)
    ensures var n := RunTask(t, steps);
            Waiting(n) && n.streams == t.streams && n.picks == t.picks
  {
    OneStep(t, TakeLock);
    var t1 := StepTask(t, TakeLock);
    var applying := ApplyRest(t1);
    var t2 := RunTask(t1, applying);
    OneStep(t2, BeginDropping);
    var t3 := StepTask(t2, BeginDropping);
    var sending := SendRest(t3);
    var t4 := RunTask(t3, sending);
    OneStep(t4, GiveUpLock);
    RunTaskConcat(t3, sending, [GiveUpLock]);
    RunTaskConcat(t2, [BeginDropping], sending + [GiveUpLock]);
    RunTaskConcat(t1, applying, [BeginDropping] + (sending + [GiveUpLock]));
    steps := applying + ([BeginDropping] + (sending + [GiveUpLock]));
    RunTaskConcat(t, [TakeLock], steps);
    steps := [TakeLock] + steps;
  }

  lemma CarryOutItem(t: Task, i: nat) returns (steps: seq<TaskStep>)
    requires Waiting(t) && CanStep(t, TakeNext(i))
    ensures CanRun(t, steps)
    ensures var n := RunTask(t, steps);
            Waiting(n) && n.streams == Pop(t.streams, i) && n.picks == t.picks + [i]
  {
    OneStep(t, TakeNext(i));
    steps := [TakeNext(i)];
    if t.streams[i][0].Ok? {
      var more := CarryOutDiff(StepTask(t, TakeNext(i)));
      RunTaskConcat(t, steps, more);
      steps := steps + more;
    }
  }

  /** Progress: whatever order the streams yield in, some run of the task carries it out. */
  lemma {:induction false} CarryOut(t: Task, picks: seq<nat>) returns (steps: seq<TaskStep>)
    requires Waiting(t) && Schedule(t.streams, picks)
    ensures CanRun(t, steps)
    ensures var n := RunTask(t, steps);
            Waiting(n) && n.streams == Rest(t.streams, picks) && n.picks == t.picks + picks
    decreases |picks|
  {
    if picks == [] {
      AppendNothing(t.picks);
      steps := [];
    } else {
      var first := CarryOutItem(t, picks[0]);
      var n := RunTask(t, first);
      var more := CarryOut(n, picks[1..]);
      RunTaskConcat(t, first, more);
      assert [picks[0]] + picks[1..] == picks;
      Assoc(t.picks, [picks[0]], picks[1..]);
      steps := first + more;
    }
  }

  // ---------------------------------------------------------------- the loop and the step system agree

  /** State and log are what the loop leaves after these events. */
  ghost predicate LeftByLoop(streams: seq<seq<Item>>, start: Sys, t: Task, picks: seq<nat>, caught: bool) {
    && Schedule(streams, picks)
    && t.topo.state == Run(start.state, AllOps(Effective(Merged(streams, picks), caught)))
    && t.topo.log == start.log + Events(start.state, AllOps(Effective(Merged(streams, picks), caught)))
  }

  /** Whether the shutdown finds a diff that waits for the lock. */
  predicate Catches(t: Task) {
    t.phase.AwaitLock?
  }

  lemma AwaitedIsEffective(t: Task)
    requires InPhase(t) && (t.phase.AwaitEvent? || t.phase.AwaitLock?)
    ensures t.applied == Effective(t.received, Catches(t))
  {
    if t.phase.AwaitLock? {
      var pre, last := t.received[..|t.received| - 1], t.received[|t.received| - 1];
      assert t.received == pre + [last];
      OkDiffsSnoc(pre, last);
      assert OkDiffs(pre) == (OkDiffs(pre) + [t.phase.d])[..|OkDiffs(pre)|];
      assert t.applied == (t.applied + [t.phase.d])[..|t.applied|];
    }
  }

  /** A stopped task has applied what takes effect of the items it received. */
  ghost predicate StopsWell(t: Task) {
    t.phase.Stopped? ==> exists caught :: t.applied == Effective(t.received, caught)
  }

  lemma StepStopsWell(t: Task, step: TaskStep)
    requires InPhase(t) && StopsWell(t) && CanStep(t, step)
    ensures StopsWell(StepTask(t, step))
  {
    if t.phase.AwaitEvent? || t.phase.AwaitLock? {
      AwaitedIsEffective(t);
    }
  }

  lemma {:induction false} RunStopsWell(streams: seq<seq<Item>>, start: Sys, t: Task, steps: seq<TaskStep>)
    requires TaskInv(streams, start, t) && StopsWell(t) && CanRun(t, steps)
    ensures StopsWell(RunTask(t, steps))
    decreases |steps|
  {
    if steps != [] {
      StepKeepsInv(streams, start, t, steps[0]);
      StepStopsWell(t, steps[0]);
      RunStopsWell(streams, start, StepTask(t, steps[0]), steps[1..]);
    }
  }

  /** Every stopped task leaves what some run of the loop leaves. */
  lemma StoppedIsLeftByLoop(streams: seq<seq<Item>>, start: Sys, steps: seq<TaskStep>)
    requires EventLog.Inv(start) && start.writer.None? && CanRun(Launch(streams, start), steps)
    requires RunTask(Launch(streams, start), steps).phase.Stopped?
    ensures var t := RunTask(Launch(streams, start), steps);
            exists caught :: LeftByLoop(streams, start, t, t.picks, caught)
  {
    LaunchInv(streams, start);
    RunStopsWell(streams, start, Launch(streams, start), steps);
    StoppedFrom(streams, start, Launch(streams, start), steps);
  }

  lemma StoppedFrom(streams: seq<seq<Item>>, start: Sys, from: Task, steps: seq<TaskStep>)
    requires EventLog.Inv(start) && start.writer.None? && TaskInv(streams, start, from) && CanRun(from, steps)
    requires RunTask(from, steps).phase.Stopped? && StopsWell(RunTask(from, steps))
    ensures exists caught :: LeftByLoop(streams, start, RunTask(from, steps), RunTask(from, steps).picks, caught)
  {
    RunKeepsInv(streams, start, from, steps);
    var t := RunTask(from, steps);
    StoppedIsIdle(streams, start, t);
    var caught := StoppedEffective(t);
    AppliedLeft(streams, start, t, caught);
  }

  lemma StoppedEffective(t: Task) returns (caught: bool)
    requires t.phase.Stopped? && StopsWell(t)
    ensures t.applied == Effective(t.received, caught)
  {
    caught :| t.applied == Effective(t.received, caught);
  }

  lemma StoppedIsIdle(streams: seq<seq<Item>>, start: Sys, t: Task)
    requires EventLog.Inv(start) && start.writer.None? && TaskInv(streams, start, t) && t.phase.Stopped?
    ensures t.topo.state == Run(start.state, AllOps(t.applied))
    ensures t.topo.log == start.log + Events(start.state, AllOps(t.applied))
    ensures Schedule(streams, t.picks) && t.received == Merged(streams, t.picks)
  {
    IdleIsWholeDiffs(streams, start, t);
  }

  lemma AppliedLeft(streams: seq<seq<Item>>, start: Sys, t: Task, caught: bool)
    requires t.topo.state == Run(start.state, AllOps(t.applied))
    requires t.topo.log == start.log + Events(start.state, AllOps(t.applied))
    requires Schedule(streams, t.picks) && t.received == Merged(streams, t.picks)
    requires t.applied == Effective(t.received, caught)
    ensures LeftByLoop(streams, start, t, t.picks, caught)
  {
  }

  lemma ShutdownLeaves(streams: seq<seq<Item>>, start: Sys, t: Task)
    requires EventLog.Inv(start) && start.writer.None?
    requires TaskInv(streams, start, t) && CanStep(t, Shutdown)
    ensures LeftByLoop(streams, start, StepTask(t, Shutdown), t.picks, Catches(t))
  {
    IdleIsWholeDiffs(streams, start, t);
    AwaitedIsEffective(t);
  }

  /** A shutdown that finds no diff waiting may as well be said to catch an error. */
  lemma CaughtError(items: seq<Item>)
    requires items == [] || items[|items| - 1].Err?
    ensures Effective(items, true) == Effective(items, false)
  {
    if items != [] {
      var pre, last := items[..|items| - 1], items[|items| - 1];
      assert items == pre + [last];
      OkDiffsSnoc(pre, last);
      AppendNothing(OkDiffs(pre));
    }
  }

  lemma RunTo(streams: seq<seq<Item>>, start: Sys, picks: seq<nat>) returns (steps: seq<TaskStep>)
    requires EventLog.Inv(start) && start.writer.None? && Schedule(streams, picks)
    ensures CanRun(Launch(streams, start), steps)
    ensures var t := RunTask(Launch(streams, start), steps);
            Waiting(t) && t.streams == Rest(streams, picks) && t.picks == picks && TaskInv(streams, start, t)
  {
    var t := Launch(streams, start);
    var releasing := ReleaseReaders(t);
    var working := CarryOut(RunTask(t, releasing), picks);
    RunTaskConcat(t, releasing, working);
    steps := releasing + working;
    assert [] + picks == picks;
    LaunchInv(streams, start);
    RunKeepsInv(streams, start, t, steps);
  }

  /** A shutdown after these steps. */
  lemma StopAfter(streams: seq<seq<Item>>, start: Sys, before: seq<TaskStep>)
    requires EventLog.Inv(start) && start.writer.None? && CanRun(Launch(streams, start), before)
    requires CanStep(RunTask(Launch(streams, start), before), Shutdown)
    ensures CanRun(Launch(streams, start), before + [Shutdown])
    ensures RunTask(Launch(streams, start), before + [Shutdown]).phase.Stopped?
    ensures var t := RunTask(Launch(streams, start), before);
            LeftByLoop(streams, start, RunTask(Launch(streams, start), before + [Shutdown]), t.picks, Catches(t))
  {
    var from, t := Launch(streams, start), RunTask(Launch(streams, start), before);
    LaunchInv(streams, start);
    RunKeepsInv(streams, start, from, before);
    OneStep(t, Shutdown);
    RunTaskConcat(from, before, [Shutdown]);
    ShutdownLeaves(streams, start, t);
  }

  lemma TakeLast(streams: seq<seq<Item>>, picks: seq<nat>, t: Task)
    requires Schedule(streams, picks) && picks != []
    requires Merged(streams, picks) != [] && Merged(streams, picks)[|Merged(streams, picks)| - 1].Ok?
    requires Waiting(t) && t.picks == picks[..|picks| - 1]
    requires Schedule(streams, t.picks) && t.streams == Rest(streams, t.picks)
    ensures var step := TakeNext(picks[|picks| - 1]);
            && CanStep(t, step) && StepTask(t, step).phase.AwaitLock? && StepTask(t, step).picks == picks
  {
    var k := |picks| - 1;
    ReceiveOne(streams, picks, k);
    PrefixStep(picks, k);
    assert picks[..k + 1] == picks;
  }

  /** Some run takes the events up to the last, an Ok diff, and waits for the lock with it. */
  lemma RunToLock(streams: seq<seq<Item>>, start: Sys, picks: seq<nat>) returns (steps: seq<TaskStep>)
    requires EventLog.Inv(start) && start.writer.None? && Schedule(streams, picks) && picks != []
    requires Merged(streams, picks) != [] && Merged(streams, picks)[|Merged(streams, picks)| - 1].Ok?
    ensures CanRun(Launch(streams, start), steps)
    ensures RunTask(Launch(streams, start), steps).phase.AwaitLock?
    ensures RunTask(Launch(streams, start), steps).picks == picks
  {
    var step := TakeNext(picks[|picks| - 1]);
    SchedulePrefix(streams, picks, |picks| - 1);
    var before := RunTo(streams, start, picks[..|picks| - 1]);
    var t := RunTask(Launch(streams, start), before);
    TakeLast(streams, picks, t);
    OneStep(t, step);
    RunTaskConcat(Launch(streams, start), before, [step]);
    steps := before + [step];
  }

  /** Every run of the loop, whatever the order of events and wherever the shutdown falls,
      is the work of some task that a shutdown stops. */
  lemma LoopIsSomeTask(streams: seq<seq<Item>>, start: Sys, picks: seq<nat>, caught: bool)
    returns (steps: seq<TaskStep>)
    requires EventLog.Inv(start) && start.writer.None? && Schedule(streams, picks)
    ensures CanRun(Launch(streams, start), steps)
    ensures RunTask(Launch(streams, start), steps).phase.Stopped?
    ensures LeftByLoop(streams, start, RunTask(Launch(streams, start), steps), picks, caught)
  {
    var items := Merged(streams, picks);
    if caught && items != [] && items[|items| - 1].Ok? {
      steps := RunToLock(streams, start, picks);
    } else {
      steps := RunTo(streams, start, picks);
      if caught {
        CaughtError(items);
      }
    }
    StopAfter(streams, start, steps);
    steps := steps + [Shutdown];
  }
}
