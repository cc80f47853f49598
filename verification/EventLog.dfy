/** The lock, the event log and its subscribers as a step system: one writer or any
    number of readers, a guard that batches events and sends them while it still holds
    the lock, and receivers that read the log at their own pace. */
module EventLog {
  import opened Wrappers
  import opened Sequences
  import opened Entities
  import opened TopologyModel

  // ---------------------------------------------------------------- replay

  function ReplayOne(refs: set<EntityRef>, e: Event): set<EntityRef> {
    match e
    case Added(r) => refs + {r}
    case Removed(r) => refs - {r}
  }

  function Replay(refs: set<EntityRef>, es: seq<Event>): set<EntityRef> {
    if es == [] then refs
    else ReplayOne(Replay(refs, es[..|es| - 1]), es[|es| - 1])
  }

  lemma {:induction false} ReplayConcat(refs: set<EntityRef>, a: seq<Event>, b: seq<Event>)
    ensures Replay(refs, a + b) == Replay(Replay(refs, a), b)
  {
    if b == [] {
      assert a + b == a;
    } else {
      var n := |b| - 1;
      assert (a + b)[..|a + b| - 1] == a + b[..n];
      ReplayConcat(refs, a, b[..n]);
    }
  }

  lemma ApplyReplays(s: State, op: Op)
    ensures Refs(Apply(s, op)) == Replay(Refs(s), EventsOf(s, op))
  {
    var es := EventsOf(s, op);
    assert Has(s, RefOf(op)) <==> RefOf(op) in Refs(s);
    assert es != [] ==> es[..|es| - 1] == [] && Replay(Refs(s), es) == ReplayOne(Refs(s), es[0]);
    match op
    case AddComponent(_) =>
    case AddApp(_) =>
    case AddArea(_) =>
    case RemoveComponent(_) =>
    case RemoveApp(_) =>
    case RemoveArea(_) =>
  }

  /** Replaying the events of a run reproduces the references present after it. */
  lemma {:induction false} RunReplays(s: State, ops: seq<Op>)
    ensures Refs(Run(s, ops)) == Replay(Refs(s), Events(s, ops))
  {
    if ops != [] {
      var n := |ops| - 1;
      RunReplays(s, ops[..n]);
      ApplyReplays(Run(s, ops[..n]), ops[n]);
      ReplayConcat(Refs(s), Events(s, ops[..n]), EventsOf(Run(s, ops[..n]), ops[n]));
    }
  }

  lemma RunReplaysFromStart(ops: seq<Op>)
    ensures Refs(Run(INIT, ops)) == Replay({}, Events(INIT, ops))
  {
    RunReplays(INIT, ops);
    assert Refs(INIT) == {};
  }

  /** The last word the events say about r, if they mention it. */
  function LastWord(es: seq<Event>, r: EntityRef): Option<bool> {
    if es == [] then None
    else if es[|es| - 1].ref == r then Some(es[|es| - 1].Added?)
    else LastWord(es[..|es| - 1], r)
  }

  lemma {:induction false} ReplayByLastWord(refs: set<EntityRef>, es: seq<Event>, r: EntityRef)
    ensures r in Replay(refs, es) <==> if LastWord(es, r).Some? then LastWord(es, r).value else r in refs
  {
    if es != [] {
      ReplayByLastWord(refs, es[..|es| - 1], r);
    }
  }

  lemma {:induction false} LastWordConcat(a: seq<Event>, b: seq<Event>, r: EntityRef)
    ensures LastWord(a + b, r) == if LastWord(b, r).Some? then LastWord(b, r) else LastWord(a, r)
  {
    if b == [] {
      AppendNothing(a);
    } else {
      FrontOfConcat(a, b);
      LastWordConcat(a, b[..|b| - 1], r);
    }
  }

  /** Replaying a suffix of the log over a state that already reflects it changes nothing. */
  lemma ReplayOverlap(refs: set<EntityRef>, es: seq<Event>, k: nat)
    requires k <= |es|
    ensures Replay(Replay(refs, es), es[k..]) == Replay(refs, es)
  {
    assert es == es[..k] + es[k..];
    forall r ensures r in Replay(Replay(refs, es), es[k..]) <==> r in Replay(refs, es) {
      ReplayByLastWord(Replay(refs, es), es[k..], r);
      ReplayByLastWord(refs, es, r);
      LastWordConcat(es[..k], es[k..], r);
    }
  }

  lemma ReplayFrom(seen: seq<Event>, later: seq<Event>, k: nat)
    requires k <= |seen|
    ensures Replay(Replay({}, seen), (seen + later)[k..]) == Replay({}, seen + later)
  {
    ReplayOverlap({}, seen, k);
    assert (seen + later)[k..] == seen[k..] + later;
    ReplayConcat(Replay({}, seen), seen[k..], later);
    ReplayConcat({}, seen, later);
  }

  /** Subscribe, then read: a receiver that starts at log position k, takes a snapshot at
      any later quiescent point, and replays every event from k on, the ones already
      reflected in the snapshot included, ends with exactly the references present. */
  lemma SubscribeThenRead(before: seq<Op>, after: seq<Op>, k: nat)
    requires k <= |Events(INIT, before)|
    ensures |Events(INIT, before + after)| >= k
    ensures Replay(Refs(Run(INIT, before)), Events(INIT, before + after)[k..]) == Refs(Run(INIT, before + after))
  {
    RunConcat(INIT, before, after);
    RunReplaysFromStart(before);
    RunReplaysFromStart(before + after);
    ReplayFrom(Events(INIT, before), Events(Run(INIT, before), after), k);
  }

  // ---------------------------------------------------------------- the step system

  /** A write guard: the mutations made through it, the events still to send, the events
      already sent, and whether its drop has begun. */
  datatype Guard = Guard(ops: seq<Op>, pending: seq<Event>, sent: seq<Event>, dropping: bool)

  /** A receiver: its place in the log, and the set it believes present, if it has one. */
  datatype Subscriber = Subscriber(cursor: nat, view: Option<set<EntityRef>>)

  /** `done` records the mutations of every released guard, in lock order. */
  datatype Sys = Sys(
    state: State,
    log: seq<Event>,
    readers: nat,
    writer: Option<Guard>,
    done: seq<seq<Op>>,
    subs: map<nat, Subscriber>)

  const START := Sys(INIT, [], 0, None, [], map[])

  datatype Action =
    | AcquireRead | ReleaseRead
    | AcquireWrite | Mutate(op: Op) | BeginDrop | Send | ReleaseWrite
    | Subscribe(id: nat) | Receive(id: nat) | Lag(id: nat, n: nat) | Snapshot(id: nat)

  predicate Enabled(s: Sys, a: Action) {
    match a
    case AcquireRead => s.writer.None?
    case ReleaseRead => s.readers > 0
    case AcquireWrite => s.writer.None? && s.readers == 0
    case Mutate(_) => s.writer.Some? && !s.writer.value.dropping
    case BeginDrop => s.writer.Some? && !s.writer.value.dropping
    case Send => s.writer.Some? && s.writer.value.dropping && s.writer.value.pending != []
    case ReleaseWrite => s.writer.Some? && s.writer.value.dropping && s.writer.value.pending == []
    case Subscribe(id) => id !in s.subs
    case Receive(id) => id in s.subs && s.subs[id].cursor < |s.log|
    case Lag(id, n) => id in s.subs && s.subs[id].cursor + n <= |s.log|
    case Snapshot(id) => id in s.subs && s.readers > 0
  }

  function Next(s: Sys, a: Action): Sys
    requires Enabled(s, a)
  {
    match a
    case AcquireRead => s.(readers := s.readers + 1)
    case ReleaseRead => s.(readers := s.readers - 1)
    case AcquireWrite => s.(writer := Some(Guard([], [], [], false)))
    case Mutate(op) =>
      var g := s.writer.value;
      s.(state := Apply(s.state, op),
         writer := Some(g.(ops := g.ops + [op], pending := g.pending + EventsOf(s.state, op))))
    case BeginDrop => s.(writer := Some(s.writer.value.(dropping := true)))
    case Send =>
      var g := s.writer.value;
      s.(log := s.log + [g.pending[0]],
         writer := Some(g.(pending := g.pending[1..], sent := g.sent + [g.pending[0]])))
    case ReleaseWrite => s.(writer := None, done := s.done + [s.writer.value.ops])
    case Subscribe(id) => s.(subs := s.subs[id := Subscriber(|s.log|, None)])
    case Receive(id) =>
      var sub := s.subs[id];
      var view := if sub.view.Some? then Some(ReplayOne(sub.view.value, s.log[sub.cursor])) else None;
      s.(subs := s.subs[id := Subscriber(sub.cursor + 1, view)])
    case Lag(id, n) => s.(subs := s.subs[id := Subscriber(s.subs[id].cursor + n, None)])
    case Snapshot(id) => s.(subs := s.subs[id := s.subs[id].(view := Some(Refs(s.state)))])
  }

  ghost predicate Feasible(s: Sys, acts: seq<Action>)
    decreases |acts|
  {
    acts == [] || (Enabled(s, acts[0]) && Feasible(Next(s, acts[0]), acts[1..]))
  }

  ghost function After(s: Sys, acts: seq<Action>): Sys
    requires Feasible(s, acts)
    decreases |acts|
  {
    if acts == [] then s else After(Next(s, acts[0]), acts[1..])
  }

  // ---------------------------------------------------------------- invariant

  /** The events of each guard, computed in the state its predecessors left. */
  function Batches(guards: seq<seq<Op>>): seq<seq<Event>> {
    if guards == [] then []
    else
      var pre := guards[..|guards| - 1];
      Batches(pre) + [Events(Run(INIT, Concat(pre)), guards[|guards| - 1])]
  }

  function OpenOps(s: Sys): seq<Op> {
    if s.writer.Some? then s.writer.value.ops else []
  }

  function Unsent(s: Sys): seq<Event> {
    if s.writer.Some? then s.writer.value.pending else []
  }

  function Sent(s: Sys): seq<Event> {
    if s.writer.Some? then s.writer.value.sent else []
  }

  ghost predicate Locked(s: Sys) {
    && (s.writer.Some? ==> s.readers == 0)
    && (s.writer.Some? && !s.writer.value.dropping ==> s.writer.value.sent == [])
  }

  /** The log is the batches of the released guards, then what the open guard has sent;
      sent and pending together are the batch of the open guard. */
  ghost predicate Logged(s: Sys) {
    && s.state == Run(INIT, Concat(s.done) + OpenOps(s))
    && s.log == Concat(Batches(s.done)) + Sent(s)
    && Sent(s) + Unsent(s) == Events(Run(INIT, Concat(s.done)), OpenOps(s))
  }

  /** A receiver with a view would, after the rest of the log and the open batch, hold
      exactly the references present. */
  ghost predicate Following(s: Sys, sub: Subscriber) {
    && sub.cursor <= |s.log|
    && (sub.view.Some? ==> Replay(sub.view.value, s.log[sub.cursor..] + Unsent(s)) == Refs(s.state))
  }

  ghost predicate Inv(s: Sys) {
    && Locked(s)
    && Logged(s)
    && (forall id | id in s.subs :: Following(s, s.subs[id]))
  }

  lemma BatchesSnoc(guards: seq<seq<Op>>, ops: seq<Op>)
    ensures Batches(guards + [ops]) == Batches(guards) + [Events(Run(INIT, Concat(guards)), ops)]
  {
    assert (guards + [ops])[..|guards|] == guards;
  }

  /** The batches joined are the events of the joined mutations. */
  lemma {:induction false} BatchesAreEvents(guards: seq<seq<Op>>)
    ensures Concat(Batches(guards)) == Events(INIT, Concat(guards))
  {
    if guards != [] {
      var pre, last := guards[..|guards| - 1], guards[|guards| - 1];
      assert guards == pre + [last];
      BatchesAreEvents(pre);
      BatchesSnoc(pre, last);
      ConcatSnoc(Batches(pre), Events(Run(INIT, Concat(pre)), last));
      RunConcat(INIT, Concat(pre), last);
    }
  }

  /** Log and pending events together are the events of all mutations made so far. */
  lemma LoggedIsEvents(s: Sys)
    requires Logged(s)
    ensures s.log + Unsent(s) == Events(INIT, Concat(s.done) + OpenOps(s))
  {
    BatchesAreEvents(s.done);
    BatchConcat(INIT, Concat(s.done), OpenOps(s));
    Assoc(Concat(Batches(s.done)), Sent(s), Unsent(s));
  }

  /** Log and pending events together replay to the references present. */
  lemma LoggedReplays(s: Sys)
    requires Logged(s)
    ensures Replay({}, s.log + Unsent(s)) == Refs(s.state)
  {
    LoggedIsEvents(s);
    RunReplaysFromStart(Concat(s.done) + OpenOps(s));
  }

  lemma MutateKeepsLogged(s: Sys, op: Op)
    requires Logged(s) && Enabled(s, Mutate(op))
    ensures Logged(Next(s, Mutate(op)))
  {
    var n := Next(s, Mutate(op));
    var g := s.writer.value;
    var base := Concat(s.done);
    OpenGuardGrows(base, g.ops, op);
    Assoc(g.sent, g.pending, EventsOf(s.state, op));
    assert Sent(n) + Unsent(n) == g.sent + (g.pending + EventsOf(s.state, op));
  }

  lemma OpenGuardGrows(base: seq<Op>, ops: seq<Op>, op: Op)
    ensures Run(INIT, base + (ops + [op])) == Apply(Run(INIT, base + ops), op)
    ensures Events(Run(INIT, base), ops + [op]) == Events(Run(INIT, base), ops) + EventsOf(Run(INIT, base + ops), op)
  {
    RunConcat(INIT, base, ops);
    RunSnoc(Run(INIT, base), ops, op);
    RunSnoc(INIT, base + ops, op);
    Assoc(base, ops, [op]);
  }

  lemma ReleaseJoins(done: seq<seq<Op>>, ops: seq<Op>)
    ensures Concat(done + [ops]) + [] == Concat(done) + ops
    ensures Concat(Batches(done + [ops])) + [] == Concat(Batches(done)) + Events(Run(INIT, Concat(done)), ops)
  {
    ConcatSnoc(done, ops);
    BatchesSnoc(done, ops);
    ConcatSnoc(Batches(done), Events(Run(INIT, Concat(done)), ops));
    AppendNothing(Concat(done + [ops]));
    AppendNothing(Concat(Batches(done + [ops])));
  }

  lemma ReleaseKeepsLogged(s: Sys)
    requires Logged(s) && Enabled(s, ReleaseWrite)
    ensures Logged(Next(s, ReleaseWrite))
  {
    var g, n := s.writer.value, Next(s, ReleaseWrite);
    ReleaseJoins(s.done, g.ops);
    AppendNothing(g.sent);
    NothingOpen(s, n);
  }

  lemma NothingOpen(s: Sys, n: Sys)
    requires n.writer.None? && n.state == s.state && n.log == s.log
    requires s.state == Run(INIT, Concat(n.done) + []) && s.log == Concat(Batches(n.done)) + []
    ensures Logged(n)
  {
    assert Events(Run(INIT, Concat(n.done)), []) == [];
  }

  /** Moving the first pending event to the log and to the sent ones loses nothing. */
  lemma SendMoves(log: seq<Event>, sent: seq<Event>, pending: seq<Event>)
    requires pending != []
    ensures (log + sent) + [pending[0]] == log + (sent + [pending[0]])
    ensures (sent + [pending[0]]) + pending[1..] == sent + pending
  {
    assert [pending[0]] + pending[1..] == pending;
    Assoc(sent, [pending[0]], pending[1..]);
    Assoc(log, sent, [pending[0]]);
  }

  lemma SendKeepsLogged(s: Sys)
    requires Logged(s) && Enabled(s, Send)
    ensures Logged(Next(s, Send))
  {
    var g, n := s.writer.value, Next(s, Send);
    SendMoves(Concat(Batches(s.done)), g.sent, g.pending);
    assert n.state == s.state && n.done == s.done && OpenOps(n) == OpenOps(s);
    assert Sent(n) == g.sent + [g.pending[0]] && Unsent(n) == g.pending[1..];
  }

  lemma AcquireKeepsLogged(s: Sys)
    requires Logged(s) && Enabled(s, AcquireWrite)
    ensures Logged(Next(s, AcquireWrite))
  {
  }

  lemma NextKeepsLogged(s: Sys, a: Action)
    requires Locked(s) && Logged(s) && Enabled(s, a)
    ensures Locked(Next(s, a)) && Logged(Next(s, a))
  {
    match a
    case Mutate(op) => MutateKeepsLogged(s, op);
    case ReleaseWrite => ReleaseKeepsLogged(s);
    case Send => SendKeepsLogged(s);
    case AcquireWrite => AcquireKeepsLogged(s);
    case BeginDrop =>
    case _ =>
      var n := Next(s, a);
      assert n.state == s.state && n.log == s.log && n.writer == s.writer && n.done == s.done;
  }

  lemma MutateKeepsFollowing(s: Sys, op: Op, sub: Subscriber)
    requires Enabled(s, Mutate(op)) && Following(s, sub)
    ensures Following(Next(s, Mutate(op)), sub)
  {
    if sub.view.Some? {
      var rest := s.log[sub.cursor..];
      ApplyReplays(s.state, op);
      assert rest + Unsent(Next(s, Mutate(op))) == (rest + Unsent(s)) + EventsOf(s.state, op);
      ReplayConcat(sub.view.value, rest + Unsent(s), EventsOf(s.state, op));
      ReplayConcat(Refs(s.state), [], EventsOf(s.state, op));
    }
  }

  lemma SendKeepsFollowing(s: Sys, sub: Subscriber)
    requires Enabled(s, Send) && Following(s, sub)
    ensures Following(Next(s, Send), sub)
  {
    var n := Next(s, Send);
    assert n.log[sub.cursor..] + Unsent(n) == s.log[sub.cursor..] + Unsent(s);
  }

  lemma ReceiveKeepsFollowing(s: Sys, id: nat)
    requires Enabled(s, Receive(id)) && Following(s, s.subs[id])
    ensures Following(Next(s, Receive(id)), Next(s, Receive(id)).subs[id])
  {
    var sub := s.subs[id];
    if sub.view.Some? {
      var e := s.log[sub.cursor];
      var rest := s.log[sub.cursor + 1..] + Unsent(s);
      assert s.log[sub.cursor..] + Unsent(s) == [e] + rest;
      ReplayConcat(sub.view.value, [e], rest);
      assert [e][..0] == [];
    }
  }

  lemma SnapshotFollows(s: Sys, id: nat)
    requires Locked(s) && Logged(s) && Enabled(s, Snapshot(id)) && Following(s, s.subs[id])
    ensures Following(Next(s, Snapshot(id)), Next(s, Snapshot(id)).subs[id])
  {
    LoggedReplays(s);
    assert s.log + [] == s.log;
    ReplayOverlap({}, s.log, s.subs[id].cursor);
    assert s.log[s.subs[id].cursor..] + [] == s.log[s.subs[id].cursor..];
  }

  /** A receiver step leaves the other receivers, the state and the log alone. */
  lemma ReceiverStepKeepsFollowing(s: Sys, a: Action, id: nat)
    requires Locked(s) && Logged(s) && Enabled(s, a) && id in s.subs && Following(s, s.subs[id])
    requires a.Subscribe? || a.Receive? || a.Lag? || a.Snapshot?
    ensures Following(Next(s, a), Next(s, a).subs[id])
  {
    var n := Next(s, a);
    assert n.log == s.log && n.state == s.state && n.writer == s.writer;
    match a
    case Receive(i) =>
      if i == id {
        ReceiveKeepsFollowing(s, i);
      }
    case Snapshot(i) =>
      if i == id {
        SnapshotFollows(s, i);
      }
    case _ =>
  }

  lemma LockStepKeepsFollowing(s: Sys, a: Action, sub: Subscriber)
    requires Enabled(s, a) && Following(s, sub)
    requires !a.Subscribe? && !a.Receive? && !a.Lag? && !a.Snapshot?
    ensures Following(Next(s, a), sub)
  {
    match a
    case Mutate(op) => MutateKeepsFollowing(s, op, sub);
    case Send => SendKeepsFollowing(s, sub);
    case _ =>
  }

  lemma NextKeepsInv(s: Sys, a: Action)
    requires Inv(s) && Enabled(s, a)
    ensures Inv(Next(s, a))
  {
    var n := Next(s, a);
    NextKeepsLogged(s, a);
    forall id | id in n.subs ensures Following(n, n.subs[id]) {
      if id !in s.subs {
        assert n.subs[id] == Subscriber(|s.log|, None);
      } else if a.Subscribe? || a.Receive? || a.Lag? || a.Snapshot? {
        ReceiverStepKeepsFollowing(s, a, id);
      } else {
        assert n.subs == s.subs;
        LockStepKeepsFollowing(s, a, s.subs[id]);
      }
    }
  }

  /** Every reachable state satisfies the invariant. */
  lemma {:induction false} AfterKeepsInv(s: Sys, acts: seq<Action>)
    requires Inv(s) && Feasible(s, acts)
    ensures Inv(After(s, acts))
    decreases |acts|
  {
    if acts != [] {
      NextKeepsInv(s, acts[0]);
      AfterKeepsInv(Next(s, acts[0]), acts[1..]);
    }
  }

  lemma StartInv()
    ensures Inv(START)
  {
  }

  // ---------------------------------------------------------------- what the invariant gives

  /** Over all interleavings of readers, writers and receivers: writing excludes reading,
      the log is whole guard batches in lock order followed by what the open guard has
      sent, and log plus pending replays to the state. */
  lemma LogIsWholeBatches(acts: seq<Action>)
    requires Feasible(START, acts)
    ensures var s := After(START, acts);
            && !(s.writer.Some? && s.readers > 0)
            && s.log == Concat(Batches(s.done)) + Sent(s)
            && Sent(s) <= Events(Run(INIT, Concat(s.done)), OpenOps(s))
            && s.state == Run(INIT, Concat(s.done) + OpenOps(s))
            && Replay({}, s.log + Unsent(s)) == Refs(s.state)
  {
    StartInv();
    AfterKeepsInv(START, acts);
    LoggedReplays(After(START, acts));
  }

  /** Whoever holds a read guard sees a state equal to the replay of the log, built of
      whole batches only. */
  lemma ReaderSeesTheLog(acts: seq<Action>)
    requires Feasible(START, acts) && After(START, acts).readers > 0
    ensures var s := After(START, acts);
            && Refs(s.state) == Replay({}, s.log)
            && s.log == Concat(Batches(s.done))
            && s.state == Run(INIT, Concat(s.done))
  {
    LogIsWholeBatches(acts);
    var s := After(START, acts);
    assert s.log + [] == s.log;
    assert Concat(s.done) + [] == Concat(s.done);
    assert Concat(Batches(s.done)) + [] == Concat(Batches(s.done));
  }

  /** What a receiver reads is the replay of whole batches, never of part of one. */
  lemma SnapshotIsOfTheLog(acts: seq<Action>, id: nat)
    requires Feasible(START, acts) && Enabled(After(START, acts), Snapshot(id))
    ensures var s := After(START, acts);
            && Next(s, Snapshot(id)).subs[id].view == Some(Replay({}, s.log))
            && s.log == Concat(Batches(s.done))
  {
    ReaderSeesTheLog(acts);
  }

  /** Once the drop of a guard has begun its batch is fixed: until the lock is released the
      state stays as it is, and what is sent and unsent is the same batch. */
  lemma DroppedBatchIsFixed(s: Sys, a: Action)
    requires s.writer.Some? && s.writer.value.dropping && Enabled(s, a)
    ensures var n := Next(s, a);
            && n.state == s.state
            && (n.writer.None? ==> Unsent(s) == [])
            && (n.writer.Some? ==> OpenOps(n) == OpenOps(s) && Sent(n) + Unsent(n) == Sent(s) + Unsent(s))
  {
    if a.Send? {
      SendMoves([], Sent(s), Unsent(s));
    }
  }

  /** A receiver that has snapshotted since it last lagged, wherever it subscribed and
      whenever it read, holds exactly the references present once it has caught up with
      the log and no guard has anything left to send. */
  lemma CaughtUpReceiverIsRight(acts: seq<Action>, id: nat)
    requires Feasible(START, acts)
    requires var s := After(START, acts);
             && id in s.subs && s.subs[id].view.Some?
             && s.subs[id].cursor == |s.log| && Unsent(s) == []
    ensures After(START, acts).subs[id].view.value == Refs(After(START, acts).state)
  {
    StartInv();
    AfterKeepsInv(START, acts);
    var s := After(START, acts);
    assert Following(s, s.subs[id]);
    assert s.log[|s.log|..] + [] == [];
  }

  /** Which skips do harm: a view kept across skipped events ends right, whatever it held and
      whatever came later, if and only if it already held what the skipped events say last
      about every reference that the later ones do not mention. */
  lemma HarmlessSkips(view: set<EntityRef>, skipped: seq<Event>, later: seq<Event>)
    ensures Replay(view, later) == Replay(view, skipped + later) <==>
            forall r | LastWord(skipped, r).Some? && LastWord(later, r).None? ::
              LastWord(skipped, r).value <==> r in view
  {
    forall r
      ensures (r in Replay(view, later) <==> r in Replay(view, skipped + later)) <==>
              (LastWord(skipped, r).Some? && LastWord(later, r).None? ==> (LastWord(skipped, r).value <==> r in view))
    {
      ReplayByLastWord(view, later, r);
      ReplayByLastWord(view, skipped + later, r);
      LastWordConcat(skipped, later, r);
    }
    if Replay(view, later) != Replay(view, skipped + later) {
      var r :| (r in Replay(view, later)) != (r in Replay(view, skipped + later));
    }
  }

  /** Concretely: a view kept across a skipped removal stays wrong for good. */
  lemma SkippedEventIsLost()
    ensures var ops := [AddArea(Area("a", "")), RemoveArea("a")];
            var log := Events(INIT, ops);
            && |log| == 2
            && Refs(Run(INIT, ops)) == {}
            && Replay(Refs(Run(INIT, ops[..1])), log[2..]) == {EntityRef(AreaKind, "a")}
  {
    var a := Area("a", "");
    var ops := [AddArea(a), RemoveArea("a")];
    assert ops[..1] == [AddArea(a)] && ops[..1][..0] == [];
    assert Run(INIT, []) == INIT && Events(INIT, []) == [];
    assert Run(INIT, ops[..1]) == Apply(INIT, AddArea(a));
    assert Events(INIT, ops[..1]) == [Added(a.Ref())];
    assert Events(INIT, ops) == [Added(a.Ref()), Removed(a.Ref())];
    assert Run(INIT, ops) == Apply(Apply(INIT, AddArea(a)), RemoveArea("a"));
  }

  // ---------------------------------------------------------------- the receiver's side

  /** How many events a receiver passes in a run, read or skipped. */
  function Passed(id: nat, acts: seq<Action>): nat {
    if acts == [] then 0
    else
      Passed(id, acts[1..]) +
      match acts[0]
      case Receive(i) => if i == id then 1 else 0
      case Lag(i, n) => if i == id then n else 0
      case _ => 0
  }

  /** Whether a receiver has read the state since it last lagged, given whether it had before. */
  predicate HasRead(id: nat, acts: seq<Action>, before: bool) {
    if acts == [] then before
    else
      HasRead(id, acts[1..],
        if acts[0] == Snapshot(id) then true
        else if acts[0].Lag? && acts[0].id == id then false
        else before)
  }

  lemma {:induction false} ReceiverProgress(s: Sys, id: nat, acts: seq<Action>)
    requires Feasible(s, acts) && id in s.subs
    ensures var t := After(s, acts);
            && id in t.subs
            && t.subs[id].cursor == s.subs[id].cursor + Passed(id, acts)
            && (t.subs[id].view.Some? <==> HasRead(id, acts, s.subs[id].view.Some?))
    decreases |acts|
  {
    if acts != [] {
      ReceiverProgress(Next(s, acts[0]), id, acts[1..]);
    }
  }

  /** A receiver starts at the end of the log: whatever happens then, its place is after the
      events sent before it subscribed and the ones it has passed, and it has a view exactly
      if it has read the state since it subscribed and last lagged. */
  lemma SubscriberStartsAtTheEnd(s: Sys, id: nat, acts: seq<Action>)
    requires Enabled(s, Subscribe(id)) && Feasible(Next(s, Subscribe(id)), acts)
    ensures var t := After(Next(s, Subscribe(id)), acts);
            && id in t.subs
            && t.subs[id].cursor == |s.log| + Passed(id, acts)
            && (t.subs[id].view.Some? <==> HasRead(id, acts, false))
  {
    ReceiverProgress(Next(s, Subscribe(id)), id, acts);
  }

  lemma {:induction false} AfterConcat(s: Sys, a: seq<Action>, b: seq<Action>)
    requires Feasible(s, a) && Feasible(After(s, a), b)
    ensures Feasible(s, a + b) && After(s, a + b) == After(After(s, a), b)
    decreases |a|
  {
    if a == [] {
      assert a + b == b;
    } else {
      assert (a + b)[1..] == a[1..] + b;
      AfterConcat(Next(s, a[0]), a[1..], b);
    }
  }

  lemma OneAction(s: Sys, a: Action)
    requires Enabled(s, a)
    ensures Feasible(s, [a]) && After(s, [a]) == Next(s, a)
  {
    assert [a][1..] == [];
    assert Feasible(Next(s, a), []);
  }

  lemma {:induction false} ReceiveAll(s: Sys, id: nat) returns (acts: seq<Action>)
    requires id in s.subs && s.subs[id].cursor <= |s.log|
    ensures Feasible(s, acts)
    ensures var t := After(s, acts);
            && t == s.(subs := t.subs) && id in t.subs
            && t.subs[id].cursor == |s.log| && t.subs[id].view.Some? == s.subs[id].view.Some?
    decreases |s.log| - s.subs[id].cursor
  {
    if s.subs[id].cursor == |s.log| {
      acts := [];
    } else {
      OneAction(s, Receive(id));
      var more := ReceiveAll(Next(s, Receive(id)), id);
      AfterConcat(s, [Receive(id)], more);
      acts := [Receive(id)] + more;
    }
  }

  /** While nobody writes, and whoever reads, a receiver can read the state and catch up. */
  lemma CatchUp(s: Sys, id: nat) returns (acts: seq<Action>)
    requires s.writer.None? && id in s.subs && s.subs[id].cursor <= |s.log|
    ensures Feasible(s, acts)
    ensures var t := After(s, acts);
            && t == s.(subs := t.subs) && id in t.subs
            && t.subs[id].cursor == |s.log| && t.subs[id].view.Some?
  {
    var s1 := Next(s, AcquireRead);
    var s2 := Next(s1, Snapshot(id));
    var s3 := Next(s2, ReleaseRead);
    OneAction(s, AcquireRead);
    OneAction(s1, Snapshot(id));
    OneAction(s2, ReleaseRead);
    AfterConcat(s, [AcquireRead], [Snapshot(id)]);
    AfterConcat(s, [AcquireRead] + [Snapshot(id)], [ReleaseRead]);
    var before := [AcquireRead] + [Snapshot(id)] + [ReleaseRead];
    var more := ReceiveAll(s3, id);
    AfterConcat(s, before, more);
    acts := before + more;
  }

  /** Convergence: from every reachable point at which nobody writes, any receiver, even one
      that has lagged, can come to hold exactly the references present. */
  lemma ReceiverConverges(acts: seq<Action>, id: nat) returns (more: seq<Action>)
    requires Feasible(START, acts) && After(START, acts).writer.None? && id in After(START, acts).subs
    ensures Feasible(START, acts + more)
    ensures var s, t := After(START, acts), After(START, acts + more);
            && t.state == s.state && t.log == s.log && id in t.subs
            && t.subs[id].view == Some(Refs(s.state))
  {
    var s := After(START, acts);
    StartInv();
    AfterKeepsInv(START, acts);
    assert Following(s, s.subs[id]);
    more := CatchUp(s, id);
    AfterConcat(START, acts, more);
    CaughtUpReceiverIsRight(acts + more, id);
  }
}
