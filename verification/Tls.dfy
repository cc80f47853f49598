/** TLS handshake admission: a fixed number of permits, one task per handshake that holds
    its permit until it ends, and a bounded queue of completed handshakes. */
module Tls {
  import opened Wrappers
  import opened IndexMaps
  import opened Sequences

  const MAX_PENDING_HANDSHAKES: nat := 256

  /** Connections are numbered in the order the socket yields them. A task is in its
      handshake, or waiting to hand its stream over, or done and about to end. `completed`
      records the hand-overs in order. */
  datatype Pool = Pool(
    free: nat,
    handshaking: set<nat>,
    sending: set<nat>,
    ending: set<nat>,
    queue: seq<nat>,
    dropped: set<nat>,
    failed: set<nat>,
    returned: seq<nat>,
    completed: seq<nat>,
    accepted: nat,
    pausing: bool)

  const START := Pool(MAX_PENDING_HANDSHAKES, {}, {}, {}, [], {}, {}, [], [], 0, false)

  /** AcceptTcp and AcceptError are the two outcomes of accepting on the socket; after an
      error the listener pauses until it wakes up. A handshake succeeds, or fails or times
      out. Return hands the oldest completed connection to the caller of accept. */
  datatype Step =
    | AcceptTcp | AcceptError | WakeUp
    | HandshakeOk(c: nat) | HandshakeFails(c: nat) | TimesOut(c: nat)
    | Send(c: nat) | TaskEnds(c: nat) | Return

  predicate Enabled(p: Pool, step: Step) {
    match step
    case AcceptTcp => !p.pausing
    case AcceptError => !p.pausing
    case WakeUp => p.pausing
    case HandshakeOk(c) => c in p.handshaking
    case HandshakeFails(c) => c in p.handshaking
    case TimesOut(c) => c in p.handshaking
    case Send(c) => c in p.sending && |p.queue| < MAX_PENDING_HANDSHAKES
    case TaskEnds(c) => c in p.ending
    case Return => !p.pausing && p.queue != []
  }

  function Next(p: Pool, step: Step): Pool
    requires Enabled(p, step)
  {
    match step
    case AcceptTcp =>
      if p.free > 0 then
        p.(free := p.free - 1, handshaking := p.handshaking + {p.accepted}, accepted := p.accepted + 1)
      else
        p.(dropped := p.dropped + {p.accepted}, accepted := p.accepted + 1)
    case AcceptError => p.(pausing := true)
    case WakeUp => p.(pausing := false)
    case HandshakeOk(c) => p.(handshaking := p.handshaking - {c}, sending := p.sending + {c})
    case HandshakeFails(c) =>
      p.(handshaking := p.handshaking - {c}, ending := p.ending + {c}, failed := p.failed + {c})
    case TimesOut(c) =>
      p.(handshaking := p.handshaking - {c}, ending := p.ending + {c}, failed := p.failed + {c})
    case Send(c) =>
      p.(sending := p.sending - {c}, ending := p.ending + {c}, queue := p.queue + [c], completed := p.completed + [c])
    case TaskEnds(c) => p.(ending := p.ending - {c}, free := p.free + 1)
    case Return => p.(queue := p.queue[1..], returned := p.returned + [p.queue[0]])
  }

  ghost predicate Feasible(p: Pool, steps: seq<Step>)
    decreases |steps|
  {
    steps == [] || (Enabled(p, steps[0]) && Feasible(Next(p, steps[0]), steps[1..]))
  }

  ghost function After(p: Pool, steps: seq<Step>): Pool
    requires Feasible(p, steps)
    decreases |steps|
  {
    if steps == [] then p else After(Next(p, steps[0]), steps[1..])
  }

  // ---------------------------------------------------------------- invariant

  function Count(b: bool): nat { if b then 1 else 0 }

  /** In how many of the six places a connection is. */
  function Places(p: Pool, c: nat): nat {
    Count(c in p.dropped) + Count(c in p.handshaking) + Count(c in p.sending) +
    Count(c in p.queue) + Count(c in p.failed) + Count(c in p.returned)
  }

  function LiveTasks(p: Pool): nat {
    |p.handshaking| + |p.sending| + |p.ending|
  }

  /** Accepted connections whose fate is still open. */
  function Pending(p: Pool): nat {
    |p.handshaking| + |p.sending| + |p.queue|
  }

  ghost predicate Inv(p: Pool) {
    && p.free + LiveTasks(p) == MAX_PENDING_HANDSHAKES
    && |p.queue| <= MAX_PENDING_HANDSHAKES
    && (forall c: nat :: Places(p, c) == Count(c < p.accepted))
    && (forall c | c in p.ending :: c < p.accepted && c !in p.handshaking && c !in p.sending)
    && p.completed == p.returned + p.queue
    && NoDup(p.completed)
  }

  lemma AcceptKeepsInv(p: Pool, step: Step)
    requires Inv(p) && Enabled(p, step) && (step.AcceptTcp? || step.AcceptError? || step.WakeUp?)
    ensures Inv(Next(p, step))
  {
    assert Places(p, p.accepted) == 0;
    var n := Next(p, step);
    forall c: nat ensures Places(n, c) == Count(c < n.accepted) {
      assert Places(p, c) == Count(c < p.accepted);
    }
  }

  lemma HandshakeKeepsInv(p: Pool, step: Step)
    requires Inv(p) && Enabled(p, step) && (step.HandshakeOk? || step.HandshakeFails? || step.TimesOut?)
    ensures Inv(Next(p, step))
  {
    assert Places(p, step.c) == Count(step.c < p.accepted);
    var n := Next(p, step);
    assert step.c !in p.ending && step.c !in p.sending;
    forall c: nat ensures Places(n, c) == Count(c < n.accepted) {
      assert Places(p, c) == Count(c < p.accepted);
    }
  }

  lemma SendKeepsInv(p: Pool, c: nat)
    requires Inv(p) && Enabled(p, Send(c))
    ensures Inv(Next(p, Send(c)))
  {
    assert Places(p, c) == Count(c < p.accepted);
    var n := Next(p, Send(c));
    assert c !in p.ending && c !in p.completed;
    forall k: nat ensures Places(n, k) == Count(k < n.accepted) {
      assert Places(p, k) == Count(k < p.accepted);
      assert k in n.queue <==> k in p.queue || k == c;
    }
    assert n.completed == n.returned + n.queue;
  }

  lemma ReturnKeepsInv(p: Pool)
    requires Inv(p) && Enabled(p, Return)
    ensures Inv(Next(p, Return))
  {
    var n := Next(p, Return);
    var c := p.queue[0];
    assert p.queue == [c] + p.queue[1..];
    assert n.completed == n.returned + n.queue;
    assert p.completed[|p.returned|] == c;
    forall j | 0 <= j < |n.queue| ensures n.queue[j] != c {
      assert p.completed[|p.returned| + 1 + j] == n.queue[j];
    }
    forall k: nat ensures Places(n, k) == Count(k < n.accepted) {
      assert Places(p, k) == Count(k < p.accepted);
      assert k in n.returned <==> k in p.returned || k == c;
      assert k in p.queue <==> k in n.queue || k == c;
    }
  }

  lemma TaskEndsKeepsInv(p: Pool, c: nat)
    requires Inv(p) && Enabled(p, TaskEnds(c))
    ensures Inv(Next(p, TaskEnds(c)))
  {
    var n := Next(p, TaskEnds(c));
    forall k: nat ensures Places(n, k) == Count(k < n.accepted) {
      assert Places(p, k) == Count(k < p.accepted);
    }
  }

  lemma NextKeepsInv(p: Pool, step: Step)
    requires Inv(p) && Enabled(p, step)
    ensures Inv(Next(p, step))
  {
    match step
    case AcceptTcp => AcceptKeepsInv(p, step);
    case AcceptError => AcceptKeepsInv(p, step);
    case WakeUp => AcceptKeepsInv(p, step);
    case Send(c) => SendKeepsInv(p, c);
    case TaskEnds(c) => TaskEndsKeepsInv(p, c);
    case Return => ReturnKeepsInv(p);
    case _ => HandshakeKeepsInv(p, step);
  }

  lemma {:induction false} AfterKeepsInv(p: Pool, steps: seq<Step>)
    requires Inv(p) && Feasible(p, steps)
    ensures Inv(After(p, steps))
    decreases |steps|
  {
    if steps != [] {
      NextKeepsInv(p, steps[0]);
      AfterKeepsInv(Next(p, steps[0]), steps[1..]);
    }
  }

  lemma StartInv()
    ensures Inv(START)
  {
  }

  /** Safety of every run: permits are conserved, the queue is bounded, every accepted
      connection is in exactly one place, none is returned twice, connections are returned
      in the order they were handed over, and at most 512 are pending. */
  lemma Admission(steps: seq<Step>)
    requires Feasible(START, steps)
    ensures var p := After(START, steps);
            && p.free + LiveTasks(p) == MAX_PENDING_HANDSHAKES
            && |p.queue| <= MAX_PENDING_HANDSHAKES
            && (forall c: nat :: Places(p, c) == Count(c < p.accepted))
            && NoDup(p.returned)
            && p.returned <= p.completed
            && Pending(p) <= 512
  {
    StartInv();
    AfterKeepsInv(START, steps);
    var p := After(START, steps);
    assert forall i | 0 <= i < |p.returned| :: p.completed[i] == p.returned[i];
  }

  /** A connection is dropped on arrival if and only if all permits are held by live tasks. */
  lemma DroppedOnlyWhenFull(steps: seq<Step>)
    requires Feasible(START, steps) && Enabled(After(START, steps), AcceptTcp)
    ensures var p := After(START, steps);
            p.accepted in Next(p, AcceptTcp).dropped <==> LiveTasks(p) == MAX_PENDING_HANDSHAKES
  {
    StartInv();
    AfterKeepsInv(START, steps);
    var p := After(START, steps);
    assert Places(p, p.accepted) == Count(p.accepted < p.accepted);
  }

  // ---------------------------------------------------------------- what happened to a connection

  function Last(steps: seq<Step>): Step
    requires steps != []
  {
    steps[|steps| - 1]
  }

  /** The connections handed over, in order. */
  function HandedOver(steps: seq<Step>): seq<nat> {
    if steps == [] then []
    else HandedOver(steps[..|steps| - 1]) + (if Last(steps).Send? then [Last(steps).c] else [])
  }

  function Accepts(steps: seq<Step>): nat {
    if steps == [] then 0
    else Accepts(steps[..|steps| - 1]) + Count(Last(steps).AcceptTcp?)
  }

  function Returns(steps: seq<Step>): nat {
    if steps == [] then 0
    else Returns(steps[..|steps| - 1]) + Count(Last(steps).Return?)
  }

  /** The socket failed, and the pause after it is not over. */
  predicate InPause(steps: seq<Step>) {
    steps != [] && (Last(steps).AcceptError? || (!Last(steps).WakeUp? && InPause(steps[..|steps| - 1])))
  }

  /** The handshake of c has come out badly. */
  predicate CameToNothing(steps: seq<Step>, c: nat) {
    HandshakeFails(c) in steps || TimesOut(c) in steps
  }

  /** Where a connection is follows from what happened to it. */
  ghost predicate PlaceExplained(p: Pool, past: seq<Step>, c: nat) {
    && (c in p.handshaking <==>
          c < p.accepted && c !in p.dropped && HandshakeOk(c) !in past && !CameToNothing(past, c))
    && (c in p.sending <==> HandshakeOk(c) in past && Send(c) !in past)
    && (c in p.failed <==> CameToNothing(past, c))
    && (c in p.completed <==> Send(c) in past)
    && (Send(c) in past ==> HandshakeOk(c) in past)
    && (c in p.ending <==> (Send(c) in past || CameToNothing(past, c)) && TaskEnds(c) !in past)
    && (TaskEnds(c) in past ==> Send(c) in past || CameToNothing(past, c))
    && !(HandshakeOk(c) in past && CameToNothing(past, c))
  }

  ghost predicate Explained(p: Pool, past: seq<Step>) {
    && (forall c: nat :: PlaceExplained(p, past, c))
    && p.completed == HandedOver(past)
    && p.accepted == Accepts(past)
    && |p.returned| == Returns(past)
    && (p.pausing <==> InPause(past))
  }

  lemma SnocStep(past: seq<Step>, step: Step)
    ensures forall s :: s in past + [step] <==> s in past || s == step
    ensures HandedOver(past + [step]) == HandedOver(past) + (if step.Send? then [step.c] else [])
    ensures Accepts(past + [step]) == Accepts(past) + Count(step.AcceptTcp?)
    ensures Returns(past + [step]) == Returns(past) + Count(step.Return?)
    ensures InPause(past + [step]) <==> step.AcceptError? || (!step.WakeUp? && InPause(past))
  {
    assert (past + [step])[..|past|] == past;
  }

  lemma AcceptExplainsPlace(p: Pool, past: seq<Step>, step: Step, c: nat)
    requires Inv(p) && PlaceExplained(p, past, c) && Enabled(p, step)
    requires step.AcceptTcp? || step.AcceptError? || step.WakeUp? || step.Return?
    ensures PlaceExplained(Next(p, step), past + [step], c)
  {
    SnocStep(past, step);
    var n := Next(p, step);
    assert n.completed == p.completed && n.sending == p.sending && n.failed == p.failed && n.ending == p.ending;
    if step.AcceptTcp? {
      AcceptedIsNew(p, past, c);
    }
  }

  /** Nothing has happened yet to a connection that is not there. */
  lemma AcceptedIsNew(p: Pool, past: seq<Step>, c: nat)
    requires Inv(p) && PlaceExplained(p, past, c)
    ensures c >= p.accepted ==> HandshakeOk(c) !in past && !CameToNothing(past, c) && c !in p.dropped
    ensures c < p.accepted ==> c in p.handshaking || c in p.dropped || HandshakeOk(c) in past || CameToNothing(past, c)
  {
    assert Places(p, c) == Count(c < p.accepted);
    assert c in p.completed <==> c in p.returned || c in p.queue;
  }

  lemma OutcomeExplainsPlace(p: Pool, past: seq<Step>, step: Step, c: nat)
    requires Inv(p) && PlaceExplained(p, past, c) && Enabled(p, step)
    requires step.HandshakeOk? || step.HandshakeFails? || step.TimesOut?
    ensures PlaceExplained(Next(p, step), past + [step], c)
  {
    SnocStep(past, step);
    assert Places(p, c) == Count(c < p.accepted);
    assert c in p.completed <==> c in p.returned || c in p.queue;
  }

  lemma TaskExplainsPlace(p: Pool, past: seq<Step>, step: Step, c: nat)
    requires Inv(p) && PlaceExplained(p, past, c) && Enabled(p, step)
    requires step.Send? || step.TaskEnds?
    ensures PlaceExplained(Next(p, step), past + [step], c)
  {
    SnocStep(past, step);
    assert Places(p, c) == Count(c < p.accepted);
    assert c in p.completed <==> c in p.returned || c in p.queue;
    if step.Send? {
      MemberSnoc(Next(p, step).completed, c);
      assert Next(p, step).completed[..|p.completed|] == p.completed;
    }
  }

  lemma StepExplainsPlace(p: Pool, past: seq<Step>, step: Step, c: nat)
    requires Inv(p) && PlaceExplained(p, past, c) && Enabled(p, step)
    ensures PlaceExplained(Next(p, step), past + [step], c)
  {
    if step.Send? || step.TaskEnds? {
      TaskExplainsPlace(p, past, step, c);
    } else if step.HandshakeOk? || step.HandshakeFails? || step.TimesOut? {
      OutcomeExplainsPlace(p, past, step, c);
    } else {
      AcceptExplainsPlace(p, past, step, c);
    }
  }

  lemma StepExplained(p: Pool, past: seq<Step>, step: Step)
    requires Inv(p) && Explained(p, past) && Enabled(p, step)
    ensures Explained(Next(p, step), past + [step])
  {
    SnocStep(past, step);
    forall c: nat ensures PlaceExplained(Next(p, step), past + [step], c) {
      assert PlaceExplained(p, past, c);
      StepExplainsPlace(p, past, step, c);
    }
  }

  lemma {:induction false} RunExplained(p: Pool, past: seq<Step>, steps: seq<Step>)
    requires Inv(p) && Explained(p, past) && Feasible(p, steps)
    ensures Explained(After(p, steps), past + steps)
    decreases |steps|
  {
    if steps == [] {
      assert past + steps == past;
    } else {
      NextKeepsInv(p, steps[0]);
      StepExplained(p, past, steps[0]);
      RunExplained(Next(p, steps[0]), past + [steps[0]], steps[1..]);
      assert past + [steps[0]] + steps[1..] == past + steps;
    }
  }

  /** Every run: only connections whose handshake succeeded are waiting to be handed over,
      queued or returned; exactly those whose handshake failed or timed out count as failed;
      those handed over, in that order, are the ones returned and then the ones queued; and
      the listener pauses exactly from an accept error until it wakes up. */
  lemma FateFollowsHandshake(steps: seq<Step>)
    requires Feasible(START, steps)
    ensures var p := After(START, steps);
            && (forall c: nat :: PlaceExplained(p, steps, c))
            && (forall c: nat | c in p.sending || c in p.queue || c in p.returned :: HandshakeOk(c) in steps)
            && p.returned + p.queue == HandedOver(steps)
            && |p.returned| == Returns(steps) && p.accepted == Accepts(steps)
            && (p.pausing <==> InPause(steps))
  {
    StartInv();
    RunExplained(START, [], steps);
    AfterKeepsInv(START, steps);
    assert [] + steps == steps;
    var p := After(START, steps);
    assert p.completed == p.returned + p.queue;
    forall c: nat | c in p.sending || c in p.queue || c in p.returned ensures HandshakeOk(c) in steps {
      assert PlaceExplained(p, steps, c);
      assert c in p.completed <==> c in p.returned || c in p.queue;
    }
  }

  /** From an accept error until it wakes up the listener neither accepts nor returns. */
  lemma PausedIsQuiet(steps: seq<Step>, next: Step)
    requires Feasible(START, steps) && InPause(steps) && Enabled(After(START, steps), next)
    ensures !next.AcceptTcp? && !next.AcceptError? && !next.Return?
  {
    FateFollowsHandshake(steps);
  }

  // ---------------------------------------------------------------- draining

  predicate Accepting(step: Step) {
    step.AcceptTcp? || step.AcceptError?
  }

  predicate Idle(p: Pool) {
    p.handshaking == {} && p.sending == {} && p.ending == {} && p.queue == [] && !p.pausing
  }

  /** How much work is left once nothing more is accepted. */
  function Work(p: Pool): nat {
    4 * |p.handshaking| + 3 * |p.sending| + |p.ending| + |p.queue| + Count(p.pausing)
  }

  /** Every step but accepting lessens the work. */
  lemma WorkFalls(p: Pool, step: Step)
    requires Inv(p) && Enabled(p, step) && !Accepting(step)
    ensures Work(Next(p, step)) < Work(p)
  {
  }

  /** No deadlock: short of idleness some step other than accepting is enabled. */
  lemma SomethingCanHappen(p: Pool)
    requires !Idle(p)
    ensures exists step :: !Accepting(step) && Enabled(p, step)
  {
    if p.pausing {
      assert Enabled(p, WakeUp);
    } else if p.queue != [] {
      assert Enabled(p, Return);
    } else if c :| c in p.handshaking {
      assert Enabled(p, TimesOut(c));
    } else if c :| c in p.sending {
      assert Enabled(p, Send(c));
    } else {
      var c :| c in p.ending;
      assert Enabled(p, TaskEnds(c));
    }
  }

  ghost predicate Draining(steps: seq<Step>) {
    forall i | 0 <= i < |steps| :: !Accepting(steps[i])
  }

  /** Draining terminates: no run without accepting is longer than the work left, and one
      that cannot be continued ends idle, with all permits free and every connection
      dropped, failed or returned. */
  lemma {:induction false} DrainingTerminates(p: Pool, steps: seq<Step>)
    requires Inv(p) && Feasible(p, steps) && Draining(steps)
    ensures |steps| + Work(After(p, steps)) <= Work(p)
    ensures var q := After(p, steps);
            (forall step | !Accepting(step) :: !Enabled(q, step)) ==>
              && Idle(q) && q.free == MAX_PENDING_HANDSHAKES
              && forall c: nat | c < q.accepted :: c in q.dropped || c in q.failed || c in q.returned
    decreases |steps|
  {
    if steps == [] {
      if forall step | !Accepting(step) :: !Enabled(p, step) {
        if !Idle(p) {
          SomethingCanHappen(p);
        }
        forall c: nat | c < p.accepted ensures c in p.dropped || c in p.failed || c in p.returned {
          assert Places(p, c) == Count(c < p.accepted);
        }
      }
    } else {
      NextKeepsInv(p, steps[0]);
      WorkFalls(p, steps[0]);
      DrainingTerminates(Next(p, steps[0]), steps[1..]);
    }
  }

  // ---------------------------------------------------------------- the bound is tight

  lemma {:induction false} AfterConcat(p: Pool, a: seq<Step>, b: seq<Step>)
    requires Feasible(p, a) && Feasible(After(p, a), b)
    ensures Feasible(p, a + b) && After(p, a + b) == After(After(p, a), b)
    decreases |a|
  {
    if a == [] {
      assert a + b == b;
    } else {
      assert (a + b)[1..] == a[1..] + b;
      AfterConcat(Next(p, a[0]), a[1..], b);
    }
  }

  /** One more connection is accepted, shakes hands, is queued, and its task ends. */
  lemma QueueOne(p: Pool) returns (steps: seq<Step>)
    requires p.free > 0 && !p.pausing && |p.queue| < MAX_PENDING_HANDSHAKES
    requires p.handshaking == {} && p.sending == {} && p.ending == {}
    ensures Feasible(p, steps)
    ensures After(p, steps) ==
              p.(queue := p.queue + [p.accepted], completed := p.completed + [p.accepted], accepted := p.accepted + 1)
  {
    var c := p.accepted;
    var p1 := Next(p, AcceptTcp);
    var p2 := Next(p1, HandshakeOk(c));
    var p3 := Next(p2, Send(c));
    var p4 := Next(p3, TaskEnds(c));
    assert p4 == p.(queue := p.queue + [c], completed := p.completed + [c], accepted := c + 1);
    steps := [TaskEnds(c)];
    assert steps[1..] == [] && Feasible(p4, []) && After(p3, steps) == p4;
    steps := [Send(c), TaskEnds(c)];
    assert steps[1..] == [TaskEnds(c)] && After(p2, steps) == p4;
    steps := [HandshakeOk(c), Send(c), TaskEnds(c)];
    assert steps[1..] == [Send(c), TaskEnds(c)] && After(p1, steps) == p4;
    steps := [AcceptTcp, HandshakeOk(c), Send(c), TaskEnds(c)];
    assert steps[1..] == [HandshakeOk(c), Send(c), TaskEnds(c)] && After(p, steps) == p4;
  }

  lemma {:induction false} FillQueue(k: nat) returns (steps: seq<Step>)
    requires k <= MAX_PENDING_HANDSHAKES
    ensures Feasible(START, steps)
    ensures var p := After(START, steps);
            && |p.queue| == k && p.free == MAX_PENDING_HANDSHAKES && !p.pausing
            && p.handshaking == {} && p.sending == {} && p.ending == {}
    decreases k
  {
    if k == 0 {
      steps := [];
    } else {
      var first := FillQueue(k - 1);
      var more := QueueOne(After(START, first));
      AfterConcat(START, first, more);
      steps := first + more;
    }
  }

  lemma {:induction false} FillSending(p: Pool, k: nat) returns (steps: seq<Step>)
    requires Inv(p) && !p.pausing && k <= p.free
    requires p.handshaking == {}
    ensures Feasible(p, steps)
    ensures var q := After(p, steps);
            && |q.sending| == |p.sending| + k && q.queue == p.queue
            && q.free == p.free - k && q.handshaking == {} && !q.pausing && Inv(q)
    decreases k
  {
    if k == 0 {
      steps := [];
    } else {
      var c := p.accepted;
      var p1 := Next(p, AcceptTcp);
      NextKeepsInv(p, AcceptTcp);
      var p2 := Next(p1, HandshakeOk(c));
      NextKeepsInv(p1, HandshakeOk(c));
      assert Places(p, c) == Count(c < c);
      assert p2.handshaking == {};
      var rest := FillSending(p2, k - 1);
      steps := [AcceptTcp, HandshakeOk(c)] + rest;
      assert steps[1..] == [HandshakeOk(c)] + rest && steps[1..][1..] == rest;
    }
  }

  /** The bound of 512 pending connections is reached: a full queue, and every permit held
      by a task waiting to hand over. */
  lemma BoundIsReached() returns (steps: seq<Step>)
    ensures Feasible(START, steps) && Pending(After(START, steps)) == 512
  {
    var first := FillQueue(MAX_PENDING_HANDSHAKES);
    StartInv();
    AfterKeepsInv(START, first);
    var more := FillSending(After(START, first), MAX_PENDING_HANDSHAKES);
    AfterConcat(START, first, more);
    steps := first + more;
  }

  // ---------------------------------------------------------------- the listener

  class TlsListener {
    /** Free permits of the semaphore, and the live tasks holding the others. */
    var permits: nat
    var handshaking: set<nat>
    var sending: set<nat>
    var ending: set<nat>
    /** The channel of completed handshakes. */
    var done: seq<nat>
    var pausing: bool
    var accepted: nat
    ghost var dropped: set<nat>
    ghost var failed: set<nat>
    ghost var returned: seq<nat>
    ghost var completed: seq<nat>

    ghost function View(): Pool
      reads this
    {
      Pool(permits, handshaking, sending, ending, done, dropped, failed, returned, completed, accepted, pausing)
    }

    constructor ()
      ensures View() == START
    {
      permits := MAX_PENDING_HANDSHAKES;
      handshaking, sending, ending := {}, {}, {};
      done, pausing, accepted := [], false, 0;
      dropped, failed, returned, completed := {}, {}, [], [];
    }

    /** The socket yields a connection: spawn its handshake if a permit is free, else drop it. */
    method OnTcp()
      requires Enabled(View(), AcceptTcp)
      modifies this
      ensures View() == Next(old(View()), AcceptTcp)
    {
      var conn := accepted;
      accepted := accepted + 1;
      if permits > 0 {
        permits := permits - 1;
        handshaking := handshaking + {conn};
      } else {
        dropped := dropped + {conn};
      }
    }

    /** One atomic step of the spawned task of connection c. */
    method OnTask(step: Step)
      requires Enabled(View(), step)
      requires step.HandshakeOk? || step.HandshakeFails? || step.TimesOut? || step.Send? || step.TaskEnds?
      modifies this
      ensures View() == Next(old(View()), step)
    {
      var c := step.c;
      if step.HandshakeOk? {
        handshaking := handshaking - {c};
        sending := sending + {c};
      } else if step.Send? {
        sending := sending - {c};
        done, completed := done + [c], completed + [c];
        ending := ending + {c};
      } else if step.TaskEnds? {
        ending := ending - {c};
        permits := permits + 1;
      } else {
        handshaking := handshaking - {c};
        ending := ending + {c};
        failed := failed + {c};
      }
    }

    /** Accepts until a completed handshake is there to return. The environment decides
        what happens next; tasks run between the steps of the loop. */
    method Accept(events: seq<Step>) returns (conn: Option<nat>, used: nat)
      requires Feasible(View(), events)
      modifies this
      ensures used <= |events| && Feasible(old(View()), events[..used])
      ensures View() == After(old(View()), events[..used])
      ensures conn.Some? ==> used > 0 && events[used - 1] == Return && returned == old(returned) + [conn.value]
      ensures conn.None? ==> used == |events| && returned == old(returned)
      ensures Return !in events[..if conn.Some? then used - 1 else used]
    {
      ghost var start := View();
      used := 0;
      assert events[..0] == [] && events[0..] == events;
      while used < |events|
        invariant used <= |events| && Feasible(start, events[..used])
        invariant View() == After(start, events[..used])
        invariant Feasible(View(), events[used..])
        invariant Return !in events[..used] && returned == old(returned)
        decreases |events| - used
      {
        var event := events[used];
        OneMore(start, events, used);
        used := used + 1;
        match event {
          case AcceptTcp => OnTcp();
          case AcceptError => pausing := true;
          case WakeUp => pausing := false;
          case Return =>
            var next := done[0];
            done := done[1..];
            returned := returned + [next];
            return Some(next), used;
          case _ => OnTask(event);
        }
      }
      assert events[..used] == events;
      conn := None;
    }
  }

  lemma OneMore(p: Pool, events: seq<Step>, k: nat)
    requires k < |events| && Feasible(p, events[..k]) && Feasible(After(p, events[..k]), events[k..])
    ensures Enabled(After(p, events[..k]), events[k])
    ensures Feasible(p, events[..k + 1])
    ensures After(p, events[..k + 1]) == Next(After(p, events[..k]), events[k])
    ensures Feasible(After(p, events[..k + 1]), events[k + 1..])
    ensures Return in events[..k + 1] <==> Return in events[..k] || events[k] == Return
    ensures events[..k + 1][..k] == events[..k]
  {
    var q := After(p, events[..k]);
    assert events[k..][1..] == events[k + 1..];
    assert [events[k]][1..] == [];
    assert Feasible(Next(q, events[k]), []);
    assert Feasible(q, [events[k]]) && After(q, [events[k]]) == Next(q, events[k]);
    AfterConcat(p, events[..k], [events[k]]);
    assert events[..k + 1] == events[..k] + [events[k]];
  }
}
