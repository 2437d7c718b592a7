/**
 The background queue that finalizes replays, as the event loop runs it: one
 drain at a time, interrupted at its awaits, with arrivals in between.
 */
module ReplayFinalizer {
  import opened Common

  datatype Work = Replay(id: nat) | Maintenance(job: nat)

  /** Where the drain stands: not running, waiting for its first turn, waiting for database capacity
      with a piece of work taken, doing it, or letting the event loop run. */
  datatype Phase = Resting | Scheduled | Awaiting(work: Work) | Working(work: Work) | Yielding

  /** The fields, the drain's position, and two histories: work ever queued and work ever taken. */
  datatype Queue = Queue(pending: seq<Work>, queued: set<nat>, idleWaiters: set<nat>, draining: bool,
                         stopped: bool, phase: Phase, accepted: seq<Work>, taken: seq<Work>)

  const Empty: Queue := Queue([], {}, {}, false, false, Resting, [], [])

  function Scheduling(q: Queue): Queue {
    if q.draining || q.stopped then q else q.(draining := true, phase := Scheduled)
  }

  function Enqueued(q: Queue, id: nat): Queue {
    if q.stopped || id in q.queued then q
    else Scheduling(q.(queued := q.queued + {id}, pending := q.pending + [Replay(id)], accepted := q.accepted + [Replay(id)]))
  }

  function MaintenanceAsked(q: Queue, job: nat): Queue {
    if q.stopped then q
    else Scheduling(q.(pending := q.pending + [Maintenance(job)], accepted := q.accepted + [Maintenance(job)]))
  }

  function IdleAwaited(q: Queue, waiter: nat): Queue {
    if !q.draining && q.pending == [] then q else q.(idleWaiters := q.idleWaiters + {waiter})
  }

  function Stopped(q: Queue): Queue {
    q.(stopped := true, pending := [], queued := {}, idleWaiters := if q.draining then q.idleWaiters else {})
  }

  /** The `finally` of the drain. */
  function Finishing(q: Queue): Queue {
    var rested := q.(draining := false, phase := Resting, idleWaiters := {});
    if rested.pending != [] then Scheduling(rested) else rested
  }

  /** The loop condition, and the shift of the next piece of work. */
  function LoopHead(q: Queue): Queue {
    if q.stopped || q.pending == [] then Finishing(q)
    else q.(pending := q.pending[1..], phase := Awaiting(q.pending[0]), taken := q.taken + [q.pending[0]])
  }

  function CapacityGranted(q: Queue): Queue {
    if !q.phase.Awaiting? then q else if q.stopped then Finishing(q) else q.(phase := Working(q.phase.work))
  }

  /** The work is over: finalized, failed and deferred, or skipped for want of the lease. A skipped
      replay does not yield to the event loop before the next one. */
  function WorkOver(q: Queue, skipped: bool): Queue {
    match q.phase
    case Working(Maintenance(_)) => LoopHead(q)
    case Working(Replay(id)) =>
      var done := q.(queued := q.queued - {id});
      if !skipped && !done.stopped && done.pending != [] then done.(phase := Yielding) else LoopHead(done)
    case _ => q
  }

  /** The wait for database capacity throws; nothing in the loop catches that. */
  function CapacityFailed(q: Queue): Queue {
    if q.phase.Awaiting? then Finishing(q) else q
  }

  class Finalizer {
    var pending: seq<Work>
    var queued: set<nat>
    var idleWaiters: set<nat>
    var draining: bool
    var stopped: bool
    var phase: Phase
    ghost var accepted: seq<Work>
    ghost var taken: seq<Work>

    ghost function Value(): Queue
      reads this
    {
      Queue(pending, queued, idleWaiters, draining, stopped, phase, accepted, taken)
    }

    constructor ()
      ensures Value() == Empty
    {
      pending, queued, idleWaiters := [], {}, {};
      draining, stopped, phase := false, false, Resting;
      accepted, taken := [], [];
    }

    method Enqueue(id: nat)
      modifies this
      ensures Value() == Enqueued(old(Value()), id)
    {
      if stopped || id in queued { return; }
      queued := queued + {id};
      pending := pending + [Replay(id)];
      accepted := accepted + [Replay(id)];
      Schedule();
    }

    method RunMaintenance(job: nat) returns (accepted': bool)
      modifies this
      ensures Value() == MaintenanceAsked(old(Value()), job) && accepted' == !old(stopped)
    {
      if stopped { return false; }
      pending := pending + [Maintenance(job)];
      accepted := accepted + [Maintenance(job)];
      Schedule();
      return true;
    }

    /** True when the caller need not wait. */
    method WaitForIdle(waiter: nat) returns (idle: bool)
      modifies this
      ensures Value() == IdleAwaited(old(Value()), waiter)
      ensures idle == (!old(draining) && old(pending) == [])
    {
      if !draining && |pending| == 0 { return true; }
      idleWaiters := idleWaiters + {waiter};
      return false;
    }

    /** Refuses the pending maintenance jobs. */
    method Stop() returns (refused: seq<Work>)
      modifies this
      ensures Value() == Stopped(old(Value())) && refused == old(pending)
    {
      stopped := true;
      refused := pending;
      pending := [];
      queued := {};
      if !draining { ResolveIdle(); }
    }

    method Schedule()
      modifies this
      ensures Value() == Scheduling(old(Value()))
    {
      if draining || stopped { return; }
      draining := true;
      phase := Scheduled;
    }

    method ResolveIdle()
      modifies this`idleWaiters
      ensures idleWaiters == {}
    {
      idleWaiters := {};
    }

    method Finish()
      modifies this
      ensures Value() == Finishing(old(Value()))
    {
      draining := false;
      phase := Resting;
      ResolveIdle();
      if |pending| > 0 { Schedule(); }
    }

    /** Runs from the loop condition to the next await. */
    method Continue()
      modifies this
      ensures Value() == LoopHead(old(Value()))
    {
      if stopped || |pending| == 0 { Finish(); return; }
      phase := Awaiting(pending[0]);
      taken := taken + [pending[0]];
      pending := pending[1..];
    }

    method OnCapacity()
      requires phase.Awaiting?
      modifies this
      ensures Value() == CapacityGranted(old(Value()))
    {
      if stopped { Finish(); return; }
      phase := Working(phase.work);
    }

    /** The wait throws: the drain ends through its `finally` with the work still in hand. */
    method OnCapacityFailure()
      requires phase.Awaiting?
      modifies this
      ensures Value() == CapacityFailed(old(Value()))
    {
      Finish();
    }

    method OnWorkOver(skipped: bool)
      requires phase.Working?
      modifies this
      ensures Value() == WorkOver(old(Value()), skipped)
    {
      if phase.work.Maintenance? { Continue(); return; }
      queued := queued - {phase.work.id};
      if !skipped && !stopped && |pending| > 0 { phase := Yielding; } else { Continue(); }
    }
  }

  // ---------------------------------------------------------------- every reachable state

  datatype Turn =
    | Enqueue(id: nat) | AskMaintenance(job: nat) | AwaitIdle(waiter: nat) | Stop
    | DrainStarts | CapacityArrives | CapacityFails | WorkEnds(skipped: bool) | YieldEnds

  predicate Enabled(q: Queue, turn: Turn) {
    match turn
    case DrainStarts => q.phase.Scheduled?
    case CapacityArrives => q.phase.Awaiting?
    case CapacityFails => q.phase.Awaiting?
    case WorkEnds(_) => q.phase.Working?
    case YieldEnds => q.phase.Yielding?
    case _ => true
  }

  function Taken(q: Queue, turn: Turn): Queue {
    match turn
    case Enqueue(id) => Enqueued(q, id)
    case AskMaintenance(job) => MaintenanceAsked(q, job)
    case AwaitIdle(waiter) => IdleAwaited(q, waiter)
    case Stop => Stopped(q)
    case DrainStarts => LoopHead(q)
    case CapacityArrives => CapacityGranted(q)
    case CapacityFails => CapacityFailed(q)
    case WorkEnds(skipped) => WorkOver(q, skipped)
    case YieldEnds => LoopHead(q)
  }

  function Ids(works: seq<Work>): set<nat> {
    set i | 0 <= i < |works| && works[i].Replay? :: works[i].id
  }

  /** The replay the drain has taken and not finished. */
  function InHand(phase: Phase): set<nat> {
    match phase
    case Awaiting(Replay(id)) => {id}
    case Working(Replay(id)) => {id}
    case _ => {}
  }

  ghost predicate Sound(q: Queue) {
    && (q.draining <==> !q.phase.Resting?)
    && (q.idleWaiters != {} ==> q.draining)
    && (q.stopped ==> q.pending == [] && q.queued == {})
    && (!q.stopped ==>
          && q.queued == Ids(q.pending) + InHand(q.phase)
          && (forall i, j | 0 <= i < j < |q.pending| && q.pending[i].Replay? :: q.pending[i] != q.pending[j])
          && Ids(q.pending) !! InHand(q.phase)
          && (q.pending != [] ==> q.draining)
          && q.accepted == q.taken + q.pending)
    && (q.phase.Awaiting? || q.phase.Working? ==> q.taken != [] && q.taken[|q.taken| - 1] == q.phase.work)
  }

  lemma IdsOfSnoc(works: seq<Work>, work: Work)
    ensures Ids(works + [work]) == Ids(works) + (if work.Replay? then {work.id} else {})
  {
    var all := works + [work];
    forall id ensures id in Ids(all) <==> id in Ids(works) || (work.Replay? && work.id == id) {
      if id in Ids(works) {
        var i :| 0 <= i < |works| && works[i].Replay? && works[i].id == id;
        assert all[i] == works[i];
      }
      if work.Replay? && work.id == id { assert all[|works|] == work; }
    }
  }

  lemma IdsOfTail(works: seq<Work>)
    requires works != []
    ensures Ids(works) == Ids(works[1..]) + (if works[0].Replay? then {works[0].id} else {})
  {
    forall id ensures id in Ids(works) <==> id in Ids(works[1..]) || (works[0].Replay? && works[0].id == id) {
      if id in Ids(works[1..]) {
        var i :| 0 <= i < |works[1..]| && works[1..][i].Replay? && works[1..][i].id == id;
        assert works[i + 1] == works[1..][i];
      }
      if id in Ids(works) {
        var i :| 0 <= i < |works| && works[i].Replay? && works[i].id == id;
        if i > 0 { assert works[1..][i - 1] == works[i]; }
      }
    }
  }

  lemma LoopHeadSound(q: Queue)
    requires Sound(q) && q.draining && InHand(q.phase) == {}
    ensures Sound(LoopHead(q))
  {
    if !q.stopped && q.pending != [] {
      IdsOfTail(q.pending);
      var first, rest := q.pending[0], q.pending[1..];
      assert q.taken + q.pending == (q.taken + [first]) + rest;
      forall i | 0 <= i < |rest| ensures rest[i] == q.pending[i + 1] { }
    }
  }

  lemma PushSound(q: Queue, work: Work)
    requires Sound(q) && !q.stopped && (work.Replay? ==> work.id !in q.queued)
    ensures Sound(Scheduling(q.(queued := if work.Replay? then q.queued + {work.id} else q.queued,
                                pending := q.pending + [work], accepted := q.accepted + [work])))
  {
    IdsOfSnoc(q.pending, work);
    assert q.taken + (q.pending + [work]) == (q.taken + q.pending) + [work];
    forall i | 0 <= i < |q.pending| && q.pending[i].Replay? ensures q.pending[i] != work {
      if work.Replay? { assert q.pending[i].id in Ids(q.pending); }
    }
  }

  /** The one turn that breaks the queue: the capacity wait throws with a replay in hand. */
  predicate Strands(q: Queue, turn: Turn) {
    turn.CapacityFails? && !q.stopped && q.phase.Awaiting? && q.phase.work.Replay?
  }

  /** In every reachable state before `stop`, `queued` is the replays pending plus the one in hand, no
      replay is pending twice, pending work has a drain scheduled or running, and work is taken in
      arrival order. */
  lemma TurnSound(q: Queue, turn: Turn)
    requires Sound(q) && Enabled(q, turn) && !Strands(q, turn)
    ensures Sound(Taken(q, turn))
  {
    match turn {
      case Enqueue(id) => if !q.stopped && id !in q.queued { PushSound(q, Replay(id)); }
      case AskMaintenance(job) => if !q.stopped { PushSound(q, Maintenance(job)); }
      case DrainStarts => LoopHeadSound(q);
      case YieldEnds => LoopHeadSound(q);
      case WorkEnds(_) =>
        if q.phase.work.Replay? {
          var done := q.(queued := q.queued - {q.phase.work.id}, phase := Yielding);
          assert Sound(done);
          LoopHeadSound(done);
          assert LoopHead(done) == LoopHead(done.(phase := q.phase));
        } else {
          LoopHeadSound(q);
        }
      case _ =>
    }
  }

  function Run(q: Queue, turns: seq<Turn>): Queue {
    if turns == [] then q else Taken(Run(q, turns[..|turns| - 1]), turns[|turns| - 1])
  }

  ghost predicate Possible(q: Queue, turns: seq<Turn>) {
    turns == [] || (Possible(q, turns[..|turns| - 1]) && Enabled(Run(q, turns[..|turns| - 1]), turns[|turns| - 1]))
  }

  /** No capacity wait throws while a replay is in hand. */
  ghost predicate StrandsNothing(q: Queue, turns: seq<Turn>) {
    turns == [] || (StrandsNothing(q, turns[..|turns| - 1]) && !Strands(Run(q, turns[..|turns| - 1]), turns[|turns| - 1]))
  }

  lemma {:induction false} RunSound(turns: seq<Turn>)
    requires Possible(Empty, turns) && StrandsNothing(Empty, turns)
    ensures Sound(Run(Empty, turns))
  {
    if turns != [] {
      RunSound(turns[..|turns| - 1]);
      TurnSound(Run(Empty, turns[..|turns| - 1]), turns[|turns| - 1]);
    }
  }

  /** A failing capacity wait keeps the queue sound exactly when it is stopped or the work in hand is
      no replay. */
  lemma CapacityFailureSound(q: Queue)
    requires Sound(q) && q.phase.Awaiting?
    ensures Sound(CapacityFailed(q)) <==> q.stopped || !q.phase.work.Replay?
  {
    if q.stopped || !q.phase.work.Replay? {
      TurnSound(q, CapacityFails);
    } else {
      assert q.phase.work.id in InHand(q.phase);
      assert q.phase.work.id in CapacityFailed(q).queued;
      assert q.phase.work.id !in Ids(q.pending);
    }
  }

  /** The id is remembered as queued although nothing holds it. */
  ghost predicate Stranded(q: Queue, id: nat) {
    !q.stopped && id in q.queued && id !in Ids(q.pending) && id !in InHand(q.phase)
  }

  lemma StrandedStays(q: Queue, turn: Turn, id: nat)
    requires Stranded(q, id) && Enabled(q, turn) && !turn.Stop?
    ensures Stranded(Taken(q, turn), id)
  {
    match turn {
      case Enqueue(other) => IdsOfSnoc(q.pending, Replay(other));
      case AskMaintenance(job) => IdsOfSnoc(q.pending, Maintenance(job));
      case _ => if q.pending != [] { IdsOfTail(q.pending); }
    }
  }

  /** From then on, in every run without a stop, the id stays queued, is never pending again and never
      taken again, however often it is asked for. */
  lemma {:induction false} StrandedForGood(q: Queue, id: nat, turns: seq<Turn>)
    requires Sound(q) && !q.stopped && q.phase == Awaiting(Replay(id)) && Possible(CapacityFailed(q), turns)
    requires forall i | 0 <= i < |turns| :: !turns[i].Stop?
    ensures var later := Run(CapacityFailed(q), turns);
      Stranded(later, id) && Enqueued(later, id) == later
  {
    if turns == [] {
      assert id in InHand(q.phase);
    } else {
      var front := turns[..|turns| - 1];
      StrandedForGood(q, id, front);
      StrandedStays(Run(CapacityFailed(q), front), turns[|turns| - 1], id);
    }
  }

  /** Such a run: one replay is queued, the wait for it throws, and asking for it again does nothing. */
  lemma AStrandedReplay()
    ensures var turns := [Enqueue(1), DrainStarts, CapacityFails, Enqueue(1)];
      var q := Run(Empty, turns);
      && Possible(Empty, turns) && Stranded(q, 1) && q.phase.Resting? && q.pending == [] && q.taken == [Replay(1)]
  {
    var turns := [Enqueue(1), DrainStarts, CapacityFails, Enqueue(1)];
    var queued := Enqueued(Empty, 1);
    assert turns[..3][..2][..1] == [Enqueue(1)] && turns[..3][..2] == [Enqueue(1), DrainStarts];
    assert turns[..3] == [Enqueue(1), DrainStarts, CapacityFails] && [Enqueue(1)][..0] == [];
    assert Run(Empty, [Enqueue(1)]) == queued && Possible(Empty, [Enqueue(1)]);
    assert queued.pending == [Replay(1)] && queued.phase == Scheduled;
    assert Run(Empty, [Enqueue(1), DrainStarts]) == LoopHead(queued);
  }

  /** First in, first out, failures and stops included: before a stop, work taken followed by work pending is
      the work accepted, in that order. */
  lemma {:induction false} FirstInFirstOut(turns: seq<Turn>)
    requires Possible(Empty, turns)
    ensures var q := Run(Empty, turns); !q.stopped ==> q.accepted == q.taken + q.pending
  {
    if turns != [] {
      var q, turn := Run(Empty, turns[..|turns| - 1]), turns[|turns| - 1];
      FirstInFirstOut(turns[..|turns| - 1]);
      match turn {
        case Enqueue(id) => Assoc(q.taken, q.pending, [Replay(id)]);
        case AskMaintenance(job) => Assoc(q.taken, q.pending, [Maintenance(job)]);
        case _ =>
          if q.pending != [] {
            assert q.pending == [q.pending[0]] + q.pending[1..];
            Assoc(q.taken, [q.pending[0]], q.pending[1..]);
          }
      }
    }
  }

  /** Idle waiters are released only when nothing is pending, and then all of them. The one exception is
      a capacity wait that throws, which releases them whatever is pending. */
  lemma ReleasedOnlyWhenIdle(q: Queue, turn: Turn, waiter: nat)
    requires Sound(q) && Enabled(q, turn)
    requires waiter in q.idleWaiters && waiter !in Taken(q, turn).idleWaiters
    ensures Taken(q, turn).idleWaiters == {}
    ensures turn.CapacityFails? || (Taken(q, turn).pending == [] && !Taken(q, turn).draining)
    ensures turn.CapacityFails? ==> Taken(q, turn).pending == q.pending
  {
  }

  /** A caller waits exactly while the drain runs or work is pending, and only callers that wait are kept. */
  lemma WaitMeans(q: Queue, waiter: nat, other: nat)
    ensures var after := Taken(q, AwaitIdle(waiter));
      && (other in after.idleWaiters <==> other in q.idleWaiters || (other == waiter && (q.draining || q.pending != [])))
      && after == q.(idleWaiters := after.idleWaiters)
  {
  }

  /** After a replay the drain yields to the event loop before the next piece of work, unless the replay was
      skipped; after maintenance it goes on at once. */
  lemma YieldsBetweenReplays(q: Queue, skipped: bool)
    requires Sound(q) && Enabled(q, WorkEnds(skipped))
    ensures var after := Taken(q, WorkEnds(skipped));
      && (after.phase == Yielding <==> q.phase.work.Replay? && !skipped && !q.stopped && q.pending != [])
      && (after.phase != Yielding ==>
            if q.stopped || q.pending == [] then after.phase == Resting && after.idleWaiters == {} && !after.draining
            else after.phase == Awaiting(q.pending[0]) && after.pending == q.pending[1..])
  {
  }

  /** Turns of the event loop left until the drain rests, if nothing new arrives. */
  function Left(q: Queue): nat {
    4 * |q.pending| + (match q.phase case Resting => 0 case Scheduled => 1 case Awaiting(_) => 3 case Working(_) => 2 case Yielding => 1)
  }

  predicate DrainTurn(turn: Turn) {
    turn.DrainStarts? || turn.CapacityArrives? || turn.CapacityFails? || turn.WorkEnds? || turn.YieldEnds?
  }

  /** While the drain is not resting one of its turns can happen, and each brings rest closer; at rest
      nothing is pending and nobody waits. */
  lemma DrainsToRest(q: Queue, turn: Turn)
    requires Sound(q)
    ensures q.phase.Resting? ==> q.pending == [] && q.idleWaiters == {} && !Enabled(q, DrainStarts)
    ensures !q.phase.Resting? ==>
      Enabled(q, DrainStarts) || Enabled(q, CapacityArrives) || Enabled(q, WorkEnds(false)) || Enabled(q, YieldEnds)
    ensures DrainTurn(turn) && Enabled(q, turn) ==> Left(Taken(q, turn)) < Left(q)
  {
  }
}
