/**
 The slots that bound concurrent key derivations: a counter and a queue, where
 a finishing job hands its counted slot to the first waiter.
 */
module KdfSlots {
  import opened Common

  /** The configured concurrency: one or two, one for anything else. */
  function Limit(configured: Option<int>): (limit: nat)
    ensures limit == 1 || limit == 2
    ensures limit == 2 <==> configured == Some(2)
  {
    if configured.Some? && 0 < configured.value <= 2 then configured.value else 1
  }

  datatype Slots = Slots(active: int, waiters: seq<nat>)

  function Acquired(s: Slots, limit: nat, job: nat): (Slots, bool) {
    if s.active < limit then (s.(active := s.active + 1), true) else (s.(waiters := s.waiters + [job]), false)
  }

  function Released(s: Slots): (Slots, Option<nat>) {
    if s.waiters != [] then (s.(waiters := s.waiters[1..]), Some(s.waiters[0])) else (s.(active := s.active - 1), None)
  }

  class KdfQueue {
    const limit: nat
    var active: int
    var waiters: seq<nat>

    function Value(): Slots
      reads this
    {
      Slots(active, waiters)
    }

    constructor (configured: Option<int>)
      ensures Value() == Slots(0, []) && limit == Limit(configured)
    {
      limit := Limit(configured);
      active, waiters := 0, [];
    }

    /** `acquireKdfSlot`: either take a free slot or wait to be handed one. */
    method Acquire(job: nat) returns (granted: bool)
      modifies this
      ensures (Value(), granted) == Acquired(old(Value()), limit, job)
    {
      if active < limit {
        active := active + 1;
        return true;
      }
      waiters := waiters + [job];
      return false;
    }

    /** The `finally` of `withKdfSlot`. */
    method Release() returns (next: Option<nat>)
      modifies this
      ensures (Value(), next) == Released(old(Value()))
    {
      if |waiters| > 0 {
        next := Some(waiters[0]);
        waiters := waiters[1..];
      } else {
        next := None;
        active := active - 1;
      }
    }
  }

  // ---------------------------------------------------------------- all interleavings

  /** Jobs in the order they arrived and in the order they were given a slot; `granted` jobs have a slot
      but have not started, `running` ones have started. */
  datatype System = System(slots: Slots, granted: set<nat>, running: set<nat>, finished: set<nat>,
                           arrived: seq<nat>, served: seq<nat>)

  const Idle: System := System(Slots(0, []), {}, {}, {}, [], [])

  datatype Step = Arrive(job: nat) | Start(job: nat) | Finish(job: nat, failed: bool)

  predicate Enabled(s: System, step: Step) {
    match step
    case Arrive(job) => job !in s.arrived
    case Start(job) => job in s.granted
    case Finish(job, _) => job in s.running
  }

  /** A failing job releases its slot exactly like a succeeding one. */
  function Next(s: System, limit: nat, step: Step): System {
    if !Enabled(s, step) then s
    else match step
      case Arrive(job) =>
        var (slots, now) := Acquired(s.slots, limit, job);
        if now then s.(slots := slots, granted := s.granted + {job}, arrived := s.arrived + [job], served := s.served + [job])
        else s.(slots := slots, arrived := s.arrived + [job])
      case Start(job) => s.(granted := s.granted - {job}, running := s.running + {job})
      case Finish(job, _) =>
        var (slots, next) := Released(s.slots);
        var t := s.(slots := slots, running := s.running - {job}, finished := s.finished + {job});
        if next.Some? then t.(granted := t.granted + {next.value}, served := t.served + [next.value]) else t
  }

  function Run(s: System, limit: nat, steps: seq<Step>): System {
    if steps == [] then s else Next(Run(s, limit, steps[..|steps| - 1]), limit, steps[|steps| - 1])
  }

  predicate Unrepeated(s: seq<nat>) { forall i, j | 0 <= i < j < |s| :: s[i] != s[j] }

  ghost predicate Inv(s: System, limit: nat) {
    // the counter is the slots held or handed over, and stays within the limit
    && s.slots.active == |s.granted| + |s.running| <= limit
    // somebody waits only while every slot is taken
    && (s.slots.waiters != [] ==> s.slots.active == limit)
    // slots are given out in the order of arrival, to everyone
    && s.arrived == s.served + s.slots.waiters && Unrepeated(s.arrived)
    && s.granted !! s.running && s.granted !! s.finished && s.running !! s.finished
    && (forall job :: job in s.served <==> job in s.granted + s.running + s.finished)
  }

  lemma ArriveKeepsInv(s: System, limit: nat, job: nat)
    requires limit > 0 && Inv(s, limit) && job !in s.arrived
    ensures Inv(Next(s, limit, Arrive(job)), limit)
  {
    Assoc(s.served, s.slots.waiters, [job]);
    if s.slots.active < limit {
      assert s.slots.waiters == [];
      assert s.served + [] == s.served && (s.served + [job]) + [] == s.served + [job];
      assert forall x :: x in s.served + [job] <==> x in s.served || x == job;
      assert |s.granted + {job}| == |s.granted| + 1;
    }
  }

  lemma NextIsNew(s: System, limit: nat)
    requires Inv(s, limit) && s.slots.waiters != []
    ensures s.slots.waiters[0] !in s.served
  {
    assert s.arrived[|s.served|] == s.slots.waiters[0];
    assert forall i | 0 <= i < |s.served| :: s.arrived[i] == s.served[i];
  }

  lemma FinishKeepsInv(s: System, limit: nat, job: nat, failed: bool)
    requires limit > 0 && Inv(s, limit) && job in s.running
    ensures Inv(Next(s, limit, Finish(job, failed)), limit)
  {
    var t := Next(s, limit, Finish(job, failed));
    assert |s.running - {job}| == |s.running| - 1;
    if s.slots.waiters != [] {
      var next := s.slots.waiters[0];
      NextIsNew(s, limit);
      HeadMoves(s.served, s.slots.waiters);
      assert |s.granted + {next}| == |s.granted| + 1;
    }
  }

  lemma HeadMoves(served: seq<nat>, waiters: seq<nat>)
    requires waiters != []
    ensures served + waiters == (served + [waiters[0]]) + waiters[1..]
    ensures forall x :: x in served + [waiters[0]] <==> x in served || x == waiters[0]
  {
  }

  lemma StepKeepsInv(s: System, limit: nat, step: Step)
    requires limit > 0 && Inv(s, limit)
    ensures Inv(Next(s, limit, step), limit)
  {
    if Enabled(s, step) {
      match step
      case Arrive(job) => ArriveKeepsInv(s, limit, job);
      case Start(job) =>
        assert |s.granted - {job}| == |s.granted| - 1;
        assert |s.running + {job}| == |s.running| + 1;
      case Finish(job, failed) => FinishKeepsInv(s, limit, job, failed);
    }
  }

  /** In every interleaving of arrivals, starts and completions, failed ones included. */
  lemma {:induction false} RunKeepsInv(s: System, limit: nat, steps: seq<Step>)
    requires limit > 0 && Inv(s, limit)
    ensures Inv(Run(s, limit, steps), limit)
  {
    if steps != [] {
      RunKeepsInv(s, limit, steps[..|steps| - 1]);
      StepKeepsInv(Run(s, limit, steps[..|steps| - 1]), limit, steps[|steps| - 1]);
    }
  }

  predicate Settling(s: System, step: Step) { !step.Arrive? && Enabled(s, step) }

  /** The starts and completions still to come when nobody else arrives. */
  function Outstanding(s: System): nat { 2 * |s.slots.waiters| + 2 * |s.granted| + |s.running| }

  lemma SettlingStep(s: System, limit: nat, step: Step)
    requires limit > 0 && Inv(s, limit) && Settling(s, step)
    ensures Outstanding(Next(s, limit, step)) == Outstanding(s) - 1
  {
    if step.Start? {
      assert |s.granted - {step.job}| == |s.granted| - 1;
      assert |s.running + {step.job}| == |s.running| + 1;
    } else {
      assert |s.running - {step.job}| == |s.running| - 1;
      if s.slots.waiters != [] {
        var next := s.slots.waiters[0];
        NextIsNew(s, limit);
        assert |s.granted + {next}| == |s.granted| + 1;
      }
    }
  }

  ghost predicate AllSettling(s: System, limit: nat, steps: seq<Step>) {
    forall i | 0 <= i < |steps| :: Settling(Run(s, limit, steps[..i]), steps[i])
  }

  /** Work drains: without new arrivals exactly the outstanding steps can happen, in whatever order, and
      when none is left the counter is zero, nobody waits, and everyone who arrived has finished. */
  lemma {:induction false} Drains(s: System, limit: nat, steps: seq<Step>)
    requires limit > 0 && Inv(s, limit) && AllSettling(s, limit, steps)
    ensures var t := Run(s, limit, steps);
      && Outstanding(t) == Outstanding(s) - |steps|
      && t.arrived == s.arrived
      && (Outstanding(t) > 0 ==> exists step :: Settling(t, step))
      && (Outstanding(t) == 0 ==> t.slots == Slots(0, []) && forall job :: job in t.arrived <==> job in t.finished)
  {
    var t := Run(s, limit, steps);
    RunKeepsInv(s, limit, steps);
    if steps != [] {
      var front := steps[..|steps| - 1];
      forall i | 0 <= i < |front| ensures Settling(Run(s, limit, front[..i]), front[i]) {
        assert front[..i] == steps[..i];
        assert Settling(Run(s, limit, steps[..i]), steps[i]);
      }
      Drains(s, limit, front);
      RunKeepsInv(s, limit, front);
      SettlingStep(Run(s, limit, front), limit, steps[|steps| - 1]);
    }
    ProgressOrRest(t, limit);
  }

  lemma ProgressOrRest(t: System, limit: nat)
    requires limit > 0 && Inv(t, limit)
    ensures Outstanding(t) > 0 ==> exists step :: Settling(t, step)
    ensures Outstanding(t) == 0 ==> t.slots == Slots(0, []) && forall job :: job in t.arrived <==> job in t.finished
  {
    if Outstanding(t) > 0 {
      if t.granted != {} {
        var job := Member(t.granted);
        assert Settling(t, Start(job));
      } else {
        assert t.running != {};
        var job := Member(t.running);
        assert Settling(t, Finish(job, false));
      }
    } else {
      assert t.arrived == t.served + [] == t.served;
    }
  }
}
