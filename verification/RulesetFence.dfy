/**
 The ruleset fence: one configuration row decides which ruleset may create
 rooms. Creating transactions hold the row in share mode from the check to
 their commit; initialising the fence and cutting over take it exclusively.
 */
module RulesetFence {
  import opened Common

  const MAX_VERSION := 160

  datatype Room = Room(ruleset: string, version: nat)
  datatype Status = Recording | Finalizing | Ready
  datatype Replay = Replay(ruleset: string, status: Status)

  datatype Db = Db(active: Option<string>, generation: nat, rooms: map<string, Room>, replays: map<string, Replay>)

  datatype Outcome = Accepted | Fenced(active: string, requested: string) | InvalidConfiguration | MultipleRulesets | MissingVersion

  /** The room event announced for every room removed by a cutover. */
  datatype Deleted = Deleted(code: string, version: nat)

  predicate Decodes(version: string) { 1 <= |version| <= MAX_VERSION }

  function Rulesets(rooms: map<string, Room>): set<string> { set code | code in rooms :: rooms[code].ruleset }

  /** `assertActiveRuleset`. */
  function Checked(db: Db, ruleset: string): Outcome {
    if db.active.None? then Accepted
    else if !Decodes(db.active.value) then InvalidConfiguration
    else if db.active.value != ruleset then Fenced(db.active.value, ruleset) else Accepted
  }

  /** Every stored room was written by this ruleset, and its name can be read back from a room. */
  predicate OnlyRuleset(rooms: map<string, Room>, ruleset: string) {
    (forall code :: code in rooms ==> rooms[code].ruleset == ruleset) && (rooms != map[] ==> Decodes(ruleset))
  }

  /** The fence accepts this binary. */
  predicate Agrees(db: Db, ruleset: string) {
    ruleset != "" && (if db.active.Some? then db.active.value == ruleset && Decodes(ruleset) else OnlyRuleset(db.rooms, ruleset))
  }

  function Compatible(rooms: map<string, Room>, ruleset: string): map<string, Room> {
    map code | code in rooms && rooms[code].ruleset == ruleset :: rooms[code]
  }

  function CompatibleReplays(replays: map<string, Replay>, ruleset: string): map<string, Replay> {
    map id | id in replays && (replays[id].status.Ready? || replays[id].ruleset == ruleset) :: replays[id]
  }

  function Activated(db: Db, ruleset: string): Db {
    Db(Some(ruleset), db.generation + 1, Compatible(db.rooms, ruleset), CompatibleReplays(db.replays, ruleset))
  }

  /** One announcement for every removed room and no other, at the version after its last one. */
  predicate Announces(events: seq<Deleted>, before: map<string, Room>, ruleset: string) {
    && (forall i | 0 <= i < |events| :: IsRemoval(events[i], before, ruleset))
    && (forall i, j | 0 <= i < j < |events| :: events[i].code != events[j].code)
    && (forall code :: code in before && before[code].ruleset != ruleset ==> Deleted(code, before[code].version + 1) in events)
  }

  predicate IsRemoval(e: Deleted, before: map<string, Room>, ruleset: string) {
    e.code in before && before[e.code].ruleset != ruleset && e.version == before[e.code].version + 1
  }

  class Fence {
    var active: Option<string>
    var generation: nat
    var rooms: map<string, Room>
    var replays: map<string, Replay>
    var announced: seq<Deleted>

    function Value(): Db
      reads this
    {
      Db(active, generation, rooms, replays)
    }

    /** The migrated, uninitialised fence over whatever rooms the database already holds. */
    constructor (rooms: map<string, Room>, replays: map<string, Replay>)
      ensures Value() == Db(None, 0, rooms, replays) && announced == []
    {
      active, generation, announced := None, 0, [];
      this.rooms, this.replays := rooms, replays;
    }

    /** `ensureActiveRuleset`: the fence is written before the refusal is known, and a refusal rolls it back. */
    method EnsureActive(ruleset: string) returns (outcome: Outcome)
      modifies this`active, this`generation
      ensures outcome.Accepted? <==> Agrees(old(Value()), ruleset)
      ensures Value() == Ensured(old(Value()), ruleset)
      ensures active == if outcome.Accepted? then Some(ruleset) else old(active)
      ensures generation == old(generation) + if outcome.Accepted? && old(active).None? then 1 else 0
      ensures old(active).Some? ==> outcome == if ruleset == "" then MissingVersion else Checked(old(Value()), ruleset)
    {
      if ruleset == "" { return MissingVersion; }
      var savedActive, savedGeneration := active, generation;
      var current := active;
      if current.Some? && !Decodes(current.value) { return InvalidConfiguration; }
      if current.None? {
        var existing := Rulesets(rooms);
        if |existing| > 1 { ManyRulesets(rooms, ruleset); return MultipleRulesets; }
        if |existing| == 1 {
          ghost var any := Member(existing);
          var only :| only in existing;
          OneRuleset(rooms, only);
          if !Decodes(only) { return InvalidConfiguration; }
          current := Some(only);
        }
        active := Some(if current.Some? then current.value else ruleset);
        generation := generation + 1;
        if current.None? || current.value == ruleset {
          if current.None? { NoRulesets(rooms); }
          return Accepted;
        }
      }
      if current.value != ruleset {
        active, generation := savedActive, savedGeneration;
        return Fenced(current.value, ruleset);
      }
      return Accepted;
    }

    /** `activateRuleset`. */
    method Activate(ruleset: string) returns (outcome: Outcome, removed: seq<Deleted>)
      modifies this
      ensures outcome == if ruleset == "" then MissingVersion else Accepted
      ensures Value() == if outcome.Accepted? then Activated(old(Value()), ruleset) else old(Value())
      ensures outcome.Accepted? ==> Announces(removed, old(rooms), ruleset)
      ensures announced == old(announced) + removed
    {
      removed := [];
      if ruleset == "" { return MissingVersion, []; }
      var before := rooms;
      var gone := set code | code in rooms && rooms[code].ruleset != ruleset;
      rooms := Compatible(rooms, ruleset);
      replays := CompatibleReplays(replays, ruleset);
      active := Some(ruleset);
      generation := generation + 1;
      while gone != {}
        invariant gone <= before.Keys && forall code :: code in gone ==> before[code].ruleset != ruleset
        invariant forall i | 0 <= i < |removed| :: IsRemoval(removed[i], before, ruleset) && removed[i].code !in gone
        invariant forall i, j | 0 <= i < j < |removed| :: removed[i].code != removed[j].code
        invariant forall code :: code in before && before[code].ruleset != ruleset && code !in gone
                                 ==> Deleted(code, before[code].version + 1) in removed
        decreases gone
        modifies {}
      {
        ghost var any := Member(gone);
        var code :| code in gone;
        removed := removed + [Deleted(code, before[code].version + 1)];
        gone := gone - {code};
      }
      announced := announced + removed;
      return Accepted, removed;
    }
  }

  lemma OneRuleset(rooms: map<string, Room>, only: string)
    requires |Rulesets(rooms)| == 1 && only in Rulesets(rooms)
    ensures rooms != map[] && forall code :: code in rooms ==> rooms[code].ruleset == only
  {
    forall code | code in rooms ensures rooms[code].ruleset == only {
      assert rooms[code].ruleset in Rulesets(rooms);
      if rooms[code].ruleset != only {
        assert {only, rooms[code].ruleset} <= Rulesets(rooms);
        SubsetSize({only, rooms[code].ruleset}, Rulesets(rooms));
      }
    }
  }

  lemma {:induction false} SubsetSize<T>(a: set<T>, b: set<T>)
    requires a <= b
    ensures |a| <= |b|
  {
    if a != {} {
      var x := Member(a);
      SubsetSize(a - {x}, b - {x});
    }
  }

  lemma NoRulesets(rooms: map<string, Room>)
    requires |Rulesets(rooms)| == 0
    ensures rooms == map[]
  {
    assert forall code :: code in rooms ==> rooms[code].ruleset in Rulesets(rooms);
  }

  lemma ManyRulesets(rooms: map<string, Room>, ruleset: string)
    requires |Rulesets(rooms)| > 1
    ensures !OnlyRuleset(rooms, ruleset)
  {
    if OnlyRuleset(rooms, ruleset) {
      assert Rulesets(rooms) <= {ruleset};
      SubsetSize(Rulesets(rooms), {ruleset});
      assert false;
    }
  }

  // ---------------------------------------------------------------- what the answers and the cutover mean

  /** Creating a room is let in without an active ruleset or under the active one, when its name has 1 to 160
      characters; a refusal names the active ruleset and the one asked for. */
  lemma CheckMeans(db: Db, ruleset: string)
    ensures Checked(db, ruleset) ==
      match db.active
      case None => Accepted
      case Some(active) =>
        if active == "" || |active| > 160 then InvalidConfiguration
        else if active == ruleset then Accepted else Fenced(active, ruleset)
  {
  }

  /** A binary passes when the fence names its ruleset, or when nothing is active yet and every stored room is
      its own; only then, and only in the second case, the fence is written. */
  lemma EnsureMeans(db: Db, ruleset: string)
    ensures Agrees(db, ruleset) ==> ruleset != ""
    ensures ruleset != "" && db.active.Some? ==> (Agrees(db, ruleset) <==> db.active.value == ruleset && |ruleset| <= 160)
    ensures ruleset != "" && db.active.None? ==>
      (Agrees(db, ruleset) <==> forall code :: code in db.rooms ==> db.rooms[code].ruleset == ruleset && |ruleset| <= 160)
    ensures var db' := Ensured(db, ruleset);
      && db'.rooms == db.rooms && db'.replays == db.replays
      && (if db.active == None && Agrees(db, ruleset) then db'.active == Some(ruleset) && db'.generation == db.generation + 1
          else db'.active == db.active && db'.generation == db.generation)
  {
    if db.rooms != map[] {
      var code := Member(db.rooms.Keys);
      assert code in db.rooms;
    }
  }

  /** A cutover leaves exactly the rooms of the new ruleset, the replays of the new ruleset, and every ready
      replay. */
  lemma ActivateMeans(db: Db, ruleset: string)
    ensures var db' := Activated(db, ruleset);
      && db'.active == Some(ruleset) && db'.generation == db.generation + 1
      && (forall code :: code in db'.rooms <==> code in db.rooms && db.rooms[code].ruleset == ruleset)
      && (forall code :: code in db'.rooms ==> db'.rooms[code] == db.rooms[code])
      && (forall id :: id in db'.replays <==> id in db.replays && (db.replays[id].ruleset == ruleset || db.replays[id].status == Ready))
      && (forall id :: id in db'.replays ==> db'.replays[id] == db.replays[id])
  {
  }

  // ---------------------------------------------------------------- interleaved transactions

  /** A creating transaction that passed the check, with the rooms it has inserted so far. */
  datatype Tx = Tx(ruleset: string, inserted: map<string, Room>)

  /** The configuration row is held in share mode exactly by the open transactions. */
  datatype System = System(db: Db, open: map<nat, Tx>)

  datatype Step = Check(tx: nat, ruleset: string) | InsertRoom(tx: nat, code: string) | Commit(tx: nat) | Abort(tx: nat)
                | Ensure(ruleset: string) | Activate(ruleset: string) | RemoveRoom(code: string)
                | BumpRoom(code: string) | StartReplay(id: string, ruleset: string) | Advance(id: string, status: Status)

  function Ensured(db: Db, ruleset: string): Db {
    if Agrees(db, ruleset) && db.active.None? then db.(active := Some(ruleset), generation := db.generation + 1) else db
  }

  function Next(s: System, step: Step): System {
    match step
    case Check(tx, ruleset) =>
      if tx !in s.open && Checked(s.db, ruleset).Accepted? then s.(open := s.open[tx := Tx(ruleset, map[])]) else s
    case InsertRoom(tx, code) =>
      if tx in s.open && code !in s.db.rooms
      then s.(open := s.open[tx := s.open[tx].(inserted := s.open[tx].inserted[code := Room(s.open[tx].ruleset, 0)])]) else s
    case Commit(tx) =>
      if tx in s.open then System(s.db.(rooms := s.db.rooms + s.open[tx].inserted), s.open - {tx}) else s
    case Abort(tx) => s.(open := s.open - {tx})
    case Ensure(ruleset) => if s.open == map[] then s.(db := Ensured(s.db, ruleset)) else s
    case Activate(ruleset) => if s.open == map[] && ruleset != "" then s.(db := Activated(s.db, ruleset)) else s
    case RemoveRoom(code) => s.(db := s.db.(rooms := s.db.rooms - {code}))
    case BumpRoom(code) =>
      if code in s.db.rooms
      then s.(db := s.db.(rooms := s.db.rooms[code := s.db.rooms[code].(version := s.db.rooms[code].version + 1)])) else s
    case StartReplay(id, ruleset) => s.(db := s.db.(replays := s.db.replays[id := Replay(ruleset, Recording)]))
    case Advance(id, status) =>
      if id in s.db.replays then s.(db := s.db.(replays := s.db.replays[id := s.db.replays[id].(status := status)])) else s
  }

  function Run(s: System, steps: seq<Step>): System {
    if steps == [] then s else Next(Run(s, steps[..|steps| - 1]), steps[|steps| - 1])
  }

  predicate AllCarry(rooms: map<string, Room>, ruleset: string) { forall code :: code in rooms ==> rooms[code].ruleset == ruleset }

  /** Every stored room, and every room about to be stored, carries the active ruleset once there is one. */
  predicate Fencing(s: System) {
    && (forall tx :: tx in s.open ==> AllCarry(s.open[tx].inserted, s.open[tx].ruleset))
    && (s.db.active.Some? ==> AllCarry(s.db.rooms, s.db.active.value))
    && (s.db.active.Some? ==> forall tx :: tx in s.open ==> s.open[tx].ruleset == s.db.active.value)
  }

  lemma StepFences(s: System, step: Step)
    requires Fencing(s)
    ensures Fencing(Next(s, step))
    ensures s.db.generation <= Next(s, step).db.generation
    ensures s.db.active.Some? ==> Next(s, step).db.active.Some?
    ensures Next(s, step).db.active != s.db.active ==> Next(s, step).db.generation == s.db.generation + 1 && s.open == map[]
  {
  }

  /** Starting from an uninitialised fence over any rooms at all, in every interleaving: once a ruleset
      is active every stored room carries it, the generation never decreases, and a set fence stays set. */
  lemma {:induction false} RunFences(s: System, steps: seq<Step>)
    requires Fencing(s)
    ensures var t := Run(s, steps);
      && Fencing(t) && s.db.generation <= t.db.generation && (s.db.active.Some? ==> t.db.active.Some?)
      && (t.db.generation == s.db.generation ==> t.db.active == s.db.active)
  {
    if steps != [] {
      RunFences(s, steps[..|steps| - 1]);
      StepFences(Run(s, steps[..|steps| - 1]), steps[|steps| - 1]);
    }
  }

  /** A room is stored under a ruleset only by a transaction whose check passed under the ruleset that is
      still active when it commits: no cutover fits between the check and the insert. */
  lemma {:induction false} CreationSeesOneRuleset(s: System, steps: seq<Step>, tx: nat)
    requires Fencing(s) && tx in s.open
    requires forall i | 0 <= i < |steps| :: steps[i] != Commit(tx) && steps[i] != Abort(tx)
    ensures var t := Run(s, steps);
      && tx in t.open && t.open[tx].ruleset == s.open[tx].ruleset
      && t.db.active == s.db.active && t.db.generation == s.db.generation
  {
    if steps != [] {
      CreationSeesOneRuleset(s, steps[..|steps| - 1], tx);
    }
  }

  /** After a cutover the fence lets in exactly the new ruleset, and nobody at all when its name is
      longer than the configuration decoder accepts. */
  lemma CutoverAdmits(db: Db, ruleset: string, requested: string)
    requires ruleset != ""
    ensures Agrees(Activated(db, ruleset), requested) <==> requested == ruleset && |ruleset| <= MAX_VERSION
    ensures Checked(Activated(db, ruleset), requested).Accepted? <==> requested == ruleset && |ruleset| <= MAX_VERSION
  {
  }

  /** Such a cutover, with a name of 161 letters over an empty database. */
  lemma ACutoverAdmitsNobody(requested: string)
    ensures var name := seq(161, i => 'r');
      var before := Db(Some("r1"), 1, map[], map[]);
      Agrees(before, "r1") && !Agrees(Activated(before, name), requested) && Checked(Activated(before, name), requested) == InvalidConfiguration
  {
    CutoverAdmits(Db(Some("r1"), 1, map[], map[]), seq(161, i => 'r'), requested);
  }
}
