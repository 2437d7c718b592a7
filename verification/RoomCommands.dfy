/**
 The browser's room command pipeline: one gated mutation in flight, with defender
 staging coalesced behind it, and the version gate that supplies expected versions.
 */
module RoomCommands {
  import opened Common
  import opened VersionGate

  /** A gated command as sent; `stage` is the desired defender set of a staging command. */
  datatype Command = Command(expectedVersion: int, stage: Option<set<int>>)

  /** The pending decision of a state message, as far as staging reads it. */
  datatype Decision = NoDecision | OtherDecision | Defend(player: int, staged: seq<int>)

  datatype StateMessage = StateMessage(version: int, yourSeat: int, decision: Decision, stageable: set<int>)

  /** The pipeline's variables. `sent` lists what went out on the socket, and `outstanding` the sent
      commands that no newer state and no reset has answered yet. */
  datatype Client = Client(
    gate: Gate,
    inFlight: Option<Command>,
    queued: Option<set<int>>,
    shown: Option<set<int>>,
    commandPending: bool,
    decision: Decision,
    replayScreen: bool,
    socketOpen: bool,
    sent: seq<Command>,
    outstanding: seq<Command>)

  function Elements(ids: seq<int>): set<int> { set id | id in ids }

  predicate Distinct(ids: seq<int>) { forall i, j | 0 <= i < j < |ids| :: ids[i] != ids[j] }

  /** `sameInstanceIds`: equal lengths, and every right id on the left. */
  predicate SameInstanceIds(left: set<int>, right: seq<int>) {
    |left| == |right| && forall i | 0 <= i < |right| :: right[i] in left
  }

  /** Between duplicate-free lists the comparison is set equality. */
  lemma {:induction false} SameInstanceIdsIsEquality(left: set<int>, right: seq<int>)
    requires Distinct(right)
    ensures SameInstanceIds(left, right) <==> left == Elements(right)
  {
    DistinctSize(right);
    if SameInstanceIds(left, right) {
      SubsetOfEqualSize(Elements(right), left);
    }
  }

  lemma {:induction false} DistinctSize(ids: seq<int>)
    requires Distinct(ids)
    ensures |Elements(ids)| == |ids|
  {
    if ids != [] {
      DistinctSize(ids[1..]);
      assert Elements(ids) == Elements(ids[1..]) + {ids[0]};
    }
  }

  lemma {:induction false} SubsetOfEqualSize(a: set<int>, b: set<int>)
    requires a <= b && |a| == |b|
    ensures a == b
  {
    assert b == a + (b - a);
    assert |b - a| == 0;
  }

  function Authoritative(decision: Decision): set<int> {
    if decision.Defend? then Elements(decision.staged) else {}
  }

  function OrElse<T>(a: Option<T>, b: Option<T>): Option<T> { if a.Some? then a else b }

  /** What the player sees: the optimistic set, or the authoritative one. */
  function Presented(c: Client): set<int> {
    if c.shown.Some? then c.shown.value else Authoritative(c.decision)
  }

  function InFlightStage(c: Client): Option<set<int>> {
    if c.inFlight.Some? then c.inFlight.value.stage else None
  }

  /** The set the pipeline is heading for. */
  function Heading(c: Client): set<int> {
    var known := OrElse(c.shown, OrElse(c.queued, InFlightStage(c)));
    if known.Some? then known.value else Authoritative(c.decision)
  }

  /** The click's additions and removals, relative to what was presented, applied to the heading. */
  function Merged(c: Client, requested: set<int>): set<int> {
    (Heading(c) - (Presented(c) - requested)) + (requested - Presented(c))
  }

  function Sending(c: Client, stage: Option<set<int>>): Client {
    if c.inFlight.Some? || !c.socketOpen then c
    else
      var command := Command(c.gate.latest, stage);
      c.(inFlight := Some(command), commandPending := true,
         sent := c.sent + [command], outstanding := c.outstanding + [command])
  }

  function Staging(c: Client, requested: set<int>): Client {
    var desired := Merged(c, requested);
    if c.inFlight.Some? then
      c.(queued := if c.inFlight.value.stage == Some(desired) then None else Some(desired), shown := Some(desired))
    else
      var next := Sending(c.(queued := None), Some(desired));
      if c.socketOpen then next.(shown := Some(desired)) else next
  }

  /** Revalidation of the queued set against a newer projection. */
  function ToFlush(c: Client, m: StateMessage): Option<set<int>> {
    if c.queued.None? || c.replayScreen then None
    else if !m.decision.Defend? || m.decision.player != m.yourSeat || !(c.queued.value <= m.stageable) then None
    else if SameInstanceIds(c.queued.value, m.decision.staged) then None
    else c.queued
  }

  predicate Acknowledges(c: Client, m: StateMessage) {
    c.inFlight.Some? && m.version > c.inFlight.value.expectedVersion
  }

  /** Commands a state message answers. */
  function StillOutstanding(commands: seq<Command>, version: int): seq<Command> {
    if commands == [] then []
    else (if version <= commands[0].expectedVersion then [commands[0]] else []) + StillOutstanding(commands[1..], version)
  }

  function Receiving(c: Client, m: StateMessage): Client {
    if !Accepts(c.gate, "state", m.version) then c.(gate := Next(c.gate, "state", m.version))
    else
      var flush := if Acknowledges(c, m) then ToFlush(c, m) else None;
      var acked := c.(
        gate := Next(c.gate, "state", m.version),
        outstanding := StillOutstanding(c.outstanding, m.version),
        inFlight := if Acknowledges(c, m) then None else c.inFlight,
        queued := if Acknowledges(c, m) then None else c.queued,
        shown := if Acknowledges(c, m) then flush else c.shown,
        commandPending := if Acknowledges(c, m) then false else c.commandPending);
      if c.replayScreen then acked
      else
        var viewed := acked.(decision := m.decision);
        if flush.Some? then Staging(viewed, flush.value) else viewed
  }

  /** `resetRoomCommandPipeline`. */
  function Resetting(c: Client): Client {
    c.(inFlight := None, queued := None, shown := None, commandPending := false, outstanding := [])
  }

  method DeleteUnrequested(start: set<int>, presented: set<int>, requested: set<int>) returns (desired: set<int>)
    ensures desired == start - (presented - requested)
  {
    desired := start;
    var todo := presented;
    while todo != {}
      invariant todo <= presented
      invariant desired == start - ((presented - todo) - requested)
      decreases todo
    {
      ghost var any' := Member(todo);
      var id :| id in todo;
      if id !in requested { desired := desired - {id}; }
      todo := todo - {id};
    }
  }

  method AddUnpresented(start: set<int>, presented: set<int>, requested: set<int>) returns (desired: set<int>)
    ensures desired == start + (requested - presented)
  {
    desired := start;
    var todo := requested;
    while todo != {}
      invariant todo <= requested
      invariant desired == start + ((requested - todo) - presented)
      decreases todo
    {
      ghost var any' := Member(todo);
      var id :| id in todo;
      if id !in presented { desired := desired + {id}; }
      todo := todo - {id};
    }
  }

  /** The pipeline as the store runs it, variable by variable. */
  class Pipeline {
    const roomVersions: RoomVersionGate
    var inFlight: Option<Command>
    var queued: Option<set<int>>
    var shown: Option<set<int>>
    var commandPending: bool
    var decision: Decision
    var replayScreen: bool
    var socketOpen: bool
    var sent: seq<Command>
    ghost var outstanding: seq<Command>

    ghost function Value(): Client
      reads this, roomVersions
    {
      Client(roomVersions.Value(), inFlight, queued, shown, commandPending, decision, replayScreen, socketOpen, sent, outstanding)
    }

    constructor (gate: RoomVersionGate)
      ensures roomVersions == gate && fresh(this)
      ensures Value() == Client(gate.Value(), None, None, None, false, NoDecision, false, false, [], [])
    {
      roomVersions := gate;
      inFlight, queued, shown, commandPending := None, None, None, false;
      decision, replayScreen, socketOpen := NoDecision, false, false;
      sent, outstanding := [], [];
    }

    method MergedDefenderStageIds(requested: set<int>) returns (desired: set<int>)
      ensures desired == Merged(Value(), requested)
    {
      var presented := if shown.Some? then shown.value else Authoritative(decision);
      desired := if shown.Some? then shown.value
                 else if queued.Some? then queued.value
                 else if inFlight.Some? && inFlight.value.stage.Some? then inFlight.value.stage.value
                 else Authoritative(decision);
      desired := DeleteUnrequested(desired, presented, requested);
      desired := AddUnpresented(desired, presented, requested);
    }

    method SendVersionedRoomCommand(stage: Option<set<int>>) returns (accepted: bool)
      modifies this
      ensures Value() == Sending(old(Value()), stage)
      ensures accepted == (old(inFlight).None? && socketOpen)
    {
      if inFlight.Some? { return false; }
      var command := Command(roomVersions.latest, stage);
      if !socketOpen { return false; }
      sent := sent + [command];
      outstanding := outstanding + [command];
      inFlight := Some(command);
      commandPending := true;
      return true;
    }

    method QueueOrSendDefenderStage(requested: set<int>) returns (accepted: bool)
      modifies this
      ensures Value() == Staging(old(Value()), requested)
      ensures accepted == (old(inFlight).Some? || socketOpen)
    {
      var desired := MergedDefenderStageIds(requested);
      if inFlight.Some? {
        queued := if inFlight.value.stage.Some? && desired == inFlight.value.stage.value then None else Some(desired);
        shown := Some(desired);
        return true;
      }
      queued := None;
      accepted := SendVersionedRoomCommand(Some(desired));
      if accepted { shown := Some(desired); }
    }

    method AcceptRoomCommandState(m: StateMessage) returns (acknowledged: bool, defenderStageIds: Option<set<int>>)
      modifies this`inFlight, this`queued
      ensures acknowledged == Acknowledges(old(Value()), m)
      ensures acknowledged ==> inFlight == None && queued == None && defenderStageIds == ToFlush(old(Value()), m)
      ensures !acknowledged ==> inFlight == old(inFlight) && queued == old(queued) && defenderStageIds == None
    {
      if inFlight.None? || m.version <= inFlight.value.expectedVersion { return false, None; }
      inFlight := None;
      var desired := queued;
      queued := None;
      if desired.None? || replayScreen { return true, None; }
      if !m.decision.Defend? || m.decision.player != m.yourSeat || !(desired.value <= m.stageable) { return true, None; }
      return true, if SameInstanceIds(desired.value, m.decision.staged) then None else desired;
    }

    method OnState(m: StateMessage)
      modifies this, roomVersions
      ensures Value() == Receiving(old(Value()), m)
    {
      var accepted := roomVersions.Accept("state", m.version);
      if !accepted { return; }
      var acknowledged, ids := AcceptRoomCommandState(m);
      outstanding := StillOutstanding(outstanding, m.version);
      if acknowledged {
        commandPending := false;
        shown := ids;
      }
      if replayScreen { return; }
      decision := m.decision;
      if ids.Some? {
        var _ := QueueOrSendDefenderStage(ids.value);
      }
    }

    method ResetRoomCommandPipeline()
      modifies this
      ensures Value() == Resetting(old(Value()))
    {
      inFlight, queued := None, None;
      outstanding := [];
      if commandPending || shown.Some? {
        commandPending, shown := false, None;
      }
    }
  }

  // ---------------------------------------------------------------- every run of the client

  /** Everything that can happen to the pipeline. */
  datatype Happening =
    | Click(requested: set<int>)
    | GatedCommand
    | State(message: StateMessage)
    | OtherVersioned(kind: string, version: int)
    | Reset
    | Rejoin
    | Screen(replay: bool)
    | Socket(open: bool)

  function Happened(c: Client, h: Happening): Client {
    match h
    case Click(requested) => Staging(c, requested)
    case GatedCommand => Sending(c, None)
    case State(m) => Receiving(c, m)
    case OtherVersioned(kind, version) => c.(gate := Next(c.gate, kind, version))
    case Reset => Resetting(c)
    case Rejoin => Resetting(c.(gate := Closed))
    case Screen(replay) => c.(replayScreen := replay)
    case Socket(open) => c.(socketOpen := open)
  }

  /** At most one gated command is unanswered, and a queued or in-flight staging set is what the
      player sees. */
  ghost predicate Sound(c: Client) {
    && c.outstanding == (if c.inFlight.Some? then [c.inFlight.value] else [])
    && c.commandPending == c.inFlight.Some?
    && (c.queued.Some? ==> c.inFlight.Some? && c.shown == c.queued)
    && (c.queued.None? && InFlightStage(c).Some? ==> c.shown == InFlightStage(c))
  }

  function Run(c: Client, happenings: seq<Happening>): Client {
    if happenings == [] then c else Happened(Run(c, happenings[..|happenings| - 1]), happenings[|happenings| - 1])
  }

  lemma StagingSound(c: Client, requested: set<int>)
    requires Sound(c)
    ensures Sound(Staging(c, requested)) && Staging(c, requested).gate == c.gate
  {
  }

  lemma ReceivingSound(c: Client, m: StateMessage)
    requires Sound(c)
    ensures Sound(Receiving(c, m)) && Receiving(c, m).gate.latest >= c.gate.latest
  {
    if c.inFlight.Some? { assert StillOutstanding(c.outstanding[1..], m.version) == []; }
    if Accepts(c.gate, "state", m.version) && Acknowledges(c, m) && ToFlush(c, m).Some? {
      StagingSound(c.(gate := Next(c.gate, "state", m.version), outstanding := [], inFlight := None, queued := None,
                      shown := ToFlush(c, m), commandPending := false, decision := m.decision), ToFlush(c, m).value);
    }
  }

  lemma StepSound(c: Client, h: Happening)
    requires Sound(c)
    ensures Sound(Happened(c, h))
    ensures !h.Reset? && !h.Rejoin? ==> Happened(c, h).gate.latest >= c.gate.latest
  {
    match h {
      case Click(requested) => StagingSound(c, requested);
      case State(m) => ReceivingSound(c, m);
      case _ =>
    }
  }

  /** Any interleaving of clicks, commands, messages and resets. */
  lemma {:induction false} RunSound(c: Client, happenings: seq<Happening>)
    requires Sound(c)
    ensures Sound(Run(c, happenings)) && |Run(c, happenings).outstanding| <= 1
  {
    if happenings != [] {
      RunSound(c, happenings[..|happenings| - 1]);
      StepSound(Run(c, happenings[..|happenings| - 1]), happenings[|happenings| - 1]);
    }
  }

  /** Last click wins: although a click is merged as a delta, in every reachable state the pipeline
      heads for exactly the set the player asked for. */
  lemma LastClickWins(c: Client, requested: set<int>)
    requires Sound(c)
    ensures Merged(c, requested) == requested
    ensures c.inFlight.Some? || c.socketOpen ==> Presented(Staging(c, requested)) == requested
  {
    assert Merged(c, requested) == (Presented(c) - (Presented(c) - requested)) + (requested - Presented(c));
  }

  /** The newest version the messages since the last rejoin have named. */
  function Newest(latest: int, happenings: seq<Happening>): int {
    if happenings == [] then latest
    else
      var before := Newest(latest, happenings[..|happenings| - 1]);
      match happenings[|happenings| - 1]
      case State(m) => if m.version > before then m.version else before
      case OtherVersioned(_, version) => if version > before then version else before
      case Rejoin => -1
      case _ => before
  }

  lemma {:induction false} GateIsNewest(c: Client, happenings: seq<Happening>)
    ensures Run(c, happenings).gate.latest == Newest(c.gate.latest, happenings)
  {
    if happenings != [] {
      GateIsNewest(c, happenings[..|happenings| - 1]);
      GateAfter(Run(c, happenings[..|happenings| - 1]), happenings[|happenings| - 1]);
    }
  }

  lemma GateAfter(c: Client, h: Happening)
    ensures Happened(c, h).gate.latest ==
      match h
      case State(m) => if m.version > c.gate.latest then m.version else c.gate.latest
      case OtherVersioned(_, version) => if version > c.gate.latest then version else c.gate.latest
      case Rejoin => -1
      case _ => c.gate.latest
  {
  }

  /** What one happening sends: nothing, or one command, which is then the one in flight. */
  lemma SendsAtMostOne(c: Client, h: Happening)
    requires Sound(c)
    ensures var after := Happened(c, h);
      after.sent == c.sent
      || (after.inFlight.Some? && after.sent == c.sent + [after.inFlight.value] && after.inFlight.value.expectedVersion == after.gate.latest)
  {
    if h.State? && c.inFlight.Some? { assert StillOutstanding(c.outstanding[1..], h.message.version) == []; }
  }

  /** In every run each command goes out at the newest version known at that moment, whatever kind of
      command it is and whatever sends it. */
  lemma {:induction false} SentAtNewest(c: Client, happenings: seq<Happening>)
    requires Sound(c) && happenings != []
    ensures var before, after := Run(c, happenings[..|happenings| - 1]), Run(c, happenings);
      after.sent == before.sent
      || (after.inFlight.Some? && after.sent == before.sent + [after.inFlight.value]
          && after.inFlight.value.expectedVersion == Newest(c.gate.latest, happenings))
  {
    RunSound(c, happenings[..|happenings| - 1]);
    SendsAtMostOne(Run(c, happenings[..|happenings| - 1]), happenings[|happenings| - 1]);
    GateIsNewest(c, happenings);
  }

  // ---------------------------------------------------------------- the browser, the wire and the room

  /** What the room sends: its state, or the refusal of a command. A stale command is answered with a
      demand to reload, an illegal one with a plain error. */
  datatype Downlink = Update(m: StateMessage) | Refusal(reload: bool)

  /** The system while one seat defends. `since` is the version at which this seat last changed the staged
      cards, `announced` the newest version sent to this browser, `wanted` the set the seat last asked for,
      by a click or by another command that took effect; `lost` says that the browser has given it up. */
  datatype System = System(client: Client, version: nat, since: int, announced: int, staged: seq<int>,
                           uplink: seq<Command>, downlink: seq<Downlink>, wanted: set<int>, lost: bool)

  /** What the browser put on the wire by moving from one state to another. */
  function NewlySent(before: Client, after: Client): seq<Command> {
    if |before.sent| <= |after.sent| then after.sent[|before.sent|..] else []
  }

  ghost predicate Clicked(s: System, s': System, requested: set<int>) {
    var client := Staging(s.client, requested);
    s' == s.(client := client, wanted := requested, lost := false, uplink := s.uplink + NewlySent(s.client, client))
  }

  /** Any other gated command, an undo for instance: it goes out if nothing is in flight. */
  ghost predicate GatedSent(s: System, s': System) {
    var client := Sending(s.client, None);
    s' == s.(client := client, uplink := s.uplink + NewlySent(s.client, client))
  }

  /** The server applies the next stage command, in whatever order it keeps the cards; it does so only
      at the version the command expects. */
  ghost predicate ServerApplied(s: System, s': System, order: seq<int>) {
    && s.uplink != [] && s.uplink[0].stage.Some? && s.uplink[0].expectedVersion == s.version
    && Distinct(order) && Elements(order) == s.uplink[0].stage.value
    && s' == s.(version := s.version + 1, since := s.version + 1, staged := order, uplink := s.uplink[1..])
  }

  /** The server applies another gated command at the version it expects. Whatever it does to the staged
      cards is what the seat asked for, unless a click has come after it. */
  ghost predicate GatedApplied(s: System, s': System, order: seq<int>) {
    && s.uplink != [] && s.uplink[0].stage.None? && s.uplink[0].expectedVersion == s.version && Distinct(order)
    && s' == s.(version := s.version + 1, since := s.version + 1, staged := order, uplink := s.uplink[1..],
                wanted := if s.client.shown.Some? then s.wanted else Elements(order))
  }

  /** A stale command is always refused; one at the right version may be, as illegal. */
  ghost predicate ServerRefused(s: System, s': System) {
    && s.uplink != []
    && s' == s.(uplink := s.uplink[1..], downlink := s.downlink + [Refusal(s.uplink[0].expectedVersion != s.version)])
  }

  /** Anybody else commits: the opponent, a spectator, a reconnect. */
  ghost predicate OthersCommitted(s: System, s': System) { s' == s.(version := s.version + 1) }

  /** The state of the room as a message now. */
  ghost predicate Current(s: System, m: StateMessage) {
    m.version == s.version && m.decision.Defend? && m.decision.player == m.yourSeat
    && Distinct(m.decision.staged) && Elements(m.decision.staged) == Elements(s.staged)
  }

  /** The room's state is sent, for every commit or only for some. */
  ghost predicate Announced(s: System, s': System, m: StateMessage) {
    Current(s, m) && s' == s.(announced := s.version, downlink := s.downlink + [Update(m)])
  }

  /** The update makes the browser drop the set it had queued. */
  predicate GivesUp(c: Client, m: StateMessage) {
    Accepts(c.gate, "state", m.version) && Acknowledges(c, m) && c.queued.Some? && !(c.queued.value <= m.stageable)
  }

  ghost predicate UpdateArrived(s: System, s': System) {
    && s.downlink != [] && s.downlink[0].Update?
    && var m := s.downlink[0].m;
       var client := Receiving(s.client, m);
       s' == s.(client := client, downlink := s.downlink[1..], uplink := s.uplink + NewlySent(s.client, client),
                lost := s.lost || GivesUp(s.client, m))
  }

  /** A new connection: the pipeline and the gate start over and the room's state is sent afresh.
      Commands of the old connection may still reach the server. */
  ghost predicate Reloaded(s: System, s': System, m: StateMessage, lost: bool) {
    && Current(s, m) && (s'.uplink == [] || s'.uplink == s.uplink)
    && s' == s.(client := Resetting(s.client.(gate := Closed)), announced := s.version, downlink := [Update(m)],
                uplink := s'.uplink, lost := lost)
  }

  ghost predicate RefusalArrived(s: System, s': System, m: StateMessage) {
    && s.downlink != [] && s.downlink[0].Refusal?
    && if s.downlink[0].reload then Reloaded(s, s', m, true)
       else s' == s.(client := Resetting(s.client), downlink := s.downlink[1..], lost := true)
  }

  /** An error about something else: it resets the pipeline all the same, and what was in flight is given up
      although the server may still apply it. */
  ghost predicate OtherErrorArrived(s: System, s': System) {
    s' == s.(client := Resetting(s.client), lost := s.lost || s.client.inFlight.Some?)
  }

  /** Nothing of the browser's is under way. */
  predicate Settled(s: System) {
    s.uplink == [] && s.client.inFlight.None? && forall i | 0 <= i < |s.downlink| :: s.downlink[i].Update?
  }

  /** The connection breaks by itself, with or without something under way. */
  ghost predicate Reconnected(s: System, s': System, m: StateMessage) { Reloaded(s, s', m, s.lost || !Settled(s)) }

  /** Another kind of message about a version already committed reaches the gate. */
  ghost predicate Chatter(s: System, s': System, kind: string, version: int) {
    && kind != "state" && version <= s.version
    && s' == s.(client := s.client.(gate := Next(s.client.gate, kind, version)))
  }

  ghost predicate Step(s: System, s': System) {
    || (exists requested :: Clicked(s, s', requested))
    || GatedSent(s, s')
    || (exists order :: ServerApplied(s, s', order))
    || (exists order :: GatedApplied(s, s', order))
    || ServerRefused(s, s')
    || OthersCommitted(s, s')
    || (exists m :: Announced(s, s', m))
    || UpdateArrived(s, s')
    || (exists m :: RefusalArrived(s, s', m))
    || OtherErrorArrived(s, s')
    || (exists m :: Reconnected(s, s', m))
    || (exists kind, version :: Chatter(s, s', kind, version))
  }

  /** Nothing is on the wire and the newest version has been sent. */
  ghost predicate Quiet(s: System) { s.uplink == [] && s.downlink == [] && s.announced == s.version }

  // ---------------------------------------------------------------- what every step keeps

  predicate StateSeen(c: Client, version: int) { c.gate.latest == version && "state" in c.gate.seen }

  /** An update on its way; from `since` on updates carry the staged set. */
  ghost predicate UpdateFits(s: System, d: Downlink) {
    d.Update? ==>
      && d.m.version <= s.announced && d.m.decision.Defend? && d.m.decision.player == d.m.yourSeat
      && Distinct(d.m.decision.staged)
      && (d.m.version >= s.since ==> Elements(d.m.decision.staged) == Elements(s.staged))
  }

  ghost predicate NewestOnTheWay(s: System) {
    exists i :: 0 <= i < |s.downlink| && s.downlink[i].Update? && s.downlink[i].m.version == s.version
  }

  ghost predicate Wired(s: System) {
    var c := s.client;
    && Sound(c) && c.socketOpen && !c.replayScreen && Distinct(s.staged)
    && c.gate.latest <= s.version && s.since <= s.version && s.announced <= s.version
    && (InFlightStage(c).None? && c.queued.None? ==> c.shown.None?)
    && (!s.lost && c.shown.Some? ==> c.shown.value == s.wanted)
    && (forall i | 0 <= i < |s.uplink| :: s.uplink[i].expectedVersion <= s.version)
    && (forall i | 0 <= i < |s.downlink| :: UpdateFits(s, s.downlink[i]))
    && ("state" in c.gate.seen && c.gate.latest >= s.since ==> Authoritative(c.decision) == Elements(s.staged))
    && (s.announced == s.version ==> StateSeen(c, s.version) || NewestOnTheWay(s))
  }

  /** A refusal is on its way, or some command is bound to be refused. */
  ghost predicate Broken(s: System) {
    || (exists i :: 0 <= i < |s.downlink| && s.downlink[i].Refusal?)
    || |s.uplink| >= 2 || (s.uplink != [] && s.uplink[0].expectedVersion < s.version)
  }

  /** Otherwise the command in flight is at the server, or it is applied and not yet acknowledged, or
      there is none and the staged set is the wanted one unless that was given up. */
  ghost predicate Phase(s: System) {
    var c := s.client;
    if s.uplink != [] then (if c.inFlight.Some? then s.uplink == [c.inFlight.value] else s.lost)
    else if c.inFlight.Some? then
      && s.since == c.inFlight.value.expectedVersion + 1 && !("state" in c.gate.seen && c.gate.latest >= s.since)
      && (c.inFlight.value.stage.Some? ==> c.inFlight.value.stage.value == Elements(s.staged))
      && (c.queued.None? && !s.lost ==> s.wanted == Elements(s.staged))
    else !s.lost ==> s.wanted == Elements(s.staged)
  }

  ghost predicate Consistent(s: System) { Wired(s) && (Broken(s) || Phase(s)) }

  /** A fresh system: an idle client showing the server's state. */
  ghost predicate Initial(s: System) {
    var c := s.client;
    && c.inFlight.None? && c.queued.None? && c.shown.None? && !c.commandPending && c.outstanding == []
    && c.socketOpen && !c.replayScreen && StateSeen(c, s.version)
    && Authoritative(c.decision) == Elements(s.staged) && Distinct(s.staged)
    && Quiet(s) && s.since <= s.version && s.wanted == Elements(s.staged) && !s.lost
  }

  /** What a click does to the client: a command goes out at once, or nothing does. */
  lemma ClickSends(c: Client, requested: set<int>)
    requires Sound(c) && c.socketOpen
    ensures var after := Staging(c, requested);
      && Sound(after) && after.shown == Some(requested) && after.gate == c.gate && after.decision == c.decision
      && after.socketOpen && after.replayScreen == c.replayScreen
      && (c.inFlight.Some? ==> after.inFlight == c.inFlight && NewlySent(c, after) == [])
      && (c.inFlight.None? ==> after.inFlight == Some(Command(c.gate.latest, Some(requested)))
                               && NewlySent(c, after) == [after.inFlight.value])
  {
    LastClickWins(c, requested);
    StagingSound(c, requested);
  }

  /** Nothing changes on the way to the browser. */
  lemma SameDownlink(s: System, s': System)
    requires s'.downlink == s.downlink && s'.announced == s.announced && s'.since == s.since && s'.staged == s.staged
    requires s'.version == s.version
    ensures (forall i | 0 <= i < |s.downlink| :: UpdateFits(s, s.downlink[i]))
            ==> forall i | 0 <= i < |s'.downlink| :: UpdateFits(s', s'.downlink[i])
    ensures NewestOnTheWay(s') <==> NewestOnTheWay(s)
  {
    assert forall i | 0 <= i < |s'.downlink| :: UpdateFits(s, s'.downlink[i]) == UpdateFits(s', s'.downlink[i]);
  }

  lemma ClickedUplink(s: System, s': System, requested: set<int>)
    requires Wired(s) && Clicked(s, s', requested)
    ensures forall i | 0 <= i < |s'.uplink| :: s'.uplink[i].expectedVersion <= s.version
  {
    ClickSends(s.client, requested);
  }

  lemma ClickedWired(s: System, s': System, requested: set<int>)
    requires Wired(s) && Clicked(s, s', requested)
    ensures Wired(s')
  {
    ClickedUplink(s, s', requested);
    ClickSends(s.client, requested);
    SameDownlink(s, s');
  }

  lemma ClickedConsistent(s: System, s': System, requested: set<int>)
    requires Consistent(s) && Clicked(s, s', requested)
    ensures Consistent(s')
  {
    ClickedWired(s, s', requested);
    ClickSends(s.client, requested);
  }

  /** What any other gated command does to the client: it goes out at the gate's version exactly when nothing
      is in flight and the socket is open, and changes nothing but what is in flight, pending and sent. */
  lemma GatedGoesOut(c: Client)
    ensures var after := Happened(c, GatedCommand);
      if c.inFlight.None? && c.socketOpen then
        var command := Command(c.gate.latest, None);
        after == c.(inFlight := Some(command), commandPending := true, sent := c.sent + [command],
                    outstanding := c.outstanding + [command])
      else after == c
  {
  }

  lemma GatedWired(s: System, s': System)
    requires Wired(s) && GatedSent(s, s')
    ensures Wired(s')
  {
    GatedGoesOut(s.client);
    StepSound(s.client, GatedCommand);
    SameDownlink(s, s');
  }

  lemma GatedConsistent(s: System, s': System)
    requires Consistent(s) && GatedSent(s, s')
    ensures Consistent(s')
  {
    GatedWired(s, s');
    GatedGoesOut(s.client);
  }

  /** What an update does to a client that has a command in flight or none. */
  lemma UpdateReceived(c: Client, m: StateMessage)
    requires Sound(c) && c.socketOpen && !c.replayScreen && m.decision.Defend? && m.decision.player == m.yourSeat
    requires Distinct(m.decision.staged)
    ensures var after := Receiving(c, m);
      && Sound(after) && after.socketOpen && !after.replayScreen && after.gate == Next(c.gate, "state", m.version)
      && (if Accepts(c.gate, "state", m.version) then after.decision == m.decision else after.decision == c.decision)
      && (if !Accepts(c.gate, "state", m.version) || !Acknowledges(c, m) then
            after.inFlight == c.inFlight && after.shown == c.shown && NewlySent(c, after) == []
          else if c.queued.Some? && c.queued.value <= m.stageable && c.queued.value != Elements(m.decision.staged) then
            && after.inFlight == Some(Command(m.version, c.queued)) && after.shown == c.queued
            && NewlySent(c, after) == [after.inFlight.value]
          else after.inFlight.None? && after.shown.None? && NewlySent(c, after) == [])
  {
    ReceivingSound(c, m);
    if c.queued.Some? { SameInstanceIdsIsEquality(c.queued.value, m.decision.staged); }
    if Accepts(c.gate, "state", m.version) && Acknowledges(c, m) {
      Acknowledged(c, m);
      if ToFlush(c, m).Some? { ClickSends(Viewed(c, m), ToFlush(c, m).value); }
    }
  }

  /** The client between the acknowledgement and the flush. */
  function Viewed(c: Client, m: StateMessage): Client {
    c.(gate := Next(c.gate, "state", m.version), outstanding := [], inFlight := None, queued := None,
       shown := ToFlush(c, m), commandPending := false, decision := m.decision)
  }

  lemma Acknowledged(c: Client, m: StateMessage)
    requires Sound(c) && !c.replayScreen && Accepts(c.gate, "state", m.version) && Acknowledges(c, m)
    ensures Receiving(c, m) == if ToFlush(c, m).Some? then Staging(Viewed(c, m), ToFlush(c, m).value) else Viewed(c, m)
  {
    assert StillOutstanding(c.outstanding[1..], m.version) == [];
  }

  /** Taking the first update off the wire keeps what is said about the others. */
  lemma RestFits(s: System)
    requires Wired(s) && s.downlink != [] && s.downlink[0].Update?
    ensures forall i | 0 <= i < |s.downlink[1..]| :: UpdateFits(s, s.downlink[1..][i])
    ensures s.announced == s.version && s.downlink[0].m.version != s.version ==>
      StateSeen(s.client, s.version) || NewestOnTheWay(s.(downlink := s.downlink[1..]))
  {
    var rest := s.downlink[1..];
    assert forall i | 0 <= i < |rest| :: rest[i] == s.downlink[i + 1];
    if NewestOnTheWay(s) && s.downlink[0].m.version != s.version {
      var i :| 0 <= i < |s.downlink| && s.downlink[i].Update? && s.downlink[i].m.version == s.version;
      assert rest[i - 1] == s.downlink[i];
    }
  }

  /** The gate and the shown decision after an update. */
  lemma UpdateSeen(s: System, s': System)
    requires Wired(s) && UpdateArrived(s, s')
    ensures var c := s'.client;
      && c.gate.latest <= s.version
      && ("state" in c.gate.seen && c.gate.latest >= s.since ==> Authoritative(c.decision) == Elements(s.staged))
      && (StateSeen(s.client, s.version) ==> StateSeen(c, s.version))
      && (s.downlink[0].m.version == s.version ==> StateSeen(c, s.version))
  {
    assert UpdateFits(s, s.downlink[0]);
    UpdateReceived(s.client, s.downlink[0].m);
  }

  /** What the update makes the client hold and send. */
  lemma UpdateSends(s: System, s': System)
    requires Wired(s) && UpdateArrived(s, s')
    ensures var c := s'.client;
      && Sound(c) && c.socketOpen && !c.replayScreen
      && (InFlightStage(c).None? && c.queued.None? ==> c.shown.None?)
      && (!s'.lost && c.shown.Some? ==> c.shown.value == s.wanted)
      && (forall i | 0 <= i < |s'.uplink| :: s'.uplink[i].expectedVersion <= s.version)
  {
    assert UpdateFits(s, s.downlink[0]);
    UpdateReceived(s.client, s.downlink[0].m);
  }

  lemma UpdateWired(s: System, s': System)
    requires Wired(s) && UpdateArrived(s, s')
    ensures Wired(s')
  {
    UpdateSeen(s, s');
    UpdateSends(s, s');
    RestFits(s);
    assert forall i | 0 <= i < |s'.downlink| :: UpdateFits(s, s'.downlink[i]) == UpdateFits(s', s'.downlink[i]);
    if s.announced == s.version && !StateSeen(s'.client, s.version) {
      assert NewestOnTheWay(s.(downlink := s.downlink[1..]));
      assert NewestOnTheWay(s');
    }
  }

  lemma BrokenStays(s: System, s': System)
    requires Broken(s) && UpdateArrived(s, s')
    ensures Broken(s')
  {
    if i :| 0 <= i < |s.downlink| && s.downlink[i].Refusal? {
      assert s'.downlink[i - 1] == s.downlink[i];
    }
  }

  lemma ArrivedConsistent(s: System, s': System)
    requires Consistent(s) && UpdateArrived(s, s')
    ensures Consistent(s')
  {
    UpdateWired(s, s');
    if Broken(s) {
      BrokenStays(s, s');
    } else {
      assert UpdateFits(s, s.downlink[0]);
      UpdateReceived(s.client, s.downlink[0].m);
    }
  }

  lemma AppliedConsistent(s: System, s': System, order: seq<int>)
    requires Consistent(s) && ServerApplied(s, s', order)
    ensures Consistent(s')
  {
    assert forall i | 0 <= i < |s'.downlink| :: UpdateFits(s, s'.downlink[i]);
    assert forall i | 0 <= i < |s'.uplink| :: s'.uplink[i] == s.uplink[i + 1];
  }

  lemma GatedAppliedConsistent(s: System, s': System, order: seq<int>)
    requires Consistent(s) && GatedApplied(s, s', order)
    ensures Consistent(s')
  {
    assert forall i | 0 <= i < |s'.downlink| :: UpdateFits(s, s'.downlink[i]);
    assert forall i | 0 <= i < |s'.uplink| :: s'.uplink[i] == s.uplink[i + 1];
  }

  lemma RefusedConsistent(s: System, s': System)
    requires Consistent(s) && ServerRefused(s, s')
    ensures Consistent(s')
  {
    assert s'.downlink[|s.downlink|].Refusal?;
    assert forall i | 0 <= i < |s'.uplink| :: s'.uplink[i] == s.uplink[i + 1];
    assert forall i | 0 <= i < |s.downlink| :: s'.downlink[i] == s.downlink[i] && UpdateFits(s, s.downlink[i]);
    if i :| 0 <= i < |s.downlink| && s.downlink[i].Update? && s.downlink[i].m.version == s.version {
      assert s'.downlink[i] == s.downlink[i];
    }
  }

  lemma OthersConsistent(s: System, s': System)
    requires Consistent(s) && OthersCommitted(s, s')
    ensures Consistent(s')
  {
    assert forall i | 0 <= i < |s.downlink| :: UpdateFits(s, s.downlink[i]);
  }

  lemma AnnouncedConsistent(s: System, s': System, m: StateMessage)
    requires Consistent(s) && Announced(s, s', m)
    ensures Consistent(s')
  {
    assert forall i | 0 <= i < |s.downlink| :: s'.downlink[i] == s.downlink[i] && UpdateFits(s, s.downlink[i]);
    assert s'.downlink[|s.downlink|] == Update(m);
    if i :| 0 <= i < |s.downlink| && s.downlink[i].Refusal? { assert s'.downlink[i].Refusal?; }
  }

  lemma ReloadedConsistent(s: System, s': System, m: StateMessage, lost: bool)
    requires Consistent(s) && Reloaded(s, s', m, lost) && (lost || (!s.lost && Settled(s)))
    ensures Consistent(s')
  {
    assert s'.downlink[0] == Update(m);
  }

  lemma ErrorConsistent(s: System, s': System)
    requires Consistent(s) && s.downlink != [] && s.downlink[0].Refusal?
    requires s' == s.(client := Resetting(s.client), downlink := s.downlink[1..], lost := true)
    ensures Consistent(s')
  {
    assert forall i | 0 <= i < |s'.downlink| :: s'.downlink[i] == s.downlink[i + 1] && UpdateFits(s, s.downlink[i + 1]);
    if i :| 0 <= i < |s.downlink| && s.downlink[i].Update? && s.downlink[i].m.version == s.version {
      assert s'.downlink[i - 1] == s.downlink[i];
    }
  }

  lemma OtherErrorConsistent(s: System, s': System)
    requires Consistent(s) && OtherErrorArrived(s, s')
    ensures Consistent(s')
  {
    SameDownlink(s, s');
  }

  lemma ChatterConsistent(s: System, s': System, kind: string, version: int)
    requires Consistent(s) && Chatter(s, s', kind, version)
    ensures Consistent(s')
  {
    assert forall i | 0 <= i < |s.downlink| :: UpdateFits(s, s.downlink[i]) == UpdateFits(s', s.downlink[i]);
  }

  /** Clicks, other commands, commits by this seat and by others, refusals, other errors, announcements, deliveries,
      reconnects and other messages, in any order. */
  lemma StepConsistent(s: System, s': System)
    requires Consistent(s) && Step(s, s')
    ensures Consistent(s')
  {
    if requested :| Clicked(s, s', requested) {
      ClickedConsistent(s, s', requested);
    } else if GatedSent(s, s') {
      GatedConsistent(s, s');
    } else if order :| ServerApplied(s, s', order) {
      AppliedConsistent(s, s', order);
    } else if order :| GatedApplied(s, s', order) {
      GatedAppliedConsistent(s, s', order);
    } else if ServerRefused(s, s') {
      RefusedConsistent(s, s');
    } else if OthersCommitted(s, s') {
      OthersConsistent(s, s');
    } else if m :| Announced(s, s', m) {
      AnnouncedConsistent(s, s', m);
    } else if UpdateArrived(s, s') {
      ArrivedConsistent(s, s');
    } else if m :| RefusalArrived(s, s', m) {
      if s.downlink[0].reload { ReloadedConsistent(s, s', m, true); } else { ErrorConsistent(s, s'); }
    } else if OtherErrorArrived(s, s') {
      OtherErrorConsistent(s, s');
    } else if m :| Reconnected(s, s', m) {
      ReloadedConsistent(s, s', m, s.lost || !Settled(s));
    } else {
      var kind, version :| Chatter(s, s', kind, version);
      ChatterConsistent(s, s', kind, version);
    }
  }

  ghost predicate Execution(states: seq<System>) {
    states != [] && Initial(states[0]) && forall i | 0 <= i < |states| - 1 :: Step(states[i], states[i + 1])
  }

  lemma {:induction false} ExecutionConsistent(states: seq<System>)
    requires Execution(states)
    ensures Consistent(states[|states| - 1])
    decreases |states|
  {
    if |states| > 1 {
      ExecutionConsistent(states[..|states| - 1]);
      assert Step(states[|states| - 2], states[|states| - 1]);
      StepConsistent(states[|states| - 2], states[|states| - 1]);
    }
  }

  /** Convergence: in any run whatsoever, whenever nothing is left on the wire the browser shows the
      authoritative set, has nothing in flight, and that set is the last one the player asked for
      unless the browser gave it up. */
  lemma QuietMeansAsRequested(states: seq<System>)
    requires Execution(states) && Quiet(states[|states| - 1])
    ensures var s := states[|states| - 1];
      && s.client.inFlight.None? && Presented(s.client) == Elements(s.staged)
      && (!s.lost ==> Elements(s.staged) == s.wanted)
  {
    ExecutionConsistent(states);
  }

  /** The server applies every stage command it takes, the connection holds, and no error about something
      else arrives while a command is in flight. */
  ghost predicate Applying(states: seq<System>) {
    forall i | 0 <= i < |states| - 1 :: Undisturbed(states[i], states[i + 1])
  }

  ghost predicate Undisturbed(s: System, s': System) {
    && !ServerRefused(s, s') && (forall m :: !Reconnected(s, s', m))
    && (OtherErrorArrived(s, s') ==> s.client.inFlight.None?)
  }

  /** From this state on, every update that arrives leaves the wanted set stageable. */
  ghost predicate StaysStageable(states: seq<System>, from: nat) {
    forall i | from <= i < |states| - 1 :: UpdateArrived(states[i], states[i + 1]) ==> states[i].wanted <= states[i].downlink[0].m.stageable
  }

  predicate OnlyUpdates(s: System) { forall i | 0 <= i < |s.downlink| :: s.downlink[i].Update? }

  lemma UpdatesOnly(s: System, s': System)
    requires OnlyUpdates(s) && Step(s, s') && Undisturbed(s, s')
    ensures OnlyUpdates(s')
    ensures forall m :: !RefusalArrived(s, s', m)
  {
    if UpdateArrived(s, s') {
      assert forall i | 0 <= i < |s'.downlink| :: s'.downlink[i] == s.downlink[i + 1];
    }
  }

  /** A set is given up only by an update that makes it unstageable, a refusal, another error or a reconnect. */
  lemma KeptUnlessUnstageable(s: System, s': System)
    requires Consistent(s) && OnlyUpdates(s) && Step(s, s') && Undisturbed(s, s')
    requires UpdateArrived(s, s') ==> s.wanted <= s.downlink[0].m.stageable
    ensures !s.lost ==> !s'.lost
  {
    UpdatesOnly(s, s');
  }

  /** A run without its last step. */
  lemma Shorter(states: seq<System>, from: nat)
    requires Execution(states) && Applying(states) && |states| > 1
    ensures var n := |states| - 1;
      && Execution(states[..n]) && Applying(states[..n]) && Step(states[n - 1], states[n]) && Undisturbed(states[n - 1], states[n])
      && (StaysStageable(states, from) ==> StaysStageable(states[..n], from))
  {
    var n := |states| - 1;
    assert forall i | 0 <= i < n :: states[..n][i] == states[i];
    assert Step(states[n - 1], states[n - 1 + 1]) && Undisturbed(states[n - 1], states[n - 1 + 1]);
  }

  lemma {:induction false} ApplyingUpdates(states: seq<System>)
    requires Execution(states) && Applying(states)
    ensures OnlyUpdates(states[|states| - 1])
    decreases |states|
  {
    var n := |states| - 1;
    if n > 0 {
      Shorter(states, 0);
      ApplyingUpdates(states[..n]);
      UpdatesOnly(states[n - 1], states[n]);
    }
  }

  lemma {:induction false} KeptToTheEnd(states: seq<System>, click: nat)
    requires Execution(states) && Applying(states) && click < |states| && !states[click].lost && StaysStageable(states, click)
    ensures !states[|states| - 1].lost
    decreases |states|
  {
    var n := |states| - 1;
    if click < n {
      Shorter(states, click);
      KeptToTheEnd(states[..n], click);
      LastStepKeeps(states, click);
    }
  }

  lemma LastStepKeeps(states: seq<System>, click: nat)
    requires Execution(states) && Applying(states) && click < |states| - 1 && StaysStageable(states, click)
    requires !states[|states| - 2].lost
    ensures !states[|states| - 1].lost
  {
    var n := |states| - 1;
    Shorter(states, click);
    ApplyingUpdates(states[..n]);
    ExecutionConsistent(states[..n]);
    StageableAt(states, click, n - 1);
    KeptUnlessUnstageable(states[n - 1], states[n]);
  }

  lemma StageableAt(states: seq<System>, from: nat, i: nat)
    requires StaysStageable(states, from) && from <= i < |states| - 1
    ensures UpdateArrived(states[i], states[i + 1]) ==> states[i].wanted <= states[i].downlink[0].m.stageable
  {
  }

  /** If the server applies each stage command and the last clicked set stays stageable, then whatever
      sets were clicked before, whoever else commits and however the updates are spaced, the authoritative
      set is the last clicked one as soon as the wire is quiet. */
  lemma LastSetArrives(states: seq<System>, click: nat, requested: set<int>)
    requires Execution(states) && Applying(states) && click < |states| - 1
    requires Clicked(states[click], states[click + 1], requested) && StaysStageable(states, click + 1)
    requires states[|states| - 1].wanted == requested && Quiet(states[|states| - 1])
    ensures Elements(states[|states| - 1].staged) == requested
  {
    KeptToTheEnd(states, click + 1);
    QuietMeansAsRequested(states);
  }

  // ---------------------------------------------------------------- progress

  function Weight(d: Downlink): nat { if d.Update? then 1 else 2 }

  function Weights(ds: seq<Downlink>): nat {
    if ds == [] then 0 else Weights(ds[..|ds| - 1]) + Weight(ds[|ds| - 1])
  }

  lemma {:induction false} WeightsOfTail(ds: seq<Downlink>)
    requires ds != []
    ensures Weights(ds) == Weight(ds[0]) + Weights(ds[1..])
  {
    if |ds| > 1 {
      WeightsOfTail(ds[..|ds| - 1]);
      assert ds[..|ds| - 1][1..] == ds[1..][..|ds| - 2];
    }
  }

  lemma WeightsOfSnoc(ds: seq<Downlink>, d: Downlink)
    ensures Weights(ds + [d]) == Weights(ds) + Weight(d)
  {
    FrontOfSnoc(ds, d);
  }

  /** What server and deliveries still have to do once the player does nothing more. */
  function Remaining(s: System): nat {
    3 * |s.uplink| + Weights(s.downlink) + (if s.announced < s.version then 2 else 0) + (if s.client.queued.Some? then 3 else 0)
  }

  /** The steps that bring quiet closer: the server answers, a missing announcement goes out, a message arrives. */
  ghost predicate Works(s: System, s': System) {
    || (exists order :: ServerApplied(s, s', order) || GatedApplied(s, s', order))
    || ServerRefused(s, s')
    || (s.announced < s.version && exists m :: Announced(s, s', m))
    || UpdateArrived(s, s')
    || (exists m :: RefusalArrived(s, s', m))
  }

  lemma ArrivalWorks(s: System, s': System)
    requires Consistent(s) && UpdateArrived(s, s')
    ensures Remaining(s') < Remaining(s)
  {
    assert UpdateFits(s, s.downlink[0]);
    UpdateReceived(s.client, s.downlink[0].m);
    ArrivedConsistent(s, s');
    WeightsOfTail(s.downlink);
  }

  lemma RefusalWorks(s: System, s': System, m: StateMessage)
    requires Consistent(s) && RefusalArrived(s, s', m)
    ensures Remaining(s') < Remaining(s)
  {
    WeightsOfTail(s.downlink);
    if s.downlink[0].reload {
      assert s'.downlink == [] + [Update(m)];
      WeightsOfSnoc([], Update(m));
    }
  }

  /** Until the wire is quiet some working step is possible, each one brings quiet closer, and other
      messages and errors never put it off. */
  lemma QuietIsReached(s: System, s': System)
    requires Consistent(s)
    ensures Quiet(s) <==> Remaining(s) == 0
    ensures Works(s, s') ==> Remaining(s') < Remaining(s)
    ensures (exists kind, version :: Chatter(s, s', kind, version)) ==> Remaining(s') == Remaining(s)
    ensures OtherErrorArrived(s, s') ==> Remaining(s') <= Remaining(s)
    ensures !Quiet(s) ==> exists t :: Works(s, t)
    ensures s.uplink != [] && s.uplink[0].expectedVersion == s.version ==>
      exists t, order :: ServerApplied(s, t, order) || GatedApplied(s, t, order)
  {
    QuietIsNothingLeft(s);
    if Works(s, s') { WorkBringsCloser(s, s'); }
    if !Quiet(s) { SomethingWorks(s); }
    if s.uplink != [] && s.uplink[0].expectedVersion == s.version { CanBeApplied(s); }
  }

  /** A command at the right version can be applied: its set has some listing. */
  lemma CanBeApplied(s: System)
    requires Consistent(s) && s.uplink != [] && s.uplink[0].expectedVersion == s.version
    ensures exists t, order :: ServerApplied(s, t, order) || GatedApplied(s, t, order)
  {
    if s.uplink[0].stage.Some? {
      var order := Listed(s.uplink[0].stage.value);
      assert ServerApplied(s, s.(version := s.version + 1, since := s.version + 1, staged := order, uplink := s.uplink[1..]), order);
    } else {
      assert GatedApplied(s, s.(version := s.version + 1, since := s.version + 1, uplink := s.uplink[1..],
                                wanted := if s.client.shown.Some? then s.wanted else Elements(s.staged)), s.staged);
    }
  }

  lemma {:induction false} Listed(ids: set<int>) returns (order: seq<int>)
    ensures Distinct(order) && Elements(order) == ids
  {
    order := [];
    if ids != {} {
      var id := Member(ids);
      var rest := Listed(ids - {id});
      order := [id] + rest;
      assert Elements(order) == {id} + Elements(rest);
      assert forall i | 0 <= i < |rest| :: rest[i] in Elements(rest);
    }
  }

  lemma QuietIsNothingLeft(s: System)
    requires Consistent(s)
    ensures Quiet(s) <==> Remaining(s) == 0
  {
    if s.downlink != [] { WeightsOfTail(s.downlink); }
  }

  lemma WorkBringsCloser(s: System, s': System)
    requires Consistent(s) && Works(s, s')
    ensures Remaining(s') < Remaining(s)
  {
    if UpdateArrived(s, s') {
      ArrivalWorks(s, s');
    } else if m :| RefusalArrived(s, s', m) {
      RefusalWorks(s, s', m);
    } else if ServerRefused(s, s') {
      WeightsOfSnoc(s.downlink, s'.downlink[|s.downlink|]);
    } else if order :| ServerApplied(s, s', order) || GatedApplied(s, s', order) {
      assert |s'.uplink| == |s.uplink| - 1;
    } else {
      var m :| Announced(s, s', m);
      WeightsOfSnoc(s.downlink, Update(m));
    }
  }

  lemma SomethingWorks(s: System)
    requires Consistent(s) && !Quiet(s)
    ensures exists t :: Works(s, t)
  {
    var m := StateMessage(s.version, 0, Defend(0, s.staged), {});
    if s.uplink != [] {
      var t := s.(uplink := s.uplink[1..], downlink := s.downlink + [Refusal(s.uplink[0].expectedVersion != s.version)]);
      assert ServerRefused(s, t);
      assert Works(s, t);
    } else if s.downlink != [] {
      if s.downlink[0].Update? {
        var client := Receiving(s.client, s.downlink[0].m);
        var t := s.(client := client, downlink := s.downlink[1..], uplink := s.uplink + NewlySent(s.client, client),
                    lost := s.lost || GivesUp(s.client, s.downlink[0].m));
        assert UpdateArrived(s, t);
        assert Works(s, t);
      } else if s.downlink[0].reload {
        var t := s.(client := Resetting(s.client.(gate := Closed)), announced := s.version, downlink := [Update(m)],
                    uplink := [], lost := true);
        assert Reloaded(s, t, m, true);
        assert RefusalArrived(s, t, m);
        assert Works(s, t);
      } else {
        var t := s.(client := Resetting(s.client), downlink := s.downlink[1..], lost := true);
        assert RefusalArrived(s, t, m);
        assert Works(s, t);
      }
    } else {
      var t := s.(announced := s.version, downlink := s.downlink + [Update(m)]);
      assert Announced(s, t, m);
      assert Works(s, t);
    }
  }
}
