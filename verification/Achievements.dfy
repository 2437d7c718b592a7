/**
 Achievements awarded in two phases: what the final state decides at game end,
 and the checks that need the recorded history when the replay is finalized.
 */
module Achievements {
  import opened Common
  import opened MatchRecords

  const FULL_HAND := 6
  const COMEBACK := 15

  datatype Pair = Pair(first: int, second: int)

  function Of(p: Pair, seat: Seat): int { if seat.First? then p.first else p.second }

  datatype Turn = Turn(turn: nat, active: Seat, damageDealt: Pair, attacks: Pair, blocked: Pair, lifeGained: Option<Pair>)
  datatype Round = Round(turn: nat, active: Seat)

  /** What the comeback check reads, of the final state and of a replay frame alike. */
  datatype Snapshot = Snapshot(turn: nat, rounds: seq<Round>, life: Pair)
  datatype Frame = Frame(snapshot: Snapshot, handCount: Pair)

  datatype Player = Player(userId: Option<nat>, controller: Controller, deckId: string)
  datatype Final = Final(over: bool, winner: Option<Seat>, turn: nat, turns: seq<Turn>, life: Pair, hand: Pair, deck: Pair)
  datatype Room = Room(code: string, legal: bool, first: Option<Player>, second: Option<Player>, state: Option<Final>)

  datatype Achievement = FirstVictory | FirstBotWin | Beat(bot: string) | FirstPvpWin | BigTurn | RelentlessVictory | FullHand
                       | Overkill | HealthyVictory | LastLife | FiveStrikeTurn | IronWall | SecondWind | LongGame
                       | AgainstTheOdds | EmptyTank

  /** Bot decks, and the bots whose achievement is offered. */
  datatype Catalog = Catalog(bots: map<string, string>, active: set<string>)

  datatype History = History(maxHandCount: int, trailedAfterRound: bool)
  const NoHistory := History(0, false)

  datatype Histories = Histories(first: History, second: History)
  const NoHistories := Histories(NoHistory, NoHistory)

  function HistoryAt(h: Histories, seat: Seat): History { if seat.First? then h.first else h.second }

  datatype Check = CheckFullHand | CheckAgainstTheOdds
  datatype Pending = Pending(first: seq<Check>, second: seq<Check>)
  datatype Listed = Listed(seat: Seat, userId: nat)

  datatype Key = Key(user: nat, id: Achievement)
  datatype Unlock = Unlock(at: nat, room: string)
  type Unlocks = map<Key, Unlock>

  function SeatOf(room: Room, seat: Seat): Option<Player> { if seat.First? then room.first else room.second }

  function PendingAt(p: Pending, seat: Seat): seq<Check> { if seat.First? then p.first else p.second }

  /** An account id of zero counts as none. */
  predicate HasUser(player: Player) { player.userId.Some? && player.userId.value != 0 }

  predicate Over(room: Room) { room.legal && room.state.Some? && room.state.value.over }

  predicate Eligible(room: Room, seat: Seat) {
    var member := SeatOf(room, seat);
    member.Some? && HasUser(member.value) && member.value.controller.Human?
  }

  function UserOf(room: Room, seat: Seat): nat
    requires Eligible(room, seat)
  {
    SeatOf(room, seat).value.userId.value
  }

  // ---------------------------------------------------------------- the comeback check

  predicate CompletedBy(s: Snapshot, n: nat, seat: Seat)
    requires n <= |s.rounds|
  {
    exists i :: 0 <= i < n && s.rounds[i].active == seat && 2 <= s.rounds[i].turn < s.turn
  }

  /** Fifteen life behind after both seats have completed a numbered turn. */
  predicate Trailed(s: Snapshot, seat: Seat) {
    && Of(s.life, Other(seat)) - Of(s.life, seat) >= COMEBACK
    && CompletedBy(s, |s.rounds|, First) && CompletedBy(s, |s.rounds|, Second)
  }

  method TrailedAfterFullRound(s: Snapshot, seat: Seat) returns (trailed: bool)
    ensures trailed == Trailed(s, seat)
  {
    if Of(s.life, Other(seat)) - Of(s.life, seat) < COMEBACK { return false; }
    var completedSeats: bv2 := 0;
    for i := 0 to |s.rounds|
      invariant completedSeats != 3
      invariant completedSeats & 1 == 1 <==> CompletedBy(s, i, First)
      invariant completedSeats & 2 == 2 <==> CompletedBy(s, i, Second)
    {
      var turn := s.rounds[i];
      assert forall x :: CompletedBy(s, i + 1, x) <==> CompletedBy(s, i, x) || (turn.active == x && 2 <= turn.turn < s.turn);
      if turn.turn < 2 || turn.turn >= s.turn { continue; }
      completedSeats := completedSeats | if turn.active.First? then 1 else 2;
      if completedSeats == 3 {
        assert CompletedBy(s, i + 1, First) && CompletedBy(s, i + 1, Second);
        return true;
      }
    }
    return false;
  }

  function Rounds(turns: seq<Turn>): seq<Round> {
    seq(|turns|, i requires 0 <= i < |turns| => Round(turns[i].turn, turns[i].active))
  }

  function FinalSnapshot(f: Final): Snapshot { Snapshot(f.turn, Rounds(f.turns), f.life) }

  // ---------------------------------------------------------------- what each achievement asks for

  function DamageFrom(turns: seq<Turn>, seat: Seat): int {
    if turns == [] then 0
    else DamageFrom(turns[..|turns| - 1], seat) + if turns[|turns| - 1].turn >= 2 then Of(turns[|turns| - 1].damageDealt, seat) else 0
  }

  function LifeGained(turns: seq<Turn>, seat: Seat): int {
    if turns == [] then 0
    else LifeGained(turns[..|turns| - 1], seat)
         + if turns[|turns| - 1].lifeGained.Some? then Of(turns[|turns| - 1].lifeGained.value, seat) else 0
  }

  /** The numbered turns of the seat, as the game-over screen counts them. */
  function CountedTurns(turns: seq<Turn>, seat: Seat): set<nat> {
    set t | t in turns && t.turn >= 2 && t.active == seat :: t.turn / 2
  }

  predicate DealtOver25(turns: seq<Turn>, seat: Seat) {
    exists i :: 0 <= i < |turns| && turns[i].active == seat && Of(turns[i].damageDealt, seat) > 25
  }

  predicate AttackedFiveTimes(turns: seq<Turn>, seat: Seat) {
    exists i :: 0 <= i < |turns| && turns[i].active == seat && Of(turns[i].attacks, seat) >= 5
  }

  predicate Blocked20(turns: seq<Turn>, seat: Seat) {
    exists i :: 0 <= i < |turns| && turns[i].active != seat && Of(turns[i].blocked, seat) >= 20
  }

  predicate Relentless(turns: seq<Turn>, seat: Seat) {
    var counted := |CountedTurns(turns, seat)|;
    counted > 0 && DamageFrom(turns, seat) > 16 * counted
  }

  predicate AgainstBot(opponent: Option<Player>) { opponent.Some? && opponent.value.controller.Bot? }

  predicate EarnedByWinning(catalog: Catalog, opponent: Option<Player>, id: Achievement) {
    match id
    case FirstVictory => true
    case FirstBotWin => AgainstBot(opponent)
    case Beat(bot) =>
      AgainstBot(opponent) && opponent.value.deckId in catalog.bots
      && catalog.bots[opponent.value.deckId] == bot && bot in catalog.active
    case FirstPvpWin => !AgainstBot(opponent) && opponent.Some? && HasUser(opponent.value)
    case _ => false
  }

  predicate EarnedByDamage(f: Final, seat: Seat, won: bool, maxHandCount: int, id: Achievement) {
    match id
    case BigTurn => DealtOver25(f.turns, seat)
    case RelentlessVictory => won && Relentless(f.turns, seat)
    case FullHand => maxHandCount >= FULL_HAND || Of(f.hand, seat) >= FULL_HAND
    case Overkill => won && Of(f.life, Other(seat)) <= -10
    case HealthyVictory => won && Of(f.life, seat) > 20
    case LastLife => won && Of(f.life, seat) == 1
    case _ => false
  }

  predicate EarnedByTurns(f: Final, seat: Seat, won: bool, id: Achievement) {
    match id
    case FiveStrikeTurn => AttackedFiveTimes(f.turns, seat)
    case IronWall => Blocked20(f.turns, seat)
    case SecondWind => won && LifeGained(f.turns, seat) >= 10
    case _ => false
  }

  predicate EarnedByEnding(f: Final, seat: Seat, won: bool, trailed: bool, id: Achievement) {
    match id
    case LongGame => won && f.turn >= 15
    case AgainstTheOdds => won && trailed
    case EmptyTank => won && Of(f.deck, seat) == 0
    case _ => false
  }

  /** The seat earns the achievement with this final state and this history. */
  predicate Earned(catalog: Catalog, room: Room, seat: Seat, h: History, id: Achievement) {
    && Over(room) && Eligible(room, seat)
    && var f := room.state.value;
       var won := f.winner == Some(seat);
       || (won && EarnedByWinning(catalog, SeatOf(room, Other(seat)), id))
       || EarnedByDamage(f, seat, won, h.maxHandCount, id)
       || EarnedByTurns(f, seat, won, id)
       || EarnedByEnding(f, seat, won, h.trailedAfterRound || Trailed(FinalSnapshot(f), seat), id)
  }

  /** Damage counts in every turn but the opening one, life gained in every turn that says so. */
  lemma {:induction false} TurnsAddUp(a: seq<Turn>, b: seq<Turn>, seat: Seat)
    ensures DamageFrom(a + b, seat) == DamageFrom(a, seat) + DamageFrom(b, seat)
    ensures LifeGained(a + b, seat) == LifeGained(a, seat) + LifeGained(b, seat)
    decreases |b|
  {
    if b == [] {
      assert a + b == a;
    } else {
      assert (a + b)[..|a + b| - 1] == a + b[..|b| - 1];
      TurnsAddUp(a, b[..|b| - 1], seat);
    }
  }

  lemma OneTurn(t: Turn, seat: Seat)
    ensures DamageFrom([t], seat) == if t.turn < 2 then 0 else Of(t.damageDealt, seat)
    ensures LifeGained([t], seat) == match t.lifeGained case None => 0 case Some(gained) => Of(gained, seat)
    ensures CountedTurns([t], seat) == if t.turn < 2 || t.active != seat then {} else {t.turn / 2}
    ensures DamageFrom([], seat) == LifeGained([], seat) == 0
  {
    assert [t][..0] == [];
    assert t in [t];
  }

  /** Both seats have finished a turn of their own after the opening one, and the seat is at least fifteen behind. */
  ghost predicate Behind(f: Final, seat: Seat) {
    Of(f.life, seat) + 15 <= Of(f.life, Other(seat)) && FinishedATurn(f, seat) && FinishedATurn(f, Other(seat))
  }

  ghost predicate FinishedATurn(f: Final, seat: Seat) {
    exists t :: t in f.turns && t.active == seat && 1 < t.turn && t.turn < f.turn
  }

  /** What each award takes, by name. */
  ghost predicate Takes(catalog: Catalog, f: Final, seat: Seat, opponent: Option<Player>, h: History, id: Achievement) {
    var won := f.winner == Some(seat);
    var beatBot := won && opponent.Some? && !opponent.value.controller.Human?;
    match id
    case FirstVictory => won
    case FirstBotWin => beatBot
    case Beat(bot) => beatBot && (opponent.value.deckId, bot) in catalog.bots.Items && bot in catalog.active
    case FirstPvpWin => won && opponent.Some? && !beatBot && opponent.value.userId.Some? && opponent.value.userId.value > 0
    case BigTurn => exists t :: t in f.turns && t.active == seat && Of(t.damageDealt, seat) >= 26
    case RelentlessVictory =>
      won && CountedTurns(f.turns, seat) != {} && DamageFrom(f.turns, seat) >= 16 * |CountedTurns(f.turns, seat)| + 1
    case FullHand => h.maxHandCount > 5 || Of(f.hand, seat) > 5
    case Overkill => won && Of(f.life, Other(seat)) < -9
    case HealthyVictory => won && Of(f.life, seat) >= 21
    case LastLife => won && 0 < Of(f.life, seat) < 2
    case FiveStrikeTurn => exists t :: t in f.turns && t.active == seat && Of(t.attacks, seat) > 4
    case IronWall => exists t :: t in f.turns && t.active == Other(seat) && Of(t.blocked, seat) > 19
    case SecondWind => won && LifeGained(f.turns, seat) > 9
    case LongGame => won && f.turn > 14
    case AgainstTheOdds => won && (h.trailedAfterRound || Behind(f, seat))
    case EmptyTank => won && -1 < Of(f.deck, seat) < 1
  }

  lemma TurnsMean(turns: seq<Turn>, seat: Seat)
    ensures DealtOver25(turns, seat) <==> exists t :: t in turns && t.active == seat && Of(t.damageDealt, seat) >= 26
    ensures AttackedFiveTimes(turns, seat) <==> exists t :: t in turns && t.active == seat && Of(t.attacks, seat) > 4
    ensures Blocked20(turns, seat) <==> exists t :: t in turns && t.active == Other(seat) && Of(t.blocked, seat) > 19
  {
    assert forall i | 0 <= i < |turns| :: turns[i] in turns;
  }

  lemma TrailedMeans(f: Final, seat: Seat)
    ensures Trailed(FinalSnapshot(f), seat) <==> Behind(f, seat)
  {
    var s := FinalSnapshot(f);
    forall x: Seat ensures CompletedBy(s, |s.rounds|, x) <==> FinishedATurn(f, x) {
      if CompletedBy(s, |s.rounds|, x) {
        var i :| 0 <= i < |s.rounds| && s.rounds[i].active == x && 2 <= s.rounds[i].turn < s.turn;
        assert f.turns[i] in f.turns;
      }
      if t :| t in f.turns && t.active == x && 1 < t.turn && t.turn < f.turn {
        var i :| 0 <= i < |f.turns| && f.turns[i] == t;
        assert s.rounds[i] == Round(t.turn, t.active);
      }
    }
  }

  lemma TakesMean(catalog: Catalog, f: Final, seat: Seat, opponent: Option<Player>, h: History, id: Achievement, won: bool, trailed: bool)
    requires won == (f.winner == Some(seat)) && trailed == (h.trailedAfterRound || Behind(f, seat))
    ensures Takes(catalog, f, seat, opponent, h, id) <==>
      || (won && EarnedByWinning(catalog, opponent, id)) || EarnedByDamage(f, seat, won, h.maxHandCount, id)
      || EarnedByTurns(f, seat, won, id) || EarnedByEnding(f, seat, won, trailed, id)
  {
    match id {
      case BigTurn => TurnsMean(f.turns, seat);
      case FiveStrikeTurn => TurnsMean(f.turns, seat);
      case IronWall => TurnsMean(f.turns, seat);
      case _ =>
    }
  }

  /** A seat is awarded exactly what its finished legal game with an account of its own takes. */
  lemma AwardsAre(catalog: Catalog, room: Room, seat: Seat, h: History, id: Achievement)
    ensures Earned(catalog, room, seat, h, id) <==>
      && room.legal && room.state.Some? && room.state.value.over && SeatOf(room, seat).Some?
      && !SeatOf(room, seat).value.controller.Bot?
      && SeatOf(room, seat).value.userId.Some? && SeatOf(room, seat).value.userId.value > 0
      && Takes(catalog, room.state.value, seat, SeatOf(room, Other(seat)), h, id)
  {
    if room.state.Some? {
      var f := room.state.value;
      TrailedMeans(f, seat);
      TakesMean(catalog, f, seat, SeatOf(room, Other(seat)), h, id, f.winner == Some(seat), h.trailedAfterRound || Behind(f, seat));
    }
  }

  /** `if (earned) result.push(id)`. */
  function Push(result: seq<Achievement>, earned: bool, id: Achievement): (r: seq<Achievement>)
    ensures forall x :: x in r <==> x in result || (earned && x == id)
  {
    if earned then result + [id] else result
  }

  /** `achievementsForSeat`: pushes exactly the earned achievements. */
  method AchievementsForSeat(catalog: Catalog, room: Room, seat: Seat, h: History) returns (result: seq<Achievement>)
    ensures forall id :: id in result <==> Earned(catalog, room, seat, h, id)
  {
    result := [];
    var player := SeatOf(room, seat);
    if !room.legal || room.state.None? || !room.state.value.over
       || player.None? || !HasUser(player.value) || player.value.controller.Bot? { return; }
    var f := room.state.value;
    var won := f.winner == Some(seat);
    var trailed := TrailedAfterFullRound(FinalSnapshot(f), seat);
    var winning := WinningAwards(catalog, SeatOf(room, Other(seat)));
    var damage := DamageAwards(f, seat, won, h.maxHandCount);
    var turns := TurnAwards(f, seat, won);
    var endings := EndingAwards(f, seat, won, h.trailedAfterRound || trailed);
    result := (if won then winning else []) + damage + turns + endings;
  }

  method WinningAwards(catalog: Catalog, opponent: Option<Player>) returns (result: seq<Achievement>)
    ensures forall id :: id in result <==> EarnedByWinning(catalog, opponent, id)
  {
    result := [FirstVictory];
    if opponent.Some? && opponent.value.controller.Bot? {
      result := result + [FirstBotWin];
      if opponent.value.deckId in catalog.bots && catalog.bots[opponent.value.deckId] in catalog.active {
        result := result + [Beat(catalog.bots[opponent.value.deckId])];
      }
    } else if opponent.Some? && HasUser(opponent.value) {
      result := result + [FirstPvpWin];
    }
  }

  method DamageAwards(f: Final, seat: Seat, won: bool, maxHandCount: int) returns (result: seq<Achievement>)
    ensures forall id :: id in result <==> EarnedByDamage(f, seat, won, maxHandCount, id)
  {
    var hand := if maxHandCount > Of(f.hand, seat) then maxHandCount else Of(f.hand, seat);
    var bigTurn, relentless, fullHand := DealtOver25(f.turns, seat), won && Relentless(f.turns, seat), hand >= FULL_HAND;
    var overkill, healthy, lastLife := won && Of(f.life, Other(seat)) <= -10, won && Of(f.life, seat) > 20, won && Of(f.life, seat) == 1;
    result := Push3(bigTurn, BigTurn, relentless, RelentlessVictory, fullHand, FullHand)
              + Push3(overkill, Overkill, healthy, HealthyVictory, lastLife, LastLife);
  }

  method TurnAwards(f: Final, seat: Seat, won: bool) returns (result: seq<Achievement>)
    ensures forall id :: id in result <==> EarnedByTurns(f, seat, won, id)
  {
    var five, wall, wind := AttackedFiveTimes(f.turns, seat), Blocked20(f.turns, seat), won && LifeGained(f.turns, seat) >= 10;
    result := Push3(five, FiveStrikeTurn, wall, IronWall, wind, SecondWind);
  }

  method EndingAwards(f: Final, seat: Seat, won: bool, trailed: bool) returns (result: seq<Achievement>)
    ensures forall id :: id in result <==> EarnedByEnding(f, seat, won, trailed, id)
  {
    var long, odds, empty := won && f.turn >= 15, won && trailed, won && Of(f.deck, seat) == 0;
    result := Push3(long, LongGame, odds, AgainstTheOdds, empty, EmptyTank);
  }

  /** Three `if (…) result.push(…)` in a row. */
  function Push3(a: bool, x: Achievement, b: bool, y: Achievement, c: bool, z: Achievement): (r: seq<Achievement>)
    ensures forall id :: id in r <==> (a && id == x) || (b && id == y) || (c && id == z)
  {
    Push(Push(Push([], a, x), b, y), c, z)
  }

  // ---------------------------------------------------------------- the two phases

  function CheckedId(check: Check): Achievement { if check.CheckFullHand? then FullHand else AgainstTheOdds }

  /** The checks left open at game end for one seat. */
  predicate LeftOpen(room: Room, seat: Seat, before: Unlocks, check: Check) {
    && Over(room) && Eligible(room, seat)
    && Key(UserOf(room, seat), CheckedId(check)) !in before
    && match check
       case CheckFullHand => Of(room.state.value.hand, seat) < FULL_HAND
       case CheckAgainstTheOdds => room.state.value.winner == Some(seat) && !Trailed(FinalSnapshot(room.state.value), seat)
  }

  /** The checks left open are the ones that some history could still decide, and that are not unlocked yet. */
  lemma OpenChecks(catalog: Catalog, room: Room, seat: Seat, before: Unlocks, check: Check)
    ensures LeftOpen(room, seat, before, check) <==>
      && !Earned(catalog, room, seat, NoHistory, CheckedId(check))
      && (exists h :: Earned(catalog, room, seat, h, CheckedId(check)))
      && Key(UserOf(room, seat), CheckedId(check)) !in before
  {
    if LeftOpen(room, seat, before, check) { assert Earned(catalog, room, seat, History(FULL_HAND, true), CheckedId(check)); }
  }

  predicate HandFull(frames: seq<Frame>, seat: Seat) { exists i :: 0 <= i < |frames| && Of(frames[i].handCount, seat) >= FULL_HAND }

  predicate EverTrailed(frames: seq<Frame>, seat: Seat) { exists i :: 0 <= i < |frames| && Trailed(frames[i].snapshot, seat) }

  predicate FramesShow(frames: seq<Frame>, seat: Seat, check: Check) {
    if check.CheckFullHand? then HandFull(frames, seat) else EverTrailed(frames, seat)
  }

  /** INSERT … ON CONFLICT DO NOTHING. */
  function Inserted(before: Unlocks, keys: set<Key>, unlock: Unlock): Unlocks {
    before + (map k | k in keys && k !in before :: unlock)
  }

  /** Some eligible seat of this user earned it. */
  predicate EarnedBy(catalog: Catalog, room: Room, h: Histories, key: Key) {
    exists seat: Seat :: EarnedAt(catalog, room, h, seat, key)
  }

  /** One seat's part of `EarnedBy`. */
  predicate EarnedAt(catalog: Catalog, room: Room, h: Histories, seat: Seat, key: Key) {
    Eligible(room, seat) && UserOf(room, seat) == key.user && Earned(catalog, room, seat, HistoryAt(h, seat), key.id)
  }

  lemma EitherSeat(catalog: Catalog, room: Room, h: Histories, key: Key)
    ensures EarnedBy(catalog, room, h, key) <==> EarnedAt(catalog, room, h, First, key) || EarnedAt(catalog, room, h, Second, key)
  {
  }

  /** Exactly the earned achievements were added, at this time and for this room. */
  ghost predicate Awards(catalog: Catalog, room: Room, h: Histories, now: nat, before: Unlocks, after: Unlocks) {
    && (forall k :: k in after <==> k in before || EarnedBy(catalog, room, h, k))
    && (forall k :: k in before ==> after[k] == before[k])
    && (forall k :: k in after && k !in before ==> after[k] == Unlock(now, room.code))
  }

  predicate Shown(checks: seq<Check>, frames: seq<Frame>, seat: Seat, id: Achievement) {
    exists i :: 0 <= i < |checks| && CheckedId(checks[i]) == id && FramesShow(frames, seat, checks[i])
  }

  predicate ResolvedBy(pending: Pending, p: Listed, frames: seq<Frame>, key: Key) {
    p.userId == key.user && Shown(PendingAt(pending, p.seat), frames, p.seat, key.id)
  }

  /** Somebody listed for a seat had the check open and the frames show it. */
  predicate ResolvedFor(pending: Pending, participants: seq<Listed>, frames: seq<Frame>, key: Key) {
    exists i :: 0 <= i < |participants| && ResolvedBy(pending, participants[i], frames, key)
  }

  ghost predicate Resolves(pending: Pending, participants: seq<Listed>, frames: seq<Frame>, code: string, now: nat,
                           before: Unlocks, after: Unlocks) {
    && (forall k :: k in after <==> k in before || ResolvedFor(pending, participants, frames, k))
    && (forall k :: k in before ==> after[k] == before[k])
    && (forall k :: k in after && k !in before ==> after[k] == Unlock(now, code))
  }

  ghost predicate LeavesOpen(room: Room, before: Unlocks, pending: Pending) {
    forall seat, check :: check in PendingAt(pending, seat) <==> LeftOpen(room, seat, before, check)
  }

  /** What one seat adds, and the checks it leaves open. */
  ghost predicate NewAt(catalog: Catalog, room: Room, seat: Seat, before: Unlocks, keys: seq<Key>) {
    forall k :: k in keys <==> k !in before && EarnedAt(catalog, room, NoHistories, seat, k)
  }

  ghost predicate OpenAt(room: Room, seat: Seat, before: Unlocks, checks: seq<Check>) {
    forall check :: check in checks <==> LeftOpen(room, seat, before, check)
  }

  lemma NothingAwarded(catalog: Catalog, room: Room, now: nat, before: Unlocks)
    requires !Over(room) || (!Eligible(room, First) && !Eligible(room, Second))
    ensures Awards(catalog, room, NoHistories, now, before, before) && LeavesOpen(room, before, Pending([], []))
  {
    forall k ensures !EarnedBy(catalog, room, NoHistories, k) { EitherSeat(catalog, room, NoHistories, k); }
  }

  lemma SeatsAwarded(catalog: Catalog, room: Room, now: nat, before: Unlocks, first: seq<Key>, second: seq<Key>)
    requires NewAt(catalog, room, First, before, first) && NewAt(catalog, room, Second, before, second)
    ensures Awards(catalog, room, NoHistories, now, before,
                   Inserted(before, (set k | k in first + second), Unlock(now, room.code)))
  {
    var after := Inserted(before, (set k | k in first + second), Unlock(now, room.code));
    forall k ensures k in after <==> k in before || EarnedBy(catalog, room, NoHistories, k) {
      EitherSeat(catalog, room, NoHistories, k);
      assert k in first + second <==> k in first || k in second;
    }
  }

  lemma SeatsLeftOpen(room: Room, before: Unlocks, first: seq<Check>, second: seq<Check>)
    requires OpenAt(room, First, before, first) && OpenAt(room, Second, before, second)
    ensures LeavesOpen(room, before, Pending(first, second))
  {
  }

  class AchievementTable {
    var unlocks: Unlocks

    constructor ()
      ensures unlocks == map[]
    {
      unlocks := map[];
    }

    /** `awardAchievements`: the final-state awards, and the checks deferred to the replay. */
    method AwardAchievements(catalog: Catalog, room: Room, now: nat) returns (pending: Option<Pending>)
      modifies this
      ensures Awards(catalog, room, NoHistories, now, old(unlocks), unlocks)
      ensures LeavesOpen(room, old(unlocks), if pending.Some? then pending.value else Pending([], []))
      ensures pending.Some? ==> pending.value != Pending([], [])
    {
      if !Over(room) || (!Eligible(room, First) && !Eligible(room, Second)) {
        NothingAwarded(catalog, room, now, unlocks);
        return None;
      }
      var firstIds, firstChecks := AwardSeat(catalog, room, First);
      var secondIds, secondChecks := AwardSeat(catalog, room, Second);
      SeatsAwarded(catalog, room, now, unlocks, firstIds, secondIds);
      SeatsLeftOpen(room, unlocks, firstChecks, secondChecks);
      unlocks := Inserted(unlocks, (set k | k in firstIds + secondIds), Unlock(now, room.code));
      pending := if firstChecks == [] && secondChecks == [] then None else Some(Pending(firstChecks, secondChecks));
    }

    /** One round of the loop over eligible seats. */
    method AwardSeat(catalog: Catalog, room: Room, seat: Seat) returns (values: seq<Key>, checks: seq<Check>)
      requires Over(room)
      ensures NewAt(catalog, room, seat, unlocks, values)
      ensures OpenAt(room, seat, unlocks, checks)
    {
      values, checks := [], [];
      if !Eligible(room, seat) { return; }
      var f := room.state.value;
      var user := UserOf(room, seat);
      var ids := AchievementsForSeat(catalog, room, seat, NoHistory);
      for i := 0 to |ids|
        invariant forall k :: k in values <==> k !in unlocks && k.user == user && k.id in ids[..i]
      {
        if Key(user, ids[i]) !in unlocks { values := values + [Key(user, ids[i])]; }
      }
      assert ids[..|ids|] == ids;
      var trailed := TrailedAfterFullRound(FinalSnapshot(f), seat);
      if Key(user, FullHand) !in unlocks && Of(f.hand, seat) < FULL_HAND { checks := checks + [CheckFullHand]; }
      if f.winner == Some(seat) && Key(user, AgainstTheOdds) !in unlocks && !trailed { checks := checks + [CheckAgainstTheOdds]; }
    }

    /** `awardHistoryAchievements`: the deferred checks, from the replay's frames. */
    method AwardHistoryAchievements(pending: Pending, participants: seq<Listed>, frames: seq<Frame>, code: string, now: nat)
      modifies this
      ensures Resolves(pending, participants, frames, code, now, old(unlocks), unlocks)
    {
      var values: set<Key> := {};
      for i := 0 to |participants|
        modifies {}
        invariant forall k :: k in values <==> ResolvedFor(pending, participants[..i], frames, k)
      {
        var p := participants[i];
        var checks := PendingAt(pending, p.seat);
        ghost var earlier := values;
        for j := 0 to |checks|
          modifies {}
          invariant forall k :: k in values <==> (k in earlier || (k.user == p.userId && Shown(checks[..j], frames, p.seat, k.id)))
        {
          var earned := FrameCheck(frames, p.seat, checks[j]);
          forall id ensures Shown(checks[..j + 1], frames, p.seat, id) <==>
                            Shown(checks[..j], frames, p.seat, id) || (earned && CheckedId(checks[j]) == id) {
            OneMoreCheck(checks, frames, p.seat, id, j);
          }
          if earned { values := values + {Key(p.userId, CheckedId(checks[j]))}; }
        }
        assert checks[..|checks|] == checks;
        forall k ensures ResolvedFor(pending, participants[..i + 1], frames, k) <==>
                         ResolvedFor(pending, participants[..i], frames, k) || ResolvedBy(pending, p, frames, k) {
          OneMoreParticipant(pending, participants, frames, k, i);
        }
      }
      assert participants[..|participants|] == participants;
      unlocks := Inserted(unlocks, values, Unlock(now, code));
    }
  }

  method FrameCheck(frames: seq<Frame>, seat: Seat, check: Check) returns (earned: bool)
    ensures earned == FramesShow(frames, seat, check)
  {
    for i := 0 to |frames|
      invariant forall k | 0 <= k < i :: Of(frames[k].handCount, seat) < FULL_HAND || check.CheckAgainstTheOdds?
      invariant forall k | 0 <= k < i :: !Trailed(frames[k].snapshot, seat) || check.CheckFullHand?
    {
      if check.CheckFullHand? {
        if Of(frames[i].handCount, seat) >= FULL_HAND { return true; }
      } else {
        var trailed := TrailedAfterFullRound(frames[i].snapshot, seat);
        if trailed { return true; }
      }
    }
    return false;
  }

  lemma OneMoreCheck(checks: seq<Check>, frames: seq<Frame>, seat: Seat, id: Achievement, j: nat)
    requires j < |checks|
    ensures Shown(checks[..j + 1], frames, seat, id) <==>
      Shown(checks[..j], frames, seat, id) || (FramesShow(frames, seat, checks[j]) && CheckedId(checks[j]) == id)
  {
    var more, less := checks[..j + 1], checks[..j];
    assert forall x | 0 <= x < j :: more[x] == less[x];
    assert more[j] == checks[j];
  }

  lemma OneMoreParticipant(pending: Pending, participants: seq<Listed>, frames: seq<Frame>, key: Key, i: nat)
    requires i < |participants|
    ensures ResolvedFor(pending, participants[..i + 1], frames, key) <==>
      ResolvedFor(pending, participants[..i], frames, key) || ResolvedBy(pending, participants[i], frames, key)
  {
    var more, less := participants[..i + 1], participants[..i];
    assert forall x | 0 <= x < i :: more[x] == less[x];
    assert more[i] == participants[i];
  }

  // ---------------------------------------------------------------- both phases together

  function MaxHand(frames: seq<Frame>, seat: Seat): int {
    if frames == [] then 0
    else
      var rest, last := MaxHand(frames[..|frames| - 1], seat), Of(frames[|frames| - 1].handCount, seat);
      if rest > last then rest else last
  }

  /** The whole history of one seat as a single award at the end would see it. */
  function WholeHistory(frames: seq<Frame>, seat: Seat): History { History(MaxHand(frames, seat), EverTrailed(frames, seat)) }

  function WholeHistories(frames: seq<Frame>): Histories { Histories(WholeHistory(frames, First), WholeHistory(frames, Second)) }

  lemma {:induction false} MaxHandIsReached(frames: seq<Frame>, seat: Seat)
    ensures MaxHand(frames, seat) >= FULL_HAND <==> HandFull(frames, seat)
  {
    if frames != [] {
      var front := frames[..|frames| - 1];
      MaxHandIsReached(front, seat);
      assert frames == front + [frames[|frames| - 1]];
      if HandFull(front, seat) {
        var i :| 0 <= i < |front| && Of(front[i].handCount, seat) >= FULL_HAND;
        assert frames[i] == front[i];
      }
    }
  }

  /** The replay lists the players of this room at their seats. */
  ghost predicate ListsPlayers(room: Room, participants: seq<Listed>) {
    forall seat: Seat, user: nat :: Listed(seat, user) in participants <==> Eligible(room, seat) && UserOf(room, seat) == user
  }

  /** The history only ever adds the two checks, and adds one exactly when the frames show it. */
  lemma HistoryAdds(catalog: Catalog, room: Room, seat: Seat, frames: seq<Frame>, before: Unlocks, id: Achievement)
    requires Eligible(room, seat) && Key(UserOf(room, seat), id) !in before
    ensures Earned(catalog, room, seat, WholeHistory(frames, seat), id) <==>
      Earned(catalog, room, seat, NoHistory, id)
      || exists check: Check :: CheckedId(check) == id && LeftOpen(room, seat, before, check) && FramesShow(frames, seat, check)
  {
    MaxHandIsReached(frames, seat);
    if Over(room) {
      assert id == FullHand ==> CheckedId(CheckFullHand) == id;
      assert id == AgainstTheOdds ==> CheckedId(CheckAgainstTheOdds) == id;
    }
  }

  /** For every frame list and every prior unlock set, awarding at game end and resolving the deferred
      checks later unlocks exactly what one evaluation with the whole history would have unlocked. Games
      of the same users that finish in between only add their own unlocks. */
  lemma TwoPhasesAreOne(catalog: Catalog, room: Room, frames: seq<Frame>, pending: Pending, participants: seq<Listed>,
                        now: nat, later: nat, before: Unlocks, middle: Unlocks, grown: Unlocks, after: Unlocks, whole: Unlocks)
    requires Awards(catalog, room, NoHistories, now, before, middle) && LeavesOpen(room, before, pending)
    requires middle.Keys <= grown.Keys
    requires ListsPlayers(room, participants) && Resolves(pending, participants, frames, room.code, later, grown, after)
    requires Awards(catalog, room, WholeHistories(frames), now, before, whole)
    ensures after.Keys == grown.Keys + whole.Keys
    ensures grown == middle ==> after.Keys == whole.Keys
  {
    forall k | k in whole && k !in middle ensures k in after {
      LateIsResolved(catalog, room, frames, pending, participants, before, k);
    }
    forall k | k in middle ensures k in whole {
      if k !in before { EarlyIsEarned(catalog, room, frames, before, k); }
    }
    forall k | ResolvedFor(pending, participants, frames, k) ensures k in whole {
      ResolvedIsEarned(catalog, room, frames, pending, participants, before, k);
    }
  }

  lemma LateIsResolved(catalog: Catalog, room: Room, frames: seq<Frame>, pending: Pending, participants: seq<Listed>,
                       before: Unlocks, k: Key)
    requires LeavesOpen(room, before, pending) && ListsPlayers(room, participants) && k !in before
    requires EarnedBy(catalog, room, WholeHistories(frames), k) && !EarnedBy(catalog, room, NoHistories, k)
    ensures ResolvedFor(pending, participants, frames, k)
  {
    var seat: Seat :| EarnedAt(catalog, room, WholeHistories(frames), seat, k);
    assert !EarnedAt(catalog, room, NoHistories, seat, k);
    HistoryAdds(catalog, room, seat, frames, before, k.id);
    var check: Check :| CheckedId(check) == k.id && LeftOpen(room, seat, before, check) && FramesShow(frames, seat, check);
    assert Listed(seat, k.user) in participants;
    var i :| 0 <= i < |participants| && participants[i] == Listed(seat, k.user);
    var checks := PendingAt(pending, seat);
    assert check in checks;
    var j :| 0 <= j < |checks| && checks[j] == check;
    assert ResolvedBy(pending, participants[i], frames, k);
  }

  lemma ResolvedIsEarned(catalog: Catalog, room: Room, frames: seq<Frame>, pending: Pending, participants: seq<Listed>,
                         before: Unlocks, k: Key)
    requires LeavesOpen(room, before, pending) && ListsPlayers(room, participants) && ResolvedFor(pending, participants, frames, k)
    ensures EarnedBy(catalog, room, WholeHistories(frames), k)
  {
    var i :| 0 <= i < |participants| && ResolvedBy(pending, participants[i], frames, k);
    var seat := participants[i].seat;
    var checks := PendingAt(pending, seat);
    var j :| 0 <= j < |checks| && CheckedId(checks[j]) == k.id && FramesShow(frames, seat, checks[j]);
    assert participants[i] == Listed(seat, k.user) && participants[i] in participants;
    assert checks[j] in checks;
    assert LeftOpen(room, seat, before, checks[j]);
    HistoryAdds(catalog, room, seat, frames, before, k.id);
    assert EarnedAt(catalog, room, WholeHistories(frames), seat, k);
  }

  lemma EarlyIsEarned(catalog: Catalog, room: Room, frames: seq<Frame>, before: Unlocks, k: Key)
    requires k !in before && EarnedBy(catalog, room, NoHistories, k)
    ensures EarnedBy(catalog, room, WholeHistories(frames), k)
  {
    var seat: Seat :| EarnedAt(catalog, room, NoHistories, seat, k);
    HistoryAdds(catalog, room, seat, frames, before, k.id);
    assert EarnedAt(catalog, room, WholeHistories(frames), seat, k);
  }
}
