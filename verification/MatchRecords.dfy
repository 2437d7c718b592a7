/**
 Match history rows and the per-hero and per-matchup counters kept beside them.
 The counters are never recomputed in production; here they are compared with
 the count over the rows after every possible run.
 */
module MatchRecords {
  import opened Common

  datatype Seat = First | Second
  datatype Format = ClassicConstructed | SilverAge
  datatype EndReason = Lethal | Concede | Idle | Draw | EndedEarly
  datatype Controller = Human | Bot
  datatype Column = Wins | Losses | Draws | Ended

  datatype SeatInput = SeatInput(controller: Controller, userId: Option<nat>, username: Option<string>,
                                 botId: Option<string>, heroId: string, deckName: Option<string>)

  datatype MatchInput = MatchInput(roomCode: string, format: Format, first: SeatInput, second: SeatInput,
                                   winner: Option<Seat>, endReason: EndReason, startedAt: nat, finishedAt: nat)

  datatype Participant = Participant(controller: Controller, userId: Option<nat>, username: Option<string>,
                                     botId: Option<string>, heroId: string, deckName: Option<string>)

  datatype Match = Match(id: string, roomCode: string, format: Format, botMode: bool, winner: Option<Seat>,
                         endReason: EndReason, startedAt: nat, finishedAt: nat, first: Participant, second: Participant)

  datatype HeroKey = HeroKey(user: nat, hero: string, opponent: Controller, format: Format)
  datatype HeroRecord = HeroRecord(games: nat, wins: nat, losses: nat, draws: nat, ended: nat, lastPlayedAt: nat)

  datatype MatchupKey = MatchupKey(user: nat, hero: string, opponentHero: string, opponent: Controller, format: Format)
  datatype MatchupRecord = MatchupRecord(games: nat, wins: nat, losses: nat, draws: nat)

  datatype Db = Db(users: set<nat>, matches: seq<Match>, heroes: map<HeroKey, HeroRecord>,
                   matchups: map<MatchupKey, MatchupRecord>)

  function Upper(s: string): string {
    seq(|s|, i requires 0 <= i < |s| => if 'a' <= s[i] <= 'z' then s[i] - 'a' + 'A' else s[i])
  }

  function Other(seat: Seat): Seat { if seat.First? then Second else First }

  function ResultColumn(winner: Option<Seat>, endReason: EndReason, seat: Seat): Column {
    if winner == Some(seat) then Wins
    else if winner.Some? then Losses
    else if endReason.Draw? then Draws else Ended
  }

  function At(m: Match, seat: Seat): Participant { if seat.First? then m.first else m.second }

  function InputAt(input: MatchInput, seat: Seat): SeatInput { if seat.First? then input.first else input.second }

  /** The participant row of a seat: only human seats keep an account id. */
  function ParticipantRow(member: SeatInput): Participant {
    Participant(member.controller, if member.controller.Human? then member.userId else None, member.username,
                if member.controller.Bot? then member.botId else None, member.heroId, member.deckName)
  }

  function MatchRow(id: string, input: MatchInput): Match {
    Match(id, Upper(input.roomCode), input.format, input.first.controller.Bot? || input.second.controller.Bot?,
          input.winner, input.endReason, input.startedAt, input.finishedAt,
          ParticipantRow(input.first), ParticipantRow(input.second))
  }

  function Max(a: nat, b: nat): nat { if a >= b then a else b }

  const NoGames: HeroRecord := HeroRecord(0, 0, 0, 0, 0, 0)
  const NoMatchups: MatchupRecord := MatchupRecord(0, 0, 0, 0)

  function Bumped(r: HeroRecord, column: Column, finishedAt: nat): HeroRecord {
    HeroRecord(r.games + 1,
               r.wins + (if column.Wins? then 1 else 0), r.losses + (if column.Losses? then 1 else 0),
               r.draws + (if column.Draws? then 1 else 0), r.ended + (if column.Ended? then 1 else 0),
               Max(r.lastPlayedAt, finishedAt))
  }

  /** Matchup counters have no column for games without a result. */
  function BumpedMatchup(r: MatchupRecord, column: Column): MatchupRecord {
    if column.Ended? then r
    else MatchupRecord(r.games + 1, r.wins + (if column.Wins? then 1 else 0),
                       r.losses + (if column.Losses? then 1 else 0), r.draws + (if column.Draws? then 1 else 0))
  }

  // ---------------------------------------------------------------- the counters recomputed from the rows

  /** The seat of the match belongs to this counter. */
  predicate CountsFor(m: Match, seat: Seat, key: HeroKey) {
    At(m, seat).userId == Some(key.user) && At(m, seat).heroId == key.hero
    && At(m, Other(seat)).controller == key.opponent && m.format == key.format
  }

  predicate CountsForMatchup(m: Match, seat: Seat, key: MatchupKey) {
    CountsFor(m, seat, HeroKey(key.user, key.hero, key.opponent, key.format)) && At(m, Other(seat)).heroId == key.opponentHero
  }

  function Counted(r: HeroRecord, m: Match, seat: Seat, key: HeroKey): HeroRecord {
    if CountsFor(m, seat, key) then Bumped(r, ResultColumn(m.winner, m.endReason, seat), m.finishedAt) else r
  }

  function CountedMatchup(r: MatchupRecord, m: Match, seat: Seat, key: MatchupKey): MatchupRecord {
    if CountsForMatchup(m, seat, key) then BumpedMatchup(r, ResultColumn(m.winner, m.endReason, seat)) else r
  }

  function HeroTally(matches: seq<Match>, key: HeroKey): HeroRecord {
    if matches == [] then NoGames
    else
      var m := matches[|matches| - 1];
      Counted(Counted(HeroTally(matches[..|matches| - 1], key), m, First, key), m, Second, key)
  }

  function MatchupTally(matches: seq<Match>, key: MatchupKey): MatchupRecord {
    if matches == [] then NoMatchups
    else
      var m := matches[|matches| - 1];
      CountedMatchup(CountedMatchup(MatchupTally(matches[..|matches| - 1], key), m, First, key), m, Second, key)
  }

  /** Every stored counter is the count over the rows, and a counter exists exactly when something counts. */
  ghost predicate Consistent(db: Db) {
    && (forall key :: HeroAgrees(db, key))
    && (forall key :: MatchupAgrees(db, key))
    && (forall i | 0 <= i < |db.matches| :: KnownUsers(db, db.matches[i]))
  }

  predicate HeroAgrees(db: Db, key: HeroKey) {
    var tally := HeroTally(db.matches, key);
    if key in db.heroes then db.heroes[key] == tally && tally.games > 0 else tally == NoGames
  }

  predicate MatchupAgrees(db: Db, key: MatchupKey) {
    var tally := MatchupTally(db.matches, key);
    if key in db.matchups then db.matchups[key] == tally && tally.games > 0 else tally == NoMatchups
  }

  predicate KnownUsers(db: Db, m: Match) {
    (m.first.userId.Some? ==> m.first.userId.value in db.users) && (m.second.userId.Some? ==> m.second.userId.value in db.users)
  }

  // ---------------------------------------------------------------- the operations

  datatype RecordResult = Recorded | AlreadyRecorded | Rejected

  predicate Known(db: Db, member: SeatInput) {
    member.controller.Human? && member.userId.Some? ==> member.userId.value in db.users
  }

  predicate Duplicate(matches: seq<Match>, roomCode: string, startedAt: nat) {
    exists i :: 0 <= i < |matches| && matches[i].roomCode == roomCode && matches[i].startedAt == startedAt
  }

  predicate IdTaken(matches: seq<Match>, id: string) {
    exists i :: 0 <= i < |matches| && matches[i].id == id
  }

  /** One seat's two upserts. */
  function SeatCounted(db: Db, m: Match, seat: Seat): Db {
    var me, opponent := At(m, seat), At(m, Other(seat));
    if me.userId.None? then db
    else
      var column := ResultColumn(m.winner, m.endReason, seat);
      var key := HeroKey(me.userId.value, me.heroId, opponent.controller, m.format);
      var matchup := MatchupKey(me.userId.value, me.heroId, opponent.heroId, opponent.controller, m.format);
      db.(heroes := db.heroes[key := Bumped(if key in db.heroes then db.heroes[key] else NoGames, column, m.finishedAt)],
          matchups := if column.Ended? then db.matchups
                      else db.matchups[matchup := BumpedMatchup(if matchup in db.matchups then db.matchups[matchup] else NoMatchups, column)])
  }

  function Recording(db: Db, input: MatchInput, id: string): (Db, RecordResult) {
    if Duplicate(db.matches, Upper(input.roomCode), input.startedAt) then (db, AlreadyRecorded)
    else if IdTaken(db.matches, id) || !Known(db, input.first) || !Known(db, input.second) then (db, Rejected)
    else
      var m := MatchRow(id, input);
      (SeatCounted(SeatCounted(db.(matches := db.matches + [m]), m, First), m, Second), Recorded)
  }

  function Detached(p: Participant, user: nat): Participant {
    if p.userId == Some(user) then p.(userId := None, username := None, deckName := None) else p
  }

  function DetachedMatch(m: Match, user: nat): Match {
    m.(first := Detached(m.first, user), second := Detached(m.second, user))
  }

  predicate Visible(m: Match) { m.first.userId.Some? || m.second.userId.Some? }

  /** `sweepOrphanedMatches`. */
  function Swept(matches: seq<Match>): seq<Match> {
    if matches == [] then []
    else
      var m := matches[|matches| - 1];
      if Visible(m) then Swept(matches[..|matches| - 1]) + [m] else Swept(matches[..|matches| - 1])
  }

  function DetachedAll(matches: seq<Match>, user: nat): seq<Match> {
    seq(|matches|, i requires 0 <= i < |matches| => DetachedMatch(matches[i], user))
  }

  /** Account deletion as far as matches go: detach, delete the account with its counters, sweep. */
  function Deleting(db: Db, user: nat): Db {
    if user !in db.users then db
    else Db(db.users - {user}, Swept(DetachedAll(db.matches, user)),
            map key | key in db.heroes && key.user != user :: db.heroes[key],
            map key | key in db.matchups && key.user != user :: db.matchups[key])
  }

  // ---------------------------------------------------------------- what recording a game means

  /** A participant row holds what the seat brought; only a human seat keeps its account, only a bot its id. */
  predicate Shows(p: Participant, member: SeatInput) {
    && p.controller == member.controller && p.heroId == member.heroId
    && p.username == member.username && p.deckName == member.deckName
    && p.userId == (match member.controller case Human => member.userId case Bot => None)
    && p.botId == (match member.controller case Human => None case Bot => member.botId)
  }

  /** A match row holds the game as it was reported. */
  predicate RowShows(m: Match, input: MatchInput, id: string) {
    && m.id == id && m.roomCode == Upper(input.roomCode) && m.format == input.format
    && m.winner == input.winner && m.endReason == input.endReason
    && m.startedAt == input.startedAt && m.finishedAt == input.finishedAt
    && (m.botMode <==> input.first.controller == Bot || input.second.controller == Bot)
    && Shows(m.first, input.first) && Shows(m.second, input.second)
  }

  /** The seat `me`, playing against `them`, is one this hero counter is about. */
  predicate Plays(me: SeatInput, them: SeatInput, format: Format, key: HeroKey) {
    me.controller == Human && me.userId == Some(key.user) && me.heroId == key.hero
    && them.controller == key.opponent && format == key.format
  }

  predicate PlaysMatchup(me: SeatInput, them: SeatInput, format: Format, key: MatchupKey) {
    Plays(me, them, format, HeroKey(key.user, key.hero, key.opponent, key.format)) && them.heroId == key.opponentHero
  }

  function One(b: bool): nat { if b then 1 else 0 }

  function Lookup<K, V>(m: map<K, V>, key: K): Option<V> { if key in m then Some(m[key]) else None }

  function Before(r: Option<HeroRecord>): HeroRecord { if r.Some? then r.value else HeroRecord(0, 0, 0, 0, 0, 0) }

  function BeforeMatchup(r: Option<MatchupRecord>): MatchupRecord { if r.Some? then r.value else MatchupRecord(0, 0, 0, 0) }

  /** What a game does to one hero counter: a game for each of the two seats it is about, a win if that seat
      won, a loss if the other one did, and otherwise a draw or an ended game; nothing if it is about neither. */
  predicate HeroMoved(r: Option<HeroRecord>, r': Option<HeroRecord>, input: MatchInput, key: HeroKey) {
    HeroMovedBy(r, r', Plays(input.first, input.second, input.format, key), Plays(input.second, input.first, input.format, key),
                input.winner, input.endReason, input.finishedAt)
  }

  /** `one` and `two`: the counter is about the first seat, about the second. */
  predicate HeroMovedBy(r: Option<HeroRecord>, r': Option<HeroRecord>, one: bool, two: bool,
                        winner: Option<Seat>, endReason: EndReason, finishedAt: nat) {
    if !one && !two then r' == r
    else
      && r'.Some?
      && r'.value.games == Before(r).games + One(one) + One(two)
      && r'.value.wins == Before(r).wins + One(one && winner == Some(First)) + One(two && winner == Some(Second))
      && r'.value.losses == Before(r).losses + One(one && winner == Some(Second)) + One(two && winner == Some(First))
      && r'.value.draws == Before(r).draws + (if winner.None? && endReason == Draw then One(one) + One(two) else 0)
      && r'.value.ended == Before(r).ended + (if winner.None? && endReason != Draw then One(one) + One(two) else 0)
      && r'.value.lastPlayedAt >= finishedAt && r'.value.lastPlayedAt >= Before(r).lastPlayedAt
      && (r'.value.lastPlayedAt == finishedAt || r'.value.lastPlayedAt == Before(r).lastPlayedAt)
  }

  /** The same for a matchup counter, which a game without a result does not touch. */
  predicate MatchupMoved(r: Option<MatchupRecord>, r': Option<MatchupRecord>, input: MatchInput, key: MatchupKey) {
    MatchupMovedBy(r, r', PlaysMatchup(input.first, input.second, input.format, key),
                   PlaysMatchup(input.second, input.first, input.format, key), input.winner, input.endReason)
  }

  predicate MatchupMovedBy(r: Option<MatchupRecord>, r': Option<MatchupRecord>, one: bool, two: bool,
                           winner: Option<Seat>, endReason: EndReason) {
    if (!one && !two) || (winner.None? && endReason != Draw) then r' == r
    else
      && r'.Some?
      && r'.value.games == BeforeMatchup(r).games + One(one) + One(two)
      && r'.value.wins == BeforeMatchup(r).wins + One(one && winner == Some(First)) + One(two && winner == Some(Second))
      && r'.value.losses == BeforeMatchup(r).losses + One(one && winner == Some(Second)) + One(two && winner == Some(First))
      && r'.value.draws == BeforeMatchup(r).draws + (if winner.None? then One(one) + One(two) else 0)
  }

  /** A row has this game's room, in capitals, and start time. */
  predicate RecordedBefore(matches: seq<Match>, input: MatchInput) {
    exists m :: m in matches && m.roomCode == Upper(input.roomCode) && m.startedAt == input.startedAt
  }

  /** A human seat of an account that no longer exists. */
  predicate Stranger(db: Db, member: SeatInput) {
    match (member.controller, member.userId) case (Human, Some(user)) => user !in db.users case _ => false
  }

  /** Letters a to z become capitals, and nothing else changes. */
  lemma UpperMeans(s: string, i: nat)
    requires i < |s|
    ensures |Upper(s)| == |s|
    ensures s[i] in "abcdefghijklmnopqrstuvwxyz" ==> Upper(s)[i] as int == s[i] as int - 32
    ensures s[i] !in "abcdefghijklmnopqrstuvwxyz" ==> Upper(s)[i] == s[i]
  {
    var letters := "abcdefghijklmnopqrstuvwxyz";
    assert forall k | 0 <= k < 26 :: letters[k] as int == 97 + k;
    if 'a' <= s[i] <= 'z' { assert letters[s[i] as int - 97] == s[i]; }
  }

  /** Everything a recorded game writes: one row with its values, and every counter moved as it should be. */
  ghost predicate GameWritten(db: Db, db': Db, input: MatchInput, id: string) {
    && db'.users == db.users && |db'.matches| == |db.matches| + 1 && db'.matches[..|db.matches|] == db.matches
    && RowShows(db'.matches[|db.matches|], input, id)
    && (forall key :: HeroMoved(Lookup(db.heroes, key), Lookup(db'.heroes, key), input, key))
    && (forall key :: MatchupMoved(Lookup(db.matchups, key), Lookup(db'.matchups, key), input, key))
  }

  function SeatBump(r: Option<HeroRecord>, counts: bool, column: Column, finishedAt: nat): Option<HeroRecord> {
    if counts then Some(Bumped(Before(r), column, finishedAt)) else r
  }

  function SeatBumpMatchup(r: Option<MatchupRecord>, counts: bool, column: Column): Option<MatchupRecord> {
    if counts && !column.Ended? then Some(BumpedMatchup(BeforeMatchup(r), column)) else r
  }

  lemma SeatHeroes(db: Db, m: Match, seat: Seat, key: HeroKey)
    ensures Lookup(SeatCounted(db, m, seat).heroes, key) ==
      SeatBump(Lookup(db.heroes, key), CountsFor(m, seat, key), ResultColumn(m.winner, m.endReason, seat), m.finishedAt)
  {
  }

  lemma SeatMatchups(db: Db, m: Match, seat: Seat, key: MatchupKey)
    ensures Lookup(SeatCounted(db, m, seat).matchups, key) ==
      SeatBumpMatchup(Lookup(db.matchups, key), CountsForMatchup(m, seat, key), ResultColumn(m.winner, m.endReason, seat))
  {
  }

  /** What one seat's upsert adds to each column. */
  lemma OneBump(r: Option<HeroRecord>, counts: bool, winner: Option<Seat>, endReason: EndReason, seat: Seat, finishedAt: nat)
    ensures var before, after := Before(r), Before(SeatBump(r, counts, ResultColumn(winner, endReason, seat), finishedAt));
      && after.games == before.games + One(counts)
      && after.wins == before.wins + One(counts && winner == Some(seat))
      && after.losses == before.losses + One(counts && winner.Some? && winner != Some(seat))
      && after.draws == before.draws + One(counts && winner.None? && endReason == Draw)
      && after.ended == before.ended + One(counts && winner.None? && endReason != Draw)
      && after.lastPlayedAt == if counts then Max(before.lastPlayedAt, finishedAt) else before.lastPlayedAt
  {
  }

  lemma OneBumpMatchup(r: Option<MatchupRecord>, counts: bool, winner: Option<Seat>, endReason: EndReason, seat: Seat)
    ensures var before, after := BeforeMatchup(r), BeforeMatchup(SeatBumpMatchup(r, counts, ResultColumn(winner, endReason, seat)));
      && after.games == before.games + One(counts && (winner.Some? || endReason == Draw))
      && after.wins == before.wins + One(counts && winner == Some(seat))
      && after.losses == before.losses + One(counts && winner.Some? && winner != Some(seat))
      && after.draws == before.draws + One(counts && winner.None? && endReason == Draw)
  {
  }

  lemma EitherWon(winner: Option<Seat>)
    ensures winner.Some? && winner != Some(First) <==> winner == Some(Second)
    ensures winner.Some? && winner != Some(Second) <==> winner == Some(First)
  {
    assert winner.Some? ==> winner.value == First || winner.value == Second;
  }

  lemma TwoBumps(r: Option<HeroRecord>, r1: Option<HeroRecord>, r2: Option<HeroRecord>, one: bool, two: bool,
                 winner: Option<Seat>, endReason: EndReason, finishedAt: nat)
    requires r1 == SeatBump(r, one, ResultColumn(winner, endReason, First), finishedAt)
    requires r2 == SeatBump(r1, two, ResultColumn(winner, endReason, Second), finishedAt)
    ensures HeroMovedBy(r, r2, one, two, winner, endReason, finishedAt)
  {
    OneBump(r, one, winner, endReason, First, finishedAt);
    OneBump(r1, two, winner, endReason, Second, finishedAt);
    EitherWon(winner);
  }

  lemma TwoBumpsMatchup(r: Option<MatchupRecord>, r1: Option<MatchupRecord>, r2: Option<MatchupRecord>, one: bool, two: bool,
                        winner: Option<Seat>, endReason: EndReason)
    requires r1 == SeatBumpMatchup(r, one, ResultColumn(winner, endReason, First))
    requires r2 == SeatBumpMatchup(r1, two, ResultColumn(winner, endReason, Second))
    ensures MatchupMovedBy(r, r2, one, two, winner, endReason)
  {
    OneBumpMatchup(r, one, winner, endReason, First);
    OneBumpMatchup(r1, two, winner, endReason, Second);
    EitherWon(winner);
  }

  /** The row counts for a counter where the reported seat plays for it. */
  lemma RowCounts(input: MatchInput, id: string, key: HeroKey, matchup: MatchupKey)
    ensures CountsFor(MatchRow(id, input), First, key) <==> Plays(input.first, input.second, input.format, key)
    ensures CountsFor(MatchRow(id, input), Second, key) <==> Plays(input.second, input.first, input.format, key)
    ensures CountsForMatchup(MatchRow(id, input), First, matchup) <==> PlaysMatchup(input.first, input.second, input.format, matchup)
    ensures CountsForMatchup(MatchRow(id, input), Second, matchup) <==> PlaysMatchup(input.second, input.first, input.format, matchup)
  {
  }

  lemma HeroIsMoved(db: Db, input: MatchInput, id: string, key: HeroKey, matchup: MatchupKey)
    ensures var db' := Counting(db, MatchRow(id, input));
      && HeroMoved(Lookup(db.heroes, key), Lookup(db'.heroes, key), input, key)
      && MatchupMoved(Lookup(db.matchups, matchup), Lookup(db'.matchups, matchup), input, matchup)
  {
    var m := MatchRow(id, input);
    var added := db.(matches := db.matches + [m]);
    RowCounts(input, id, key, matchup);
    SeatHeroes(added, m, First, key);
    SeatHeroes(SeatCounted(added, m, First), m, Second, key);
    TwoBumps(Lookup(db.heroes, key), Lookup(SeatCounted(added, m, First).heroes, key), Lookup(Counting(db, m).heroes, key),
             CountsFor(m, First, key), CountsFor(m, Second, key), m.winner, m.endReason, m.finishedAt);
    SeatMatchups(added, m, First, matchup);
    SeatMatchups(SeatCounted(added, m, First), m, Second, matchup);
    TwoBumpsMatchup(Lookup(db.matchups, matchup), Lookup(SeatCounted(added, m, First).matchups, matchup),
                    Lookup(Counting(db, m).matchups, matchup), CountsForMatchup(m, First, matchup),
                    CountsForMatchup(m, Second, matchup), m.winner, m.endReason);
  }

  /** Recording a game writes the game as it was reported, or nothing. */
  lemma RecordingMeans(db: Db, input: MatchInput, id: string)
    ensures var (db', result) := Recording(db, input, id);
      && (if result.Recorded? then GameWritten(db, db', input, id) else db' == db)
      && (result.AlreadyRecorded? <==> RecordedBefore(db.matches, input))
      && (result.Rejected? <==> !RecordedBefore(db.matches, input)
                                && ((exists m :: m in db.matches && m.id == id) || Stranger(db, input.first) || Stranger(db, input.second)))
  {
    if i :| 0 <= i < |db.matches| && db.matches[i].id == id { assert db.matches[i] in db.matches; }
    if i :| 0 <= i < |db.matches| && db.matches[i].roomCode == Upper(input.roomCode) && db.matches[i].startedAt == input.startedAt {
      assert db.matches[i] in db.matches;
    }
    var (db', result) := Recording(db, input, id);
    if result.Recorded? {
      assert db' == Counting(db, MatchRow(id, input));
      forall key ensures HeroMoved(Lookup(db.heroes, key), Lookup(db'.heroes, key), input, key) {
        HeroIsMoved(db, input, id, key, MatchupKey(0, "", "", Human, SilverAge));
      }
      forall key ensures MatchupMoved(Lookup(db.matchups, key), Lookup(db'.matchups, key), input, key) {
        HeroIsMoved(db, input, id, HeroKey(0, "", Human, SilverAge), key);
      }
    }
  }

  class MatchTables {
    var users: set<nat>
    var matches: seq<Match>
    var heroes: map<HeroKey, HeroRecord>
    var matchups: map<MatchupKey, MatchupRecord>

    function Value(): Db
      reads this
    {
      Db(users, matches, heroes, matchups)
    }

    constructor ()
      ensures Value() == Db({}, [], map[], map[])
    {
      users, matches, heroes, matchups := {}, [], map[], map[];
    }

    /** `recordMatch` in the caller's transaction. A refused insert rolls everything back. */
    method RecordMatch(input: MatchInput, id: string) returns (result: RecordResult)
      modifies this
      ensures (Value(), result) == Recording(old(Value()), input, id)
      ensures result.Recorded? ==> GameWritten(old(Value()), Value(), input, id)
      ensures !result.Recorded? ==> Value() == old(Value())
      ensures result.AlreadyRecorded? <==> RecordedBefore(old(matches), input)
      ensures result.Rejected? ==>
        (exists m :: m in old(matches) && m.id == id) || Stranger(old(Value()), input.first) || Stranger(old(Value()), input.second)
    {
      RecordingMeans(Value(), input, id);
      var roomCode := Upper(input.roomCode);
      if exists i :: 0 <= i < |matches| && matches[i].roomCode == roomCode && matches[i].startedAt == input.startedAt {
        return AlreadyRecorded;
      }
      if IdTaken(matches, id) || !Known(Value(), input.first) || !Known(Value(), input.second) { return Rejected; }
      var m := Match(id, roomCode, input.format, input.first.controller.Bot? || input.second.controller.Bot?,
                     input.winner, input.endReason, input.startedAt, input.finishedAt,
                     ParticipantRow(input.first), ParticipantRow(input.second));
      matches := matches + [m];
      CountSeat(input, m, First);
      CountSeat(input, m, Second);
      return Recorded;
    }

    method CountSeat(input: MatchInput, m: Match, seat: Seat)
      requires m == MatchRow(m.id, input)
      modifies this`heroes, this`matchups
      ensures Value() == SeatCounted(old(Value()), m, seat)
    {
      var member := InputAt(input, seat);
      if !member.controller.Human? || member.userId.None? { return; }
      var user, opponent := member.userId.value, InputAt(input, Other(seat));
      var column := ResultColumn(input.winner, input.endReason, seat);
      var key := HeroKey(user, member.heroId, opponent.controller, input.format);
      if key in heroes {
        heroes := heroes[key := Bumped(heroes[key], column, input.finishedAt)];
      } else {
        heroes := heroes[key := HeroRecord(1, if column.Wins? then 1 else 0, if column.Losses? then 1 else 0,
                                           if column.Draws? then 1 else 0, if column.Ended? then 1 else 0, input.finishedAt)];
      }
      if column.Ended? { return; }
      var matchup := MatchupKey(user, member.heroId, opponent.heroId, opponent.controller, input.format);
      if matchup in matchups {
        matchups := matchups[matchup := BumpedMatchup(matchups[matchup], column)];
      } else {
        matchups := matchups[matchup := MatchupRecord(1, if column.Wins? then 1 else 0,
                                                      if column.Losses? then 1 else 0, if column.Draws? then 1 else 0)];
      }
    }

    method DeleteAccount(user: nat)
      modifies this
      ensures Value() == Deleting(old(Value()), user)
    {
      if user !in users { return; }
      matches := DetachedAll(matches, user);
      users := users - {user};
      heroes := map key | key in heroes && key.user != user :: heroes[key];
      matchups := map key | key in matchups && key.user != user :: matchups[key];
      matches := Swept(matches);
    }
  }

  // ---------------------------------------------------------------- what every run keeps

  lemma SeatCountedAgrees(db: Db, m: Match, seat: Seat, key: HeroKey, tally: HeroRecord)
    requires if key in db.heroes then db.heroes[key] == tally && tally.games > 0 else tally == NoGames
    ensures var after := SeatCounted(db, m, seat).heroes;
            var tally' := Counted(tally, m, seat, key);
            if key in after then after[key] == tally' && tally'.games > 0 else tally' == NoGames
  {
  }

  lemma SeatCountedAgreesMatchup(db: Db, m: Match, seat: Seat, key: MatchupKey, tally: MatchupRecord)
    requires if key in db.matchups then db.matchups[key] == tally && tally.games > 0 else tally == NoMatchups
    ensures var after := SeatCounted(db, m, seat).matchups;
            var tally' := CountedMatchup(tally, m, seat, key);
            if key in after then after[key] == tally' && tally'.games > 0 else tally' == NoMatchups
  {
  }

  function Counting(db: Db, m: Match): Db { SeatCounted(SeatCounted(db.(matches := db.matches + [m]), m, First), m, Second) }

  lemma HeroRecorded(db: Db, m: Match, key: HeroKey)
    requires HeroAgrees(db, key)
    ensures HeroAgrees(Counting(db, m), key)
  {
    var added := db.(matches := db.matches + [m]);
    FrontOfSnoc(db.matches, m);
    SeatCountedAgrees(added, m, First, key, HeroTally(db.matches, key));
    SeatCountedAgrees(SeatCounted(added, m, First), m, Second, key, Counted(HeroTally(db.matches, key), m, First, key));
  }

  lemma MatchupRecorded(db: Db, m: Match, key: MatchupKey)
    requires MatchupAgrees(db, key)
    ensures MatchupAgrees(Counting(db, m), key)
  {
    var added := db.(matches := db.matches + [m]);
    FrontOfSnoc(db.matches, m);
    SeatCountedAgreesMatchup(added, m, First, key, MatchupTally(db.matches, key));
    SeatCountedAgreesMatchup(SeatCounted(added, m, First), m, Second, key,
                             CountedMatchup(MatchupTally(db.matches, key), m, First, key));
  }

  lemma RecordingConsistent(db: Db, input: MatchInput, id: string)
    requires Consistent(db)
    ensures Consistent(Recording(db, input, id).0)
  {
    var (after, result) := Recording(db, input, id);
    if result.Recorded? {
      var m := MatchRow(id, input);
      assert after == Counting(db, m);
      forall key ensures HeroAgrees(after, key) { HeroRecorded(db, m, key); }
      forall key ensures MatchupAgrees(after, key) { MatchupRecorded(db, m, key); }
      forall i | 0 <= i < |after.matches| ensures KnownUsers(after, after.matches[i]) {
        if i < |db.matches| { assert KnownUsers(db, db.matches[i]); }
      }
    }
  }

  lemma {:induction false} SweptTallies(matches: seq<Match>, key: HeroKey, matchup: MatchupKey)
    ensures HeroTally(Swept(matches), key) == HeroTally(matches, key)
    ensures MatchupTally(Swept(matches), matchup) == MatchupTally(matches, matchup)
  {
    if matches != [] {
      var rest, m := matches[..|matches| - 1], matches[|matches| - 1];
      SweptTallies(rest, key, matchup);
      FrontOfSnoc(Swept(rest), m);
    }
  }

  lemma {:induction false} DetachedTallies(matches: seq<Match>, user: nat, key: HeroKey, matchup: MatchupKey)
    ensures HeroTally(DetachedAll(matches, user), key) == if key.user == user then NoGames else HeroTally(matches, key)
    ensures MatchupTally(DetachedAll(matches, user), matchup) ==
            if matchup.user == user then NoMatchups else MatchupTally(matches, matchup)
  {
    if matches != [] {
      var rest := matches[..|matches| - 1];
      DetachedTallies(rest, user, key, matchup);
      assert DetachedAll(matches, user)[..|matches| - 1] == DetachedAll(rest, user);
    }
  }

  lemma {:induction false} SweptExactly(matches: seq<Match>)
    ensures forall m :: m in Swept(matches) <==> m in matches && Visible(m)
  {
    if matches != [] {
      var rest, last := matches[..|matches| - 1], matches[|matches| - 1];
      SweptExactly(rest);
      assert matches == rest + [last];
    }
  }

  lemma DeletingConsistent(db: Db, user: nat)
    requires Consistent(db)
    ensures Consistent(Deleting(db, user))
  {
    if user in db.users {
      var after := Deleting(db, user);
      var detached := DetachedAll(db.matches, user);
      var anyKey := HeroKey(user, "", Human, SilverAge);
      var anyMatchup := MatchupKey(user, "", "", Human, SilverAge);
      forall key ensures HeroAgrees(after, key) {
        assert HeroAgrees(db, key);
        DetachedTallies(db.matches, user, key, anyMatchup);
        SweptTallies(detached, key, anyMatchup);
      }
      forall key ensures MatchupAgrees(after, key) {
        assert MatchupAgrees(db, key);
        DetachedTallies(db.matches, user, anyKey, key);
        SweptTallies(detached, anyKey, key);
      }
      SweptExactly(detached);
      forall i | 0 <= i < |after.matches| ensures KnownUsers(after, after.matches[i]) {
        assert after.matches[i] in detached;
        var j :| 0 <= j < |detached| && detached[j] == after.matches[i];
        assert KnownUsers(db, db.matches[j]);
      }
    }
  }

  lemma SweptKnown(db: Db)
    requires Consistent(db)
    ensures forall i :: 0 <= i < |Swept(db.matches)| ==> KnownUsers(db, Swept(db.matches)[i])
  {
    SweptExactly(db.matches);
    forall i | 0 <= i < |Swept(db.matches)| ensures KnownUsers(db, Swept(db.matches)[i]) {
      assert Swept(db.matches)[i] in db.matches;
      var j :| 0 <= j < |db.matches| && db.matches[j] == Swept(db.matches)[i];
      assert KnownUsers(db, db.matches[j]);
    }
  }

  datatype Step = Record(input: MatchInput, id: string) | Delete(user: nat) | Sweep | Register(user: nat)

  function Next(db: Db, step: Step): Db {
    match step
    case Record(input, id) => Recording(db, input, id).0
    case Delete(user) => Deleting(db, user)
    case Sweep => db.(matches := Swept(db.matches))
    case Register(user) => db.(users := db.users + {user})
  }

  function Run(db: Db, steps: seq<Step>): Db {
    if steps == [] then db else Next(Run(db, steps[..|steps| - 1]), steps[|steps| - 1])
  }

  /** After any run of recordings (repeats included), account deletions and sweeps, every surviving
      counter is the count over the match rows. */
  lemma {:induction false} RunConsistent(db: Db, steps: seq<Step>)
    requires Consistent(db)
    ensures Consistent(Run(db, steps))
  {
    if steps != [] {
      var before := Run(db, steps[..|steps| - 1]);
      RunConsistent(db, steps[..|steps| - 1]);
      match steps[|steps| - 1] {
        case Record(input, id) => RecordingConsistent(before, input, id);
        case Delete(user) => DeletingConsistent(before, user);
        case Sweep =>
          forall key ensures HeroAgrees(before.(matches := Swept(before.matches)), key) {
            assert HeroAgrees(before, key);
            SweptTallies(before.matches, key, MatchupKey(0, "", "", Human, SilverAge));
          }
          forall key ensures MatchupAgrees(before.(matches := Swept(before.matches)), key) {
            assert MatchupAgrees(before, key);
            SweptTallies(before.matches, HeroKey(0, "", Human, SilverAge), key);
          }
          SweptKnown(before);
        case Register(_) =>
          forall key ensures HeroAgrees(Run(db, steps), key) { assert HeroAgrees(before, key); }
          forall key ensures MatchupAgrees(Run(db, steps), key) { assert MatchupAgrees(before, key); }
      }
    }
  }

  /** Two rows differ in their id and in their game. */
  predicate Apart(a: Match, b: Match) { a.id != b.id && (a.roomCode != b.roomCode || a.startedAt != b.startedAt) }

  predicate RowsApart(matches: seq<Match>) { forall i, j | 0 <= i < j < |matches| :: Apart(matches[i], matches[j]) }

  lemma {:induction false} SweptApart(matches: seq<Match>)
    requires RowsApart(matches)
    ensures RowsApart(Swept(matches))
  {
    if matches != [] {
      var rest := matches[..|matches| - 1];
      SweptApart(rest);
      SweptExactly(rest);
      forall i | 0 <= i < |Swept(rest)| ensures Apart(Swept(rest)[i], matches[|matches| - 1]) {
        assert Swept(rest)[i] in rest;
      }
    }
  }

  /** However often a game is recorded it has one row, and ids stay unique, through deletions and sweeps. */
  lemma {:induction false} OneRowPerGame(db: Db, steps: seq<Step>)
    requires RowsApart(db.matches)
    ensures RowsApart(Run(db, steps).matches)
  {
    if steps != [] {
      var before := Run(db, steps[..|steps| - 1]);
      OneRowPerGame(db, steps[..|steps| - 1]);
      SweptApart(before.matches);
      match steps[|steps| - 1]
      case Record(_, _) =>
      case Delete(user) =>
        var detached := DetachedAll(before.matches, user);
        forall i, j | 0 <= i < j < |detached| ensures Apart(detached[i], detached[j]) {
          assert Apart(before.matches[i], before.matches[j]);
        }
        SweptApart(detached);
      case Sweep =>
      case Register(_) =>
    }
  }

  /** A row this counter counts. */
  ghost predicate Counts(m: Match, key: HeroKey) { CountsFor(m, First, key) || CountsFor(m, Second, key) }

  /** The columns add up, and last-played is the newest finish time among the rows counted. */
  lemma {:induction false} TallyAddsUp(matches: seq<Match>, key: HeroKey)
    ensures var r := HeroTally(matches, key);
      && r.games == r.wins + r.losses + r.draws + r.ended
      && (r.games == 0 ==> r == NoGames)
      && (forall i | 0 <= i < |matches| && Counts(matches[i], key) :: matches[i].finishedAt <= r.lastPlayedAt)
      && (r.games > 0 ==> exists i :: 0 <= i < |matches| && Counts(matches[i], key) && matches[i].finishedAt == r.lastPlayedAt)
  {
    if matches != [] {
      var rest, m := matches[..|matches| - 1], matches[|matches| - 1];
      TallyAddsUp(rest, key);
      assert matches[|matches| - 1] == m;
      var before, r := HeroTally(rest, key), HeroTally(matches, key);
      if Counts(m, key) && m.finishedAt == r.lastPlayedAt {
        assert Counts(matches[|matches| - 1], key);
      } else if before.games > 0 {
        var i :| 0 <= i < |rest| && Counts(rest[i], key) && rest[i].finishedAt == before.lastPlayedAt;
        assert matches[i] == rest[i];
        assert r.lastPlayedAt == before.lastPlayedAt;
      }
    }
  }

  lemma {:induction false} MatchupTallyAddsUp(matches: seq<Match>, key: MatchupKey)
    ensures var r := MatchupTally(matches, key); r.games == r.wins + r.losses + r.draws
  {
    if matches != [] {
      MatchupTallyAddsUp(matches[..|matches| - 1], key);
    }
  }

  /** How many seats over all matches have a property. */
  function CountSeats(matches: seq<Match>, p: (Match, Seat) -> bool): nat {
    if matches == [] then 0
    else
      var m := matches[|matches| - 1];
      CountSeats(matches[..|matches| - 1], p) + (if p(m, First) then 1 else 0) + if p(m, Second) then 1 else 0
  }

  lemma LostToTheOther(m: Match)
    ensures forall seat :: m.winner == Some(Other(seat)) <==> m.winner.Some? && m.winner != Some(seat)
  {
    assert m.winner.Some? ==> m.winner.value == First || m.winner.value == Second;
  }

  predicate Undecided(m: Match, drawn: bool) { m.winner.None? && m.endReason.Draw? == drawn }

  /** What each column counts, said of the rows: seats of this counter that won, that lost, that drew, and
      whose game ended without a result. */
  lemma {:induction false} ColumnsMean(matches: seq<Match>, key: HeroKey)
    ensures var r := HeroTally(matches, key);
      && r.games == CountSeats(matches, (m, seat) => CountsFor(m, seat, key))
      && r.wins == CountSeats(matches, (m, seat) => CountsFor(m, seat, key) && m.winner == Some(seat))
      && r.losses == CountSeats(matches, (m, seat) => CountsFor(m, seat, key) && m.winner == Some(Other(seat)))
      && r.draws == CountSeats(matches, (m, seat) => CountsFor(m, seat, key) && Undecided(m, true))
      && r.ended == CountSeats(matches, (m, seat) => CountsFor(m, seat, key) && Undecided(m, false))
  {
    if matches != [] {
      ColumnsMean(matches[..|matches| - 1], key);
      LostToTheOther(matches[|matches| - 1]);
    }
  }

  /** The matchup columns count the same way, over games with a result only. */
  lemma {:induction false} MatchupColumnsMean(matches: seq<Match>, key: MatchupKey)
    ensures var r := MatchupTally(matches, key);
      && r.wins == CountSeats(matches, (m, seat) => CountsForMatchup(m, seat, key) && m.winner == Some(seat))
      && r.losses == CountSeats(matches, (m, seat) => CountsForMatchup(m, seat, key) && m.winner == Some(Other(seat)))
      && r.draws == CountSeats(matches, (m, seat) => CountsForMatchup(m, seat, key) && Undecided(m, true))
  {
    if matches != [] {
      MatchupColumnsMean(matches[..|matches| - 1], key);
      LostToTheOther(matches[|matches| - 1]);
    }
  }

  /** What an account can read off its counters after any run that starts empty. */
  lemma StoredRecordsAddUp(steps: seq<Step>, key: HeroKey, matchup: MatchupKey)
    ensures var db := Run(Db({}, [], map[], map[]), steps);
      && (key in db.heroes ==> var r := db.heroes[key]; r.games == r.wins + r.losses + r.draws + r.ended)
      && (matchup in db.matchups ==> var r := db.matchups[matchup]; r.games == r.wins + r.losses + r.draws)
  {
    var empty := Db({}, [], map[], map[]);
    assert Consistent(empty);
    RunConsistent(empty, steps);
    var db := Run(empty, steps);
    assert HeroAgrees(db, key) && MatchupAgrees(db, matchup);
    TallyAddsUp(db.matches, key);
    MatchupTallyAddsUp(db.matches, matchup);
  }

  /** The account's own seat loses account, name and deck name; any other seat stays as it is. */
  predicate SeatForgets(p: Participant, p': Participant, user: nat) {
    if p.userId == Some(user)
    then p'.userId == None && p'.username == None && p'.deckName == None
         && p'.controller == p.controller && p'.botId == p.botId && p'.heroId == p.heroId
    else p' == p
  }

  predicate RowForgets(m: Match, m': Match, user: nat) {
    && SeatForgets(m.first, m'.first, user) && SeatForgets(m.second, m'.second, user)
    && m'.id == m.id && m'.roomCode == m.roomCode && m'.format == m.format && m'.botMode == m.botMode
    && m'.winner == m.winner && m'.endReason == m.endReason && m'.startedAt == m.startedAt && m'.finishedAt == m.finishedAt
  }

  /** What is left after a deletion: one row, in place of each match somebody else can still see, that has
      forgotten the account and nothing else. */
  lemma DeletionMeans(db: Db, user: nat)
    requires user in db.users
    ensures var after := Deleting(db, user);
      && (forall m' :: m' in after.matches ==> exists m :: m in db.matches && RowForgets(m, m', user))
      && (forall m :: m in db.matches && (exists other :: other != user && (m.first.userId == Some(other) || m.second.userId == Some(other)))
                      ==> exists m' :: m' in after.matches && RowForgets(m, m', user))
      && after.users == db.users - {user}
      && (forall key: HeroKey :: key.user != user ==> Lookup(after.heroes, key) == Lookup(db.heroes, key))
      && (forall key: MatchupKey :: key.user != user ==> Lookup(after.matchups, key) == Lookup(db.matchups, key))
      && (forall key :: key in after.heroes ==> key.user != user) && (forall key :: key in after.matchups ==> key.user != user)
  {
    var detached := DetachedAll(db.matches, user);
    SweptExactly(detached);
    forall m' | m' in Deleting(db, user).matches ensures exists m :: m in db.matches && RowForgets(m, m', user) {
      var i :| 0 <= i < |detached| && detached[i] == m';
      assert db.matches[i] in db.matches && RowForgets(db.matches[i], m', user);
    }
    forall m | m in db.matches && (exists other :: other != user && (m.first.userId == Some(other) || m.second.userId == Some(other)))
      ensures exists m' :: m' in Deleting(db, user).matches && RowForgets(m, m', user) {
      var i :| 0 <= i < |db.matches| && db.matches[i] == m;
      assert detached[i] in detached && RowForgets(m, detached[i], user);
    }
  }

  /** Deleting an account leaves no trace of it in the rows, keeps every match another account played
      with its result and that account's own row untouched, and removes the rest. */
  lemma DeletionForgets(db: Db, user: nat)
    requires user in db.users
    ensures forall m :: m in Deleting(db, user).matches ==> m.first.userId != Some(user) && m.second.userId != Some(user)
    ensures forall m :: m in Deleting(db, user).matches <==>
      exists i :: 0 <= i < |db.matches| && m == DetachedMatch(db.matches[i], user) && Visible(m)
    ensures forall m, seat :: At(m, seat).userId != Some(user) ==> At(DetachedMatch(m, user), seat) == At(m, seat)
  {
    var detached := DetachedAll(db.matches, user);
    SweptExactly(detached);
    forall m ensures m in Deleting(db, user).matches <==>
                     exists i :: 0 <= i < |db.matches| && m == DetachedMatch(db.matches[i], user) && Visible(m) {
      if m in Deleting(db, user).matches {
        var i :| 0 <= i < |detached| && detached[i] == m;
        assert m == DetachedMatch(db.matches[i], user);
      }
      if i :| 0 <= i < |db.matches| && m == DetachedMatch(db.matches[i], user) && Visible(m) {
        assert detached[i] == m;
      }
    }
  }
}
