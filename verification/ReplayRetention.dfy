/**
 Who may remove a retained replay, and when. Every database statement or
 transaction is one step; the steps of any number of gateways interleave freely.
 */
module ReplayRetention {
  import opened Common

  const REPLAY_TTL_MS: int := 7 * 24 * 60 * 60 * 1000
  const MAX_FAVORITE_REPLAYS: nat := 20

  type Id = nat
  type User = nat

  datatype Status = Recording | Finalizing | Ready

  /** `roomGone`: the room the recording belongs to no longer exists; it cannot come back. */
  datatype Game = Game(status: Status, expiresAt: Option<int>, roomGone: bool)

  /** Games, the participants' copies with their favourite flag, accounts, the ids ever drawn, and the
      ids that some sweep has read and will delete later. */
  datatype Db = Db(games: map<Id, Game>, copies: map<(Id, User), bool>, users: set<User>,
                   issued: set<Id>, condemned: set<Id>)

  function Favorites(copies: map<(Id, User), bool>, user: User): set<Id> {
    set k | k in copies && k.1 == user && copies[k] :: k.0
  }

  predicate Unreferenced(copies: map<(Id, User), bool>, id: Id) {
    forall k | k in copies :: k.0 != id
  }

  /** A game that no step can ever make a ready copy of. */
  predicate Doomed(db: Db, id: Id) {
    id in db.games ==> Unreferenced(db.copies, id) || (db.games[id].status.Recording? && db.games[id].roomGone)
  }

  ghost predicate Valid(db: Db) {
    && (forall k | k in db.copies :: k.0 in db.games && k.1 in db.users)
    && (forall k | k in db.copies && db.copies[k] :: db.games[k.0].status.Ready?)
    && (forall id | id in db.games && !db.games[id].status.Recording? :: db.games[id].expiresAt.Some?)
    && (forall user :: |Favorites(db.copies, user)| <= MAX_FAVORITE_REPLAYS)
    && (forall id | id in db.condemned :: Doomed(db, id))
    && db.games.Keys <= db.issued && db.condemned <= db.issued
  }

  /** Deleting games takes their copies with them. */
  function WithoutGames(db: Db, ids: set<Id>): Db {
    db.(games := map id | id in db.games && id !in ids :: db.games[id],
        copies := map k | k in db.copies && k.0 !in ids :: db.copies[k])
  }

  function WithoutCopies(db: Db, gone: set<(Id, User)>): Db {
    db.(copies := map k | k in db.copies && k !in gone :: db.copies[k])
  }

  /** DELETE FROM replay_games WHERE id = $1 AND NOT EXISTS (a participant). */
  function DropIfUnreferenced(db: Db, id: Id): Db {
    if Unreferenced(db.copies, id) then WithoutGames(db, {id}) else db
  }

  function Expiry(game: Game): int { if game.expiresAt.Some? then game.expiresAt.value else 0 }

  // ---------------------------------------------------------------- the transactions

  datatype FavoriteResult = Updated | Limit | NotFound

  function SetFavorite(db: Db, user: User, id: Id, favorite: bool, now: int): (Db, FavoriteResult) {
    if user !in db.users || (id, user) !in db.copies || id !in db.games || !db.games[id].status.Ready?
       || !(db.copies[(id, user)] || Expiry(db.games[id]) > now) then (db, NotFound)
    else if db.copies[(id, user)] == favorite then (db, Updated)
    else if favorite && |Favorites(db.copies, user)| >= MAX_FAVORITE_REPLAYS then (db, Limit)
    else if !favorite && Expiry(db.games[id]) <= now then
      (DropIfUnreferenced(WithoutCopies(db, {(id, user)}), id), Updated)
    else (db.(copies := db.copies[(id, user) := favorite]), Updated)
  }

  function DeleteCopy(db: Db, user: User, id: Id): Db {
    if id !in db.games || !db.games[id].status.Ready? || (id, user) !in db.copies then db
    else DropIfUnreferenced(WithoutCopies(db, {(id, user)}), id)
  }

  /** The transaction a sweep runs for one id it read as expired. */
  function SweepExpired(db: Db, id: Id, now: int): Db {
    if id !in db.games || Expiry(db.games[id]) > now then db
    else DropIfUnreferenced(WithoutCopies(db, set k | k in db.copies && k.0 == id && !db.copies[k]), id)
  }

  function DeleteAccount(db: Db, user: User): Db {
    var detached := WithoutCopies(db, set k | k in db.copies && k.1 == user).(users := db.users - {user});
    WithoutGames(detached, set id | id in db.games && Unreferenced(detached.copies, id))
  }

  // ---------------------------------------------------------------- what the participants' requests mean

  /** The account holds a copy of a ready replay that is favourited or unexpired. */
  predicate Holds(db: Db, user: User, id: Id, now: int) {
    && user in db.users && (id, user) in db.copies && id in db.games && db.games[id].status == Ready
    && (db.copies[(id, user)] || Unexpired(db.games[id], now))
  }

  predicate Unexpired(game: Game, now: int) { game.expiresAt.Some? && game.expiresAt.value > now }

  /** Every copy but this one, and every game but this one, is as it was. */
  ghost predicate OthersUntouched(db: Db, db': Db, user: User, id: Id) {
    && db'.users == db.users && db'.issued == db.issued && db'.condemned == db.condemned
    && (forall k: (Id, User) | k != (id, user) :: (k in db'.copies <==> k in db.copies) && (k in db.copies ==> db'.copies[k] == db.copies[k]))
    && (forall g: Id | g != id :: (g in db'.games <==> g in db.games) && (g in db.games ==> db'.games[g] == db.games[g]))
    && (id in db'.games ==> id in db.games && db'.games[id] == db.games[id])
  }

  /** The copy is gone, and the game with it exactly when no other copy is left. */
  ghost predicate CopyGone(db: Db, db': Db, user: User, id: Id) {
    (id, user) !in db'.copies && (id in db'.games <==> exists other :: other != user && (id, other) in db.copies)
  }

  /** What a request about a favourite answers and writes. */
  ghost predicate Favorited(db: Db, db': Db, user: User, id: Id, favorite: bool, now: int, result: FavoriteResult) {
    && (result == NotFound <==> !Holds(db, user, id, now))
    && (result == Limit <==> Holds(db, user, id, now) && favorite && !db.copies[(id, user)]
                             && |Favorites(db.copies, user)| >= MAX_FAVORITE_REPLAYS)
    && OthersUntouched(db, db', user, id)
    && (result != Updated ==> db' == db)
    && (result == Updated && favorite ==> (id, user) in db'.copies && db'.copies[(id, user)] && id in db'.games)
    && (result == Updated && !favorite ==>
          if id in db.games && Unexpired(db.games[id], now) then (id, user) in db'.copies && !db'.copies[(id, user)] && id in db'.games
          else CopyGone(db, db', user, id))
  }

  lemma DroppedIfUnreferenced(db: Db, user: User, id: Id)
    requires Valid(db) && (id, user) in db.copies
    ensures var db' := DropIfUnreferenced(WithoutCopies(db, {(id, user)}), id);
      OthersUntouched(db, db', user, id) && CopyGone(db, db', user, id)
  {
    var left := WithoutCopies(db, {(id, user)}).copies;
    if other :| other != user && (id, other) in db.copies { assert (id, other) in left; }
    if k :| k in left && k.0 == id { assert (id, k.1) in db.copies; }
  }

  lemma SetFavoriteMeans(db: Db, user: User, id: Id, favorite: bool, now: int)
    requires Valid(db)
    ensures var (db', result) := SetFavorite(db, user, id, favorite, now); Favorited(db, db', user, id, favorite, now, result)
  {
    if Holds(db, user, id, now) { DroppedIfUnreferenced(db, user, id); }
  }

  lemma DeleteCopyMeans(db: Db, user: User, id: Id)
    requires Valid(db)
    ensures var db' := DeleteCopy(db, user, id);
      && OthersUntouched(db, db', user, id)
      && (if (id, user) in db.copies && db.games[id].status == Ready then CopyGone(db, db', user, id) else db' == db)
  {
    if (id, user) in db.copies { DroppedIfUnreferenced(db, user, id); }
  }

  /** The tables behind the HTTP handlers and the maintenance sweep. */
  class ReplayTables {
    var db: Db

    constructor ()
      ensures db == Db(map[], map[], {}, {}, {})
    {
      db := Db(map[], map[], {}, {}, {});
    }

    method SetReplayFavorite(user: User, id: Id, favorite: bool, now: int) returns (result: FavoriteResult)
      modifies this
      ensures (db, result) == SetFavorite(old(db), user, id, favorite, now)
      ensures Valid(old(db)) ==> Favorited(old(db), db, user, id, favorite, now, result)
    {
      if Valid(db) { SetFavoriteMeans(db, user, id, favorite, now); }
      if user !in db.users { return NotFound; }
      if (id, user) !in db.copies || id !in db.games || !db.games[id].status.Ready?
         || !(db.copies[(id, user)] || Expiry(db.games[id]) > now) { return NotFound; }
      if db.copies[(id, user)] == favorite { return Updated; }
      if favorite {
        var count := |Favorites(db.copies, user)|;
        if count >= MAX_FAVORITE_REPLAYS { return Limit; }
      }
      var expiresAt := Expiry(db.games[id]);
      if !favorite && expiresAt <= now {
        db := db.(copies := db.copies[(id, user) := favorite]);
        db := WithoutCopies(db, {(id, user)});
        assert db == WithoutCopies(old(db), {(id, user)});
        db := DropIfUnreferenced(db, id);
      } else {
        db := db.(copies := db.copies[(id, user) := favorite]);
      }
      return Updated;
    }

    method DeleteReplay(user: User, id: Id) returns (removed: bool)
      modifies this
      ensures db == DeleteCopy(old(db), user, id)
      ensures removed == (id in old(db).games && old(db).games[id].status.Ready? && (id, user) in old(db).copies)
      ensures Valid(old(db)) ==> OthersUntouched(old(db), db, user, id)
      ensures Valid(old(db)) ==> if removed then CopyGone(old(db), db, user, id) else db == old(db)
    {
      if Valid(db) { DeleteCopyMeans(db, user, id); }
      if id !in db.games || !db.games[id].status.Ready? { return false; }
      if (id, user) !in db.copies { return false; }
      db := WithoutCopies(db, {(id, user)});
      if Unreferenced(db.copies, id) { db := WithoutGames(db, {id}); }
      return true;
    }

    /** One id of the first loop of `sweepReplays`; true when the game itself went. */
    method SweepExpiredReplay(id: Id, now: int) returns (deleted: bool)
      modifies this
      ensures db == SweepExpired(old(db), id, now)
      ensures deleted == (id in old(db).games && id !in db.games)
    {
      if id !in db.games || Expiry(db.games[id]) > now { return false; }
      db := WithoutCopies(db, set k | k in db.copies && k.0 == id && !db.copies[k]);
      deleted := Unreferenced(db.copies, id);
      if deleted { db := WithoutGames(db, {id}); }
    }
  }

  // ---------------------------------------------------------------- all steps of all gateways

  datatype Step =
    | Start(id: Id, seats: set<User>)
    | Finish(id: Id, now: int)
    | Finalize(id: Id)
    | Discard(ids: set<Id>)
    | RoomGone(id: Id)
    | Register(user: User)
    | Favorite(user: User, id: Id, favorite: bool, now: int)
    | Delete(user: User, id: Id)
    | CloseAccount(user: User)
    | Sweep(id: Id, now: int)
    | CollectOrphans(ids: set<Id>)
    | CollectAbandoned(ids: set<Id>)
    | DeleteCollected(id: Id)

  /** When a step can be taken. A recording ends in the transaction that commits its room, so only
      while that room exists; `Discard` removes unfinished replays only. */
  ghost predicate Enabled(db: Db, step: Step) {
    match step
    case Start(id, seats) => id !in db.issued && seats <= db.users
    case Finish(id, _) => id in db.games && db.games[id].status.Recording? && !db.games[id].roomGone
    case Finalize(id) => id in db.games && db.games[id].status.Finalizing?
    case Discard(ids) => forall id | id in ids && id in db.games :: !db.games[id].status.Ready?
    case CollectOrphans(ids) => forall id | id in ids :: id in db.games && Unreferenced(db.copies, id)
    case CollectAbandoned(ids) =>
      forall id | id in ids :: id in db.games && db.games[id].status.Recording? && db.games[id].roomGone
    case DeleteCollected(id) => id in db.condemned
    case _ => true
  }

  function Next(db: Db, step: Step): Db {
    match step
    case Start(id, seats) =>
      db.(games := db.games[id := Game(Recording, None, false)],
          copies := db.copies + map user | user in seats :: (id, user) := false,
          issued := db.issued + {id})
    case Finish(id, now) =>
      if id in db.games then db.(games := db.games[id := db.games[id].(status := Finalizing, expiresAt := Some(now + REPLAY_TTL_MS))]) else db
    case Finalize(id) => if id in db.games then db.(games := db.games[id := db.games[id].(status := Ready)]) else db
    case Discard(ids) => WithoutGames(db, ids)
    case RoomGone(id) => if id in db.games then db.(games := db.games[id := db.games[id].(roomGone := true)]) else db
    case Register(user) => db.(users := db.users + {user})
    case Favorite(user, id, favorite, now) => SetFavorite(db, user, id, favorite, now).0
    case Delete(user, id) => DeleteCopy(db, user, id)
    case CloseAccount(user) => DeleteAccount(db, user)
    case Sweep(id, now) => SweepExpired(db, id, now)
    case CollectOrphans(ids) => db.(condemned := db.condemned + ids)
    case CollectAbandoned(ids) => db.(condemned := db.condemned + ids)
    case DeleteCollected(id) => WithoutGames(db, {id})
  }

  lemma FavoritesShrink(before: map<(Id, User), bool>, after: map<(Id, User), bool>, user: User)
    requires forall k | k in after && after[k] :: k in before && before[k]
    ensures |Favorites(after, user)| <= |Favorites(before, user)|
  {
    var small, large := Favorites(after, user), Favorites(before, user);
    assert forall id | id in small :: (id, user) in after && id in large;
    assert large == small + (large - small);
  }

  lemma FavoriteAdded(copies: map<(Id, User), bool>, user: User, id: Id, other: User)
    requires (id, user) in copies && !copies[(id, user)]
    ensures |Favorites(copies[(id, user) := true], other)| == |Favorites(copies, other)| + (if other == user then 1 else 0)
  {
    var after := copies[(id, user) := true];
    if other == user {
      assert (id, user) in after;
      assert Favorites(after, user) == Favorites(copies, user) + {id};
    } else {
      assert Favorites(after, other) == Favorites(copies, other);
    }
  }

  lemma FewerCopies(db: Db, after: Db)
    requires Valid(db)
    requires forall k | k in after.copies :: k in db.copies && after.copies[k] == db.copies[k] && k.0 in after.games && k.1 in after.users
    requires forall id | id in after.games :: id in db.games && after.games[id] == db.games[id]
    requires after.issued == db.issued && after.condemned == db.condemned
    ensures Valid(after)
  {
    forall user ensures |Favorites(after.copies, user)| <= MAX_FAVORITE_REPLAYS {
      FavoritesShrink(db.copies, after.copies, user);
    }
  }

  lemma SetFavoriteValid(db: Db, user: User, id: Id, favorite: bool, now: int)
    requires Valid(db)
    ensures Valid(SetFavorite(db, user, id, favorite, now).0)
  {
    var (after, result) := SetFavorite(db, user, id, favorite, now);
    if after != db && (id, user) in after.copies {
      forall other ensures |Favorites(after.copies, other)| <= MAX_FAVORITE_REPLAYS {
        if favorite { FavoriteAdded(db.copies, user, id, other); } else { FavoritesShrink(db.copies, after.copies, other); }
      }
    } else if after != db {
      FewerCopies(db, after);
    }
  }

  lemma StartValid(db: Db, id: Id, seats: set<User>)
    requires Valid(db) && Enabled(db, Start(id, seats))
    ensures Valid(Next(db, Start(id, seats)))
  {
    var after := Next(db, Start(id, seats));
    forall user ensures |Favorites(after.copies, user)| <= MAX_FAVORITE_REPLAYS {
      FavoritesShrink(db.copies, after.copies, user);
    }
    assert forall k | k in after.copies :: k in db.copies || (k.0 == id && k.1 in seats);
    forall c | c in after.condemned ensures Doomed(after, c) {
      assert Doomed(db, c);
    }
  }

  /** Changing one game forward keeps the tables consistent. */
  lemma GameUpdated(db: Db, id: Id, game: Game)
    requires Valid(db) && id in db.games
    requires db.games[id].status.Ready? ==> game.status.Ready?
    requires !game.status.Recording? ==> game.expiresAt.Some?
    requires db.games[id].status.Recording? && db.games[id].roomGone ==> game.status.Recording? && game.roomGone
    ensures Valid(db.(games := db.games[id := game]))
  {
    var after := db.(games := db.games[id := game]);
    forall c | c in after.condemned ensures Doomed(after, c) {
      assert Doomed(db, c);
    }
  }

  /** Steps that only take games or copies away. */
  predicate Removes(step: Step) {
    step.Discard? || step.Delete? || step.CloseAccount? || step.Sweep? || step.DeleteCollected?
  }

  lemma RemovalValid(db: Db, step: Step)
    requires Valid(db) && Enabled(db, step) && Removes(step)
    ensures Valid(Next(db, step))
  {
    FewerCopies(db, Next(db, step));
  }

  /** Every step of every gateway keeps the tables consistent: a favourite implies a ready replay,
      nobody exceeds the cap, and a condemned id stays condemnable. */
  lemma StepValid(db: Db, step: Step)
    requires Valid(db) && Enabled(db, step)
    ensures Valid(Next(db, step))
  {
    match step {
      case Start(id, seats) => StartValid(db, id, seats);
      case Favorite(user, id, favorite, now) => SetFavoriteValid(db, user, id, favorite, now);
      case Finish(id, now) => GameUpdated(db, id, db.games[id].(status := Finalizing, expiresAt := Some(now + REPLAY_TTL_MS)));
      case Finalize(id) => GameUpdated(db, id, db.games[id].(status := Ready));
      case RoomGone(id) => if id in db.games { GameUpdated(db, id, db.games[id].(roomGone := true)); }
      case _ => if Removes(step) { RemovalValid(db, step); }
    }
  }

  function Rank(status: Status): nat { if status.Recording? then 0 else if status.Finalizing? then 1 else 2 }

  /** Status only moves forward; a game that disappears never returns. */
  lemma StatusMovesForward(db: Db, step: Step, id: Id)
    requires Valid(db) && Enabled(db, step) && id in db.games
    ensures id in Next(db, step).games ==> Rank(db.games[id].status) <= Rank(Next(db, step).games[id].status)
                                           && Rank(Next(db, step).games[id].status) <= Rank(db.games[id].status) + 1
    ensures db.issued <= Next(db, step).issued
  {
  }

  /** A ready copy that is favourited or, at time `now`, unexpired. */
  predicate Retained(db: Db, id: Id, user: User, now: int) {
    (id, user) in db.copies && id in db.games && db.games[id].status.Ready?
    && (db.copies[(id, user)] || Expiry(db.games[id]) > now)
  }

  /** Steps taken by the copy's own account. */
  predicate ByOwner(step: Step, user: User) {
    (step.Favorite? || step.Delete? || step.CloseAccount?) && step.user == user
  }

  /** The clock a sweep runs on; other steps do not look at the copy's expiry. */
  predicate SweepsBy(step: Step, now: int) { step.Sweep? ==> step.now <= now }

  lemma RetainedByRemoval(db: Db, step: Step, id: Id, user: User, now: int)
    requires Valid(db) && Enabled(db, step) && Retained(db, id, user, now) && Removes(step)
    requires !ByOwner(step, user) && SweepsBy(step, now)
    ensures Retained(Next(db, step), id, user, now)
    ensures Next(db, step).copies[(id, user)] == db.copies[(id, user)] && Next(db, step).games[id] == db.games[id]
  {
    match step {
      case Discard(_) =>
      case Delete(other, _) => assert (id, user) in WithoutCopies(db, {(step.id, other)}).copies;
      case CloseAccount(other) =>
        assert (id, user) in WithoutCopies(db, set k | k in db.copies && k.1 == other).copies;
      case DeleteCollected(gone) => assert Doomed(db, gone);
      case Sweep(expired, at) =>
        assert (id, user) in WithoutCopies(db, set k | k in db.copies && k.0 == expired && !db.copies[k]).copies
               || Expiry(db.games[id]) > at;
    }
  }

  lemma RetainedByFavorite(db: Db, step: Step, id: Id, user: User, now: int)
    requires Valid(db) && Retained(db, id, user, now) && step.Favorite? && step.user != user
    ensures Retained(Next(db, step), id, user, now)
    ensures Next(db, step).copies[(id, user)] == db.copies[(id, user)] && Next(db, step).games[id] == db.games[id]
  {
    assert (id, user) in WithoutCopies(db, {(step.id, step.user)}).copies;
  }

  /** No sweep and no step of anybody else removes or changes a retained copy. */
  lemma RetainedByStep(db: Db, step: Step, id: Id, user: User, now: int)
    requires Valid(db) && Enabled(db, step) && Retained(db, id, user, now)
    requires !ByOwner(step, user) && SweepsBy(step, now)
    ensures Retained(Next(db, step), id, user, now)
    ensures Next(db, step).copies[(id, user)] == db.copies[(id, user)]
    ensures Next(db, step).games[id].expiresAt == db.games[id].expiresAt
  {
    if Removes(step) {
      RetainedByRemoval(db, step, id, user, now);
    } else if step.Favorite? {
      RetainedByFavorite(db, step, id, user, now);
    }
  }

  function Run(db: Db, steps: seq<Step>): Db
    decreases |steps|
  {
    if steps == [] then db else Run(Next(db, steps[0]), steps[1..])
  }

  ghost predicate Possible(db: Db, steps: seq<Step>)
    decreases |steps|
  {
    steps == [] || (Enabled(db, steps[0]) && Possible(Next(db, steps[0]), steps[1..]))
  }

  /** Retention over whole runs: whatever the gateways, the sweeps and the opponent do, in whatever
      order, a copy that is favourited or unexpired at `now` stays while no sweep runs on a later
      clock, unless its own account acts. */
  lemma {:induction false} RetainedForever(db: Db, steps: seq<Step>, id: Id, user: User, now: int)
    requires Valid(db) && Possible(db, steps) && Retained(db, id, user, now)
    requires forall i | 0 <= i < |steps| :: !ByOwner(steps[i], user) && SweepsBy(steps[i], now)
    ensures Valid(Run(db, steps)) && Retained(Run(db, steps), id, user, now)
    ensures Run(db, steps).copies[(id, user)] == db.copies[(id, user)]
    decreases |steps|
  {
    if steps != [] {
      StepValid(db, steps[0]);
      RetainedByStep(db, steps[0], id, user, now);
      RetainedForever(Next(db, steps[0]), steps[1..], id, user, now);
    }
  }

  /** A favourited copy stays for good: no condition on any clock. */
  lemma {:induction false} FavoriteStaysForever(db: Db, steps: seq<Step>, id: Id, user: User, now: int)
    requires Valid(db) && Possible(db, steps) && Retained(db, id, user, now) && db.copies[(id, user)]
    requires forall i | 0 <= i < |steps| :: !ByOwner(steps[i], user)
    ensures Retained(Run(db, steps), id, user, now) && Run(db, steps).copies[(id, user)]
    decreases |steps|
  {
    if steps != [] {
      var clock := if steps[0].Sweep? then steps[0].now else now;
      StepValid(db, steps[0]);
      RetainedByStep(db, steps[0], id, user, clock);
      FavoriteStaysForever(Next(db, steps[0]), steps[1..], id, user, now);
    }
  }

  /** From the request on: an account that holds a copy and is below the cap favourites it, and whatever
      anybody else does afterwards the favourited copy is there. */
  lemma FavoritedForGood(db: Db, user: User, id: Id, now: int, steps: seq<Step>)
    requires Valid(db) && Holds(db, user, id, now) && |Favorites(db.copies, user)| < MAX_FAVORITE_REPLAYS
    requires Possible(Next(db, Favorite(user, id, true, now)), steps)
    requires forall i | 0 <= i < |steps| :: !ByOwner(steps[i], user)
    ensures var later := Run(Next(db, Favorite(user, id, true, now)), steps);
      (id, user) in later.copies && later.copies[(id, user)] && id in later.games && later.games[id].status == Ready
  {
    SetFavoriteMeans(db, user, id, true, now);
    StepValid(db, Favorite(user, id, true, now));
    FavoriteStaysForever(Next(db, Favorite(user, id, true, now)), steps, id, user, now);
  }

  /** What a sweep does remove: every unfavourited copy of the expired replay, and the game exactly
      when no favourite keeps it. */
  lemma SweepRemovesTheRest(db: Db, id: Id, now: int)
    requires Valid(db) && id in db.games && Expiry(db.games[id]) <= now
    ensures forall k | k in db.copies && k.0 == id :: k in SweepExpired(db, id, now).copies <==> db.copies[k]
    ensures id in SweepExpired(db, id, now).games <==> exists k :: k in db.copies && k.0 == id && db.copies[k]
    ensures forall k | k in db.copies && k.0 != id :: k in SweepExpired(db, id, now).copies && k.0 in SweepExpired(db, id, now).games
  {
  }
}
