/**
 From the start of a game to the history page: a game whose two seats hold one
 account is refused when it starts, so no match row ever has one, and paging is
 complete in every table the server can reach.
 */
module MatchGames {
  import opened Common
  import opened MatchRecords
  import opened MatchHistory

  /** The accounts of the two seats, as they are when the game starts. */
  datatype Accounts = Accounts(first: Option<nat>, second: Option<nat>)

  predicate Different(a: Accounts) { a.first.Some? ==> a.first != a.second }

  /** The participant rows of `startReplay`, keyed by account within the new replay: the primary key
      refuses a second row for an account, and the game's first commit with it. */
  method InsertParticipants(accounts: Accounts) returns (rows: Option<map<nat, Seat>>)
    ensures rows.Some? <==> Different(accounts)
    ensures rows.Some? ==>
      forall user :: user in rows.value <==> accounts.first == Some(user) || accounts.second == Some(user)
    ensures rows.Some? ==>
      forall user | user in rows.value :: rows.value[user] == if accounts.first == Some(user) then First else Second
  {
    var inserted: map<nat, Seat> := map[];
    var members := [(First, accounts.first), (Second, accounts.second)];
    for i := 0 to |members|
      invariant i == 0 ==> inserted == map[]
      invariant i == 1 ==> inserted == if accounts.first.Some? then map[accounts.first.value := First] else map[]
      invariant i == 2 ==> Different(accounts)
      invariant i == 2 ==> forall user :: user in inserted <==> accounts.first == Some(user) || accounts.second == Some(user)
      invariant i == 2 ==>
        forall user | user in inserted :: inserted[user] == if accounts.first == Some(user) then First else Second
    {
      var (seat, account) := members[i];
      if account.None? { continue; }
      if account.value in inserted { return None; }
      inserted := inserted[account.value := seat];
    }
    return Some(inserted);
  }

  predicate Seated(seats: Accounts, account: nat) { seats.first == Some(account) || seats.second == Some(account) }

  /** Joining a room with two seats: an account that holds a seat gets that one back. A league room's seats
      are reserved for its two members. */
  function Joined(seats: Accounts, account: nat, reserved: Option<Accounts>): Accounts {
    if Seated(seats, account) then seats
    else match reserved
      case None =>
        if seats.first.None? then seats.(first := Some(account))
        else if seats.second.None? then seats.(second := Some(account))
        else seats
      case Some(members) =>
        if members.first == Some(account) then (if seats.first.None? then seats.(first := Some(account)) else seats)
        else if members.second == Some(account) && seats.second.None? then seats.(second := Some(account))
        else seats
  }

  /** Joining never puts one account into both seats and never moves another account. An account without a
      seat gets one exactly if one is free, the first of two, or in a league room if its own is free. */
  lemma JoiningKeepsSeatsApart(seats: Accounts, account: nat, reserved: Option<Accounts>)
    requires Different(seats)
    ensures var after := Joined(seats, account, reserved);
      && Different(after)
      && (forall other | other != account ::
            && (after.first == Some(other) <==> seats.first == Some(other))
            && (after.second == Some(other) <==> seats.second == Some(other)))
      && (Seated(seats, account) ==> after == seats)
      && (!Seated(seats, account) && reserved.None? ==>
            && (after.first == Some(account) <==> seats.first.None?)
            && (after.second == Some(account) <==> seats.first.Some? && seats.second.None?))
      && (!Seated(seats, account) && reserved.Some? ==>
            && (after.first == Some(account) <==> seats.first.None? && reserved.value.first == Some(account))
            && (after.second == Some(account) <==>
                  seats.second.None? && reserved.value.second == Some(account) && reserved.value.first != Some(account)))
  {
  }

  // ---------------------------------------------------------------- every reachable table

  /** The match tables and the games that have started. */
  datatype Server = Server(db: Db, started: map<nat, Accounts>)

  const Fresh: Server := Server(Db({}, [], map[], map[]), map[])

  datatype Event = Start(game: nat, accounts: Accounts) | Finish(game: nat, input: MatchInput, id: string)
                 | Delete(user: nat) | Sweep | Register(user: nat)

  /** The seats keep their accounts during a game, or lose them. */
  predicate SeatedAs(member: SeatInput, account: Option<nat>) { member.userId == account || member.userId.None? }

  /** A match is recorded for a game that started, under a random id of 24 hex digits. */
  predicate Enabled(s: Server, e: Event) {
    match e
    case Start(game, _) => game !in s.started
    case Finish(game, input, id) =>
      && game in s.started && SeatedAs(input.first, s.started[game].first) && SeatedAs(input.second, s.started[game].second)
      && Storable(Key(input.finishedAt, id))
    case _ => true
  }

  function Happens(s: Server, e: Event): Server {
    match e
    case Start(game, accounts) => if Different(accounts) then s.(started := s.started[game := accounts]) else s
    case Finish(_, input, id) => s.(db := Recording(s.db, input, id).0)
    case Delete(user) => s.(db := Deleting(s.db, user))
    case Sweep => s.(db := s.db.(matches := Swept(s.db.matches)))
    case Register(user) => s.(db := s.db.(users := s.db.users + {user}))
  }

  function After(events: seq<Event>): Server {
    if events == [] then Fresh else Happens(After(events[..|events| - 1]), events[|events| - 1])
  }

  ghost predicate Possible(events: seq<Event>) {
    events == [] || (Possible(events[..|events| - 1]) && Enabled(After(events[..|events| - 1]), events[|events| - 1]))
  }

  /** No account sits at both seats, and the row's key can be printed in a cursor. */
  predicate Sound(m: Match) { Different(Accounts(m.first.userId, m.second.userId)) && Storable(Key(m.finishedAt, m.id)) }

  ghost predicate Inv(s: Server) {
    && RowsApart(s.db.matches) && (forall m :: m in s.db.matches ==> Sound(m))
    && forall game :: game in s.started ==> Different(s.started[game])
  }

  lemma RemovalKeepsInv(s: Server, matches: seq<Match>)
    requires Inv(s) && RowsApart(matches) && forall m :: m in matches ==> Sound(m)
    ensures Inv(s.(db := s.db.(matches := Swept(matches))))
  {
    SweptApart(matches);
    SweptExactly(matches);
  }

  lemma DeletionKeepsInv(s: Server, user: nat)
    requires Inv(s)
    ensures Inv(s.(db := Deleting(s.db, user)))
  {
    var detached := DetachedAll(s.db.matches, user);
    forall i, j | 0 <= i < j < |detached| ensures MatchRecords.Apart(detached[i], detached[j]) {
      assert MatchRecords.Apart(s.db.matches[i], s.db.matches[j]);
    }
    forall m | m in detached ensures Sound(m) {
      var i :| 0 <= i < |detached| && detached[i] == m;
      assert s.db.matches[i] in s.db.matches;
    }
    RemovalKeepsInv(s, detached);
  }

  lemma FinishKeepsInv(s: Server, game: nat, input: MatchInput, id: string)
    requires Inv(s) && Enabled(s, Finish(game, input, id))
    ensures Inv(Happens(s, Finish(game, input, id)))
  {
    var (after, result) := Recording(s.db, input, id);
    if result.Recorded? {
      var m := MatchRow(id, input);
      assert after.matches == s.db.matches + [m];
      assert Different(s.started[game]);
      assert Sound(m);
    }
  }

  lemma {:induction false} RunKeepsInv(events: seq<Event>)
    requires Possible(events)
    ensures Inv(After(events))
  {
    if events != [] {
      var s := After(events[..|events| - 1]);
      RunKeepsInv(events[..|events| - 1]);
      match events[|events| - 1]
      case Start(_, _) =>
      case Finish(game, input, id) => FinishKeepsInv(s, game, input, id);
      case Delete(user) => DeletionKeepsInv(s, user);
      case Sweep => RemovalKeepsInv(s, s.db.matches);
      case Register(_) =>
    }
  }

  /** The accounts are the registered ones that were not deleted since. */
  lemma {:induction false} AccountsAre(events: seq<Event>, user: nat)
    ensures user in After(events).db.users <==>
      exists i :: 0 <= i < |events| && events[i] == Event.Register(user) && forall j :: i < j < |events| ==> events[j] != Event.Delete(user)
  {
    if events != [] {
      var before, last := events[..|events| - 1], events[|events| - 1];
      AccountsAre(before, user);
      assert forall i :: 0 <= i < |before| ==> events[i] == before[i];
      assert user in After(events).db.users <==> last == Event.Register(user) || (user in After(before).db.users && last != Event.Delete(user));
      if user in After(before).db.users && last != Event.Delete(user) {
        var i :| 0 <= i < |before| && before[i] == Event.Register(user) && forall j :: i < j < |before| ==> before[j] != Event.Delete(user);
        assert events[i] == Event.Register(user);
      }
    }
  }

  /** The games under way are the ones that started with two different accounts, with those accounts. */
  lemma {:induction false} GamesAre(events: seq<Event>, game: nat, accounts: Accounts)
    requires Possible(events)
    ensures (game in After(events).started && After(events).started[game] == accounts) <==>
            Different(accounts) && Start(game, accounts) in events
    ensures game !in After(events).started <==>
            forall other :: Start(game, other) in events ==> !Different(other)
  {
    if events != [] {
      var before, last := events[..|events| - 1], events[|events| - 1];
      GamesAre(before, game, accounts);
      assert forall e :: e in events <==> e in before || e == last;
      if game in After(before).started { GamesAre(before, game, After(before).started[game]); }
      if last.Start? { assert Start(game, last.accounts) in events <==> Start(game, last.accounts) in before || last.game == game; }
    }
  }

  /** A game that ends for the first time, between accounts that still exist, is in the table as it was
      reported. */
  lemma FinishedGamesAreThere(events: seq<Event>, game: nat, input: MatchInput, id: string)
    requires Possible(events + [Finish(game, input, id)])
    requires !RecordedBefore(After(events).db.matches, input) && (forall m :: m in After(events).db.matches ==> m.id != id)
    requires !Stranger(After(events).db, input.first) && !Stranger(After(events).db, input.second)
    ensures var s := After(events + [Finish(game, input, id)]);
      GameWritten(After(events).db, s.db, input, id) && exists m :: m in s.db.matches && RowShows(m, input, id)
  {
    FrontOfSnoc(events, Finish(game, input, id));
    var s := After(events);
    RecordingMeans(s.db, input, id);
    var db := Recording(s.db, input, id).0;
    assert db.matches[|s.db.matches|] in db.matches;
  }

  /** In every table the server can reach, for every account, filter and page size, following the printed
      cursors ends and the pages concatenate to the complete history. */
  lemma EveryHistoryPages(events: seq<Event>, user: nat, filters: Filters)
    requires Possible(events)
    ensures var table := After(events).db.matches; WellFormedTable(table) && PagesCoverHistory(table, user, filters)
  {
    RunKeepsInv(events);
    var table := After(events).db.matches;
    assert forall m :: m in table ==> Sound(m);
    PagesAreTheHistory(table, user, filters);
  }
}
