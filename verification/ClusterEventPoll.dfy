/** How a gateway's poll coalesces refresh hints without any observer noticing. */
module ClusterEventPoll {
  import opened Common
  import opened ClusterEvents

  /** The refresh hints: a reload observes the latest committed room, whatever kind of hint asked for it. */
  predicate IsHint(event: Event) {
    event.Room? && !event.kind.Presence? && !event.kind.Spectators? && !event.kind.Deleted?
  }

  datatype RoomHint = RoomHint(code: string, version: int)

  /** The event a hint is handled as. */
  function SyncOf(hint: RoomHint): Event { Room(hint.code, Sync, hint.version) }

  function Syncs(hints: seq<RoomHint>): seq<Event> {
    if hints == [] then [] else Syncs(hints[..|hints| - 1]) + [SyncOf(hints[|hints| - 1])]
  }

  /** One step of the pending map: a newer or equal version replaces the hint in place. */
  function Noted(pending: seq<RoomHint>, hint: RoomHint): seq<RoomHint> {
    if pending == [] then [hint]
    else if pending[0].code == hint.code then
      [if pending[0].version <= hint.version then hint else pending[0]] + pending[1..]
    else [pending[0]] + Noted(pending[1..], hint)
  }

  /** The hints that one run of refresh events leaves pending. */
  function Coalesced(run: seq<RoomHint>): seq<RoomHint> {
    if run == [] then [] else Noted(Coalesced(run[..|run| - 1]), run[|run| - 1])
  }

  /** The refresh events after the last other event. */
  function TrailingRun(events: seq<Event>): seq<RoomHint> {
    if events == [] || !IsHint(events[|events| - 1]) then []
    else TrailingRun(events[..|events| - 1]) + [RoomHint(events[|events| - 1].code, events[|events| - 1].version)]
  }

  /** What a poll has handed to the gateway before its final flush. */
  function Flushed(events: seq<Event>): seq<Event> {
    if events == [] then []
    else
      var rest, last := events[..|events| - 1], events[|events| - 1];
      if IsHint(last) then Flushed(rest) else Flushed(rest) + Syncs(Coalesced(TrailingRun(rest))) + [last]
  }

  /** What one poll hands to the gateway for the decoded events of its batch. */
  function Delivered(events: seq<Event>): seq<Event> {
    Flushed(events) + Syncs(Coalesced(TrailingRun(events)))
  }

  /** The well-formed events of some rows; the others are only reported. */
  function Events(rows: seq<Row>): seq<Event> {
    if rows == [] then []
    else
      var e := Decode(rows[|rows| - 1]);
      if e.Some? then Events(rows[..|rows| - 1]) + [e.value] else Events(rows[..|rows| - 1])
  }

  /** The log in id order, as an index scan returns it. */
  ghost predicate InIdOrder(log: seq<Row>) {
    forall i, j | 0 <= i < j < |log| :: log[i].id < log[j].id
  }

  /** Where `WHERE id > cursor` starts in a log in id order. */
  function FirstAfter(log: seq<Row>, cursor: int, from: nat): (i: nat)
    requires from <= |log|
    ensures from <= i <= |log|
    ensures forall k | from <= k < i :: log[k].id <= cursor
    ensures i < |log| ==> log[i].id > cursor
    decreases |log| - from
  {
    if from == |log| || log[from].id > cursor then from else FirstAfter(log, cursor, from + 1)
  }

  /** SELECT ... WHERE id > cursor ORDER BY id LIMIT limit. */
  function Batch(log: seq<Row>, cursor: int, limit: nat): seq<Row> {
    var first := FirstAfter(log, cursor, 0);
    if |log| - first <= limit then log[first..] else log[first..first + limit]
  }

  lemma BatchOrder(log: seq<Row>, cursor: int, limit: nat)
    requires InIdOrder(log)
    ensures InIdOrder(Batch(log, cursor, limit))
    ensures forall i | 0 <= i < |Batch(log, cursor, limit)| :: Batch(log, cursor, limit)[i].id > cursor
  {
    var first := FirstAfter(log, cursor, 0);
    var batch := Batch(log, cursor, limit);
    forall i | 0 <= i < |batch| ensures batch[i].id > cursor {
      assert batch[i] == log[first + i];
      assert i > 0 ==> log[first].id < log[first + i].id;
    }
  }

  ghost predicate NoneBeyond(rows: seq<Row>, cursor: int) {
    forall i | 0 <= i < |rows| :: rows[i].id <= cursor
  }

  /** The id of the last row of a batch, or the old cursor for an empty one. */
  function LastId(rows: seq<Row>, cursor: int): int {
    if |rows| == 0 then cursor else rows[|rows| - 1].id
  }

  lemma OrderConcat(past: seq<Row>, rows: seq<Row>, cursor: int, next: int)
    requires InIdOrder(past) && InIdOrder(rows)
    requires NoneBeyond(past, cursor)
    requires forall i | 0 <= i < |rows| :: rows[i].id > cursor
    requires next == LastId(rows, cursor)
    ensures InIdOrder(past + rows) && cursor <= next && NoneBeyond(past + rows, next)
  {
  }

  /** A batch shorter than the limit reaches the end of the log. */
  lemma ShortBatch(log: seq<Row>, cursor: int, limit: nat, next: int)
    requires InIdOrder(log) && |Batch(log, cursor, limit)| < limit
    requires next == LastId(Batch(log, cursor, limit), cursor)
    ensures NoneBeyond(log, next)
  {
    var first := FirstAfter(log, cursor, 0);
    assert Batch(log, cursor, limit) == log[first..];
    if first < |log| { assert next == log[|log| - 1].id; }
  }

  class Consumer {
    var cursor: int
    const batchSize: nat
    /** Calls of the gateway's handler, in order. */
    var handled: seq<Event>
    /** Rows whose id has become the cursor, in order. */
    ghost var consumed: seq<Row>

    ghost predicate Valid()
      reads this
    {
      && batchSize > 0
      && InIdOrder(consumed)
      && NoneBeyond(consumed, cursor)
      && Observed(handled) == Observed(Events(consumed))
    }

    constructor (batchSize: nat, tail: int)
      requires batchSize > 0
      ensures Valid() && cursor == tail && this.batchSize == batchSize && handled == [] && consumed == []
    {
      this.batchSize := batchSize;
      cursor := tail;
      handled, consumed := [], [];
    }

    /** One poll over the rows visible now. `again` asks for another poll at once. */
    method Poll(log: seq<Row>) returns (again: bool)
      requires Valid() && InIdOrder(log)
      modifies this
      ensures Valid()
      ensures handled == old(handled) + Delivered(Events(Batch(log, old(cursor), batchSize)))
      ensures consumed == old(consumed) + Batch(log, old(cursor), batchSize)
      ensures cursor >= old(cursor)
      ensures cursor == LastId(Batch(log, old(cursor), batchSize), old(cursor))
      ensures !again ==> NoneBeyond(log, cursor)
    {
      var rows := Batch(log, cursor, batchSize);
      BatchOrder(log, cursor, batchSize);
      OrderConcat(consumed, rows, cursor, LastId(rows, cursor));
      ObservedTogether(handled, consumed, rows);
      if |rows| < batchSize { ShortBatch(log, cursor, batchSize, LastId(rows, cursor)); }
      Walk(rows);
      consumed := consumed + rows;
      again := |rows| >= batchSize;
    }

    /** The loop over the rows of one batch, with the flushes. */
    method Walk(rows: seq<Row>)
      requires InIdOrder(rows)
      modifies this`cursor, this`handled
      ensures handled == old(handled) + Delivered(Events(rows))
      ensures cursor == LastId(rows, old(cursor))
    {
      var pending: seq<RoomHint> := [];
      ghost var events: seq<Event> := [];
      for i := 0 to |rows|
        invariant events == Events(rows[..i])
        invariant handled == old(handled) + Flushed(events)
        invariant pending == Coalesced(TrailingRun(events))
        invariant cursor == if i == 0 then old(cursor) else rows[i - 1].id
      {
        EventsSnoc(rows, i);
        var decoded := Decode(rows[i]);
        cursor := rows[i].id;
        if decoded.Some? {
          var event := decoded.value;
          FlushedSnoc(events, event);
          if IsHint(event) {
            CoalescedSnoc(TrailingRun(events), RoomHint(event.code, event.version));
            pending := Noted(pending, RoomHint(event.code, event.version));
          } else {
            Assoc4(old(handled), Flushed(events), Syncs(pending), [event]);
            handled := handled + Syncs(pending);
            pending := [];
            handled := handled + [event];
          }
          events := events + [event];
        }
      }
      Assoc(old(handled), Flushed(events), Syncs(pending));
      handled := handled + Syncs(pending);
      assert rows[..|rows|] == rows;
    }
  }

  lemma EventsSnoc(rows: seq<Row>, i: nat)
    requires i < |rows|
    ensures Events(rows[..i + 1]) ==
            if Decode(rows[i]).Some? then Events(rows[..i]) + [Decode(rows[i]).value] else Events(rows[..i])
  {
    assert rows[..i + 1][..i] == rows[..i];
  }

  lemma FlushedSnoc(events: seq<Event>, event: Event)
    ensures IsHint(event) ==>
      && Flushed(events + [event]) == Flushed(events)
      && TrailingRun(events + [event]) == TrailingRun(events) + [RoomHint(event.code, event.version)]
    ensures !IsHint(event) ==>
      && Flushed(events + [event]) == Flushed(events) + Syncs(Coalesced(TrailingRun(events))) + [event]
      && TrailingRun(events + [event]) == []
  {
    assert (events + [event])[..|events|] == events;
  }

  lemma CoalescedSnoc(run: seq<RoomHint>, hint: RoomHint)
    ensures Coalesced(run + [hint]) == Noted(Coalesced(run), hint)
  {
    assert (run + [hint])[..|run|] == run;
  }

  // ---------------------------------------------------------------- what a gateway can tell

  /** A gateway after some handler calls: the newest version each room was told to show, and every
      other event, as it is, with the versions shown when it arrived. */
  datatype Observation = Observation(newest: map<string, int>, others: seq<(Event, map<string, int>)>)

  function Observe(o: Observation, event: Event): Observation {
    match event
    case Room(code, kind, version) =>
      (match kind
       case Sync => Raising(o, code, version)
       case Created => Raising(o, code, version)
       case Joined => Raising(o, code, version)
       case Left => Raising(o, code, version)
       case Prep => Raising(o, code, version)
       case GameStarted => Raising(o, code, version)
       case StateChanged => Raising(o, code, version)
       case Spectators => Recording(o, event)
       case Presence(_, _) => Recording(o, event)
       case Deleted => Recording(o, event))
    case _ => Recording(o, event)
  }

  function Raising(o: Observation, code: string, version: int): Observation { o.(newest := Raised(o.newest, code, version)) }

  function Recording(o: Observation, event: Event): Observation { o.(others := o.others + [(event, o.newest)]) }

  function Raised(newest: map<string, int>, code: string, version: int): map<string, int> {
    if code in newest && newest[code] > version then newest else newest[code := version]
  }

  function ObserveAll(o: Observation, events: seq<Event>): Observation {
    if events == [] then o else Observe(ObserveAll(o, events[..|events| - 1]), events[|events| - 1])
  }

  function Observed(events: seq<Event>): Observation {
    ObserveAll(Observation(map[], []), events)
  }

  lemma {:induction false} ObserveConcat(o: Observation, a: seq<Event>, b: seq<Event>)
    ensures ObserveAll(o, a + b) == ObserveAll(ObserveAll(o, a), b)
    decreases |b|
  {
    if b == [] {
      assert a + b == a;
    } else {
      assert (a + b)[..|a + b| - 1] == a + b[..|b| - 1];
      ObserveConcat(o, a, b[..|b| - 1]);
    }
  }

  lemma {:induction false} EventsConcat(a: seq<Row>, b: seq<Row>)
    ensures Events(a + b) == Events(a) + Events(b)
    decreases |b|
  {
    if b == [] {
      assert a + b == a;
    } else {
      assert (a + b)[..|a + b| - 1] == a + b[..|b| - 1];
      EventsConcat(a, b[..|b| - 1]);
    }
  }

  /** The highest version a list of hints names for a room. */
  function Highest(hints: seq<RoomHint>, code: string): Option<int> {
    if hints == [] then None
    else Higher(Highest(hints[1..], code), if hints[0].code == code then Some(hints[0].version) else None)
  }

  function Higher(a: Option<int>, b: Option<int>): Option<int> {
    if a.None? then b else if b.None? || a.value >= b.value then a else b
  }

  function Shown(newest: map<string, int>, code: string): Option<int> {
    if code in newest then Some(newest[code]) else None
  }

  lemma {:induction false} HighestSnoc(hints: seq<RoomHint>, hint: RoomHint, code: string)
    ensures Highest(hints + [hint], code) ==
            Higher(Highest(hints, code), if hint.code == code then Some(hint.version) else None)
  {
    if hints == [] {
      assert hints + [hint] == [hint];
    } else {
      assert (hints + [hint])[1..] == hints[1..] + [hint];
      HighestSnoc(hints[1..], hint, code);
    }
  }

  ghost predicate OnePerRoom(hints: seq<RoomHint>) {
    forall i, j | 0 <= i < j < |hints| :: hints[i].code != hints[j].code
  }

  ghost predicate Names(hints: seq<RoomHint>, code: string) {
    exists i :: 0 <= i < |hints| && hints[i].code == code
  }

  lemma NamesCons(head: RoomHint, tail: seq<RoomHint>, code: string)
    ensures Names([head] + tail, code) <==> head.code == code || Names(tail, code)
  {
    var all := [head] + tail;
    assert all[0] == head;
    if Names(tail, code) {
      var j :| 0 <= j < |tail| && tail[j].code == code;
      assert all[j + 1] == tail[j];
    }
  }

  lemma OnePerRoomCons(head: RoomHint, tail: seq<RoomHint>)
    ensures OnePerRoom([head] + tail) <==> OnePerRoom(tail) && !Names(tail, head.code)
  {
    var all := [head] + tail;
    assert all[0] == head && forall j | 0 <= j < |tail| :: all[j + 1] == tail[j];
  }

  lemma HighestCons(head: RoomHint, tail: seq<RoomHint>, code: string)
    ensures Highest([head] + tail, code) == Higher(Highest(tail, code), if head.code == code then Some(head.version) else None)
  {
    HeadAndTail(head, tail);
  }

  lemma {:induction false} NotedNames(pending: seq<RoomHint>, hint: RoomHint, code: string)
    ensures Names(Noted(pending, hint), code) <==> Names(pending, code) || hint.code == code
  {
    if pending == [] {
      assert Noted(pending, hint)[0].code == hint.code;
    } else {
      var head, tail := pending[0], pending[1..];
      assert pending == [head] + tail;
      NamesCons(head, tail, code);
      if head.code == hint.code {
        NamesCons(Noted(pending, hint)[0], tail, code);
      } else {
        NotedNames(tail, hint, code);
        NamesCons(head, Noted(tail, hint), code);
      }
    }
  }

  lemma {:induction false} NotedExact(pending: seq<RoomHint>, hint: RoomHint, code: string)
    requires OnePerRoom(pending)
    ensures OnePerRoom(Noted(pending, hint))
    ensures Names(Noted(pending, hint), code) <==> Names(pending, code) || hint.code == code
    ensures Highest(Noted(pending, hint), code) ==
            Higher(Highest(pending, code), if hint.code == code then Some(hint.version) else None)
  {
    NotedNames(pending, hint, code);
    if pending != [] {
      var head, tail := pending[0], pending[1..];
      assert pending == [head] + tail;
      OnePerRoomCons(head, tail);
      HighestCons(head, tail, code);
      if head.code == hint.code {
        OnePerRoomCons(Noted(pending, hint)[0], tail);
        HighestCons(Noted(pending, hint)[0], tail, code);
        NoneNamed(tail, hint.code);
      } else {
        NotedExact(tail, hint, code);
        NotedNames(tail, hint, head.code);
        OnePerRoomCons(head, Noted(tail, hint));
        HighestCons(head, Noted(tail, hint), code);
      }
    }
  }

  lemma {:induction false} NoneNamed(hints: seq<RoomHint>, code: string)
    requires !Names(hints, code)
    ensures Highest(hints, code) == None
  {
    if hints != [] {
      assert forall j | 0 <= j < |hints| - 1 :: hints[1..][j] == hints[j + 1];
      NoneNamed(hints[1..], code);
    }
  }

  /** A run leaves exactly one sync per room it names, at the highest version it names for that room. */
  lemma {:induction false} CoalescedExact(run: seq<RoomHint>, code: string)
    ensures OnePerRoom(Coalesced(run))
    ensures Names(Coalesced(run), code) <==> Names(run, code)
    ensures Highest(Coalesced(run), code) == Highest(run, code)
  {
    if run != [] {
      var rest, last := run[..|run| - 1], run[|run| - 1];
      CoalescedExact(rest, code);
      NotedExact(Coalesced(rest), last, code);
      HighestSnoc(rest, last, code);
      assert run == rest + [last];
      if Names(run, code) && last.code != code {
        var j :| 0 <= j < |run| && run[j].code == code;
        assert rest[j].code == code;
      }
      if Names(rest, code) { var j :| 0 <= j < |rest| && rest[j].code == code; assert run[j].code == code; }
    }
  }

  lemma SyncsSnoc(hints: seq<RoomHint>)
    requires hints != []
    ensures Syncs(hints) == Syncs(hints[..|hints| - 1]) + [SyncOf(hints[|hints| - 1])]
  {
  }

  lemma ObserveSnoc(o: Observation, events: seq<Event>, event: Event)
    ensures ObserveAll(o, events + [event]) == Observe(ObserveAll(o, events), event)
  {
    FrontOfSnoc(events, event);
  }

  /** All that handling a list of hints shows. */
  lemma {:induction false} SyncsShow(o: Observation, hints: seq<RoomHint>, code: string)
    ensures ObserveAll(o, Syncs(hints)).others == o.others
    ensures Shown(ObserveAll(o, Syncs(hints)).newest, code) == Higher(Shown(o.newest, code), Highest(hints, code))
    decreases |hints|
  {
    if hints != [] {
      var rest, last := hints[..|hints| - 1], hints[|hints| - 1];
      SyncsShow(o, rest, code);
      FrontAndLast(hints);
      HighestSnoc(rest, last, code);
      SyncsSnoc(hints);
      ObserveSnoc(o, Syncs(rest), SyncOf(last));
      SyncShows(ObserveAll(o, Syncs(rest)), last, code);
    }
  }

  lemma SyncShows(o: Observation, hint: RoomHint, code: string)
    ensures Observe(o, SyncOf(hint)).others == o.others
    ensures Shown(Observe(o, SyncOf(hint)).newest, code) ==
            Higher(Shown(o.newest, code), if hint.code == code then Some(hint.version) else None)
  {
  }

  /** Coalescing a run cannot be observed. */
  lemma CoalescedObserved(o: Observation, run: seq<RoomHint>)
    ensures ObserveAll(o, Syncs(Coalesced(run))) == ObserveAll(o, Syncs(run))
  {
    var a, b := ObserveAll(o, Syncs(Coalesced(run))), ObserveAll(o, Syncs(run));
    forall code ensures Shown(a.newest, code) == Shown(b.newest, code) && a.others == b.others {
      SyncsShow(o, run, code);
      SyncsShow(o, Coalesced(run), code);
      CoalescedExact(run, code);
    }
    SameShown(a.newest, b.newest);
    SyncsShow(o, run, "");
    SyncsShow(o, Coalesced(run), "");
  }

  lemma SameShown(a: map<string, int>, b: map<string, int>)
    requires forall code :: Shown(a, code) == Shown(b, code)
    ensures a == b
  {
    forall code ensures code in a <==> code in b { assert Shown(a, code) == Shown(b, code); }
    forall code | code in a ensures a[code] == b[code] { assert Shown(a, code) == Shown(b, code); }
  }

  lemma ObserveOne(o: Observation, event: Event)
    ensures ObserveAll(o, [event]) == Observe(o, event)
  {
    assert [event][..0] == [];
    assert ObserveAll(o, [event]) == Observe(ObserveAll(o, []), event);
  }

  /** A gateway cannot tell a hint from a sync at its version. */
  lemma HintIsASync(o: Observation, event: Event)
    requires IsHint(event)
    ensures Observe(o, event) == Observe(o, Room(event.code, Sync, event.version))
  {
  }

  lemma {:induction false} FlushedThenRun(o: Observation, events: seq<Event>)
    ensures ObserveAll(ObserveAll(o, Flushed(events)), Syncs(TrailingRun(events))) == ObserveAll(o, events)
    decreases |events|
  {
    if events != [] {
      var rest, last := events[..|events| - 1], events[|events| - 1];
      var run := TrailingRun(rest);
      FlushedThenRun(o, rest);
      if IsHint(last) {
        var hint := RoomHint(last.code, last.version);
        FrontOfSnoc(run, hint);
        assert Syncs(run + [hint]) == Syncs(run) + [SyncOf(hint)];
        ObserveConcat(ObserveAll(o, Flushed(rest)), Syncs(run), [SyncOf(hint)]);
        ObserveOne(ObserveAll(o, rest), SyncOf(hint));
        HintIsASync(ObserveAll(o, rest), last);
      } else {
        CoalescedObserved(ObserveAll(o, Flushed(rest)), run);
        ObserveConcat(o, Flushed(rest), Syncs(Coalesced(run)));
        ObserveConcat(o, Flushed(rest) + Syncs(Coalesced(run)), [last]);
        ObserveOne(ObserveAll(o, rest), last);
      }
    }
  }

  /** The coalescing poll refines one-by-one handling: after the whole batch, and at every event that
      is not a refresh hint, a gateway has seen exactly what uncoalesced handling would have shown. */
  lemma PollRefinesOneByOne(o: Observation, events: seq<Event>)
    ensures ObserveAll(o, Delivered(events)) == ObserveAll(o, events)
  {
    FlushedThenRun(o, events);
    CoalescedObserved(ObserveAll(o, Flushed(events)), TrailingRun(events));
    ObserveConcat(o, Flushed(events), Syncs(Coalesced(TrailingRun(events))));
  }

  lemma ObservedTogether(handled: seq<Event>, consumed: seq<Row>, rows: seq<Row>)
    requires Observed(handled) == Observed(Events(consumed))
    ensures Observed(handled + Delivered(Events(rows))) == Observed(Events(consumed + rows))
  {
    var o := Observation(map[], []);
    EventsConcat(consumed, rows);
    ObserveConcat(o, handled, Delivered(Events(rows)));
    ObserveConcat(o, Events(consumed), Events(rows));
    PollRefinesOneByOne(Observed(handled), Events(rows));
  }

  ghost predicate AllHints(run: seq<Event>) {
    forall i | 0 <= i < |run| :: IsHint(run[i])
  }

  ghost predicate EndsOtherwise(events: seq<Event>) {
    events == [] || !IsHint(events[|events| - 1])
  }

  lemma {:induction false} RunAtTheEnd(a: seq<Event>, run: seq<Event>)
    requires EndsOtherwise(a) && AllHints(run)
    ensures TrailingRun(a + run) == TrailingRun(run) && |TrailingRun(run)| == |run|
    ensures Flushed(a + run) == Flushed(a) && TrailingRun(a) == []
    decreases |run|
  {
    if run == [] {
      assert a + run == a;
    } else {
      assert (a + run)[..|a + run| - 1] == a + run[..|run| - 1];
      RunAtTheEnd(a, run[..|run| - 1]);
    }
  }

  lemma {:induction false} FlushedConcat(a: seq<Event>, b: seq<Event>)
    requires EndsOtherwise(a)
    ensures Flushed(a + b) == Flushed(a) + Flushed(b) && TrailingRun(a + b) == TrailingRun(b)
    decreases |b|
  {
    if b == [] {
      assert a + b == a;
    } else {
      var front, last := b[..|b| - 1], b[|b| - 1];
      FrontAndLast(b);
      FlushedConcat(a, front);
      FlushedConcatStep(a, front, last);
    }
  }

  lemma FlushedConcatStep(a: seq<Event>, front: seq<Event>, last: Event)
    requires Flushed(a + front) == Flushed(a) + Flushed(front) && TrailingRun(a + front) == TrailingRun(front)
    ensures Flushed(a + (front + [last])) == Flushed(a) + Flushed(front + [last])
    ensures TrailingRun(a + (front + [last])) == TrailingRun(front + [last])
  {
    Assoc(a, front, [last]);
    FlushedSnoc(front, last);
    FlushedSnoc(a + front, last);
    Assoc4(Flushed(a), Flushed(front), Syncs(Coalesced(TrailingRun(front))), [last]);
  }

  /** Each maximal run of refresh events becomes one sync per room, delivered at its end: right before
      the event that ends it, or at the end of the batch. Other events keep their place and order. */
  lemma MaximalRun(a: seq<Event>, run: seq<Event>, x: Event, b: seq<Event>)
    requires EndsOtherwise(a) && AllHints(run) && !IsHint(x)
    ensures Delivered(a + run) == Delivered(a) + Syncs(Coalesced(TrailingRun(run)))
    ensures Delivered(a + run + [x] + b) == Delivered(a) + Syncs(Coalesced(TrailingRun(run))) + [x] + Delivered(b)
  {
    RunAtTheEnd(a, run);
    FlushedSnoc(a + run, x);
    FlushedConcat(a + run + [x], b);
    var hints := Syncs(Coalesced(TrailingRun(run)));
    NothingPending(a);
    Assoc(Flushed(a) + hints + [x], Flushed(b), Syncs(Coalesced(TrailingRun(b))));
  }

  lemma NothingPending(a: seq<Event>)
    requires EndsOtherwise(a)
    ensures Delivered(a) == Flushed(a)
  {
    assert Syncs(Coalesced(TrailingRun(a))) == [];
  }

  /** The log is only a faithful queue while ids become visible in order: a row that appears after a
      poll has passed its id is never part of a batch again. */
  lemma LateRowIsNeverPolled(log: seq<Row>, late: Row, cursor: int, limit: nat)
    requires InIdOrder(log) && late.id <= cursor
    ensures late !in Batch(log, cursor, limit)
  {
    BatchOrder(log, cursor, limit);
  }

  /** Following the cursor over an unchanged log: each batch continues where the last one ended, and
      until the tail is reached none is empty. */
  lemma BatchesCoverTheLog(log: seq<Row>, cursor: int, limit: nat)
    requires InIdOrder(log) && limit > 0 && FirstAfter(log, cursor, 0) < |log|
    ensures |Batch(log, cursor, limit)| > 0
    ensures var batch := Batch(log, cursor, limit);
            log[FirstAfter(log, cursor, 0)..] == batch + log[FirstAfter(log, batch[|batch| - 1].id, 0)..]
  {
    var last := BatchSlice(log, cursor, limit);
    NextAfter(log, last);
    SplitAt(log, FirstAfter(log, cursor, 0), last + 1);
  }

  lemma LastOfSlice<T>(s: seq<T>, first: nat, last: nat)
    requires first <= last < |s|
    ensures |s[first..last + 1]| == last + 1 - first && s[first..last + 1][last - first] == s[last]
    ensures last + 1 == |s| ==> s[first..] == s[first..last + 1]
  {
  }

  lemma NextAfter(log: seq<Row>, last: nat)
    requires InIdOrder(log) && last < |log|
    ensures FirstAfter(log, log[last].id, 0) == last + 1
  {
    assert forall i | 0 <= i <= last :: log[i].id <= log[last].id;
    assert last + 1 < |log| ==> log[last].id < log[last + 1].id;
  }

  // ---------------------------------------------------------------- any run of polls on a changing log

  /** A gateway following the log. `timely` holds the rows that became visible beyond the cursor and were
      not swept before a poll read them. */
  datatype Follower = Follower(log: seq<Row>, cursor: int, consumed: seq<Row>, ghost timely: set<Row>)

  /** A row becomes visible at its place in id order, a poll runs, or the retention sweep removes rows. */
  datatype LogStep = Appear(row: Row) | PollOnce | Sweep(kept: seq<Row>)

  function Place(log: seq<Row>, id: int): nat { FirstAfter(log, id, 0) }

  /** The slice of the log that a sweep leaves is any part of it, in the same order. */
  ghost predicate Possible(f: Follower, step: LogStep) {
    match step
    case Appear(row) => forall i | 0 <= i < |f.log| :: f.log[i].id != row.id
    case PollOnce => true
    case Sweep(kept) => InIdOrder(kept) && forall i | 0 <= i < |kept| :: kept[i] in f.log
  }

  ghost function Stepped(f: Follower, limit: nat, step: LogStep): Follower {
    match step
    case Appear(row) =>
      var at := Place(f.log, row.id);
      f.(log := f.log[..at] + [row] + f.log[at..], timely := if row.id > f.cursor then f.timely + {row} else f.timely)
    case PollOnce =>
      var batch := Batch(f.log, f.cursor, limit);
      f.(cursor := LastId(batch, f.cursor), consumed := f.consumed + batch)
    case Sweep(kept) =>
      f.(log := kept, timely := set row | row in f.timely && (row in f.consumed || row in kept))
  }

  ghost function Followed(f: Follower, limit: nat, steps: seq<LogStep>): Follower {
    if steps == [] then f else Stepped(Followed(f, limit, steps[..|steps| - 1]), limit, steps[|steps| - 1])
  }

  ghost predicate PossibleRun(f: Follower, limit: nat, steps: seq<LogStep>) {
    steps == [] || (PossibleRun(f, limit, steps[..|steps| - 1])
                    && Possible(Followed(f, limit, steps[..|steps| - 1]), steps[|steps| - 1]))
  }

  /** A gateway that starts at the tail of a log, or anywhere in it. */
  ghost predicate Starts(f: Follower) {
    InIdOrder(f.log) && f.consumed == [] && f.timely == (set row | row in f.log && row.id > f.cursor)
  }

  predicate Unread(f: Follower, row: Row) { row in f.log && row.id > f.cursor }

  /** Every timely row is read or still ahead, no other row ever is, and rows are read in id order, once. */
  ghost predicate Keeps(f: Follower) {
    && InIdOrder(f.log) && InIdOrder(f.consumed) && NoneBeyond(f.consumed, f.cursor)
    && forall row :: row in f.timely <==> row in f.consumed || Unread(f, row)
  }

  lemma InsertKeepsOrder(log: seq<Row>, row: Row, at: nat)
    requires InIdOrder(log) && at <= |log|
    requires forall i | 0 <= i < at :: log[i].id < row.id
    requires forall i | at <= i < |log| :: log[i].id > row.id
    ensures InIdOrder(log[..at] + [row] + log[at..])
  {
    var more := log[..at] + [row] + log[at..];
    forall i, j | 0 <= i < j < |more| ensures more[i].id < more[j].id {
      InsertedAt(log, row, at, i);
      InsertedAt(log, row, at, j);
    }
  }

  lemma AppearKeeps(f: Follower, limit: nat, row: Row)
    requires Keeps(f) && Possible(f, Appear(row))
    ensures Keeps(Stepped(f, limit, Appear(row)))
  {
    var at := Place(f.log, row.id);
    assert forall i | at <= i < |f.log| :: f.log[at].id <= f.log[i].id;
    assert forall i | 0 <= i < at :: f.log[i].id != row.id;
    InsertKeepsOrder(f.log, row, at);
    Common.InsertMembers(f.log, row, at);
  }

  lemma PollKeeps(f: Follower, limit: nat)
    requires Keeps(f) && limit > 0
    ensures Keeps(Stepped(f, limit, PollOnce))
  {
    var t := Stepped(f, limit, PollOnce);
    var batch := Batch(f.log, f.cursor, limit);
    BatchOrder(f.log, f.cursor, limit);
    OrderConcat(f.consumed, batch, f.cursor, t.cursor);
    forall row ensures row in f.consumed || Unread(f, row) <==> row in t.consumed || Unread(t, row) {
      BatchIsTheNextRows(f.log, f.cursor, limit, row);
    }
  }

  lemma InSlice(log: seq<Row>, first: nat, last: nat, row: Row)
    requires InIdOrder(log) && first <= last < |log|
    ensures row in log[first..last + 1] <==> row in log && log[first].id <= row.id <= log[last].id
  {
    var slice := log[first..last + 1];
    if row in slice {
      var k :| 0 <= k < |slice| && slice[k] == row;
      assert log[first + k] == row;
    }
    if row in log && log[first].id <= row.id <= log[last].id {
      var i :| 0 <= i < |log| && log[i] == row;
      assert first <= i <= last;
      assert slice[i - first] == row;
    }
  }

  /** Where a batch lies in the log. */
  lemma BatchSlice(log: seq<Row>, cursor: int, limit: nat) returns (last: nat)
    requires limit > 0 && FirstAfter(log, cursor, 0) < |log|
    ensures FirstAfter(log, cursor, 0) <= last < |log|
    ensures Batch(log, cursor, limit) == log[FirstAfter(log, cursor, 0)..last + 1]
    ensures LastId(Batch(log, cursor, limit), cursor) == log[last].id
  {
    last := FirstAfter(log, cursor, 0) + |Batch(log, cursor, limit)| - 1;
    LastOfSlice(log, FirstAfter(log, cursor, 0), last);
  }

  /** The batch is exactly the rows between the old and the new cursor. */
  lemma BatchIsTheNextRows(log: seq<Row>, cursor: int, limit: nat, row: Row)
    requires InIdOrder(log) && limit > 0
    ensures var batch := Batch(log, cursor, limit);
      row in batch <==> row in log && cursor < row.id <= LastId(batch, cursor)
  {
    var first := FirstAfter(log, cursor, 0);
    if first < |log| {
      var last := BatchSlice(log, cursor, limit);
      InSlice(log, first, last, row);
      BehindFirst(log, cursor, row);
    } else {
      assert Batch(log, cursor, limit) == [];
    }
  }

  /** The first row past the cursor is the least one past it. */
  lemma BehindFirst(log: seq<Row>, cursor: int, row: Row)
    requires InIdOrder(log) && FirstAfter(log, cursor, 0) < |log|
    ensures row in log ==> (cursor < row.id <==> log[FirstAfter(log, cursor, 0)].id <= row.id)
  {
    if row in log {
      var i :| 0 <= i < |log| && log[i] == row;
      assert i < FirstAfter(log, cursor, 0) || i == FirstAfter(log, cursor, 0) || log[FirstAfter(log, cursor, 0)].id < log[i].id;
    }
  }

  /** Over any run of polls, appearances and sweeps. */
  lemma {:induction false} RunKeeps(f: Follower, limit: nat, steps: seq<LogStep>)
    requires Starts(f) && limit > 0 && PossibleRun(f, limit, steps)
    ensures Keeps(Followed(f, limit, steps))
  {
    if steps != [] {
      var before := Followed(f, limit, steps[..|steps| - 1]);
      RunKeeps(f, limit, steps[..|steps| - 1]);
      match steps[|steps| - 1]
      case Appear(row) => AppearKeeps(before, limit, row);
      case PollOnce => PollKeeps(before, limit);
      case Sweep(_) =>
    }
  }

  /** Exactly the rows that became visible beyond the cursor are read: whenever the gateway has caught up,
      a row has been read if and only if its id was beyond the cursor when it became visible and it was
      not swept unread; each was read once, in id order. So a row that appears behind the cursor never is. */
  lemma ReadIffTimely(f: Follower, limit: nat, steps: seq<LogStep>)
    requires Starts(f) && limit > 0 && PossibleRun(f, limit, steps)
    ensures var t := Followed(f, limit, steps);
      && InIdOrder(t.consumed) && f.cursor <= t.cursor
      && (NoneBeyond(t.log, t.cursor) ==> forall row :: row in t.consumed <==> row in t.timely)
      && (forall row :: row in t.consumed ==> row in t.timely)
  {
    RunKeeps(f, limit, steps);
    CursorGrows(f, limit, steps);
  }

  /** A run that misses a row, whatever the rows say: the transaction that took id 1 commits after a poll
      has read id 2. */
  lemma ARowIsMissed(early: Row, late: Row)
    requires early.id == 2 && late.id == 1
    ensures var f, steps := Follower([], 0, [], {}), [Appear(early), PollOnce, Appear(late), PollOnce];
      var t := Followed(f, 100, steps);
      && Starts(f) && PossibleRun(f, 100, steps)
      && late in t.log && NoneBeyond(t.log, t.cursor) && t.consumed == [early]
  {
    var f, first, second := Follower([], 0, [], {}), [Appear(early), PollOnce], [Appear(late), PollOnce];
    RowIsRead(early);
    RowIsPassed(early, late);
    RunConcat(f, 100, first, second);
    assert first + second == [Appear(early), PollOnce, Appear(late), PollOnce];
  }

  lemma {:induction false} RunConcat(f: Follower, limit: nat, a: seq<LogStep>, b: seq<LogStep>)
    requires PossibleRun(f, limit, a) && PossibleRun(Followed(f, limit, a), limit, b)
    ensures PossibleRun(f, limit, a + b) && Followed(f, limit, a + b) == Followed(Followed(f, limit, a), limit, b)
    decreases |b|
  {
    if b == [] {
      assert a + b == a;
    } else {
      assert (a + b)[..|a + b| - 1] == a + b[..|b| - 1];
      RunConcat(f, limit, a, b[..|b| - 1]);
    }
  }

  lemma TwoSteps(f: Follower, limit: nat, a: LogStep, b: LogStep)
    requires Possible(f, a) && Possible(Stepped(f, limit, a), b)
    ensures PossibleRun(f, limit, [a, b]) && Followed(f, limit, [a, b]) == Stepped(Stepped(f, limit, a), limit, b)
  {
    assert [a, b][..1] == [a] && [a][..0] == [];
    assert Followed(f, limit, [a]) == Stepped(f, limit, a) && PossibleRun(f, limit, [a]);
  }

  lemma RowIsRead(early: Row)
    requires early.id == 2
    ensures var f, steps := Follower([], 0, [], {}), [Appear(early), PollOnce];
      PossibleRun(f, 100, steps) && Followed(f, 100, steps) == Follower([early], 2, [early], {early})
  {
    var f := Follower([], 0, [], {});
    TwoSteps(f, 100, Appear(early), PollOnce);
    assert Stepped(f, 100, Appear(early)) == Follower([early], 0, [], {early});
    assert FirstAfter([early], 0, 0) == 0;
  }

  lemma RowIsPassed(early: Row, late: Row)
    requires early.id == 2 && late.id == 1
    ensures var f, steps := Follower([early], 2, [early], {early}), [Appear(late), PollOnce];
      PossibleRun(f, 100, steps) && Followed(f, 100, steps) == Follower([late, early], 2, [early], {early})
  {
    var f := Follower([early], 2, [early], {early});
    TwoSteps(f, 100, Appear(late), PollOnce);
    assert Place([early], 1) == 0;
    assert Stepped(f, 100, Appear(late)) == Follower([late, early], 2, [early], {early});
    assert FirstAfter([late, early], 2, 0) == 2 && Batch([late, early], 2, 100) == [];
  }

  lemma {:induction false} CursorGrows(f: Follower, limit: nat, steps: seq<LogStep>)
    requires Starts(f) && limit > 0 && PossibleRun(f, limit, steps)
    ensures f.cursor <= Followed(f, limit, steps).cursor
  {
    if steps != [] {
      var before := Followed(f, limit, steps[..|steps| - 1]);
      RunKeeps(f, limit, steps[..|steps| - 1]);
      CursorGrows(f, limit, steps[..|steps| - 1]);
      BatchOrder(before.log, before.cursor, limit);
    }
  }

  /** Ids become visible in order, and nothing is swept. */
  ghost predicate InOrder(f: Follower, limit: nat, steps: seq<LogStep>) {
    steps == [] || (InOrder(f, limit, steps[..|steps| - 1]) && NextInOrder(Followed(f, limit, steps[..|steps| - 1]), steps[|steps| - 1]))
  }

  ghost predicate NextInOrder(f: Follower, step: LogStep) {
    match step
    case Appear(row) => row.id > f.cursor && forall i | 0 <= i < |f.log| :: f.log[i].id < row.id
    case PollOnce => true
    case Sweep(_) => false
  }

  lemma PlaceIs(log: seq<Row>, id: int, i: nat)
    requires InIdOrder(log) && i <= |log| && (forall k | 0 <= k < i :: log[k].id <= id) && (i < |log| ==> log[i].id > id)
    ensures Place(log, id) == i
  {
  }

  lemma PlaceAtEnd(log: seq<Row>, row: Row, id: int)
    requires InIdOrder(log) && id < row.id && forall i | 0 <= i < |log| :: log[i].id < row.id
    ensures InIdOrder(log + [row]) && Place(log + [row], id) == Place(log, id) && Place(log, row.id) == |log|
  {
    PlaceIs(log + [row], id, Place(log, id));
    PlaceIs(log, row.id, |log|);
  }

  /** Then what was read is the log itself, from the start cursor up to the current one. */
  lemma {:induction false} ReadsTheLog(f: Follower, limit: nat, steps: seq<LogStep>)
    requires Starts(f) && limit > 0 && InOrder(f, limit, steps)
    ensures var t := Followed(f, limit, steps);
      && InIdOrder(t.log) && f.cursor <= t.cursor
      && Place(t.log, f.cursor) <= Place(t.log, t.cursor) && t.consumed == Between(t.log, f.cursor, t.cursor)
  {
    if steps != [] {
      var before := Followed(f, limit, steps[..|steps| - 1]);
      ReadsTheLog(f, limit, steps[..|steps| - 1]);
      match steps[|steps| - 1]
      case Appear(row) => AppearAtEnd(before, f.cursor, limit, row);
      case PollOnce => PollReadsOn(before, f.cursor, limit);
    }
  }

  /** The log from one cursor up to another. */
  function Between(log: seq<Row>, start: int, cursor: int): seq<Row>
    requires Place(log, start) <= Place(log, cursor)
  {
    log[Place(log, start)..Place(log, cursor)]
  }

  lemma AppearAtEnd(f: Follower, start: int, limit: nat, row: Row)
    requires InIdOrder(f.log) && start <= f.cursor && NextInOrder(f, Appear(row)) && Place(f.log, start) <= Place(f.log, f.cursor)
    ensures var t := Stepped(f, limit, Appear(row));
      && InIdOrder(t.log) && Place(t.log, start) <= Place(t.log, t.cursor)
      && Between(t.log, start, t.cursor) == Between(f.log, start, f.cursor)
  {
    PlaceAtEnd(f.log, row, start);
    PlaceAtEnd(f.log, row, f.cursor);
    InsertedAtEnd(f.log, row);
    SliceOfSnoc(f.log, row, Place(f.log, start), Place(f.log, f.cursor));
  }

  lemma PollReadsOn(f: Follower, start: int, limit: nat)
    requires InIdOrder(f.log) && limit > 0 && start <= f.cursor && Place(f.log, start) <= Place(f.log, f.cursor)
    requires f.consumed == Between(f.log, start, f.cursor)
    ensures var t := Stepped(f, limit, PollOnce);
      && start <= t.cursor && Place(t.log, start) <= Place(t.log, t.cursor) && t.consumed == Between(t.log, start, t.cursor)
  {
    var batch := Batch(f.log, f.cursor, limit);
    BatchOrder(f.log, f.cursor, limit);
    BatchReadsOn(f.log, f.cursor, limit);
    JoinSlices(f.log, Place(f.log, start), Place(f.log, f.cursor), Place(f.log, LastId(batch, f.cursor)));
  }

  /** The batch is the log from the old cursor up to the new one. */
  lemma BatchReadsOn(log: seq<Row>, cursor: int, limit: nat)
    requires InIdOrder(log) && limit > 0
    ensures var next := LastId(Batch(log, cursor, limit), cursor);
      Place(log, cursor) <= Place(log, next) && Batch(log, cursor, limit) == log[Place(log, cursor)..Place(log, next)]
  {
    if Place(log, cursor) < |log| {
      var last := BatchSlice(log, cursor, limit);
      NextAfter(log, last);
    } else {
      assert Batch(log, cursor, limit) == [];
    }
  }

  lemma JoinSlices<T>(s: seq<T>, a: nat, b: nat, c: nat)
    requires a <= b <= c <= |s|
    ensures s[a..b] + s[b..c] == s[a..c]
  {
  }

  // ---------------------------------------------------------------- from the events to the handler

  /** Rows that store some events, under any ids. */
  ghost predicate Stores(rows: seq<Row>, events: seq<Event>) {
    |rows| == |events| && forall i | 0 <= i < |rows| :: 1 <= rows[i].id <= MAX_SAFE_INTEGER && rows[i] == Encode(events[i], rows[i].id)
  }

  predicate AllWellFormed(events: seq<Event>) { forall i | 0 <= i < |events| :: WellFormed(events[i]) }

  /** A poll reads exactly the events that were stored. */
  lemma {:induction false} StoredEvents(rows: seq<Row>, events: seq<Event>)
    requires Stores(rows, events) && AllWellFormed(events)
    ensures Events(rows) == events
  {
    if rows != [] {
      var n := |rows| - 1;
      StoredEvents(rows[..n], events[..n]);
      DecodeEncode(events[n], rows[n].id);
      FrontAndLast(events);
    }
  }

  /** What a poll hands on for well-formed stored events shows a gateway exactly what handling those events
      one by one would have shown: presence, spectator and deletion events and everything that is no room
      event arrive as they are, and the other room events raise the version shown. */
  lemma StoredEventsAreShown(o: Observation, rows: seq<Row>, events: seq<Event>)
    requires Stores(rows, events) && AllWellFormed(events)
    ensures ObserveAll(o, Delivered(Events(rows))) == ObserveAll(o, events)
  {
    StoredEvents(rows, events);
    PollRefinesOneByOne(o, events);
  }

  /** The events a gateway must be handed one by one. */
  predicate Kept(event: Event) {
    match event
    case Room(_, Presence(_, _), _) => true
    case Room(_, Spectators, _) => true
    case Room(_, Deleted, _) => true
    case Room(_, _, _) => false
    case _ => true
  }

  function KeptOf(events: seq<Event>): seq<Event> {
    if events == [] then []
    else if Kept(events[|events| - 1]) then KeptOf(events[..|events| - 1]) + [events[|events| - 1]]
    else KeptOf(events[..|events| - 1])
  }

  lemma {:induction false} KeptConcat(a: seq<Event>, b: seq<Event>)
    ensures KeptOf(a + b) == KeptOf(a) + KeptOf(b)
    decreases |b|
  {
    if b == [] {
      assert a + b == a;
    } else {
      assert (a + b)[..|a + b| - 1] == a + b[..|b| - 1];
      KeptConcat(a, b[..|b| - 1]);
    }
  }

  ghost predicate OnlySyncs(events: seq<Event>) { forall i | 0 <= i < |events| :: events[i].Room? && events[i].kind == Sync }

  ghost predicate KeptOrSync(events: seq<Event>) {
    forall i | 0 <= i < |events| :: Kept(events[i]) || (events[i].Room? && events[i].kind == Sync)
  }

  lemma {:induction false} SyncsAreSyncs(hints: seq<RoomHint>)
    ensures OnlySyncs(Syncs(hints)) && KeptOf(Syncs(hints)) == []
  {
    if hints != [] {
      SyncsAreSyncs(hints[..|hints| - 1]);
      FrontOfSnoc(Syncs(hints[..|hints| - 1]), SyncOf(hints[|hints| - 1]));
    }
  }

  lemma {:induction false} FlushedKeeps(events: seq<Event>)
    ensures KeptOf(Flushed(events)) == KeptOf(events) && KeptOrSync(Flushed(events))
  {
    if events != [] {
      var rest, last := events[..|events| - 1], events[|events| - 1];
      var hints := Syncs(Coalesced(TrailingRun(rest)));
      FlushedKeeps(rest);
      if !IsHint(last) {
        SyncsAreSyncs(Coalesced(TrailingRun(rest)));
        FlushKeeps(Flushed(rest), hints, last);
      }
    }
  }

  lemma FlushKeeps(flushed: seq<Event>, hints: seq<Event>, last: Event)
    requires KeptOrSync(flushed) && OnlySyncs(hints) && KeptOf(hints) == [] && Kept(last)
    ensures KeptOf(flushed + hints + [last]) == KeptOf(flushed) + [last] && KeptOrSync(flushed + hints + [last])
  {
    KeptConcat(flushed, hints);
    FrontOfSnoc(flushed + hints, last);
  }

  /** What a poll hands on is syncs, and the other events of the batch, all of them, in their order. */
  lemma OthersAreHandledInOrder(events: seq<Event>)
    ensures KeptOf(Delivered(events)) == KeptOf(events) && KeptOrSync(Delivered(events))
  {
    FlushedKeeps(events);
    SyncsAreSyncs(Coalesced(TrailingRun(events)));
    KeptConcat(Flushed(events), Syncs(Coalesced(TrailingRun(events))));
  }
}
