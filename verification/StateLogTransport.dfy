/**
 Live delivery of the game log over one socket.

 The server keeps, per socket, only the last log it sent (`StateLogTransport`) and
 sends the new suffix; the browser keeps only the last log it decoded
 (`LiveDecoder`) and rebuilds the whole state. The proofs compare this pair with
 the simple scheme that sends the whole log every time.
 */
module StateLogTransport {
  import opened Common

  /** MAX_LOG: the longest log either side accepts. */
  const MAX_LOG: nat := 200

  /** One structured log entry. Entries without a message carry no sequence number. */
  datatype Entry = Plain(fallback: string) | Semantic(fallback: string, sequence: nat, message: nat)

  /** A projected view. `board` stands for everything that is not the log. */
  datatype View = View(gameId: string, log: seq<string>, logEntries: Option<seq<Entry>>, board: nat)

  datatype TransitionKind = Forward | Replace

  datatype State = State(version: nat, yourSeat: Option<nat>, transition: Option<TransitionKind>, view: View)

  datatype Frame = Frame(stream: string, sequence: nat, drop: Option<nat>, state: State)

  /** What JSON.stringify([text, entry]) identifies; a missing entry prints as null. */
  datatype Key = Key(text: string, entry: Option<Entry>)

  datatype Previous = Previous(gameId: string, seat: Option<nat>, version: nat, keys: seq<Key>, structured: bool)

  function EntryAt(view: View, i: nat): Option<Entry> {
    if view.logEntries.Some? && i < |view.logEntries.value| then Some(view.logEntries.value[i]) else None
  }

  function Keys(view: View): (keys: seq<Key>)
    ensures |keys| == |view.log|
    ensures forall i :: 0 <= i < |keys| ==> keys[i] == Key(view.log[i], EntryAt(view, i))
  {
    seq(|view.log|, i requires 0 <= i < |view.log| => Key(view.log[i], EntryAt(view, i)))
  }

  function Remember(state: State): Previous {
    Previous(state.view.gameId, state.yourSeat, state.version, Keys(state.view), state.view.logEntries.Some?)
  }

  /** The old log from `start` on is a prefix of the new log. */
  predicate Overlaps(old': seq<Key>, new': seq<Key>, start: nat)
    requires start <= |old'|
  {
    old'[start..] <= new'
  }

  /** A delta may be sent at all. */
  predicate Continues(previous: Previous, state: State) {
    && state.transition != Some(Replace)
    && previous.gameId == state.view.gameId
    && previous.seat == state.yourSeat
    && previous.structured == state.view.logEntries.Some?
    && previous.version <= state.version
    && |Keys(state.view)| >= |previous.keys|
  }

  /** `d` retains the longest possible overlap: no smaller drop leaves a prefix of the new log. */
  ghost predicate LongestOverlap(old': seq<Key>, new': seq<Key>, d: nat) {
    && d <= |old'|
    && Overlaps(old', new', d)
    && (forall s: nat | s < d :: !Overlaps(old', new', s))
    && (d == |old'| ==> old' == [])
  }

  /** The state with its log and entries cut down to what follows the first `retained`. */
  function WithoutFirst(state: State, retained: nat): State {
    var entries := if state.view.logEntries.Some?
                   then Some(SliceFrom(state.view.logEntries.value, retained)) else None;
    state.(view := state.view.(log := SliceFrom(state.view.log, retained), logEntries := entries))
  }

  /** How a frame relates to the state it carries and the state sent before it. */
  ghost predicate Carries(frame: Frame, previous: Option<Previous>, state: State) {
    match frame.drop
    case None =>
      && frame.state == state
      && (previous.Some? && Continues(previous.value, state) ==>
            previous.value.keys != []
            && forall s: nat | s < |previous.value.keys| :: !Overlaps(previous.value.keys, Keys(state.view), s))
    case Some(d) =>
      && previous.Some?
      && Continues(previous.value, state)
      && LongestOverlap(previous.value.keys, Keys(state.view), d)
      && frame.state == WithoutFirst(state, |previous.value.keys| - d)
  }

  /** One state handed to the encoder and the frame it produced. */
  datatype Sent = Sent(state: State, frame: Frame)

  ghost function Before(history: seq<Sent>, i: nat): Option<Previous>
    requires i < |history|
  {
    if history[i].frame.sequence == 1 || i == 0 then None else Some(Remember(history[i - 1].state))
  }

  /** Everything one socket ever sent: streams count 1, 2, 3... without gaps, a stream
      name is never taken again, and each frame carries its own state. */
  ghost predicate Coherent(history: seq<Sent>) {
    forall i | 0 <= i < |history| :: CoherentAt(history, i)
  }

  ghost predicate CoherentAt(history: seq<Sent>, i: nat)
    requires i < |history|
  {
    var frame := history[i].frame;
    && frame.sequence >= 1
    && (frame.sequence == 1 ==> forall j | 0 <= j < i :: history[j].frame.stream != frame.stream)
    && (frame.sequence > 1 ==>
          && i > 0
          && history[i - 1].frame.stream == frame.stream
          && history[i - 1].frame.sequence == frame.sequence - 1)
    && Carries(frame, Before(history, i), history[i].state)
  }

  lemma AppendCoherent(history: seq<Sent>, sent: Sent)
    requires Coherent(history) && CoherentAt(history + [sent], |history|)
    ensures Coherent(history + [sent])
  {
    forall i | 0 <= i < |history| ensures CoherentAt(history + [sent], i) {
      assert CoherentAt(history, i);
    }
  }

  /** The search loop of `encode`, and its special case for an empty old log. */
  method FindOverlap(old': seq<Key>, keys: seq<Key>) returns (drop: Option<nat>, retained: nat)
    ensures drop.None? ==> old' != [] && retained == 0 && forall s: nat | s < |old'| :: !Overlaps(old', keys, s)
    ensures drop.Some? ==> LongestOverlap(old', keys, drop.value) && retained == |old'| - drop.value
  {
    var start := 0;
    while start < |old'|
      invariant 0 <= start <= |old'|
      invariant forall s: nat | s < start :: !Overlaps(old', keys, s)
    {
      if old'[start..] <= keys { return Some(start), |old'| - start; }
      start := start + 1;
    }
    return if |old'| == 0 then Some(0) else None, 0;
  }

  class Encoder {
    var stream: string
    var sequence: nat
    var previous: Option<Previous>
    ghost var history: seq<Sent>
    ghost var streams: set<string>

    ghost predicate Valid()
      reads this
    {
      && Coherent(history)
      && stream in streams
      && (forall i | 0 <= i < |history| :: history[i].frame.stream in streams)
      && (sequence == 0 ==>
            previous == None && forall i | 0 <= i < |history| :: history[i].frame.stream != stream)
      && (sequence > 0 ==>
            && history != []
            && var last := history[|history| - 1];
               last.frame.stream == stream && last.frame.sequence == sequence && previous == Some(Remember(last.state)))
    }

    constructor (uuid: string)
      ensures Valid() && history == [] && streams == {uuid}
    {
      stream, sequence, previous := uuid, 0, None;
      history, streams := [], {uuid};
    }

    /** A new stream; `randomUUID` never repeats a name of this socket. */
    method Reset(uuid: string)
      requires Valid() && uuid !in streams
      modifies this
      ensures Valid() && history == old(history) && streams == old(streams) + {uuid}
      ensures stream == uuid && sequence == 0 && previous == None
    {
      stream, sequence, previous := uuid, 0, None;
      streams := streams + {uuid};
    }

    method Encode(state: State) returns (frame: Frame)
      requires Valid()
      modifies this`sequence, this`previous, this`history
      ensures Valid() && streams == old(streams) && stream == old(stream)
      ensures history == old(history) + [Sent(state, frame)]
      ensures frame.stream == old(stream) && frame.sequence == old(sequence) + 1
      ensures Carries(frame, old(previous), state)
    {
      frame := NextFrame(state);
      sequence := sequence + 1;
      previous := Some(Previous(state.view.gameId, state.yourSeat, state.version, Keys(state.view), state.view.logEntries.Some?));
      AppendCoherent(history, Sent(state, frame));
      history := history + [Sent(state, frame)];
    }

    /** The frame `encode` sends: a delta when the previous log overlaps, the full state otherwise. */
    method NextFrame(state: State) returns (frame: Frame)
      ensures frame.stream == stream && frame.sequence == sequence + 1
      ensures Carries(frame, previous, state)
    {
      var keys := Keys(state.view);
      var structured := state.view.logEntries.Some?;
      var drop: Option<nat> := None;
      var retained: nat := 0;
      if previous.Some? && state.transition != Some(Replace)
         && previous.value.gameId == state.view.gameId && previous.value.seat == state.yourSeat
         && previous.value.structured == structured && previous.value.version <= state.version
         && |keys| >= |previous.value.keys|
      {
        drop, retained := FindOverlap(previous.value.keys, keys);
      }
      frame := Frame(stream, sequence + 1, drop, if drop.Some? then WithoutFirst(state, retained) else state);
    }
  }

  // ---------------------------------------------------------------- the browser's side

  /** Structured entries number their semantic messages upwards. */
  predicate Ascending(entries: seq<Entry>, after: nat) {
    entries == []
    || (if entries[0].Plain? then Ascending(entries[1..], after)
        else after < entries[0].sequence && Ascending(entries[1..], entries[0].sequence))
  }

  /** The part of `decodeGameView` that looks at the log. */
  predicate WellFormed(view: View) {
    && |view.log| <= MAX_LOG
    && (view.logEntries.Some? ==>
          var entries := view.logEntries.value;
          && |entries| == |view.log|
          && (forall i | 0 <= i < |entries| :: entries[i].fallback == view.log[i])
          && Ascending(entries, 0))
  }

  datatype Baseline = Baseline(stream: string, sequence: nat, gameId: string, seat: Option<nat>,
                               log: seq<string>, logEntries: Option<seq<Entry>>)

  function BaselineOf(frame: Frame, state: State): Baseline {
    Baseline(frame.stream, frame.sequence, state.view.gameId, state.yourSeat, state.view.log, state.view.logEntries)
  }

  /** `decodeStateFrame`: the frame stands on its own. */
  predicate Acceptable(frame: Frame) {
    && frame.sequence > 0
    && (frame.drop.Some? ==> frame.drop.value <= MAX_LOG)
    && WellFormed(frame.state.view)
  }

  /** A delta fits the last decoded state. */
  predicate Fits(baseline: Option<Baseline>, frame: Frame) {
    && baseline.Some?
    && frame.drop.Some?
    && baseline.value.stream == frame.stream
    && baseline.value.sequence + 1 == frame.sequence
    && baseline.value.gameId == frame.state.view.gameId
    && baseline.value.seat == frame.state.yourSeat
    && frame.drop.value <= |baseline.value.log|
    && baseline.value.logEntries.Some? == frame.state.view.logEntries.Some?
  }

  function Extended(baseline: Baseline, drop: nat, state: State): State
    requires drop <= |baseline.log|
  {
    var entries :=
      if baseline.logEntries.Some? && state.view.logEntries.Some?
      then Some(SliceFrom(baseline.logEntries.value, drop) + state.view.logEntries.value)
      else state.view.logEntries;
    state.(view := state.view.(log := baseline.log[drop..] + state.view.log, logEntries := entries))
  }

  /** What one frame decodes to; None is the error that makes the client reload. */
  function Decoded(baseline: Option<Baseline>, frame: Frame): Option<State> {
    if !Acceptable(frame) then None
    else if frame.drop.None? then Some(frame.state)
    else if !Fits(baseline, frame) then None
    else
      var state := Extended(baseline.value, frame.drop.value, frame.state);
      if WellFormed(state.view) then Some(state) else None
  }

  function NextBaseline(baseline: Option<Baseline>, frame: Frame): Option<Baseline> {
    var state := Decoded(baseline, frame);
    if state.Some? then Some(BaselineOf(frame, state.value)) else None
  }

  class LiveDecoder {
    var baseline: Option<Baseline>

    constructor ()
      ensures baseline == None
    {
      baseline := None;
    }

    method Reset()
      modifies this
      ensures baseline == None
    {
      baseline := None;
    }

    method Decode(frame: Frame) returns (result: Option<State>)
      modifies this
      ensures result == Decoded(old(baseline), frame)
      ensures baseline == NextBaseline(old(baseline), frame)
    {
      if !Acceptable(frame) { baseline := None; return None; }
      var state := frame.state;
      if frame.drop.Some? {
        if baseline.None? || baseline.value.stream != frame.stream
           || baseline.value.sequence + 1 != frame.sequence
           || baseline.value.gameId != state.view.gameId || baseline.value.seat != state.yourSeat
           || frame.drop.value > |baseline.value.log|
           || (baseline.value.logEntries.None?) != (state.view.logEntries.None?)
        {
          baseline := None;
          return None;
        }
        var drop := frame.drop.value;
        var view := state.view.(log := baseline.value.log[drop..] + state.view.log);
        if baseline.value.logEntries.Some? && state.view.logEntries.Some? {
          view := view.(logEntries :=
            Some(SliceFrom(baseline.value.logEntries.value, drop) + state.view.logEntries.value));
        }
        if !WellFormed(view) { baseline := None; return None; }
        state := state.(view := view);
      }
      baseline := Some(Baseline(frame.stream, frame.sequence, state.view.gameId, state.yourSeat,
                                state.view.log, state.view.logEntries));
      result := Some(state);
    }
  }

  // ---------------------------------------------------------------- when a delta is sent, and what is accepted

  /** Line `start + i` of the old log and line `i` of the new one: the same text, with the same structured entry
      or none. */
  predicate SameLine(olds: View, start: nat, news: View, i: nat)
    requires start + i < |olds.log| && i < |news.log|
  {
    olds.log[start + i] == news.log[i]
    && (match (olds.logEntries, news.logEntries)
        case (Some(a), Some(b)) => if start + i < |a| && i < |b| then a[start + i] == b[i] else start + i >= |a| && i >= |b|
        case (Some(a), None) => start + i >= |a|
        case (None, Some(b)) => i >= |b|
        case (None, None) => true)
  }

  /** The old log without its first `start` lines begins the new one. */
  predicate Reaches(olds: View, news: View, start: nat) {
    && start <= |olds.log| && |olds.log| - start <= |news.log|
    && forall i | 0 <= i < |olds.log| - start :: SameLine(olds, start, news, i)
  }

  lemma OverlapsMeans(olds: View, news: View, start: nat)
    requires start <= |olds.log|
    ensures Overlaps(Keys(olds), Keys(news), start) <==> Reaches(olds, news, start)
  {
    var suffix, keys := Keys(olds)[start..], Keys(news);
    if Overlaps(Keys(olds), keys, start) {
      forall i | 0 <= i < |olds.log| - start ensures SameLine(olds, start, news, i) {
        assert suffix[i] == keys[i];
      }
    }
    if Reaches(olds, news, start) {
      forall i | 0 <= i < |suffix| ensures suffix[i] == keys[i] {
        assert SameLine(olds, start, news, i);
      }
      assert suffix == keys[..|suffix|];
    }
  }

  /** The same game, seat and shape, no replacement, no older version and no shorter log. */
  predicate MayContinue(before: State, state: State) {
    && state.transition != Some(Replace) && before.view.gameId == state.view.gameId && before.yourSeat == state.yourSeat
    && (before.view.logEntries == None <==> state.view.logEntries == None)
    && before.version <= state.version && |before.view.log| <= |state.view.log|
  }

  /** After a state a delta goes out exactly when the next one may continue it and some part of the old log, or
      an empty one, begins the new log; it keeps the longest such part. Otherwise the whole state goes out. */
  lemma DeltaIsSent(frame: Frame, before: State, state: State)
    requires Carries(frame, Some(Remember(before)), state)
    ensures frame.drop.Some? <==>
      MayContinue(before, state)
      && (before.view.log == [] || exists start: nat :: start < |before.view.log| && Reaches(before.view, state.view, start))
    ensures frame.drop.Some? ==>
      && Reaches(before.view, state.view, frame.drop.value) && (forall start: nat | start < frame.drop.value :: !Reaches(before.view, state.view, start))
      && (before.view.log != [] ==> frame.drop.value < |before.view.log|)
    ensures frame.drop.None? ==> frame.state == state
  {
    forall start: nat | start <= |before.view.log|
      ensures Overlaps(Keys(before.view), Keys(state.view), start) <==> Reaches(before.view, state.view, start) {
      OverlapsMeans(before.view, state.view, start);
    }
  }

  /** A log within its length, each entry the one of its line, and messages numbered upwards from one. */
  predicate Intact(view: View) {
    && |view.log| <= 200
    && match view.logEntries
       case None => true
       case Some(entries) =>
         && |entries| == |view.log| && (forall i | 0 <= i < |entries| :: entries[i].fallback == view.log[i])
         && NumberedUpwards(entries)
  }

  predicate NumberedUpwards(entries: seq<Entry>) {
    && (forall i | 0 <= i < |entries| && entries[i].Semantic? :: entries[i].sequence >= 1)
    && (forall i, j | 0 <= i < j < |entries| && entries[i].Semantic? && entries[j].Semantic? :: entries[i].sequence < entries[j].sequence)
  }

  predicate NumberedAfter(entries: seq<Entry>, after: nat) {
    forall i | 0 <= i < |entries| && entries[i].Semantic? :: entries[i].sequence > after
  }

  lemma {:induction false} AscendingMeans(entries: seq<Entry>, after: nat)
    ensures Ascending(entries, after) <==> NumberedUpwards(entries) && NumberedAfter(entries, after)
  {
    if entries != [] {
      var head, tail := entries[0], entries[1..];
      AscendingMeans(tail, if head.Semantic? then head.sequence else after);
      assert forall i | 0 <= i < |tail| :: tail[i] == entries[i + 1];
      if NumberedUpwards(tail) && NumberedAfter(tail, if head.Semantic? then head.sequence else after)
         && (head.Semantic? ==> head.sequence > after) {
        forall i, j | 0 <= i < j < |entries| && entries[i].Semantic? && entries[j].Semantic? ensures entries[i].sequence < entries[j].sequence {
          assert entries[j] == tail[j - 1];
          if i > 0 { assert entries[i] == tail[i - 1]; }
        }
        forall i | 0 <= i < |entries| && entries[i].Semantic? ensures entries[i].sequence > after && entries[i].sequence >= 1 {
          if i > 0 { assert entries[i] == tail[i - 1]; }
        }
      }
      if NumberedUpwards(entries) && NumberedAfter(entries, after) {
        forall i | 0 <= i < |tail| && tail[i].Semantic? ensures head.Semantic? ==> tail[i].sequence > head.sequence {
          assert tail[i] == entries[i + 1];
        }
      }
    }
  }

  lemma WellFormedMeans(view: View)
    ensures WellFormed(view) <==> Intact(view)
  {
    if view.logEntries.Some? { AscendingMeans(view.logEntries.value, 0); }
  }

  /** A delta continues exactly the state remembered: the next frame of the same stream, for the same game and
      seat, with a log of the same shape that is long enough to drop from. */
  predicate Continuing(baseline: Option<Baseline>, frame: Frame, drop: nat) {
    && drop <= 200
    && match baseline
       case None => false
       case Some(last) =>
         && frame.stream == last.stream && frame.sequence == last.sequence + 1
         && frame.state.view.gameId == last.gameId && frame.state.yourSeat == last.seat && drop <= |last.log|
         && (frame.state.view.logEntries == None <==> last.logEntries == None)
  }

  /** What the decoder accepts: a numbered frame with an intact view, and of deltas those that continue the
      remembered state and leave an intact view. A full state is handed on as it is. */
  lemma AcceptedExactly(baseline: Option<Baseline>, frame: Frame)
    ensures frame.drop.None? ==> Decoded(baseline, frame) == if frame.sequence >= 1 && Intact(frame.state.view) then Some(frame.state) else None
    ensures frame.drop.Some? ==>
      (Decoded(baseline, frame).Some? <==>
         frame.sequence >= 1 && Intact(frame.state.view) && Continuing(baseline, frame, frame.drop.value)
         && Intact(Extended(baseline.value, frame.drop.value, frame.state).view))
  {
    WellFormedMeans(frame.state.view);
    if frame.drop.Some? && Continuing(baseline, frame, frame.drop.value) {
      WellFormedMeans(Extended(baseline.value, frame.drop.value, frame.state).view);
    }
  }

  // ---------------------------------------------------------------- agreement of the two sides

  /** What reaches the browser: some frame of the history, or a session message that resets it. */
  datatype Delivery = Deliver(index: nat) | SessionReset

  /** The results of a whole run of deliveries. */
  ghost function Receive(history: seq<Sent>, baseline: Option<Baseline>, deliveries: seq<Delivery>): (r: seq<Option<State>>)
    requires forall k | 0 <= k < |deliveries| :: deliveries[k].Deliver? ==> deliveries[k].index < |history|
    ensures |r| == |deliveries|
    decreases |deliveries|
  {
    if deliveries == [] then []
    else if deliveries[0].SessionReset? then [None] + Receive(history, None, deliveries[1..])
    else
      var frame := history[deliveries[0].index].frame;
      [Decoded(baseline, frame)] + Receive(history, NextBaseline(baseline, frame), deliveries[1..])
  }

  /** A result is an error or the state its frame was encoded from. */
  ghost predicate NothingWrong(history: seq<Sent>, delivery: Delivery, result: Option<State>)
    requires delivery.Deliver? ==> delivery.index < |history|
  {
    result.Some? ==> delivery.Deliver? && result.value == history[delivery.index].state
  }

  /** Stream name and sequence number identify a frame. */
  lemma {:induction false} FrameIdentity(history: seq<Sent>, i: nat, j: nat)
    requires Coherent(history) && i < |history| && j < |history|
    requires history[i].frame.stream == history[j].frame.stream
    requires history[i].frame.sequence == history[j].frame.sequence
    ensures i == j
    decreases history[i].frame.sequence
  {
    assert CoherentAt(history, i) && CoherentAt(history, j);
    if history[i].frame.sequence > 1 {
      FrameIdentity(history, i - 1, j - 1);
    }
  }

  lemma SuffixThenRest<T>(olds: seq<T>, news: seq<T>, d: nat)
    requires d <= |olds| && |olds| - d <= |news| && forall i | 0 <= i < |olds| - d :: olds[d + i] == news[i]
    ensures olds[d..] + SliceFrom(news, |olds| - d) == news
  {
  }

  /** The kept keys name the same text and the same entry in both logs. */
  lemma KeptKeys(olds: View, news: View, d: nat, i: nat)
    requires d <= |olds.log| && Overlaps(Keys(olds), Keys(news), d) && i < |olds.log| - d
    ensures |olds.log| - d <= |news.log| && olds.log[d + i] == news.log[i] && EntryAt(olds, d + i) == EntryAt(news, i)
  {
    assert Keys(olds)[d..][i] == Keys(olds)[d + i];
    assert Keys(olds)[d..][i] == Keys(news)[i];
  }

  lemma EntriesRestored(olds: View, news: View, d: nat)
    requires WellFormed(olds) && d <= |olds.log| && Overlaps(Keys(olds), Keys(news), d)
    requires olds.logEntries.Some? && news.logEntries.Some?
    ensures SliceFrom(olds.logEntries.value, d) + SliceFrom(news.logEntries.value, |olds.log| - d) == news.logEntries.value
  {
    var kept := |olds.log| - d;
    var before, after := olds.logEntries.value, news.logEntries.value;
    forall i | 0 <= i < kept ensures i < |after| && before[d + i] == after[i] { KeptKeys(olds, news, d, i); }
    if kept > 0 { KeptKeys(olds, news, d, kept - 1); }
    SuffixThenRest(before, after, d);
  }

  lemma LogRestored(olds: View, news: View, d: nat)
    requires d <= |olds.log| && Overlaps(Keys(olds), Keys(news), d)
    ensures olds.log[d..] + SliceFrom(news.log, |olds.log| - d) == news.log
  {
    forall i | 0 <= i < |olds.log| - d ensures |olds.log| - d <= |news.log| && olds.log[d + i] == news.log[i] {
      KeptKeys(olds, news, d, i);
    }
    if |olds.log| > d { KeptKeys(olds, news, d, 0); }
    SuffixThenRest(olds.log, news.log, d);
  }

  /** Putting the kept suffix of the old log before the delta gives back the new log and entries. */
  lemma DeltaRestores(old': State, state: State, d: nat, baseline: Baseline)
    requires WellFormed(old'.view)
    requires Continues(Remember(old'), state) && d <= |old'.view.log|
    requires Overlaps(Keys(old'.view), Keys(state.view), d)
    requires baseline.log == old'.view.log && baseline.logEntries == old'.view.logEntries
    requires WellFormed(WithoutFirst(state, |old'.view.log| - d).view)
    ensures Extended(baseline, d, WithoutFirst(state, |old'.view.log| - d)) == state
  {
    LogRestored(old'.view, state.view, d);
    if state.view.logEntries.Some? { EntriesRestored(old'.view, state.view, d); }
  }

  /** The baseline is what decoding frame `i` in place left behind. */
  ghost predicate Remembers(history: seq<Sent>, baseline: Option<Baseline>) {
    baseline.Some? ==>
      exists i | 0 <= i < |history| ::
        baseline.value == BaselineOf(history[i].frame, history[i].state) && WellFormed(history[i].state.view)
  }

  /** A delta that fits what the decoder remembers continues the very state it remembers. */
  lemma FittingDelta(history: seq<Sent>, baseline: Option<Baseline>, index: nat)
    requires Coherent(history) && index < |history| && Remembers(history, baseline)
    requires Acceptable(history[index].frame) && Fits(baseline, history[index].frame)
    ensures Extended(baseline.value, history[index].frame.drop.value, history[index].frame.state) == history[index].state
  {
    var i :| 0 <= i < |history| && baseline.value == BaselineOf(history[i].frame, history[i].state)
             && WellFormed(history[i].state.view);
    assert CoherentAt(history, index);
    FrameIdentity(history, i, index - 1);
    DeltaContinues(history, index, baseline.value);
  }

  lemma DeltaContinues(history: seq<Sent>, index: nat, baseline: Baseline)
    requires 0 < index < |history| && CoherentAt(history, index) && history[index].frame.drop.Some?
    requires history[index].frame.sequence > 1
    requires baseline == BaselineOf(history[index - 1].frame, history[index - 1].state)
    requires WellFormed(history[index - 1].state.view) && WellFormed(history[index].frame.state.view)
    ensures history[index].frame.drop.value <= |baseline.log|
    ensures Extended(baseline, history[index].frame.drop.value, history[index].frame.state) == history[index].state
  {
    DeltaRestores(history[index - 1].state, history[index].state, history[index].frame.drop.value, baseline);
  }

  lemma StepNeverWrong(history: seq<Sent>, baseline: Option<Baseline>, index: nat)
    requires Coherent(history) && index < |history| && Remembers(history, baseline)
    ensures Decoded(baseline, history[index].frame).Some? ==>
              Decoded(baseline, history[index].frame).value == history[index].state
    ensures Remembers(history, NextBaseline(baseline, history[index].frame))
  {
    assert CoherentAt(history, index);
    if Acceptable(history[index].frame) && Fits(baseline, history[index].frame) {
      FittingDelta(history, baseline, index);
    }
  }

  /** Safety on any channel: frames may be lost, repeated or reordered and the decoder may be
      reset at any time, yet every state it hands out is exactly the state that frame was
      encoded from. */
  lemma {:induction false} NeverDeliversAWrongState(history: seq<Sent>, baseline: Option<Baseline>, deliveries: seq<Delivery>)
    requires Coherent(history) && Remembers(history, baseline)
    requires forall k | 0 <= k < |deliveries| :: deliveries[k].Deliver? ==> deliveries[k].index < |history|
    ensures forall k | 0 <= k < |deliveries| :: NothingWrong(history, deliveries[k], Receive(history, baseline, deliveries)[k])
    decreases |deliveries|
  {
    if deliveries != [] {
      var next := None;
      if deliveries[0].Deliver? {
        StepNeverWrong(history, baseline, deliveries[0].index);
        next := NextBaseline(baseline, history[deliveries[0].index].frame);
      }
      NeverDeliversAWrongState(history, next, deliveries[1..]);
      forall k | 1 <= k < |deliveries|
        ensures NothingWrong(history, deliveries[k], Receive(history, baseline, deliveries)[k])
      {
        assert NothingWrong(history, deliveries[1..][k - 1], Receive(history, next, deliveries[1..])[k - 1]);
      }
    }
  }

  lemma {:induction false} AscendingSuffix(entries: seq<Entry>, after: nat, lower: nat, n: nat)
    requires Ascending(entries, after) && lower <= after && n <= |entries|
    ensures Ascending(entries[n..], lower)
    decreases |entries|
  {
    if n > 0 {
      assert entries[n..] == entries[1..][n - 1..];
      AscendingSuffix(entries[1..], if entries[0].Plain? then after else entries[0].sequence, lower, n - 1);
    } else if entries != [] {
      assert entries[n..] == entries;
      if entries[0].Plain? { AscendingSuffix(entries[1..], after, lower, 0); assert entries[1..][0..] == entries[1..]; }
    }
  }

  lemma SuffixWellFormed(state: State, retained: nat)
    requires WellFormed(state.view) && retained <= |state.view.log|
    ensures WellFormed(WithoutFirst(state, retained).view)
  {
    if state.view.logEntries.Some? {
      AscendingSuffix(state.view.logEntries.value, 0, 0, retained);
    }
  }

  ghost function InOrder(from: nat, to: nat): seq<Delivery>
    requires from <= to
  {
    seq(to - from, k requires 0 <= k => Deliver(from + k))
  }

  /** The decoder has just decoded frame `next - 1`, or `next` starts a history or a stream. */
  ghost predicate UpToDate(history: seq<Sent>, baseline: Option<Baseline>, next: nat)
    requires next <= |history|
  {
    0 < next < |history| && history[next].frame.sequence > 1 ==>
      baseline == Some(BaselineOf(history[next - 1].frame, history[next - 1].state))
  }

  /** One delta, against the state sent right before it. */
  lemma DeltaDecodes(old': State, state: State, before: Frame, frame: Frame)
    requires WellFormed(old'.view) && WellFormed(state.view) && frame.drop.Some?
    requires frame.stream == before.stream && frame.sequence == before.sequence + 1 && before.sequence >= 1
    requires Carries(frame, Some(Remember(old')), state)
    ensures Decoded(Some(BaselineOf(before, old')), frame) == Some(state)
  {
    var retained := |old'.view.log| - frame.drop.value;
    SuffixWellFormed(state, retained);
    assert Acceptable(frame) && Fits(Some(BaselineOf(before, old')), frame);
    DeltaRestores(old', state, frame.drop.value, BaselineOf(before, old'));
  }

  lemma FrameDecodes(history: seq<Sent>, baseline: Option<Baseline>, next: nat)
    requires Coherent(history) && next < |history| && UpToDate(history, baseline, next)
    requires forall i | 0 <= i < |history| :: WellFormed(history[i].state.view)
    ensures Decoded(baseline, history[next].frame) == Some(history[next].state)
  {
    var sent := history[next];
    assert CoherentAt(history, next);
    if sent.frame.drop.Some? {
      assert CoherentAt(history, next - 1);
      DeltaDecodes(history[next - 1].state, sent.state, history[next - 1].frame, sent.frame);
    }
  }

  lemma StepRebuilds(history: seq<Sent>, baseline: Option<Baseline>, next: nat)
    requires Coherent(history) && next < |history| && UpToDate(history, baseline, next)
    requires forall i | 0 <= i < |history| :: WellFormed(history[i].state.view)
    ensures Decoded(baseline, history[next].frame) == Some(history[next].state)
    ensures UpToDate(history, NextBaseline(baseline, history[next].frame), next + 1)
  {
    FrameDecodes(history, baseline, next);
  }

  lemma ReceiveInOrder(history: seq<Sent>, baseline: Option<Baseline>, from: nat)
    requires from < |history|
    ensures Receive(history, baseline, InOrder(from, |history|)) ==
      [Decoded(baseline, history[from].frame)] + Receive(history, NextBaseline(baseline, history[from].frame), InOrder(from + 1, |history|))
  {
    assert InOrder(from, |history|)[1..] == InOrder(from + 1, |history|);
  }

  /** Liveness on an ordered channel: delivering every frame in order rebuilds every state,
      log and structured entries included, across any number of stream resets. */
  lemma {:induction false} RebuildsEveryState(history: seq<Sent>, baseline: Option<Baseline>, from: nat)
    requires Coherent(history) && from <= |history| && UpToDate(history, baseline, from)
    requires forall i | 0 <= i < |history| :: WellFormed(history[i].state.view)
    ensures forall k | from <= k < |history| ::
      Receive(history, baseline, InOrder(from, |history|))[k - from] == Some(history[k].state)
    decreases |history| - from
  {
    if from < |history| {
      var next := NextBaseline(baseline, history[from].frame);
      var received := Receive(history, next, InOrder(from + 1, |history|));
      StepRebuilds(history, baseline, from);
      RebuildsEveryState(history, next, from + 1);
      ReceiveInOrder(history, baseline, from);
      forall k | from < k < |history| ensures ([Some(history[from].state)] + received)[k - from] == Some(history[k].state) {
        assert received[k - (from + 1)] == Some(history[k].state);
      }
    }
  }
}
