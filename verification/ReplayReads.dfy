/**
 A participant's notes read in two queries, the notes first and the frames
 afterwards, with anything but the reader's own saves happening in between.
 */
module ReplayReads {
  import opened Common
  import opened ReplayNotes

  /** A replay at one moment. `newest` is a room version no frame has passed so far. */
  datatype Moment = Moment(status: Status, frames: seq<Frame>, notes: seq<Note>, newest: nat)

  predicate Live(m: Moment) { m.status.Recording? || m.status.Finalizing? }

  ghost predicate Plausible(m: Moment) {
    && UniqueKeys(m.notes) && Ascending(m.frames) && (forall i | 0 <= i < |m.frames| :: m.frames[i].roomVersion <= m.newest)
    && (Live(m) ==> Placed(m.notes, m.frames))
    && (m.status.Ready? ==> m.frames == [] && forall x | x in m.notes :: x.key.Index?)
    && (m.status.Discarded? ==> m.frames == [] && m.notes == [])
  }

  /** What may be committed between the two queries. `Remove` is any deletion of the replay, with its frames
      and notes; `OthersSave` is a note saved or deleted by another participant. */
  datatype Change = Append(frame: Frame, gameOver: bool) | Prune(version: nat) | End | Finalize | Remove | OthersSave(notes: seq<Note>)

  /** Frames are stored at the version their room commit reaches, and those only grow. */
  ghost predicate Possible(m: Moment, user: nat, change: Change) {
    match change
    case Append(frame, _) => m.status.Recording? && frame.roomVersion > m.newest
    case Prune(_) => m.status.Recording?
    case End => m.status.Recording?
    case Finalize => m.status.Finalizing?
    case Remove => true
    case OthersSave(notes) => Owned(notes, user) == Owned(m.notes, user) && Plausible(m.(notes := notes))
  }

  function Changed(m: Moment, change: Change): Moment {
    match change
    case Append(frame, gameOver) =>
      m.(frames := WithFrame(m.frames, frame), newest := frame.roomVersion, status := if gameOver then Finalizing else Recording)
    case Prune(version) => m.(frames := m.frames[..Place(m.frames, version)], notes := NotesBefore(m.notes, version))
    case End => m.(status := Finalizing)
    case Finalize => m.(status := Ready, notes := RekeyedAll(m.notes, m.frames), frames := [])
    case Remove => m.(status := Discarded, notes := [], frames := [])
    case OthersSave(notes) => m.(notes := notes)
  }

  function After(m: Moment, changes: seq<Change>): Moment {
    if changes == [] then m else Changed(After(m, changes[..|changes| - 1]), changes[|changes| - 1])
  }

  ghost predicate PossibleRun(m: Moment, user: nat, changes: seq<Change>) {
    changes == [] || (PossibleRun(m, user, changes[..|changes| - 1])
                      && Possible(After(m, changes[..|changes| - 1]), user, changes[|changes| - 1]))
  }

  /** What one snapshot of the moment answers. */
  function Snapshot(m: Moment, user: nat): seq<(nat, string)> { NotesFor(m.notes, m.frames, user) }

  /** What `getReplayNotes` answers: the notes of the first moment, listed against the frames of the second. */
  function Answer(first: Moment, second: Moment, user: nat): seq<(nat, string)> { NotesFor(first.notes, second.frames, user) }

  /** Finalized in between, with a note of the reader left. */
  predicate Emptied(first: Moment, second: Moment, user: nat) {
    Live(first) && second.status.Ready? && Owned(second.notes, user) != []
  }

  /** The stored replay is such a moment. */
  lemma ReplayIsPlausible(replay: Replay, newest: nat)
    requires replay.Valid() && forall i | 0 <= i < |replay.frames| :: replay.frames[i].roomVersion <= newest
    ensures Plausible(Moment(replay.status, replay.frames, replay.notes, newest))
  {
    if replay.status.Ready? { IndexedNotes(replay.notes, replay.frameCount.value); }
  }

  lemma {:induction false} IndexedNotes(notes: seq<Note>, frameCount: nat)
    requires AllIndexed(notes, frameCount)
    ensures forall x | x in notes :: x.key.Index?
  {
    if notes != [] { IndexedNotes(notes[1..], frameCount); }
  }

  // ---------------------------------------------------------------- two lists compared

  /** Notes placed in the frames of one moment, listed against the frames of another: the list is the
      same exactly when every note is shown at the same frame. */
  lemma {:induction false} ListingApart(notes: seq<Note>, frames: seq<Frame>, later: seq<Frame>)
    requires Placed(notes, frames)
    ensures |Listing(notes, later)| <= |Listing(notes, frames)| == |notes|
    ensures Listing(notes, later) == Listing(notes, frames) <==>
      forall i | 0 <= i < |notes| :: ShownAt(notes[i], later) == ShownAt(notes[i], frames)
  {
    if notes != [] {
      var head, tail := notes[0], notes[1..];
      ListingApart(tail, frames, later);
      assert notes == [head] + tail;
      HeadAndTail((ShownAt(head, frames).value, head.text), Listing(tail, frames));
      if ShownAt(head, later).Some? {
        HeadAndTail((ShownAt(head, later).value, head.text), Listing(tail, later));
      }
    }
  }

  lemma {:induction false} InsertedMembers(note: Note, sorted: seq<Note>)
    ensures forall x :: x in Insert(note, sorted) <==> x == note || x in sorted
  {
    if sorted != [] {
      InsertedMembers(note, sorted[1..]);
      assert sorted == [sorted[0]] + sorted[1..];
    }
  }

  lemma {:induction false} SortedMembers(notes: seq<Note>)
    ensures forall x :: x in Sorted(notes) <==> x in notes
  {
    if notes != [] {
      SortedMembers(notes[1..]);
      InsertedMembers(notes[0], Sorted(notes[1..]));
      assert notes == [notes[0]] + notes[1..];
    }
  }

  lemma {:induction false} OwnedMembers(notes: seq<Note>, user: nat)
    ensures forall x :: x in Owned(notes, user) <==> x in notes && x.user == user
  {
    if notes != [] {
      OwnedMembers(notes[1..], user);
      assert notes == [notes[0]] + notes[1..];
    }
  }

  /** The answer is that of the first moment exactly when every note of the reader still has the same frame
      at the second. */
  lemma FirstMomentsAnswer(notes: seq<Note>, frames: seq<Frame>, later: seq<Frame>, user: nat)
    requires Ascending(frames) && Placed(notes, frames)
    ensures NotesFor(notes, later, user) == NotesFor(notes, frames, user) <==>
      forall x | x in notes && x.user == user :: ShownAt(x, later) == ShownAt(x, frames)
  {
    var own := Owned(notes, user);
    OwnedRekeyed(notes, frames, user);
    SortedRekeyed(own, frames);
    ListingApart(Sorted(own), frames, later);
    SortedMembers(own);
    OwnedMembers(notes, user);
  }

  /** With a finalization in between the answer is empty: that of the first moment exactly when the reader
      had no note then. */
  lemma FinalizedBetweenReads(notes: seq<Note>, frames: seq<Frame>, user: nat)
    requires Ascending(frames) && Placed(notes, frames)
    ensures NotesFor(notes, [], user) == []
    ensures NotesFor(notes, [], user) == NotesFor(notes, frames, user) <==> forall x | x in notes :: x.user != user
  {
    var own := Owned(notes, user);
    OwnedRekeyed(notes, frames, user);
    SortedRekeyed(own, frames);
    NothingListed(Sorted(own), frames);
    ListingApart(Sorted(own), frames, []);
    SortedMembers(own);
    OwnedMembers(notes, user);
    if own != [] { assert own[0] in own && own[0] in Sorted(own); }
    if Sorted(own) != [] { assert Sorted(own)[0] in own; }
  }

  lemma {:induction false} NothingListed(notes: seq<Note>, frames: seq<Frame>)
    requires Placed(notes, frames)
    ensures Listing(notes, []) == []
  {
    if notes != [] { NothingListed(notes[1..], frames); }
  }

  // ---------------------------------------------------------------- notes whose frames are gone

  /** The notes that are shown at all. */
  function OnFrames(notes: seq<Note>, frames: seq<Frame>): seq<Note> {
    if notes == [] then []
    else if ShownAt(notes[0], frames).Some? then [notes[0]] + OnFrames(notes[1..], frames)
    else OnFrames(notes[1..], frames)
  }

  lemma {:induction false} OnFramesMembers(notes: seq<Note>, frames: seq<Frame>)
    ensures forall x :: x in OnFrames(notes, frames) <==> x in notes && ShownAt(x, frames).Some?
  {
    if notes != [] {
      OnFramesMembers(notes[1..], frames);
      assert notes == [notes[0]] + notes[1..];
    }
  }

  lemma {:induction false} ListingSkips(notes: seq<Note>, frames: seq<Frame>)
    ensures Listing(OnFrames(notes, frames), frames) == Listing(notes, frames)
  {
    if notes != [] {
      ListingSkips(notes[1..], frames);
      HeadAndTail(notes[0], OnFrames(notes[1..], frames));
    }
  }

  ghost predicate InOrder(notes: seq<Note>) {
    forall i, j | 0 <= i < j < |notes| :: Position(notes[i]) <= Position(notes[j])
  }

  lemma {:induction false} InsertInOrder(note: Note, sorted: seq<Note>)
    requires InOrder(sorted)
    ensures InOrder(Insert(note, sorted)) && |Insert(note, sorted)| == |sorted| + 1
  {
    if sorted != [] && Position(note) > Position(sorted[0]) {
      InsertInOrder(note, sorted[1..]);
      InsertedMembers(note, sorted[1..]);
      var rest := Insert(note, sorted[1..]);
      forall j | 0 <= j < |rest| ensures Position(sorted[0]) <= Position(rest[j]) {
        assert rest[j] in rest;
      }
    }
  }

  lemma {:induction false} SortedInOrder(notes: seq<Note>)
    ensures InOrder(Sorted(notes)) && |Sorted(notes)| == |notes|
  {
    if notes != [] {
      SortedInOrder(notes[1..]);
      InsertInOrder(notes[0], Sorted(notes[1..]));
    }
  }

  lemma {:induction false} InsertOnFrames(note: Note, sorted: seq<Note>, frames: seq<Frame>)
    requires InOrder(sorted)
    ensures OnFrames(Insert(note, sorted), frames) ==
            if ShownAt(note, frames).Some? then Insert(note, OnFrames(sorted, frames)) else OnFrames(sorted, frames)
  {
    if sorted != [] && Position(note) > Position(sorted[0]) {
      InsertOnFrames(note, sorted[1..], frames);
      HeadAndTail(sorted[0], Insert(note, sorted[1..]));
      HeadAndTail(sorted[0], OnFrames(sorted[1..], frames));
    } else {
      HeadAndTail(note, sorted);
      var rest := OnFrames(sorted, frames);
      OnFramesMembers(sorted, frames);
      if rest != [] {
        assert rest[0] in rest;
        assert Position(note) <= Position(rest[0]);
      }
    }
  }

  lemma {:induction false} SortedOnFrames(notes: seq<Note>, frames: seq<Frame>)
    ensures OnFrames(Sorted(notes), frames) == Sorted(OnFrames(notes, frames))
  {
    if notes != [] {
      SortedOnFrames(notes[1..], frames);
      SortedInOrder(notes[1..]);
      InsertOnFrames(notes[0], Sorted(notes[1..]), frames);
      HeadAndTail(notes[0], OnFrames(notes[1..], frames));
    }
  }

  /** A note without its frame does not show, so leaving it out of the list changes nothing. */
  lemma GoneNotesDoNotShow(own: seq<Note>, frames: seq<Frame>)
    ensures Listing(Sorted(own), frames) == Listing(Sorted(OnFrames(own, frames)), frames)
  {
    ListingSkips(Sorted(own), frames);
    SortedOnFrames(own, frames);
  }

  lemma {:induction false} SameFramesShown(notes: seq<Note>, frames: seq<Frame>, later: seq<Frame>)
    requires forall x | x in notes :: ShownAt(x, frames).Some? <==> ShownAt(x, later).Some?
    ensures OnFrames(notes, frames) == OnFrames(notes, later)
  {
    if notes != [] {
      assert notes[0] in notes;
      SameFramesShown(notes[1..], frames, later);
    }
  }

  lemma {:induction false} AllShown(notes: seq<Note>, frames: seq<Frame>)
    requires Placed(notes, frames)
    ensures OnFrames(notes, frames) == notes
    ensures forall x | x in notes :: PlacedNote(x, frames)
  {
    if notes != [] { AllShown(notes[1..], frames); }
  }

  // ---------------------------------------------------------------- what each change does to them

  lemma {:induction false} OwnedBefore(notes: seq<Note>, user: nat, version: nat)
    ensures Owned(NotesBefore(notes, version), user) == NotesBefore(Owned(notes, user), version)
    ensures |NotesBefore(notes, version)| <= |notes|
  {
    if notes != [] {
      OwnedBefore(notes[1..], user, version);
      HeadAndTail(notes[0], NotesBefore(notes[1..], version));
      HeadAndTail(notes[0], Owned(notes[1..], user));
    }
  }

  lemma AppendedFrames(frames: seq<Frame>, frame: Frame)
    requires Ascending(frames) && forall i | 0 <= i < |frames| :: frames[i].roomVersion < frame.roomVersion
    ensures WithFrame(frames, frame) == frames + [frame] && Ascending(frames + [frame])
  {
    InsertedAtEnd(frames, frame);
  }

  /** A later frame moves no earlier one. */
  lemma FrameOfAppended(frames: seq<Frame>, frame: Frame, version: nat)
    requires Ascending(frames) && (forall i | 0 <= i < |frames| :: frames[i].roomVersion < frame.roomVersion)
    requires version < frame.roomVersion
    ensures FrameOf(frames + [frame], version) == FrameOf(frames, version)
  {
    var more := frames + [frame];
    AppendedFrames(frames, frame);
    FrameOfExact(frames, version);
    FrameOfExact(more, version);
    if FrameOf(frames, version).Some? { assert more[FrameOf(frames, version).value].roomVersion == version; }
  }

  lemma FrameOfPruned(frames: seq<Frame>, from: nat, version: nat)
    requires Ascending(frames)
    ensures FrameOf(frames[..Place(frames, from)], version) == if version < from then FrameOf(frames, version) else None
  {
    var kept := frames[..Place(frames, from)];
    FrameOfExact(frames, version);
    FrameOfExact(kept, version);
    if version < from && FrameOf(frames, version).Some? {
      var i := FrameOf(frames, version).value;
      assert i < |kept| && kept[i].roomVersion == version;
    }
  }

  /** Pruning the notes that show is showing the notes on the frames that are left. */
  lemma {:induction false} ShownAfterPrune(own: seq<Note>, frames: seq<Frame>, from: nat)
    requires Ascending(frames) && forall x | x in own :: x.key.Version?
    ensures NotesBefore(OnFrames(own, frames), from) == OnFrames(own, frames[..Place(frames, from)])
  {
    if own != [] {
      assert own[0] in own;
      ShownAfterPrune(own[1..], frames, from);
      FrameOfPruned(frames, from, own[0].key.version);
      HeadAndTail(own[0], OnFrames(own[1..], frames));
    }
  }

  /** A prune between the two queries: the old notes listed against the frames that are left are the notes
      that are left. */
  lemma PrunedBetweenReads(notes: seq<Note>, frames: seq<Frame>, from: nat, user: nat)
    requires Ascending(frames) && Placed(notes, frames)
    ensures var kept := frames[..Place(frames, from)];
            NotesFor(notes, kept, user) == NotesFor(NotesBefore(notes, from), kept, user)
  {
    var own, kept := Owned(notes, user), frames[..Place(frames, from)];
    OwnedRekeyed(notes, frames, user);
    AllShown(own, frames);
    ShownAfterPrune(own, frames, from);
    OwnedBefore(notes, user, from);
    GoneNotesDoNotShow(own, kept);
  }

  /** While the replay is live the reader's notes are those of the first moment that still have a frame. */
  ghost predicate Follows(own: seq<Note>, m: Moment, user: nat) {
    && (forall x | x in own :: x.key.Version? && x.key.version <= m.newest)
    && (Live(m) ==> Owned(m.notes, user) == OnFrames(own, m.frames))
  }

  lemma FollowsFirst(m: Moment, user: nat)
    requires Plausible(m) && Live(m)
    ensures Follows(Owned(m.notes, user), m, user)
  {
    var own := Owned(m.notes, user);
    OwnedRekeyed(m.notes, m.frames, user);
    AllShown(own, m.frames);
    forall x | x in own ensures x.key.version <= m.newest {
      assert m.frames[FrameOf(m.frames, x.key.version).value].roomVersion == x.key.version;
    }
  }

  lemma AppendPlausible(m: Moment, user: nat, frame: Frame, gameOver: bool)
    requires Plausible(m) && Possible(m, user, Append(frame, gameOver))
    ensures Plausible(Changed(m, Append(frame, gameOver)))
  {
    AppendedFrames(m.frames, frame);
    StillPlaced(m.notes, m.frames, m.frames + [frame]);
  }

  lemma AppendFollows(own: seq<Note>, m: Moment, user: nat, frame: Frame, gameOver: bool)
    requires Plausible(m) && Possible(m, user, Append(frame, gameOver)) && Follows(own, m, user)
    ensures Plausible(Changed(m, Append(frame, gameOver))) && Follows(own, Changed(m, Append(frame, gameOver)), user)
  {
    AppendPlausible(m, user, frame, gameOver);
    AppendedFrames(m.frames, frame);
    forall x | x in own ensures ShownAt(x, m.frames).Some? <==> ShownAt(x, m.frames + [frame]).Some? {
      FrameOfAppended(m.frames, frame, x.key.version);
    }
    SameFramesShown(own, m.frames, m.frames + [frame]);
  }

  lemma PruneFollows(own: seq<Note>, m: Moment, user: nat, version: nat)
    requires Plausible(m) && Possible(m, user, Prune(version)) && Follows(own, m, user)
    ensures Plausible(Changed(m, Prune(version))) && Follows(own, Changed(m, Prune(version)), user)
  {
    PrunedNotes(m.frames, m.notes, version);
    OwnedBefore(m.notes, user, version);
    ShownAfterPrune(own, m.frames, version);
  }

  lemma ChangeFollows(own: seq<Note>, m: Moment, user: nat, change: Change)
    requires Plausible(m) && Possible(m, user, change) && Follows(own, m, user)
    ensures Plausible(Changed(m, change)) && Follows(own, Changed(m, change), user)
  {
    match change {
      case Append(frame, gameOver) => AppendFollows(own, m, user, frame, gameOver);
      case Prune(version) => PruneFollows(own, m, user, version);
      case Finalize => FinalizedPlausible(m);
      case _ =>
    }
  }

  lemma FinalizedPlausible(m: Moment)
    requires Plausible(m) && m.status.Finalizing?
    ensures Plausible(Changed(m, Finalize))
  {
    RekeyedUnique(m.notes, m.frames);
    IndexedNotes(RekeyedAll(m.notes, m.frames), |m.frames|);
  }

  /** Every change keeps a moment plausible, and leaves the reader at most the notes there were. */
  lemma ChangeKeeps(m: Moment, user: nat, change: Change)
    requires Plausible(m) && Possible(m, user, change)
    ensures Plausible(Changed(m, change))
    ensures |Owned(Changed(m, change).notes, user)| <= |Owned(m.notes, user)|
    ensures !Live(m) ==> !Live(Changed(m, change)) && (Changed(m, change).status.Ready? ==> m.status.Ready?)
  {
    if Live(m) {
      FollowsFirst(m, user);
      ChangeFollows(Owned(m.notes, user), m, user, change);
    }
    match change {
      case Prune(version) =>
        OwnedBefore(m.notes, user, version);
        OwnedBefore(Owned(m.notes, user), user, version);
      case Finalize =>
        OwnedRekeyed(m.notes, m.frames, user);
        ListingRekeyed(Owned(m.notes, user), m.frames, []);
      case _ =>
    }
  }

  lemma {:induction false} RunKeeps(m: Moment, user: nat, changes: seq<Change>)
    requires Plausible(m) && PossibleRun(m, user, changes)
    ensures Plausible(After(m, changes))
    ensures !Live(m) ==> !Live(After(m, changes)) && (After(m, changes).status.Ready? ==> m.status.Ready?)
  {
    if changes != [] {
      RunKeeps(m, user, changes[..|changes| - 1]);
      ChangeKeeps(After(m, changes[..|changes| - 1]), user, changes[|changes| - 1]);
    }
  }

  lemma {:induction false} RunFollows(m: Moment, user: nat, changes: seq<Change>)
    requires Plausible(m) && Live(m) && PossibleRun(m, user, changes)
    ensures Plausible(After(m, changes)) && Follows(Owned(m.notes, user), After(m, changes), user)
  {
    if changes == [] {
      FollowsFirst(m, user);
    } else {
      RunFollows(m, user, changes[..|changes| - 1]);
      ChangeFollows(Owned(m.notes, user), After(m, changes[..|changes| - 1]), user, changes[|changes| - 1]);
    }
  }

  /** The reader's notes only get fewer along a run. */
  lemma {:induction false} FewerAlong(m: Moment, user: nat, changes: seq<Change>, n: nat)
    requires Plausible(m) && PossibleRun(m, user, changes) && n <= |changes|
    ensures PossibleRun(m, user, changes[..n])
    ensures |Owned(After(m, changes).notes, user)| <= |Owned(After(m, changes[..n]).notes, user)|
    decreases |changes|
  {
    if n == |changes| {
      assert changes[..n] == changes;
    } else {
      var front := changes[..|changes| - 1];
      FewerAlong(m, user, front, n);
      assert front[..n] == changes[..n];
      RunKeeps(m, user, front);
      ChangeKeeps(After(m, front), user, changes[|changes| - 1]);
    }
  }

  // ---------------------------------------------------------------- the answer

  lemma {:induction false} ListingOfIndexed(notes: seq<Note>, frames: seq<Frame>, later: seq<Frame>)
    requires forall x | x in notes :: x.key.Index?
    ensures |Listing(notes, frames)| == |notes| && Listing(notes, frames) == Listing(notes, later)
  {
    if notes != [] {
      assert notes[0] in notes;
      ListingOfIndexed(notes[1..], frames, later);
    }
  }

  /** A ready replay's notes do not need the frames. */
  lemma ReadyAnswers(notes: seq<Note>, user: nat, frames: seq<Frame>, later: seq<Frame>)
    requires forall x | x in notes :: x.key.Index?
    ensures NotesFor(notes, frames, user) == NotesFor(notes, later, user)
    ensures |NotesFor(notes, frames, user)| == |Owned(notes, user)|
  {
    var own := Owned(notes, user);
    OwnedMembers(notes, user);
    SortedMembers(own);
    SortedInOrder(own);
    ListingOfIndexed(Sorted(own), frames, later);
  }

  /** A snapshot shows every note of the reader. */
  lemma SnapshotShowsAll(m: Moment, user: nat)
    requires Plausible(m)
    ensures |Snapshot(m, user)| == |Owned(m.notes, user)|
  {
    if Live(m) {
      var own := Owned(m.notes, user);
      OwnedRekeyed(m.notes, m.frames, user);
      SortedRekeyed(own, m.frames);
      ListingApart(Sorted(own), m.frames, m.frames);
      SortedInOrder(own);
    } else {
      ReadyAnswers(m.notes, user, m.frames, m.frames);
    }
  }

  /** Read first while the replay is live: the later snapshot as long as it still is, and nothing
      afterwards. */
  lemma LiveAnswer(m: Moment, user: nat, changes: seq<Change>)
    requires Plausible(m) && Live(m) && PossibleRun(m, user, changes)
    ensures var later := After(m, changes);
            Answer(m, later, user) == if Live(later) then Snapshot(later, user) else []
  {
    var own, later := Owned(m.notes, user), After(m, changes);
    RunFollows(m, user, changes);
    if Live(later) {
      GoneNotesDoNotShow(own, later.frames);
    } else {
      OwnedRekeyed(m.notes, m.frames, user);
      SortedRekeyed(own, m.frames);
      NothingListed(Sorted(own), m.frames);
    }
  }

  /** The answer is what one snapshot would give at some moment from the first query to the second. */
  ghost predicate OfOneMoment(m: Moment, user: nat, changes: seq<Change>) {
    exists n :: 0 <= n <= |changes| && Answer(m, After(m, changes), user) == Snapshot(After(m, changes[..n]), user)
  }

  lemma NeverEmptyBefore(m: Moment, user: nat, changes: seq<Change>)
    requires Plausible(m) && PossibleRun(m, user, changes) && Owned(After(m, changes).notes, user) != []
    ensures forall n | 0 <= n <= |changes| :: Snapshot(After(m, changes[..n]), user) != []
  {
    forall n | 0 <= n <= |changes| ensures Snapshot(After(m, changes[..n]), user) != [] {
      FewerAlong(m, user, changes, n);
      RunKeeps(m, user, changes[..n]);
      SnapshotShowsAll(After(m, changes[..n]), user);
    }
  }

  /** Unless the replay was finalized in between while a note of the reader is left, the answer is that of
      the first moment or of the second. */
  lemma FirstOrSecond(m: Moment, user: nat, changes: seq<Change>)
    requires Plausible(m) && PossibleRun(m, user, changes) && !Emptied(m, After(m, changes), user)
    ensures var later := After(m, changes);
            Answer(m, later, user) == Snapshot(m, user) || Answer(m, later, user) == Snapshot(later, user)
  {
    var later := After(m, changes);
    RunKeeps(m, user, changes);
    if Live(m) {
      LiveAnswer(m, user, changes);
      SnapshotShowsAll(later, user);
    } else {
      ReadyAnswers(m.notes, user, m.frames, later.frames);
    }
  }

  /** Whatever is committed between the two queries, the reader's own saves excepted: the answer is that of
      one moment, of the first or of the second, exactly unless the replay was finalized in between while a
      note of the reader is left. Then it is empty although no snapshot of the whole run is. */
  lemma ReadApart(m: Moment, user: nat, changes: seq<Change>)
    requires Plausible(m) && PossibleRun(m, user, changes)
    ensures var later := After(m, changes);
      && (OfOneMoment(m, user, changes) <==> !Emptied(m, later, user))
      && (!Emptied(m, later, user) ==> Answer(m, later, user) == Snapshot(m, user) || Answer(m, later, user) == Snapshot(later, user))
      && (Emptied(m, later, user) ==> Answer(m, later, user) == [])
  {
    var later := After(m, changes);
    if Emptied(m, later, user) {
      LiveAnswer(m, user, changes);
      NeverEmptyBefore(m, user, changes);
    } else {
      FirstOrSecond(m, user, changes);
      assert changes[..0] == [] && changes[..|changes|] == changes;
      assert After(m, changes[..0]) == m && After(m, changes[..|changes|]) == later;
    }
  }

  /** Such a run: one note on one frame, and the finalization. */
  lemma AnEmptiedAnswer()
    ensures var frame := Frame(1, Some(View(None, 0)), None);
      var m := Moment(Finalizing, [frame], [Note(7, Version(1), "why")], 1);
      && Plausible(m) && PossibleRun(m, 7, [Finalize])
      && Answer(m, After(m, [Finalize]), 7) == [] && Snapshot(m, 7) == Snapshot(After(m, [Finalize]), 7) == [(0, "why")]
  {
    var frames, notes := [Frame(1, Some(View(None, 0)), None)], [Note(7, Version(1), "why")];
    var m := Moment(Finalizing, frames, notes, 1);
    assert [Finalize][..0] == [] && After(m, []) == m && PossibleRun(m, 7, []);
    assert After(m, [Finalize]) == Changed(m, Finalize);
    assert FrameOf(frames, 1) == Some(0) && TextAt([], 7, Version(1)) == None;
    NothingChangesForReaders(notes, frames, [], 7);
    FinalizedBetweenReads(notes, frames, 7);
    OneNote(notes[0], frames);
  }

  lemma OneNote(note: Note, frames: seq<Frame>)
    requires PlacedNote(note, frames)
    ensures NotesFor([note], frames, note.user) == [(ShownAt(note, frames).value, note.text)]
  {
    assert [note][1..] == [];
    assert Owned([note], note.user) == [note] + Owned([], note.user) == [note];
    assert Sorted([note]) == Insert(note, Sorted([])) == [note];
    assert Listing([note], frames) == [(ShownAt(note, frames).value, note.text)] + Listing([], frames);
  }
}
