/**
 One replay from recording to ready: its frames, the undo that prunes them, the
 paged read of the finalizer, and the participants' notes, which are keyed by
 room version while frames can still change and by frame index afterwards.
 */
module ReplayNotes {
  import opened Common

  const REPLAY_FRAME_BATCH_SIZE: nat := 25
  const MAX_REPLAY_VIEWS: nat := 10_000
  const MAX_REPLAY_NOTE_LENGTH: nat := 2_000

  /** A discarded recording has no row any more. */
  datatype Status = Recording | Finalizing | Ready | Discarded

  datatype View = View(winner: Option<nat>, board: nat)

  /** A stored frame. `view` and `transition` are what decoding the stored JSON gives; a
      transition is absent, undecodable or a value. */
  datatype Frame = Frame(roomVersion: nat, view: Option<View>, transition: Option<Option<nat>>)

  datatype Key = Version(version: nat) | Index(index: nat)

  datatype Note = Note(user: nat, key: Key, text: string)

  /** COALESCE(frame_index, room_version). */
  function Position(note: Note): nat {
    if note.key.Index? then note.key.index else note.key.version
  }

  ghost predicate Ascending(frames: seq<Frame>) {
    forall i, j | 0 <= i < j < |frames| :: frames[i].roomVersion < frames[j].roomVersion
  }

  /** The index of the first frame at or past a version. */
  function Place(frames: seq<Frame>, version: nat): (i: nat)
    ensures i <= |frames|
    ensures forall k | 0 <= k < i :: frames[k].roomVersion < version
    ensures i < |frames| ==> frames[i].roomVersion >= version
  {
    if frames == [] || frames[0].roomVersion >= version then 0 else 1 + Place(frames[1..], version)
  }

  /** A frame stored at its place in version order. */
  function WithFrame(frames: seq<Frame>, frame: Frame): seq<Frame> {
    var i := Place(frames, frame.roomVersion);
    frames[..i] + [frame] + frames[i..]
  }

  /** The frame a room version belongs to. */
  function FrameOf(frames: seq<Frame>, version: nat): Option<nat> {
    var i := Place(frames, version);
    if i < |frames| && frames[i].roomVersion == version then Some(i) else None
  }

  lemma FrameOfExact(frames: seq<Frame>, version: nat)
    requires Ascending(frames)
    ensures FrameOf(frames, version).None? <==> forall i | 0 <= i < |frames| :: frames[i].roomVersion != version
    ensures forall i | 0 <= i < |frames| && frames[i].roomVersion == version :: FrameOf(frames, version) == Some(i)
  {
    var place := Place(frames, version);
    forall i | 0 <= i < |frames| && frames[i].roomVersion == version ensures i == place { }
  }

  function TextAt(notes: seq<Note>, user: nat, key: Key): Option<string> {
    if notes == [] then None
    else if notes[0].user == user && notes[0].key == key then Some(notes[0].text)
    else TextAt(notes[1..], user, key)
  }

  /** The unique indexes on (replay, user, room_version) and (replay, user, frame_index). */
  ghost predicate UniqueKeys(notes: seq<Note>) {
    notes == [] || (TextAt(notes[1..], notes[0].user, notes[0].key).None? && UniqueKeys(notes[1..]))
  }

  // ---------------------------------------------------------------- reading the notes

  function Insert(note: Note, sorted: seq<Note>): seq<Note> {
    if sorted == [] || Position(note) <= Position(sorted[0]) then [note] + sorted
    else [sorted[0]] + Insert(note, sorted[1..])
  }

  /** ORDER BY COALESCE(frame_index, room_version). */
  function Sorted(notes: seq<Note>): seq<Note> {
    if notes == [] then [] else Insert(notes[0], Sorted(notes[1..]))
  }

  function Owned(notes: seq<Note>, user: nat): seq<Note> {
    if notes == [] then []
    else if notes[0].user == user then [notes[0]] + Owned(notes[1..], user)
    else Owned(notes[1..], user)
  }

  /** The frame a stored note is shown at; a live note without its frame is not shown. */
  function ShownAt(note: Note, frames: seq<Frame>): Option<nat> {
    if note.key.Index? then Some(note.key.index) else FrameOf(frames, note.key.version)
  }

  function Listing(notes: seq<Note>, frames: seq<Frame>): seq<(nat, string)> {
    if notes == [] then []
    else
      var frame := ShownAt(notes[0], frames);
      if frame.Some? then [(frame.value, notes[0].text)] + Listing(notes[1..], frames) else Listing(notes[1..], frames)
  }

  /** `getReplayNotes`: what one participant reads. */
  function NotesFor(notes: seq<Note>, frames: seq<Frame>, user: nat): seq<(nat, string)> {
    Listing(Sorted(Owned(notes, user)), frames)
  }

  // ---------------------------------------------------------------- finalization's re-keying

  function Rekeyed(note: Note, frames: seq<Frame>): Option<Note> {
    var frame := ShownAt(note, frames);
    if frame.Some? then Some(note.(key := Index(frame.value))) else None
  }

  /** Every live note with a frame moves to that frame's index; the others are deleted. */
  function RekeyedAll(notes: seq<Note>, frames: seq<Frame>): seq<Note> {
    if notes == [] then []
    else
      var note := Rekeyed(notes[0], frames);
      if note.Some? then [note.value] + RekeyedAll(notes[1..], frames) else RekeyedAll(notes[1..], frames)
  }

  /** A live note whose frame exists. */
  predicate PlacedNote(note: Note, frames: seq<Frame>) {
    note.key.Version? && FrameOf(frames, note.key.version).Some?
  }

  ghost predicate Placed(notes: seq<Note>, frames: seq<Frame>) {
    notes == [] || (PlacedNote(notes[0], frames) && Placed(notes[1..], frames))
  }

  /** The note finalization makes of a placed one. */
  function Final(note: Note, frames: seq<Frame>): Note
    requires PlacedNote(note, frames)
  {
    note.(key := Index(FrameOf(frames, note.key.version).value))
  }

  /** Re-keying keeps the order of two notes: a later room version is a later frame. */
  lemma OrderKept(a: Note, b: Note, frames: seq<Frame>)
    requires Ascending(frames) && PlacedNote(a, frames) && PlacedNote(b, frames)
    ensures Position(a) <= Position(b) <==> Position(Final(a, frames)) <= Position(Final(b, frames))
    ensures a.key == b.key <==> Final(a, frames).key == Final(b, frames).key
  {
    var i, j := FrameOf(frames, a.key.version).value, FrameOf(frames, b.key.version).value;
    assert frames[i].roomVersion == a.key.version && frames[j].roomVersion == b.key.version;
  }

  lemma {:induction false} InsertRekeyed(note: Note, sorted: seq<Note>, frames: seq<Frame>)
    requires Ascending(frames) && PlacedNote(note, frames) && Placed(sorted, frames)
    ensures RekeyedAll(Insert(note, sorted), frames) == Insert(Final(note, frames), RekeyedAll(sorted, frames))
    ensures Placed(Insert(note, sorted), frames)
  {
    HeadAndTail(note, sorted);
    if sorted != [] {
      var rest := RekeyedAll(sorted[1..], frames);
      HeadAndTail(Final(sorted[0], frames), rest);
      OrderKept(note, sorted[0], frames);
      if Position(note) > Position(sorted[0]) {
        InsertRekeyed(note, sorted[1..], frames);
        HeadAndTail(sorted[0], Insert(note, sorted[1..]));
      }
    }
  }

  lemma {:induction false} SortedRekeyed(notes: seq<Note>, frames: seq<Frame>)
    requires Ascending(frames) && Placed(notes, frames)
    ensures RekeyedAll(Sorted(notes), frames) == Sorted(RekeyedAll(notes, frames))
    ensures Placed(Sorted(notes), frames)
  {
    if notes != [] {
      SortedRekeyed(notes[1..], frames);
      InsertRekeyed(notes[0], Sorted(notes[1..]), frames);
      HeadAndTail(Final(notes[0], frames), RekeyedAll(notes[1..], frames));
    }
  }

  lemma {:induction false} OwnedRekeyed(notes: seq<Note>, frames: seq<Frame>, user: nat)
    requires Placed(notes, frames)
    ensures RekeyedAll(Owned(notes, user), frames) == Owned(RekeyedAll(notes, frames), user)
    ensures Placed(Owned(notes, user), frames)
  {
    if notes != [] {
      OwnedRekeyed(notes[1..], frames, user);
      HeadAndTail(Final(notes[0], frames), RekeyedAll(notes[1..], frames));
      HeadAndTail(notes[0], Owned(notes[1..], user));
    }
  }

  lemma {:induction false} ListingRekeyed(notes: seq<Note>, frames: seq<Frame>, later: seq<Frame>)
    requires Placed(notes, frames)
    ensures Listing(RekeyedAll(notes, frames), later) == Listing(notes, frames)
    ensures |RekeyedAll(notes, frames)| == |notes|
  {
    if notes != [] {
      ListingRekeyed(notes[1..], frames, later);
      HeadAndTail(Final(notes[0], frames), RekeyedAll(notes[1..], frames));
    }
  }

  /** Re-keying loses no note and changes nothing a participant reads, whatever happens to the
      frames afterwards. */
  lemma NothingChangesForReaders(notes: seq<Note>, frames: seq<Frame>, later: seq<Frame>, user: nat)
    requires Ascending(frames) && Placed(notes, frames)
    ensures NotesFor(RekeyedAll(notes, frames), later, user) == NotesFor(notes, frames, user)
    ensures |RekeyedAll(notes, frames)| == |notes|
  {
    OwnedRekeyed(notes, frames, user);
    SortedRekeyed(Owned(notes, user), frames);
    ListingRekeyed(Sorted(Owned(notes, user)), frames, later);
    ListingRekeyed(notes, frames, later);
  }

  // ---------------------------------------------------------------- finalization's re-keying, continued

  lemma {:induction false} RekeyedText(notes: seq<Note>, frames: seq<Frame>, note: Note)
    requires Ascending(frames) && Placed(notes, frames) && PlacedNote(note, frames)
    ensures TextAt(RekeyedAll(notes, frames), note.user, Final(note, frames).key) == TextAt(notes, note.user, note.key)
  {
    if notes != [] {
      RekeyedText(notes[1..], frames, note);
      OrderKept(notes[0], note, frames);
      HeadAndTail(Final(notes[0], frames), RekeyedAll(notes[1..], frames));
    }
  }

  ghost predicate AllIndexed(notes: seq<Note>, frameCount: nat) {
    notes == [] || (notes[0].key.Index? && notes[0].key.index < frameCount && AllIndexed(notes[1..], frameCount))
  }

  /** Re-keying keeps the unique indexes, and every note points at an existing frame. */
  lemma {:induction false} RekeyedUnique(notes: seq<Note>, frames: seq<Frame>)
    requires UniqueKeys(notes) && Ascending(frames) && Placed(notes, frames)
    ensures UniqueKeys(RekeyedAll(notes, frames)) && AllIndexed(RekeyedAll(notes, frames), |frames|)
  {
    if notes != [] {
      RekeyedUnique(notes[1..], frames);
      RekeyedText(notes[1..], frames, notes[0]);
      HeadAndTail(Final(notes[0], frames), RekeyedAll(notes[1..], frames));
    }
  }

  // ---------------------------------------------------------------- reading the frames in pages

  datatype BuiltFrame = BuiltFrame(view: View, transition: Option<nat>)

  datatype Build = Built(frames: seq<BuiltFrame>, roomVersions: seq<nat>) | TooManyFrames | InvalidView(frame: nat)

  /** SELECT ... WHERE room_version > after ORDER BY room_version LIMIT limit. */
  function Page(frames: seq<Frame>, after: int, limit: nat): seq<Frame> {
    var first := if after < 0 then 0 else Place(frames, after + 1);
    if |frames| - first <= limit then frames[first..] else frames[first..first + limit]
  }

  lemma PlaceAfter(frames: seq<Frame>, k: nat)
    requires Ascending(frames) && k < |frames|
    ensures Place(frames, frames[k].roomVersion + 1) == k + 1
  {
    assert forall i | 0 <= i <= k :: frames[i].roomVersion <= frames[k].roomVersion;
    assert k + 1 < |frames| ==> frames[k].roomVersion < frames[k + 1].roomVersion;
  }

  lemma PageAfterPrefix(frames: seq<Frame>, n: nat)
    requires Ascending(frames) && n <= |frames|
    ensures var after := if n == 0 then -1 else frames[n - 1].roomVersion as int;
            Page(frames, after, REPLAY_FRAME_BATCH_SIZE) ==
            frames[n..if |frames| - n <= REPLAY_FRAME_BATCH_SIZE then |frames| else n + REPLAY_FRAME_BATCH_SIZE]
  {
    if n > 0 {
      PlaceAfter(frames, n - 1);
    }
  }

  /** The room version the next page starts after. */
  function AfterVersion(frames: seq<Frame>, n: nat): int
    requires n <= |frames|
  {
    if n == 0 then -1 else frames[n - 1].roomVersion
  }

  /** The page after a prefix: the next rows, fewer than the batch only at the end. */
  lemma NextPage(frames: seq<Frame>, n: nat, rows: seq<Frame>)
    requires Ascending(frames) && n <= |frames|
    requires rows == Page(frames, AfterVersion(frames, n), REPLAY_FRAME_BATCH_SIZE)
    ensures n + |rows| <= |frames| && rows == frames[n..n + |rows|]
    ensures |rows| < REPLAY_FRAME_BATCH_SIZE ==> n + |rows| == |frames|
    ensures AfterVersion(frames, n + |rows|) == if |rows| > 0 then rows[|rows| - 1].roomVersion else AfterVersion(frames, n)
  {
    PageAfterPrefix(frames, n);
  }

  /** A frame as the finalizer keeps it: an undecodable transition is dropped, not fatal. */
  function BuiltFrom(frame: Frame): BuiltFrame
    requires frame.view.Some?
  {
    BuiltFrame(frame.view.value, if frame.transition.Some? then frame.transition.value else None)
  }

  ghost predicate BuiltPrefix(frames: seq<Frame>, built: seq<BuiltFrame>, versions: seq<nat>) {
    && |built| == |versions| <= |frames|
    && forall i | 0 <= i < |built| ::
         frames[i].view.Some? && built[i] == BuiltFrom(frames[i]) && versions[i] == frames[i].roomVersion
  }

  lemma PrefixGrows(frames: seq<Frame>, built: seq<BuiltFrame>, versions: seq<nat>)
    requires BuiltPrefix(frames, built, versions) && |built| < |frames| && frames[|built|].view.Some?
    ensures BuiltPrefix(frames, built + [BuiltFrom(frames[|built|])], versions + [frames[|built|].roomVersion])
  {
  }

  /** A built frame carries the stored view, and the stored transition where one can be decoded. */
  predicate Carries(built: BuiltFrame, frame: Frame) {
    && frame.view == Some(built.view)
    && (match frame.transition
        case Some(Some(t)) => built.transition == Some(t)
        case Some(None) => built.transition == None
        case None => built.transition == None)
  }

  ghost predicate AllCarried(frames: seq<Frame>, built: seq<BuiltFrame>, versions: seq<nat>) {
    |built| == |frames| == |versions|
    && forall i | 0 <= i < |frames| :: Carries(built[i], frames[i]) && versions[i] == frames[i].roomVersion
  }

  lemma BuiltCarries(frames: seq<Frame>, built: seq<BuiltFrame>, versions: seq<nat>)
    requires BuiltPrefix(frames, built, versions) && |built| == |frames|
    ensures AllCarried(frames, built, versions)
  {
  }

  ghost predicate AllDecode(frames: seq<Frame>) { forall i | 0 <= i < |frames| :: frames[i].view.Some? }

  lemma BuiltViews(frames: seq<Frame>, built: seq<BuiltFrame>, versions: seq<nat>)
    requires BuiltPrefix(frames, built, versions)
    ensures AllDecode(frames[..|built|])
    ensures |built| == |frames| ==> AllDecode(frames)
    ensures |built| < |frames| && frames[|built|].view.None? ==> !AllDecode(frames)
  {
  }

  /** The inner loop over one page; it stops at a row whose view does not decode. */
  method AppendRows(frames: seq<Frame>, rows: seq<Frame>, before: seq<BuiltFrame>, beforeVersions: seq<nat>)
    returns (built: seq<BuiltFrame>, versions: seq<nat>, valid: bool)
    requires BuiltPrefix(frames, before, beforeVersions)
    requires |before| + |rows| <= |frames| && rows == frames[|before|..|before| + |rows|]
    ensures BuiltPrefix(frames, built, versions)
    ensures valid ==> |built| == |before| + |rows|
    ensures !valid ==> |built| < |before| + |rows| && frames[|built|].view.None?
  {
    built, versions := before, beforeVersions;
    for k := 0 to |rows|
      invariant |built| == |before| + k
      invariant BuiltPrefix(frames, built, versions)
    {
      assert rows[k] == frames[|before| + k];
      if rows[k].view.None? { return built, versions, false; }
      PrefixGrows(frames, built, versions);
      built := built + [BuiltFrom(rows[k])];
      versions := versions + [rows[k].roomVersion];
    }
    return built, versions, true;
  }

  /** `replayFiles` over frames that no longer change. It succeeds exactly when there are not too many
      frames and each view decodes, and then holds every frame once, in order. */
  method ReplayFiles(frames: seq<Frame>) returns (build: Build)
    requires Ascending(frames)
    ensures build.Built? <==> |frames| <= MAX_REPLAY_VIEWS && AllDecode(frames)
    ensures build.Built? ==> |build.frames| == |frames| && BuiltPrefix(frames, build.frames, build.roomVersions)
    ensures build.Built? ==> AllCarried(frames, build.frames, build.roomVersions)
    ensures build.InvalidView? ==> build.frame < |frames| && frames[build.frame].view.None? && AllDecode(frames[..build.frame])
    ensures build.TooManyFrames? ==> |frames| > MAX_REPLAY_VIEWS
  {
    var built: seq<BuiltFrame>, versions: seq<nat> := [], [];
    var after: int := -1;
    while true
      invariant BuiltPrefix(frames, built, versions)
      invariant |built| <= MAX_REPLAY_VIEWS
      invariant after == AfterVersion(frames, |built|)
      decreases |frames| - |built|
    {
      ghost var n := |built|;
      var rows := Page(frames, after, REPLAY_FRAME_BATCH_SIZE);
      NextPage(frames, n, rows);
      if |built| + |rows| > MAX_REPLAY_VIEWS { return TooManyFrames; }
      var valid;
      built, versions, valid := AppendRows(frames, rows, built, versions);
      if !valid {
        BuiltViews(frames, built, versions);
        return InvalidView(|built|);
      }
      if |rows| > 0 { after := rows[|rows| - 1].roomVersion; }
      if |rows| < REPLAY_FRAME_BATCH_SIZE { break; }
    }
    BuiltViews(frames, built, versions);
    BuiltCarries(frames, built, versions);
    build := Built(built, versions);
  }

  // ---------------------------------------------------------------- the replay as the database holds it

  datatype NoteInput = NoteInput(byRoom: bool, roomVersion: Option<nat>, frame: int, text: string)

  function WithoutKey(notes: seq<Note>, user: nat, key: Key): seq<Note> {
    if notes == [] then []
    else if notes[0].user == user && notes[0].key == key then WithoutKey(notes[1..], user, key)
    else [notes[0]] + WithoutKey(notes[1..], user, key)
  }

  function Updated(notes: seq<Note>, user: nat, key: Key, text: string): seq<Note> {
    seq(|notes|, i requires 0 <= i < |notes| =>
      if notes[i].user == user && notes[i].key == key then notes[i].(text := text) else notes[i])
  }

  /** Notes before a room version; frame notes are never pruned. */
  function NotesBefore(notes: seq<Note>, version: nat): seq<Note> {
    if notes == [] then []
    else if notes[0].key.Version? && notes[0].key.version >= version then NotesBefore(notes[1..], version)
    else [notes[0]] + NotesBefore(notes[1..], version)
  }

  /** SELECT DISTINCT room_version of the live notes. */
  function LiveVersions(notes: seq<Note>): (versions: seq<nat>)
    ensures forall i | 0 <= i < |notes| && notes[i].key.Version? :: notes[i].key.version in versions
  {
    if notes == [] then []
    else
      var rest := LiveVersions(notes[1..]);
      if notes[0].key.Version? && notes[0].key.version !in rest then [notes[0].key.version] + rest else rest
  }

  /** The map from room version to frame index that finalization builds. */
  function IndexIn(roomVersions: seq<nat>, version: nat): Option<nat> {
    if roomVersions == [] then None
    else if roomVersions[|roomVersions| - 1] == version then Some(|roomVersions| - 1)
    else IndexIn(roomVersions[..|roomVersions| - 1], version)
  }

  /** UPDATE replay_notes SET room_version = NULL, frame_index = frame WHERE room_version = version. */
  function Moved(notes: seq<Note>, version: nat, frame: nat): seq<Note> {
    seq(|notes|, i requires 0 <= i < |notes| =>
      if notes[i].key == Version(version) then notes[i].(key := Index(frame)) else notes[i])
  }

  function MovedNote(note: Note, done: seq<nat>, roomVersions: seq<nat>): Note {
    if note.key.Version? && note.key.version in done && IndexIn(roomVersions, note.key.version).Some?
    then note.(key := Index(IndexIn(roomVersions, note.key.version).value)) else note
  }

  /** DELETE ... WHERE room_version IS NOT NULL. */
  function OnlyIndexed(notes: seq<Note>): seq<Note> {
    if notes == [] then []
    else if notes[0].key.Index? then [notes[0]] + OnlyIndexed(notes[1..])
    else OnlyIndexed(notes[1..])
  }

  lemma {:induction false} OnlyIndexedKeepsAll(notes: seq<Note>, frameCount: nat)
    requires AllIndexed(notes, frameCount)
    ensures OnlyIndexed(notes) == notes && LiveVersions(notes) == []
  {
    if notes != [] {
      OnlyIndexedKeepsAll(notes[1..], frameCount);
    }
  }

  lemma {:induction false} IndexInIsFrameOf(frames: seq<Frame>, n: nat, version: nat)
    requires Ascending(frames) && n <= |frames|
    ensures IndexIn(Versions(frames)[..n], version) ==
            if FrameOf(frames, version).Some? && FrameOf(frames, version).value < n then FrameOf(frames, version) else None
  {
    FrameOfExact(frames, version);
    if n > 0 {
      var versions := Versions(frames)[..n];
      assert versions[..n - 1] == Versions(frames)[..n - 1] && versions[n - 1] == frames[n - 1].roomVersion;
      IndexInIsFrameOf(frames, n - 1, version);
    }
  }

  lemma {:induction false} MovedAll(before: seq<Note>, after: seq<Note>, versions: seq<nat>, frames: seq<Frame>)
    requires Ascending(frames) && Placed(before, frames) && |after| == |before|
    requires forall i | 0 <= i < |before| && before[i].key.Version? :: before[i].key.version in versions
    requires forall i | 0 <= i < |after| :: after[i] == MovedNote(before[i], versions, Versions(frames))
    ensures OnlyIndexed(after) == after == RekeyedAll(before, frames)
  {
    if before != [] {
      assert Versions(frames)[..|frames|] == Versions(frames);
      IndexInIsFrameOf(frames, |frames|, before[0].key.version);
      assert after[0] == Final(before[0], frames);
      MovedAll(before[1..], after[1..], versions, frames);
      assert [after[0]] + after[1..] == after;
    }
  }

  /** What the finalization's moves leave behind: every note at its frame, and the same answers. */
  lemma MovesAnswerTheSame(before: seq<Note>, after: seq<Note>, frames: seq<Frame>)
    requires Ascending(frames) && Placed(before, frames) && UniqueKeys(before) && |after| == |before|
    requires forall i | 0 <= i < |before| && before[i].key.Version? :: before[i].key.version in LiveVersions(before)
    requires forall i | 0 <= i < |after| :: after[i] == MovedNote(before[i], LiveVersions(before), Versions(frames))
    ensures OnlyIndexed(after) == RekeyedAll(before, frames) && |OnlyIndexed(after)| == |before|
    ensures UniqueKeys(OnlyIndexed(after)) && AllIndexed(OnlyIndexed(after), |frames|)
    ensures forall user :: NotesFor(OnlyIndexed(after), [], user) == NotesFor(before, frames, user)
  {
    MovedAll(before, after, LiveVersions(before), frames);
    RekeyedUnique(before, frames);
    forall user ensures NotesFor(RekeyedAll(before, frames), [], user) == NotesFor(before, frames, user) {
      NothingChangesForReaders(before, frames, [], user);
    }
  }

  // What each statement does to the notes.

  lemma {:induction false} StillPlaced(notes: seq<Note>, frames: seq<Frame>, more: seq<Frame>)
    requires Placed(notes, frames) && Ascending(more)
    requires forall f | 0 <= f < |frames| :: frames[f] in more
    ensures Placed(notes, more)
  {
    if notes != [] {
      var f := FrameOf(frames, notes[0].key.version).value;
      assert frames[f] in more;
      FrameOfExact(more, notes[0].key.version);
      StillPlaced(notes[1..], frames, more);
    }
  }

  lemma InsertedAscending(frames: seq<Frame>, i: nat, frame: Frame)
    requires Ascending(frames) && i <= |frames|
    requires forall k | 0 <= k < i :: frames[k].roomVersion < frame.roomVersion
    requires forall k | i <= k < |frames| :: frame.roomVersion < frames[k].roomVersion
    ensures Ascending(frames[..i] + [frame] + frames[i..])
    ensures forall f | 0 <= f < |frames| :: frames[f] in frames[..i] + [frame] + frames[i..]
  {
    var more := frames[..i] + [frame] + frames[i..];
    forall a, b | 0 <= a < b < |more| ensures more[a].roomVersion < more[b].roomVersion {
      InsertedAt(frames, frame, i, a);
      InsertedAt(frames, frame, i, b);
    }
    InsertMembers(frames, frame, i);
  }

  lemma InsertedFrame(frames: seq<Frame>, frame: Frame, notes: seq<Note>)
    requires Ascending(frames) && FrameOf(frames, frame.roomVersion).None? && Placed(notes, frames)
    ensures var i := Place(frames, frame.roomVersion);
            var more := frames[..i] + [frame] + frames[i..];
            Ascending(more) && Placed(notes, more)
  {
    var i := Place(frames, frame.roomVersion);
    var more := frames[..i] + [frame] + frames[i..];
    assert forall k | i <= k < |frames| :: frames[k].roomVersion > frame.roomVersion by {
      if i < |frames| { assert frames[i].roomVersion > frame.roomVersion; }
    }
    InsertedAscending(frames, i, frame);
    StillPlaced(notes, frames, more);
  }

  lemma {:induction false} PrunedText(notes: seq<Note>, version: nat, u: nat, k: Key)
    ensures TextAt(NotesBefore(notes, version), u, k) ==
            if k.Version? && k.version >= version then None else TextAt(notes, u, k)
  {
    if notes != [] {
      PrunedText(notes[1..], version, u, k);
      HeadAndTail(notes[0], NotesBefore(notes[1..], version));
    }
  }

  /** Pruning frames and notes at the same version leaves every remaining note on a remaining frame. */
  lemma {:induction false} PrunedNotes(frames: seq<Frame>, notes: seq<Note>, version: nat)
    requires Ascending(frames) && Placed(notes, frames) && UniqueKeys(notes)
    ensures var kept := frames[..Place(frames, version)];
            Ascending(kept) && Placed(NotesBefore(notes, version), kept)
    ensures UniqueKeys(NotesBefore(notes, version))
  {
    var kept := frames[..Place(frames, version)];
    if notes != [] {
      PrunedNotes(frames, notes[1..], version);
      PrunedText(notes[1..], version, notes[0].user, notes[0].key);
      HeadAndTail(notes[0], NotesBefore(notes[1..], version));
      if notes[0].key.version < version {
        FrameOfExact(kept, notes[0].key.version);
        assert kept[FrameOf(frames, notes[0].key.version).value].roomVersion == notes[0].key.version;
      }
    }
  }

  lemma {:induction false} DeletedText(notes: seq<Note>, user: nat, key: Key, u: nat, k: Key)
    ensures TextAt(WithoutKey(notes, user, key), u, k) ==
            if u == user && k == key then None else TextAt(notes, u, k)
  {
    if notes != [] {
      DeletedText(notes[1..], user, key, u, k);
      HeadAndTail(notes[0], WithoutKey(notes[1..], user, key));
    }
  }

  lemma {:induction false} DeletedNote(notes: seq<Note>, user: nat, key: Key, frames: seq<Frame>, n: nat)
    requires UniqueKeys(notes)
    ensures UniqueKeys(WithoutKey(notes, user, key))
    ensures Placed(notes, frames) ==> Placed(WithoutKey(notes, user, key), frames)
    ensures AllIndexed(notes, n) ==> AllIndexed(WithoutKey(notes, user, key), n)
  {
    if notes != [] {
      DeletedNote(notes[1..], user, key, frames, n);
      DeletedText(notes[1..], user, key, notes[0].user, notes[0].key);
      HeadAndTail(notes[0], WithoutKey(notes[1..], user, key));
    }
  }

  lemma {:induction false} UpdatedText(notes: seq<Note>, user: nat, key: Key, text: string, u: nat, k: Key)
    ensures TextAt(Updated(notes, user, key, text), u, k) ==
            if u == user && k == key && TextAt(notes, u, k).Some? then Some(text) else TextAt(notes, u, k)
  {
    if notes != [] {
      UpdatedText(notes[1..], user, key, text, u, k);
      assert Updated(notes, user, key, text)[1..] == Updated(notes[1..], user, key, text);
    }
  }

  lemma {:induction false} UpdatedNote(notes: seq<Note>, user: nat, key: Key, text: string, frames: seq<Frame>, n: nat)
    requires UniqueKeys(notes)
    ensures UniqueKeys(Updated(notes, user, key, text))
    ensures Placed(notes, frames) ==> Placed(Updated(notes, user, key, text), frames)
    ensures AllIndexed(notes, n) ==> AllIndexed(Updated(notes, user, key, text), n)
  {
    if notes != [] {
      UpdatedNote(notes[1..], user, key, text, frames, n);
      UpdatedText(notes[1..], user, key, text, notes[0].user, notes[0].key);
      assert Updated(notes, user, key, text)[1..] == Updated(notes[1..], user, key, text);
    }
  }

  lemma {:induction false} AddedText(notes: seq<Note>, note: Note, u: nat, k: Key)
    ensures TextAt(notes + [note], u, k) ==
            if TextAt(notes, u, k).Some? then TextAt(notes, u, k)
            else if u == note.user && k == note.key then Some(note.text) else None
  {
    if notes == [] {
      assert notes + [note] == [note];
    } else {
      assert (notes + [note])[1..] == notes[1..] + [note];
      AddedText(notes[1..], note, u, k);
    }
  }

  lemma {:induction false} AddedNote(notes: seq<Note>, note: Note, frames: seq<Frame>, n: nat)
    requires UniqueKeys(notes) && TextAt(notes, note.user, note.key).None?
    ensures UniqueKeys(notes + [note])
    ensures Placed(notes, frames) && PlacedNote(note, frames) ==> Placed(notes + [note], frames)
    ensures AllIndexed(notes, n) && note.key.Index? && note.key.index < n ==> AllIndexed(notes + [note], n)
  {
    if notes == [] {
      assert notes + [note] == [note];
    } else {
      assert (notes + [note])[1..] == notes[1..] + [note];
      AddedText(notes[1..], note, notes[0].user, notes[0].key);
      AddedNote(notes[1..], note, frames, n);
    }
  }

  // A save leaves the notes of every other participant alone.

  lemma {:induction false} DeletedByOther(notes: seq<Note>, user: nat, key: Key, u: nat)
    requires u != user
    ensures Owned(WithoutKey(notes, user, key), u) == Owned(notes, u)
  {
    if notes != [] {
      DeletedByOther(notes[1..], user, key, u);
      HeadAndTail(notes[0], WithoutKey(notes[1..], user, key));
    }
  }

  lemma {:induction false} UpdatedByOther(notes: seq<Note>, user: nat, key: Key, text: string, u: nat)
    requires u != user
    ensures Owned(Updated(notes, user, key, text), u) == Owned(notes, u)
  {
    if notes != [] {
      UpdatedByOther(notes[1..], user, key, text, u);
      assert Updated(notes, user, key, text)[1..] == Updated(notes[1..], user, key, text);
    }
  }

  lemma {:induction false} AddedByOther(notes: seq<Note>, note: Note, u: nat)
    requires u != note.user
    ensures Owned(notes + [note], u) == Owned(notes, u)
  {
    if notes != [] {
      assert (notes + [note])[1..] == notes[1..] + [note];
      AddedByOther(notes[1..], note, u);
    }
  }

  /** A note may be saved when its text is short enough and its frame exists: by room version while the replay is
      live, by frame index once it is ready. */
  ghost predicate MaySave(status: Status, frames: seq<Frame>, frameCount: Option<nat>, input: NoteInput, key: Key) {
    && |input.text| <= 2000
    && match key
       case Index(index) => status == Ready && input.frame == index && frameCount.Some? && index < frameCount.value
       case Version(version) =>
         && status != Ready && input.byRoom && input.roomVersion == Some(version)
         && exists i :: 0 <= i < |frames| && frames[i].roomVersion == version
  }

  lemma SaveMeans(status: Status, frames: seq<Frame>, frameCount: Option<nat>, input: NoteInput, key: Key)
    requires Ascending(frames)
    ensures SavesAt(status, frames, frameCount, input) == Some(key) <==> MaySave(status, frames, frameCount, input, key)
  {
    if input.roomVersion.Some? { FrameOfExact(frames, input.roomVersion.value); }
  }

  class Replay {
    var status: Status
    var winner: Option<nat>
    var frames: seq<Frame>
    var frameCount: Option<nat>
    var notes: seq<Note>
    /** Room versions read by finalizations that have not committed yet. */
    ghost var builds: set<seq<nat>>

    ghost predicate Valid()
      reads this
    {
      && Ascending(frames)
      && UniqueKeys(notes)
      && (!status.Ready? ==> Placed(notes, frames))
      && (status.Ready? ==>
            && frameCount.Some? && frames == []
            && AllIndexed(notes, frameCount.value))
      && (status.Recording? || status.Discarded? ==> builds == {})
      && (status.Discarded? ==> frames == [] && notes == [])
      && (status.Finalizing? ==> forall b | b in builds :: b == Versions(frames))
    }

    constructor (first: Frame)
      ensures Valid() && status == Recording && frames == [first] && notes == [] && builds == {}
    {
      status, winner, frames, frameCount, notes, builds := Recording, None, [first], None, [], {};
    }

    /** `appendReplayView`: false when the primary key refuses the frame; nothing is stored then. A
        projection that throws gives no frame and discards the recording with its frames and notes. */
    method Append(projected: Option<Frame>, gameOver: bool, result: Option<nat>) returns (stored: bool)
      requires Valid()
      modifies this
      ensures Valid() && builds == old(builds)
      ensures stored <==> projected.Some? && old(status).Recording? && FrameOf(old(frames), projected.value.roomVersion).None?
      ensures projected.None? && old(status).Recording? ==> status == Discarded && frames == [] && notes == []
      ensures projected.Some? || !old(status).Recording? ==> notes == old(notes)
      ensures !stored && (projected.Some? || !old(status).Recording?) ==> status == old(status) && frames == old(frames)
      ensures !stored ==> winner == old(winner)
      ensures stored ==>
        && frames == WithFrame(old(frames), projected.value)
        && status == (if gameOver then Finalizing else Recording)
        && winner == (if gameOver then result else old(winner))
      ensures frameCount == old(frameCount)
    {
      if !status.Recording? { return false; }
      if projected.None? {
        status, frames, notes := Discarded, [], [];
        return false;
      }
      var frame := projected.value;
      if FrameOf(frames, frame.roomVersion).Some? { return false; }
      var i := Place(frames, frame.roomVersion);
      InsertedFrame(frames, frame, notes);
      frames := frames[..i] + [frame] + frames[i..];
      if gameOver { status, winner := Finalizing, result; }
      return true;
    }

    /** `pruneReplayFramesFrom`: the undo drops frames and the notes on them together. */
    method PruneFrom(version: nat) returns (deleted: nat)
      requires Valid()
      modifies this
      ensures Valid() && status == old(status) && winner == old(winner) && builds == old(builds) && frameCount == old(frameCount)
      ensures old(status).Recording? ==>
        && frames == old(frames)[..Place(old(frames), version)]
        && deleted == |old(frames)| - |frames|
        && notes == NotesBefore(old(notes), version)
      ensures !old(status).Recording? ==> frames == old(frames) && notes == old(notes) && deleted == 0
    {
      if !status.Recording? { return 0; }
      PrunedNotes(frames, notes, version);
      notes := NotesBefore(notes, version);
      var kept := Place(frames, version);
      deleted := |frames| - kept;
      frames := frames[..kept];
    }

    /** `endReplayForRoom`. */
    method End() returns (ended: bool)
      requires Valid()
      modifies this
      ensures Valid() && frames == old(frames) && notes == old(notes) && winner == old(winner) && builds == old(builds)
      ensures ended == old(status).Recording? && status == (if ended then Finalizing else old(status))
      ensures frameCount == old(frameCount)
    {
      if !status.Recording? { return false; }
      status := Finalizing;
      return true;
    }

    /** `saveReplayNote` for a participant who may see the replay. An empty text deletes the note. */
    method SaveNote(user: nat, input: NoteInput) returns (saved: bool)
      requires Valid()
      modifies this`notes
      ensures Valid()
      ensures saved <==> SavesAt(old(status), old(frames), old(frameCount), input).Some?
      ensures !saved ==> notes == old(notes)
      ensures saved ==>
        var key := SavesAt(old(status), old(frames), old(frameCount), input).value;
        && TextAt(notes, user, key) == (if input.text == "" then None else Some(input.text))
        && forall u, k | u != user || k != key :: TextAt(notes, u, k) == TextAt(old(notes), u, k)
      ensures forall u | u != user :: Owned(notes, u) == Owned(old(notes), u)
    {
      if |input.text| > MAX_REPLAY_NOTE_LENGTH { return false; }
      var key: Key;
      if status.Ready? {
        if frameCount.None? || input.frame < 0 || input.frame >= frameCount.value { return false; }
        key := Index(input.frame);
      } else {
        if !input.byRoom || input.roomVersion.None? { return false; }
        if FrameOf(frames, input.roomVersion.value).None? { return false; }
        key := Version(input.roomVersion.value);
      }
      ghost var count := if frameCount.Some? then frameCount.value else 0;
      if input.text == "" {
        DeletedNote(notes, user, key, frames, count);
        forall u, k ensures TextAt(WithoutKey(notes, user, key), u, k) == if u == user && k == key then None else TextAt(notes, u, k) {
          DeletedText(notes, user, key, u, k);
        }
        forall u | u != user ensures Owned(WithoutKey(notes, user, key), u) == Owned(notes, u) {
          DeletedByOther(notes, user, key, u);
        }
        notes := WithoutKey(notes, user, key);
        return true;
      }
      if TextAt(notes, user, key).Some? {
        UpdatedNote(notes, user, key, input.text, frames, count);
        forall u, k ensures TextAt(Updated(notes, user, key, input.text), u, k) ==
                            if u == user && k == key then Some(input.text) else TextAt(notes, u, k) {
          UpdatedText(notes, user, key, input.text, u, k);
        }
        forall u | u != user ensures Owned(Updated(notes, user, key, input.text), u) == Owned(notes, u) {
          UpdatedByOther(notes, user, key, input.text, u);
        }
        notes := Updated(notes, user, key, input.text);
      } else {
        var note := Note(user, key, input.text);
        AddedNote(notes, note, frames, count);
        forall u, k ensures TextAt(notes + [note], u, k) == if u == user && k == key then Some(input.text) else TextAt(notes, u, k) {
          AddedText(notes, note, u, k);
        }
        forall u | u != user ensures Owned(notes + [note], u) == Owned(notes, u) { AddedByOther(notes, note, u); }
        notes := notes + [note];
      }
      return true;
    }

    /** The reading half of `finalizeReplay`, before its transaction. */
    method ReadForFinalization() returns (build: Build)
      requires Valid()
      modifies this`builds
      ensures Valid()
      ensures build.Built? <==>
        && status.Finalizing? && frames != [] && |frames| <= MAX_REPLAY_VIEWS
        && (forall i | 0 <= i < |frames| :: frames[i].view.Some?)
        && frames[|frames| - 1].view.value.winner == winner
      ensures build.Built? ==> build.roomVersions == Versions(frames) && |build.frames| == |frames|
      ensures builds == if build.Built? then old(builds) + {build.roomVersions} else old(builds)
    {
      if !status.Finalizing? { return TooManyFrames; }
      build := ReplayFiles(frames);
      if !build.Built? { return; }
      assert build.roomVersions == Versions(frames);
      if |build.frames| == 0 || build.frames[|build.frames| - 1].view.winner != winner { return InvalidView(|build.frames|); }
      builds := builds + {build.roomVersions};
    }

    /** The transaction of `finalizeReplay`, committed any time after its read. Another finalization
        of the same replay may have committed in between. */
    method CommitFinalization(roomVersions: seq<nat>)
      requires Valid() && roomVersions in builds
      modifies this
      ensures Valid() && status == Ready && frames == []
      ensures builds == old(builds) && winner == old(winner)
      ensures old(status).Finalizing? ==>
        && frameCount == Some(|roomVersions|)
        && notes == RekeyedAll(old(notes), old(frames))
        && |notes| == |old(notes)|
        && forall user :: NotesFor(notes, frames, user) == NotesFor(old(notes), old(frames), user)
      ensures old(status).Ready? ==> frameCount == old(frameCount) && notes == old(notes)
    {
      if status.Finalizing? {
        status := Ready;
        frameCount := Some(|roomVersions|);
      }
      ghost var before := notes;
      var pending := LiveVersions(notes);
      for k := 0 to |pending|
        modifies this`notes
        invariant |notes| == |before|
        invariant forall i | 0 <= i < |notes| :: notes[i] == MovedNote(before[i], pending[..k], roomVersions)
      {
        assert pending[..k + 1] == pending[..k] + [pending[k]];
        var frame := IndexIn(roomVersions, pending[k]);
        if frame.Some? { notes := Moved(notes, pending[k], frame.value); }
      }
      assert pending[..|pending|] == pending;
      if old(status).Finalizing? {
        MovesAnswerTheSame(before, notes, frames);
      } else {
        OnlyIndexedKeepsAll(before, frameCount.value);
        assert notes == before;
      }
      notes := OnlyIndexed(notes);
      frames := [];
    }
  }

  function Versions(frames: seq<Frame>): seq<nat> {
    seq(|frames|, i requires 0 <= i < |frames| => frames[i].roomVersion)
  }

  /** Where a note would be saved, if anywhere. */
  function SavesAt(status: Status, frames: seq<Frame>, frameCount: Option<nat>, input: NoteInput): Option<Key> {
    if |input.text| > MAX_REPLAY_NOTE_LENGTH then None
    else if status.Ready? then
      if frameCount.Some? && 0 <= input.frame < frameCount.value then Some(Index(input.frame)) else None
    else if input.byRoom && input.roomVersion.Some? && FrameOf(frames, input.roomVersion.value).Some?
    then Some(Version(input.roomVersion.value)) else None
  }
}
