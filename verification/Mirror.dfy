/**
 What pulling keeps: exactly when a run leaves every track up to its cursor
 mirrored, which lists are safe to truncate, and that limited runs get there.
*/
module Mirrors {
  import opened Wrappers
  import opened Libraries
  import opened MergeTracks
  import opened Refreshes
  import opened Pulls

  // ---- Names tell tracks apart ----

  predicate Dotless(id: string) {
    forall i :: 0 <= i < |id| ==> id[i] != '.'
  }

  lemma {:induction false} LowerIsAlphanumeric(s: string)
    requires forall i :: 0 <= i < |s| ==> Alphanumeric(s[i])
    ensures forall i :: 0 <= i < |s| ==> Alphanumeric(Lower(s)[i])
  {
    if s == "" {
    } else {
      LowerIsAlphanumeric(s[1..]);
    }
  }

  /** The last dot of a name is where the id ends. */
  lemma LastDot(t: Track, i: nat)
    requires |t.id| <= i < |Name(t)|
    ensures Name(t)[i] == '.' <==> i == |t.id|
  {
    var format := t.content.format;
    if forall k :: 0 <= k < |format| ==> Alphanumeric(format[k]) {
      LowerIsAlphanumeric(format);
    }
    var extension := SafeExtension(format);
    assert forall k :: 0 <= k < |extension| ==> Alphanumeric(extension[k]);
  }

  /** A deletion removes a track's file if and only if it is of that id, or of one that
      the track's id continues with a dot; unless the name looks like a download in
      progress. */
  lemma RemovesExactly(id: string, t: Track)
    ensures Removes(id, Name(t))
       <==> SafeId(id) && (id == t.id || id + "." <= t.id) && !Contains(Name(t), ".part.")
  {
    var name, prefix := Name(t), id + ".";
    if StartsWith(name, prefix) {
      assert name[|id|] == prefix[|id|] == '.';
      if |id| >= |t.id| {
        LastDot(t, |id|);
        assert t.id == name[..|t.id|] == prefix[..|id|] == id;
      } else {
        assert t.id[..|prefix|] == name[..|prefix|] == prefix;
      }
    }
    if id == t.id {
      assert name[..|id| + 1] == prefix;
    } else if prefix <= t.id {
      assert name[..|prefix|] == t.id[..|prefix|];
    }
  }

  /** Of a track whose id has no dot, only its own. */
  lemma RemovesOnlyItsOwn(id: string, t: Track)
    requires Dotless(t.id)
    ensures Removes(id, Name(t)) <==> SafeId(id) && id == t.id
  {
    var name := Name(t);
    RemovesExactly(id, t);
    if id + "." <= t.id {
      DotInside(id, t.id);
    }
    PartHasTwoDots(name);
    forall i | 0 <= i < |name| - 5 ensures name[i] != '.' || name[i + 5] != '.' {
      OneDot(t, i);
      OneDot(t, i + 5);
    }
  }

  lemma DotInside(id: string, s: string)
    requires id + "." <= s
    ensures |id| < |s| && s[|id|] == '.'
  {
    assert s[|id|] == (id + ".")[|id|];
  }

  lemma OneDot(t: Track, i: nat)
    requires Dotless(t.id) && i < |Name(t)|
    ensures Name(t)[i] == '.' <==> i == |t.id|
  {
    if i >= |t.id| {
      LastDot(t, i);
    } else {
      assert Name(t)[i] == t.id[i];
    }
  }

  lemma PartHasTwoDots(name: string)
    ensures Contains(name, ".part.") ==>
              exists i :: 0 <= i < |name| - 5 && name[i] == '.' && name[i + 1] == 'p' && name[i + 5] == '.'
  {
    if Contains(name, ".part.") {
      var i :| 0 <= i <= |name| && StartsWith(name[i..], ".part.");
      PartAt(name, i);
    }
  }

  lemma PartAt(name: string, i: nat)
    requires i <= |name| && StartsWith(name[i..], ".part.")
    ensures i < |name| - 5 && name[i] == '.' && name[i + 1] == 'p' && name[i + 5] == '.'
  {
    var part, rest := ".part.", name[i..];
    assert part[0] == rest[0] && part[1] == rest[1] && part[5] == rest[5];
  }

  lemma NamesAreDistinct(a: Track, b: Track)
    requires Dotless(a.id) && Dotless(b.id)
    ensures Name(a) == Name(b) ==> a.id == b.id
  {
    OneDot(a, |a.id|);
    if Name(a) == Name(b) {
      OneDot(b, |a.id|);
      assert a.id == Name(a)[..|a.id|] == Name(b)[..|b.id|] == b.id;
    }
  }

  /** With dots, deleting one track removes the file of another exactly when its id and a
      dot begin the other's. */
  lemma DottedIdsClash(id: string, t: Track)
    ensures id != t.id && Removes(id, Name(t))
       <==> SafeId(id) && id + "." <= t.id && !Contains(Name(t), ".part.")
  {
    RemovesExactly(id, t);
  }

  // ---- What the names are ----

  /** A file's name is one component of a path, and no dot-path, for every id that is safe; */
  lemma NamesArePlain(t: Track)
    requires SafeId(t.id)
    ensures '/' !in Name(t) && '\\' !in Name(t) && ':' !in Name(t) && ' ' !in Name(t)
    ensures Name(t) != "" && Name(t) != "." && Name(t) != ".." && |Name(t)| <= MAX_ID_LEN + 1 + MAX_FORMAT_LEN
  {
    ExtensionIsPlain(t.content.format);
    var name := Name(t);
    forall i | 0 <= i < |name| ensures name[i] != '/' && name[i] != '\\' && name[i] != ':' && name[i] != ' ' {
      if i > |t.id| {
        assert name[i] == SafeExtension(t.content.format)[i - |t.id| - 1];
      }
    }
  }

  /** as the server's digests are. */
  lemma DigestsAreSafe(id: string)
    requires 0 < |id| <= MAX_ID_LEN
    requires forall i :: 0 <= i < |id| ==> '0' <= id[i] <= '9' || 'a' <= id[i] <= 'f'
    ensures SafeId(id) && Dotless(id)
  {
    assert id[0] != '.' && "."[0] == '.' && ".."[0] == '.';
  }

  lemma ExtensionIsPlain(format: string)
    ensures var extension := SafeExtension(format);
      0 < |extension| <= MAX_FORMAT_LEN && forall i :: 0 <= i < |extension| ==> Alphanumeric(extension[i])
  {
    LowerAt(format);
  }

  /** A short format of letters and digits is its own extension, but for its capitals. */
  lemma ExtensionIsFormat(format: string, i: nat)
    requires i < |format| <= MAX_FORMAT_LEN
    requires forall k :: 0 <= k < |format| ==>
      '0' <= format[k] <= '9' || 'a' <= format[k] <= 'z' || 'A' <= format[k] <= 'Z'
    ensures |SafeExtension(format)| == |format|
    ensures SafeExtension(format)[i] == if 'A' <= format[i] <= 'Z' then format[i] - 'A' + 'a' else format[i]
  {
    LowerAt(format);
  }

  lemma {:induction false} LowerAt(s: string)
    ensures forall i :: 0 <= i < |s| ==> Lower(s)[i] == if 'A' <= s[i] <= 'Z' then s[i] - 'A' + 'a' else s[i]
  {
    if s != "" {
      LowerAt(s[1..]);
      assert s == [s[0]] + s[1..];
    }
  }

  /** A track whose size is not known is downloaded by every run that gets to it. */
  lemma UnknownSizeIsFetched(server: Server, p: Progress, t: Track)
    requires t.content.bytes == []
    ensures Fetch(server, p, t).Some? ==> Fetch(server, p, t).value.downloaded == p.downloaded + 1
  {
  }

  // ---- One walk through a delta ----

  /** The tracks a walk gets past. */
  function Passed(server: Server, limit: nat, tracks: seq<Track>, p: Progress): seq<Track> {
    if tracks == [] || (limit > 0 && p.downloaded >= limit) || !SafeId(tracks[0].id) then []
    else match Fetch(server, p, tracks[0])
      case Some(next) => [tracks[0]] + Passed(server, limit, tracks[1..], next)
      case None => []
  }

  lemma {:induction false} WalkSplits(server: Server, limit: nat, tracks: seq<Track>, p: Progress)
    ensures var end := Walk(server, limit, tracks, p);
      && tracks == Passed(server, limit, tracks, p) + end.left
      && (end.outcome == Drained <==> end.left == [])
  {
    if tracks != [] && !(limit > 0 && p.downloaded >= limit) && SafeId(tracks[0].id) {
      var next := Fetch(server, p, tracks[0]);
      if next.Some? {
        var first, rest := tracks[0], tracks[1..];
        WalkSplits(server, limit, rest, next.value);
        ConsConcat(tracks, Passed(server, limit, rest, next.value), Walk(server, limit, rest, next.value).left);
      }
    }
  }

  lemma ConsConcat(tracks: seq<Track>, passed: seq<Track>, left: seq<Track>)
    requires tracks != [] && tracks[1..] == passed + left
    ensures tracks == ([tracks[0]] + passed) + left
  {
  }

  /** A run is cut short only by its limit. */
  lemma {:induction false} OnlyTheLimitCuts(server: Server, limit: nat, tracks: seq<Track>, p: Progress)
    ensures var end := Walk(server, limit, tracks, p);
      end.outcome == Truncated ==> 0 < limit <= end.progress.downloaded
  {
    if tracks != [] && !(limit > 0 && p.downloaded >= limit) && SafeId(tracks[0].id) {
      var next := Fetch(server, p, tracks[0]);
      if next.Some? {
        OnlyTheLimitCuts(server, limit, tracks[1..], next.value);
      }
    }
  }

  /** A run never downloads more than its limit. */
  lemma {:induction false} LimitIsKept(server: Server, limit: nat, tracks: seq<Track>, p: Progress)
    requires 0 < limit && p.downloaded <= limit
    ensures var downloaded := Walk(server, limit, tracks, p).progress.downloaded;
      p.downloaded <= downloaded <= limit
    ensures var downloaded := Walk(server, limit, tracks, p).progress.downloaded;
      downloaded <= p.downloaded + |Passed(server, limit, tracks, p)|
  {
    if tracks != [] && p.downloaded < limit && SafeId(tracks[0].id) {
      var next := Fetch(server, p, tracks[0]);
      if next.Some? {
        LimitIsKept(server, limit, tracks[1..], next.value);
      }
    }
  }

  lemma {:induction false} WalkRaisesCursor(server: Server, limit: nat, tracks: seq<Track>, p: Progress)
    ensures var high, passed := Walk(server, limit, tracks, p).progress.highWater, Passed(server, limit, tracks, p);
      && p.highWater <= high
      && (forall t :: t in passed ==> t.version <= high)
      && (high == p.highWater || exists t :: t in passed && t.version == high)
  {
    if tracks != [] && !(limit > 0 && p.downloaded >= limit) && SafeId(tracks[0].id) {
      var next := Fetch(server, p, tracks[0]);
      if next.Some? {
        WalkRaisesCursor(server, limit, tracks[1..], next.value);
        var passed := Passed(server, limit, tracks, p);
        assert passed[0] == tracks[0] && passed[1..] == Passed(server, limit, tracks[1..], next.value);
      }
    }
  }

  lemma {:induction false} WalkSpares(server: Server, limit: nat, tracks: seq<Track>, p: Progress, name: string)
    requires forall t :: t in Passed(server, limit, tracks, p) ==> Name(t) != name
    ensures Get(Walk(server, limit, tracks, p).progress.files, name) == Get(p.files, name)
  {
    if tracks != [] && !(limit > 0 && p.downloaded >= limit) && SafeId(tracks[0].id) {
      var next := Fetch(server, p, tracks[0]);
      if next.Some? {
        var passed := Passed(server, limit, tracks, p);
        assert passed[0] == tracks[0] && passed[1..] == Passed(server, limit, tracks[1..], next.value);
        WalkSpares(server, limit, tracks[1..], next.value, name);
      }
    }
  }

  ghost predicate Plain(tracks: seq<Track>) {
    UniqueIds(tracks) && forall t :: t in tracks ==> Dotless(t.id)
  }

  /** What a walk makes of the file of a track it gets past. */
  lemma {:induction false} WalkFetches(server: Server, limit: nat, tracks: seq<Track>, p: Progress, t: Track)
    requires Plain(tracks) && t in Passed(server, limit, tracks, p)
    ensures Get(Walk(server, limit, tracks, p).progress.files, Name(t))
         == if Complete(p.files, t) then Get(p.files, Name(t)) else Download(server, t.id)
  {
    var first := tracks[0];
    var next := Fetch(server, p, first).value;
    if t == first {
      PassedIsOthers(server, limit, tracks, p);
      WalkSpares(server, limit, tracks[1..], next, Name(t));
    } else {
      assert t in Passed(server, limit, tracks[1..], next);
      WalkSplits(server, limit, tracks[1..], next);
      assert t in tracks[1..];
      NamesAreDistinct(first, t);
      WalkFetches(server, limit, tracks[1..], next, t);
    }
  }

  lemma PassedIsOthers(server: Server, limit: nat, tracks: seq<Track>, p: Progress)
    requires Plain(tracks) && tracks != [] && Fetch(server, p, tracks[0]).Some?
    ensures forall t :: t in Passed(server, limit, tracks[1..], Fetch(server, p, tracks[0]).value) ==>
      Name(t) != Name(tracks[0])
  {
    var next := Fetch(server, p, tracks[0]).value;
    WalkSplits(server, limit, tracks[1..], next);
    forall t | t in Passed(server, limit, tracks[1..], next) ensures Name(t) != Name(tracks[0]) {
      assert t in tracks[1..];
      NamesAreDistinct(tracks[0], t);
    }
  }

  // ---- One pull ----

  /** Some answer to "what changed since": in any order. */
  ghost predicate Answers(delta: Delta, db: Db, since: nat) {
    && delta.version == db.version
    && (forall t :: t in delta.tracks <==> t in db.rows && t.version > since)
    && UniqueIds(delta.tracks)
    && (forall id :: id in delta.deleted <==> Buried(db, id, since))
  }

  lemma ServerAnswers(db: Db, since: nat)
    requires Sound(db)
    ensures Answers(DeltaSince(db, since), db, since)
  {
    NewerIsUnique(db.rows, since);
  }

  function Start(files: map<string, Bytes>, cursor: nat): Progress {
    Progress(files, 0, cursor)
  }

  ghost predicate Mirrored(files: map<string, Bytes>, t: Track) {
    Get(files, Name(t)) == Some(t.content.bytes)
  }

  /** Every live track up to the cursor is mirrored. */
  ghost predicate Covers(files: map<string, Bytes>, cursor: nat, db: Db) {
    forall t :: t in db.rows && t.version <= cursor ==> Mirrored(files, t)
  }

  /** Taken for complete by its size, but with other bytes. */
  ghost predicate Disguised(files: map<string, Bytes>, t: Track) {
    Complete(files, t) && !Mirrored(files, t)
  }

  ghost predicate Pullable(cursor: nat, delta: Delta, server: Server) {
    Sound(server.db) && Plain(server.db.rows) && cursor <= server.db.version && Answers(delta, server.db, cursor)
  }

  lemma DownloadIsTheTrack(server: Server, t: Track)
    requires UniqueIds(server.db.rows) && t in server.db.rows
    ensures Download(server, t.id) == if t.id in server.failing then None else Some(t.content.bytes)
  {
    FindUnique(server.db.rows, t);
  }

  lemma NotRemoved(delta: Delta, db: Db, since: nat, t: Track)
    requires Sound(db) && Plain(db.rows) && Answers(delta, db, since) && t in db.rows
    ensures !Removed(delta.deleted, Name(t))
  {
    forall id | id in delta.deleted ensures !Removes(id, Name(t)) {
      RemovesOnlyItsOwn(id, t);
    }
  }

  /** What a pull does to each live track's file, whatever its outcome: a track
      it got past is downloaded unless taken for complete; every other file is
      left alone. */
  lemma PullAt(files: map<string, Bytes>, cursor: nat, delta: Delta, server: Server, limit: nat, t: Track)
    requires Pullable(cursor, delta, server) && t in server.db.rows
    ensures var passed := Passed(server, limit, delta.tracks, Start(files, cursor));
      Get(PullOf(files, cursor, delta, server, limit).files, Name(t))
      == if t in passed && !Complete(files, t) then Some(t.content.bytes) else Get(files, Name(t))
  {
    var start := Start(files, cursor);
    var end := Walk(server, limit, delta.tracks, start);
    var passed := Passed(server, limit, delta.tracks, start);
    WalkAt(files, cursor, delta, server, limit, t);
    NotRemoved(delta, server.db, cursor, t);
    ClearedKeeps(end.progress.files, delta.deleted, Name(t));
  }

  lemma WalkAt(files: map<string, Bytes>, cursor: nat, delta: Delta, server: Server, limit: nat, t: Track)
    requires Pullable(cursor, delta, server) && t in server.db.rows
    ensures var passed := Passed(server, limit, delta.tracks, Start(files, cursor));
      Get(Walk(server, limit, delta.tracks, Start(files, cursor)).progress.files, Name(t))
      == if t in passed && !Complete(files, t) then Some(t.content.bytes) else Get(files, Name(t))
  {
    var start := Start(files, cursor);
    var passed := Passed(server, limit, delta.tracks, start);
    WalkSplits(server, limit, delta.tracks, start);
    if t in passed {
      WalkFetches(server, limit, delta.tracks, start, t);
      DownloadIsTheTrack(server, t);
      PassedIsServed(server, limit, delta.tracks, start, t);
    } else {
      forall other | other in passed ensures Name(other) != Name(t) {
        assert other in delta.tracks;
        NamesAreDistinct(other, t);
      }
      WalkSpares(server, limit, delta.tracks, start, Name(t));
    }
  }

  lemma {:induction false} PassedIsServed(server: Server, limit: nat, tracks: seq<Track>, p: Progress, t: Track)
    requires Plain(tracks) && t in Passed(server, limit, tracks, p)
    ensures SafeId(t.id) && (Complete(p.files, t) || Download(server, t.id).Some?)
  {
    var first := tracks[0];
    var next := Fetch(server, p, first).value;
    if t != first {
      assert t in Passed(server, limit, tracks[1..], next);
      WalkSplits(server, limit, tracks[1..], next);
      assert t in tracks[1..];
      NamesAreDistinct(first, t);
      PassedIsServed(server, limit, tracks[1..], next, t);
    }
  }

  /** The cursor never goes back, never past the server's version, and only
      moves when the run is saved. */
  lemma CursorNeverGoesBack(files: map<string, Bytes>, cursor: nat, delta: Delta, server: Server, limit: nat)
    requires Pullable(cursor, delta, server)
    ensures var after := PullOf(files, cursor, delta, server, limit);
      && cursor <= after.cursor <= server.db.version
      && (after.outcome.UnsafeId? || after.outcome.DownloadFailed? ==> after.cursor == cursor)
  {
    WalkRaisesCursor(server, limit, delta.tracks, Start(files, cursor));
    WalkSplits(server, limit, delta.tracks, Start(files, cursor));
  }

  /** No track that a run got past was taken for complete wrongly. */
  ghost predicate NothingDisguised(files: map<string, Bytes>, cursor: nat, delta: Delta, server: Server, limit: nat) {
    forall t :: t in Passed(server, limit, delta.tracks, Start(files, cursor)) ==> !Disguised(files, t)
  }

  /** No track that a run did not get to is at or below the cursor it saves,
      unless it is there already. */
  ghost predicate NothingSkipped(files: map<string, Bytes>, cursor: nat, delta: Delta, server: Server, limit: nat) {
    var end := Walk(server, limit, delta.tracks, Start(files, cursor));
    forall t :: t in end.left && t.version <= end.progress.highWater ==> Mirrored(files, t)
  }

  /** The files of live tracks up to the cursor are left alone. */
  lemma UpToCursorStays(files: map<string, Bytes>, cursor: nat, delta: Delta, server: Server, limit: nat, t: Track)
    requires Pullable(cursor, delta, server) && t in server.db.rows && t.version <= cursor
    ensures Get(PullOf(files, cursor, delta, server, limit).files, Name(t)) == Get(files, Name(t))
  {
    PullAt(files, cursor, delta, server, limit, t);
    WalkSplits(server, limit, delta.tracks, Start(files, cursor));
  }

  /** A run that fails keeps what was covered. */
  lemma FailedPullKeeps(files: map<string, Bytes>, cursor: nat, delta: Delta, server: Server, limit: nat)
    requires Pullable(cursor, delta, server) && Covers(files, cursor, server.db)
    ensures var after := PullOf(files, cursor, delta, server, limit);
      after.outcome.UnsafeId? || after.outcome.DownloadFailed? ==> Covers(after.files, after.cursor, server.db)
  {
    var after := PullOf(files, cursor, delta, server, limit);
    if after.outcome.UnsafeId? || after.outcome.DownloadFailed? {
      assert after.cursor == cursor;
      forall t | t in server.db.rows && t.version <= after.cursor ensures Mirrored(after.files, t) {
        UpToCursorStays(files, cursor, delta, server, limit, t);
      }
    }
  }

  /** After a saved run every live track up to the new cursor is mirrored if and
      only if nothing was disguised and nothing was skipped. */
  lemma PullCovers(files: map<string, Bytes>, cursor: nat, delta: Delta, server: Server, limit: nat)
    requires Pullable(cursor, delta, server) && Covers(files, cursor, server.db)
    requires Saved(PullOf(files, cursor, delta, server, limit).outcome)
    ensures var after := PullOf(files, cursor, delta, server, limit);
      (Covers(after.files, after.cursor, server.db)
       <==> NothingDisguised(files, cursor, delta, server, limit) && NothingSkipped(files, cursor, delta, server, limit))
  {
    var after := PullOf(files, cursor, delta, server, limit);
    var end := Walk(server, limit, delta.tracks, Start(files, cursor));
    var passed := Passed(server, limit, delta.tracks, Start(files, cursor));
    WalkSplits(server, limit, delta.tracks, Start(files, cursor));
    WalkRaisesCursor(server, limit, delta.tracks, Start(files, cursor));
    forall t | t in server.db.rows ensures Mirrored(after.files, t)
                                      <==> if t in passed then !Disguised(files, t) else Mirrored(files, t) {
      PullAt(files, cursor, delta, server, limit, t);
    }
    SavedCovers(files, cursor, delta, server, after, passed, end);
  }

  lemma SavedCovers(
    files: map<string, Bytes>, cursor: nat, delta: Delta, server: Server, after: Pulled, passed: seq<Track>, end: End)
    requires Pullable(cursor, delta, server) && Covers(files, cursor, server.db)
    requires forall t :: t in server.db.rows ==>
               (Mirrored(after.files, t) <==> if t in passed then !Disguised(files, t) else Mirrored(files, t))
    requires delta.tracks == passed + end.left
    requires forall t :: t in passed ==> t.version <= end.progress.highWater
    requires end.progress.highWater <= server.db.version
    requires if end.left == [] then after.cursor == server.db.version else after.cursor == end.progress.highWater
    ensures Covers(after.files, after.cursor, server.db)
       <==> && (forall t :: t in passed ==> !Disguised(files, t))
            && (forall t :: t in end.left && t.version <= end.progress.highWater ==> Mirrored(files, t))
  {
    if Covers(after.files, after.cursor, server.db) {
      forall t | t in passed ensures !Disguised(files, t) {
        assert t in delta.tracks;
      }
      forall t | t in end.left && t.version <= end.progress.highWater ensures Mirrored(files, t) {
        LeftIsNotPassed(passed, end.left, t);
        assert t in delta.tracks;
      }
    }
  }

  lemma LeftIsNotPassed(passed: seq<Track>, left: seq<Track>, t: Track)
    requires UniqueIds(passed + left) && t in left
    ensures t !in passed
  {
    var tracks := passed + left;
    var j :| 0 <= j < |left| && left[j] == t;
    assert tracks[|passed| + j] == t;
    forall i | 0 <= i < |passed| ensures passed[i] != t {
      assert tracks[i].id != tracks[|passed| + j].id;
    }
  }

  // ---- Which lists can be cut anywhere ----

  ghost predicate Increasing(tracks: seq<Track>) {
    forall i, j :: 0 <= i < j < |tracks| ==> tracks[i].version < tracks[j].version
  }

  ghost predicate SafeUpTo(tracks: seq<Track>, a: nat)
    requires a < |tracks|
  {
    forall i :: 0 <= i <= a ==> SafeId(tracks[i].id)
  }

  /** Versions increase from every place that a run can get past. */
  ghost predicate Cuttable(tracks: seq<Track>) {
    forall a, b :: 0 <= a < b < |tracks| && SafeUpTo(tracks, a) ==> tracks[a].version < tracks[b].version
  }

  lemma {:induction false} PassedAreSafe(server: Server, limit: nat, tracks: seq<Track>, p: Progress)
    ensures forall t :: t in Passed(server, limit, tracks, p) ==> SafeId(t.id)
  {
    if tracks == [] || (limit > 0 && p.downloaded >= limit) || !SafeId(tracks[0].id) {
    } else if Fetch(server, p, tracks[0]).Some? {
      PassedAreSafe(server, limit, tracks[1..], Fetch(server, p, tracks[0]).value);
    }
  }

  /** Then a run skips nothing, wherever it stops. */
  lemma CuttableSkipsNothing(files: map<string, Bytes>, cursor: nat, delta: Delta, server: Server, limit: nat)
    requires forall t :: t in delta.tracks ==> t.version > cursor
    requires Cuttable(delta.tracks)
    ensures NothingSkipped(files, cursor, delta, server, limit)
  {
    var end := Walk(server, limit, delta.tracks, Start(files, cursor));
    var passed := Passed(server, limit, delta.tracks, Start(files, cursor));
    WalkSplits(server, limit, delta.tracks, Start(files, cursor));
    WalkRaisesCursor(server, limit, delta.tracks, Start(files, cursor));
    PassedAreSafe(server, limit, delta.tracks, Start(files, cursor));
    forall t | t in end.left ensures t.version > end.progress.highWater {
      LeftIsHigher(passed, end.left, t);
    }
  }

  lemma LeftIsHigher(passed: seq<Track>, left: seq<Track>, t: Track)
    requires Cuttable(passed + left) && t in left && forall p :: p in passed ==> SafeId(p.id)
    ensures forall p :: p in passed ==> p.version < t.version
  {
    var tracks := passed + left;
    var j :| 0 <= j < |left| && left[j] == t;
    forall i | 0 <= i < |passed| ensures passed[i].version < t.version {
      assert SafeUpTo(tracks, i);
      assert tracks[i].version < tracks[|passed| + j].version;
    }
  }

  /** A run without a limit skips nothing whatever the order. */
  lemma NoLimitSkipsNothing(files: map<string, Bytes>, cursor: nat, delta: Delta, server: Server)
    requires PullOf(files, cursor, delta, server, 0).outcome.Drained? || PullOf(files, cursor, delta, server, 0).outcome.Truncated?
    ensures PullOf(files, cursor, delta, server, 0).outcome.Drained?
    ensures NothingSkipped(files, cursor, delta, server, 0)
  {
    WalkSplits(server, 0, delta.tracks, Start(files, cursor));
    OnlyTheLimitCuts(server, 0, delta.tracks, Start(files, cursor));
  }

  /** Downloads of tracks that are not there get exactly as far as the limit. */
  lemma {:induction false} FreshWalk(server: Server, limit: nat, tracks: seq<Track>, p: Progress)
    requires Plain(tracks) && p.downloaded <= limit < p.downloaded + |tracks| && 0 < limit
    requires forall i :: 0 <= i < limit - p.downloaded ==>
      SafeId(tracks[i].id) && Name(tracks[i]) !in p.files && Download(server, tracks[i].id).Some?
    ensures Passed(server, limit, tracks, p) == tracks[..limit - p.downloaded]
    ensures Walk(server, limit, tracks, p).outcome == Truncated
    decreases |tracks|
  {
    if p.downloaded == limit {
    } else {
      var first, rest := tracks[0], tracks[1..];
      var next := Fetch(server, p, first).value;
      forall i | 0 <= i < limit - next.downloaded
        ensures SafeId(rest[i].id) && Name(rest[i]) !in next.files && Download(server, rest[i].id).Some?
      {
        assert rest[i] == tracks[i + 1];
        NamesAreDistinct(first, rest[i]);
      }
      FreshWalk(server, limit, rest, next);
      TakeOneMore(tracks, limit - p.downloaded);
    }
  }

  lemma TakeOneMore<T>(s: seq<T>, n: nat)
    requires 0 < n <= |s|
    ensures s[..n] == [s[0]] + s[1..][..n - 1]
  {
  }

  /** The mirror that holds the live tracks up to the cursor and nothing else. */
  function MirrorOf(rows: seq<Track>, cursor: nat): map<string, Bytes> {
    if rows == [] then map[]
    else
      var rest := MirrorOf(rows[1..], cursor);
      if rows[0].version <= cursor then rest[Name(rows[0]) := rows[0].content.bytes] else rest
  }

  lemma {:induction false} MirrorOfHolds(rows: seq<Track>, cursor: nat, t: Track)
    requires Plain(rows) && t in rows
    ensures Get(MirrorOf(rows, cursor), Name(t)) == if t.version <= cursor then Some(t.content.bytes) else None
  {
    var first, rest := rows[0], rows[1..];
    assert rows == [first] + rest;
    if t == first {
      HoldsNoOther(rest, cursor, t);
    } else {
      MirrorOfHolds(rest, cursor, t);
      NamesAreDistinct(first, t);
    }
  }

  lemma {:induction false} HoldsNoOther(rows: seq<Track>, cursor: nat, t: Track)
    requires Dotless(t.id) && forall r :: r in rows ==> Dotless(r.id) && r.id != t.id
    ensures Name(t) !in MirrorOf(rows, cursor)
  {
    if rows == [] {
    } else {
      assert rows[0] in rows;
      NamesAreDistinct(rows[0], t);
      HoldsNoOther(rows[1..], cursor, t);
    }
  }

  ghost predicate Saved(outcome: Outcome) {
    outcome.Drained? || outcome.Truncated?
  }

  /** Whatever a mirror that covers the tracks up to the cursor holds besides, every
      saved run that took no file for complete wrongly covers those up to the new
      cursor. */
  ghost predicate KeepsCovering(cursor: nat, delta: Delta, db: Db) {
    forall files, failing, limit: nat :: KeepsFrom(files, failing, limit, cursor, delta, db)
  }

  ghost predicate KeepsFrom(
    files: map<string, Bytes>, failing: set<string>, limit: nat, cursor: nat, delta: Delta, db: Db) {
    && Covers(files, cursor, db)
    && NothingDisguised(files, cursor, delta, Server(db, failing), limit)
    && Saved(PullOf(files, cursor, delta, Server(db, failing), limit).outcome)
    ==> var after := PullOf(files, cursor, delta, Server(db, failing), limit);
      Covers(after.files, after.cursor, db)
  }

  /** A run that stops behind track `a`, with track `b` of no higher version still
      to come: `b` is skipped, even from the mirror that holds exactly what it
      should. */
  lemma CutIsSkipped(cursor: nat, delta: Delta, db: Db, a: nat, b: nat)
    requires Pullable(cursor, delta, Server(db, {}))
    requires a < b < |delta.tracks| && SafeUpTo(delta.tracks, a)
    requires delta.tracks[b].version <= delta.tracks[a].version
    ensures var files, server := MirrorOf(db.rows, cursor), Server(db, {});
      && Covers(files, cursor, db) && NothingDisguised(files, cursor, delta, server, a + 1)
      && PullOf(files, cursor, delta, server, a + 1).outcome == Truncated
      && !NothingSkipped(files, cursor, delta, server, a + 1)
  {
    var files, server := MirrorOf(db.rows, cursor), Server(db, {});
    MirrorOfCovers(cursor, db);
    CutBehind(files, cursor, delta, server, a);
    var skipped := delta.tracks[b];
    assert skipped == delta.tracks[a + 1..][b - a - 1];
    assert !Mirrored(files, skipped);
  }

  lemma {:induction false} CutBehind(files: map<string, Bytes>, cursor: nat, delta: Delta, server: Server, a: nat)
    requires Pullable(cursor, delta, server) && server.failing == {}
    requires a + 1 < |delta.tracks| && SafeUpTo(delta.tracks, a)
    requires forall t :: t in delta.tracks ==> Name(t) !in files
    ensures var start := Start(files, cursor);
      var end := Walk(server, a + 1, delta.tracks, start);
      && Passed(server, a + 1, delta.tracks, start) == delta.tracks[..a + 1]
      && end.outcome == Truncated && end.left == delta.tracks[a + 1..]
      && delta.tracks[a].version <= end.progress.highWater
  {
    var start := Start(files, cursor);
    NoneFails(cursor, delta, server);
    FreshWalk(server, a + 1, delta.tracks, start);
    WalkSplits(server, a + 1, delta.tracks, start);
    WalkRaisesCursor(server, a + 1, delta.tracks, start);
    assert delta.tracks[..a + 1][a] in delta.tracks[..a + 1];
  }

  lemma NoneFails(cursor: nat, delta: Delta, server: Server)
    requires Pullable(cursor, delta, server) && server.failing == {}
    ensures forall t :: t in delta.tracks ==> Download(server, t.id).Some? && Dotless(t.id)
  {
    forall t | t in delta.tracks ensures Download(server, t.id).Some? && Dotless(t.id) {
      DownloadIsTheTrack(server, t);
    }
  }

  lemma MirrorOfCovers(cursor: nat, db: Db)
    requires Plain(db.rows)
    ensures var files := MirrorOf(db.rows, cursor);
      && Covers(files, cursor, db)
      && forall t :: t in db.rows && t.version > cursor ==> Name(t) !in files
  {
    forall t | t in db.rows
      ensures Get(MirrorOf(db.rows, cursor), Name(t)) == if t.version <= cursor then Some(t.content.bytes) else None
    {
      MirrorOfHolds(db.rows, cursor, t);
    }
  }

  lemma CuttableCovers(files: map<string, Bytes>, cursor: nat, delta: Delta, server: Server, limit: nat)
    requires Pullable(cursor, delta, server) && Covers(files, cursor, server.db) && Cuttable(delta.tracks)
    requires NothingDisguised(files, cursor, delta, server, limit)
    requires Saved(PullOf(files, cursor, delta, server, limit).outcome)
    ensures var after := PullOf(files, cursor, delta, server, limit); Covers(after.files, after.cursor, server.db)
  {
    CuttableSkipsNothing(files, cursor, delta, server, limit);
    PullCovers(files, cursor, delta, server, limit);
  }

  lemma CutUncovers(cursor: nat, delta: Delta, db: Db, a: nat, b: nat)
    requires Pullable(cursor, delta, Server(db, {}))
    requires a < b < |delta.tracks| && SafeUpTo(delta.tracks, a)
    requires delta.tracks[b].version <= delta.tracks[a].version
    ensures !KeepsCovering(cursor, delta, db)
  {
    CutIsSkipped(cursor, delta, db, a, b);
    UncoversOne(MirrorOf(db.rows, cursor), cursor, delta, db, a + 1);
  }

  lemma UncoversOne(files: map<string, Bytes>, cursor: nat, delta: Delta, db: Db, limit: nat)
    requires Pullable(cursor, delta, Server(db, {}))
    ensures var server := Server(db, {});
      && Covers(files, cursor, db) && NothingDisguised(files, cursor, delta, server, limit)
      && PullOf(files, cursor, delta, server, limit).outcome == Truncated
      && !NothingSkipped(files, cursor, delta, server, limit)
      ==> !KeepsFrom(files, {}, limit, cursor, delta, db)
  {
    if Covers(files, cursor, db) && PullOf(files, cursor, delta, Server(db, {}), limit).outcome == Truncated {
      PullCovers(files, cursor, delta, Server(db, {}), limit);
    }
  }

  /** A delta can be cut anywhere, from every mirror and for every limit, if and
      only if versions increase from every place a run can get past: when all ids
      are safe, if and only if they increase throughout. */
  lemma SafeToCutAnywhere(cursor: nat, delta: Delta, db: Db)
    requires Pullable(cursor, delta, Server(db, {}))
    ensures KeepsCovering(cursor, delta, db) <==> Cuttable(delta.tracks)
    ensures (forall t :: t in delta.tracks ==> SafeId(t.id)) ==> (Cuttable(delta.tracks) <==> Increasing(delta.tracks))
  {
    if Cuttable(delta.tracks) {
      forall files, failing, limit: nat ensures KeepsFrom(files, failing, limit, cursor, delta, db) {
        if
          && Covers(files, cursor, db)
          && NothingDisguised(files, cursor, delta, Server(db, failing), limit)
          && Saved(PullOf(files, cursor, delta, Server(db, failing), limit).outcome)
        {
          CuttableCovers(files, cursor, delta, Server(db, failing), limit);
        }
      }
    } else {
      var a, b :| 0 <= a < b < |delta.tracks| && SafeUpTo(delta.tracks, a)
                  && delta.tracks[a].version >= delta.tracks[b].version;
      CutUncovers(cursor, delta, db, a, b);
    }
    SafeIsIncreasing(delta.tracks);
  }

  lemma SafeIsIncreasing(tracks: seq<Track>)
    ensures (forall t :: t in tracks ==> SafeId(t.id)) ==> (Cuttable(tracks) <==> Increasing(tracks))
  {
    if forall t :: t in tracks ==> SafeId(t.id) {
      assert forall a: nat :: a < |tracks| ==> SafeUpTo(tracks, a);
    }
  }
}
