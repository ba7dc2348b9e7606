/**
 `pull`: a mirror of the server's tracks on disk, kept up to date a limited
 number of downloads at a time, with a cursor that says how far it got.
*/
module Pulls {
  import opened Wrappers
  import opened Libraries
  import opened MergeTracks
  import opened Refreshes

  // ---- File names ----

  const MAX_ID_LEN := 128
  const MAX_FORMAT_LEN := 16

  predicate Alphanumeric(c: char) {
    '0' <= c <= '9' || 'a' <= c <= 'z' || 'A' <= c <= 'Z'
  }

  predicate SafeId(id: string) {
    && id != "" && id != "." && id != ".." && |id| <= MAX_ID_LEN
    && forall i :: 0 <= i < |id| ==> Alphanumeric(id[i]) || id[i] == '.' || id[i] == '_' || id[i] == '-'
  }

  function Lower(s: string): (r: string)
    ensures |r| == |s|
  {
    if s == "" then "" else [if 'A' <= s[0] <= 'Z' then s[0] - 'A' + 'a' else s[0]] + Lower(s[1..])
  }

  function SafeExtension(format: string): string {
    if format != "" && |format| <= MAX_FORMAT_LEN && forall i :: 0 <= i < |format| ==> Alphanumeric(format[i])
    then Lower(format)
    else "bin"
  }

  /** The file a track is mirrored in. */
  function Name(t: Track): string {
    t.id + "." + SafeExtension(t.content.format)
  }

  predicate StartsWith(s: string, prefix: string) {
    prefix <= s
  }

  predicate Contains(s: string, part: string) {
    exists i :: 0 <= i <= |s| && StartsWith(s[i..], part)
  }

  /** The files a deletion of `id` removes: by prefix, sparing downloads in
      progress. */
  predicate Removes(id: string, name: string) {
    SafeId(id) && StartsWith(name, id + ".") && !Contains(name, ".part.")
  }

  // ---- One pull ----

  /** The server while a pull runs: `failing` are the downloads that fail. */
  datatype Server = Server(db: Db, failing: set<string>)

  function Download(server: Server, id: string): Option<Bytes> {
    if id in server.failing then None
    else match Find(server.db.rows, id)
      case Some(t) => Some(t.content.bytes)
      case None => None
  }

  /** A file of the right size, if the size says anything, is taken for the
      track's. */
  predicate Complete(files: map<string, Bytes>, t: Track) {
    var size := |t.content.bytes|;
    size > 0 && Name(t) in files && |files[Name(t)]| == size
  }

  datatype Outcome = Drained | Truncated | UnsafeId | DownloadFailed

  datatype Progress = Progress(files: map<string, Bytes>, downloaded: nat, highWater: nat)

  datatype End = End(progress: Progress, outcome: Outcome, left: seq<Track>)

  /** One track: skipped if complete, else downloaded. */
  function Fetch(server: Server, p: Progress, t: Track): (r: Option<Progress>) {
    var highWater := if t.version > p.highWater then t.version else p.highWater;
    if Complete(p.files, t) then Some(p.(highWater := highWater))
    else match Download(server, t.id)
      case Some(bytes) => Some(Progress(p.files[Name(t) := bytes], p.downloaded + 1, highWater))
      case None => None
  }

  function Walk(server: Server, limit: nat, tracks: seq<Track>, p: Progress): End {
    if tracks == [] then End(p, Drained, [])
    else if limit > 0 && p.downloaded >= limit then End(p, Truncated, tracks)
    else if !SafeId(tracks[0].id) then End(p, UnsafeId, tracks)
    else match Fetch(server, p, tracks[0])
      case Some(next) => Walk(server, limit, tracks[1..], next)
      case None => End(p, DownloadFailed, tracks)
  }

  /** What the walk makes of track `i`. */
  lemma WalkFrom(server: Server, limit: nat, tracks: seq<Track>, i: nat, p: Progress)
    requires i < |tracks|
    ensures var walk, next := Walk(server, limit, tracks[i..], p), Fetch(server, p, tracks[i]);
      if limit > 0 && p.downloaded >= limit then walk == End(p, Truncated, tracks[i..])
      else if !SafeId(tracks[i].id) then walk == End(p, UnsafeId, tracks[i..])
      else if next == None then walk == End(p, DownloadFailed, tracks[i..])
      else walk == Walk(server, limit, tracks[i + 1..], next.value)
  {
    FirstAndRest(tracks, i);
  }

  ghost predicate Removed(deleted: seq<string>, name: string) {
    exists id :: id in deleted && Removes(id, name)
  }

  function Cleared(files: map<string, Bytes>, deleted: seq<string>): (r: map<string, Bytes>)
    decreases |deleted|
  {
    if deleted == [] then files
    else Cleared(map name | name in files && !Removes(deleted[0], name) :: files[name], deleted[1..])
  }

  function Get(files: map<string, Bytes>, name: string): Option<Bytes> {
    if name in files then Some(files[name]) else None
  }

  /** Exactly the files that some deleted id's prefix names are gone. */
  lemma {:induction false} ClearedKeeps(files: map<string, Bytes>, deleted: seq<string>, name: string)
    ensures Get(Cleared(files, deleted), name) == if Removed(deleted, name) then None else Get(files, name)
    decreases |deleted|
  {
    if deleted == [] {
    } else {
      assert deleted == [deleted[0]] + deleted[1..];
      ClearedKeeps(map n | n in files && !Removes(deleted[0], n) :: files[n], deleted[1..], name);
    }
  }

  datatype Pulled = Pulled(files: map<string, Bytes>, cursor: nat, outcome: Outcome)

  function PullOf(files: map<string, Bytes>, cursor: nat, delta: Delta, server: Server, limit: nat): Pulled {
    var end := Walk(server, limit, delta.tracks, Progress(files, 0, cursor));
    match end.outcome
    case Drained => Pulled(Cleared(end.progress.files, delta.deleted), delta.version, Drained)
    case Truncated => Pulled(Cleared(end.progress.files, delta.deleted), end.progress.highWater, Truncated)
    case outcome => Pulled(end.progress.files, cursor, outcome)
  }

  class Mirror {
    var files: map<string, Bytes>
    var cursor: nat

    constructor ()
      ensures files == map[] && cursor == 0
    {
      files, cursor := map[], 0;
    }

    method Pull(delta: Delta, server: Server, limit: nat) returns (outcome: Outcome)
      modifies this
      ensures Pulled(files, cursor, outcome) == PullOf(old(files), old(cursor), delta, server, limit)
    {
      var downloaded: nat, highWater: nat, truncated := 0, cursor, false;
      ghost var end := Walk(server, limit, delta.tracks, Progress(files, 0, cursor));
      assert delta.tracks[0..] == delta.tracks;
      for i := 0 to |delta.tracks|
        invariant !truncated
        invariant cursor == old(cursor)
        invariant Walk(server, limit, delta.tracks[i..], Progress(files, downloaded, highWater)) == end
      {
        var track := delta.tracks[i];
        WalkFrom(server, limit, delta.tracks, i, Progress(files, downloaded, highWater));
        if limit > 0 && downloaded >= limit {
          truncated := true;
          break;
        }
        if !SafeId(track.id) {
          return UnsafeId;
        }
        var ok;
        downloaded, highWater, ok := FetchTrack(server, track, downloaded, highWater);
        if !ok {
          return DownloadFailed;
        }
      }
      Clear(delta.deleted);
      cursor := if truncated then highWater else delta.version;
      outcome := if truncated then Truncated else Drained;
    }

    /** Downloads `t` unless it is complete. */
    method FetchTrack(server: Server, t: Track, downloaded: nat, highWater: nat)
      returns (downloaded': nat, highWater': nat, ok: bool)
      modifies this`files
      ensures Fetch(server, Progress(old(files), downloaded, highWater), t)
           == if ok then Some(Progress(files, downloaded', highWater')) else None
      ensures !ok ==> files == old(files)
    {
      downloaded', highWater' := downloaded, if t.version > highWater then t.version else highWater;
      if Complete(files, t) {
        return downloaded', highWater', true;
      }
      var bytes := Download(server, t.id);
      if bytes == None {
        return downloaded', highWater', false;
      }
      files := files[Name(t) := bytes.value];
      return downloaded' + 1, highWater', true;
    }

    method Clear(deleted: seq<string>)
      modifies this`files
      ensures files == Cleared(old(files), deleted)
      ensures forall name :: Get(files, name) == if Removed(deleted, name) then None else Get(old(files), name)
    {
      for i := 0 to |deleted|
        invariant Cleared(files, deleted[i..]) == Cleared(old(files), deleted)
      {
        FirstAndRest(deleted, i);
        files := map name | name in files && !Removes(deleted[i], name) :: files[name];
      }
      forall name ensures Get(files, name) == if Removed(deleted, name) then None else Get(old(files), name) {
        ClearedKeeps(old(files), deleted, name);
      }
    }
  }

  lemma FirstAndRest<T>(s: seq<T>, i: nat)
    requires i < |s|
    ensures s[i..][0] == s[i] && s[i..][1..] == s[i + 1..]
  {
  }
}
