/**
 A mirror's whole life: the server changes and pulls run, some of them failing,
 in any order. What it keeps throughout, and that limited pulls finish.
*/
module MirrorRuns {
  import opened Wrappers
  import opened Libraries
  import opened MergeTracks
  import opened Refreshes
  import opened Pulls
  import opened Mirrors

  datatype World = World(db: Db, files: map<string, Bytes>, cursor: nat)

  datatype Event = Changes(changes: seq<Change>) | Pull(failing: set<string>, limit: nat)

  function AfterPull(w: World, failing: set<string>, limit: nat): Pulled {
    PullOf(w.files, w.cursor, DeltaSince(w.db, w.cursor), Server(w.db, failing), limit)
  }

  function Next(w: World, e: Event): World {
    match e
    case Changes(changes) => w.(db := History(w.db, changes))
    case Pull(failing, limit) =>
      var after := AfterPull(w, failing, limit);
      w.(files := after.files, cursor := after.cursor)
  }

  function Life(w: World, events: seq<Event>): World
    decreases |events|
  {
    if events == [] then w else Life(Next(w, events[0]), events[1..])
  }

  // ---- No deletion is forgotten ----

  ghost predicate Accounted(db: Db, id: string, v: nat, lost: set<string>) {
    Live(db, id) || Buried(db, id, v) || id in lost
  }

  lemma UpsertOneAccounts(db: Db, next: nat, id: string, content: Content, other: string, v: nat, lost: set<string>)
    requires Accounted(db, other, v, lost)
    ensures Accounted(UpsertOne(db, next, id, content), other, v, lost)
  {
    var now := UpsertOne(db, next, id, content);
    if now != db {
      assert Track(id, content, next) in now.rows;
      if other != id {
        if t :| t in db.rows && t.id == other {
          assert t in now.rows;
        } else if Buried(db, other, v) {
          var d :| d in db.tombs && d.id == other && d.version > v;
          assert d in now.tombs;
        }
      }
    }
  }

  lemma {:induction false} UpsertAllAccounts(
    db: Db, next: nat, batch: seq<(string, Content)>, other: string, v: nat, lost: set<string>)
    requires Accounted(db, other, v, lost)
    ensures Accounted(UpsertAll(db, next, batch), other, v, lost)
    decreases |batch|
  {
    if batch == [] {
    } else {
      UpsertOneAccounts(db, next, batch[0].0, batch[0].1, other, v, lost);
      UpsertAllAccounts(UpsertOne(db, next, batch[0].0, batch[0].1), next, batch[1..], other, v, lost);
    }
  }

  lemma DeleteOneAccounts(db: Db, next: nat, id: string, other: string, v: nat, lost: set<string>)
    requires Accounted(db, other, v, lost) && v < next
    ensures Accounted(DeleteOne(db, next, id), other, v, lost)
  {
    var now := DeleteOne(db, next, id);
    if Live(db, id) {
      assert Tombstone(id, next) in now.tombs;
      if other != id {
        if t :| t in db.rows && t.id == other {
          assert t in now.rows;
        } else if Buried(db, other, v) {
          var d :| d in db.tombs && d.id == other && d.version > v;
          assert d in now.tombs;
        }
      }
    }
  }

  lemma {:induction false} DeleteAllAccounts(
    db: Db, next: nat, ids: seq<string>, other: string, v: nat, lost: set<string>)
    requires Accounted(db, other, v, lost) && v < next
    ensures Accounted(DeleteAll(db, next, ids), other, v, lost)
    decreases |ids|
  {
    if ids == [] {
    } else {
      DeleteOneAccounts(db, next, ids[0], other, v, lost);
      DeleteAllAccounts(DeleteOne(db, next, ids[0]), next, ids[1..], other, v, lost);
    }
  }

  lemma ChangeAccounts(db: Db, change: Change, other: string, v: nat, lost: set<string>)
    requires Accounted(db, other, v, lost) && v <= db.version
    ensures Accounted(ApplyChange(db, change), other, v, lost + PurgedIn([change]))
  {
    PurgedInOne(change, lost);
    match change
    case Upserted(batch) => UpsertAllAccounts(db, db.version + 1, batch, other, v, lost);
    case Deleted(ids) => DeleteAllAccounts(db, db.version + 1, ids, other, v, lost);
    case Purged(gone) =>
      if !Live(db, other) && other !in lost + gone {
        var d :| d in db.tombs && d.id == other && d.version > v;
        assert d in ApplyChange(db, change).tombs;
      }
  }

  /** Whatever the server does, an id stays live, or its deletion stays newer
      than `v`, or its tombstone was purged. */
  lemma {:induction false} HistoryAccounts(db: Db, changes: seq<Change>, other: string, v: nat, lost: set<string>)
    requires Accounted(db, other, v, lost) && v <= db.version && Sound(db)
    ensures Accounted(History(db, changes), other, v, lost + PurgedIn(changes))
    decreases |changes|
  {
    if changes == [] {
      assert lost + PurgedIn(changes) == lost;
    } else {
      var change := changes[0];
      ChangeAccounts(db, change, other, v, lost);
      HistoryFrom(db, [change]);
      HistoryOfOne(db, change);
      HistoryAccounts(ApplyChange(db, change), changes[1..], other, v, lost + PurgedIn([change]));
      assert PurgedIn([change]) + PurgedIn(changes[1..]) == PurgedIn(changes);
      assert lost + PurgedIn([change]) + PurgedIn(changes[1..]) == lost + PurgedIn(changes);
    }
  }

  // ---- What every life keeps ----

  /** A file belongs to a track that is there, or whose deletion is still to
      come, or was purged before this mirror saw it. */
  ghost predicate Belongs(db: Db, name: string, v: nat, lost: set<string>) {
    exists id :: Removes(id, name) && Accounted(db, id, v, lost)
  }

  ghost predicate Keeps(w: World, lost: set<string>) {
    && Sound(w.db) && w.cursor <= w.db.version
    && Covers(w.files, w.cursor, w.db)
    && (forall name :: name in w.files ==> Belongs(w.db, name, w.cursor, lost))
  }

  /** A pull that, if it is saved, meets its own exact condition. */
  ghost predicate Ordinary(w: World, failing: set<string>, limit: nat) {
    var delta, server := DeltaSince(w.db, w.cursor), Server(w.db, failing);
    && Plain(w.db.rows)
    && (Saved(AfterPull(w, failing, limit).outcome) ==>
      && NothingDisguised(w.files, w.cursor, delta, server, limit)
      && NothingSkipped(w.files, w.cursor, delta, server, limit))
  }

  ghost predicate OrdinaryLife(w: World, events: seq<Event>)
    decreases |events|
  {
    events == [] ||
    (&& (events[0].Pull? ==> Ordinary(w, events[0].failing, events[0].limit))
     && OrdinaryLife(Next(w, events[0]), events[1..]))
  }

  function AllPurged(events: seq<Event>): set<string> {
    if events == [] then {}
    else (if events[0].Changes? then PurgedIn(events[0].changes) else {}) + AllPurged(events[1..])
  }

  lemma ChangesKeep(w: World, changes: seq<Change>, lost: set<string>)
    requires Keeps(w, lost)
    ensures Keeps(Next(w, Changes(changes)), lost + PurgedIn(changes))
  {
    var now := History(w.db, changes);
    SinceCursor(w.db, changes, w.cursor);
    forall name | name in w.files ensures Belongs(now, name, w.cursor, lost + PurgedIn(changes)) {
      var id :| Removes(id, name) && Accounted(w.db, id, w.cursor, lost);
      HistoryAccounts(w.db, changes, id, w.cursor, lost);
    }
  }

  lemma SinceCursor(db: Db, changes: seq<Change>, v: nat)
    requires Sound(db) && v <= db.version
    ensures Sound(History(db, changes)) && v <= History(db, changes).version
    ensures forall t :: t in History(db, changes).rows && t.version <= v ==> t in db.rows
  {
    assert Since(db, db, v, {});
    HistoryKeeps(db, changes, db, v, {});
  }

  lemma PullKeeps(w: World, failing: set<string>, limit: nat, lost: set<string>)
    requires Keeps(w, lost) && Ordinary(w, failing, limit)
    ensures Keeps(Next(w, Pull(failing, limit)), lost) && w.cursor <= Next(w, Pull(failing, limit)).cursor
  {
    var delta, server := DeltaSince(w.db, w.cursor), Server(w.db, failing);
    var after := AfterPull(w, failing, limit);
    ServerAnswers(w.db, w.cursor);
    CursorNeverGoesBack(w.files, w.cursor, delta, server, limit);
    if Saved(after.outcome) {
      PullCovers(w.files, w.cursor, delta, server, limit);
    } else {
      FailedPullKeeps(w.files, w.cursor, delta, server, limit);
    }
    forall name | name in after.files ensures Belongs(w.db, name, after.cursor, lost) {
      PulledBelongs(w, failing, limit, lost, name);
    }
  }

  /** Some listed track's download. */
  ghost predicate Downloaded(server: Server, tracks: seq<Track>, name: string, got: Option<Bytes>) {
    exists t :: t in tracks && SafeId(t.id) && Name(t) == name && got == Download(server, t.id)
  }

  /** What a walk leaves in a file was there before, or is a download of a listed
      track's. */
  lemma {:induction false} WalkWrites(server: Server, limit: nat, tracks: seq<Track>, p: Progress, name: string)
    ensures var got := Get(Walk(server, limit, tracks, p).progress.files, name);
      got == Get(p.files, name) || Downloaded(server, tracks, name, got)
  {
    if tracks == [] || (limit > 0 && p.downloaded >= limit) || !SafeId(tracks[0].id) || Fetch(server, p, tracks[0]) == None {
    } else {
      var first := tracks[0];
      var next := Fetch(server, p, first).value;
      assert tracks == [first] + tracks[1..];
      WalkWrites(server, limit, tracks[1..], next, name);
      assert first in tracks;
    }
  }

  /** Behind its walk a pull only removes files, and only if it is saved. */
  lemma PulledOnlyClears(files: map<string, Bytes>, cursor: nat, delta: Delta, server: Server, limit: nat, name: string)
    requires name in PullOf(files, cursor, delta, server, limit).files
    ensures var walked := Walk(server, limit, delta.tracks, Start(files, cursor)).progress.files;
      Get(walked, name) == Some(PullOf(files, cursor, delta, server, limit).files[name])
    ensures Saved(PullOf(files, cursor, delta, server, limit).outcome) ==> !Removed(delta.deleted, name)
  {
    ClearedKeeps(Walk(server, limit, delta.tracks, Start(files, cursor)).progress.files, delta.deleted, name);
  }

  ghost predicate Delivered(db: Db, name: string, bytes: Bytes) {
    exists t :: t in db.rows && SafeId(t.id) && Name(t) == name && t.content.bytes == bytes
  }

  /** And so of a pull: what the file held, or a live track's bytes. */
  lemma PullWrites(w: World, failing: set<string>, limit: nat, name: string)
    requires Sound(w.db) && name in AfterPull(w, failing, limit).files
    ensures var files := AfterPull(w, failing, limit).files;
      Get(files, name) == Get(w.files, name) || Delivered(w.db, name, files[name])
  {
    var delta, server := DeltaSince(w.db, w.cursor), Server(w.db, failing);
    var files := Walk(server, limit, delta.tracks, Start(w.files, w.cursor)).progress.files;
    PulledOnlyClears(w.files, w.cursor, delta, server, limit, name);
    WalkWrites(server, limit, delta.tracks, Start(w.files, w.cursor), name);
    if Downloaded(server, delta.tracks, name, Get(files, name)) {
      DownloadIsDelivered(server, delta.tracks, name, files);
    }
  }

  lemma DownloadIsDelivered(server: Server, tracks: seq<Track>, name: string, files: map<string, Bytes>)
    requires UniqueIds(server.db.rows) && (forall t :: t in tracks ==> t in server.db.rows)
    requires name in files && Downloaded(server, tracks, name, Get(files, name))
    ensures Delivered(server.db, name, files[name])
  {
    var t :| t in tracks && SafeId(t.id) && Name(t) == name && Get(files, name) == Download(server, t.id);
    DownloadIsTheTrack(server, t);
  }

  lemma PullClears(w: World, failing: set<string>, limit: nat, name: string)
    requires Saved(AfterPull(w, failing, limit).outcome) && name in AfterPull(w, failing, limit).files
    ensures !Removed(DeltaSince(w.db, w.cursor).deleted, name)
  {
    var delta, server := DeltaSince(w.db, w.cursor), Server(w.db, failing);
    PulledOnlyClears(w.files, w.cursor, delta, server, limit, name);
  }

  ghost predicate Owned(db: Db, name: string, lost: set<string>) {
    exists id :: Removes(id, name) && (Live(db, id) || id in lost)
  }

  lemma OldIsOwned(db: Db, name: string, v: nat, delta: Delta, lost: set<string>)
    requires Belongs(db, name, v, lost) && Answers(delta, db, v) && !Removed(delta.deleted, name)
    ensures Owned(db, name, lost)
  {
    var id :| Removes(id, name) && Accounted(db, id, v, lost);
    assert Buried(db, id, v) ==> id in delta.deleted;
  }

  lemma PulledBelongs(w: World, failing: set<string>, limit: nat, lost: set<string>, name: string)
    requires Keeps(w, lost) && Plain(w.db.rows)
    requires name in AfterPull(w, failing, limit).files
    ensures var after := AfterPull(w, failing, limit);
      if Saved(after.outcome)
      then Owned(w.db, name, lost)
      else after.cursor == w.cursor && Belongs(w.db, name, after.cursor, lost)
  {
    ServerAnswers(w.db, w.cursor);
    PullWrites(w, failing, limit, name);
    if name in w.files {
      assert Belongs(w.db, name, w.cursor, lost);
      if Saved(AfterPull(w, failing, limit).outcome) {
        PullClears(w, failing, limit, name);
        OldIsOwned(w.db, name, w.cursor, DeltaSince(w.db, w.cursor), lost);
      }
    } else {
      var t :| t in w.db.rows && SafeId(t.id) && Name(t) == name;
      LiveBelongs(w.db, t);
    }
  }

  lemma LiveBelongs(db: Db, t: Track)
    requires t in db.rows && Dotless(t.id) && SafeId(t.id)
    ensures Removes(t.id, Name(t)) && Live(db, t.id)
  {
    RemovesOnlyItsOwn(t.id, t);
  }

  /** Through a life whose saved pulls each meet their condition: every live track
      up to the cursor is mirrored, no file outlives its track once a pull saw it
      go, and the cursor never goes back. */
  lemma {:induction false} LifeKeeps(w: World, events: seq<Event>, lost: set<string>)
    requires Keeps(w, lost) && OrdinaryLife(w, events)
    ensures Keeps(Life(w, events), lost + AllPurged(events)) && w.cursor <= Life(w, events).cursor
    decreases |events|
  {
    if events == [] {
      assert lost + AllPurged(events) == lost;
    } else {
      match events[0] {
        case Changes(changes) =>
          ChangesKeep(w, changes, lost);
          LifeKeeps(Next(w, events[0]), events[1..], lost + PurgedIn(changes));
          assert lost + PurgedIn(changes) + AllPurged(events[1..]) == lost + AllPurged(events);
        case Pull(failing, limit) =>
          PullKeeps(w, failing, limit, lost);
          LifeKeeps(Next(w, events[0]), events[1..], lost);
          assert {} + AllPurged(events[1..]) == AllPurged(events);
      }
    }
  }

  // ---- A server that changes one track at a time ----

  predicate OneByOne(changes: seq<Change>) {
    forall i :: 0 <= i < |changes| && changes[i].Upserted? ==> |changes[i].batch| <= 1
  }

  lemma {:induction false} WithoutIsIncreasing(rows: seq<Track>, id: string)
    requires Increasing(rows)
    ensures Increasing(Without(rows, id))
  {
    if rows == [] {
    } else {
      var rest := Without(rows[1..], id);
      WithoutIsIncreasing(rows[1..], id);
      assert Without(rows, id) == (if rows[0].id == id then rest else [rows[0]] + rest);
      forall t | t in rest ensures rows[0].version < t.version {
        assert t in rows[1..];
      }
    }
  }

  lemma {:induction false} NewerIsIncreasing(rows: seq<Track>, since: nat)
    requires Increasing(rows)
    ensures Increasing(Newer(rows, since))
  {
    if rows == [] {
    } else {
      var rest := Newer(rows[1..], since);
      NewerIsIncreasing(rows[1..], since);
      assert Newer(rows, since) == (if rows[0].version > since then [rows[0]] + rest else rest);
      forall t | t in rest ensures rows[0].version < t.version {
        assert t in rows[1..];
      }
    }
  }

  lemma {:induction false} DeletingIsIncreasing(db: Db, next: nat, ids: seq<string>)
    requires Increasing(db.rows)
    ensures Increasing(DeleteAll(db, next, ids).rows)
    decreases |ids|
  {
    if ids == [] {
    } else {
      WithoutIsIncreasing(db.rows, ids[0]);
      DeletingIsIncreasing(DeleteOne(db, next, ids[0]), next, ids[1..]);
    }
  }

  lemma UpsertAllOfOne(db: Db, next: nat, id: string, content: Content)
    ensures UpsertAll(db, next, [(id, content)]) == UpsertOne(db, next, id, content)
  {
    var after := UpsertOne(db, next, id, content);
    assert [(id, content)][1..] == [];
    assert UpsertAll(after, next, []) == after;
  }

  lemma ChangeIsIncreasing(db: Db, change: Change)
    requires Sound(db) && Increasing(db.rows) && OneByOne([change])
    ensures Increasing(ApplyChange(db, change).rows)
  {
    match change
    case Upserted(batch) =>
      assert [change][0].Upserted?;
      if batch != [] {
        UpsertAllOfOne(db, db.version + 1, batch[0].0, batch[0].1);
        assert batch == [(batch[0].0, batch[0].1)];
        WithoutIsIncreasing(db.rows, batch[0].0);
      }
    case Deleted(ids) => DeletingIsIncreasing(db, db.version + 1, ids);
    case Purged(_) =>
  }

  /** Its deltas can be cut anywhere, at any time and for any cursor. */
  lemma {:induction false} OneByOneSkipsNothing(db: Db, changes: seq<Change>)
    requires Sound(db) && Increasing(db.rows) && OneByOne(changes)
    ensures var now := History(db, changes);
      && Increasing(now.rows)
      && forall files, cursor: nat, failing, limit: nat ::
           NothingSkipped(files, cursor, DeltaSince(now, cursor), Server(now, failing), limit)
    decreases |changes|
  {
    if changes == [] {
      forall files, cursor: nat, failing, limit: nat
        ensures NothingSkipped(files, cursor, DeltaSince(db, cursor), Server(db, failing), limit)
      {
        NewerIsIncreasing(db.rows, cursor);
        CuttableSkipsNothing(files, cursor, DeltaSince(db, cursor), Server(db, failing), limit);
      }
    } else {
      var change := changes[0];
      assert OneByOne([change]);
      ChangeIsIncreasing(db, change);
      HistoryFrom(db, [change]);
      HistoryOfOne(db, change);
      OneByOneSkipsNothing(ApplyChange(db, change), changes[1..]);
    }
  }

  // ---- Lives that are ordinary ----

  /** Everything the server ever has, by id. */
  type Catalogue = set<(string, Content)>

  function AsTrack(version: (string, Content)): Track {
    Track(version.0, version.1, 0)
  }

  /** No id has a dot, and what an id holds at one size, other than none, is always
      the same. */
  ghost predicate SizesTell(all: Catalogue) {
    && (forall v :: v in all ==> Dotless(v.0))
    && (forall u, v :: u in all && v in all && u.0 == v.0 && 0 < |u.1.bytes| == |v.1.bytes| ==> u.1.bytes == v.1.bytes)
  }

  ghost predicate Holds(db: Db, all: Catalogue) {
    forall t :: t in db.rows ==> (t.id, t.content) in all
  }

  ghost predicate Offers(changes: seq<Change>, all: Catalogue) {
    forall i :: 0 <= i < |changes| && changes[i].Upserted? ==> forall v :: v in changes[i].batch ==> v in all
  }

  /** No file has a size that something in the catalogue has, and other bytes. */
  ghost predicate Honest(files: map<string, Bytes>, all: Catalogue) {
    forall v :: v in all ==> !Disguised(files, AsTrack(v))
  }

  lemma {:induction false} UpsertAllHolds(db: Db, next: nat, batch: seq<(string, Content)>, all: Catalogue)
    requires Holds(db, all) && forall v :: v in batch ==> v in all
    ensures Holds(UpsertAll(db, next, batch), all)
    decreases |batch|
  {
    if batch == [] {
    } else {
      assert batch[0] in batch && batch[0] == (batch[0].0, batch[0].1);
      UpsertAllHolds(UpsertOne(db, next, batch[0].0, batch[0].1), next, batch[1..], all);
    }
  }

  lemma {:induction false} DeleteAllHolds(db: Db, next: nat, ids: seq<string>, all: Catalogue)
    requires Holds(db, all)
    ensures Holds(DeleteAll(db, next, ids), all)
    decreases |ids|
  {
    if ids == [] {
    } else {
      DeleteAllHolds(DeleteOne(db, next, ids[0]), next, ids[1..], all);
    }
  }

  lemma {:induction false} HistoryHolds(db: Db, changes: seq<Change>, all: Catalogue)
    requires Holds(db, all) && Offers(changes, all)
    ensures Holds(History(db, changes), all)
    decreases |changes|
  {
    if changes == [] {
    } else {
      match changes[0] {
        case Upserted(batch) => UpsertAllHolds(db, db.version + 1, batch, all);
        case Deleted(ids) => DeleteAllHolds(db, db.version + 1, ids, all);
        case Purged(_) =>
      }
      assert Offers(changes[1..], all);
      HistoryHolds(ApplyChange(db, changes[0]), changes[1..], all);
    }
  }

  lemma PullStaysHonest(w: World, failing: set<string>, limit: nat, all: Catalogue)
    requires Sound(w.db) && SizesTell(all) && Holds(w.db, all) && Honest(w.files, all)
    ensures Honest(AfterPull(w, failing, limit).files, all)
  {
    var files := AfterPull(w, failing, limit).files;
    forall v | v in all ensures !Disguised(files, AsTrack(v)) {
      var name := Name(AsTrack(v));
      assert !Disguised(w.files, AsTrack(v));
      if name in files {
        PullWrites(w, failing, limit, name);
        if Delivered(w.db, name, files[name]) {
          var t :| t in w.db.rows && SafeId(t.id) && Name(t) == name && t.content.bytes == files[name];
          assert (t.id, t.content) in all;
          NamesAreDistinct(t, AsTrack(v));
        }
      }
    }
  }

  /** Every pull is without a limit. */
  ghost predicate Unlimited(events: seq<Event>) {
    forall i :: 0 <= i < |events| && events[i].Pull? ==> events[i].limit == 0
  }

  /** Every change is of one track. */
  ghost predicate Steady(events: seq<Event>) {
    forall i :: 0 <= i < |events| && events[i].Changes? ==> OneByOne(events[i].changes)
  }

  ghost predicate AllOffer(events: seq<Event>, all: Catalogue) {
    forall i :: 0 <= i < |events| && events[i].Changes? ==> Offers(events[i].changes, all)
  }

  lemma HonestIsOrdinary(w: World, failing: set<string>, limit: nat, all: Catalogue)
    requires Sound(w.db) && SizesTell(all) && Holds(w.db, all) && Honest(w.files, all)
    requires limit == 0 || Increasing(w.db.rows)
    ensures Ordinary(w, failing, limit)
  {
    var delta, server := DeltaSince(w.db, w.cursor), Server(w.db, failing);
    forall t | t in w.db.rows ensures Dotless(t.id) && !Disguised(w.files, t) {
      assert (t.id, t.content) in all && !Disguised(w.files, AsTrack((t.id, t.content)));
    }
    WalkSplits(server, limit, delta.tracks, Start(w.files, w.cursor));
    assert forall t :: t in Passed(server, limit, delta.tracks, Start(w.files, w.cursor)) ==> t in delta.tracks;
    if limit == 0 {
      if Saved(AfterPull(w, failing, limit).outcome) {
        NoLimitSkipsNothing(w.files, w.cursor, delta, server);
      }
    } else {
      NewerIsIncreasing(w.db.rows, w.cursor);
      CuttableSkipsNothing(w.files, w.cursor, delta, server, limit);
    }
  }

  /** When sizes tell an id's contents apart, a life is ordinary whose pulls have no
      limit, and one whose server changes a track at a time. */
  lemma {:induction false} LifeIsOrdinary(w: World, events: seq<Event>, lost: set<string>, all: Catalogue)
    requires Keeps(w, lost) && Holds(w.db, all) && Honest(w.files, all)
    requires SizesTell(all) && AllOffer(events, all)
    requires Unlimited(events) || (Increasing(w.db.rows) && Steady(events))
    ensures OrdinaryLife(w, events)
    decreases |events|
  {
    if events == [] {
    } else {
      var rest := events[1..];
      assert forall i :: 0 <= i < |rest| ==> rest[i] == events[i + 1];
      match events[0] {
        case Changes(changes) =>
          ChangesKeep(w, changes, lost);
          HistoryHolds(w.db, changes, all);
          if !Unlimited(events) {
            OneByOneSkipsNothing(w.db, changes);
          }
          LifeIsOrdinary(Next(w, events[0]), rest, lost + PurgedIn(changes), all);
        case Pull(failing, limit) =>
          HonestIsOrdinary(w, failing, limit, all);
          PullKeeps(w, failing, limit, lost);
          PullStaysHonest(w, failing, limit, all);
          LifeIsOrdinary(Next(w, events[0]), rest, lost, all);
      }
    }
  }

  /** From nothing, through any such life of changes and pulls, failures included:
      every live track up to the cursor is mirrored, and every file belongs to a
      live track, to one whose deletion the cursor has not passed, or to one whose
      tombstone was purged. */
  lemma EveryLifeIsMirrored(events: seq<Event>, all: Catalogue)
    requires SizesTell(all) && AllOffer(events, all)
    requires Unlimited(events) || Steady(events)
    ensures Keeps(Life(World(EMPTY, map[], 0), events), AllPurged(events))
  {
    var w := World(EMPTY, map[], 0);
    EmptyIsSound();
    LifeIsOrdinary(w, events, {}, all);
    LifeKeeps(w, events, {});
    assert {} + AllPurged(events) == AllPurged(events);
  }

  // ---- Limited pulls finish ----

  function Repeated(w: World, limit: nat, n: nat): World
    decreases n
  {
    if n == 0 then w else Repeated(Next(w, Pull({}, limit)), limit, n - 1)
  }

  /** Everything is mirrored, and every file is named for a live track: one of an
      older format may still be there. */
  ghost predicate Finished(w: World) {
    && w.cursor == w.db.version
    && (forall t :: t in w.db.rows ==> Mirrored(w.files, t))
    && (forall name :: name in w.files ==> Owned(w.db, name, {}))
  }

  /** A mirror that can be finished: nothing purged, nothing disguised. */
  ghost predicate Ready(w: World) {
    && Keeps(w, {}) && Plain(w.db.rows) && Increasing(w.db.rows)
    && (forall t :: t in w.db.rows ==> SafeId(t.id) && !Disguised(w.files, t))
  }

  lemma {:induction false} NothingFails(server: Server, limit: nat, tracks: seq<Track>, p: Progress)
    requires forall t :: t in tracks ==> SafeId(t.id) && Download(server, t.id).Some?
    ensures var outcome := Walk(server, limit, tracks, p).outcome; outcome.Drained? || outcome.Truncated?
  {
    if tracks != [] && !(limit > 0 && p.downloaded >= limit) {
      NothingFails(server, limit, tracks[1..], Fetch(server, p, tracks[0]).value);
    }
  }

  lemma ReadyPullSaves(w: World, limit: nat)
    requires Ready(w)
    ensures var outcome := AfterPull(w, {}, limit).outcome; outcome.Drained? || outcome.Truncated?
    ensures Ordinary(w, {}, limit)
  {
    var delta, server := DeltaSince(w.db, w.cursor), Server(w.db, {});
    forall t | t in delta.tracks ensures SafeId(t.id) && Download(server, t.id).Some? {
      DownloadIsTheTrack(server, t);
    }
    NothingFails(server, limit, delta.tracks, Start(w.files, w.cursor));
    NewerIsIncreasing(w.db.rows, w.cursor);
    CuttableSkipsNothing(w.files, w.cursor, delta, server, limit);
    WalkSplits(server, limit, delta.tracks, Start(w.files, w.cursor));
    forall t | t in Passed(server, limit, delta.tracks, Start(w.files, w.cursor)) ensures !Disguised(w.files, t) {
      assert t in delta.tracks;
    }
  }

  lemma StaysReady(w: World, limit: nat)
    requires Ready(w)
    ensures Ready(Next(w, Pull({}, limit)))
  {
    var after := AfterPull(w, {}, limit);
    ReadyPullSaves(w, limit);
    PullKeeps(w, {}, limit, {});
    ServerAnswers(w.db, w.cursor);
    forall t | t in w.db.rows ensures !Disguised(after.files, t) {
      PullAt(w.files, w.cursor, DeltaSince(w.db, w.cursor), Server(w.db, {}), limit, t);
    }
  }

  lemma DrainedIsFinished(w: World, limit: nat)
    requires Ready(w) && AfterPull(w, {}, limit).outcome.Drained?
    ensures Finished(Next(w, Pull({}, limit)))
  {
    var after := AfterPull(w, {}, limit);
    StaysReady(w, limit);
    forall name | name in after.files ensures Owned(w.db, name, {}) {
      PulledBelongs(w, {}, limit, {}, name);
    }
  }

  lemma {:induction false} NewerShrinks(rows: seq<Track>, since: nat, later: nat)
    requires since <= later
    ensures |Newer(rows, later)| <= |Newer(rows, since)|
    ensures (exists t :: t in rows && since < t.version <= later) ==> |Newer(rows, later)| < |Newer(rows, since)|
  {
    if rows == [] {
    } else {
      NewerShrinks(rows[1..], since, later);
      assert rows == [rows[0]] + rows[1..];
    }
  }

  /** A truncated pull leaves less for the next. */
  lemma TruncatedIsProgress(w: World, limit: nat)
    requires Ready(w) && AfterPull(w, {}, limit).outcome.Truncated?
    ensures |Newer(w.db.rows, AfterPull(w, {}, limit).cursor)| < |Newer(w.db.rows, w.cursor)|
  {
    var delta, server := DeltaSince(w.db, w.cursor), Server(w.db, {});
    var start := Start(w.files, w.cursor);
    var passed := Passed(server, limit, delta.tracks, start);
    WalkSplits(server, limit, delta.tracks, start);
    OnlyTheLimitCuts(server, limit, delta.tracks, start);
    LimitIsKept(server, limit, delta.tracks, start);
    WalkRaisesCursor(server, limit, delta.tracks, start);
    assert passed[0] in passed && passed[0] in delta.tracks;
    NewerShrinks(w.db.rows, w.cursor, AfterPull(w, {}, limit).cursor);
  }

  lemma {:induction false} NothingNewer(rows: seq<Track>, since: nat)
    requires forall t :: t in rows ==> t.version <= since
    ensures Newer(rows, since) == []
  {
    if rows == [] {
    } else {
      NothingNewer(rows[1..], since);
    }
  }

  lemma FinishedStays(w: World, limit: nat)
    requires Ready(w) && Finished(w)
    ensures Finished(Next(w, Pull({}, limit)))
  {
    NothingNewer(w.db.rows, w.cursor);
    DrainedIsFinished(w, limit);
  }

  /** Pulls with whatever limit, repeated while the server does not change, reach
      the full mirror: in at most one run for each track still to come and one
      more. */
  lemma {:induction false} LimitedPullsFinish(w: World, limit: nat, n: nat)
    requires Ready(w) && (n > |Newer(w.db.rows, w.cursor)| || Finished(w))
    ensures Finished(Repeated(w, limit, n))
    decreases n
  {
    if n == 0 {
    } else {
      StaysReady(w, limit);
      ReadyPullSaves(w, limit);
      if AfterPull(w, {}, limit).outcome.Drained? {
        DrainedIsFinished(w, limit);
      } else if Finished(w) {
        FinishedStays(w, limit);
      } else {
        TruncatedIsProgress(w, limit);
      }
      LimitedPullsFinish(Next(w, Pull({}, limit)), limit, n - 1);
    }
  }

  // ---- A skipped track ----

  /** A live track at or below the cursor whose file is missing stays missing
      through every pull, until the server changes it. */
  lemma {:induction false} SkippedStaysMissing(w: World, pulls: seq<Event>, t: Track)
    requires Sound(w.db) && Plain(w.db.rows) && w.cursor <= w.db.version
    requires forall i :: 0 <= i < |pulls| ==> pulls[i].Pull?
    requires t in w.db.rows && t.version <= w.cursor && !Mirrored(w.files, t)
    ensures Life(w, pulls).db == w.db && !Mirrored(Life(w, pulls).files, t)
    decreases |pulls|
  {
    if pulls == [] {
    } else {
      var delta, server := DeltaSince(w.db, w.cursor), Server(w.db, pulls[0].failing);
      ServerAnswers(w.db, w.cursor);
      CursorNeverGoesBack(w.files, w.cursor, delta, server, pulls[0].limit);
      UpToCursorStays(w.files, w.cursor, delta, server, pulls[0].limit, t);
      SkippedStaysMissing(Next(w, pulls[0]), pulls[1..], t);
    }
  }

  /** It happens: a server that got two tracks in one batch, and a first pull
      limited to one download. No number of later pulls fetches the second. */
  lemma TiedTrackIsNeverMirrored(pulls: seq<Event>)
    requires forall i :: 0 <= i < |pulls| ==> pulls[i].Pull?
    ensures var b := Track("b", BLANK, 1);
      var w := Life(World(EMPTY, map[], 0), [Changes([Upserted([("a", BLANK), ("b", BLANK)])]), Pull({}, 1)]);
      && Sound(w.db) && b in w.db.rows && w.cursor == w.db.version
      && !Mirrored(Life(w, pulls).files, b)
  {
    var change := Upserted([("a", BLANK), ("b", BLANK)]);
    BatchOfTwo();
    HistoryOfOne(EMPTY, change);
    EmptyIsSound();
    HistoryFrom(EMPTY, [change]);
    LifeOfTwo(World(EMPTY, map[], 0), Changes([change]), Pull({}, 1));
    FirstOfTwo();
    var w := Next(World(Db(1, [Track("a", BLANK, 1), Track("b", BLANK, 1)], []), map[], 0), Pull({}, 1));
    SkippedStaysMissing(w, pulls, Track("b", BLANK, 1));
  }

  lemma HistoryOfOne(db: Db, change: Change)
    ensures History(db, [change]) == ApplyChange(db, change)
  {
    var after := ApplyChange(db, change);
    assert [change][1..] == [];
    assert History(after, []) == after;
  }

  lemma LifeOfTwo(w: World, first: Event, second: Event)
    ensures Life(w, [first, second]) == Next(Next(w, first), second)
  {
    var events := [first, second];
    var after := Next(w, first);
    assert events[1..] == [second] && [second][1..] == [];
    assert Life(Next(after, second), []) == Next(after, second);
    assert Life(after, [second]) == Next(after, second);
  }

  lemma BatchOfTwo()
    ensures ApplyChange(EMPTY, Upserted([("a", BLANK), ("b", BLANK)]))
         == Db(1, [Track("a", BLANK, 1), Track("b", BLANK, 1)], [])
  {
    var a, b := Track("a", BLANK, 1), Track("b", BLANK, 1);
    var batch := [("a", BLANK), ("b", BLANK)];
    assert batch[1..] == [("b", BLANK)] && batch[1..][1..] == [];
    var one := Db(0, [a], []);
    assert UpsertOne(EMPTY, 1, "a", BLANK) == one;
    assert "a" != "b" && [a][1..] == [];
    assert Without([a], "b") == [a] + Without([], "b") == [a];
    var two := Db(0, [a, b], []);
    assert !HasRow(one, "b", BLANK);
    assert UpsertOne(one, 1, "b", BLANK) == two;
    assert UpsertAll(two, 1, []) == two;
    assert UpsertAll(one, 1, [("b", BLANK)]) == two;
    assert UpsertAll(EMPTY, 1, batch) == two;
  }

  lemma FirstOfTwo()
    ensures var a, b := Track("a", BLANK, 1), Track("b", BLANK, 1);
      var after := AfterPull(World(Db(1, [a, b], []), map[], 0), {}, 1);
      after.cursor == 1 && !Mirrored(after.files, b) && Plain([a, b])
  {
    var a, b := Track("a", BLANK, 1), Track("b", BLANK, 1);
    var server := Server(Db(1, [a, b], []), {});
    NewerOfTwo(a, b);
    DownloadIsTheTrack(server, a);
    assert "a" != "b" && SafeId("a");
    WalkOfTwo(server, a, b, Start(map[], 0));
    NamesAreDistinct(a, b);
    assert NewerTombs([], 0) == [];
  }

  lemma NewerOfTwo(a: Track, b: Track)
    requires a.version == b.version == 1
    ensures Newer([a, b], 0) == [a, b]
  {
    assert [a, b][1..] == [b] && [b][1..] == [];
    assert Newer([b], 0) == [b] + Newer([], 0);
  }

  /** A limit of one stops behind the first of two. */
  lemma WalkOfTwo(server: Server, a: Track, b: Track, p: Progress)
    requires SafeId(a.id) && Name(a) !in p.files && Download(server, a.id).Some? && p.downloaded == 0
    ensures Fetch(server, p, a).Some?
    ensures Walk(server, 1, [a, b], p) == End(Fetch(server, p, a).value, Truncated, [b])
  {
    var next := Fetch(server, p, a).value;
    assert [a, b][1..] == [b];
    assert Walk(server, 1, [b], next) == End(next, Truncated, [b]);
  }
}
