/**
 The server's library and its delta sync. Rows carry the version at which they
 last changed; a batch of changes gets one version; a deletion leaves a
 tombstone. `Delta` is what a client asks for since the version it has.
*/
module Libraries {

  type Bytes = seq<nat>

  /** A track's format, everything else the server knows of it, and its file. */
  datatype Content = Content(format: string, info: string, bytes: Bytes)

  datatype Track = Track(id: string, content: Content, version: nat)

  datatype Tombstone = Tombstone(id: string, version: nat)

  /** `rows` in the order a sync lists them: by version. */
  datatype Db = Db(version: nat, rows: seq<Track>, tombs: seq<Tombstone>)

  datatype Delta = Delta(version: nat, tracks: seq<Track>, deleted: seq<string>)

  const EMPTY := Db(0, [], [])

  function Without(rows: seq<Track>, id: string): (r: seq<Track>)
    ensures forall t :: t in r <==> t in rows && t.id != id
  {
    if rows == [] then []
    else
      assert rows == [rows[0]] + rows[1..];
      (if rows[0].id == id then [] else [rows[0]]) + Without(rows[1..], id)
  }

  function WithoutTomb(tombs: seq<Tombstone>, id: string): (r: seq<Tombstone>)
    ensures forall t :: t in r <==> t in tombs && t.id != id
  {
    if tombs == [] then []
    else
      assert tombs == [tombs[0]] + tombs[1..];
      (if tombs[0].id == id then [] else [tombs[0]]) + WithoutTomb(tombs[1..], id)
  }

  /** The rows changed since `since`, in their order. */
  function Newer(rows: seq<Track>, since: nat): (r: seq<Track>)
    ensures forall t :: t in r <==> t in rows && t.version > since
  {
    if rows == [] then []
    else
      assert rows == [rows[0]] + rows[1..];
      (if rows[0].version > since then [rows[0]] else []) + Newer(rows[1..], since)
  }

  function NewerTombs(tombs: seq<Tombstone>, since: nat): (r: seq<string>)
    ensures forall id :: id in r <==> exists t :: t in tombs && t.id == id && t.version > since
  {
    if tombs == [] then []
    else
      assert tombs == [tombs[0]] + tombs[1..];
      (if tombs[0].version > since then [tombs[0].id] else []) + NewerTombs(tombs[1..], since)
  }

  function DeltaSince(db: Db, since: nat): Delta {
    Delta(db.version, Newer(db.rows, since), NewerTombs(db.tombs, since))
  }

  predicate HasRow(db: Db, id: string, content: Content) {
    exists t :: t in db.rows && t.id == id && t.content == content
  }

  predicate Live(db: Db, id: string) {
    exists t :: t in db.rows && t.id == id
  }

  /** One upsert of a batch: a row that does not change keeps its version. */
  function UpsertOne(db: Db, next: nat, id: string, content: Content): Db {
    if HasRow(db, id, content) then db
    else db.(rows := Without(db.rows, id) + [Track(id, content, next)], tombs := WithoutTomb(db.tombs, id))
  }

  function UpsertAll(db: Db, next: nat, batch: seq<(string, Content)>): Db
    decreases |batch|
  {
    if batch == [] then db else UpsertAll(UpsertOne(db, next, batch[0].0, batch[0].1), next, batch[1..])
  }

  /** A whole batch changes at one version, if it changes anything. */
  function Upsert(db: Db, batch: seq<(string, Content)>): Db {
    var after := UpsertAll(db, db.version + 1, batch);
    if after == db then db else after.(version := db.version + 1)
  }

  function DeleteOne(db: Db, next: nat, id: string): Db {
    if Live(db, id)
    then db.(rows := Without(db.rows, id), tombs := WithoutTomb(db.tombs, id) + [Tombstone(id, next)])
    else db
  }

  function DeleteAll(db: Db, next: nat, ids: seq<string>): Db
    decreases |ids|
  {
    if ids == [] then db else DeleteAll(DeleteOne(db, next, ids[0]), next, ids[1..])
  }

  function Delete(db: Db, ids: seq<string>): Db {
    var after := DeleteAll(db, db.version + 1, ids);
    if after == db then db else after.(version := db.version + 1)
  }

  /** Old tombstones are dropped: those of `ids`. */
  function PurgeAll(tombs: seq<Tombstone>, ids: set<string>): (r: seq<Tombstone>)
    ensures forall t :: t in r <==> t in tombs && t.id !in ids
  {
    if tombs == [] then []
    else
      assert tombs == [tombs[0]] + tombs[1..];
      (if tombs[0].id in ids then [] else [tombs[0]]) + PurgeAll(tombs[1..], ids)
  }

  datatype Change =
    | Upserted(batch: seq<(string, Content)>)
    | Deleted(ids: seq<string>)
    | Purged(gone: set<string>)

  function ApplyChange(db: Db, change: Change): Db {
    match change
    case Upserted(batch) => Upsert(db, batch)
    case Deleted(ids) => Delete(db, ids)
    case Purged(gone) => db.(tombs := PurgeAll(db.tombs, gone))
  }

  function History(db: Db, changes: seq<Change>): Db
    decreases |changes|
  {
    if changes == [] then db else History(ApplyChange(db, changes[0]), changes[1..])
  }

  // ---- What the store keeps ----

  ghost predicate UniqueIds(rows: seq<Track>) {
    forall i, j :: 0 <= i < j < |rows| ==> rows[i].id != rows[j].id
  }

  ghost predicate InOrder(rows: seq<Track>) {
    forall i, j :: 0 <= i < j < |rows| ==> rows[i].version <= rows[j].version
  }

  /** Sound up to version `top`: nothing newer, nothing both live and deleted. */
  ghost predicate SoundAt(db: Db, top: nat) {
    && UniqueIds(db.rows) && InOrder(db.rows)
    && (forall t :: t in db.rows ==> 0 < t.version <= top)
    && (forall t :: t in db.tombs ==> t.version <= top)
    && (forall t, d :: t in db.rows && d in db.tombs ==> t.id != d.id)
  }

  ghost predicate Sound(db: Db) {
    SoundAt(db, db.version)
  }

  /** `now` after `before`: rows not newer than `v` are `before`'s own, and what
      is gone has a tombstone newer than `v`, unless it was purged (`lost`). */
  ghost predicate Since(before: Db, now: Db, v: nat, lost: set<string>) {
    && (forall t :: t in now.rows && t.version <= v ==> t in before.rows)
    && (forall t :: t in before.rows && !Live(now, t.id) ==> t.id in lost || Buried(now, t.id, v))
  }

  ghost predicate Buried(db: Db, id: string, v: nat) {
    exists d :: d in db.tombs && d.id == id && d.version > v
  }

  lemma {:induction false} WithoutKeeps(rows: seq<Track>, id: string)
    requires UniqueIds(rows) && InOrder(rows)
    ensures UniqueIds(Without(rows, id)) && InOrder(Without(rows, id))
  {
    if rows == [] {
    } else {
      WithoutKeeps(rows[1..], id);
      forall t | t in Without(rows[1..], id) ensures t.id != rows[0].id && rows[0].version <= t.version {
        Behind(rows, t);
      }
      Prepend(rows[0], Without(rows[1..], id));
    }
  }

  lemma Behind(rows: seq<Track>, t: Track)
    requires UniqueIds(rows) && InOrder(rows) && rows != [] && t in rows[1..]
    ensures t.id != rows[0].id && rows[0].version <= t.version
  {
  }

  lemma Prepend(t: Track, rows: seq<Track>)
    requires UniqueIds(rows) && InOrder(rows)
    requires forall r :: r in rows ==> r.id != t.id && t.version <= r.version
    ensures UniqueIds([t] + rows) && InOrder([t] + rows)
  {
  }

  lemma UpsertOneKeeps(db: Db, next: nat, id: string, content: Content, before: Db, v: nat, lost: set<string>)
    requires SoundAt(db, next) && v < next && Since(before, db, v, lost)
    ensures SoundAt(UpsertOne(db, next, id, content), next)
    ensures Since(before, UpsertOne(db, next, id, content), v, lost)
  {
    var now := UpsertOne(db, next, id, content);
    if now != db {
      WithoutKeeps(db.rows, id);
      forall t | t in before.rows && !Live(now, t.id) ensures t.id in lost || Buried(now, t.id, v) {
        StillBuried(db, now, t.id, id, Track(id, content, next), v);
      }
    }
  }

  /** Upserting `id` unburies nothing else. */
  lemma StillBuried(db: Db, now: Db, gone: string, id: string, row: Track, v: nat)
    requires row.id == id && now.rows == Without(db.rows, id) + [row] && now.tombs == WithoutTomb(db.tombs, id)
    requires !Live(now, gone)
    ensures !Live(db, gone) && (Buried(db, gone, v) ==> Buried(now, gone, v))
  {
    assert row in now.rows;
    assert gone != id;
  }

  lemma DeleteOneKeeps(db: Db, next: nat, id: string, before: Db, v: nat, lost: set<string>)
    requires SoundAt(db, next) && v < next && Since(before, db, v, lost)
    ensures SoundAt(DeleteOne(db, next, id), next)
    ensures Since(before, DeleteOne(db, next, id), v, lost)
  {
    var now := DeleteOne(db, next, id);
    if Live(db, id) {
      WithoutKeeps(db.rows, id);
      forall t | t in before.rows && !Live(now, t.id) ensures t.id in lost || Buried(now, t.id, v) {
        if t.id == id {
          assert Tombstone(id, next) in now.tombs;
        } else {
          if Buried(db, t.id, v) {
            var d :| d in db.tombs && d.id == t.id && d.version > v;
            assert d in now.tombs;
          }
        }
      }
    }
  }

  lemma {:induction false} UpsertAllKeeps(db: Db, next: nat, batch: seq<(string, Content)>, before: Db, v: nat, lost: set<string>)
    requires SoundAt(db, next) && v < next && Since(before, db, v, lost)
    ensures SoundAt(UpsertAll(db, next, batch), next) && Since(before, UpsertAll(db, next, batch), v, lost)
    decreases |batch|
  {
    if batch == [] {
    } else {
      UpsertOneKeeps(db, next, batch[0].0, batch[0].1, before, v, lost);
      UpsertAllKeeps(UpsertOne(db, next, batch[0].0, batch[0].1), next, batch[1..], before, v, lost);
    }
  }

  lemma {:induction false} DeleteAllKeeps(db: Db, next: nat, ids: seq<string>, before: Db, v: nat, lost: set<string>)
    requires SoundAt(db, next) && v < next && Since(before, db, v, lost)
    ensures SoundAt(DeleteAll(db, next, ids), next) && Since(before, DeleteAll(db, next, ids), v, lost)
    decreases |ids|
  {
    if ids == [] {
    } else {
      DeleteOneKeeps(db, next, ids[0], before, v, lost);
      DeleteAllKeeps(DeleteOne(db, next, ids[0]), next, ids[1..], before, v, lost);
    }
  }

  /** The tombstones a run of changes purges. */
  function PurgedIn(changes: seq<Change>): set<string> {
    if changes == [] then {}
    else (if changes[0].Purged? then changes[0].gone else {}) + PurgedIn(changes[1..])
  }

  lemma ChangeKeeps(db: Db, change: Change, before: Db, v: nat, lost: set<string>)
    requires Sound(db) && v <= db.version && Since(before, db, v, lost)
    ensures Sound(ApplyChange(db, change)) && v <= ApplyChange(db, change).version
    ensures Since(before, ApplyChange(db, change), v, lost + PurgedIn([change]))
  {
    PurgedInOne(change, lost);
    match change
    case Upserted(batch) => UpsertAllKeeps(db, db.version + 1, batch, before, v, lost);
    case Deleted(ids) => DeleteAllKeeps(db, db.version + 1, ids, before, v, lost);
    case Purged(gone) => PurgeKeeps(db, gone, before, v, lost);
  }

  lemma PurgedInOne(change: Change, lost: set<string>)
    ensures lost + PurgedIn([change]) == lost + if change.Purged? then change.gone else {}
  {
    assert PurgedIn([change][1..]) == {};
  }

  lemma PurgeKeeps(db: Db, gone: set<string>, before: Db, v: nat, lost: set<string>)
    requires Sound(db) && Since(before, db, v, lost)
    ensures Sound(ApplyChange(db, Purged(gone))) && Since(before, ApplyChange(db, Purged(gone)), v, lost + gone)
  {
    var now := ApplyChange(db, Purged(gone));
    forall t | t in before.rows && !Live(now, t.id) && t.id !in lost + gone ensures Buried(now, t.id, v) {
      assert !Live(db, t.id);
      var d :| d in db.tombs && d.id == t.id && d.version > v;
      assert d in now.tombs;
    }
  }

  /** Whatever the server does after `before`, it stays sound, and everything
      that changed can be told from the version `before` had, except for
      deletions whose tombstones were purged. */
  lemma {:induction false} HistoryKeeps(db: Db, changes: seq<Change>, before: Db, v: nat, lost: set<string>)
    requires Sound(db) && v <= db.version && Since(before, db, v, lost)
    ensures Sound(History(db, changes)) && v <= History(db, changes).version
    ensures Since(before, History(db, changes), v, lost + PurgedIn(changes))
    decreases |changes|
  {
    if changes == [] {
      assert lost + PurgedIn(changes) == lost;
    } else {
      ChangeKeeps(db, changes[0], before, v, lost);
      HistoryKeeps(ApplyChange(db, changes[0]), changes[1..], before, v, lost + PurgedIn([changes[0]]));
      assert PurgedIn([changes[0]]) + PurgedIn(changes[1..]) == PurgedIn(changes);
      assert lost + PurgedIn([changes[0]]) + PurgedIn(changes[1..]) == lost + PurgedIn(changes);
    }
  }

  lemma EmptyIsSound()
    ensures Sound(EMPTY)
  {
  }
  // ---- What the store holds ----

  /** The contents by id. */
  type Shelf = map<string, Content>

  ghost predicate Holds(db: Db, shelf: Shelf) {
    forall id, content :: HasRow(db, id, content) <==> id in shelf && shelf[id] == content
  }

  /** The content last given for each id of a batch takes the place of any other. */
  function PutAll(shelf: Shelf, batch: seq<(string, Content)>): Shelf {
    if batch == [] then shelf
    else PutAll(shelf, batch[..|batch| - 1])[batch[|batch| - 1].0 := batch[|batch| - 1].1]
  }

  function Changed(shelf: Shelf, change: Change): Shelf {
    match change
    case Upserted(batch) => PutAll(shelf, batch)
    case Deleted(ids) => map id | id in shelf && id !in ids :: shelf[id]
    case Purged(_) => shelf
  }

  function AllChanged(shelf: Shelf, changes: seq<Change>): Shelf
    decreases |changes|
  {
    if changes == [] then shelf else AllChanged(Changed(shelf, changes[0]), changes[1..])
  }

  lemma UpsertOneStores(db: Db, next: nat, id: string, content: Content, shelf: Shelf)
    requires Holds(db, shelf)
    ensures Holds(UpsertOne(db, next, id, content), shelf[id := content])
  {
    var now := UpsertOne(db, next, id, content);
    if now == db {
      assert HasRow(db, id, content);
    }
    forall i, c ensures HasRow(now, i, c) <==> i in shelf[id := content] && shelf[id := content][i] == c {
      if !HasRow(db, id, content) {
        RowsAfter(db, now, Track(id, content, next), i, c);
      }
    }
  }

  lemma RowsAfter(db: Db, now: Db, row: Track, id: string, content: Content)
    requires now.rows == Without(db.rows, row.id) + [row]
    ensures HasRow(now, id, content) <==> if id == row.id then content == row.content else HasRow(db, id, content)
  {
    assert row in now.rows;
    if t :| t in db.rows && t.id == id && t.content == content && id != row.id {
      assert t in now.rows;
    }
  }

  lemma {:induction false} UpsertAllStores(db: Db, next: nat, batch: seq<(string, Content)>, shelf: Shelf)
    requires Holds(db, shelf)
    ensures Holds(UpsertAll(db, next, batch), PutAll(shelf, batch))
    decreases |batch|
  {
    if batch == [] {
    } else {
      var first, rest := batch[0], batch[1..];
      UpsertOneStores(db, next, first.0, first.1, shelf);
      UpsertAllStores(UpsertOne(db, next, first.0, first.1), next, rest, shelf[first.0 := first.1]);
      PutFirst(shelf, batch);
    }
  }

  lemma {:induction false} PutFirst(shelf: Shelf, batch: seq<(string, Content)>)
    requires batch != []
    ensures PutAll(shelf, batch) == PutAll(shelf[batch[0].0 := batch[0].1], batch[1..])
    decreases |batch|
  {
    if |batch| == 1 {
      assert batch[..0] == [];
    } else {
      assert batch[1..][..|batch| - 2] == batch[..|batch| - 1][1..];
      PutFirst(shelf, batch[..|batch| - 1]);
    }
  }

  lemma DeleteOneTakes(db: Db, next: nat, id: string, shelf: Shelf)
    requires Holds(db, shelf)
    ensures Holds(DeleteOne(db, next, id), shelf - {id})
  {
    var now := DeleteOne(db, next, id);
    if id in shelf {
      assert HasRow(db, id, shelf[id]);
    }
    forall i, c ensures HasRow(now, i, c) <==> i in shelf - {id} && (shelf - {id})[i] == c {
      if Live(db, id) {
        RowsWithout(db, now, id, i, c);
      }
    }
  }

  lemma RowsWithout(db: Db, now: Db, gone: string, id: string, content: Content)
    requires now.rows == Without(db.rows, gone)
    ensures HasRow(now, id, content) <==> id != gone && HasRow(db, id, content)
  {
    if t :| t in db.rows && t.id == id && t.content == content && id != gone {
      assert t in now.rows;
    }
  }

  lemma {:induction false} DeleteAllTakes(db: Db, next: nat, ids: seq<string>, shelf: Shelf)
    requires Holds(db, shelf)
    ensures Holds(DeleteAll(db, next, ids), map id | id in shelf && id !in ids :: shelf[id])
    decreases |ids|
  {
    if ids == [] {
      assert (map id | id in shelf && id !in ids :: shelf[id]) == shelf;
    } else {
      DeleteOneTakes(db, next, ids[0], shelf);
      DeleteAllTakes(DeleteOne(db, next, ids[0]), next, ids[1..], shelf - {ids[0]});
      var less := shelf - {ids[0]};
      assert (map id | id in less && id !in ids[1..] :: less[id]) == map id | id in shelf && id !in ids :: shelf[id];
    }
  }

  /** The store holds exactly what it was last given and not told to delete, through any
      history; purging tombstones takes nothing from it. */
  lemma {:induction false} HistoryStores(db: Db, changes: seq<Change>, shelf: Shelf)
    requires Holds(db, shelf)
    ensures Holds(History(db, changes), AllChanged(shelf, changes))
    decreases |changes|
  {
    if changes == [] {
    } else {
      ChangeStores(db, changes[0], shelf);
      HistoryStores(ApplyChange(db, changes[0]), changes[1..], Changed(shelf, changes[0]));
    }
  }

  lemma ChangeStores(db: Db, change: Change, shelf: Shelf)
    requires Holds(db, shelf)
    ensures Holds(ApplyChange(db, change), Changed(shelf, change))
  {
    match change
    case Upserted(batch) =>
      UpsertAllStores(db, db.version + 1, batch, shelf);
      SameRows(UpsertAll(db, db.version + 1, batch), ApplyChange(db, change), Changed(shelf, change));
    case Deleted(ids) =>
      DeleteAllTakes(db, db.version + 1, ids, shelf);
      SameRows(DeleteAll(db, db.version + 1, ids), ApplyChange(db, change), Changed(shelf, change));
    case Purged(_) =>
      SameRows(db, ApplyChange(db, change), shelf);
  }

  lemma SameRows(db: Db, now: Db, shelf: Shelf)
    requires Holds(db, shelf) && now.rows == db.rows
    ensures Holds(now, shelf)
  {
    forall id, content ensures HasRow(now, id, content) == HasRow(db, id, content) {
    }
  }

  /** Giving what is there already changes nothing and costs no version. */
  lemma {:induction false} UnchangedCostsNothing(db: Db, batch: seq<(string, Content)>)
    requires forall i :: 0 <= i < |batch| ==> HasRow(db, batch[i].0, batch[i].1)
    ensures UpsertAll(db, db.version + 1, batch) == db == Upsert(db, batch)
    decreases |batch|
  {
    if batch != [] {
      UnchangedCostsNothing(db, batch[1..]);
    }
  }
}
