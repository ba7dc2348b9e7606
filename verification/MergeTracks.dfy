/**
 `merge_tracks`: a delta applied to the app's snapshot in place, through an
 index of positions; and what a run of refreshes holds.
*/
module MergeTracks {
  import opened Wrappers
  import opened Libraries

  // ---- The specification: one update at a time ----

  /** Where the last track with this id stands. */
  function Position(tracks: seq<Track>, id: string): (p: Option<nat>)
    ensures p.Some? ==> p.value < |tracks| && tracks[p.value].id == id
    ensures p.Some? ==> forall j :: p.value < j < |tracks| ==> tracks[j].id != id
    ensures p.None? ==> forall t :: t in tracks ==> t.id != id
  {
    if tracks == [] then None
    else
      var last := |tracks| - 1;
      assert tracks == tracks[..last] + [tracks[last]];
      if tracks[last].id == id then Some(last) else Position(tracks[..last], id)
  }

  function UpdateOne(tracks: seq<Track>, track: Track): seq<Track> {
    match Position(tracks, track.id)
    case Some(i) => tracks[i := track]
    case None => tracks + [track]
  }

  function Updated(tracks: seq<Track>, updates: seq<Track>): seq<Track>
    decreases |updates|
  {
    if updates == [] then tracks else Updated(UpdateOne(tracks, updates[0]), updates[1..])
  }

  function Retained(tracks: seq<Track>, deleted: seq<string>): seq<Track> {
    if tracks == [] then []
    else
      (if tracks[0].id in deleted then [] else [tracks[0]]) + Retained(tracks[1..], deleted)
  }

  function Merged(tracks: seq<Track>, updates: seq<Track>, deleted: seq<string>): seq<Track> {
    Retained(Updated(tracks, updates), deleted)
  }

  // ---- The in-place algorithm ----

  /** `positions` knows where the last track of every id stands. */
  ghost predicate Indexes(positions: map<string, nat>, tracks: seq<Track>) {
    && (forall id :: id in positions ==> Position(tracks, id) == Some(positions[id]))
    && (forall i :: 0 <= i < |tracks| ==> tracks[i].id in positions)
  }

  class Snapshot {
    var version: nat
    var tracks: seq<Track>

    constructor ()
      ensures version == 0 && tracks == []
    {
      version, tracks := 0, [];
    }

    method Index() returns (positions: map<string, nat>)
      ensures Indexes(positions, tracks)
    {
      positions := map[];
      for i := 0 to |tracks|
        invariant Indexes(positions, tracks[..i])
      {
        IndexNext(positions, tracks, i);
        positions := positions[tracks[i].id := i];
      }
      assert tracks[..|tracks|] == tracks;
    }

    method Merge(updates: seq<Track>, deleted: seq<string>)
      modifies this`tracks
      ensures tracks == Merged(old(tracks), updates, deleted)
    {
      var positions: map<string, nat> := Index();
      for k := 0 to |updates|
        invariant Indexes(positions, tracks)
        invariant Updated(tracks, updates[k..]) == Updated(old(tracks), updates)
      {
        var track := updates[k];
        assert updates[k..][0] == track && updates[k..][1..] == updates[k + 1..];
        FoundIsPosition(positions, tracks, track.id);
        if track.id in positions {
          var index := positions[track.id];
          IndexReplaced(positions, tracks, index, track);
          tracks := tracks[index := track];
        } else {
          IndexLast(positions, tracks, track);
          positions := positions[track.id := |tracks|];
          tracks := tracks + [track];
        }
      }
      if deleted != [] {
        tracks := Retain(tracks, deleted);
      } else {
        NothingDeleted(tracks);
      }
    }

    /** Applies what the server changed since this snapshot's version. */
    method Refresh(db: Db)
      modifies this
      ensures version == db.version
      ensures var delta := DeltaSince(db, old(version));
        tracks == Merged(old(tracks), delta.tracks, delta.deleted)
    {
      var delta := DeltaSince(db, version);
      Merge(delta.tracks, delta.deleted);
      version := delta.version;
    }
  }

  method Retain(tracks: seq<Track>, deleted: seq<string>) returns (kept: seq<Track>)
    ensures kept == Retained(tracks, deleted)
  {
    kept := [];
    for i := 0 to |tracks|
      invariant kept + Retained(tracks[i..], deleted) == Retained(tracks, deleted)
    {
      RetainedStep(tracks, i, deleted, kept);
      if tracks[i].id !in deleted {
        kept := kept + [tracks[i]];
      }
    }
  }

  lemma RetainedStep(tracks: seq<Track>, i: nat, deleted: seq<string>, kept: seq<Track>)
    requires i < |tracks|
    ensures kept + Retained(tracks[i..], deleted)
         == (if tracks[i].id in deleted then kept else kept + [tracks[i]]) + Retained(tracks[i + 1..], deleted)
  {
    var rest := tracks[i..];
    assert rest[0] == tracks[i] && rest[1..] == tracks[i + 1..];
  }

  lemma {:induction false} NothingDeleted(tracks: seq<Track>)
    ensures Retained(tracks, []) == tracks
  {
    if tracks == [] {
    } else {
      NothingDeleted(tracks[1..]);
    }
  }

  lemma PositionIs(tracks: seq<Track>, id: string, i: nat)
    requires i < |tracks| && tracks[i].id == id && forall j :: i < j < |tracks| ==> tracks[j].id != id
    ensures Position(tracks, id) == Some(i)
  {
    assert tracks[i] in tracks;
  }

  lemma FoundIsPosition(positions: map<string, nat>, tracks: seq<Track>, id: string)
    requires Indexes(positions, tracks)
    ensures Position(tracks, id) == if id in positions then Some(positions[id]) else None
  {
  }

  lemma IndexLast(positions: map<string, nat>, tracks: seq<Track>, track: Track)
    requires Indexes(positions, tracks)
    ensures Indexes(positions[track.id := |tracks|], tracks + [track])
  {
    var more := tracks + [track];
    PositionIs(more, track.id, |tracks|);
    forall id | id in positions && id != track.id ensures Position(more, id) == Some(positions[id]) {
      PositionIs(more, id, positions[id]);
    }
  }

  lemma IndexNext(positions: map<string, nat>, tracks: seq<Track>, i: nat)
    requires i < |tracks| && Indexes(positions, tracks[..i])
    ensures Indexes(positions[tracks[i].id := i], tracks[..i + 1])
  {
    IndexLast(positions, tracks[..i], tracks[i]);
    assert tracks[..i + 1] == tracks[..i] + [tracks[i]];
  }

  lemma IndexReplaced(positions: map<string, nat>, tracks: seq<Track>, i: nat, track: Track)
    requires Indexes(positions, tracks) && track.id in positions && positions[track.id] == i
    ensures i < |tracks| && Indexes(positions, tracks[i := track])
  {
    forall id | id in positions ensures Position(tracks[i := track], id) == Some(positions[id]) {
      PositionIs(tracks[i := track], id, positions[id]);
    }
  }

  // ---- What a merge means ----

  /** The track with this id; the last one counts. */
  function Find(tracks: seq<Track>, id: string): (t: Option<Track>) {
    if tracks == [] then None
    else if tracks[|tracks| - 1].id == id then Some(tracks[|tracks| - 1])
    else Find(tracks[..|tracks| - 1], id)
  }

  function Over<T>(upper: Option<T>, lower: Option<T>): Option<T> {
    if upper.Some? then upper else lower
  }

  lemma {:induction false} FindFinds(tracks: seq<Track>, id: string)
    ensures match Find(tracks, id)
      case Some(t) => t in tracks && t.id == id
      case None => forall t :: t in tracks ==> t.id != id
  {
    if tracks == [] {
    } else {
      var last := |tracks| - 1;
      FindFinds(tracks[..last], id);
      assert tracks == tracks[..last] + [tracks[last]];
    }
  }

  lemma {:induction false} FindConcat(a: seq<Track>, b: seq<Track>, id: string)
    ensures Find(a + b, id) == Over(Find(b, id), Find(a, id))
    decreases |b|
  {
    if b == [] {
      assert a + b == a;
    } else {
      var last := |b| - 1;
      assert (a + b)[..|a + b| - 1] == a + b[..last] && (a + b)[|a + b| - 1] == b[last];
      FindConcat(a, b[..last], id);
    }
  }

  lemma FindOne(t: Track, id: string)
    ensures Find([t], id) == if t.id == id then Some(t) else None
  {
    assert [t][..0] == [];
  }

  lemma {:induction false} FindUpdateOne(tracks: seq<Track>, track: Track, id: string)
    ensures Find(UpdateOne(tracks, track), id) == if id == track.id then Some(track) else Find(tracks, id)
  {
    FindOne(track, id);
    match Position(tracks, track.id)
    case None => FindConcat(tracks, [track], id);
    case Some(i) =>
      var last := |tracks| - 1;
      var front := tracks[..last];
      assert tracks == front + [tracks[last]];
      if i == last {
        assert tracks[i := track] == front + [track];
        FindConcat(front, [track], id);
      } else {
        PositionIs(front, track.id, i);
        assert tracks[i := track] == front[i := track] + [tracks[last]];
        FindUpdateOne(front, track, id);
        FindOne(tracks[last], id);
        FindConcat(front[i := track], [tracks[last]], id);
      }
  }

  lemma {:induction false} FindUpdated(tracks: seq<Track>, updates: seq<Track>, id: string)
    ensures Find(Updated(tracks, updates), id) == Over(Find(updates, id), Find(tracks, id))
    decreases |updates|
  {
    if updates == [] {
    } else {
      var first, rest := updates[0], updates[1..];
      FindUpdateOne(tracks, first, id);
      FindUpdated(UpdateOne(tracks, first), rest, id);
      assert updates == [first] + rest;
      FindConcat([first], rest, id);
      FindOne(first, id);
    }
  }

  lemma {:induction false} FindRetained(tracks: seq<Track>, deleted: seq<string>, id: string)
    ensures Find(Retained(tracks, deleted), id) == if id in deleted then None else Find(tracks, id)
  {
    if tracks == [] {
    } else {
      var first, rest := tracks[0], tracks[1..];
      FindRetained(rest, deleted, id);
      RetainedCons(tracks, deleted);
      assert tracks == [first] + rest;
      FindCons(first, rest, id);
      FindCons(first, Retained(rest, deleted), id);
    }
  }

  lemma RetainedCons(tracks: seq<Track>, deleted: seq<string>)
    requires tracks != []
    ensures var kept := Retained(tracks[1..], deleted);
      Retained(tracks, deleted) == if tracks[0].id in deleted then kept else [tracks[0]] + kept
  {
  }

  lemma FindCons(first: Track, rest: seq<Track>, id: string)
    ensures Find([first] + rest, id) == Over(Find(rest, id), if first.id == id then Some(first) else None)
    ensures ([first] + rest)[0] == first && ([first] + rest)[1..] == rest
  {
    FindConcat([first], rest, id);
    FindOne(first, id);
  }

  /** By id, a merge is the map update: the updates over the old tracks (the
      last of an id wins), less the deletions. */
  lemma {:induction false} MergeIsMapUpdate(tracks: seq<Track>, updates: seq<Track>, deleted: seq<string>, id: string)
    ensures Find(Merged(tracks, updates, deleted), id)
         == if id in deleted then None else Over(Find(updates, id), Find(tracks, id))
  {
    FindUpdated(tracks, updates, id);
    FindRetained(Updated(tracks, updates), deleted, id);
  }

  // ---- Order ----

  function Ids(tracks: seq<Track>): seq<string> {
    if tracks == [] then [] else [tracks[0].id] + Ids(tracks[1..])
  }

  /** `ids` with those of `more` that are new, each where it first occurs. */
  function Appended(ids: seq<string>, more: seq<string>): seq<string>
    decreases |more|
  {
    if more == [] then ids else Appended(if more[0] in ids then ids else ids + [more[0]], more[1..])
  }

  function Kept(ids: seq<string>, deleted: seq<string>): seq<string> {
    if ids == [] then [] else (if ids[0] in deleted then [] else [ids[0]]) + Kept(ids[1..], deleted)
  }

  lemma {:induction false} IdsAt(tracks: seq<Track>)
    ensures |Ids(tracks)| == |tracks| && forall i :: 0 <= i < |tracks| ==> Ids(tracks)[i] == tracks[i].id
  {
    if tracks == [] {
    } else {
      IdsAt(tracks[1..]);
    }
  }

  lemma IdsOfUpdateOne(tracks: seq<Track>, track: Track)
    ensures Ids(UpdateOne(tracks, track)) == Appended(Ids(tracks), [track.id])
  {
    var after := UpdateOne(tracks, track);
    IdsAt(tracks);
    IdsAt(after);
    assert [track.id][1..] == [];
    match Position(tracks, track.id)
    case Some(i) =>
      assert Ids(tracks)[i] == track.id;
      assert Ids(after) == Ids(tracks);
    case None =>
      assert Ids(after) == Ids(tracks) + [track.id];
  }

  lemma {:induction false} IdsOfUpdated(tracks: seq<Track>, updates: seq<Track>)
    ensures Ids(Updated(tracks, updates)) == Appended(Ids(tracks), Ids(updates))
    decreases |updates|
  {
    if updates == [] {
    } else {
      IdsOfUpdateOne(tracks, updates[0]);
      IdsOfUpdated(UpdateOne(tracks, updates[0]), updates[1..]);
      assert [updates[0].id][1..] == [];
      assert Ids(updates)[0] == updates[0].id && Ids(updates)[1..] == Ids(updates[1..]);
    }
  }

  lemma {:induction false} IdsOfRetained(tracks: seq<Track>, deleted: seq<string>)
    ensures Ids(Retained(tracks, deleted)) == Kept(Ids(tracks), deleted)
  {
    if tracks == [] {
    } else {
      var first, rest := tracks[0], tracks[1..];
      IdsOfRetained(rest, deleted);
      IdsCons(first, rest);
      IdsCons(first, Retained(rest, deleted));
      assert Ids(tracks)[0] == first.id && Ids(tracks)[1..] == Ids(rest);
      assert [] + Retained(rest, deleted) == Retained(rest, deleted);
      assert [] + Kept(Ids(rest), deleted) == Kept(Ids(rest), deleted);
    }
  }

  lemma IdsCons(first: Track, rest: seq<Track>)
    ensures Ids([first] + rest) == [first.id] + Ids(rest)
  {
    assert ([first] + rest)[1..] == rest;
  }

  /** Survivors keep their order; new ids follow in the order they first
      occur. */
  lemma MergeKeepsOrder(tracks: seq<Track>, updates: seq<Track>, deleted: seq<string>)
    ensures Ids(Merged(tracks, updates, deleted)) == Kept(Appended(Ids(tracks), Ids(updates)), deleted)
  {
    IdsOfUpdated(tracks, updates);
    IdsOfRetained(Updated(tracks, updates), deleted);
  }
}
