/**
 What a merge keeps, and what a snapshot that is refreshed from time to time
 holds: the server's library, whatever happened to it in between.
*/
module Refreshes {
  import opened Wrappers
  import opened Libraries
  import opened MergeTracks

  // ---- Unique ids ----

  ghost predicate Distinct(ids: seq<string>) {
    forall i, j :: 0 <= i < j < |ids| ==> ids[i] != ids[j]
  }

  lemma {:induction false} AppendedIsDistinct(ids: seq<string>, more: seq<string>)
    requires Distinct(ids)
    ensures Distinct(Appended(ids, more))
    decreases |more|
  {
    if more == [] {
    } else {
      AppendedIsDistinct(if more[0] in ids then ids else ids + [more[0]], more[1..]);
    }
  }

  /** Exactly the ids that are not deleted are kept. */
  lemma {:induction false} KeptHas(ids: seq<string>, deleted: seq<string>, id: string)
    ensures id in Kept(ids, deleted) <==> id in ids && id !in deleted
  {
    if ids == [] {
    } else {
      KeptHas(ids[1..], deleted, id);
      assert ids == [ids[0]] + ids[1..];
    }
  }

  lemma {:induction false} KeptIsDistinct(ids: seq<string>, deleted: seq<string>)
    requires Distinct(ids)
    ensures Distinct(Kept(ids, deleted))
  {
    if ids == [] {
    } else {
      var rest := Kept(ids[1..], deleted);
      KeptIsDistinct(ids[1..], deleted);
      KeptHas(ids[1..], deleted, ids[0]);
      assert Kept(ids, deleted) == (if ids[0] in deleted then rest else [ids[0]] + rest);
    }
  }

  /** A merge never makes two tracks of one id. */
  lemma MergeKeepsIdsUnique(tracks: seq<Track>, updates: seq<Track>, deleted: seq<string>)
    requires UniqueIds(tracks)
    ensures UniqueIds(Merged(tracks, updates, deleted))
  {
    UniqueIsDistinct(tracks);
    AppendedIsDistinct(Ids(tracks), Ids(updates));
    KeptIsDistinct(Appended(Ids(tracks), Ids(updates)), deleted);
    MergeKeepsOrder(tracks, updates, deleted);
    UniqueIsDistinct(Merged(tracks, updates, deleted));
  }

  lemma UniqueIsDistinct(tracks: seq<Track>)
    ensures UniqueIds(tracks) <==> Distinct(Ids(tracks))
  {
    IdsAt(tracks);
  }

  // ---- Lists are their ids and what each id finds ----

  lemma FindUnique(tracks: seq<Track>, t: Track)
    requires UniqueIds(tracks) && t in tracks
    ensures Find(tracks, t.id) == Some(t)
  {
    FindFinds(tracks, t.id);
  }

  lemma ListIsItsMap(a: seq<Track>, b: seq<Track>)
    requires UniqueIds(a) && Ids(a) == Ids(b)
    requires forall id :: Find(a, id) == Find(b, id)
    ensures a == b
  {
    IdsAt(a);
    IdsAt(b);
    UniqueIsDistinct(a);
    UniqueIsDistinct(b);
    forall i | 0 <= i < |a| ensures a[i] == b[i] {
      assert Ids(a)[i] == Ids(b)[i];
      FindUnique(a, a[i]);
      FindUnique(b, b[i]);
    }
  }

  // ---- Merging twice ----

  lemma {:induction false} NothingNew(ids: seq<string>, more: seq<string>, deleted: seq<string>)
    requires forall id :: id in more ==> id in ids || id in deleted
    ensures Kept(Appended(ids, more), deleted) == Kept(ids, deleted)
    decreases |more|
  {
    if more == [] {
    } else {
      var first := more[0];
      assert more == [first] + more[1..];
      if first in ids {
        NothingNew(ids, more[1..], deleted);
      } else {
        NothingNew(ids + [first], more[1..], deleted);
        KeptConcat(ids, [first], deleted);
        KeptOne(first, deleted);
      }
    }
  }

  lemma {:induction false} KeptConcat(a: seq<string>, b: seq<string>, deleted: seq<string>)
    ensures Kept(a + b, deleted) == Kept(a, deleted) + Kept(b, deleted)
  {
    if a == [] {
      assert a + b == b;
    } else {
      assert (a + b)[0] == a[0] && (a + b)[1..] == a[1..] + b;
      KeptConcat(a[1..], b, deleted);
    }
  }

  lemma KeptOne(id: string, deleted: seq<string>)
    ensures Kept([id], deleted) == if id in deleted then [] else [id]
  {
    assert [id][1..] == [];
  }

  lemma {:induction false} KeptTwice(ids: seq<string>, first: seq<string>, second: seq<string>, both: seq<string>)
    requires forall id :: id in both <==> id in first || id in second
    ensures Kept(Kept(ids, first), second) == Kept(ids, both)
  {
    if ids == [] {
    } else {
      var rest := Kept(ids[1..], first);
      KeptTwice(ids[1..], first, second, both);
      KeptConcat([ids[0]], rest, second);
      KeptOne(ids[0], second);
      assert Kept(ids, first) == (if ids[0] in first then rest else [ids[0]] + rest);
    }
  }

  lemma {:induction false} AppendedHas(ids: seq<string>, more: seq<string>, id: string)
    ensures id in Appended(ids, more) <==> id in ids || id in more
    decreases |more|
  {
    if more == [] {
    } else {
      assert more == [more[0]] + more[1..];
      AppendedHas(if more[0] in ids then ids else ids + [more[0]], more[1..], id);
    }
  }

  /** A delta that arrives twice does nothing the second time. */
  lemma MergeIsIdempotent(tracks: seq<Track>, updates: seq<Track>, deleted: seq<string>)
    requires UniqueIds(tracks)
    ensures var merged := Merged(tracks, updates, deleted);
      Merged(merged, updates, deleted) == merged
  {
    var merged := Merged(tracks, updates, deleted);
    var twice := Merged(merged, updates, deleted);
    MergeKeepsIdsUnique(tracks, updates, deleted);
    forall id ensures Find(twice, id) == Find(merged, id) {
      MergeIsMapUpdate(tracks, updates, deleted, id);
      MergeIsMapUpdate(merged, updates, deleted, id);
    }
    IdsTwice(tracks, updates, deleted);
    ListIsItsMap(merged, twice);
  }

  lemma IdsTwice(tracks: seq<Track>, updates: seq<Track>, deleted: seq<string>)
    ensures var merged := Merged(tracks, updates, deleted);
      Ids(merged) == Ids(Merged(merged, updates, deleted))
  {
    var all := Appended(Ids(tracks), Ids(updates));
    MergeKeepsOrder(tracks, updates, deleted);
    MergeKeepsOrder(Merged(tracks, updates, deleted), updates, deleted);
    forall id | id in Ids(updates) ensures id in Kept(all, deleted) || id in deleted {
      AppendedHas(Ids(tracks), Ids(updates), id);
      KeptHas(all, deleted, id);
    }
    NothingNew(Kept(all, deleted), Ids(updates), deleted);
    KeptTwice(all, deleted, deleted, deleted);
  }

  // ---- Two deltas are one ----

  /** Both deltas' deletions, but not of what the second brings back. */
  function Gone(first: seq<string>, updates: seq<Track>, second: seq<string>): seq<string> {
    Kept(first, Ids(updates)) + second
  }

  /** Two merges in a row leave, for every id, what one merge of the composed
      delta leaves. */
  lemma DeltasCompose(
    tracks: seq<Track>, u: seq<Track>, d: seq<string>, updates: seq<Track>, deleted: seq<string>, id: string)
    ensures Find(Merged(Merged(tracks, u, d), updates, deleted), id)
         == Find(Merged(tracks, u + updates, Gone(d, updates, deleted)), id)
  {
    MergeIsMapUpdate(tracks, u, d, id);
    MergeIsMapUpdate(Merged(tracks, u, d), updates, deleted, id);
    MergeIsMapUpdate(tracks, u + updates, Gone(d, updates, deleted), id);
    FindConcat(u, updates, id);
    KeptHas(d, Ids(updates), id);
    IdsHas(updates, id);
  }

  lemma IdsHas(tracks: seq<Track>, id: string)
    ensures id in Ids(tracks) <==> Find(tracks, id).Some?
  {
    IdsAt(tracks);
    FindFinds(tracks, id);
  }

  lemma {:induction false} AppendedAfterKept(ids: seq<string>, more: seq<string>, deleted: seq<string>)
    requires forall id :: id in more ==> id !in deleted
    ensures Appended(Kept(ids, deleted), more) == Kept(Appended(ids, more), deleted)
    decreases |more|
  {
    if more == [] {
    } else {
      var first := more[0];
      KeptHas(ids, deleted, first);
      if first in ids {
        AppendedAfterKept(ids, more[1..], deleted);
      } else {
        KeptConcat(ids, [first], deleted);
        KeptOne(first, deleted);
        AppendedAfterKept(ids + [first], more[1..], deleted);
      }
    }
  }

  lemma {:induction false} AppendedConcat(ids: seq<string>, a: seq<string>, b: seq<string>)
    ensures Appended(Appended(ids, a), b) == Appended(ids, a + b)
    decreases |a|
  {
    if a == [] {
      assert a + b == b;
    } else {
      assert (a + b)[0] == a[0] && (a + b)[1..] == a[1..] + b;
      AppendedConcat(if a[0] in ids then ids else ids + [a[0]], a[1..], b);
    }
  }

  lemma {:induction false} IdsConcat(a: seq<Track>, b: seq<Track>)
    ensures Ids(a + b) == Ids(a) + Ids(b)
  {
    if a == [] {
      assert a + b == b;
    } else {
      assert (a + b)[0] == a[0] && (a + b)[1..] == a[1..] + b;
      IdsConcat(a[1..], b);
    }
  }

  // ---- And in which order ----

  /** The ids of `more` that are not among `ids`, each where it first occurs. */
  function News(ids: seq<string>, more: seq<string>): seq<string>
    decreases |more|
  {
    if more == [] then []
    else if more[0] in ids then News(ids, more[1..])
    else [more[0]] + News(ids + [more[0]], more[1..])
  }

  lemma {:induction false} AppendedIsNews(ids: seq<string>, more: seq<string>)
    ensures Appended(ids, more) == ids + News(ids, more)
    decreases |more|
  {
    if more == [] {
    } else if more[0] in ids {
      AppendedIsNews(ids, more[1..]);
    } else {
      AppendedIsNews(ids + [more[0]], more[1..]);
      Associative(ids, [more[0]], News(ids + [more[0]], more[1..]));
    }
  }

  /** Those of `ids` that are among `some`. */
  function Only(ids: seq<string>, some: seq<string>): seq<string> {
    if ids == [] then [] else (if ids[0] in some then [ids[0]] else []) + Only(ids[1..], some)
  }

  lemma {:induction false} OnlyConcat(a: seq<string>, b: seq<string>, some: seq<string>)
    ensures Only(a + b, some) == Only(a, some) + Only(b, some)
  {
    if a == [] {
      assert a + b == b;
    } else {
      assert (a + b)[0] == a[0] && (a + b)[1..] == a[1..] + b;
      OnlyConcat(a[1..], b, some);
    }
  }

  /** Keeping and dropping split a list. */
  lemma {:induction false} SplitLength(ids: seq<string>, some: seq<string>)
    ensures |Kept(ids, some)| + |Only(ids, some)| == |ids|
    ensures |Only(ids, some)| == |ids| ==> Only(ids, some) == ids
  {
    if ids == [] {
    } else {
      SplitLength(ids[1..], some);
      assert ids == [ids[0]] + ids[1..];
    }
  }

  lemma {:induction false} OnlyOfKept(ids: seq<string>, some: seq<string>)
    ensures Only(Kept(ids, some), some) == []
  {
    if ids == [] {
    } else {
      OnlyOfKept(ids[1..], some);
      assert Kept(ids, some) == (if ids[0] in some then [] else [ids[0]]) + Kept(ids[1..], some);
      OnlyConcat(if ids[0] in some then [] else [ids[0]], Kept(ids[1..], some), some);
      OnlyOne(ids[0], some);
    }
  }

  lemma OnlyOne(id: string, some: seq<string>)
    ensures Only([id], some) == (if id in some then [id] else []) && Only([], some) == []
  {
    assert [id][1..] == [];
  }

  /** In one step: the ids there are, less those gone; then the new ones. */
  function OldInOne(tracks: seq<Track>, u: seq<Track>, d: seq<string>, updates: seq<Track>, deleted: seq<string>): seq<string> {
    Kept(Appended(Ids(tracks), Ids(u)), Gone(d, updates, deleted))
  }

  function NewInOne(tracks: seq<Track>, u: seq<Track>, updates: seq<Track>, deleted: seq<string>): seq<string> {
    Kept(News(Appended(Ids(tracks), Ids(u)), Ids(updates)), deleted)
  }

  /** In two: those that stay; then the ones that the second delta appends. */
  function NewInTwo(tracks: seq<Track>, u: seq<Track>, d: seq<string>, updates: seq<Track>, deleted: seq<string>): seq<string> {
    Kept(News(Kept(Appended(Ids(tracks), Ids(u)), d), Ids(updates)), deleted)
  }

  /** The ids that come back stood behind every id that stays, and come back in their
      old order, ahead of anything new. */
  ghost predicate ComeBackInPlace(
    tracks: seq<Track>, u: seq<Track>, d: seq<string>, updates: seq<Track>, deleted: seq<string>)
  {
    var left := OldInOne(tracks, u, d, updates, deleted);
    var stay, back := Kept(left, d), Only(left, d);
    && left == stay + back
    && NewInTwo(tracks, u, d, updates, deleted) == back + NewInOne(tracks, u, updates, deleted)
  }

  lemma IdsInOne(tracks: seq<Track>, u: seq<Track>, d: seq<string>, updates: seq<Track>, deleted: seq<string>)
    ensures Ids(Merged(tracks, u + updates, Gone(d, updates, deleted)))
         == OldInOne(tracks, u, d, updates, deleted) + NewInOne(tracks, u, updates, deleted)
  {
    var before, gone := Appended(Ids(tracks), Ids(u)), Gone(d, updates, deleted);
    var news := News(before, Ids(updates));
    MergeKeepsOrder(tracks, u + updates, gone);
    IdsConcat(u, updates);
    AppendedConcat(Ids(tracks), Ids(u), Ids(updates));
    AppendedIsNews(before, Ids(updates));
    KeptConcat(before, news, gone);
    forall id | id in news ensures id in gone <==> id in deleted {
      NewsHas(before, Ids(updates), id);
      KeptHas(d, Ids(updates), id);
    }
    KeptAlike(news, gone, deleted);
  }

  lemma {:induction false} NewsHas(ids: seq<string>, more: seq<string>, id: string)
    ensures id in News(ids, more) ==> id in more
    decreases |more|
  {
    if more == [] {
    } else {
      assert more == [more[0]] + more[1..];
      NewsHas(if more[0] in ids then ids else ids + [more[0]], more[1..], id);
    }
  }

  lemma {:induction false} KeptAlike(ids: seq<string>, a: seq<string>, b: seq<string>)
    requires forall id :: id in ids ==> (id in a <==> id in b)
    ensures Kept(ids, a) == Kept(ids, b)
  {
    if ids == [] {
    } else {
      assert ids == [ids[0]] + ids[1..];
      KeptAlike(ids[1..], a, b);
    }
  }

  lemma IdsInTwo(tracks: seq<Track>, u: seq<Track>, d: seq<string>, updates: seq<Track>, deleted: seq<string>)
    ensures Ids(Merged(Merged(tracks, u, d), updates, deleted))
         == Kept(OldInOne(tracks, u, d, updates, deleted), d) + NewInTwo(tracks, u, d, updates, deleted)
  {
    var before, gone := Appended(Ids(tracks), Ids(u)), Gone(d, updates, deleted);
    MergeKeepsOrder(tracks, u, d);
    MergeKeepsOrder(Merged(tracks, u, d), updates, deleted);
    AppendedIsNews(Kept(before, d), Ids(updates));
    KeptConcat(Kept(before, d), News(Kept(before, d), Ids(updates)), deleted);
    forall id ensures id in d + deleted <==> id in gone || id in d {
      KeptHas(d, Ids(updates), id);
    }
    KeptTwice(before, d, deleted, d + deleted);
    KeptTwice(before, gone, d, d + deleted);
  }

  /** Two lists that agree but for what comes back. */
  lemma SameSplit(left: seq<string>, d: seq<string>, two: seq<string>, one: seq<string>)
    ensures Kept(left, d) + two == left + one
       <==> left == Kept(left, d) + Only(left, d) && two == Only(left, d) + one
  {
    var stay, back := Kept(left, d), Only(left, d);
    if stay + two == left + one {
      SplitLength(left, d);
      var x := FrontOf(stay, two, left, one);
      OnlyConcat(stay, x, d);
      OnlyOfKept(left, d);
      SplitLength(x, d);
    }
    Associative(stay, back, one);
  }

  lemma FrontOf(stay: seq<string>, two: seq<string>, left: seq<string>, one: seq<string>) returns (x: seq<string>)
    requires stay + two == left + one && |stay| <= |left|
    ensures left == stay + x && two == x + one
  {
    x := left[|stay|..];
    assert stay == (stay + two)[..|stay|] == (left + one)[..|stay|] == left[..|stay|];
    assert two == (left + one)[|stay|..] == x + one;
  }

  lemma Associative(a: seq<string>, b: seq<string>, c: seq<string>)
    ensures a + (b + c) == a + b + c
  {
  }

  /** The two merges leave the same list as the one if and only if what comes back
      stood and comes back in place. */
  lemma DeltasComposeInOrder(
    tracks: seq<Track>, u: seq<Track>, d: seq<string>, updates: seq<Track>, deleted: seq<string>)
    requires UniqueIds(tracks)
    ensures Merged(Merged(tracks, u, d), updates, deleted) == Merged(tracks, u + updates, Gone(d, updates, deleted))
       <==> ComeBackInPlace(tracks, u, d, updates, deleted)
  {
    var inTwo := Merged(Merged(tracks, u, d), updates, deleted);
    var inOne := Merged(tracks, u + updates, Gone(d, updates, deleted));
    MergeKeepsIdsUnique(tracks, u, d);
    MergeKeepsIdsUnique(Merged(tracks, u, d), updates, deleted);
    forall id ensures Find(inTwo, id) == Find(inOne, id) {
      DeltasCompose(tracks, u, d, updates, deleted, id);
    }
    IdsInOne(tracks, u, d, updates, deleted);
    IdsInTwo(tracks, u, d, updates, deleted);
    SameSplit(OldInOne(tracks, u, d, updates, deleted), d,
              NewInTwo(tracks, u, d, updates, deleted), NewInOne(tracks, u, updates, deleted));
    if Ids(inTwo) == Ids(inOne) {
      ListIsItsMap(inTwo, inOne);
    }
  }

  /** When nothing deleted comes back, they do. */
  lemma NothingComesBack(
    tracks: seq<Track>, u: seq<Track>, d: seq<string>, updates: seq<Track>, deleted: seq<string>)
    requires forall id :: id in Ids(updates) ==> id !in d
    ensures ComeBackInPlace(tracks, u, d, updates, deleted)
  {
    var before, gone := Appended(Ids(tracks), Ids(u)), Gone(d, updates, deleted);
    var left := Kept(before, gone);
    forall id | id in left ensures id !in d {
      KeptHas(before, gone, id);
      KeptHas(d, Ids(updates), id);
    }
    OnlyNone(left, d);
    NewsOfKept(before, Ids(updates), d);
  }

  lemma NewsOfKept(ids: seq<string>, more: seq<string>, d: seq<string>)
    requires forall id :: id in more ==> id !in d
    ensures News(Kept(ids, d), more) == News(ids, more)
  {
    var kept, news := Kept(ids, d), News(ids, more);
    AppendedAfterKept(ids, more, d);
    AppendedIsNews(ids, more);
    AppendedIsNews(kept, more);
    KeptConcat(ids, news, d);
    forall id | id in news ensures id !in d {
      NewsHas(ids, more, id);
    }
    OnlyNone(news, d);
    assert News(kept, more) == (kept + News(kept, more))[|kept|..] == (kept + news)[|kept|..];
  }

  lemma {:induction false} OnlyNone(ids: seq<string>, some: seq<string>)
    requires forall id :: id in ids ==> id !in some
    ensures Only(ids, some) == [] && Kept(ids, some) == ids
  {
    if ids == [] {
    } else {
      assert ids == [ids[0]] + ids[1..];
      OnlyNone(ids[1..], some);
    }
  }

  /** A track that comes back from in front of one that stays ends elsewhere. */
  lemma {:induction false} ComingBackMoves(
    tracks: seq<Track>, u: seq<Track>, d: seq<string>, updates: seq<Track>, deleted: seq<string>, i: nat, j: nat)
    requires var ids := Appended(Ids(tracks), Ids(u));
      && i < j < |ids|
      && ids[i] in d && ids[i] in Ids(updates) && ids[i] !in deleted
      && ids[j] !in d && ids[j] !in deleted
    ensures !ComeBackInPlace(tracks, u, d, updates, deleted)
    ensures UniqueIds(tracks) ==>
      Merged(Merged(tracks, u, d), updates, deleted) != Merged(tracks, u + updates, Gone(d, updates, deleted))
  {
    if UniqueIds(tracks) {
      DeltasComposeInOrder(tracks, u, d, updates, deleted);
    }
    var ids, gone := Appended(Ids(tracks), Ids(u)), Gone(d, updates, deleted);
    KeptHas(d, Ids(updates), ids[i]);
    KeptHas(d, Ids(updates), ids[j]);
    var at := KeptInOrder(ids, gone, i, j);
    StayersFirst(Kept(ids, gone), d, ids[i], at);
  }

  /** What is kept keeps its order. */
  lemma KeptInOrder(ids: seq<string>, gone: seq<string>, i: nat, j: nat) returns (at: nat)
    requires i < j < |ids| && ids[i] !in gone && ids[j] !in gone
    ensures at < |Kept(ids, gone)| && Kept(ids, gone)[at] == ids[j] && ids[i] in Kept(ids, gone)[..at]
  {
    var front, rest := Kept(ids[..j], gone), Kept(ids[j..], gone);
    assert ids[..j][i] == ids[i];
    KeptHas(ids[..j], gone, ids[i]);
    KeptConcat(ids[..j], ids[j..], gone);
    assert ids == ids[..j] + ids[j..] && ids[j..][0] == ids[j];
    at := |front|;
    assert Kept(ids, gone) == front + rest && rest[0] == ids[j] && (front + rest)[..at] == front;
  }

  lemma StayersFirst(left: seq<string>, d: seq<string>, back: string, at: nat)
    requires at < |left| && left[at] !in d && back in d && back in left[..at]
    ensures left != Kept(left, d) + Only(left, d)
  {
    var stay, only := Kept(left, d), Only(left, d);
    if left == stay + only {
      if at >= |stay| {
        OnlyHas(left, d, only[at - |stay|]);
      }
      var k :| 0 <= k < at && left[..at][k] == back;
      assert stay[k] == back;
      KeptHas(left, d, back);
      assert false;
    }
  }

  lemma {:induction false} OnlyHas(ids: seq<string>, some: seq<string>, id: string)
    ensures id in Only(ids, some) <==> id in ids && id in some
  {
    if ids == [] {
    } else {
      assert ids == [ids[0]] + ids[1..];
      OnlyHas(ids[1..], some, id);
    }
  }

  /** A track with no content to speak of. */
  const BLANK := Content("mp3", "", [])

  // ---- Refreshing from the server ----

  /** The snapshot holds the server's library, track for track. */
  ghost predicate Mirrors(tracks: seq<Track>, db: Db) {
    forall id :: Find(tracks, id) == Find(db.rows, id)
  }

  /** What one refresh makes of a snapshot at version `since`. */
  function Refreshed(tracks: seq<Track>, since: nat, db: Db): seq<Track> {
    var delta := DeltaSince(db, since);
    Merged(tracks, delta.tracks, delta.deleted)
  }

  lemma {:induction false} NewerIsUnique(rows: seq<Track>, since: nat)
    requires UniqueIds(rows)
    ensures UniqueIds(Newer(rows, since))
  {
    if rows == [] {
    } else {
      NewerIsUnique(rows[1..], since);
      var rest := Newer(rows[1..], since);
      assert Newer(rows, since) == (if rows[0].version > since then [rows[0]] + rest else rest);
      forall t | t in rest ensures t.id != rows[0].id {
        assert t in rows[1..];
      }
    }
  }

  /** Some track the snapshot has is gone from the server without a trace. */
  ghost predicate Forgotten(before: Db, now: Db, id: string) {
    Live(before, id) && !Live(now, id) && !Buried(now, id, before.version)
  }

  lemma FindLive(db: Db, id: string)
    requires UniqueIds(db.rows)
    ensures Live(db, id) <==> Find(db.rows, id).Some?
  {
    FindFinds(db.rows, id);
  }

  lemma DeltaFinds(now: Db, since: nat, id: string)
    requires Sound(now)
    ensures Find(Newer(now.rows, since), id)
         == match Find(now.rows, id)
            case Some(t) => if t.version > since then Some(t) else None
            case None => None
    ensures id in NewerTombs(now.tombs, since) ==> !Live(now, id)
  {
    NewerIsUnique(now.rows, since);
    FindFinds(now.rows, id);
    FindFinds(Newer(now.rows, since), id);
    if Find(now.rows, id).Some? {
      var t := Find(now.rows, id).value;
      if t.version > since {
        FindUnique(Newer(now.rows, since), t);
      } else if Find(Newer(now.rows, since), id).Some? {
        FindUnique(now.rows, Find(Newer(now.rows, since), id).value);
      }
    }
  }

  /** After a refresh the snapshot finds what the server finds, except a track
      that is gone without a trace, which it still holds. */
  lemma RefreshedFinds(tracks: seq<Track>, before: Db, now: Db, lost: set<string>, id: string)
    requires Sound(before) && Sound(now) && Since(before, now, before.version, lost)
    requires Find(tracks, id) == Find(before.rows, id)
    ensures Find(Refreshed(tracks, before.version, now), id)
         == if Forgotten(before, now, id) then Find(before.rows, id) else Find(now.rows, id)
    ensures Forgotten(before, now, id) ==> Find(now.rows, id) == None && Find(before.rows, id).Some?
  {
    var delta := DeltaSince(now, before.version);
    MergeIsMapUpdate(tracks, delta.tracks, delta.deleted, id);
    DeltaFinds(now, before.version, id);
    FindLive(now, id);
    FindLive(before, id);
    FindFinds(now.rows, id);
    if Live(now, id) && Find(now.rows, id).value.version <= before.version {
      FindUnique(before.rows, Find(now.rows, id).value);
    }
  }

  /** Whatever the server did since the snapshot's version, one refresh makes the
      snapshot the server's library again if and only if no track the snapshot
      holds is gone without a trace. */
  lemma RefreshIsExact(tracks: seq<Track>, before: Db, changes: seq<Change>)
    requires Sound(before) && Mirrors(tracks, before)
    ensures var now := History(before, changes);
      && Sound(now)
      && (Mirrors(Refreshed(tracks, before.version, now), now) <==> forall id :: !Forgotten(before, now, id))
  {
    var now := History(before, changes);
    HistoryFrom(before, changes);
    forall id ensures Find(Refreshed(tracks, before.version, now), id)
                      == (if Forgotten(before, now, id) then Find(before.rows, id) else Find(now.rows, id))
    ensures Forgotten(before, now, id) ==> Find(now.rows, id) == None && Find(before.rows, id).Some? {
      RefreshedFinds(tracks, before, now, PurgedIn(changes), id);
    }
    if Mirrors(Refreshed(tracks, before.version, now), now) {
      forall id ensures !Forgotten(before, now, id) {
        assert Find(Refreshed(tracks, before.version, now), id) == Find(now.rows, id);
      }
    }
  }

  lemma HistoryFrom(before: Db, changes: seq<Change>)
    requires Sound(before)
    ensures Sound(History(before, changes)) && before.version <= History(before, changes).version
    ensures Since(before, History(before, changes), before.version, PurgedIn(changes))
  {
    assert Since(before, before, before.version, {});
    HistoryKeeps(before, changes, before, before.version, {});
    assert {} + PurgedIn(changes) == PurgedIn(changes);
  }

  /** Only a purge makes the server forget, and only what it purges. */
  lemma OnlyPurgesForget(before: Db, changes: seq<Change>, id: string)
    requires Sound(before) && Forgotten(before, History(before, changes), id)
    ensures id in PurgedIn(changes)
  {
    HistoryFrom(before, changes);
    var t :| t in before.rows && t.id == id;
  }

  /** A deletion whose tombstone is purged before the refresh is missed. */
  lemma PurgedDeletionIsMissed()
    ensures var a := Track("a", BLANK, 1);
      var before := Db(1, [a], []);
      var now := History(before, [Deleted(["a"]), Purged({"a"})]);
      && Sound(before) && now == Db(2, [], [])
      && Refreshed([a], 1, now) == [a]
  {
    var a := Track("a", BLANK, 1);
    var before := Db(1, [a], []);
    var deleted := Db(2, [], [Tombstone("a", 2)]);
    assert [a][1..] == [] && ["a"][1..] == [];
    assert a in before.rows && Live(before, "a");
    assert Without([a], "a") == [] + Without([], "a") == [];
    assert WithoutTomb([], "a") + [Tombstone("a", 2)] == [Tombstone("a", 2)];
    assert DeleteOne(before, 2, "a") == deleted.(version := 1);
    assert DeleteAll(deleted.(version := 1), 2, []) == deleted.(version := 1);
    assert Delete(before, ["a"]) == deleted;
    assert deleted.tombs[1..] == [];
    assert PurgeAll(deleted.tombs, {"a"}) == [];
    var changes := [Deleted(["a"]), Purged({"a"})];
    assert changes[1..] == [Purged({"a"})] && changes[1..][1..] == [];
    assert ApplyChange(before, changes[0]) == deleted;
    assert History(before, changes) == History(deleted, changes[1..]);
    assert History(deleted, [Purged({"a"})]) == History(Db(2, [], []), []);
    assert Newer([], 1) == [] && NewerTombs([], 1) == [];
    NothingDeleted([a]);
  }

  // ---- A snapshot's whole life ----

  /** A snapshot and the server it follows, through rounds of changes that each
      end with a refresh. */
  function Follow(tracks: seq<Track>, db: Db, rounds: seq<seq<Change>>): (seq<Track>, Db)
    decreases |rounds|
  {
    if rounds == [] then (tracks, db)
    else
      var now := History(db, rounds[0]);
      Follow(Refreshed(tracks, db.version, now), now, rounds[1..])
  }

  /** The snapshot is the server's library, and again after every refresh. */
  ghost predicate MirrorsThroughout(tracks: seq<Track>, db: Db, rounds: seq<seq<Change>>)
    decreases |rounds|
  {
    Mirrors(tracks, db) &&
    (rounds == [] ||
     var now := History(db, rounds[0]);
     MirrorsThroughout(Refreshed(tracks, db.version, now), now, rounds[1..]))
  }

  /** No track is gone without a trace when a round ends. */
  ghost predicate NothingForgotten(db: Db, rounds: seq<seq<Change>>)
    decreases |rounds|
  {
    rounds == [] ||
    var now := History(db, rounds[0]);
    (forall id :: !Forgotten(db, now, id)) && NothingForgotten(now, rounds[1..])
  }

  /** The snapshot is the server's library after every refresh of its life if and
      only if no round forgets a track; it never has two tracks of one id. */
  lemma {:induction false} SnapshotFollowsServer(tracks: seq<Track>, db: Db, rounds: seq<seq<Change>>)
    requires Sound(db) && UniqueIds(tracks) && Mirrors(tracks, db)
    ensures MirrorsThroughout(tracks, db, rounds) <==> NothingForgotten(db, rounds)
    ensures UniqueIds(Follow(tracks, db, rounds).0)
    decreases |rounds|
  {
    if rounds == [] {
    } else {
      var now := History(db, rounds[0]);
      var held := Refreshed(tracks, db.version, now);
      var delta := DeltaSince(now, db.version);
      RefreshIsExact(tracks, db, rounds[0]);
      MergeKeepsIdsUnique(tracks, delta.tracks, delta.deleted);
      if Mirrors(held, now) {
        SnapshotFollowsServer(held, now, rounds[1..]);
      } else {
        FollowKeepsIdsUnique(held, now, rounds[1..]);
      }
    }
  }

  lemma {:induction false} FollowKeepsIdsUnique(tracks: seq<Track>, db: Db, rounds: seq<seq<Change>>)
    requires UniqueIds(tracks)
    ensures UniqueIds(Follow(tracks, db, rounds).0)
    decreases |rounds|
  {
    if rounds == [] {
    } else {
      var now := History(db, rounds[0]);
      var delta := DeltaSince(now, db.version);
      MergeKeepsIdsUnique(tracks, delta.tracks, delta.deleted);
      FollowKeepsIdsUnique(Refreshed(tracks, db.version, now), now, rounds[1..]);
    }
  }

  /** No round purges the tombstone of a track that was there when it began. */
  ghost predicate Remembered(db: Db, rounds: seq<seq<Change>>)
    decreases |rounds|
  {
    rounds == [] ||
    (&& (forall id :: id in PurgedIn(rounds[0]) ==> !Live(db, id))
     && Remembered(History(db, rounds[0]), rounds[1..]))
  }

  /** Then none is forgotten. */
  lemma {:induction false} RememberedIsNotForgotten(db: Db, rounds: seq<seq<Change>>)
    requires Sound(db) && Remembered(db, rounds)
    ensures NothingForgotten(db, rounds)
    decreases |rounds|
  {
    if rounds == [] {
    } else {
      var now := History(db, rounds[0]);
      forall id ensures !Forgotten(db, now, id) {
        if Forgotten(db, now, id) {
          OnlyPurgesForget(db, rounds[0], id);
        }
      }
      HistoryFrom(db, rounds[0]);
      RememberedIsNotForgotten(now, rounds[1..]);
    }
  }

  /** From nothing: the first refresh is always exact, purges or not. */
  lemma FirstRefreshIsExact(changes: seq<Change>)
    ensures var now := History(EMPTY, changes);
      Sound(now) && Mirrors(Refreshed([], 0, now), now)
  {
    EmptyIsSound();
    assert Mirrors([], EMPTY);
    RefreshIsExact([], EMPTY, changes);
  }
}
