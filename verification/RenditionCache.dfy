/**
 `RenditionCache`: renditions in a directory, evicted oldest first down to a
 size cap. One caller at a time: what concurrent writers do to one destination
 is in ReplaceFile.
*/
module RenditionCaches {
  import opened Arithmetic
  import opened Wrappers
  import RenditionKeys

  datatype File = File(bytes: seq<nat>, modified: nat)

  datatype Entry = Entry(path: string, len: nat, modified: nat)

  // ---- The order of eviction ----

  predicate TextBefore(a: string, b: string) {
    if b == [] then false
    else if a == [] then true
    else a[0] < b[0] || (a[0] == b[0] && TextBefore(a[1..], b[1..]))
  }

  /** Oldest first; by path among files of one age. */
  predicate Before(a: Entry, b: Entry) {
    a.modified < b.modified || (a.modified == b.modified && TextBefore(a.path, b.path))
  }

  lemma {:induction false} TextOrder(a: string, b: string, c: string)
    ensures !TextBefore(a, a)
    ensures a == b || TextBefore(a, b) || TextBefore(b, a)
    ensures TextBefore(a, b) && TextBefore(b, c) ==> TextBefore(a, c)
    decreases |a| + |b| + |c|
  {
    if a == [] {
    } else {
      var tail := a[1..];
      TextOrder(tail, if b == [] then [] else b[1..], if c == [] then [] else c[1..]);
      assert b != [] && a[0] == b[0] && a[1..] == b[1..] ==> a == b by {
        if b != [] && a[0] == b[0] && a[1..] == b[1..] {
          assert a == [a[0]] + a[1..] && b == [b[0]] + b[1..];
        }
      }
    }
  }

  ghost predicate Ordered(es: seq<Entry>) {
    forall i, j :: 0 <= i < j < |es| ==> Before(es[i], es[j])
  }

  /** `es` lists exactly the files, each with its size and age. */
  ghost predicate Lists(es: seq<Entry>, files: map<string, File>) {
    && (forall i, j :: 0 <= i < j < |es| ==> es[i].path != es[j].path)
    && (forall e :: e in es ==> e.path in files && e == EntryOf(e.path, files[e.path]))
    && (forall p :: p in files ==> EntryOf(p, files[p]) in es)
  }

  function EntryOf(path: string, file: File): Entry {
    Entry(path, |file.bytes|, file.modified)
  }

  /** Inserts where the order wants it: one step of sorting. */
  function Insert(e: Entry, es: seq<Entry>): (r: seq<Entry>)
    ensures multiset(r) == multiset(es) + multiset{e}
  {
    if es == [] then [e]
    else if Before(e, es[0]) then [e] + es
    else
      assert es == [es[0]] + es[1..];
      [es[0]] + Insert(e, es[1..])
  }

  function Sort(es: seq<Entry>): (r: seq<Entry>)
    ensures multiset(r) == multiset(es)
  {
    if es == [] then []
    else
      assert es == [es[0]] + es[1..];
      Insert(es[0], Sort(es[1..]))
  }

  lemma {:induction false} InsertOrders(e: Entry, es: seq<Entry>)
    requires Ordered(es) && forall x :: x in es ==> x.path != e.path
    ensures Ordered(Insert(e, es))
  {
    if es == [] {
    } else {
      var first, rest := es[0], es[1..];
      TextOrder(e.path, first.path, first.path);
      if Before(e, first) {
        forall x | x in rest ensures Before(e, x) {
          BeforeTransitive(e, first, x);
        }
      } else {
        InsertOrders(e, rest);
        forall x | x in Insert(e, rest) ensures Before(first, x) {
          assert x in multiset(Insert(e, rest));
        }
      }
    }
  }

  lemma BeforeTransitive(a: Entry, b: Entry, c: Entry)
    ensures Before(a, b) && Before(b, c) ==> Before(a, c)
  {
    TextOrder(a.path, b.path, c.path);
  }

  lemma {:induction false} SortOrders(es: seq<Entry>)
    requires forall i, j :: 0 <= i < j < |es| ==> es[i].path != es[j].path
    ensures Ordered(Sort(es))
  {
    if es == [] {
    } else {
      SortOrders(es[1..]);
      forall x | x in Sort(es[1..]) ensures x.path != es[0].path {
        assert x in multiset(es[1..]);
      }
      InsertOrders(es[0], Sort(es[1..]));
    }
  }

  lemma SortLists(es: seq<Entry>, files: map<string, File>)
    requires Lists(es, files)
    ensures Lists(Sort(es), files) && Ordered(Sort(es))
  {
    SortOrders(es);
    var r := Sort(es);
    forall e ensures e in r <==> e in es {
      assert e in multiset(r) <==> e in multiset(es);
    }
    OrderedPathsDiffer(es, files, r);
  }

  lemma OrderedPathsDiffer(es: seq<Entry>, files: map<string, File>, r: seq<Entry>)
    requires Lists(es, files) && Ordered(r) && forall e :: e in r <==> e in es
    ensures forall i, j :: 0 <= i < j < |r| ==> r[i].path != r[j].path
  {
    forall i, j | 0 <= i < j < |r| ensures r[i].path != r[j].path {
      if r[i].path == r[j].path {
        assert r[i] == r[j];
        TextOrder(r[i].path, r[i].path, r[i].path);
      }
    }
  }

  /** A directory has one order of eviction, whatever order it is read in. */
  lemma {:induction false} OrderIsUnique(a: seq<Entry>, b: seq<Entry>)
    requires Ordered(a) && Ordered(b) && (forall e :: e in a <==> e in b)
    ensures a == b
    decreases |a|
  {
    HasElement(b);
    if a != [] {
      FirstOfOrder(a, b);
      forall e ensures e in a[1..] <==> e in b[1..] {
        TextOrder(a[0].path, a[0].path, a[0].path);
        NotFirst(a, e);
        NotFirst(b, e);
      }
      OrderIsUnique(a[1..], b[1..]);
      assert a == [a[0]] + a[1..] && b == [b[0]] + b[1..];
    }
  }

  lemma HasElement<T>(s: seq<T>)
    ensures s == [] || exists x :: x in s
  {
    if s != [] {
      assert s[0] in s;
    }
  }

  lemma FirstOfOrder(a: seq<Entry>, b: seq<Entry>)
    requires Ordered(a) && Ordered(b) && a != [] && (forall e :: e in a <==> e in b)
    ensures b != [] && a[0] == b[0]
  {
    assert a[0] in b;
    var i :| 0 <= i < |b| && b[i] == a[0];
    assert b[0] in a;
    var j :| 0 <= j < |a| && a[j] == b[0];
    if i > 0 && j > 0 {
      BeforeTransitive(a[0], b[0], a[0]);
      TextOrder(a[0].path, a[0].path, a[0].path);
    }
  }

  lemma NotFirst(a: seq<Entry>, e: Entry)
    requires Ordered(a) && a != []
    ensures e in a[1..] <==> e in a && e != a[0]
  {
    TextOrder(a[0].path, a[0].path, a[0].path);
    if e in a && e != a[0] {
      var i :| 0 <= i < |a| && a[i] == e;
      assert a[1..][i - 1] == e;
    }
  }

  // ---- Sizes ----

  function Total(es: seq<Entry>): nat {
    if es == [] then 0 else es[0].len + Total(es[1..])
  }

  lemma {:induction false} TotalConcat(a: seq<Entry>, b: seq<Entry>)
    ensures Total(a + b) == Total(a) + Total(b)
  {
    if a == [] {
      assert a + b == b;
    } else {
      assert (a + b)[1..] == a[1..] + b;
      TotalConcat(a[1..], b);
    }
  }

  /** The size of what the order has from `i` on. */
  function TotalFrom(es: seq<Entry>, i: nat): nat
    requires i <= |es|
  {
    Total(es[i..])
  }

  lemma TotalStep(es: seq<Entry>, i: nat)
    requires i < |es|
    ensures TotalFrom(es, i) == es[i].len + TotalFrom(es, i + 1)
    ensures Total(es[..i + 1]) == Total(es[..i]) + es[i].len
  {
    assert es[i..][1..] == es[i + 1..];
    assert es[..i + 1] == es[..i] + [es[i]];
    TotalConcat(es[..i], [es[i]]);
  }

  lemma {:induction false} TotalFromShrinks(es: seq<Entry>, i: nat, j: nat)
    requires i <= j <= |es|
    ensures TotalFrom(es, j) <= TotalFrom(es, i)
    decreases j - i
  {
    if i < j {
      TotalStep(es, i);
      TotalFromShrinks(es, i + 1, j);
    }
  }

  ghost function Paths(es: seq<Entry>): set<string> {
    set e | e in es :: e.path
  }

  type Digest = seq<RenditionKeys.Byte> -> seq<RenditionKeys.Byte>

  /** The digest tells two keys' preimages apart, and they have no zero byte in their
      renderers. */
  ghost predicate TellsApart(md5: Digest, k: RenditionKeys.Key, k': RenditionKeys.Key) {
    && RenditionKeys.ValidKey(k) && RenditionKeys.ValidKey(k')
    && RenditionKeys.NulFree(k.renderer) && RenditionKeys.NulFree(k'.renderer)
    && (md5(RenditionKeys.Preimage(k)) == md5(RenditionKeys.Preimage(k')) ==>
      RenditionKeys.Preimage(k) == RenditionKeys.Preimage(k'))
  }

  class RenditionCache {
    const root: string
    const md5: Digest
    const maxBytes: nat
    var files: map<string, File>
    /** What was last stored under each path. */
    ghost var stored: map<string, seq<nat>>

    ghost predicate Valid()
      reads this
    {
      && (forall p :: p in files ==> p in stored && files[p].bytes == stored[p])
      && (forall x :: |md5(x)| == 16)
    }

    function Path(key: RenditionKeys.Key): string
      requires forall x :: |md5(x)| == 16
    {
      RenditionKeys.PathFor(root, md5, key)
    }

    constructor (root: string, md5: Digest, maxBytes: nat, files: map<string, File>)
      requires forall x :: |md5(x)| == 16
      ensures Valid() && this.root == root && this.md5 == md5 && this.maxBytes == maxBytes && this.files == files
    {
      this.root, this.md5, this.maxBytes, this.files := root, md5, maxBytes, files;
      stored := map p | p in files :: files[p].bytes;
    }

    /** Every file with its size and age, in whatever order the directory has
        them. */
    method Entries() returns (es: seq<Entry>)
      ensures Lists(es, files)
    {
      es := [];
      var left := files.Keys;
      while left != {}
        invariant left <= files.Keys
        invariant Lists(es, files - left)
        decreases left
      {
        var path :| path in left;
        OneMore(es, files, left, path);
        es := es + [EntryOf(path, files[path])];
        left := left - {path};
      }
      assert files - left == files;
    }

    /** Removes the oldest files until the rest fit. `order` is the order of
        eviction; the first `n` of it go. */
    method Evict() returns (freed: nat, ghost order: seq<Entry>, ghost n: nat)
      requires Valid()
      modifies this`files
      ensures Valid() && Ordered(order) && Lists(order, old(files)) && n <= |order|
      ensures Evicted(order, n, old(files), files)
      ensures freed == Total(order[..n])
      ensures TotalFrom(order, n) <= maxBytes
      ensures n > 0 ==> TotalFrom(order, n - 1) > maxBytes
    {
      var entries := Entries();
      SortLists(entries, files);
      SortTotal(entries);
      order, n := Sort(entries), 0;
      NoneEvicted(order, files);
      var total := Total(entries);
      freed := 0;
      if total > maxBytes {
        freed, n := RemoveOldest(Sort(entries), total);
        EvictMany(order, n, old(files));
      }
    }

    /** Stores `bytes` for `key` and evicts. A rendition newer than every other file
        stays exactly when it fits the cap on its own. What was put for another key is
        what it was. */
    method Put(key: RenditionKeys.Key, bytes: seq<nat>, now: nat) returns (ghost order: seq<Entry>, ghost n: nat)
      requires Valid()
      modifies this
      ensures Valid() && stored == old(stored)[Path(key) := bytes]
      ensures Ordered(order) && Lists(order, old(files)[Path(key) := File(bytes, now)]) && n <= |order|
      ensures Evicted(order, n, old(files)[Path(key) := File(bytes, now)], files) && TotalFrom(order, n) <= maxBytes
      ensures n > 0 ==> TotalFrom(order, n - 1) > maxBytes
      ensures (forall p :: p in old(files) && p != Path(key) ==> old(files)[p].modified < now) ==>
        (Path(key) in files <==> |bytes| <= maxBytes)
      ensures forall k :: k != key && TellsApart(md5, key, k) ==>
        StoredAt(stored, Path(k)) == StoredAt(old(stored), Path(k))
    {
      order, n := Store(Path(key), bytes, now);
      OthersAreElsewhere(root, md5, key);
    }

    method Store(path: string, bytes: seq<nat>, now: nat) returns (ghost order: seq<Entry>, ghost n: nat)
      requires Valid()
      modifies this
      ensures Valid() && stored == old(stored)[path := bytes]
      ensures Ordered(order) && Lists(order, old(files)[path := File(bytes, now)]) && n <= |order|
      ensures Evicted(order, n, old(files)[path := File(bytes, now)], files) && TotalFrom(order, n) <= maxBytes
      ensures n > 0 ==> TotalFrom(order, n - 1) > maxBytes
      ensures (forall p :: p in old(files) && p != path ==> old(files)[p].modified < now) ==>
        (path in files <==> |bytes| <= maxBytes)
    {
      files := files[path := File(bytes, now)];
      stored := stored[path := bytes];
      ghost var before := files;
      var freed;
      freed, order, n := Evict();
      if forall p :: p in before && p != path ==> before[p].modified < now {
        NewestStays(order, n, before, files, maxBytes, path);
      }
    }

    /** Finds what is stored for `key`, the bytes last put for it, and makes it the most
        recently used. */
    method Get(key: RenditionKeys.Key, now: nat) returns (found: Option<string>)
      requires Valid()
      modifies this`files
      ensures Valid() && files.Keys == old(files).Keys
      ensures found == if Path(key) in old(files) then Some(Path(key)) else None
      ensures found.Some? ==>
        StoredAt(stored, Path(key)).Some? && files[found.value] == File(StoredAt(stored, Path(key)).value, now)
      ensures forall p :: p in files && p != Path(key) ==> files[p] == old(files)[p]
    {
      var path := Path(key);
      if path in files {
        files := files[path := files[path].(modified := now)];
        return Some(path);
      }
      return None;
    }

    method RemoveOldest(entries: seq<Entry>, size: nat) returns (freed: nat, ghost n: nat)
      requires Valid() && size == TotalFrom(entries, 0)
      modifies this`files
      ensures Valid() && n <= |entries| && files == old(files) - Paths(entries[..n])
      ensures freed == Total(entries[..n])
      ensures TotalFrom(entries, n) <= maxBytes
      ensures n > 0 ==> TotalFrom(entries, n - 1) > maxBytes
    {
      var total, at := size, 0;
      freed := 0;
      assert files - Paths(entries[..0]) == files;
      while at < |entries| && total > maxBytes
        invariant at <= |entries| && Valid()
        invariant total == TotalFrom(entries, at) && freed == Total(entries[..at])
        invariant files == old(files) - Paths(entries[..at])
        invariant at > 0 ==> TotalFrom(entries, at - 1) > maxBytes
      {
        TotalStep(entries, at);
        OneMorePath(old(files), entries, at);
        files := files - {entries[at].path};
        total := total - entries[at].len;
        freed := freed + entries[at].len;
        at := at + 1;
      }
      n := at;
      NothingLeft(entries);
    }
  }

  lemma OthersAreElsewhere(root: string, md5: Digest, key: RenditionKeys.Key)
    requires forall x :: |md5(x)| == 16
    ensures forall k :: k != key && TellsApart(md5, key, k) ==>
      RenditionKeys.PathFor(root, md5, k) != RenditionKeys.PathFor(root, md5, key)
  {
    forall k | k != key && TellsApart(md5, key, k)
      ensures RenditionKeys.PathFor(root, md5, k) != RenditionKeys.PathFor(root, md5, key)
    {
      RenditionKeys.DistinctKeysHaveDistinctPaths(root, md5, key, k);
    }
  }

  ghost function StoredAt(stored: map<string, seq<nat>>, path: string): Option<seq<nat>> {
    if path in stored then Some(stored[path]) else None
  }

  /** `files` is what the first `n` evictions leave of `before`. */
  ghost predicate Evicted(order: seq<Entry>, n: nat, before: map<string, File>, files: map<string, File>)
    requires n <= |order|
  {
    files == before - Paths(order[..n]) && Lists(order[n..], files)
  }

  lemma NoneEvicted(order: seq<Entry>, files: map<string, File>)
    requires Lists(order, files)
    ensures Evicted(order, 0, files, files) && Total(order[..0]) == 0 && TotalFrom(order, 0) == Total(order)
  {
    assert order[0..] == order && Paths(order[..0]) == {};
    assert files - {} == files;
  }

  /** Which files an eviction leaves: those that fit the cap together with
      everything that goes after them. */
  lemma Survivors(order: seq<Entry>, n: nat, before: map<string, File>, files: map<string, File>, maxBytes: nat, i: nat)
    requires Lists(order, before) && n <= |order| && i < |order| && Evicted(order, n, before, files)
    requires TotalFrom(order, n) <= maxBytes && (n > 0 ==> TotalFrom(order, n - 1) > maxBytes)
    ensures order[i].path in files <==> TotalFrom(order, i) <= maxBytes
  {
    assert order[i] in order;
    if i < n {
      TotalFromShrinks(order, i, n - 1);
      assert order[..n][i] == order[i];
      InPaths(order[..n], order[i]);
    } else {
      TotalFromShrinks(order, n, i);
      StaysOut(order, n, i);
    }
  }

  lemma InPaths(es: seq<Entry>, e: Entry)
    requires e in es
    ensures e.path in Paths(es)
  {
  }

  lemma StaysOut(order: seq<Entry>, n: nat, i: nat)
    requires n <= i < |order| && forall i, j :: 0 <= i < j < |order| ==> order[i].path != order[j].path
    ensures order[i].path !in Paths(order[..n])
  {
    forall e | e in order[..n] ensures e.path != order[i].path {
      var j :| 0 <= j < n && order[..n][j] == e;
      assert order[j] == e;
    }
  }

  lemma NewestIsLast(order: seq<Entry>, files: map<string, File>, path: string)
    requires Ordered(order) && Lists(order, files) && path in files
    requires forall p :: p in files && p != path ==> files[p].modified < files[path].modified
    ensures |order| > 0 && order[|order| - 1] == EntryOf(path, files[path])
  {
    var e := EntryOf(path, files[path]);
    assert e in order;
    var i :| 0 <= i < |order| && order[i] == e;
    var last := order[|order| - 1];
    assert last in order;
    assert last.path != path ==> last.modified < e.modified;
  }

  lemma NewestStays(order: seq<Entry>, n: nat, before: map<string, File>, files: map<string, File>, maxBytes: nat, path: string)
    requires Ordered(order) && Lists(order, before) && n <= |order| && Evicted(order, n, before, files)
    requires TotalFrom(order, n) <= maxBytes && (n > 0 ==> TotalFrom(order, n - 1) > maxBytes)
    requires path in before && forall p :: p in before && p != path ==> before[p].modified < before[path].modified
    ensures path in files <==> |before[path].bytes| <= maxBytes
  {
    NewestIsLast(order, before, path);
    Survivors(order, n, before, files, maxBytes, |order| - 1);
    TotalStep(order, |order| - 1);
    NothingLeft(order);
  }

  lemma NothingLeft(order: seq<Entry>)
    ensures TotalFrom(order, |order|) == 0
  {
  }

  lemma EvictOne(order: seq<Entry>, n: nat, before: map<string, File>, files: map<string, File>)
    requires n < |order| && Evicted(order, n, before, files)
    ensures Evicted(order, n + 1, before, files - {order[n].path})
  {
    var first, rest := order[n], order[n + 1..];
    assert order[n..] == [first] + rest;
    DropFirst(first, rest, files);
    MorePaths(order, n);
    var gone := Paths(order[..n]);
    assert before - gone - {first.path} == before - (gone + {first.path});
  }

  lemma {:induction false} EvictMany(order: seq<Entry>, n: nat, before: map<string, File>)
    requires n <= |order| && Lists(order, before)
    ensures Evicted(order, n, before, before - Paths(order[..n]))
  {
    if n == 0 {
      NoneEvicted(order, before);
      assert before - Paths(order[..0]) == before;
    } else {
      EvictMany(order, n - 1, before);
      EvictOne(order, n - 1, before, before - Paths(order[..n - 1]));
    }
  }

  lemma MorePaths(order: seq<Entry>, n: nat)
    requires n < |order|
    ensures Paths(order[..n + 1]) == Paths(order[..n]) + {order[n].path}
  {
    assert order[..n + 1] == order[..n] + [order[n]];
  }

  lemma OneMorePath(files: map<string, File>, order: seq<Entry>, n: nat)
    requires n < |order|
    ensures files - Paths(order[..n]) - {order[n].path} == files - Paths(order[..n + 1])
  {
    MorePaths(order, n);
  }

  lemma DropFirst(first: Entry, rest: seq<Entry>, files: map<string, File>)
    requires Lists([first] + rest, files)
    ensures Lists(rest, files - {first.path})
  {
    var all := [first] + rest;
    forall i | 0 <= i < |rest| ensures rest[i].path != first.path && rest[i] in all {
      assert all[0] == first && all[i + 1] == rest[i];
    }
    forall i, j | 0 <= i < j < |rest| ensures rest[i].path != rest[j].path {
      assert all[i + 1] == rest[i] && all[j + 1] == rest[j];
    }
  }

  lemma OneMore(es: seq<Entry>, files: map<string, File>, left: set<string>, path: string)
    requires path in left && left <= files.Keys && Lists(es, files - left)
    ensures Lists(es + [EntryOf(path, files[path])], files - (left - {path}))
  {
    var more := es + [EntryOf(path, files[path])];
    forall i | 0 <= i < |es| ensures es[i].path != path {
      assert es[i] in es;
    }
    forall p | p in files - (left - {path}) ensures EntryOf(p, files[p]) in more {
      if p == path {
        assert more[|es|] == EntryOf(p, files[p]);
      } else {
        assert p in files - left;
      }
    }
  }

  lemma {:induction false} SortTotal(es: seq<Entry>)
    ensures Total(Sort(es)) == Total(es)
  {
    if es == [] {
    } else {
      SortTotal(es[1..]);
      InsertTotal(es[0], Sort(es[1..]));
    }
  }

  lemma {:induction false} InsertTotal(e: Entry, es: seq<Entry>)
    ensures Total(Insert(e, es)) == e.len + Total(es)
  {
    if es == [] {
    } else {
      if Before(e, es[0]) {
        assert ([e] + es)[1..] == es;
      } else {
        InsertTotal(e, es[1..]);
        assert ([es[0]] + Insert(e, es[1..]))[1..] == Insert(e, es[1..]);
      }
    }
  }
}
