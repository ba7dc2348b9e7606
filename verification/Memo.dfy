/**
 The player's memo of its Songlengths database: four cached fields that are proved
 to answer as one remembered attempt would, made at most once for each change of
 the path.
*/
module Memo {
  import opened Wrappers
  import opened SongLengths

  type Path = string

  /** What loading from a path gives at one moment; `None` if there is no database
      to be had. */
  type Disk = map<Path, Database>

  function Load(disk: Disk, path: Path): Option<Database> {
    if path in disk then Some(disk[path]) else None
  }

  // ---- The simple form ----

  /** The configured path, and what the one attempt since it was configured gave. */
  datatype Simple = Simple(configured: Option<Path>, attempt: Option<Option<Database>>)

  function SetPath(s: Simple, path: Option<Path>): Simple {
    if path == s.configured then s else Simple(path, None)
  }

  function Lookup(s: Simple, disk: Disk): Simple {
    match s.configured
    case None => s
    case Some(path) => if s.attempt == None then s.(attempt := Some(Load(disk, path))) else s
  }

  function Answer(s: Simple): Option<Database> {
    match s.attempt
    case None => None
    case Some(result) => result
  }

  // ---- The memo as it is kept ----

  class SongLengthsState {
    var configured: Option<Path>
    var loaded: Option<Database>
    var loadedFrom: Option<Path>
    var failedFor: Option<Path>
    /** How often anything was loaded, or tried. */
    ghost var loads: nat

    ghost predicate Valid()
      reads this
    {
      && (failedFor.Some? ==> failedFor == loadedFrom)
      && (loadedFrom.Some? ==> loadedFrom == configured && (loaded.Some? <==> failedFor == None))
    }

    ghost function Abstract(): Simple
      reads this
    {
      Simple(configured, if loadedFrom == None then None else Some(loaded))
    }

    constructor ()
      ensures Valid() && Abstract() == Simple(None, None) && loads == 0
    {
      configured, loaded, loadedFrom, failedFor, loads := None, None, None, None, 0;
    }

    method SetSongLengthsPath(path: Option<Path>)
      requires Valid()
      modifies this
      ensures Valid() && Abstract() == SetPath(old(Abstract()), path) && loads == old(loads)
    {
      if configured != path {
        loadedFrom := None;
        failedFor := None;
      }
      configured := path;
    }

    method Database(disk: Disk) returns (db: Option<Database>)
      requires Valid()
      modifies this
      ensures Valid() && Abstract() == Lookup(old(Abstract()), disk) && db == Answer(Abstract())
      ensures loads == old(loads) + if old(configured).Some? && old(Abstract()).attempt == None then 1 else 0
    {
      if configured == None {
        return None;
      }
      if loadedFrom != configured {
        loaded := None;
        loadedFrom := configured;
        failedFor := None;
      }
      if loaded.Some? {
        return loaded;
      }
      if failedFor == configured {
        return None;
      }
      loads := loads + 1;
      db := Load(disk, configured.value);
      if db.Some? {
        loaded := db;
      } else {
        failedFor := configured;
      }
    }
  }

  // ---- Runs ----

  datatype Call = Configure(path: Option<Path>) | Use(disk: Disk)

  function Called(s: Simple, call: Call): Simple {
    match call
    case Configure(path) => SetPath(s, path)
    case Use(disk) => Lookup(s, disk)
  }

  function Run(s: Simple, calls: seq<Call>): Simple
    decreases |calls|
  {
    if calls == [] then s else Run(Called(s, calls[0]), calls[1..])
  }

  /** Whether a call loads. */
  predicate Loads(s: Simple, call: Call) {
    call.Use? && s.configured.Some? && s.attempt == None
  }

  function LoadsIn(s: Simple, calls: seq<Call>): nat
    decreases |calls|
  {
    if calls == [] then 0
    else (if Loads(s, calls[0]) then 1 else 0) + LoadsIn(Called(s, calls[0]), calls[1..])
  }

  /** Whether a call changes the configured path. */
  predicate Reconfigures(s: Simple, call: Call) {
    call.Configure? && call.path != s.configured
  }

  function ChangesIn(s: Simple, calls: seq<Call>): nat
    decreases |calls|
  {
    if calls == [] then 0
    else (if Reconfigures(s, calls[0]) then 1 else 0) + ChangesIn(Called(s, calls[0]), calls[1..])
  }

  /** At most one load for every change of path, failed ones included. */
  lemma {:induction false} OneLoadPerChange(s: Simple, calls: seq<Call>)
    ensures LoadsIn(s, calls)
         <= ChangesIn(s, calls) + if s.configured.Some? && s.attempt == None then 1 else 0
    decreases |calls|
  {
    if calls == [] {
    } else {
      OneLoadPerChange(Called(s, calls[0]), calls[1..]);
    }
  }

  ghost predicate NoChange(s: Simple, calls: seq<Call>) {
    forall i :: 0 <= i < |calls| ==> !Reconfigures(s, calls[i])
  }

  lemma SamePath(s: Simple, call: Call)
    requires !Reconfigures(s, call)
    ensures Called(s, call).configured == s.configured
    ensures s.attempt.Some? ==> Called(s, call) == s
  {
  }

  /** From one change of path to the next, every use is answered by the load of
      the first use: from that path, as the disk was then. */
  lemma AnswersFromTheFirstUse(s: Simple, path: Path, calls: seq<Call>, i: nat)
    requires s.configured != Some(path)
    requires NoChange(SetPath(s, Some(path)), calls) && i < |calls| && calls[i].Use?
    requires forall j :: 0 <= j < i ==> !calls[j].Use?
    ensures Run(s, [Configure(Some(path))] + calls) == Simple(Some(path), Some(Load(calls[i].disk, path)))
    ensures var answer := Answer(Run(s, [Configure(Some(path))] + calls));
      if path in calls[i].disk then answer == Some(calls[i].disk[path]) else answer == None
  {
    var all := [Configure(Some(path))] + calls;
    assert all[1..] == calls;
    FirstUse(Simple(Some(path), None), path, calls, i);
  }

  lemma {:induction false} FirstUse(s: Simple, path: Path, calls: seq<Call>, i: nat)
    requires s == Simple(Some(path), None) && NoChange(s, calls) && i < |calls| && calls[i].Use?
    requires forall j :: 0 <= j < i ==> !calls[j].Use?
    ensures Run(s, calls) == Simple(Some(path), Some(Load(calls[i].disk, path)))
    decreases |calls|
  {
    if i == 0 {
      Settled(Called(s, calls[0]), calls[1..]);
    } else {
      assert !calls[0].Use? && !Reconfigures(s, calls[0]);
      FirstUse(s, path, calls[1..], i - 1);
    }
  }

  lemma {:induction false} Settled(s: Simple, calls: seq<Call>)
    requires s.attempt.Some? && NoChange(s, calls)
    ensures Run(s, calls) == s
    decreases |calls|
  {
    if calls == [] {
    } else {
      assert !Reconfigures(s, calls[0]);
      SamePath(s, calls[0]);
      Settled(s, calls[1..]);
    }
  }
  /** Without a path there is no database, whatever was loaded before. */
  lemma {:induction false} NoPathNoAnswer(s: Simple, calls: seq<Call>)
    requires s.configured == None ==> s.attempt == None
    ensures Run(s, calls).configured == None ==> Answer(Run(s, calls)) == None
    decreases |calls|
  {
    if calls != [] {
      NoPathNoAnswer(Called(s, calls[0]), calls[1..]);
    }
  }
}
