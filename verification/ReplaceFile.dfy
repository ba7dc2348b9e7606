/**
 N writers publishing one destination, in any interleaving: each writes its own
 temporary file, then renames it into place; where a rename does not replace
 (Windows), it removes the destination, tries once more, and discards its file
 if another writer got in between.
*/
module ReplaceFile {
  import opened Wrappers

  type Bytes = seq<nat>

  /** Where a writer is. `Writing(n)`: `n` bytes of its file are written. */
  datatype Pc = Writing(n: nat) | Refused | Removed | Lost | Done(won: bool)

  /** One system call of writer `w`. */
  datatype Action = Write(w: nat, n: nat) | Rename(w: nat) | Remove(w: nat) | Retry(w: nat) | Discard(w: nat)

  /** The destination, who put it there, each writer's temporary file and place,
      and whether the destination was ever there. */
  datatype State = State(dest: Option<Bytes>, owner: nat, temps: seq<Option<Bytes>>, pcs: seq<Pc>, appeared: bool)

  /** What each writer writes, and whether a rename takes the place of an
      existing target. */
  datatype Setting = Setting(contents: seq<Bytes>, atomic: bool)

  function Init(c: Setting): State {
    State(None, 0, seq(|c.contents|, _ => Some([])), seq(|c.contents|, _ => Writing(0)), false)
  }

  predicate Shaped(c: Setting, s: State) {
    |s.temps| == |s.pcs| == |c.contents|
  }

  predicate Enabled(c: Setting, s: State, a: Action)
    requires Shaped(c, s)
  {
    a.w < |s.pcs| &&
    match a
    case Write(w, n) => s.pcs[w].Writing? && s.pcs[w].n < |c.contents[w]| && 0 < n <= |c.contents[w]| - s.pcs[w].n
    case Rename(w) => s.pcs[w] == Writing(|c.contents[w]|)
    case Remove(w) => s.pcs[w] == Refused
    case Retry(w) => s.pcs[w] == Removed
    case Discard(w) => s.pcs[w] == Lost
  }

  /** A rename of `w`'s file: it fails exactly when the target is there and is
      not replaced. */
  function Renamed(c: Setting, s: State, w: nat, otherwise: Pc): State
    requires Shaped(c, s) && w < |s.pcs|
  {
    if (s.dest == None || c.atomic) && s.temps[w].Some? then
      State(s.temps[w], w, s.temps[w := None], s.pcs[w := Done(true)], true)
    else
      s.(pcs := s.pcs[w := otherwise])
  }

  function Apply(c: Setting, s: State, a: Action): (s': State)
    requires Shaped(c, s) && Enabled(c, s, a)
    ensures Shaped(c, s')
  {
    match a
    case Write(w, n) =>
      var written := s.pcs[w].n + n;
      s.(temps := s.temps[w := Some(c.contents[w][..written])], pcs := s.pcs[w := Writing(written)])
    case Rename(w) => Renamed(c, s, w, Refused)
    case Remove(w) => s.(dest := None, pcs := s.pcs[w := Removed])
    case Retry(w) => Renamed(c, s, w, Lost)
    case Discard(w) => s.(temps := s.temps[w := None], pcs := s.pcs[w := Done(false)])
  }

  /** The state after a run, if every action of it was enabled in its turn. */
  function Run(c: Setting, s: State, run: seq<Action>): (r: Option<State>)
    requires Shaped(c, s)
    ensures r.Some? ==> Shaped(c, r.value)
    decreases |run|
  {
    if run == [] then Some(s)
    else if Enabled(c, s, run[0]) then Run(c, Apply(c, s, run[0]), run[1..])
    else None
  }

  // ---- What every interleaving keeps ----

  ghost predicate Between(s: State, w: nat) {
    w < |s.pcs| && s.pcs[w] == Removed
  }

  ghost predicate WriterInvariant(c: Setting, s: State, w: nat)
    requires Shaped(c, s) && w < |s.pcs|
  {
    match s.pcs[w]
    case Writing(n) => n <= |c.contents[w]| && s.temps[w] == Some(c.contents[w][..n])
    case Refused => s.temps[w] == Some(c.contents[w]) && s.appeared
    case Removed => s.temps[w] == Some(c.contents[w]) && s.appeared
    case Lost => s.temps[w] == Some(c.contents[w]) && s.appeared
    case Done(_) => s.temps[w] == None && s.appeared
  }

  ghost predicate Invariant(c: Setting, s: State) {
    && Shaped(c, s)
    && (forall w: nat :: w < |s.pcs| ==> WriterInvariant(c, s, w))
    && (s.dest.Some? ==> s.appeared && s.owner < |s.pcs| && s.pcs[s.owner] == Done(true)
                         && s.dest.value == c.contents[s.owner])
    && (s.appeared && s.dest == None ==> exists w: nat :: Between(s, w))
    && (c.atomic ==> forall w: nat :: w < |s.pcs| ==> !s.pcs[w].Refused? && !s.pcs[w].Removed?)
  }

  lemma InitInvariant(c: Setting)
    ensures Invariant(c, Init(c))
  {
  }

  lemma StepKeepsInvariant(c: Setting, s: State, a: Action)
    requires Invariant(c, s) && Enabled(c, s, a)
    ensures Invariant(c, Apply(c, s, a))
  {
    var s' := Apply(c, s, a);
    var w := a.w;
    assert WriterInvariant(c, s, w);
    forall v: nat | v < |s'.pcs| ensures WriterInvariant(c, s', v) {
      assert WriterInvariant(c, s, v);
      if a.Rename? && v == w {
        assert c.contents[w][..|c.contents[w]|] == c.contents[w];
      }
    }
    if s'.appeared && s'.dest == None {
      if a.Remove? {
        assert Between(s', w);
      } else {
        var v: nat :| Between(s, v);
        assert Between(s', v);
      }
    }
  }

  lemma {:induction false} RunKeepsInvariant(c: Setting, s: State, run: seq<Action>)
    requires Invariant(c, s) && Run(c, s, run).Some?
    ensures Invariant(c, Run(c, s, run).value)
    decreases |run|
  {
    if run == [] {
    } else {
      StepKeepsInvariant(c, s, run[0]);
      RunKeepsInvariant(c, Apply(c, s, run[0]), run[1..]);
    }
  }

  // ---- Main results ----

  /** In every interleaving, whatever is at the destination is the complete file
      of one writer that has finished; and once the destination has appeared it
      is missing only while some writer stands between its remove and its
      retry. */
  lemma DestinationIsComplete(c: Setting, run: seq<Action>)
    requires Run(c, Init(c), run).Some?
    ensures var s := Run(c, Init(c), run).value;
      && (s.dest.Some? ==> s.owner < |c.contents| && s.dest.value == c.contents[s.owner] && s.pcs[s.owner] == Done(true))
      && (s.appeared && s.dest == None ==> !c.atomic && exists w: nat :: Between(s, w))
  {
    InitInvariant(c);
    RunKeepsInvariant(c, Init(c), run);
  }

  predicate Quiescent(s: State) {
    forall w: nat :: w < |s.pcs| ==> s.pcs[w].Done?
  }

  /** When every writer is done, the destination is there and no temporary file
      remains. */
  lemma QuiescenceLeavesOneFile(c: Setting, run: seq<Action>)
    requires Run(c, Init(c), run).Some? && Quiescent(Run(c, Init(c), run).value) && |c.contents| > 0
    ensures var s := Run(c, Init(c), run).value;
      && s.dest.Some? && s.dest.value in c.contents
      && forall w: nat :: w < |s.temps| ==> s.temps[w] == None
  {
    InitInvariant(c);
    RunKeepsInvariant(c, Init(c), run);
    var s := Run(c, Init(c), run).value;
    assert WriterInvariant(c, s, 0);
    forall w: nat | w < |s.temps| ensures s.temps[w] == None {
      assert WriterInvariant(c, s, w);
    }
  }

  // ---- It replaces ----

  /** Left to itself, a writer that has not lost puts its own file in place, whatever was
      there: where renames replace and where they do not. */
  lemma {:induction false} AloneReplaces(c: Setting, s: State, w: nat, run: seq<Action>)
    requires Invariant(c, s) && w < |s.pcs| && (s.pcs[w].Writing? || s.pcs[w].Refused? || CanRetry(s, w))
    requires forall i :: 0 <= i < |run| ==> run[i].w == w
    requires Run(c, s, run).Some? && Run(c, s, run).value.pcs[w].Done?
    ensures var after := Run(c, s, run).value;
      after.dest == Some(c.contents[w]) && after.owner == w && after.pcs[w] == Done(true)
    decreases |run|
  {
    assert run != [];
    var next := Apply(c, s, run[0]);
    assert WriterInvariant(c, s, w);
    StepKeepsInvariant(c, s, run[0]);
    if next.pcs[w].Done? {
      DoneIsDone(c, next, w, run[1..]);
    } else {
      AloneReplaces(c, next, w, run[1..]);
    }
  }

  /** It has removed the destination, and nobody has put anything there since. */
  ghost predicate CanRetry(s: State, w: nat) {
    w < |s.pcs| && s.pcs[w].Removed? && s.dest == None
  }

  lemma DoneIsDone(c: Setting, s: State, w: nat, run: seq<Action>)
    requires Shaped(c, s) && w < |s.pcs| && s.pcs[w].Done? && Run(c, s, run).Some?
    requires forall i :: 0 <= i < |run| ==> run[i].w == w
    ensures run == []
  {
  }

  /** A rename that finds the place free, or takes it. */
  predicate Takes(c: Setting, s: State, a: Action) {
    (a.Rename? || a.Retry?) && (s.dest == None || c.atomic)
  }

  /** Who was the last in a run to do so; `w` if nobody. */
  function LastToTake(c: Setting, s: State, run: seq<Action>, w: Option<nat>): Option<nat>
    requires Shaped(c, s)
    decreases |run|
  {
    if run == [] || !Enabled(c, s, run[0]) then w
    else LastToTake(c, Apply(c, s, run[0]), run[1..], if Takes(c, s, run[0]) then Some(run[0].w) else w)
  }

  lemma {:induction false} LastToTakeOwns(c: Setting, s: State, run: seq<Action>, w: Option<nat>)
    requires Invariant(c, s) && Run(c, s, run).Some? && (s.dest.Some? ==> w == Some(s.owner))
    ensures var after := Run(c, s, run).value;
      after.dest.Some? ==> LastToTake(c, s, run, w) == Some(after.owner)
    decreases |run|
  {
    if run != [] {
      assert WriterInvariant(c, s, run[0].w);
      StepKeepsInvariant(c, s, run[0]);
      LastToTakeOwns(c, Apply(c, s, run[0]), run[1..], if Takes(c, s, run[0]) then Some(run[0].w) else w);
    }
  }

  /** When every writer is done, the file in place is that of the last rename that found the
      place free or took it: in every interleaving the last one wins. */
  lemma TheLastOneWins(c: Setting, run: seq<Action>)
    requires Run(c, Init(c), run).Some? && Quiescent(Run(c, Init(c), run).value) && |c.contents| > 0
    ensures var last := LastToTake(c, Init(c), run, None);
      last.Some? && last.value < |c.contents| && Run(c, Init(c), run).value.dest == Some(c.contents[last.value])
  {
    InitInvariant(c);
    QuiescenceLeavesOneFile(c, run);
    DestinationIsComplete(c, run);
    LastToTakeOwns(c, Init(c), run, None);
  }

  /** Where renames replace, nobody loses. */
  lemma NobodyLoses(c: Setting, run: seq<Action>, w: nat)
    requires c.atomic && Run(c, Init(c), run).Some? && w < |c.contents|
    ensures Run(c, Init(c), run).value.pcs[w].Done? ==> Run(c, Init(c), run).value.pcs[w] == Done(true)
  {
    NobodyLosesFrom(c, Init(c), run, w);
  }

  lemma {:induction false} NobodyLosesFrom(c: Setting, s: State, run: seq<Action>, w: nat)
    requires c.atomic && Invariant(c, s) && Run(c, s, run).Some? && w < |s.pcs|
    requires s.pcs[w] == Done(true) || s.pcs[w].Writing?
    ensures var pc := Run(c, s, run).value.pcs[w]; pc == Done(true) || pc.Writing?
    decreases |run|
  {
    if run != [] {
      assert WriterInvariant(c, s, w);
      StepKeepsInvariant(c, s, run[0]);
      NobodyLosesFrom(c, Apply(c, s, run[0]), run[1..], w);
    }
  }

  /** When a retry fails, another writer's complete file is in place, as the
      source's comment says: at that moment. */
  lemma LosersSeeAFile(c: Setting, s: State, w: nat)
    requires Invariant(c, s) && Enabled(c, s, Retry(w)) && Apply(c, s, Retry(w)).pcs[w] == Lost
    ensures s.dest.Some? && s.owner != w && s.dest.value == c.contents[s.owner]
  {
    assert WriterInvariant(c, s, w);
  }

  /** It need not stay: where renames do not replace, any two writers have a run
      after which one has finished, its call having returned, and the other keeps
      the destination away. */
  lemma FinishedWithoutAFile(c: Setting) returns (run: seq<Action>)
    requires !c.atomic && |c.contents| >= 2
    ensures var r := Run(c, Init(c), run);
      r.Some? && r.value.pcs[0] == Done(true) && r.value.pcs[1] == Removed && r.value.appeared && r.value.dest == None
  {
    var first, s1 := WriteOut(c, Init(c), 0);
    var second, s2 := WriteOut(c, s1, 1);
    run := first + (second + [Rename(0), Rename(1), Remove(1)]);
    RunConcat(c, Init(c), first, second + [Rename(0), Rename(1), Remove(1)]);
    RunConcat(c, s1, second, [Rename(0), Rename(1), Remove(1)]);
    var s3 := Apply(c, s2, Rename(0));
    var s4 := Apply(c, s3, Rename(1));
    var s5 := Apply(c, s4, Remove(1));
    assert [Rename(0), Rename(1), Remove(1)][1..] == [Rename(1), Remove(1)];
    assert [Rename(1), Remove(1)][1..] == [Remove(1)];
    assert Run(c, s4, [Remove(1)]) == Run(c, s5, []);
    assert Run(c, s3, [Rename(1), Remove(1)]) == Some(s5);
  }

  /** A writer that has the place to itself is never refused. */
  ghost predicate Alone(s: State) {
    forall w: nat :: w < |s.pcs| ==> s.pcs[w] == Done(true) || (s.pcs[w].Writing? && s.dest == None)
  }

  lemma {:induction false} AloneStays(c: Setting, s: State, run: seq<Action>)
    requires Invariant(c, s) && |c.contents| <= 1 && Alone(s) && Run(c, s, run).Some?
    ensures Alone(Run(c, s, run).value)
    decreases |run|
  {
    if run == [] {
    } else {
      StepKeepsInvariant(c, s, run[0]);
      assert WriterInvariant(c, s, run[0].w);
      AloneStays(c, Apply(c, s, run[0]), run[1..]);
    }
  }

  /** Some writer's call has returned. */
  ghost predicate Returned(s: State) {
    exists w: nat :: w < |s.pcs| && s.pcs[w].Done?
  }

  /** In every interleaving, once a writer's call has returned a file is in
      place: so it is if and only if a rename replaces its target or there is at
      most one writer. */
  lemma ReturnedMeansInPlace(c: Setting)
    ensures (forall run :: Run(c, Init(c), run).Some? && Returned(Run(c, Init(c), run).value) ==>
              Run(c, Init(c), run).value.dest.Some?)
       <==> c.atomic || |c.contents| <= 1
  {
    if c.atomic || |c.contents| <= 1 {
      forall run | Run(c, Init(c), run).Some? && Returned(Run(c, Init(c), run).value)
        ensures Run(c, Init(c), run).value.dest.Some?
      {
        OnceThereStays(c, run);
        InitInvariant(c);
        RunKeepsInvariant(c, Init(c), run);
        var w: nat :| w < |c.contents| && Run(c, Init(c), run).value.pcs[w].Done?;
        assert WriterInvariant(c, Run(c, Init(c), run).value, w);
      }
    } else {
      var run := FinishedWithoutAFile(c);
      assert Returned(Run(c, Init(c), run).value);
    }
  }

  /** The same of a destination that has appeared. */
  lemma AppearedMeansInPlace(c: Setting)
    ensures (forall run :: Run(c, Init(c), run).Some? && Run(c, Init(c), run).value.appeared ==>
              Run(c, Init(c), run).value.dest.Some?)
       <==> c.atomic || |c.contents| <= 1
  {
    if c.atomic || |c.contents| <= 1 {
      forall run | Run(c, Init(c), run).Some? && Run(c, Init(c), run).value.appeared
        ensures Run(c, Init(c), run).value.dest.Some?
      {
        OnceThereStays(c, run);
      }
    } else {
      var run := FinishedWithoutAFile(c);
    }
  }

  lemma OnceThereStays(c: Setting, run: seq<Action>)
    requires (c.atomic || |c.contents| <= 1) && Run(c, Init(c), run).Some?
    ensures var s := Run(c, Init(c), run).value; s.appeared ==> s.dest.Some?
  {
    var s := Run(c, Init(c), run).value;
    DestinationIsComplete(c, run);
    InitInvariant(c);
    if !c.atomic {
      AloneStays(c, Init(c), run);
    }
  }

  /** Writer `w` writes all its bytes. */
  lemma WriteOut(c: Setting, s: State, w: nat) returns (run: seq<Action>, s': State)
    requires Shaped(c, s) && w < |s.pcs| && s.pcs[w] == Writing(0) && s.temps[w] == Some([])
    ensures Run(c, s, run) == Some(s')
    ensures s' == s.(temps := s.temps[w := Some(c.contents[w])], pcs := s.pcs[w := Writing(|c.contents[w]|)])
  {
    if c.contents[w] == [] {
      run, s' := [], s;
      assert s.temps[w := Some([])] == s.temps && s.pcs[w := Writing(0)] == s.pcs;
    } else {
      run := [Write(w, |c.contents[w]|)];
      s' := Apply(c, s, run[0]);
      assert c.contents[w][..|c.contents[w]|] == c.contents[w];
      assert run[1..] == [];
    }
  }

  lemma {:induction false} RunConcat(c: Setting, s: State, first: seq<Action>, second: seq<Action>)
    requires Shaped(c, s) && Run(c, s, first).Some?
    ensures Run(c, s, first + second) == Run(c, Run(c, s, first).value, second)
    decreases |first|
  {
    if first == [] {
      assert first + second == second;
    } else {
      assert (first + second)[1..] == first[1..] + second;
      RunConcat(c, Apply(c, s, first[0]), first[1..], second);
    }
  }

  // ---- Every interleaving ends ----

  function StepsLeft(content: Bytes, pc: Pc): nat {
    match pc
    case Writing(n) => 4 + if n <= |content| then |content| - n else 0
    case Refused => 3
    case Removed => 2
    case Lost => 1
    case Done(_) => 0
  }

  function TotalLeft(contents: seq<Bytes>, pcs: seq<Pc>): nat
    requires |contents| == |pcs|
  {
    if pcs == [] then 0 else StepsLeft(contents[0], pcs[0]) + TotalLeft(contents[1..], pcs[1..])
  }

  lemma {:induction false} TotalUpdate(contents: seq<Bytes>, pcs: seq<Pc>, w: nat, pc: Pc)
    requires |contents| == |pcs| && w < |pcs|
    ensures TotalLeft(contents, pcs[w := pc]) + StepsLeft(contents[w], pcs[w])
         == TotalLeft(contents, pcs) + StepsLeft(contents[w], pc)
    decreases |pcs|
  {
    if w == 0 {
      assert pcs[0 := pc][1..] == pcs[1..];
    } else {
      assert pcs[w := pc][1..] == pcs[1..][w - 1 := pc];
      TotalUpdate(contents[1..], pcs[1..], w - 1, pc);
    }
  }

  lemma StepIsProgress(c: Setting, s: State, a: Action)
    requires Invariant(c, s) && Enabled(c, s, a)
    ensures TotalLeft(c.contents, Apply(c, s, a).pcs) < TotalLeft(c.contents, s.pcs)
  {
    assert WriterInvariant(c, s, a.w);
    TotalUpdate(c.contents, s.pcs, a.w, Apply(c, s, a).pcs[a.w]);
  }

  /** No run is longer than the bytes to write and four calls a writer. */
  lemma {:induction false} RunsAreBounded(c: Setting, s: State, run: seq<Action>)
    requires Invariant(c, s) && Run(c, s, run).Some?
    ensures |run| + TotalLeft(c.contents, Run(c, s, run).value.pcs) <= TotalLeft(c.contents, s.pcs)
    decreases |run|
  {
    if run == [] {
    } else {
      StepIsProgress(c, s, run[0]);
      StepKeepsInvariant(c, s, run[0]);
      RunsAreBounded(c, Apply(c, s, run[0]), run[1..]);
    }
  }

  /** And a run that is not quiescent can go on: whichever writer is not done
      has a call to make. */
  lemma NotDoneIsNotStuck(c: Setting, s: State, w: nat) returns (a: Action)
    requires Invariant(c, s) && w < |s.pcs| && !s.pcs[w].Done?
    ensures a.w == w && Enabled(c, s, a)
  {
    assert WriterInvariant(c, s, w);
    a := match s.pcs[w]
      case Writing(n) => if n < |c.contents[w]| then Write(w, 1) else Rename(w)
      case Refused => Remove(w)
      case Removed => Retry(w)
      case Lost => Discard(w);
  }
}
