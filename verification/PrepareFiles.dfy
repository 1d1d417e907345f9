/**
 Parallel preparation of the corpus (`prepare_files`, src/graph/build.rs): workers claim indices
 from a shared counter and push their results under a lock; the results are then put into slots.
 Every interleaving of the workers' atomic steps is a run of `Step`.
 */
module PrepareFiles {
  import opened Prelude

  /** Where a worker is in its loop. */
  datatype Worker =
    | Checking               // about to ask whether the build was cancelled
    | Claiming               // about to take the next index
    | Preparing(index: nat)  // prepares the file at its index, then pushes the result
    | Stopped

  datatype Result<P> = Result(index: nat, prepared: Option<P>)

  datatype State<P> = State(next: nat, workers: seq<Worker>, results: seq<Result<P>>)

  ghost predicate Init<P>(s: State<P>) {
    s.next == 0 && s.results == [] && forall w :: 0 <= w < |s.workers| ==> s.workers[w] == Checking
  }

  /** Worker `w` takes one atomic step; `cancelled` is what the cancel hook answers if it is asked. */
  function Step<F, P>(files: seq<F>, prepare: F -> Option<P>, s: State<P>, w: nat, cancelled: bool): State<P>
    requires w < |s.workers|
  {
    match s.workers[w]
    case Checking => s.(workers := s.workers[w := if cancelled then Stopped else Claiming])
    case Claiming =>
      s.(next := s.next + 1, workers := s.workers[w := if s.next < |files| then Preparing(s.next) else Stopped])
    case Preparing(i) =>
      if i < |files| then
        s.(workers := s.workers[w := Checking], results := s.results + [Result(i, prepare(files[i]))])
      else s
    case Stopped => s
  }

  ghost predicate Pushed<P>(s: State<P>, i: nat) { exists r :: 0 <= r < |s.results| && s.results[r].index == i }

  ghost predicate Held<P>(s: State<P>, i: nat) { exists w :: 0 <= w < |s.workers| && s.workers[w] == Preparing(i) }

  /** How many indices of the corpus have been handed out. */
  function Claimed<F, P>(files: seq<F>, s: State<P>): nat { Min(s.next, |files|) }

  /** Every claimed index is with exactly one worker or in the results exactly once, never both. */
  ghost predicate Inv<F, P>(files: seq<F>, prepare: F -> Option<P>, s: State<P>) {
    && (forall i: nat :: i < Claimed(files, s) ==> Held(s, i) || Pushed(s, i))
    && (forall w :: 0 <= w < |s.workers| && s.workers[w].Preparing? ==>
          s.workers[w].index < Claimed(files, s) && !Pushed(s, s.workers[w].index))
    && (forall v, w :: 0 <= v < w < |s.workers| && s.workers[v].Preparing? ==> s.workers[v] != s.workers[w])
    && ResultsOk(files, prepare, s)
  }

  /** Each index is pushed at most once, with what preparing its file gives. */
  ghost predicate ResultsOk<F, P>(files: seq<F>, prepare: F -> Option<P>, s: State<P>) {
    && (forall q, r :: 0 <= q < r < |s.results| ==> s.results[q].index != s.results[r].index)
    && (forall r :: 0 <= r < |s.results| ==>
          s.results[r].index < Claimed(files, s) && s.results[r].prepared == prepare(files[s.results[r].index]))
  }

  lemma PushedGrows<P>(s: State<P>, s': State<P>, r: Result<P>, i: nat)
    requires s'.results == s.results + [r]
    ensures Pushed(s', i) <==> Pushed(s, i) || i == r.index
  {
    if Pushed(s, i) {
      var q :| 0 <= q < |s.results| && s.results[q].index == i;
      assert s'.results[q].index == i;
    }
    assert s'.results[|s.results|] == r;
  }

  lemma HeldAfter<P>(s: State<P>, s': State<P>, w: nat, i: nat)
    requires w < |s.workers| == |s'.workers| && s'.workers == s.workers[w := s'.workers[w]] && Held(s, i)
    ensures Held(s', i) || s.workers[w] == Preparing(i)
  {
    var v :| 0 <= v < |s.workers| && s.workers[v] == Preparing(i);
    assert v != w ==> s'.workers[v] == Preparing(i);
  }

  lemma PushKeeps<F, P>(files: seq<F>, prepare: F -> Option<P>, s: State<P>, w: nat, cancelled: bool)
    requires Inv(files, prepare, s) && w < |s.workers| && s.workers[w].Preparing?
    ensures Inv(files, prepare, Step(files, prepare, s, w, cancelled))
  {
    var i := s.workers[w].index;
    var s' := Step(files, prepare, s, w, cancelled);
    var r := Result(i, prepare(files[i]));
    assert s'.workers[w] == Checking;
    forall j: nat { PushedGrows(s, s', r, j); }
    forall j: nat | j < Claimed(files, s')
      ensures Held(s', j) || Pushed(s', j)
    {
      if Held(s, j) {
        HeldAfter(s, s', w, j);
      }
    }
    forall q | 0 <= q < |s.results|
      ensures s.results[q].index != i
    {
      assert !Pushed(s, i);
    }
  }

  lemma ClaimKeeps<F, P>(files: seq<F>, prepare: F -> Option<P>, s: State<P>, w: nat, cancelled: bool)
    requires Inv(files, prepare, s) && w < |s.workers| && s.workers[w] == Claiming
    ensures Inv(files, prepare, Step(files, prepare, s, w, cancelled))
  {
    var s' := Step(files, prepare, s, w, cancelled);
    assert forall j: nat :: Pushed(s', j) <==> Pushed(s, j);
    forall j: nat | j < Claimed(files, s')
      ensures Held(s', j) || Pushed(s', j)
    {
      if j == s.next {
        assert s'.workers[w] == Preparing(j);
      } else if Held(s, j) {
        HeldAfter(s, s', w, j);
      }
    }
    forall v | 0 <= v < |s'.workers| && s'.workers[v].Preparing?
      ensures s'.workers[v].index < Claimed(files, s') && !Pushed(s', s'.workers[v].index)
    {
    }
  }

  /** Every step of every worker keeps the invariant, whatever the cancel hook answers. */
  lemma StepKeeps<F, P>(files: seq<F>, prepare: F -> Option<P>, s: State<P>, w: nat, cancelled: bool)
    requires Inv(files, prepare, s) && w < |s.workers|
    ensures Inv(files, prepare, Step(files, prepare, s, w, cancelled))
  {
    match s.workers[w] {
      case Preparing(_) => PushKeeps(files, prepare, s, w, cancelled);
      case Claiming => ClaimKeeps(files, prepare, s, w, cancelled);
      case _ =>
        var s' := Step(files, prepare, s, w, cancelled);
        assert forall j: nat :: Pushed(s', j) <==> Pushed(s, j);
        forall j: nat | j < Claimed(files, s')
          ensures Held(s', j) || Pushed(s', j)
        {
          if Held(s, j) {
            HeldAfter(s, s', w, j);
          }
        }
    }
  }

  ghost predicate AllStopped<P>(s: State<P>) { forall w :: 0 <= w < |s.workers| ==> s.workers[w] == Stopped }

  // ----- The results -----

  /** The sequential meaning: prepare each file in corpus order and keep what could be read. */
  function FilterMap<F, P>(files: seq<F>, prepare: F -> Option<P>): seq<P> {
    if files == [] then []
    else
      FilterMap(files[..|files| - 1], prepare)
      + match prepare(files[|files| - 1]) case Some(p) => [p] case None => []
  }

  /** What is kept: the prepared form of every file that could be read, in corpus order. */
  ghost predicate KeptFrom<F(!new), P(!new)>(from: seq<nat>, files: seq<F>, prepare: F -> Option<P>, out: seq<P>) {
    && |from| == |out|
    && (forall i :: 0 <= i < |from| ==> from[i] < |files| && prepare(files[from[i]]) == Some(out[i]))
    && (forall i, j :: 0 <= i < j < |from| ==> from[i] < from[j])
    && (forall k: nat :: k < |files| && prepare(files[k]).Some? ==> k in from)
  }

  lemma {:induction false} FilterMapKeepsOrder<F(!new), P(!new)>(files: seq<F>, prepare: F -> Option<P>) returns (from: seq<nat>)
    ensures KeptFrom(from, files, prepare, FilterMap(files, prepare))
  {
    from := [];
    if files != [] {
      var n := |files| - 1;
      var front := FilterMap(files[..n], prepare);
      FilterMapSnoc(files[..n], files[n], prepare);
      assert files == files[..n] + [files[n]];
      var before := FilterMapKeepsOrder(files[..n], prepare);
      hide FilterMap, KeptFrom;
      KeptSnoc(before, files[..n], files[n], prepare, front);
      from := if prepare(files[n]).Some? then before + [n] else before;
    }
  }

  lemma FilterMapSnoc<F(!new), P(!new)>(files: seq<F>, f: F, prepare: F -> Option<P>)
    ensures FilterMap(files + [f], prepare) ==
            FilterMap(files, prepare) + match prepare(f) case Some(p) => [p] case None => []
  {
    assert (files + [f])[..|files|] == files;
  }

  lemma KeptSnoc<F(!new), P(!new)>(from: seq<nat>, files: seq<F>, f: F, prepare: F -> Option<P>, out: seq<P>)
    requires KeptFrom(from, files, prepare, out)
    ensures match prepare(f)
            case Some(p) => KeptFrom(from + [|files|], files + [f], prepare, out + [p])
            case None => KeptFrom(from, files + [f], prepare, out + [])
  {
    assert out + [] == out;
    if prepare(f).Some? {
      assert (from + [|files|])[|from|] == |files|;
    }
  }

  /** What a slot holds after all results were stored. */
  ghost predicate SlotIs<P>(slot: Option<P>, results: seq<Result<P>>, i: nat) {
    && (forall r :: 0 <= r < |results| && results[r].index == i ==> slot == results[r].prepared)
    && ((forall r :: 0 <= r < |results| ==> results[r].index != i) ==> slot == None)
  }

  /** Stores the results by index and keeps the filled slots in order. */
  method Assemble<F, P>(files: seq<F>, prepare: F -> Option<P>, s: State<P>) returns (out: seq<P>)
    requires Inv(files, prepare, s) && AllStopped(s)
    ensures out == FilterMap(files[..Claimed(files, s)], prepare)
  {
    var slots := new Option<P>[|files|](_ => None);
    for r := 0 to |s.results|
      invariant forall i :: 0 <= i < |files| ==> SlotIs(slots[i], s.results[..r], i)
    {
      var result := s.results[r];
      slots[result.index] := result.prepared;
      TakeSnoc(s.results, r);
    }
    TakeAll(s.results);
    var filled := slots[..];
    out := [];
    ghost var claimed := Claimed(files, s);
    for i := 0 to |files|
      invariant out == FilterMap(files[..Min(i, claimed)], prepare)
    {
      SlotMeaning(files, prepare, s, i, filled[i]);
      if filled[i].Some? {
        out := out + [filled[i].value];
      }
      if i < claimed {
        assert files[..i + 1][..i] == files[..i];
      }
    }
  }

  lemma SlotMeaning<F, P>(files: seq<F>, prepare: F -> Option<P>, s: State<P>, i: nat, slot: Option<P>)
    requires Inv(files, prepare, s) && AllStopped(s) && i < |files| && SlotIs(slot, s.results, i)
    ensures slot == if i < Claimed(files, s) then prepare(files[i]) else None
  {
    if i < Claimed(files, s) {
      assert !Held(s, i);
      var r :| 0 <= r < |s.results| && s.results[r].index == i;
    }
  }

  // ----- Whole runs -----

  datatype Choice = Choice(worker: nat, cancelled: bool)

  /** The state after the given choices of worker and cancel answers. */
  function Run<F, P>(files: seq<F>, prepare: F -> Option<P>, s: State<P>, choices: seq<Choice>): State<P>
    decreases |choices|
  {
    if choices == [] then s
    else
      var last := choices[|choices| - 1];
      var before := Run(files, prepare, s, choices[..|choices| - 1]);
      if last.worker < |before.workers| then Step(files, prepare, before, last.worker, last.cancelled) else before
  }

  /** A worker that was never told to stop stops only when the corpus is exhausted. */
  ghost predicate ExhaustedWhenStopped<F, P>(files: seq<F>, s: State<P>) {
    (exists w :: 0 <= w < |s.workers| && s.workers[w] == Stopped) ==> s.next >= |files|
  }

  /**
   Under every interleaving: the invariant holds, the number of workers does not change, and
   without cancellation nobody stops early.
   */
  lemma {:induction false} RunKeeps<F, P>(files: seq<F>, prepare: F -> Option<P>, s: State<P>, choices: seq<Choice>)
    requires Init(s)
    ensures Inv(files, prepare, Run(files, prepare, s, choices))
    ensures |Run(files, prepare, s, choices).workers| == |s.workers|
    ensures (forall c :: c in choices ==> !c.cancelled) ==> ExhaustedWhenStopped(files, Run(files, prepare, s, choices))
    decreases |choices|
  {
    if choices != [] {
      var last, front := choices[|choices| - 1], choices[..|choices| - 1];
      RunKeeps(files, prepare, s, front);
      var before := Run(files, prepare, s, front);
      assert forall c :: c in front ==> c in choices;
      if last.worker < |before.workers| {
        StepKeeps(files, prepare, before, last.worker, last.cancelled);
        var after := Step(files, prepare, before, last.worker, last.cancelled);
        if !last.cancelled && ExhaustedWhenStopped(files, before) {
          StepExhausts(files, prepare, before, last.worker);
        }
      }
    }
  }

  lemma StepExhausts<F, P>(files: seq<F>, prepare: F -> Option<P>, s: State<P>, w: nat)
    requires ExhaustedWhenStopped(files, s) && w < |s.workers|
    ensures ExhaustedWhenStopped(files, Step(files, prepare, s, w, false))
  {
    var s' := Step(files, prepare, s, w, false);
    if v :| 0 <= v < |s'.workers| && s'.workers[v] == Stopped {
      if v != w {
        assert s.workers[v] == Stopped;
      }
    }
  }

  /** Work left: indices not handed out, then how far the workers are from stopping. */
  function Distance(w: Worker): nat {
    match w case Preparing(_) => 3 case Checking => 2 case Claiming => 1 case Stopped => 0
  }

  function Distances(ws: seq<Worker>): nat { if ws == [] then 0 else Distance(ws[0]) + Distances(ws[1..]) }

  lemma {:induction false} DistancesUpdate(ws: seq<Worker>, w: nat, x: Worker)
    requires w < |ws|
    ensures Distances(ws[w := x]) + Distance(ws[w]) == Distances(ws) + Distance(x)
  {
    if w > 0 {
      DistancesUpdate(ws[1..], w - 1, x);
      assert ws[w := x][1..] == ws[1..][w - 1 := x];
    } else {
      assert ws[w := x][1..] == ws[1..];
    }
  }

  /** A running worker's step hands out an index or brings the workers closer to stopping. */
  lemma StepProgress<F, P>(files: seq<F>, prepare: F -> Option<P>, s: State<P>, w: nat, cancelled: bool)
    requires Inv(files, prepare, s) && w < |s.workers| && s.workers[w] != Stopped
    ensures var s' := Step(files, prepare, s, w, cancelled);
            && |s'.workers| == |s.workers| && Claimed(files, s) <= Claimed(files, s') <= |files|
            && (Claimed(files, s) == Claimed(files, s') ==> Distances(s'.workers) < Distances(s.workers))
  {
    var s' := Step(files, prepare, s, w, cancelled);
    DistancesUpdate(s.workers, w, s'.workers[w]);
  }

  /** The scheduler picks any worker that has not stopped. */
  method PickWorker(ws: seq<Worker>) returns (w: nat)
    requires exists v :: 0 <= v < |ws| && ws[v] != Stopped
    ensures w < |ws| && ws[w] != Stopped
  {
    w :| 0 <= w < |ws| && ws[w] != Stopped;
  }

  predicate AnyRunning(ws: seq<Worker>) { exists v :: 0 <= v < |ws| && ws[v] != Stopped }

  lemma NobodyRunning<F, P>(files: seq<F>, s: State<P>)
    requires s.workers != [] && !AnyRunning(s.workers)
    ensures AllStopped(s)
    ensures ExhaustedWhenStopped(files, s) ==> Claimed(files, s) == |files|
  {
    assert s.workers[0] == Stopped;
  }

  /**
   All workers run to their end in any order, with any answers of the cancel hook (`answers`, one
   per step, `false` once they run out). The run terminates; the result is the sequential one over
   a prefix of the corpus, and over all of it when the hook never answers yes.
   */
  method PrepareAll<F, P>(files: seq<F>, prepare: F -> Option<P>, workers: nat, answers: seq<bool>)
    returns (out: seq<P>, ghost prefix: nat)
    requires workers >= 1
    ensures prefix <= |files| && out == FilterMap(files[..prefix], prepare)
    ensures (forall a :: a in answers ==> !a) ==> out == FilterMap(files, prepare)
  {
    var s := State(0, seq(workers, _ => Checking), []);
    InitInv(files, prepare, s);
    assert ExhaustedWhenStopped(files, s);
    hide Inv, ExhaustedWhenStopped, Distances, Step, AllStopped;
    var asked := 0;
    while AnyRunning(s.workers)
      invariant Inv(files, prepare, s) && |s.workers| == workers && asked <= |answers|
      invariant (forall a :: a in answers ==> !a) ==> ExhaustedWhenStopped(files, s)
      decreases |files| - Claimed(files, s), Distances(s.workers)
    {
      var w := PickWorker(s.workers);
      var cancelled := asked < |answers| && answers[asked];
      assert cancelled ==> answers[asked] in answers;
      if asked < |answers| {
        asked := asked + 1;
      }
      StepKeeps(files, prepare, s, w, cancelled);
      if !cancelled && ExhaustedWhenStopped(files, s) {
        StepExhausts(files, prepare, s, w);
      }
      StepProgress(files, prepare, s, w, cancelled);
      s := Step(files, prepare, s, w, cancelled);
    }
    NobodyRunning(files, s);
    out := Assemble(files, prepare, s);
    prefix := Claimed(files, s);
    TakeAll(files);
  }

  lemma InitInv<F, P>(files: seq<F>, prepare: F -> Option<P>, s: State<P>)
    requires Init(s)
    ensures Inv(files, prepare, s)
  {
  }
}
