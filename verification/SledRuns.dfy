/**
 Runs of interleaved transactions over one database (src/cozo/sled_store.rs). What a run leaves is
 told from its steps alone; `Replay` makes the steps on the storage engine's own objects.
 */
module SledRuns {
  import opened Prelude
  import opened ByteOrder
  import opened SortedEntries
  import opened Overlays
  import opened SledStore

  type TxId = nat

  /** `Begin` opens a transaction under a name, forgetting the one that had it. */
  datatype Step =
    | Begin(t: TxId)
    | Put(t: TxId, k: Bytes, v: Bytes)
    | Del(t: TxId, k: Bytes)
    | Commit(t: TxId)
    | DelRange(t: TxId, lower: Bytes, upper: Bytes)
    | Load(rows: seq<PutResult>)

  predicate Begun(steps: seq<Step>, t: TxId) { Begin(t) in steps }

  /** Transactions are opened before they are used. */
  predicate WellFormed(steps: seq<Step>) {
    forall i :: 0 <= i < |steps| && !steps[i].Begin? && !steps[i].Load? ==> Begun(steps[..i], steps[i].t)
  }

  /** One step's part in the buffer of transaction `t`. */
  function Buffer(before: Changes, step: Step, t: TxId): Changes {
    match step
    case Begin(u) => if u == t then map[] else before
    case Put(u, k, v) => if u == t then before[k := Some(v)] else before
    case Del(u, k) => if u == t then before[k := None] else before
    case Commit(u) => if u == t then map[] else before
    case _ => before
  }

  /** What transaction `t` has buffered after the steps. */
  function ChangeSet(steps: seq<Step>, t: TxId): Changes {
    if steps == [] then map[] else Buffer(ChangeSet(steps[..|steps| - 1], t), steps[|steps| - 1], t)
  }

  predicate AllRows(rows: seq<PutResult>) { forall i :: 0 <= i < |rows| ==> rows[i].Row? }

  function InView(view: Data, lower: Bytes, upper: Bytes): set<Bytes> {
    set k | k in view && InRange(k, lower, upper)
  }

  /** What the transaction that makes the step has buffered. */
  function Own(steps: seq<Step>, step: Step): Changes { if step.Load? then map[] else ChangeSet(steps, step.t) }

  /** One step's part in the persisted data, with `own` buffered by its transaction. */
  function Persist(before: Data, own: Changes, step: Step): Data {
    match step
    case Commit(_) => Overlay(before, own)
    case DelRange(_, lower, upper) => before - InView(Overlay(before, own), lower, upper)
    case Load(rows) => if AllRows(rows) then PutAll(before, rows) else before
    case _ => before
  }

  /** The persisted data: committed change sets, range deletions and loads over `data`, in order. */
  function DataAfter(data: Data, steps: seq<Step>): Data {
    if steps == [] then data
    else
      var front, step := steps[..|steps| - 1], steps[|steps| - 1];
      Persist(DataAfter(data, front), Own(front, step), step)
  }

  /** What transaction `t` sees after the steps. */
  function ViewAfter(data: Data, steps: seq<Step>, t: TxId): Data {
    Overlay(DataAfter(data, steps), ChangeSet(steps, t))
  }

  // ----- The run on real objects -----

  /** The open transactions are objects of their own over `db`, holding what the steps buffered. */
  ghost predicate Open(txs: map<TxId, SledTx>, db: SledDb, steps: seq<Step>)
    reads txs.Values
  {
    && (forall t: TxId :: t in txs <==> Begun(steps, t))
    && (forall t: TxId :: t in txs ==> txs[t].db == db && txs[t].changes == ChangeSet(steps, t))
    && (forall t: TxId, u: TxId :: t in txs && u in txs && t != u ==> txs[t] != txs[u])
  }

  /** One step on the objects. */
  method MakeStep(db: SledDb, txs: map<TxId, SledTx>, steps: seq<Step>, i: nat, ghost data: Data) returns (txs': map<TxId, SledTx>)
    requires i < |steps| && WellFormed(steps) && Open(txs, db, steps[..i]) && db.data == DataAfter(data, steps[..i])
    modifies db`data, txs.Values
    ensures Open(txs', db, steps[..i + 1]) && db.data == DataAfter(data, steps[..i + 1])
    ensures forall t :: t in txs' ==> (t in txs && txs'[t] == txs[t]) || fresh(txs'[t])
  {
    hide Overlay, DataAfter, ChangeSet, InView, Begun;
    StepAfter(data, steps, i);
    txs' := txs;
    match steps[i] {
      case Begin(t) =>
        var tx := new SledTx(db);
        txs' := txs[t := tx];
      case Put(t, k, v) => txs[t].Put(k, v);
      case Del(t, k) => txs[t].Del(k);
      case Commit(t) => txs[t].Commit();
      case DelRange(t, lower, upper) =>
        txs[t].DelRangeFromPersisted(lower, upper);
        InViewIs(Overlay(DataAfter(data, steps[..i]), ChangeSet(steps[..i], t)), lower, upper);
      case Load(rows) => var ok := BatchPut(db, rows);
    }
  }

  lemma InViewIs(view: Data, lower: Bytes, upper: Bytes)
    ensures InView(view, lower, upper) == set k | k in view && InRange(k, lower, upper)
  {
  }

  /** Making the steps on the objects leaves exactly the data and the buffers told from the steps. */
  method Replay(db: SledDb, steps: seq<Step>) returns (txs: map<TxId, SledTx>)
    requires WellFormed(steps)
    modifies db`data
    ensures forall t :: t in txs ==> fresh(txs[t])
    ensures Open(txs, db, steps)
    ensures db.data == DataAfter(old(db.data), steps)
  {
    txs := map[];
    for i := 0 to |steps|
      invariant forall t :: t in txs ==> fresh(txs[t])
      invariant Open(txs, db, steps[..i])
      invariant db.data == DataAfter(old(db.data), steps[..i])
    {
      txs := MakeStep(db, txs, steps, i, old(db.data));
    }
    TakeAll(steps);
  }

  /** What one more step makes of the buffers and the data. */
  lemma StepAfter(data: Data, steps: seq<Step>, i: nat)
    requires i < |steps|
    ensures forall t: TxId :: Begun(steps[..i + 1], t) <==> Begun(steps[..i], t) || (steps[i].Begin? && steps[i].t == t)
    ensures forall t: TxId :: ChangeSet(steps[..i + 1], t) == Buffer(ChangeSet(steps[..i], t), steps[i], t)
    ensures DataAfter(data, steps[..i + 1]) == Persist(DataAfter(data, steps[..i]), Own(steps[..i], steps[i]), steps[i])
  {
    TakeSnoc(steps, i);
    assert steps[..i + 1][..i] == steps[..i];
    hide Persist, Own, Buffer;
    forall t: TxId
      ensures Begun(steps[..i + 1], t) <==> Begun(steps[..i], t) || (steps[i].Begin? && steps[i].t == t)
    {
      assert steps[i] == Begin(t) <==> steps[i].Begin? && steps[i].t == t;
    }
  }

  // ----- The last write -----

  /** What the step writes under `k` into the buffer of `t`: a value, a deletion, or nothing. */
  function Touch(step: Step, t: TxId, k: Bytes): Option<Option<Bytes>> {
    match step
    case Put(u, l, v) => if u == t && l == k then Some(Some(v)) else None
    case Del(u, l) => if u == t && l == k then Some(None) else None
    case _ => None
  }

  /** The step empties the buffer of `t`. */
  predicate Empties(step: Step, t: TxId) { (step.Begin? || step.Commit?) && step.t == t }

  /** Step `i` is the last to touch `k` for `t`, and `t` has neither begun nor committed since. */
  predicate StandsAt(steps: seq<Step>, t: TxId, k: Bytes, i: nat) {
    && i < |steps| && Touch(steps[i], t, k).Some?
    && forall j :: i < j < |steps| ==> Touch(steps[j], t, k).None? && !Empties(steps[j], t)
  }

  /** A change set holds, key by key, the last put or deletion since the transaction began or last committed. */
  lemma {:induction false} BufferedIsLastTouch(steps: seq<Step>, t: TxId, k: Bytes)
    ensures k in ChangeSet(steps, t) <==> exists i: nat :: StandsAt(steps, t, k, i)
    ensures forall i: nat :: StandsAt(steps, t, k, i) ==> Some(ChangeSet(steps, t)[k]) == Touch(steps[i], t, k)
    decreases |steps|
  {
    if steps != [] {
      var n := |steps| - 1;
      var front := steps[..n];
      BufferedIsLastTouch(front, t, k);
      assert forall j :: 0 <= j < n ==> front[j] == steps[j];
      forall i: nat
        ensures StandsAt(steps, t, k, i) <==>
                if i == n then Touch(steps[n], t, k).Some?
                else Touch(steps[n], t, k).None? && !Empties(steps[n], t) && StandsAt(front, t, k, i)
      {
        hide Touch, Empties;
        if i < n && StandsAt(steps, t, k, i) {
          assert Touch(steps[n], t, k).None?;
        }
      }
      hide StandsAt, ChangeSet;
      assert StandsAt(steps, t, k, n) <==> Touch(steps[n], t, k).Some?;
      if i: nat :| StandsAt(front, t, k, i) {
        assert i == n || StandsAt(steps, t, k, i) || Touch(steps[n], t, k).Some? || Empties(steps[n], t);
        StandsBefore(front, t, k, i);
      }
    }
  }

  lemma StandsBefore(steps: seq<Step>, t: TxId, k: Bytes, i: nat)
    requires StandsAt(steps, t, k, i)
    ensures i < |steps|
  {
  }

  /** The value the rows give a key: that of its last row. */
  function Loaded(rows: seq<PutResult>, k: Bytes): Option<Bytes> {
    if rows == [] then None
    else
      match rows[|rows| - 1]
      case Row(l, v) => if l == k then Some(v) else Loaded(rows[..|rows| - 1], k)
      case ReadError => Loaded(rows[..|rows| - 1], k)
  }

  lemma {:induction false} LoadedIsPut(data: Data, rows: seq<PutResult>, k: Bytes)
    ensures Lookup(PutAll(data, rows), k) == if Loaded(rows, k).Some? then Loaded(rows, k) else Lookup(data, k)
  {
    if rows != [] {
      LoadedIsPut(data, rows[..|rows| - 1], k);
    }
  }

  function Lookup(data: Data, k: Bytes): Option<Bytes> { if k in data then Some(data[k]) else None }

  /** What step `i` of the run writes under `k` into the persisted data: a value, its removal, or nothing. */
  function Writes(data: Data, steps: seq<Step>, i: nat, k: Bytes): Option<Option<Bytes>>
    requires i < |steps|
  {
    match steps[i]
    case Commit(t) => var changes := ChangeSet(steps[..i], t); if k in changes then Some(changes[k]) else None
    case DelRange(t, lower, upper) =>
      if InRange(k, lower, upper) && k in ViewAfter(data, steps[..i], t) then Some(None) else None
    case Load(rows) => if AllRows(rows) && Loaded(rows, k).Some? then Some(Loaded(rows, k)) else None
    case _ => None
  }

  lemma StepWrites(data: Data, steps: seq<Step>, i: nat, k: Bytes)
    requires i < |steps|
    ensures Lookup(DataAfter(data, steps[..i + 1]), k) ==
            match Writes(data, steps, i, k) case Some(w) => w case None => Lookup(DataAfter(data, steps[..i]), k)
  {
    StepAfter(data, steps, i);
    hide DataAfter, ChangeSet;
    if steps[i].Load? {
      LoadedIsPut(DataAfter(data, steps[..i]), steps[i].rows, k);
    }
    hide PutAll, Loaded, InRange;
  }

  /** No step from `from` on writes `k`. */
  predicate Unwritten(data: Data, steps: seq<Step>, from: nat, k: Bytes) {
    forall j: nat :: from <= j < |steps| ==> Writes(data, steps, j, k).None?
  }

  lemma {:induction false} UnwrittenStays(data: Data, steps: seq<Step>, from: nat, until: nat, k: Bytes)
    requires from <= until <= |steps| && Unwritten(data, steps, from, k)
    ensures Lookup(DataAfter(data, steps[..until]), k) == Lookup(DataAfter(data, steps[..from]), k)
    decreases until
  {
    hide DataAfter, Writes;
    if from < until {
      UnwrittenStays(data, steps, from, until - 1, k);
      StepWrites(data, steps, until - 1, k);
    }
  }

  /** Over any run a key holds what the last step that writes it left there, or what it held at first. */
  lemma PersistedIsLastWrite(data: Data, steps: seq<Step>, k: Bytes)
    ensures forall i: nat :: i < |steps| && Writes(data, steps, i, k).Some? && Unwritten(data, steps, i + 1, k)
              ==> Lookup(DataAfter(data, steps), k) == Writes(data, steps, i, k).value
    ensures Unwritten(data, steps, 0, k) ==> Lookup(DataAfter(data, steps), k) == Lookup(data, k)
  {
    hide DataAfter, Writes, Unwritten;
    TakeAll(steps);
    forall i: nat | i < |steps| && Writes(data, steps, i, k).Some? && Unwritten(data, steps, i + 1, k)
      ensures Lookup(DataAfter(data, steps), k) == Writes(data, steps, i, k).value
    {
      UnwrittenStays(data, steps, i + 1, |steps|, k);
      StepWrites(data, steps, i, k);
    }
    if Unwritten(data, steps, 0, k) {
      UnwrittenStays(data, steps, 0, |steps|, k);
      NothingYet(data, steps);
    }
  }

  lemma NothingYet(data: Data, steps: seq<Step>)
    ensures DataAfter(data, steps[..0]) == data
  {
  }

  /** A put or deletion that stands when its transaction commits is persisted until another step writes the key. */
  lemma CommittedIsPersisted(data: Data, steps: seq<Step>, t: TxId, k: Bytes, i: nat, c: nat)
    requires i < c < |steps| && steps[c] == Commit(t) && StandsAt(steps[..c], t, k, i) && Unwritten(data, steps, c + 1, k)
    ensures Some(Lookup(DataAfter(data, steps), k)) == Touch(steps[i], t, k)
  {
    hide DataAfter, StandsAt, ChangeSet, Touch;
    StandsBefore(steps[..c], t, k, i);
    assert steps[..c][i] == steps[i];
    BufferedIsLastTouch(steps[..c], t, k);
    assert Writes(data, steps, c, k) == Touch(steps[i], t, k);
    PersistedIsLastWrite(data, steps, k);
  }

  // ----- Isolation -----

  /** The steps of all but transaction `t`. */
  function Without(steps: seq<Step>, t: TxId): seq<Step> {
    if steps == [] then []
    else
      var step := steps[|steps| - 1];
      Without(steps[..|steps| - 1], t) + if !step.Load? && step.t == t then [] else [step]
  }

  /** Transaction `t` neither commits nor deletes a range. */
  predicate OnlyBuffers(steps: seq<Step>, t: TxId) {
    forall i :: 0 <= i < |steps| && (steps[i].Commit? || steps[i].DelRange?) ==> steps[i].t != t
  }

  /** Other buffers do not depend on the steps of `t`. */
  lemma {:induction false} OthersKeepBuffers(steps: seq<Step>, t: TxId, u: TxId)
    requires u != t
    ensures ChangeSet(Without(steps, t), u) == ChangeSet(steps, u)
    decreases |steps|
  {
    hide Without, Buffer, ChangeSet;
    if steps == [] {
      NoStepsLeft(t);
    } else {
      var front, step := steps[..|steps| - 1], steps[|steps| - 1];
      assert steps == front + [step];
      OthersKeepBuffers(front, t, u);
      BufferSnoc(front, step, u);
      if !step.Load? && step.t == t {
        WithoutOwn(steps, t);
        OthersBuffer(ChangeSet(front, u), step, u);
      } else {
        WithoutOther(steps, t);
        BufferSnoc(Without(front, t), step, u);
      }
    }
  }

  lemma NoStepsLeft(t: TxId)
    ensures Without([], t) == []
  {
  }

  lemma BufferSnoc(steps: seq<Step>, step: Step, u: TxId)
    ensures ChangeSet(steps + [step], u) == Buffer(ChangeSet(steps, u), step, u)
  {
    assert (steps + [step])[..|steps|] == steps;
    hide Buffer;
  }

  lemma PersistSnoc(data: Data, steps: seq<Step>, step: Step)
    ensures DataAfter(data, steps + [step]) == Persist(DataAfter(data, steps), Own(steps, step), step)
  {
    assert (steps + [step])[..|steps|] == steps;
    hide Persist, Own;
  }

  /** A transaction that only buffers leaves no trace: data and all other buffers are as if it had never been. */
  lemma {:induction false} BufferingLeavesNoTrace(data: Data, steps: seq<Step>, t: TxId)
    requires OnlyBuffers(steps, t)
    ensures DataAfter(data, Without(steps, t)) == DataAfter(data, steps)
    ensures forall u: TxId :: u != t ==> ChangeSet(Without(steps, t), u) == ChangeSet(steps, u)
    decreases |steps|
  {
    hide Without, Persist, ChangeSet, DataAfter;
    forall u: TxId | u != t ensures ChangeSet(Without(steps, t), u) == ChangeSet(steps, u) {
      OthersKeepBuffers(steps, t, u);
    }
    if steps == [] {
      NoStepsLeft(t);
    } else {
      var front, step := steps[..|steps| - 1], steps[|steps| - 1];
      assert steps == front + [step];
      BufferingLeavesNoTrace(data, front, t);
      PersistSnoc(data, front, step);
      if !step.Load? && step.t == t {
        WithoutOwn(steps, t);
        BufferingPersistsNothing(DataAfter(data, front), Own(front, step), step);
      } else {
        WithoutOther(steps, t);
        PersistSnoc(data, Without(front, t), step);
      }
    }
  }

  lemma WithoutOwn(steps: seq<Step>, t: TxId)
    requires steps != [] && !steps[|steps| - 1].Load? && steps[|steps| - 1].t == t
    ensures Without(steps, t) == Without(steps[..|steps| - 1], t)
  {
  }

  lemma WithoutOther(steps: seq<Step>, t: TxId)
    requires steps != [] && (steps[|steps| - 1].Load? || steps[|steps| - 1].t != t)
    ensures Without(steps, t) == Without(steps[..|steps| - 1], t) + [steps[|steps| - 1]]
  {
  }

  lemma BufferingPersistsNothing(before: Data, own: Changes, step: Step)
    requires step.Begin? || step.Put? || step.Del?
    ensures Persist(before, own, step) == before
  {
  }

  lemma OthersBuffer(before: Changes, step: Step, u: TxId)
    requires !step.Load? && step.t != u
    ensures Buffer(before, step, u) == before
  {
  }

  /** No put or deletion of `k` by `t` stands after the steps. */
  ghost predicate Untouched(steps: seq<Step>, t: TxId, k: Bytes) {
    forall i: nat :: !StandsAt(steps, t, k, i)
  }

  /** A transaction reads its own standing write of a key, or else what the last step that wrote the key persisted. */
  lemma ReadsOwnElsePersisted(data: Data, steps: seq<Step>, t: TxId, k: Bytes)
    ensures forall i: nat :: StandsAt(steps, t, k, i) ==> Some(Lookup(ViewAfter(data, steps, t), k)) == Touch(steps[i], t, k)
    ensures Untouched(steps, t, k) ==> Lookup(ViewAfter(data, steps, t), k) == Lookup(DataAfter(data, steps), k)
    ensures forall i: nat :: Untouched(steps, t, k) && i < |steps| && Writes(data, steps, i, k).Some?
                             && Unwritten(data, steps, i + 1, k)
              ==> Lookup(ViewAfter(data, steps, t), k) == Writes(data, steps, i, k).value
  {
    BufferedIsLastTouch(steps, t, k);
    PersistedIsLastWrite(data, steps, k);
    hide StandsAt, ChangeSet, DataAfter, Writes, Unwritten, Touch;
  }

  /**
   Committing at the end of any run changes nothing its transaction sees, persists what it sees, and
   shows it to every other transaction, save for the keys that one has standing writes of.
   */
  lemma CommitPublishes(data: Data, steps: seq<Step>, t: TxId)
    ensures var after := steps + [Commit(t)];
            && ViewAfter(data, after, t) == ViewAfter(data, steps, t) == DataAfter(data, after)
            && forall u: TxId, k :: u != t ==>
                 Lookup(ViewAfter(data, after, u), k) ==
                 Lookup(ViewAfter(data, steps, if Untouched(steps, u, k) then t else u), k)
  {
    var after := steps + [Commit(t)];
    StepAfter(data, after, |steps|);
    assert after[..|steps|] == steps && after[..|steps| + 1] == after;
    hide ChangeSet, DataAfter, StandsAt, Touch;
    OverlayNothing(ViewAfter(data, steps, t));
    forall u: TxId, k | u != t
      ensures Lookup(ViewAfter(data, after, u), k) ==
              Lookup(ViewAfter(data, steps, if Untouched(steps, u, k) then t else u), k)
    {
      BufferedIsLastTouch(steps, u, k);
    }
  }

  /**
   After a range deletion at the end of any run its transaction sees in the range exactly its own
   standing puts, and outside the range what it saw before. Every other transaction loses just the keys
   of the range that the deleting one saw and it has no standing writes of.
   */
  lemma DelRangeLeavesPuts(data: Data, steps: seq<Step>, t: TxId, lower: Bytes, upper: Bytes, k: Bytes)
    ensures var view := ViewAfter(data, steps + [DelRange(t, lower, upper)], t);
            if InRange(k, lower, upper) then
              && (forall i: nat :: StandsAt(steps, t, k, i) ==> Some(Lookup(view, k)) == Touch(steps[i], t, k))
              && (Untouched(steps, t, k) ==> k !in view)
            else Lookup(view, k) == Lookup(ViewAfter(data, steps, t), k)
    ensures forall u: TxId :: u != t ==>
              Lookup(ViewAfter(data, steps + [DelRange(t, lower, upper)], u), k) ==
              if Untouched(steps, u, k) && InRange(k, lower, upper) && k in ViewAfter(data, steps, t) then None
              else Lookup(ViewAfter(data, steps, u), k)
  {
    var after := steps + [DelRange(t, lower, upper)];
    StepAfter(data, after, |steps|);
    assert after[..|steps|] == steps && after[..|steps| + 1] == after;
    hide ChangeSet, DataAfter, InRange, StandsAt, Touch;
    BufferedIsLastTouch(steps, t, k);
    forall u: TxId | u != t
      ensures Lookup(ViewAfter(data, after, u), k) ==
              if Untouched(steps, u, k) && InRange(k, lower, upper) && k in ViewAfter(data, steps, t) then None
              else Lookup(ViewAfter(data, steps, u), k)
    {
      BufferedIsLastTouch(steps, u, k);
    }
  }
}
