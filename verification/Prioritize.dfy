/**
 The cross-file half of prioritising planned source: global reservations, round-robin waves and
 the four phases (`prioritize_source_admissions`, src/graph/agent.rs).
 */
module Prioritize {
  import opened Prelude
  import opened SourceRanges
  import opened Sorting
  import opened Admissions
  import opened FilePlans

  /** One thing the file plans ask to have emitted. */
  datatype Slot =
    | AnswerSlot(fp: nat, i: nat)
    | DirectSlot(fp: nat, i: nat)
    | AnchorSlot(fp: nat, i: nat)
    | OptionalSlot(fp: nat)

  ghost predicate Valid(s: Slot, fps: seq<FilePlan>) {
    s.fp < |fps| &&
    match s
    case AnswerSlot(f, i) => i < |fps[f].answers|
    case DirectSlot(f, i) => i < |fps[f].direct|
    case AnchorSlot(f, i) => i < |fps[f].anchors|
    case OptionalSlot(f) => fps[f].optional != []
  }

  predicate AtomicAnchor(r: SourceRange) { r.reason == WholeFile && r.end - r.start < WHOLE_FILE_LINES }

  ghost function AdmissionOf(s: Slot, fps: seq<FilePlan>): Admission
    requires Valid(s, fps)
  {
    match s
    case AnswerSlot(f, i) => Admission(fps[f].plan, [fps[f].answers[i]], Answer, true)
    case DirectSlot(f, i) => Admission(fps[f].plan, [fps[f].direct[i]], Answer, true)
    case AnchorSlot(f, i) =>
      if i == 0 then Admission(fps[f].plan, [fps[f].anchors[0]], Fairness, AtomicAnchor(fps[f].anchors[0]))
      else Admission(fps[f].plan, [fps[f].anchors[i]], Secondary, false)
    case OptionalSlot(f) => Admission(fps[f].plan, fps[f].optional, Phase.Optional, false)
  }

  /** `ordered` emits the slots `slots`, each of them once. */
  ghost predicate Trace(ordered: seq<Admission>, slots: seq<Slot>, fps: seq<FilePlan>) {
    && |ordered| == |slots|
    && (forall k :: 0 <= k < |slots| ==> Valid(slots[k], fps) && ordered[k] == AdmissionOf(slots[k], fps))
    && (forall j, k :: 0 <= j < k < |slots| ==> slots[j] != slots[k])
  }

  lemma TraceSnoc(ordered: seq<Admission>, slots: seq<Slot>, fps: seq<FilePlan>, a: Admission, s: Slot)
    requires Trace(ordered, slots, fps) && s !in slots && Valid(s, fps) && a == AdmissionOf(s, fps)
    ensures Trace(ordered + [a], slots + [s], fps)
    ensures forall t :: t in slots + [s] <==> t in slots || t == s
  {
  }

  // ----- Global reservations -----

  /** The best global priority among an excerpt's ids. */
  function Priority(ids: seq<NodeId>, order: map<NodeId, nat>): (p: Option<nat>)
    ensures p.None? <==> forall id :: id in ids ==> id !in order
    ensures p.Some? ==> (exists id :: id in ids && id in order && order[id] == p.value)
                        && forall id :: id in ids && id in order ==> p.value <= order[id]
  {
    if ids == [] then None
    else
      assert ids == [ids[0]] + ids[1..];
      var rest := Priority(ids[1..], order);
      if ids[0] !in order then rest
      else if rest.Some? && rest.value <= order[ids[0]] then rest
      else Some(order[ids[0]])
  }

  ghost function SlotPriority(s: Slot, fps: seq<FilePlan>, order: map<NodeId, nat>): Option<nat>
    requires Valid(s, fps)
  {
    match s
    case AnswerSlot(f, i) => Priority(fps[f].answers[i].nodeIds, order)
    case DirectSlot(f, i) => Priority(fps[f].direct[i].nodeIds, order)
    case _ => None
  }

  ghost predicate Reserved(s: Slot, fps: seq<FilePlan>, order: map<NodeId, nat>) {
    Valid(s, fps) && SlotPriority(s, fps, order).Some?
  }

  /** A reservation: its priority, its slot and its place among the file's answers. */
  datatype Reservation = Reservation(priority: nat, slot: Slot, place: nat)

  function ReservationKey(r: Reservation): Key { Key(r.priority, r.slot.fp, r.place) }

  /** Place of an answer among its file's answers followed by its direct answers. */
  ghost function Place(s: Slot, fps: seq<FilePlan>): nat
    requires Valid(s, fps)
  {
    match s
    case AnswerSlot(f, i) => i
    case DirectSlot(f, i) => |fps[f].answers| + i
    case _ => 0
  }

  ghost function ReservedKey(s: Slot, fps: seq<FilePlan>, order: map<NodeId, nat>): Key
    requires Reserved(s, fps, order)
  {
    Key(SlotPriority(s, fps, order).value, s.fp, Place(s, fps))
  }

  ghost predicate ReservationOk(r: Reservation, fps: seq<FilePlan>, order: map<NodeId, nat>) {
    && Reserved(r.slot, fps, order) && (r.slot.AnswerSlot? || r.slot.DirectSlot?)
    && ReservedKey(r.slot, fps, order) == ReservationKey(r)
  }

  ghost predicate Reservations(rs: seq<Reservation>, fps: seq<FilePlan>, order: map<NodeId, nat>) {
    forall k :: 0 <= k < |rs| ==> ReservationOk(rs[k], fps, order)
  }

  ghost predicate Lists(rs: seq<Reservation>, s: Slot) { exists k :: 0 <= k < |rs| && rs[k].slot == s }

  /** The reservations of one file: its answers, then its direct answers. */
  method ReserveFile(pi: nat, fps: seq<FilePlan>, order: map<NodeId, nat>) returns (rs: seq<Reservation>)
    requires pi < |fps|
    ensures Reservations(rs, fps, order)
    ensures forall s: Slot :: s.fp == pi && Reserved(s, fps, order) ==> Lists(rs, s)
  {
    rs := [];
    var fp := fps[pi];
    for i := 0 to |fp.answers|
      invariant Reservations(rs, fps, order)
      invariant forall j :: 0 <= j < i && Reserved(AnswerSlot(pi, j), fps, order) ==> Lists(rs, AnswerSlot(pi, j))
    {
      var p := Priority(fp.answers[i].nodeIds, order);
      if p.Some? {
        ghost var before := rs;
        rs := rs + [Reservation(p.value, AnswerSlot(pi, i), i)];
        ListsGrow(before, rs[|before|]);
      }
    }
    for i := 0 to |fp.direct|
      invariant Reservations(rs, fps, order)
      invariant forall j: nat :: Reserved(AnswerSlot(pi, j), fps, order) ==> Lists(rs, AnswerSlot(pi, j))
      invariant forall j :: 0 <= j < i && Reserved(DirectSlot(pi, j), fps, order) ==> Lists(rs, DirectSlot(pi, j))
    {
      var p := Priority(fp.direct[i].nodeIds, order);
      if p.Some? {
        ghost var before := rs;
        rs := rs + [Reservation(p.value, DirectSlot(pi, i), |fp.answers| + i)];
        ListsGrow(before, rs[|before|]);
      }
    }
  }

  lemma ListsGrow(rs: seq<Reservation>, r: Reservation)
    ensures forall s :: Lists(rs + [r], s) <==> Lists(rs, s) || s == r.slot
  {
    forall s
      ensures Lists(rs + [r], s) <==> Lists(rs, s) || s == r.slot
    {
      if Lists(rs, s) {
        var k :| 0 <= k < |rs| && rs[k].slot == s;
        assert (rs + [r])[k] == rs[k];
      }
      assert (rs + [r])[|rs|] == r;
    }
  }

  lemma ListsAppend(a: seq<Reservation>, b: seq<Reservation>, s: Slot)
    ensures Lists(a + b, s) <==> Lists(a, s) || Lists(b, s)
  {
    if Lists(a, s) {
      var k :| 0 <= k < |a| && a[k].slot == s;
      assert (a + b)[k] == a[k];
    }
    if Lists(b, s) {
      var k :| 0 <= k < |b| && b[k].slot == s;
      assert (a + b)[|a| + k] == b[k];
    }
  }

  /** All reservations, best priority first. */
  method ReserveAll(fps: seq<FilePlan>, order: map<NodeId, nat>) returns (sorted: seq<Reservation>)
    ensures Reservations(sorted, fps, order)
    ensures forall s :: Reserved(s, fps, order) ==> Lists(sorted, s)
    ensures forall j, k :: 0 <= j < k < |sorted| ==> Le(ReservationKey(sorted[j]), ReservationKey(sorted[k]))
  {
    var rs := [];
    for pi := 0 to |fps|
      invariant Reservations(rs, fps, order)
      invariant forall s: Slot :: s.fp < pi && Reserved(s, fps, order) ==> Lists(rs, s)
    {
      var mine := ReserveFile(pi, fps, order);
      forall s: Slot | s.fp <= pi && Reserved(s, fps, order)
        ensures Lists(rs + mine, s)
      {
        ListsAppend(rs, mine, s);
      }
      rs := rs + mine;
    }
    sorted := SortReservations(rs);
    forall k | 0 <= k < |sorted|
      ensures ReservationOk(sorted[k], fps, order)
    {
      assert sorted[k] in rs;
    }
    forall s | Reserved(s, fps, order)
      ensures Lists(sorted, s)
    {
      var k :| 0 <= k < |rs| && rs[k].slot == s;
      assert rs[k] in sorted;
    }
  }

  method SortReservations(rs: seq<Reservation>) returns (sorted: seq<Reservation>)
    ensures forall r :: r in sorted <==> r in rs
    ensures forall j, k :: 0 <= j < k < |sorted| ==> Le(ReservationKey(sorted[j]), ReservationKey(sorted[k]))
  {
    sorted := Sort(ReservationKey, rs);
    SortSorts(ReservationKey, rs);
    SameMembers(sorted, rs);
  }

  /** Reserved slots come by priority, then file, then place in the file. */
  ghost predicate ByPriority(slots: seq<Slot>, fps: seq<FilePlan>, order: map<NodeId, nat>) {
    forall j, k :: 0 <= j < k < |slots| && Reserved(slots[j], fps, order) && Reserved(slots[k], fps, order)
      ==> Le(ReservedKey(slots[j], fps, order), ReservedKey(slots[k], fps, order))
  }

  /** No reservation among the slots comes behind `key`. */
  ghost predicate UpTo(slots: seq<Slot>, fps: seq<FilePlan>, order: map<NodeId, nat>, key: Key) {
    forall t :: t in slots && Reserved(t, fps, order) ==> Le(ReservedKey(t, fps, order), key)
  }

  lemma UpToNothing(fps: seq<FilePlan>, order: map<NodeId, nat>, key: Key)
    ensures UpTo([], fps, order, key)
  {
  }

  lemma UpToLater(slots: seq<Slot>, fps: seq<FilePlan>, order: map<NodeId, nat>, key: Key, later: Key)
    requires UpTo(slots, fps, order, key) && Le(key, later)
    ensures UpTo(slots, fps, order, later)
  {
    hide Reserved, ReservedKey;
  }

  lemma ByPrioritySnoc(slots: seq<Slot>, s: Slot, fps: seq<FilePlan>, order: map<NodeId, nat>)
    requires ByPriority(slots, fps, order) && Reserved(s, fps, order)
    requires UpTo(slots, fps, order, ReservedKey(s, fps, order))
    ensures ByPriority(slots + [s], fps, order)
    ensures UpTo(slots + [s], fps, order, ReservedKey(s, fps, order))
  {
    hide Priority, SlotPriority;
  }

  function AnswerAdmission(s: Slot, fps: seq<FilePlan>): Admission
    requires Valid(s, fps) && (s.AnswerSlot? || s.DirectSlot?)
    ensures AnswerAdmission(s, fps) == AdmissionOf(s, fps)
  {
    var fp := fps[s.fp];
    Admission(fp.plan, [if s.DirectSlot? then fp.direct[s.i] else fp.answers[s.i]], Answer, true)
  }

  /** Emits every reservation once, best priority first. */
  method EmitReserved(fps: seq<FilePlan>, order: map<NodeId, nat>)
    returns (ordered: seq<Admission>, admitted: set<Slot>, ghost slots: seq<Slot>)
    ensures Trace(ordered, slots, fps)
    ensures forall s :: s in slots <==> Reserved(s, fps, order)
    ensures forall s :: s in admitted <==> s in slots
    ensures ByPriority(slots, fps, order)
  {
    var reservations := ReserveAll(fps, order);
    ordered, admitted, slots := [], {}, [];
    hide Priority, SlotPriority, Reservations, EmittedSoFar, Lists, Trace;
    NothingEmitted(reservations, fps, order);
    for k := 0 to |reservations|
      invariant EmittedSoFar(ordered, admitted, slots, reservations, k, fps, order)
    {
      var r := reservations[k];
      ReservationAt(reservations, k, fps, order);
      if r.slot in admitted {
        SkipOne(ordered, admitted, slots, reservations, k, fps, order);
        continue;
      }
      EmitOne(ordered, admitted, slots, reservations, k, fps, order);
      admitted := admitted + {r.slot};
      ordered := ordered + [AnswerAdmission(r.slot, fps)];
      slots := slots + [r.slot];
    }
    AllEmitted(ordered, admitted, slots, reservations, fps, order);
  }

  /** The first `k` reservations are emitted, each slot once, in order. */
  ghost predicate EmittedSoFar(ordered: seq<Admission>, admitted: set<Slot>, slots: seq<Slot>, rs: seq<Reservation>, k: nat,
                               fps: seq<FilePlan>, order: map<NodeId, nat>) {
    && k <= |rs| && Trace(ordered, slots, fps)
    && (forall s :: s in admitted <==> s in slots)
    && (forall s :: s in slots ==> Reserved(s, fps, order))
    && (forall j :: 0 <= j < k ==> rs[j].slot in slots)
    && ByPriority(slots, fps, order)
    && (if k == 0 then slots == [] else UpTo(slots, fps, order, ReservationKey(rs[k - 1])))
  }

  lemma NothingEmitted(rs: seq<Reservation>, fps: seq<FilePlan>, order: map<NodeId, nat>)
    ensures EmittedSoFar([], {}, [], rs, 0, fps, order)
  {
    hide SlotPriority;
  }

  lemma ReservationAt(rs: seq<Reservation>, k: nat, fps: seq<FilePlan>, order: map<NodeId, nat>)
    requires Reservations(rs, fps, order) && k < |rs|
    ensures Reserved(rs[k].slot, fps, order) && Valid(rs[k].slot, fps) && (rs[k].slot.AnswerSlot? || rs[k].slot.DirectSlot?)
    ensures ReservedKey(rs[k].slot, fps, order) == ReservationKey(rs[k])
  {
    hide SlotPriority;
    assert ReservationOk(rs[k], fps, order);
  }

  lemma UpToNext(slots: seq<Slot>, rs: seq<Reservation>, k: nat, fps: seq<FilePlan>, order: map<NodeId, nat>)
    requires k < |rs| && forall i, j :: 0 <= i < j < |rs| ==> Le(ReservationKey(rs[i]), ReservationKey(rs[j]))
    requires if k == 0 then slots == [] else UpTo(slots, fps, order, ReservationKey(rs[k - 1]))
    ensures UpTo(slots, fps, order, ReservationKey(rs[k]))
  {
    hide UpTo, Le;
    if k == 0 {
      UpToNothing(fps, order, ReservationKey(rs[k]));
    } else {
      UpToLater(slots, fps, order, ReservationKey(rs[k - 1]), ReservationKey(rs[k]));
    }
  }

  lemma SkipOne(ordered: seq<Admission>, admitted: set<Slot>, slots: seq<Slot>, rs: seq<Reservation>, k: nat,
                fps: seq<FilePlan>, order: map<NodeId, nat>)
    requires EmittedSoFar(ordered, admitted, slots, rs, k, fps, order) && k < |rs| && rs[k].slot in admitted
    requires forall i, j :: 0 <= i < j < |rs| ==> Le(ReservationKey(rs[i]), ReservationKey(rs[j]))
    ensures EmittedSoFar(ordered, admitted, slots, rs, k + 1, fps, order)
  {
    UpToNext(slots, rs, k, fps, order);
    hide Trace, ByPriority, UpTo, Le, Reserved;
  }

  lemma EmitOne(ordered: seq<Admission>, admitted: set<Slot>, slots: seq<Slot>, rs: seq<Reservation>, k: nat,
                fps: seq<FilePlan>, order: map<NodeId, nat>)
    requires EmittedSoFar(ordered, admitted, slots, rs, k, fps, order) && k < |rs| && rs[k].slot !in admitted
    requires forall i, j :: 0 <= i < j < |rs| ==> Le(ReservationKey(rs[i]), ReservationKey(rs[j]))
    requires Reserved(rs[k].slot, fps, order) && Valid(rs[k].slot, fps) && (rs[k].slot.AnswerSlot? || rs[k].slot.DirectSlot?)
    requires ReservedKey(rs[k].slot, fps, order) == ReservationKey(rs[k])
    ensures EmittedSoFar(ordered + [AnswerAdmission(rs[k].slot, fps)], admitted + {rs[k].slot}, slots + [rs[k].slot],
                         rs, k + 1, fps, order)
  {
    UpToNext(slots, rs, k, fps, order);
    hide Trace, ByPriority, UpTo, Le, Reserved, ReservedKey, AnswerAdmission;
    TraceSnoc(ordered, slots, fps, AnswerAdmission(rs[k].slot, fps), rs[k].slot);
    ByPrioritySnoc(slots, rs[k].slot, fps, order);
  }

  lemma AllEmitted(ordered: seq<Admission>, admitted: set<Slot>, slots: seq<Slot>, rs: seq<Reservation>,
                   fps: seq<FilePlan>, order: map<NodeId, nat>)
    requires EmittedSoFar(ordered, admitted, slots, rs, |rs|, fps, order)
    requires forall s :: Reserved(s, fps, order) ==> Lists(rs, s)
    ensures Trace(ordered, slots, fps) && ByPriority(slots, fps, order)
    ensures forall s :: s in slots <==> Reserved(s, fps, order)
    ensures forall s :: s in admitted <==> s in slots
  {
    hide Trace, ByPriority, UpTo, Reserved;
    forall s | Reserved(s, fps, order)
      ensures s in slots
    {
      var k :| 0 <= k < |rs| && rs[k].slot == s;
    }
  }

  // ----- Phases -----

  /**
   The emission order of what is not reserved: the strongest file's answers and direct answers;
   the later files' answers and then direct answers, wave by wave; each file's first anchor; the
   further anchors, wave by wave; the optional bodies.
   */
  function StageKey(s: Slot): Key {
    match s
    case AnswerSlot(f, i) => if f == 0 then Key(1, 0, i) else Key(2, i, f)
    case DirectSlot(f, i) => if f == 0 then Key(1, 1, i) else Key(3, i, f)
    case AnchorSlot(f, i) => if i == 0 then Key(4, f, 0) else Key(5, i, f)
    case OptionalSlot(f) => Key(6, f, 0)
  }

  function StagePhase(stage: int): Phase {
    if stage <= 3 then Answer else if stage == 4 then Fairness else if stage == 5 then Secondary else Phase.Optional
  }

  /** From place `from` on, `slots` holds slots of one stage in that stage's order. */
  ghost predicate InStage(slots: seq<Slot>, from: nat, stage: int) {
    && (forall j :: from <= j < |slots| ==> StageKey(slots[j]).a == stage)
    && (forall j, k :: from <= j < k < |slots| ==> Le(StageKey(slots[j]), StageKey(slots[k])))
  }

  /** What one pass adds to a trace: slots of one stage, in order. */
  ghost predicate Extends(ordered': seq<Admission>, slots': seq<Slot>, ordered: seq<Admission>, slots: seq<Slot>,
                          fps: seq<FilePlan>, stage: int) {
    && Trace(ordered', slots', fps)
    && |slots| == |ordered| && slots <= slots' && ordered <= ordered'
    && InStage(slots', |slots|, stage)
  }

  lemma ExtendsSnoc(ordered': seq<Admission>, slots': seq<Slot>, ordered: seq<Admission>, slots: seq<Slot>,
                    fps: seq<FilePlan>, stage: int, a: Admission, s: Slot)
    requires Extends(ordered', slots', ordered, slots, fps, stage)
    requires s !in slots' && Valid(s, fps) && a == AdmissionOf(s, fps) && StageKey(s).a == stage
    requires forall t :: t in slots' && t !in slots ==> Le(StageKey(t), StageKey(s))
    ensures Extends(ordered' + [a], slots' + [s], ordered, slots, fps, stage)
    ensures forall t :: t in slots' + [s] <==> t in slots' || t == s
  {
    TraceSnoc(ordered', slots', fps, a, s);
    forall j | |slots| <= j < |slots'|
      ensures Le(StageKey(slots'[j]), StageKey(s))
    {
      assert forall i :: 0 <= i < |slots| ==> slots[i] == slots'[i];
      assert slots'[j] in slots' && slots'[j] !in slots;
    }
  }

  /** The strongest file's answers and direct answers that no reservation emitted. */
  method EmitFirstFile(fps: seq<FilePlan>, admitted: set<Slot>, ordered: seq<Admission>, ghost slots: seq<Slot>)
    returns (ordered': seq<Admission>, ghost slots': seq<Slot>)
    requires Trace(ordered, slots, fps)
    requires forall s :: s in slots <==> s in admitted
    ensures Extends(ordered', slots', ordered, slots, fps, 1)
    ensures forall s :: s in slots' <==> s in slots || (Valid(s, fps) && s.fp == 0 && (s.AnswerSlot? || s.DirectSlot?))
  {
    ordered', slots' := ordered, slots;
    if fps == [] {
      return;
    }
    var fp := fps[0];
    for i := 0 to |fp.answers|
      invariant Extends(ordered', slots', ordered, slots, fps, 1)
      invariant forall s :: s in slots' <==> s in slots || (s.AnswerSlot? && s.fp == 0 && s.i < i)
    {
      var s := AnswerSlot(0, i);
      if s !in admitted {
        ExtendsSnoc(ordered', slots', ordered, slots, fps, 1, AnswerAdmission(s, fps), s);
        ordered' := ordered' + [AnswerAdmission(s, fps)];
        slots' := slots' + [s];
      }
    }
    for i := 0 to |fp.direct|
      invariant Extends(ordered', slots', ordered, slots, fps, 1)
      invariant forall s :: s in slots' <==>
        s in slots || (s.AnswerSlot? && s.fp == 0 && s.i < |fp.answers|) || (s.DirectSlot? && s.fp == 0 && s.i < i)
    {
      var s := DirectSlot(0, i);
      if s !in admitted {
        ExtendsSnoc(ordered', slots', ordered, slots, fps, 1, AnswerAdmission(s, fps), s);
        ordered' := ordered' + [AnswerAdmission(s, fps)];
        slots' := slots' + [s];
      }
    }
  }

  datatype Lane3 = AnswerLane | DirectLane | AnchorLane

  function InLane(lane: Lane3, fp: nat, i: nat): Slot {
    match lane
    case AnswerLane => AnswerSlot(fp, i)
    case DirectLane => DirectSlot(fp, i)
    case AnchorLane => AnchorSlot(fp, i)
  }

  predicate IsIn(lane: Lane3, s: Slot) {
    match lane
    case AnswerLane => s.AnswerSlot?
    case DirectLane => s.DirectSlot?
    case AnchorLane => s.AnchorSlot?
  }

  function LaneSize(lane: Lane3, fp: FilePlan): nat {
    match lane
    case AnswerLane => |fp.answers|
    case DirectLane => |fp.direct|
    case AnchorLane => |fp.anchors|
  }

  function LaneStage(lane: Lane3): int {
    match lane
    case AnswerLane => 2
    case DirectLane => 3
    case AnchorLane => 5
  }

  function WaveAdmission(lane: Lane3, fp: FilePlan, w: nat): Admission
    requires w < LaneSize(lane, fp)
  {
    match lane
    case AnswerLane => Admission(fp.plan, [fp.answers[w]], Answer, true)
    case DirectLane => Admission(fp.plan, [fp.direct[w]], Answer, true)
    case AnchorLane => Admission(fp.plan, [fp.anchors[w]], Secondary, false)
  }

  /** Waves needed: the longest lane among the files from `first` on. */
  method Waves(fps: seq<FilePlan>, lane: Lane3, first: nat) returns (n: nat)
    ensures forall f :: first <= f < |fps| ==> LaneSize(lane, fps[f]) <= n
    ensures n > 0 ==> exists f :: first <= f < |fps| && LaneSize(lane, fps[f]) == n
  {
    n := 0;
    var f := first;
    while f < |fps|
      invariant first <= f
      invariant forall g :: first <= g < f && g < |fps| ==> LaneSize(lane, fps[g]) <= n
      invariant n > 0 ==> exists g :: first <= g < |fps| && LaneSize(lane, fps[g]) == n
    {
      n := Max(n, LaneSize(lane, fps[f]));
      f := f + 1;
    }
  }

  /** Slots of a lane emitted once all waves before `w`, and in wave `w` all files before `f`, are done. */
  ghost predicate Reached(s: Slot, lane: Lane3, fps: seq<FilePlan>, firstFile: nat, firstWave: nat, w: nat, f: nat) {
    && Valid(s, fps) && IsIn(lane, s) && !s.OptionalSlot? && s.fp >= firstFile && s.i >= firstWave
    && (s.i < w || (s.i == w && s.fp < f))
  }

  /** Round-robin over the files: the first of each, then the second of each, and so on. */
  method EmitWaves(fps: seq<FilePlan>, lane: Lane3, firstFile: nat, firstWave: nat, admitted: set<Slot>,
                   ordered: seq<Admission>, ghost slots: seq<Slot>)
    returns (ordered': seq<Admission>, ghost slots': seq<Slot>)
    requires Trace(ordered, slots, fps)
    requires if lane == AnchorLane then firstWave >= 1 else firstFile >= 1
    requires forall s :: IsIn(lane, s) && s.fp >= firstFile && !s.OptionalSlot? && s.i >= firstWave ==> (s in slots <==> s in admitted)
    ensures Extends(ordered', slots', ordered, slots, fps, LaneStage(lane))
    ensures forall s :: s in slots' <==>
              s in slots || (Valid(s, fps) && IsIn(lane, s) && !s.OptionalSlot? && s.fp >= firstFile && s.i >= firstWave)
  {
    var stage := LaneStage(lane);
    var waves := Waves(fps, lane, firstFile);
    ordered', slots' := ordered, slots;
    var w := firstWave;
    while w < waves
      invariant w >= firstWave
      invariant Extends(ordered', slots', ordered, slots, fps, stage)
      invariant forall s :: s in slots' <==> s in slots || Reached(s, lane, fps, firstFile, firstWave, w, 0)
    {
      var f := firstFile;
      while f < |fps|
        invariant f >= firstFile
        invariant Extends(ordered', slots', ordered, slots, fps, stage)
        invariant forall s :: s in slots' <==> s in slots || Reached(s, lane, fps, firstFile, firstWave, w, f)
      {
        if w < LaneSize(lane, fps[f]) && InLane(lane, f, w) !in admitted {
          ghost var s := InLane(lane, f, w);
          ExtendsSnoc(ordered', slots', ordered, slots, fps, stage, WaveAdmission(lane, fps[f], w), s);
          ordered' := ordered' + [WaveAdmission(lane, fps[f], w)];
          slots' := slots' + [s];
        }
        f := f + 1;
      }
      w := w + 1;
    }
  }

  /** One compact excerpt per file that has an anchor. */
  method EmitFairness(fps: seq<FilePlan>, ordered: seq<Admission>, ghost slots: seq<Slot>)
    returns (ordered': seq<Admission>, ghost slots': seq<Slot>)
    requires Trace(ordered, slots, fps)
    requires forall s :: s in slots ==> !s.AnchorSlot?
    ensures Extends(ordered', slots', ordered, slots, fps, 4)
    ensures forall s :: s in slots' <==> s in slots || (Valid(s, fps) && s.AnchorSlot? && s.i == 0)
  {
    ordered', slots' := ordered, slots;
    for f := 0 to |fps|
      invariant Extends(ordered', slots', ordered, slots, fps, 4)
      invariant forall s :: s in slots' <==> s in slots || (Valid(s, fps) && s.AnchorSlot? && s.i == 0 && s.fp < f)
    {
      if fps[f].anchors != [] {
        var r := fps[f].anchors[0];
        var a := Admission(fps[f].plan, [r], Fairness, AtomicAnchor(r));
        ExtendsSnoc(ordered', slots', ordered, slots, fps, 4, a, AnchorSlot(f, 0));
        ordered' := ordered' + [a];
        slots' := slots' + [AnchorSlot(f, 0)];
      }
    }
  }

  /** The optional bodies, file by file. */
  method EmitOptional(fps: seq<FilePlan>, ordered: seq<Admission>, ghost slots: seq<Slot>)
    returns (ordered': seq<Admission>, ghost slots': seq<Slot>)
    requires Trace(ordered, slots, fps)
    requires forall s :: s in slots ==> !s.OptionalSlot?
    ensures Extends(ordered', slots', ordered, slots, fps, 6)
    ensures forall s :: s in slots' <==> s in slots || (Valid(s, fps) && s.OptionalSlot?)
  {
    ordered', slots' := ordered, slots;
    for f := 0 to |fps|
      invariant Extends(ordered', slots', ordered, slots, fps, 6)
      invariant forall s :: s in slots' <==> s in slots || (Valid(s, fps) && s.OptionalSlot? && s.fp < f)
    {
      if fps[f].optional != [] {
        var a := Admission(fps[f].plan, fps[f].optional, Phase.Optional, false);
        ExtendsSnoc(ordered', slots', ordered, slots, fps, 6, a, OptionalSlot(f));
        ordered' := ordered' + [a];
        slots' := slots' + [OptionalSlot(f)];
      }
    }
  }

  /** Behind the reservations (the first `n` slots) everything is in stage order, up to `stage`. */
  ghost predicate Staged(ordered: seq<Admission>, slots: seq<Slot>, fps: seq<FilePlan>, n: nat, stage: int) {
    && Trace(ordered, slots, fps) && n <= |slots|
    && (forall k :: 0 <= k < n ==> slots[k].AnswerSlot? || slots[k].DirectSlot?)
    && (forall k :: n <= k < |slots| ==> StageKey(slots[k]).a <= stage)
    && (forall j, k :: n <= j < k < |slots| ==> Le(StageKey(slots[j]), StageKey(slots[k])))
  }

  lemma ExtendsStaged(ordered': seq<Admission>, slots': seq<Slot>, ordered: seq<Admission>, slots: seq<Slot>,
                      fps: seq<FilePlan>, n: nat, last: int, stage: int)
    requires Staged(ordered, slots, fps, n, last) && Extends(ordered', slots', ordered, slots, fps, stage) && last < stage
    ensures Staged(ordered', slots', fps, n, stage)
  {
    forall k | 0 <= k < |slots|
      ensures slots'[k] == slots[k]
    {
    }
  }

  lemma SlotPhase(s: Slot, fps: seq<FilePlan>)
    requires Valid(s, fps)
    ensures AdmissionOf(s, fps).phase == StagePhase(StageKey(s).a)
  {
  }

  lemma StagedPhases(ordered: seq<Admission>, slots: seq<Slot>, fps: seq<FilePlan>, n: nat, stage: int)
    requires Staged(ordered, slots, fps, n, stage)
    ensures PhaseSorted(ordered)
  {
    forall j, k | 0 <= j < k < |ordered|
      ensures Rank(ordered[j].phase) <= Rank(ordered[k].phase)
    {
      SlotPhase(slots[j], fps);
      SlotPhase(slots[k], fps);
      if j >= n {
        assert Le(StageKey(slots[j]), StageKey(slots[k]));
      }
    }
  }

  /** Reservations come before everything else, best priority first. */
  ghost predicate ReservedFirst(slots: seq<Slot>, fps: seq<FilePlan>, order: map<NodeId, nat>) {
    && ByPriority(slots, fps, order)
    && forall j, k :: 0 <= j < k < |slots| && Reserved(slots[k], fps, order) ==> Reserved(slots[j], fps, order)
  }

  /** The unreserved slots come in the order of `StageKey`. */
  ghost predicate RestInStages(slots: seq<Slot>, fps: seq<FilePlan>, order: map<NodeId, nat>) {
    forall j, k :: 0 <= j < k < |slots| && !Reserved(slots[j], fps, order) ==> Le(StageKey(slots[j]), StageKey(slots[k]))
  }

  lemma ReservedPrefix(prefix: seq<Slot>, ordered: seq<Admission>, slots: seq<Slot>, fps: seq<FilePlan>,
                       order: map<NodeId, nat>)
    requires ByPriority(prefix, fps, order) && prefix <= slots
    requires forall s :: s in prefix <==> Reserved(s, fps, order)
    requires Staged(ordered, slots, fps, |prefix|, 6)
    ensures ReservedFirst(slots, fps, order) && RestInStages(slots, fps, order)
  {
    hide Priority, SlotPriority;
    forall k | 0 <= k < |prefix|
      ensures slots[k] == prefix[k] && Reserved(slots[k], fps, order)
    {
      assert prefix[k] in prefix;
    }
    forall k | 0 <= k < |slots| && Reserved(slots[k], fps, order)
      ensures k < |prefix|
    {
      var j :| 0 <= j < |prefix| && prefix[j] == slots[k];
      assert slots[j] == prefix[j];
    }
  }

  /**
   Everything asked for is emitted exactly once: reservations first, by priority, then the rest
   stage by stage. Since both orders are strict on slots, this fixes the sequence.
   */
  ghost predicate Prioritized(ordered: seq<Admission>, slots: seq<Slot>, fps: seq<FilePlan>, order: map<NodeId, nat>) {
    && Trace(ordered, slots, fps)
    && (forall s :: s in slots <==> Valid(s, fps))
    && PhaseSorted(ordered)
    && ReservedFirst(slots, fps, order) && RestInStages(slots, fps, order)
  }

  lemma ReservedAreAnswers(fps: seq<FilePlan>, order: map<NodeId, nat>)
    ensures forall s :: Reserved(s, fps, order) ==> Valid(s, fps) && (s.AnswerSlot? || s.DirectSlot?)
  {
  }

  /** Every answer of every file, reserved or not. */
  method EmitAnswers(fps: seq<FilePlan>, order: map<NodeId, nat>)
    returns (ordered: seq<Admission>, ghost slots: seq<Slot>, ghost reserved: seq<Slot>)
    ensures Staged(ordered, slots, fps, |reserved|, 3)
    ensures forall s :: s in slots <==> Valid(s, fps) && (s.AnswerSlot? || s.DirectSlot?)
    ensures reserved <= slots && ByPriority(reserved, fps, order)
    ensures forall s :: s in reserved <==> Reserved(s, fps, order)
  {
    hide Priority, SlotPriority, ByPriority;
    var admitted;
    ordered, admitted, reserved := EmitReserved(fps, order);
    ReservedAreAnswers(fps, order);
    assert forall k :: 0 <= k < |reserved| ==> reserved[k] in reserved;
    assert Staged(ordered, reserved, fps, |reserved|, 0);
    var o1, s1 := EmitFirstFile(fps, admitted, ordered, reserved);
    ExtendsStaged(o1, s1, ordered, reserved, fps, |reserved|, 0, 1);
    var o2, s2 := EmitWaves(fps, AnswerLane, 1, 0, admitted, o1, s1);
    ExtendsStaged(o2, s2, o1, s1, fps, |reserved|, 1, 2);
    var o3, s3 := EmitWaves(fps, DirectLane, 1, 0, admitted, o2, s2);
    ExtendsStaged(o3, s3, o2, s2, fps, |reserved|, 2, 3);
    ordered, slots := o3, s3;
  }

  /** The admissions of the file plans, in order of priority. */
  method EmitAll(fps: seq<FilePlan>, order: map<NodeId, nat>) returns (ordered: seq<Admission>, ghost slots: seq<Slot>)
    ensures Prioritized(ordered, slots, fps, order)
  {
    hide Priority, SlotPriority, ByPriority;
    var o0, s0, reserved := EmitAnswers(fps, order);
    var o1, s1 := EmitFairness(fps, o0, s0);
    ExtendsStaged(o1, s1, o0, s0, fps, |reserved|, 3, 4);
    var o2, s2 := EmitWaves(fps, AnchorLane, 0, 1, {}, o1, s1);
    ExtendsStaged(o2, s2, o1, s1, fps, |reserved|, 4, 5);
    var o3, s3 := EmitOptional(fps, o2, s2);
    ExtendsStaged(o3, s3, o2, s2, fps, |reserved|, 5, 6);
    ordered, slots := o3, s3;
    StagedPhases(ordered, slots, fps, |reserved|, 6);
    ReservedPrefix(reserved, ordered, slots, fps, order);
  }
}
