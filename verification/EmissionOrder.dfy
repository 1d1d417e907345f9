/** The order in which prioritising emits what the files ask for, slot by slot (src/graph/agent.rs). */
module EmissionOrder {
  import opened SourceRanges
  import opened Sorting
  import opened Admissions
  import opened FilePlans
  import opened Prioritize

  /** What is emitted for each kind of slot: answers are whole, further anchors and bodies may be cut. */
  lemma SlotShapes(ordered: seq<Admission>, slots: seq<Slot>, fps: seq<FilePlan>, order: map<NodeId, nat>, k: nat)
    requires Prioritized(ordered, slots, fps, order) && k < |slots|
    ensures var s, a := slots[k], ordered[k];
            && s.fp < |fps| && a.plan == fps[s.fp].plan
            && (a.atomic <==> s.AnswerSlot? || s.DirectSlot?
                              || (s.AnchorSlot? && s.i == 0 && fps[s.fp].anchors[0].reason == WholeFile
                                  && fps[s.fp].anchors[0].end - fps[s.fp].anchors[0].start < 200))
            && match s
               case AnswerSlot(f, i) => i < |fps[f].answers| && a.ranges == [fps[f].answers[i]] && a.phase == Answer
               case DirectSlot(f, i) => i < |fps[f].direct| && a.ranges == [fps[f].direct[i]] && a.phase == Answer
               case AnchorSlot(f, i) => i < |fps[f].anchors| && a.ranges == [fps[f].anchors[i]]
                                        && a.phase == if i == 0 then Fairness else Secondary
               case OptionalSlot(f) => a.ranges == fps[f].optional && a.phase == Phase.Optional
  {
    hide PhaseSorted, ReservedFirst, RestInStages;
  }

  /** Slots that come by files: the first anchors, and the optional bodies. */
  predicate ByFile(s: Slot) { s.OptionalSlot? || (s.AnchorSlot? && s.i == 0) }

  /** Slots that come wave by wave: the later files' answers, and the further anchors. */
  predicate ByWave(s: Slot) { !s.OptionalSlot? && !ByFile(s) && (s.AnchorSlot? || s.fp > 0) }

  predicate SameKind(s: Slot, t: Slot) {
    (s.AnswerSlot? && t.AnswerSlot?) || (s.DirectSlot? && t.DirectSlot?) || (s.AnchorSlot? && t.AnchorSlot?)
    || (s.OptionalSlot? && t.OptionalSlot?)
  }

  lemma StagesDecide(ordered: seq<Admission>, slots: seq<Slot>, fps: seq<FilePlan>, order: map<NodeId, nat>, j: nat, k: nat)
    requires Prioritized(ordered, slots, fps, order) && j < |slots| && k < |slots|
    requires !Reserved(slots[j], fps, order) && !Reserved(slots[k], fps, order)
    ensures Le(StageKey(slots[j]), StageKey(slots[k])) && slots[j] != slots[k] ==> j < k
  {
    hide PhaseSorted, ReservedFirst, Reserved;
    assert slots[j] != slots[k] ==> StageKey(slots[j]) != StageKey(slots[k]);
  }

  /** The stages of what is not reserved. */
  lemma StagesFollow(ordered: seq<Admission>, slots: seq<Slot>, fps: seq<FilePlan>, order: map<NodeId, nat>, j: nat, k: nat)
    requires Prioritized(ordered, slots, fps, order) && j < |slots| && k < |slots|
    requires !Reserved(slots[j], fps, order) && !Reserved(slots[k], fps, order)
    ensures var s, t := slots[j], slots[k];
            && (s.AnswerSlot? && s.fp == 0 && t.DirectSlot? && t.fp == 0 ==> j < k)
            && ((s.AnswerSlot? || s.DirectSlot?) && s.fp == 0 && (t.AnswerSlot? || t.DirectSlot?) && t.fp > 0 ==> j < k)
            && (s.AnswerSlot? && s.fp > 0 && t.DirectSlot? && t.fp > 0 ==> j < k)
            && ((s.AnswerSlot? || s.DirectSlot?) && (t.AnchorSlot? || t.OptionalSlot?) ==> j < k)
            && (s.AnchorSlot? && s.i == 0 && ((t.AnchorSlot? && t.i > 0) || t.OptionalSlot?) ==> j < k)
            && (s.AnchorSlot? && t.OptionalSlot? ==> j < k)
  {
    hide Prioritized, Reserved;
    StagesDecide(ordered, slots, fps, order, j, k);
  }

  /**
   Inside a stage: the strongest file's answers one by one, what comes by files in the order of the
   files, and what comes wave by wave with the first of each file ahead of the second of any.
   */
  lemma WavesFollow(ordered: seq<Admission>, slots: seq<Slot>, fps: seq<FilePlan>, order: map<NodeId, nat>, j: nat, k: nat)
    requires Prioritized(ordered, slots, fps, order) && j < |slots| && k < |slots|
    requires !Reserved(slots[j], fps, order) && !Reserved(slots[k], fps, order) && SameKind(slots[j], slots[k])
    ensures var s, t := slots[j], slots[k];
            && (ByFile(s) && ByFile(t) && s.fp < t.fp ==> j < k)
            && (ByWave(s) && ByWave(t) && (s.i < t.i || (s.i == t.i && s.fp < t.fp)) ==> j < k)
            && (!ByFile(s) && !ByFile(t) && s.fp == 0 && t.fp == 0 && s.i < t.i ==> j < k)
  {
    hide Prioritized, Reserved;
    StagesDecide(ordered, slots, fps, order, j, k);
  }

  /** Reserved answers come by the best priority of their ids, then by file, a file's answers before its direct ones. */
  lemma ReservationsFollow(ordered: seq<Admission>, slots: seq<Slot>, fps: seq<FilePlan>, order: map<NodeId, nat>, j: nat, k: nat)
    requires Prioritized(ordered, slots, fps, order) && j < |slots| && k < |slots|
    ensures Reserved(slots[j], fps, order) && !Reserved(slots[k], fps, order) ==> j < k
    ensures Reserved(slots[j], fps, order) && Reserved(slots[k], fps, order) ==>
              var s, t := slots[j], slots[k];
              var p, q := Best(s, fps, order), Best(t, fps, order);
              && (p < q ==> j < k)
              && (p == q && s.fp < t.fp ==> j < k)
              && (p == q && s.fp == t.fp && s.AnswerSlot? && t.DirectSlot? ==> j < k)
              && (p == q && s.fp == t.fp && SameKind(s, t) && s.i < t.i ==> j < k)
  {
    hide PhaseSorted, RestInStages, Priority;
    if Reserved(slots[j], fps, order) && Reserved(slots[k], fps, order) {
      BestIsPriority(slots[j], fps, order);
      BestIsPriority(slots[k], fps, order);
      hide Reserved, SlotPriority, Trace;
      assert k < j ==> Le(ReservedKey(slots[k], fps, order), ReservedKey(slots[j], fps, order));
    }
  }

  /** The ids of the excerpt in a reserved slot. */
  ghost function SlotIds(s: Slot, fps: seq<FilePlan>): seq<NodeId>
    requires Valid(s, fps) && (s.AnswerSlot? || s.DirectSlot?)
  {
    if s.AnswerSlot? then fps[s.fp].answers[s.i].nodeIds else fps[s.fp].direct[s.i].nodeIds
  }

  /** The best global priority among them. */
  ghost function Best(s: Slot, fps: seq<FilePlan>, order: map<NodeId, nat>): (p: nat)
    requires Reserved(s, fps, order)
    ensures (s.AnswerSlot? || s.DirectSlot?)
    ensures exists id :: id in SlotIds(s, fps) && id in order && order[id] == p
    ensures forall id :: id in SlotIds(s, fps) && id in order ==> p <= order[id]
  {
    SlotPriority(s, fps, order).value
  }

  lemma BestIsPriority(s: Slot, fps: seq<FilePlan>, order: map<NodeId, nat>)
    requires Reserved(s, fps, order)
    ensures ReservedKey(s, fps, order).a == Best(s, fps, order) && ReservedKey(s, fps, order).b == s.fp
    ensures (s.AnswerSlot? ==> ReservedKey(s, fps, order).c == s.i && s.i < |fps[s.fp].answers|)
    ensures (s.DirectSlot? ==> ReservedKey(s, fps, order).c == |fps[s.fp].answers| + s.i)
  {
    hide Priority;
  }
}
