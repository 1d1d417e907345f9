/** Planned source files and the admissions made from them (src/graph/agent.rs). */
module Admissions {
  import opened SourceRanges

  /** Admission phases in priority order. */
  datatype Phase = Answer | Fairness | Secondary | Optional

  function Rank(p: Phase): int {
    match p
    case Answer => 0
    case Fairness => 1
    case Secondary => 2
    case Optional => 3
  }

  lemma PhasesAreRanked()
    ensures Rank(Answer) < Rank(Fairness) < Rank(Secondary) < Rank(Phase.Optional)
  {
  }

  datatype SourcePlan = SourcePlan(file: string, evidence: string, stale: bool, ranges: seq<SourceRange>)

  datatype Admission = Admission(plan: nat, ranges: seq<SourceRange>, phase: Phase, atomic: bool)

  /** Lines of every file, by path. */
  type Texts = map<string, seq<string>>

  ghost predicate AdmissionOk(a: Admission, plans: seq<SourcePlan>, texts: Texts) {
    && a.plan < |plans| && plans[a.plan].file in texts
    && AllShow(a.ranges, texts[plans[a.plan].file])
  }

  ghost predicate AdmissionsOk(admissions: seq<Admission>, plans: seq<SourcePlan>, texts: Texts) {
    forall i :: 0 <= i < |admissions| ==> AdmissionOk(admissions[i], plans, texts)
  }

  /** Admission `a` of phase `ph` carries line `l` of `file`. */
  ghost predicate Carries(a: Admission, plans: seq<SourcePlan>, file: string, ph: Phase, l: int) {
    a.plan < |plans| && plans[a.plan].file == file && a.phase == ph && Covers(a.ranges, l)
  }

  /** Some admission of phase `ph` sends line `l` of `file`. */
  ghost predicate Sends(admissions: seq<Admission>, plans: seq<SourcePlan>, file: string, ph: Phase, l: int) {
    exists i :: 0 <= i < |admissions| && Carries(admissions[i], plans, file, ph, l)
  }

  /** Some admission sends line `l` of `file`, in whatever phase. */
  ghost predicate SendsAny(admissions: seq<Admission>, plans: seq<SourcePlan>, file: string, l: int) {
    exists ph :: Sends(admissions, plans, file, ph, l)
  }

  ghost predicate PhaseSorted(admissions: seq<Admission>) {
    forall i, j :: 0 <= i < j < |admissions| ==> Rank(admissions[i].phase) <= Rank(admissions[j].phase)
  }

  /** No line of a file is carried by two admissions. */
  ghost predicate SentOnce(admissions: seq<Admission>, plans: seq<SourcePlan>) {
    forall i, j, file, ph, ph', l :: 0 <= i < j < |admissions| ==>
      Carries(admissions[i], plans, file, ph, l) ==> !Carries(admissions[j], plans, file, ph', l)
  }
}
