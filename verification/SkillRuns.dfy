/** Runs of syncs by any releases, with a user who edits the directory in between. */
module SkillRuns {
  import opened Skills
  import opened Prelude

  datatype Step = Edit(to: Place) | Sync(release: Release, backup: bool)

  /** One skill directory, with what earlier syncs wrote into it and moved out of it. */
  datatype World = World(place: Place, backups: seq<Place>, written: set<(string, string)>, records: set<string>)

  function Next(env: Env, skill: string, w: World, step: Step): World {
    match step
    case Edit(to) => w.(place := to)
    case Sync(release, backup) =>
      var action := ActionFor(PlanSkill(env, release, skill, w.place), backup);
      if action == Kept || action == Conflicted then w
      else World(Fresh(env, release, skill),
                 if action == BackedUp then w.backups + [w.place] else w.backups,
                 w.written + DesiredFiles(release, skill).Items,
                 w.records + {env.render(MetadataFor(env, release, skill))})
  }

  /** The ownership record in a directory, when it has one that names the skill, is one a sync wrote. */
  predicate Honest(env: Env, skill: string, place: Place, records: set<string>) {
    place.Dir? && META in place.files && place.files[META] !in records ==>
      var md := env.parse(place.files[META]);
      md.None? || !Identifies(md.value, skill)
  }

  /** The user may put anything at the path, short of forging an ownership record. */
  predicate Allowed(env: Env, skill: string, w: World, step: Step) {
    match step
    case Edit(to) => Honest(env, skill, to, w.records)
    case Sync(release, _) => Packaged(release, skill)
  }

  /** Every hash in a record is the hash of something a sync wrote to that path. */
  ghost predicate Backed(env: Env, written: set<(string, string)>, record: string) {
    var md := env.parse(record);
    md.Some? ==> forall p :: p in md.value.files ==> exists c :: (p, c) in written && md.value.files[p] == env.hash(c)
  }

  ghost predicate Inv(env: Env, skill: string, w: World) {
    && Honest(env, skill, w.place, w.records)
    && (forall m :: m in w.records ==> Backed(env, w.written, m))
  }

  lemma BackedGrows(env: Env, written: set<(string, string)>, more: set<(string, string)>, record: string)
    requires Backed(env, written, record)
    ensures Backed(env, written + more, record)
  {
    var md := env.parse(record);
    if md.Some? {
      forall p | p in md.value.files ensures exists c :: (p, c) in written + more && md.value.files[p] == env.hash(c) {
        var c :| (p, c) in written && md.value.files[p] == env.hash(c);
        assert (p, c) in written + more;
      }
    }
  }

  lemma NewRecordIsBacked(env: Env, release: Release, skill: string)
    requires EnvOk(env)
    ensures Backed(env, DesiredFiles(release, skill).Items, env.render(MetadataFor(env, release, skill)))
  {
    var desired := DesiredFiles(release, skill);
    var md := MetadataFor(env, release, skill);
    assert env.parse(env.render(md)) == Some(md);
    forall p | p in md.files ensures exists c :: (p, c) in desired.Items && md.files[p] == env.hash(c) {
      assert (p, desired[p]) in desired.Items;
    }
  }

  lemma StepKeeps(env: Env, skill: string, w: World, step: Step)
    requires EnvOk(env) && Inv(env, skill, w) && Allowed(env, skill, w, step)
    ensures Inv(env, skill, Next(env, skill, w, step))
  {
    hide PlanSkill, ActionFor, Backed, EnvOk, Packaged;
    if step.Sync? {
      var next := Next(env, skill, w, step);
      var items := DesiredFiles(step.release, skill).Items;
      var record := env.render(MetadataFor(env, step.release, skill));
      forall m | m in w.records ensures Backed(env, w.written + items, m) {
        BackedGrows(env, w.written, items, m);
      }
      NewRecordIsBacked(env, step.release, skill);
      BackedGrows(env, items, w.written, record);
      assert items + w.written == w.written + items;
    }
  }

  function Run(env: Env, skill: string, w: World, steps: seq<Step>): World {
    if steps == [] then w else Next(env, skill, Run(env, skill, w, steps[..|steps| - 1]), steps[|steps| - 1])
  }

  ghost predicate ValidRun(env: Env, skill: string, w: World, steps: seq<Step>) {
    forall k :: 0 <= k < |steps| ==> Allowed(env, skill, Run(env, skill, w, steps[..k]), steps[k])
  }

  lemma {:induction false} RunKeeps(env: Env, skill: string, w: World, steps: seq<Step>)
    requires EnvOk(env) && Inv(env, skill, w) && ValidRun(env, skill, w, steps)
    ensures Inv(env, skill, Run(env, skill, w, steps))
  {
    hide Inv, Allowed, EnvOk, Next;
    if steps != [] {
      var k := |steps| - 1;
      forall j | 0 <= j < k ensures Allowed(env, skill, Run(env, skill, w, steps[..k][..j]), steps[..k][j]) {
        assert steps[..k][..j] == steps[..j];
      }
      RunKeeps(env, skill, w, steps[..k]);
      StepKeeps(env, skill, Run(env, skill, w, steps[..k]), steps[k]);
    }
  }

  /** The bytes at a path are still there after a step. */
  predicate Survives(before: Place, after: Place, p: string) {
    before.Dir? && p in before.files ==> after.Dir? && p in after.files && after.files[p] == before.files[p]
  }

  /** A file that may be taken away holds bytes a sync wrote there, or a body of an old version. */
  lemma ExpendableWasWritten(env: Env, skill: string, w: World, p: string)
    requires EnvOk(env) && Inv(env, skill, w) && w.place.Dir? && Expendable(env, skill, w.place.files, p)
    ensures (p, w.place.files[p]) in w.written || w.place.files[p] in env.legacyBodies
  {
    var files := w.place.files;
    if META in files {
      var md := env.parse(files[META]).value;
      assert files[META] in w.records && Backed(env, w.written, files[META]);
      var c :| (p, c) in w.written && md.files[p] == env.hash(c);
      assert env.hash(c) == env.hash(files[p]);
    } else {
      var body :| body in env.legacyBodies && env.hash(files[p]) == env.hash(body);
    }
  }

  /**
   In any run from an honest start, a sync that overwrites or deletes a file finds there exactly
   what an earlier sync wrote to that path, or a body an old version shipped; anything else stays
   in place, or goes to the backups whole when that was asked for.
   */
  lemma UserFilesSurvive(env: Env, skill: string, w: World, steps: seq<Step>, k: nat, p: string)
    requires EnvOk(env) && Inv(env, skill, w) && ValidRun(env, skill, w, steps)
    requires k < |steps| && steps[k].Sync? && p != META
    ensures var before := Run(env, skill, w, steps[..k]);
            var after := Run(env, skill, w, steps[..k + 1]);
            || Survives(before.place, after.place, p)
            || (p, before.place.files[p]) in before.written
            || before.place.files[p] in env.legacyBodies
            || (steps[k].backup && before.place in after.backups)
  {
    hide Inv, Allowed, EnvOk, PlanSkill, Expendable, Synced, Run;
    var before := Run(env, skill, w, steps[..k]);
    var after := Run(env, skill, w, steps[..k + 1]);
    PrefixRun(env, skill, w, steps, k);
    var release, backup := steps[k].release, steps[k].backup;
    var s := Slot("", skill);
    SyncedKeepsUserFiles(env, release, backup, before.place, s);
    NextIsSynced(env, skill, before, release, backup);
    if before.place.Dir? && p in before.place.files && after.place != before.place {
      if Owned(env, skill, before.place) {
        ExpendableWasWritten(env, skill, before, p);
      } else {
        assert before.place in after.backups;
      }
    }
  }

  lemma PrefixRun(env: Env, skill: string, w: World, steps: seq<Step>, k: nat)
    requires EnvOk(env) && Inv(env, skill, w) && ValidRun(env, skill, w, steps) && k < |steps|
    ensures Inv(env, skill, Run(env, skill, w, steps[..k]))
    ensures Run(env, skill, w, steps[..k + 1]) == Next(env, skill, Run(env, skill, w, steps[..k]), steps[k])
  {
    hide Inv, Allowed, EnvOk, Next;
    forall j | 0 <= j < k ensures Allowed(env, skill, Run(env, skill, w, steps[..k][..j]), steps[..k][j]) {
      assert steps[..k][..j] == steps[..j];
    }
    RunKeeps(env, skill, w, steps[..k]);
    assert steps[..k + 1][..k] == steps[..k];
  }

  lemma NextIsSynced(env: Env, skill: string, w: World, release: Release, backup: bool)
    ensures var next := Next(env, skill, w, Sync(release, backup));
            && next.place == Synced(env, release, skill, backup, w.place)
            && (MovedAside(env, release, backup, w.place, Slot("", skill)) ==> w.place in next.backups)
  {
    hide PlanSkill;
  }

  /** Syncing again with the same release changes nothing, and after a write it reports unchanged. */
  lemma SyncSettles(env: Env, release: Release, skill: string, place: Place)
    requires EnvOk(env) && Packaged(release, skill)
    ensures var once := Synced(env, release, skill, false, place);
            && Synced(env, release, skill, false, once) == once
            && (once != place ==> PlanSkill(env, release, skill, once) == Unchanged)
  {
    hide PlanSkill, Packaged, EnvOk, Fresh;
    FreshIsUnchanged(env, release, release, skill);
  }
}
