/** Skill ownership (src/skills.rs): planning, writing and syncing the packaged skills. */
module Skills {
  import opened Prelude
  import ManagedBlock
  import EditLaws

  type Files = map<string, string>

  /** What stands at a skill directory's path. */
  datatype Place =
    | Missing
    | Unsafe                    // a symlink or special file on the way or inside
    | NotADirectory(bytes: string)
    | Dir(files: Files)

  const META := ".knobyte-managed.json"
  const SCHEMA: nat := 1
  const OWNER := "knobyte"
  const BODY := "SKILL.md"

  datatype Metadata = Metadata(schemaVersion: nat, owner: string, skill: string, version: string, files: map<string, string>)

  /** One published version: its packaged files for each skill. */
  datatype Release = Release(version: string, skills: map<string, Files>)

  /** The hash, the JSON form of the metadata, and the bodies earlier versions wrote verbatim. */
  datatype Env = Env(
    hash: string -> string,
    parse: string -> Option<Metadata>,
    render: Metadata -> string,
    legacyBodies: set<string>)

  datatype Code = UnsafePath | Unmanaged | MalformedOwnership | Modified

  datatype Plan = Create | Update(remove: set<string>) | Unchanged | Conflict(code: Code)

  function DesiredFiles(release: Release, skill: string): Files {
    if skill in release.skills then release.skills[skill] else map[]
  }

  function Hashes(env: Env, files: Files): map<string, string> {
    map p | p in files :: env.hash(files[p])
  }

  /** Every file but the metadata, with its hash. */
  function Snapshot(env: Env, files: Files): map<string, string> { Hashes(env, files - {META}) }

  function DesiredHashes(env: Env, release: Release, skill: string): map<string, string> {
    Hashes(env, DesiredFiles(release, skill))
  }

  predicate IsLegacy(env: Env, content: string) {
    exists body :: body in env.legacyBodies && env.hash(content) == env.hash(body)
  }

  predicate Identifies(md: Metadata, skill: string) {
    md.owner == OWNER && md.skill == skill && md.schemaVersion == SCHEMA
  }

  function PlanSkill(env: Env, release: Release, skill: string, place: Place): Plan {
    match place
    case Unsafe => Conflict(UnsafePath)
    case Missing => Create
    case NotADirectory(_) => Conflict(Unmanaged)
    case Dir(files) =>
      var snap := Snapshot(env, files);
      if META !in files then
        if |snap| == 1 && BODY in files && IsLegacy(env, files[BODY]) then Update({BODY}) else Conflict(Unmanaged)
      else
        var parsed := env.parse(files[META]);
        if parsed.None? || !Identifies(parsed.value, skill) then Conflict(MalformedOwnership)
        else if parsed.value.files != snap then Conflict(Modified)
        else if parsed.value.files == DesiredHashes(env, release, skill) then Unchanged
        else Update(parsed.value.files.Keys)
  }

  function MetadataFor(env: Env, release: Release, skill: string): Metadata {
    Metadata(SCHEMA, OWNER, skill, release.version, DesiredHashes(env, release, skill))
  }

  /** A directory exactly as this release installs it. */
  function Fresh(env: Env, release: Release, skill: string): Place {
    Dir(DesiredFiles(release, skill)[META := env.render(MetadataFor(env, release, skill))])
  }

  /** A release never packages the metadata file. */
  predicate Packaged(release: Release, skill: string) {
    META !in DesiredFiles(release, skill)
  }

  ghost predicate EnvOk(env: Env) {
    && (forall md :: env.parse(env.render(md)) == Some(md))
    && (forall a, b :: env.hash(a) == env.hash(b) ==> a == b)
  }

  // ----- planning -----

  function FilesOf(place: Place): Files { if place.Dir? then place.files else map[] }

  /** A file a plan may take away: its bytes carry the recorded hash, or are a known old body. */
  predicate Expendable(env: Env, skill: string, files: Files, p: string) {
    && p in files && p != META
    && if META in files then
         var parsed := env.parse(files[META]);
         && parsed.Some? && Identifies(parsed.value, skill)
         && p in parsed.value.files && parsed.value.files[p] == env.hash(files[p])
       else p == BODY && IsLegacy(env, files[p])
  }

  /** A plan that writes takes away every file there is, and only files that may be taken away. */
  lemma WritesOnlyOwned(env: Env, release: Release, skill: string, place: Place)
    requires PlanSkill(env, release, skill, place).Update?
    ensures place.Dir?
    ensures PlanSkill(env, release, skill, place).remove == place.files.Keys - {META}
    ensures forall p :: p in place.files && p != META ==> Expendable(env, skill, place.files, p)
  {
    hide IsLegacy, Identifies;
    var files := place.files;
    SnapshotHolds(env, files);
    if META !in files {
      OneKey(Snapshot(env, files), BODY);
      assert files.Keys == files.Keys - {META};
    }
  }

  lemma SnapshotHolds(env: Env, files: Files)
    ensures Snapshot(env, files).Keys == files.Keys - {META}
    ensures forall p :: p in files && p != META ==> p in Snapshot(env, files) && Snapshot(env, files)[p] == env.hash(files[p])
  {
  }

  lemma OneKey(m: map<string, string>, k: string)
    requires k in m
    ensures |m| == 1 ==> m.Keys == {k}
  {
    assert |m| == |m.Keys|;
    if |m| == 1 {
      assert |m.Keys - {k}| == 0;
    }
  }

  /** A directory as a release installs it is unchanged for that release, and for any with the same files. */
  lemma FreshIsUnchanged(env: Env, release: Release, next: Release, skill: string)
    requires EnvOk(env) && Packaged(release, skill)
    ensures PlanSkill(env, release, skill, Fresh(env, release, skill)) == Unchanged
    ensures PlanSkill(env, next, skill, Fresh(env, release, skill)) ==
            if DesiredFiles(next, skill) == DesiredFiles(release, skill) then Unchanged
            else Update(DesiredFiles(release, skill).Keys)
  {
    var desired := DesiredFiles(release, skill);
    var files := Fresh(env, release, skill).files;
    assert files - {META} == desired;
    assert DesiredHashes(env, release, skill).Keys == desired.Keys;
    var other := DesiredFiles(next, skill);
    if DesiredHashes(env, next, skill) == DesiredHashes(env, release, skill) {
      assert other.Keys == Hashes(env, other).Keys == Hashes(env, desired).Keys == desired.Keys;
      forall p | p in other ensures other[p] == desired[p] {
        assert Hashes(env, other)[p] == Hashes(env, desired)[p];
      }
      assert other == desired;
    }
  }

  // ----- writing and syncing -----

  datatype Slot = Slot(client: string, skill: string)

  const SKILL_TOOLS := ["claude", "codex"]
  const OFFICIAL_SKILLS := ["knobyte-inbox", "knobyte-relay"]

  datatype Action = Created | Updated | Kept | Conflicted | BackedUp

  datatype Report = Report(slot: Slot, action: Action)

  function ActionFor(plan: Plan, backup: bool): Action {
    match plan
    case Unchanged => Kept
    case Create => Created
    case Update(_) => Updated
    case Conflict(code) => if backup && code != UnsafePath then BackedUp else Conflicted
  }

  /** What a sync leaves at one directory. */
  function Synced(env: Env, release: Release, skill: string, backup: bool, place: Place): Place {
    match ActionFor(PlanSkill(env, release, skill, place), backup)
    case Kept => place
    case Conflicted => place
    case _ => Fresh(env, release, skill)
  }

  predicate Official(s: Slot) { s.client in SKILL_TOOLS && s.skill in OFFICIAL_SKILLS }

  function At(places: map<Slot, Place>, s: Slot): Place { if s in places then places[s] else Missing }

  function FileAt(files: map<string, ManagedBlock.File>, client: string): ManagedBlock.File {
    if client in files then files[client] else ManagedBlock.Absent
  }

  function EditAction(edit: ManagedBlock.Edit): Action {
    match edit.action
    case Noop => Kept
    case Create => Created
    case Migrate => Updated
    case Update => Updated
    case Conflict => Conflicted
  }

  const INSTRUCTIONS := "instructions"

  /** What a sync reports for the skills of one client. */
  function SkillReports(env: Env, release: Release, backup: bool, places: map<Slot, Place>, client: string,
                        skills: seq<string>): (reports: seq<Report>)
    ensures |reports| == |skills|
  {
    seq(|skills|, i requires 0 <= i < |skills| =>
      Report(Slot(client, skills[i]),
             ActionFor(PlanSkill(env, release, skills[i], At(places, Slot(client, skills[i]))), backup)))
  }

  /** What a sync reports: for each chosen client its skills, then its instruction file. */
  function Reports(env: Env, release: Release, backup: bool, block: string -> ManagedBlock.Spec,
                   places: map<Slot, Place>, files: map<string, ManagedBlock.File>,
                   clients: set<string>, tools: seq<string>): seq<Report>
  {
    if tools == [] then []
    else
      var last := tools[|tools| - 1];
      Reports(env, release, backup, block, places, files, clients, tools[..|tools| - 1])
      + (if last !in clients then []
         else SkillReports(env, release, backup, places, last, OFFICIAL_SKILLS)
              + [Report(Slot(last, INSTRUCTIONS), EditAction(ManagedBlock.PlanBlockEdit(block(last), FileAt(files, last))))])
  }

  lemma ReportsSnoc(env: Env, release: Release, backup: bool, block: string -> ManagedBlock.Spec,
                    places: map<Slot, Place>, files: map<string, ManagedBlock.File>,
                    clients: set<string>, tools: seq<string>, last: string)
    ensures Reports(env, release, backup, block, places, files, clients, tools + [last]) ==
            Reports(env, release, backup, block, places, files, clients, tools)
            + (if last !in clients then []
               else SkillReports(env, release, backup, places, last, OFFICIAL_SKILLS)
                    + [Report(Slot(last, INSTRUCTIONS),
                              EditAction(ManagedBlock.PlanBlockEdit(block(last), FileAt(files, last))))])
  {
    hide SkillReports, EditAction;
    assert (tools + [last])[..|tools|] == tools;
  }

  lemma SkillReportsSame(env: Env, release: Release, backup: bool, a: map<Slot, Place>, b: map<Slot, Place>,
                         client: string, skills: seq<string>)
    requires forall s: Slot :: s.client == client ==> At(a, s) == At(b, s)
    ensures SkillReports(env, release, backup, a, client, skills) == SkillReports(env, release, backup, b, client, skills)
  {
    hide PlanSkill, ActionFor, At;
    var ra, rb := SkillReports(env, release, backup, a, client, skills), SkillReports(env, release, backup, b, client, skills);
    forall i | 0 <= i < |skills| ensures ra[i] == rb[i] {
      assert At(a, Slot(client, skills[i])) == At(b, Slot(client, skills[i]));
    }
  }

  lemma NothingReported(env: Env, release: Release, backup: bool, block: string -> ManagedBlock.Spec,
                        places: map<Slot, Place>, files: map<string, ManagedBlock.File>, clients: set<string>)
    ensures Reports(env, release, backup, block, places, files, clients, []) == [] && !Clashes([])
  {
  }

  predicate Clashes(reports: seq<Report>) { exists i :: 0 <= i < |reports| && reports[i].action == Conflicted }

  lemma ClashesConcat(a: seq<Report>, b: seq<Report>)
    ensures Clashes(a + b) <==> Clashes(a) || Clashes(b)
  {
    if Clashes(b) {
      var i :| 0 <= i < |b| && b[i].action == Conflicted;
      assert (a + b)[|a| + i].action == Conflicted;
    }
    if Clashes(a) {
      var i :| 0 <= i < |a| && a[i].action == Conflicted;
      assert (a + b)[i].action == Conflicted;
    }
  }

  /** The directory is in conflict and goes to the backups. */
  predicate MovedAside(env: Env, release: Release, backup: bool, place: Place, s: Slot) {
    ActionFor(PlanSkill(env, release, s.skill, place), backup) == BackedUp
  }

  // ----- which directory gets which plan -----

  /** The record in a directory names this skill. */
  predicate NamesSkill(env: Env, skill: string, files: Files) {
    META in files && env.parse(files[META]).Some? && Identifies(env.parse(files[META]).value, skill)
  }

  /** The record names this skill and lists exactly the files beside it, each with its hash. */
  predicate Intact(env: Env, skill: string, files: Files) {
    && NamesSkill(env, skill, files)
    && var listed := env.parse(files[META]).value.files;
       && listed.Keys == files.Keys - {META}
       && forall p :: p in listed ==> listed[p] == env.hash(files[p])
  }

  /** The packaged files of this release, beside a record that names the skill and lists them. */
  predicate Installed(env: Env, release: Release, skill: string, place: Place) {
    place.Dir? && Intact(env, skill, place.files) && place.files - {META} == DesiredFiles(release, skill)
  }

  /** A single file, with a body that an old version wrote. */
  predicate LoneOldBody(env: Env, files: Files) { files.Keys == {BODY} && files[BODY] in env.legacyBodies }

  /** A sync may write here without moving anything aside. */
  predicate Ours(env: Env, skill: string, place: Place) {
    place.Missing? || (place.Dir? && (Intact(env, skill, place.files) || LoneOldBody(env, place.files)))
  }

  lemma LoneIsAlone(env: Env, files: Files)
    requires EnvOk(env)
    ensures META !in files ==>
              (LoneOldBody(env, files) <==> |Snapshot(env, files)| == 1 && BODY in files && IsLegacy(env, files[BODY]))
    ensures META in files ==> !LoneOldBody(env, files)
  {
    SnapshotHolds(env, files);
    if META !in files {
      assert files.Keys - {META} == files.Keys;
      assert |Snapshot(env, files)| == |Snapshot(env, files).Keys| == |files.Keys|;
      if BODY in files { OneKey(files, BODY); }
    }
  }

  lemma IntactIsSnapshot(env: Env, skill: string, files: Files)
    requires NamesSkill(env, skill, files)
    ensures Intact(env, skill, files) <==> env.parse(files[META]).value.files == Snapshot(env, files)
  {
    SnapshotHolds(env, files);
  }

  lemma SameHashesSameFiles(env: Env, a: Files, b: Files)
    requires EnvOk(env) && Hashes(env, a) == Hashes(env, b)
    ensures a == b
  {
    assert a.Keys == Hashes(env, a).Keys == Hashes(env, b).Keys == b.Keys;
    forall p | p in a ensures a[p] == b[p] {
      assert Hashes(env, a)[p] == Hashes(env, b)[p];
    }
  }

  /** What stands in a place decides what is planned for it, case by case. */
  lemma PlaceDecidesPlan(env: Env, release: Release, skill: string, place: Place)
    requires EnvOk(env) && Packaged(release, skill)
    ensures var plan := PlanSkill(env, release, skill, place);
            && (plan.Create? <==> place.Missing?)
            && (plan.Unchanged? <==> Installed(env, release, skill, place))
            && (plan.Update? <==> place.Dir? && Ours(env, skill, place) && !Installed(env, release, skill, place))
            && (plan == Conflict(UnsafePath) <==> place.Unsafe?)
            && (plan == Conflict(Unmanaged) <==>
                  || place.NotADirectory?
                  || (place.Dir? && META !in place.files && !LoneOldBody(env, place.files)))
            && (plan == Conflict(MalformedOwnership) <==>
                  place.Dir? && META in place.files && !NamesSkill(env, skill, place.files))
            && (plan == Conflict(Modified) <==>
                  place.Dir? && NamesSkill(env, skill, place.files) && !Intact(env, skill, place.files))
  {
    hide Intact, Identifies, IsLegacy, LoneOldBody, EnvOk, Packaged;
    if place.Dir? {
      var files := place.files;
      LoneIsAlone(env, files);
      if NamesSkill(env, skill, files) {
        IntactIsSnapshot(env, skill, files);
        if Snapshot(env, files) == DesiredHashes(env, release, skill) {
          SameHashesSameFiles(env, files - {META}, DesiredFiles(release, skill));
        }
      } else {
        NotIntact(env, skill, files);
      }
    }
  }

  lemma NotIntact(env: Env, skill: string, files: Files)
    requires !NamesSkill(env, skill, files)
    ensures !Intact(env, skill, files)
  {
  }

  /** A fresh install is the release's files and a record of them, which names the release's version. */
  lemma FreshIsInstalled(env: Env, release: Release, skill: string)
    requires EnvOk(env) && Packaged(release, skill)
    ensures Installed(env, release, skill, Fresh(env, release, skill))
    ensures env.parse(Fresh(env, release, skill).files[META]).value.version == release.version
  {
    var desired := DesiredFiles(release, skill);
    var files := Fresh(env, release, skill).files;
    var md := MetadataFor(env, release, skill);
    assert env.parse(files[META]) == Some(md);
    assert files - {META} == desired;
    assert md.files.Keys == desired.Keys == files.Keys - {META};
  }

  /** The places where a sync leaves the skill as the release installs it. */
  predicate Takes(env: Env, skill: string, backup: bool, place: Place) {
    Ours(env, skill, place) || (backup && !place.Unsafe?)
  }

  /** What a sync says it did, told from what it found. */
  predicate Tells(env: Env, release: Release, skill: string, backup: bool, place: Place, action: Action) {
    var ours := Ours(env, skill, place);
    match action
    case Created => place.Missing?
    case Kept => Installed(env, release, skill, place)
    case Updated => ours && !place.Missing? && !Installed(env, release, skill, place)
    case BackedUp => !ours && backup && !place.Unsafe?
    case Conflicted => !ours && (place.Unsafe? || !backup)
  }

  /** A sync installs a skill exactly where nothing is the user's, or the user's is to be moved aside. */
  lemma SyncInstalls(env: Env, release: Release, skill: string, backup: bool, place: Place)
    requires EnvOk(env) && Packaged(release, skill)
    ensures Installed(env, release, skill, Synced(env, release, skill, backup, place)) <==> Takes(env, skill, backup, place)
    ensures Tells(env, release, skill, backup, place, ActionFor(PlanSkill(env, release, skill, place), backup))
  {
    hide EnvOk, Packaged, PlanSkill, Fresh, NamesSkill, LoneOldBody;
    PlaceDecidesPlan(env, release, skill, place);
    FreshIsInstalled(env, release, skill);
  }

  /** What a sync says of an instruction file, told from what the file held. */
  ghost predicate TellsFile(spec: ManagedBlock.Spec, current: ManagedBlock.File, action: Action) {
    match action
    case Created => current.Absent?
    case Kept => current.Text? && EditLaws.IsSettled(spec, current.content)
    case Conflicted => EditLaws.Refused(spec, current)
    case Updated => current.Text? && !EditLaws.IsSettled(spec, current.content) && !EditLaws.Refused(spec, current)
    case BackedUp => false
  }

  lemma FileTells(spec: ManagedBlock.Spec, current: ManagedBlock.File)
    requires ManagedBlock.MarkersOk(spec)
    ensures TellsFile(spec, current, EditAction(ManagedBlock.PlanBlockEdit(spec, current)))
  {
    EditLaws.FileDecidesAction(spec, current);
    EditLaws.FileDecidesReason(spec, current);
    hide ManagedBlock.PlanBlockEdit, EditLaws.IsSettled, EditLaws.Refused;
  }

  /** One report is about a chosen client's skill or instruction file, and tells what stood there. */
  ghost predicate ReportTells(env: Env, release: Release, backup: bool, block: string -> ManagedBlock.Spec,
                              places: map<Slot, Place>, files: map<string, ManagedBlock.File>, clients: set<string>, r: Report)
  {
    && r.slot.client in clients
    && if r.slot.skill == INSTRUCTIONS then
         ManagedBlock.MarkersOk(block(r.slot.client)) ==>
           TellsFile(block(r.slot.client), FileAt(files, r.slot.client), r.action)
       else
         && r.slot.skill in OFFICIAL_SKILLS
         && Tells(env, release, r.slot.skill, backup, At(places, r.slot), r.action)
  }

  predicate Reported(reports: seq<Report>, s: Slot) { exists i :: 0 <= i < |reports| && reports[i].slot == s }

  lemma ReportedConcat(a: seq<Report>, b: seq<Report>, s: Slot)
    ensures Reported(a + b, s) <==> Reported(a, s) || Reported(b, s)
  {
    if Reported(b, s) {
      var i :| 0 <= i < |b| && b[i].slot == s;
      assert (a + b)[|a| + i].slot == s;
    }
    if Reported(a, s) {
      var i :| 0 <= i < |a| && a[i].slot == s;
      assert (a + b)[i].slot == s;
    }
  }

  lemma ClientReported(env: Env, release: Release, backup: bool, places: map<Slot, Place>, client: string, s: Slot)
    ensures Reported(SkillReports(env, release, backup, places, client, OFFICIAL_SKILLS), s) <==>
            s.client == client && s.skill in OFFICIAL_SKILLS
  {
    hide PlanSkill, ActionFor, At;
    var reports := SkillReports(env, release, backup, places, client, OFFICIAL_SKILLS);
    if s.client == client && s.skill in OFFICIAL_SKILLS {
      var i :| 0 <= i < |OFFICIAL_SKILLS| && OFFICIAL_SKILLS[i] == s.skill;
      assert reports[i].slot == s;
    }
  }

  lemma OneReported(r: Report, s: Slot)
    ensures Reported([r], s) <==> r.slot == s
  {
    assert [r][0] == r;
  }

  /** Every report of a sync tells what stood there, and each chosen client's skills and file are reported. */
  lemma {:induction false} ReportsTell(env: Env, release: Release, backup: bool, block: string -> ManagedBlock.Spec,
                                       places: map<Slot, Place>, files: map<string, ManagedBlock.File>,
                                       clients: set<string>, tools: seq<string>)
    requires EnvOk(env) && forall i :: 0 <= i < |OFFICIAL_SKILLS| ==> Packaged(release, OFFICIAL_SKILLS[i])
    ensures var reports := Reports(env, release, backup, block, places, files, clients, tools);
            && (forall r :: r in reports ==> ReportTells(env, release, backup, block, places, files, clients, r))
            && (forall s: Slot :: Reported(reports, s) <==>
                  s.client in clients && s.client in tools && (s.skill in OFFICIAL_SKILLS || s.skill == INSTRUCTIONS))
  {
    if tools == [] {
      NothingReported(env, release, backup, block, places, files, clients);
    } else {
      var k := |tools| - 1;
      var last := tools[k];
      ReportsTell(env, release, backup, block, places, files, clients, tools[..k]);
      hide EnvOk, Packaged, ReportTells, SkillReports, EditAction, ManagedBlock.PlanBlockEdit, ManagedBlock.MarkersOk, Reported;
      var before := Reports(env, release, backup, block, places, files, clients, tools[..k]);
      assert tools == tools[..k] + [last];
      if last in clients {
        var skills := SkillReports(env, release, backup, places, last, OFFICIAL_SKILLS);
        var file := Report(Slot(last, INSTRUCTIONS), EditAction(ManagedBlock.PlanBlockEdit(block(last), FileAt(files, last))));
        var reports := Reports(env, release, backup, block, places, files, clients, tools);
        SkillReportsTell(env, release, backup, block, places, files, clients, last);
        FileReportTells(env, release, backup, block, places, files, clients, last);
        assert reports == before + (skills + [file]);
        forall s: Slot ensures Reported(reports, s) <==>
          s.client in clients && s.client in tools && (s.skill in OFFICIAL_SKILLS || s.skill == INSTRUCTIONS)
        {
          ReportedConcat(before, skills + [file], s);
          ReportedConcat(skills, [file], s);
          ClientReported(env, release, backup, places, last, s);
          OneReported(file, s);
        }
      } else {
        assert before + [] == before;
      }
    }
  }

  lemma SkillReportsTell(env: Env, release: Release, backup: bool, block: string -> ManagedBlock.Spec,
                         places: map<Slot, Place>, files: map<string, ManagedBlock.File>, clients: set<string>, client: string)
    requires EnvOk(env) && forall i :: 0 <= i < |OFFICIAL_SKILLS| ==> Packaged(release, OFFICIAL_SKILLS[i])
    requires client in clients
    ensures forall r :: r in SkillReports(env, release, backup, places, client, OFFICIAL_SKILLS) ==>
              ReportTells(env, release, backup, block, places, files, clients, r)
  {
    hide EnvOk, Packaged, PlanSkill, ActionFor, At, Tells;
    forall r | r in SkillReports(env, release, backup, places, client, OFFICIAL_SKILLS)
      ensures ReportTells(env, release, backup, block, places, files, clients, r)
    {
      SyncInstalls(env, release, r.slot.skill, backup, At(places, r.slot));
    }
  }

  lemma FileReportTells(env: Env, release: Release, backup: bool, block: string -> ManagedBlock.Spec,
                        places: map<Slot, Place>, files: map<string, ManagedBlock.File>, clients: set<string>, client: string)
    requires client in clients
    ensures ReportTells(env, release, backup, block, places, files, clients,
              Report(Slot(client, INSTRUCTIONS), EditAction(ManagedBlock.PlanBlockEdit(block(client), FileAt(files, client)))))
  {
    hide TellsFile, ManagedBlock.MarkersOk, ManagedBlock.PlanBlockEdit, EditAction, FileAt;
    if ManagedBlock.MarkersOk(block(client)) {
      FileTells(block(client), FileAt(files, client));
    }
  }

  /** Every chosen client's skill is installed, where the user's own files are not in the way. */
  predicate SkillInstalled(env: Env, release: Release, s: Slot, backup: bool, before: Place, after: Place) {
    Installed(env, release, s.skill, after) <==> Takes(env, s.skill, backup, before)
  }

  class Project {
    var places: map<Slot, Place>
    var instructions: map<string, ManagedBlock.File>
    var backups: seq<(Slot, Place)>

    constructor (places: map<Slot, Place>, instructions: map<string, ManagedBlock.File>)
      ensures this.places == places && this.instructions == instructions && backups == []
    {
      this.places := places;
      this.instructions := instructions;
      backups := [];
    }

    /** Take the old files away, write the packaged ones, then record their hashes. */
    method WriteSkill(env: Env, release: Release, s: Slot, remove: set<string>)
      requires Packaged(release, s.skill)
      requires At(places, s).Missing? || At(places, s).Dir?
      modifies this`places
      ensures var files := FilesOf(At(old(places), s)) - remove - {META};
              places == old(places)[s := Dir((files + DesiredFiles(release, s.skill))
                                             [META := env.render(MetadataFor(env, release, s.skill))])]
    {
      var files := RemoveFiles(FilesOf(At(places, s)), remove);
      files := files - {META};
      files := WriteFiles(files, DesiredFiles(release, s.skill));
      files := files[META := env.render(MetadataFor(env, release, s.skill))];
      places := places[s := Dir(files)];
    }

    /** One directory of a sync. */
    method SyncOne(env: Env, release: Release, s: Slot, dryRun: bool, backup: bool) returns (action: Action)
      requires Packaged(release, s.skill)
      modifies this`places, this`backups
      ensures action == ActionFor(PlanSkill(env, release, s.skill, At(old(places), s)), backup)
      ensures places == if dryRun || action == Kept || action == Conflicted then old(places)
                        else old(places)[s := Fresh(env, release, s.skill)]
      ensures backups == old(backups) + if !dryRun && action == BackedUp then [(s, At(old(places), s))] else []
      ensures EnvOk(env) ==>
                && Tells(env, release, s.skill, backup, At(old(places), s), action)
                && (!dryRun ==> SkillInstalled(env, release, s, backup, At(old(places), s), At(places, s)))
    {
      hide Snapshot, IsLegacy, EnvOk, Installed, Ours, Packaged;
      if EnvOk(env) {
        SyncInstalls(env, release, s.skill, backup, At(places, s));
      }
      var place := At(places, s);
      var plan := PlanSkill(env, release, s.skill, place);
      action := ActionFor(plan, backup);
      match plan {
        case Unchanged =>
        case Create =>
          if !dryRun {
            WriteSkill(env, release, s, {});
            InstallsFresh(env, release, s.skill, map[], {});
          }
        case Update(remove) =>
          WritesOnlyOwned(env, release, s.skill, place);
          if !dryRun {
            WriteSkill(env, release, s, remove);
            InstallsFresh(env, release, s.skill, place.files, remove);
          }
        case Conflict(code) =>
          if backup && code != UnsafePath && !dryRun {
            backups := backups + [(s, place)];
            places := places - {s};
            WriteSkill(env, release, s, {});
            InstallsFresh(env, release, s.skill, map[], {});
          }
      }
    }

    /** The packaged skills of one client. */
    method SyncClient(env: Env, release: Release, client: string, dryRun: bool, backup: bool)
      returns (actions: seq<Report>)
      requires forall i :: 0 <= i < |OFFICIAL_SKILLS| ==> Packaged(release, OFFICIAL_SKILLS[i])
      modifies this`places, this`backups
      ensures actions == SkillReports(env, release, backup, old(places), client, OFFICIAL_SKILLS)
      ensures forall s: Slot :: At(places, s) ==
                if !dryRun && s.client == client && s.skill in OFFICIAL_SKILLS
                then Synced(env, release, s.skill, backup, At(old(places), s)) else At(old(places), s)
      ensures old(backups) <= backups
      ensures forall s: Slot :: MovedAside(env, release, backup, At(old(places), s), s)
                && !dryRun && s.client == client && s.skill in OFFICIAL_SKILLS
                ==> (s, At(old(places), s)) in backups
    {
      hide PlanSkill, ActionFor, Fresh, Packaged;
      actions := [];
      for i := 0 to |OFFICIAL_SKILLS|
        invariant actions == SkillReports(env, release, backup, old(places), client, OFFICIAL_SKILLS[..i])
        invariant forall s: Slot :: At(places, s) ==
                    if !dryRun && s.client == client && s.skill in OFFICIAL_SKILLS[..i]
                    then Synced(env, release, s.skill, backup, At(old(places), s)) else At(old(places), s)
        invariant old(backups) <= backups
        invariant forall s: Slot :: MovedAside(env, release, backup, At(old(places), s), s)
                    && !dryRun && s.client == client && s.skill in OFFICIAL_SKILLS[..i]
                    ==> (s, At(old(places), s)) in backups
      {
        var s := Slot(client, OFFICIAL_SKILLS[i]);
        TakeSnoc(OFFICIAL_SKILLS, i);
        assert OFFICIAL_SKILLS[i] !in OFFICIAL_SKILLS[..i];
        var action := SyncOne(env, release, s, dryRun, backup);
        actions := actions + [Report(s, action)];
      }
      TakeAll(OFFICIAL_SKILLS);
    }

    /** All the packaged skills and the instruction block of the chosen clients. */
    method SyncAgentAssets(env: Env, release: Release, block: string -> ManagedBlock.Spec, clients: set<string>,
                           dryRun: bool, backup: bool)
      returns (actions: seq<Report>, conflicted: bool)
      requires forall i :: 0 <= i < |OFFICIAL_SKILLS| ==> Packaged(release, OFFICIAL_SKILLS[i])
      modifies this
      ensures actions == Reports(env, release, backup, block, old(places), old(instructions), clients, SKILL_TOOLS)
      ensures conflicted <==> Clashes(actions)
      ensures forall s: Slot :: At(places, s) ==
                if !dryRun && s.client in clients && Official(s)
                then Synced(env, release, s.skill, backup, At(old(places), s)) else At(old(places), s)
      ensures forall c: string :: FileAt(instructions, c) ==
                if !dryRun && c in clients && c in SKILL_TOOLS
                then ManagedBlock.Applied(block(c), FileAt(old(instructions), c)) else FileAt(old(instructions), c)
      ensures old(backups) <= backups
      ensures forall s: Slot :: At(places, s) != At(old(places), s) ==>
                Owned(env, s.skill, At(old(places), s)) || (backup && (s, At(old(places), s)) in backups)
      ensures EnvOk(env) && !dryRun ==> forall s: Slot :: s.client in clients && Official(s) ==>
                SkillInstalled(env, release, s, backup, At(old(places), s), At(places, s))
      ensures EnvOk(env) ==> forall r :: r in actions ==>
                ReportTells(env, release, backup, block, old(places), old(instructions), clients, r)
      ensures EnvOk(env) ==> forall s: Slot :: Reported(actions, s) <==>
                s.client in clients && s.client in SKILL_TOOLS && (s.skill in OFFICIAL_SKILLS || s.skill == INSTRUCTIONS)
    {
      hide PlanSkill, Synced, SkillReports, Packaged, Reports, Clashes, MovedAside, EditAction, ManagedBlock.PlanBlockEdit, Owned;
      hide EnvOk, SkillInstalled, ReportTells, Reported;
      actions, conflicted := [], false;
      NothingReported(env, release, backup, block, places, instructions, clients);
      for t := 0 to |SKILL_TOOLS|
        invariant actions == Reports(env, release, backup, block, old(places), old(instructions), clients, SKILL_TOOLS[..t])
        invariant conflicted <==> Clashes(actions)
        invariant forall s: Slot :: At(places, s) ==
                    if !dryRun && s.client in clients && s.client in SKILL_TOOLS[..t] && s.skill in OFFICIAL_SKILLS
                    then Synced(env, release, s.skill, backup, At(old(places), s)) else At(old(places), s)
        invariant forall c: string :: FileAt(instructions, c) ==
                    if !dryRun && c in clients && c in SKILL_TOOLS[..t]
                    then ManagedBlock.Applied(block(c), FileAt(old(instructions), c)) else FileAt(old(instructions), c)
        invariant old(backups) <= backups
        invariant forall s: Slot :: MovedAside(env, release, backup, At(old(places), s), s)
                    && !dryRun && s.client in clients && s.client in SKILL_TOOLS[..t] && s.skill in OFFICIAL_SKILLS
                    ==> (s, At(old(places), s)) in backups
      {
        var client := SKILL_TOOLS[t];
        TakeSnoc(SKILL_TOOLS, t);
        assert client !in SKILL_TOOLS[..t];
        ReportsSnoc(env, release, backup, block, old(places), old(instructions), clients, SKILL_TOOLS[..t], client);
        if client in clients {
          SkillReportsSame(env, release, backup, places, old(places), client, OFFICIAL_SKILLS);
          var reports := SyncClient(env, release, client, dryRun, backup);
          var edit := ManagedBlock.PlanBlockEdit(block(client), FileAt(instructions, client));
          if !dryRun && edit.desired.Some? {
            instructions := instructions[client := ManagedBlock.Text(edit.desired.value)];
          }
          reports := reports + [Report(Slot(client, INSTRUCTIONS), EditAction(edit))];
          ClashesConcat(actions, reports);
          conflicted := conflicted || Clashes(reports);
          actions := actions + reports;
        }
      }
      TakeAll(SKILL_TOOLS);
      forall s: Slot | At(places, s) != At(old(places), s)
        ensures Owned(env, s.skill, At(old(places), s)) || (backup && (s, At(old(places), s)) in backups)
      {
        SyncedKeepsUserFiles(env, release, backup, At(old(places), s), s);
      }
      if EnvOk(env) {
        ReportsTell(env, release, backup, block, old(places), old(instructions), clients, SKILL_TOOLS);
        forall s: Slot | !dryRun && s.client in clients && Official(s)
          ensures SkillInstalled(env, release, s, backup, At(old(places), s), At(places, s))
        {
          SlotInstalled(env, release, s, backup, At(old(places), s));
        }
      }
    }
  }

  lemma SlotInstalled(env: Env, release: Release, s: Slot, backup: bool, before: Place)
    requires EnvOk(env) && Packaged(release, s.skill)
    ensures SkillInstalled(env, release, s, backup, before, Synced(env, release, s.skill, backup, before))
  {
    hide Installed, Takes, Synced, EnvOk, Packaged;
    SyncInstalls(env, release, s.skill, backup, before);
  }

  /** Writing over what a plan takes away leaves exactly a fresh install. */
  lemma InstallsFresh(env: Env, release: Release, skill: string, files: Files, remove: set<string>)
    requires files.Keys - {META} == remove
    ensures Dir((files - remove - {META} + DesiredFiles(release, skill))
                [META := env.render(MetadataFor(env, release, skill))]) == Fresh(env, release, skill)
  {
    assert files - remove - {META} == map[];
    assert map[] + DesiredFiles(release, skill) == DesiredFiles(release, skill);
  }

  /** Nothing of the user's is there: no file, or only files a sync may take away. */
  predicate Owned(env: Env, skill: string, place: Place) {
    || place.Missing?
    || (place.Dir? && forall p :: p in place.files && p != META ==> Expendable(env, skill, place.files, p))
  }

  /** A sync changes a directory only when nothing in it is the user's, or it was moved aside. */
  lemma SyncedKeepsUserFiles(env: Env, release: Release, backup: bool, place: Place, s: Slot)
    ensures Synced(env, release, s.skill, backup, place) != place ==>
            || Owned(env, s.skill, place)
            || (backup && MovedAside(env, release, backup, place, s))
  {
    hide Snapshot, Expendable, IsLegacy;
    if PlanSkill(env, release, s.skill, place).Update? {
      WritesOnlyOwned(env, release, s.skill, place);
    }
  }

  method RemoveFiles(before: Files, remove: set<string>) returns (files: Files)
    ensures files == before - remove
  {
    files := before;
    var left := remove;
    while left != {}
      invariant left <= remove
      invariant files == before - (remove - left)
      decreases |left|
    {
      var rel :| rel in left;
      assert remove - (left - {rel}) == (remove - left) + {rel};
      RemovesOne(before, remove - left, rel);
      if rel in files {
        files := files - {rel};
      }
      left := left - {rel};
    }
    assert remove - {} == remove;
  }

  lemma RemovesOne(before: Files, gone: set<string>, rel: string)
    ensures before - (gone + {rel}) == if rel in before - gone then before - gone - {rel} else before - gone
  {
  }

  method WriteFiles(before: Files, desired: Files) returns (files: Files)
    ensures files == before + desired
  {
    files := before;
    var todo := desired.Keys;
    WritesNoneAndAll(before, desired);
    while todo != {}
      invariant todo <= desired.Keys
      invariant files == before + (desired - todo)
      decreases |todo|
    {
      var rel :| rel in todo;
      WritesOne(before, desired, todo, rel);
      files := files[rel := desired[rel]];
      todo := todo - {rel};
    }
  }

  lemma WritesNoneAndAll(before: Files, desired: Files)
    ensures before + (desired - desired.Keys) == before
    ensures before + (desired - {}) == before + desired
  {
    assert desired - {} == desired;
  }

  lemma WritesOne(before: Files, desired: Files, todo: set<string>, rel: string)
    requires rel in todo && todo <= desired.Keys
    ensures before + (desired - (todo - {rel})) == (before + (desired - todo))[rel := desired[rel]]
  {
  }
}
