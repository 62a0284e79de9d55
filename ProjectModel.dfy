/**
 * The project and task extensions (dbm/models/project.py): the project
 * code must be unique, a task's project code must read XXXXX-YY, and
 * creating a task with a project code links it to the project carrying
 * that code.
 */
module ProjectModel {
  import opened Common

  /** A stored project: its id and its code ("" when unset). */
  datatype Project = Project(id: nat, code: string)

  // ---------------------------------------------------------------------
  // Code uniqueness (project.py:39-54)

  predicate HasDuplicateCode(table: seq<Project>, p: Project) {
    exists i | 0 <= i < |table| :: table[i].id != p.id && table[i].code == p.code
  }

  predicate CodeCheckFails(table: seq<Project>, p: Project) {
    p.code != "" && HasDuplicateCode(table, p)
  }

  function DuplicateCodeMessage(code: string): string {
    "Project with code '" + code + "' already exists. Please use a unique project code."
  }

  /** `_check_project_code_unique` on `recs` against the stored projects:
      None when it passes, otherwise the error of the first failing record. */
  function CheckProjectCodeUnique(recs: seq<Project>, table: seq<Project>): (r: Option<string>)
    ensures r.None? <==> forall i | 0 <= i < |recs| :: !CodeCheckFails(table, recs[i])
    ensures r.Some? ==> exists i | 0 <= i < |recs| ::
              && CodeCheckFails(table, recs[i])
              && r.value == DuplicateCodeMessage(recs[i].code)
              && forall j | 0 <= j < i :: !CodeCheckFails(table, recs[j])
    ensures (forall i | 0 <= i < |recs| :: recs[i].code == "") ==> r.None?
  {
    if |recs| == 0 then None
    else if CodeCheckFails(table, recs[0]) then Some(DuplicateCodeMessage(recs[0].code))
    else
      var r := CheckProjectCodeUnique(recs[1..], table);
      assert forall i | 1 <= i < |recs| :: recs[i] == recs[1..][i - 1];
      if r.Some? then
        var k :| 0 <= k < |recs[1..]| && CodeCheckFails(table, recs[1..][k])
                 && r.value == DuplicateCodeMessage(recs[1..][k].code)
                 && forall j | 0 <= j < k :: !CodeCheckFails(table, recs[1..][j]);
        assert recs[k + 1] == recs[1..][k];
        r
      else r
  }

  predicate CodesDistinct(table: seq<Project>) {
    forall i, j | 0 <= i < |table| && 0 <= j < |table| ::
      table[i].id != table[j].id && table[i].code != "" ==> table[i].code != table[j].code
  }

  /** A record never conflicts with itself. */
  lemma ProjectSingletonPasses(p: Project)
    ensures CheckProjectCodeUnique([p], [p]).None?
  {
    assert !HasDuplicateCode([p], p);
  }

  /** Checking the whole table passes exactly when its non-empty codes are
      pairwise distinct. */
  lemma ProjectTablePassesIffCodesDistinct(table: seq<Project>)
    ensures CheckProjectCodeUnique(table, table).None? <==> CodesDistinct(table)
  {
    if CheckProjectCodeUnique(table, table).None? {
      forall i, j | 0 <= i < |table| && 0 <= j < |table| && table[i].id != table[j].id && table[i].code != ""
        ensures table[i].code != table[j].code
      {
        assert !CodeCheckFails(table, table[i]);
      }
    }
    if CodesDistinct(table) {
      forall i | 0 <= i < |table| ensures !CodeCheckFails(table, table[i]) {
        if HasDuplicateCode(table, table[i]) {
          var j :| 0 <= j < |table| && table[j].id != table[i].id && table[j].code == table[i].code;
          assert table[i].code == "";
        }
      }
    }
  }

  // ---------------------------------------------------------------------
  // Code format (project.py:90-101)

  /** Exactly five ASCII digits, a dash and two ASCII digits. */
  predicate WellFormedCode(s: string) {
    && |s| == 8
    && (forall i | 0 <= i < 5 :: IsAsciiDigit(s[i]))
    && s[5] == '-'
    && IsAsciiDigit(s[6]) && IsAsciiDigit(s[7])
  }

  /** `re.match(r'^\d{5}-\d{2}$', s)` as written: Python's `$` also matches
      just before a final newline, so one trailing "\n" is let through. */
  predicate CodePatternMatchesAsWritten(s: string) {
    WellFormedCode(s) || (|s| == 9 && s[8] == '\n' && WellFormedCode(s[..8]))
  }

  function FormatMessage(code: string): string {
    "Formato codice commessa non valido: " + code + ". Formato atteso: XXXXX-YY (es. 00001-24)"
  }

  /** `_check_project_code_format` as written, over the `project_code`
      values of the records checked ("" for unset). */
  function CheckProjectCodeFormatAsWritten(codes: seq<string>): (r: Option<string>)
    ensures r.None? <==> forall i | 0 <= i < |codes| :: codes[i] == "" || CodePatternMatchesAsWritten(codes[i])
    ensures r.Some? ==> exists i | 0 <= i < |codes| ::
              && codes[i] != "" && !CodePatternMatchesAsWritten(codes[i]) && r.value == FormatMessage(codes[i])
              && forall j | 0 <= j < i :: codes[j] == "" || CodePatternMatchesAsWritten(codes[j])
  {
    if |codes| == 0 then None
    else if codes[0] != "" && !CodePatternMatchesAsWritten(codes[0]) then Some(FormatMessage(codes[0]))
    else
      var r := CheckProjectCodeFormatAsWritten(codes[1..]);
      assert forall i | 1 <= i < |codes| :: codes[i] == codes[1..][i - 1];
      if r.Some? then
        var k :| 0 <= k < |codes[1..]| && codes[1..][k] != "" && !CodePatternMatchesAsWritten(codes[1..][k])
                 && r.value == FormatMessage(codes[1..][k])
                 && forall j | 0 <= j < k :: codes[1..][j] == "" || CodePatternMatchesAsWritten(codes[1..][j]);
        assert codes[k + 1] == codes[1..][k];
        r
      else r
  }

  /** The format check with the pattern matched against the whole value
      (`re.fullmatch`, or `\Z` for `$`). */
  function CheckProjectCodeFormat(codes: seq<string>): (r: Option<string>)
    ensures r.None? <==> forall i | 0 <= i < |codes| :: codes[i] == "" || WellFormedCode(codes[i])
    ensures r.Some? ==> exists i | 0 <= i < |codes| ::
              && codes[i] != "" && !WellFormedCode(codes[i]) && r.value == FormatMessage(codes[i])
              && forall j | 0 <= j < i :: codes[j] == "" || WellFormedCode(codes[j])
  {
    if |codes| == 0 then None
    else if codes[0] != "" && !WellFormedCode(codes[0]) then Some(FormatMessage(codes[0]))
    else
      var r := CheckProjectCodeFormat(codes[1..]);
      assert forall i | 1 <= i < |codes| :: codes[i] == codes[1..][i - 1];
      if r.Some? then
        var k :| 0 <= k < |codes[1..]| && codes[1..][k] != "" && !WellFormedCode(codes[1..][k])
                 && r.value == FormatMessage(codes[1..][k])
                 && forall j | 0 <= j < k :: codes[1..][j] == "" || WellFormedCode(codes[1..][j]);
        assert codes[k + 1] == codes[1..][k];
        r
      else r
  }

  /** The documented example passes both versions. */
  lemma ExampleCodeAccepted()
    ensures CheckProjectCodeFormat(["00001-24"]).None?
    ensures CheckProjectCodeFormatAsWritten(["00001-24"]).None?
  {
    assert WellFormedCode("00001-24");
  }

  /** The code as written accepts a value with a trailing newline, which
      the documented format XXXXX-YY excludes; the corrected check rejects it. */
  lemma TrailingNewlineLetThrough()
    ensures CheckProjectCodeFormatAsWritten(["00001-24\n"]).None?
    ensures CheckProjectCodeFormat(["00001-24\n"]) == Some(FormatMessage("00001-24\n"))
  {
    assert "00001-24\n"[..8] == "00001-24";
    assert WellFormedCode("00001-24");
    assert !WellFormedCode("00001-24\n");
  }

  /** The two versions differ only on that trailing newline. */
  lemma AsWrittenDiffersOnlyByNewline(s: string)
    ensures CodePatternMatchesAsWritten(s) <==>
              WellFormedCode(s) || (|s| > 0 && s[|s| - 1] == '\n' && WellFormedCode(s[..|s| - 1]))
  {
  }

  // ---------------------------------------------------------------------
  // Task creation (project.py:74-88)

  /** The first project carrying `code` (`search(..., limit=1)`). */
  function FindByCode(projects: seq<Project>, code: string): (r: Option<Project>)
    ensures r.Some? ==> r.value in projects && r.value.code == code
    ensures r.None? <==> forall i | 0 <= i < |projects| :: projects[i].code != code
    ensures r.Some? ==> exists i | 0 <= i < |projects| ::
              projects[i] == r.value && forall j | 0 <= j < i :: projects[j].code != code
  {
    if |projects| == 0 then None
    else if projects[0].code == code then Some(projects[0])
    else
      var r := FindByCode(projects[1..], code);
      assert forall i | 1 <= i < |projects| :: projects[i] == projects[1..][i - 1];
      if r.Some? then
        var k :| 0 <= k < |projects[1..]| && projects[1..][k] == r.value
                 && forall j | 0 <= j < k :: projects[1..][j].code != code;
        assert projects[k + 1] == projects[1..][k];
        r
      else r
  }

  /** The non-empty project code of the vals, if any. */
  function GivenCode(vals: map<string, Value>): Option<string> {
    if "project_code" in vals && vals["project_code"].Text? && vals["project_code"].s != "" then
      Some(vals["project_code"].s)
    else None
  }

  /** What `create` hands on to the ORM: with a non-empty project code of
      a stored project, `project_id` becomes that project (overriding any
      given one); otherwise the vals are unchanged. No other key changes. */
  function ResolveProjectCode(vals: map<string, Value>, projects: seq<Project>): (r: map<string, Value>)
    ensures forall k :: k != "project_id" ==> (k in r <==> k in vals) && (k in r ==> r[k] == vals[k])
    ensures GivenCode(vals).Some? && FindByCode(projects, GivenCode(vals).value).Some? ==>
              "project_id" in r && r["project_id"] == RecordId(FindByCode(projects, GivenCode(vals).value).value.id)
    ensures GivenCode(vals).None? || FindByCode(projects, GivenCode(vals).value).None? ==> r == vals
  {
    match GivenCode(vals)
    case None => vals
    case Some(code) =>
      match FindByCode(projects, code)
      case None => vals
      case Some(p) => vals["project_id" := RecordId(p.id)]
  }

  /** Resolving again changes nothing: the code is still there and still
      names the same project. */
  lemma ResolveIdempotent(vals: map<string, Value>, projects: seq<Project>)
    ensures ResolveProjectCode(ResolveProjectCode(vals, projects), projects) == ResolveProjectCode(vals, projects)
  {
    var r := ResolveProjectCode(vals, projects);
    assert GivenCode(r) == GivenCode(vals);
  }

  /** The error the format constraint raises on a task created with
      `vals`: `ResolveProjectCode` keeps `project_code`, so the new record
      carries the given code, and only a non-empty one is checked. */
  function TaskCodeError(vals: map<string, Value>): (r: Option<string>)
    ensures r.Some? <==> GivenCode(vals).Some? && !WellFormedCode(GivenCode(vals).value)
    ensures r.Some? ==> r.value == FormatMessage(GivenCode(vals).value)
  {
    match GivenCode(vals)
    case None => None
    case Some(code) => CheckProjectCodeFormat([code])
  }

  /** A task with code "ABC" is refused with the format message; one with
      "00001-24", or with no code, is not. */
  lemma TaskCodeErrorExamples()
    ensures TaskCodeError(map["project_code" := Text("ABC")]) == Some(FormatMessage("ABC"))
    ensures TaskCodeError(map["project_code" := Text("00001-24")]).None?
    ensures TaskCodeError(map["project_code" := Text("")]).None?
  {
    assert GivenCode(map["project_code" := Text("ABC")]) == Some("ABC");
    assert GivenCode(map["project_code" := Text("00001-24")]) == Some("00001-24");
  }

  /** The tasks created so far, as the vals each was created with. */
  class TaskStore {
    var tasks: seq<map<string, Value>>

    constructor()
      ensures tasks == []
    {
      tasks := [];
    }

    /** `ProjectTask.create`: fill in `project_id` from the project code,
        then create the task, whose format constraint raises on a bad code
        and leaves nothing stored. Returns the new task's position. */
    method Create(vals: map<string, Value>, projects: seq<Project>) returns (r: Outcome<nat>)
      modifies this
      ensures TaskCodeError(vals).Some? ==> r == Fail(TaskCodeError(vals).value) && tasks == old(tasks)
      ensures TaskCodeError(vals).None? ==>
        r == Ok(|old(tasks)|) && tasks == old(tasks) + [ResolveProjectCode(vals, projects)]
    {
      var v := vals;
      if "project_code" in v && v["project_code"].Text? && v["project_code"].s != "" {
        var project := FindByCode(projects, v["project_code"].s);
        if project.Some? {
          v := v["project_id" := RecordId(project.value.id)];
        }
      }
      var error := TaskCodeError(v);
      if error.Some? {
        return Fail(error.value);
      }
      r := Ok(|tasks|);
      tasks := tasks + [v];
    }
  }
}
