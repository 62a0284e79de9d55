/**
 * The find-or-create lookups of the project, activity and helpdesk
 * imports (wizard.py:1513-1541, 1845-1916, 1956-1974, 2262-2290): stages
 * and tags are looked up by exact name and created when missing, an
 * activity's tags are linked once each, and an activity's project is
 * found by the code left after its suffix is cut off.
 */
module ActivityPrep {
  import opened Common
  import opened Normalise
  import opened ProjectModel
  import opened PartnerImport

  // ---------------------------------------------------------------------
  // Name caches (wizard.py:1845-1846, 1890-1897, 1905-1911)

  /** A name-to-id cache of stored records, as `{r.name: r.id for r in
      search([])}`: every id is a database id (positive) below the next id
      the database will hand out, itself positive. */
  predicate CacheOk(ids: map<string, nat>, nextId: nat) {
    0 < nextId && forall n | n in ids :: 0 < ids[n] < nextId
  }

  /** Different names have different ids. */
  predicate Injective(ids: map<string, nat>) {
    forall a, b | a in ids && b in ids && a != b :: ids[a] != ids[b]
  }

  /** The id a lookup gives and the cache after it. */
  datatype Resolved = Resolved(id: nat, ids: map<string, nat>, nextId: nat)

  /** `cache.get(name)`, creating the record and caching its id when the
      name is missing. */
  function ResolveName(ids: map<string, nat>, nextId: nat, name: string): (r: Resolved)
    requires CacheOk(ids, nextId)
    ensures CacheOk(r.ids, r.nextId) && nextId <= r.nextId
    ensures name in r.ids && r.ids[name] == r.id
    ensures r.ids.Keys == ids.Keys + {name}
    ensures forall n | n in ids :: r.ids[n] == ids[n]
    ensures name in ids <==> r.nextId == nextId
    ensures name !in ids ==> forall n | n in ids :: ids[n] != r.id
  {
    if name in ids then Resolved(ids[name], ids, nextId)
    else Resolved(nextId, ids[name := nextId], nextId + 1)
  }

  /** Looking a name up again finds the same id and changes nothing. */
  lemma ResolveTwice(ids: map<string, nat>, nextId: nat, name: string)
    requires CacheOk(ids, nextId)
    ensures var r := ResolveName(ids, nextId, name);
      ResolveName(r.ids, r.nextId, name) == r
  {
  }

  /** Creating never gives two names the same id. */
  lemma ResolveKeepsInjective(ids: map<string, nat>, nextId: nat, name: string)
    requires CacheOk(ids, nextId) && Injective(ids)
    ensures Injective(ResolveName(ids, nextId, name).ids)
  {
  }

  /** A cache of stage or tag names over the records of one model. */
  class NameCache {
    var ids: map<string, nat>
    var nextId: nat

    predicate Valid()
      reads this
    {
      CacheOk(ids, nextId)
    }

    constructor(initial: map<string, nat>, next: nat)
      requires CacheOk(initial, next)
      ensures Valid() && ids == initial && nextId == next
    {
      ids := initial;
      nextId := next;
    }

    /** Find the record named `name`, creating it when the cache lacks it. */
    method Resolve(name: string) returns (id: nat)
      requires Valid()
      modifies this
      ensures Valid()
      ensures Resolved(id, ids, nextId) == ResolveName(old(ids), old(nextId), name)
    {
      if name in ids && ids[name] != 0 {
        id := ids[name];
      } else {
        id := nextId;
        nextId := nextId + 1;
        ids := ids[name := id];
      }
    }
  }

  // ---------------------------------------------------------------------
  // Stages

  /** The project stage of a project row (wizard.py:1513-1541): the
      standard or given name, found or created. */
  method ResolveProjectStage(stages: NameCache, value: string) returns (id: nat)
    requires stages.Valid()
    modifies stages
    ensures stages.Valid()
    ensures Resolved(id, stages.ids, stages.nextId) == ResolveName(old(stages.ids), old(stages.nextId), ProjectStageName(value))
  {
    var stageName := ProjectStageName(value);
    id := stages.Resolve(stageName);
  }

  /** The task stage of an activity row (wizard.py:1880-1902): the stage
      found or created under the standard or given name, and whether the
      task is also marked done. */
  method ResolveTaskStage(stages: NameCache, value: string) returns (id: nat, done: bool)
    requires stages.Valid()
    modifies stages
    ensures stages.Valid()
    ensures Resolved(id, stages.ids, stages.nextId) == ResolveName(old(stages.ids), old(stages.nextId), TaskStage(value).0)
    ensures done <==> Upper(Strip(value)) == "ATTIVITÀ FATTA"
  {
    var stage := TaskStage(value);
    id := stages.Resolve(stage.0);
    done := stage.1;
  }

  /** The first stage named `name` (`search([('name', '=', name)], limit=1)`). */
  function FindStage(stages: seq<HelpdeskStage>, name: string): (r: Option<nat>)
    ensures r.Some? ==> r.value < |stages| && stages[r.value].name == name
                        && forall j | 0 <= j < r.value :: stages[j].name != name
    ensures r.None? <==> forall j | 0 <= j < |stages| :: stages[j].name != name
  {
    if |stages| == 0 then None
    else
      var r := FindStage(stages[..|stages| - 1], name);
      if r.Some? then r
      else if stages[|stages| - 1].name == name then Some(|stages| - 1)
      else None
  }

  /** The stored helpdesk stages, in search order; a stage's id is its position. */
  class HelpdeskStages {
    var stages: seq<HelpdeskStage>

    constructor(initial: seq<HelpdeskStage>)
      ensures stages == initial
    {
      stages := initial;
    }

    /** The stage of a ticket row (wizard.py:2262-2290): the stage under
        the standard or given name, created with its flags when missing. */
    method FindOrCreate(value: string) returns (index: nat)
      modifies this
      ensures index < |stages| && stages[index].name == HelpdeskStageName(value)
      ensures FindStage(old(stages), HelpdeskStageName(value)).Some? ==>
                stages == old(stages) && Some(index) == FindStage(old(stages), HelpdeskStageName(value))
      ensures FindStage(old(stages), HelpdeskStageName(value)).None? ==>
                stages == old(stages) + [NewHelpdeskStage(value)] && index == |old(stages)|
    {
      var stageName := HelpdeskStageName(value);
      var found := FindStage(stages, stageName);
      if found.Some? {
        index := found.value;
      } else {
        index := |stages|;
        stages := stages + [NewHelpdeskStage(value)];
      }
    }
  }

  /** The stage index and stages after looking up a ticket's stage. */
  function HelpdeskResolve(stages: seq<HelpdeskStage>, value: string): (nat, seq<HelpdeskStage>) {
    var found := FindStage(stages, HelpdeskStageName(value));
    if found.Some? then (found.value, stages) else (|stages|, stages + [NewHelpdeskStage(value)])
  }

  /** A second ticket with the same stage value finds the stage the first
      one found or created, and creates nothing. */
  lemma HelpdeskResolveTwice(stages: seq<HelpdeskStage>, value: string)
    ensures var r := HelpdeskResolve(stages, value);
      HelpdeskResolve(r.1, value) == r
  {
    var name := HelpdeskStageName(value);
    if FindStage(stages, name).None? {
      var s2 := stages + [NewHelpdeskStage(value)];
      assert s2[|stages|].name == name;
      assert forall j | 0 <= j < |stages| :: s2[j] == stages[j];
    }
  }

  // ---------------------------------------------------------------------
  // Tags of an activity (wizard.py:1903-1916)

  /** The tag commands and the tag cache after the first `n` tag values. */
  datatype TagState = TagState(cmds: seq<TagCommand>, ids: map<string, nat>, nextId: nat)

  function TagsUpTo(values: seq<string>, ids: map<string, nat>, nextId: nat, n: nat): (r: TagState)
    requires CacheOk(ids, nextId) && n <= |values|
    ensures CacheOk(r.ids, r.nextId)
  {
    if n == 0 then TagState([], ids, nextId)
    else
      var s := TagsUpTo(values, ids, nextId, n - 1);
      var t := ResolveName(s.ids, s.nextId, values[n - 1]);
      TagState(AddTag(s.cmds, t.id), t.ids, t.nextId)
  }

  /** The cached ids of the first `n` values. */
  function NamedIds(values: seq<string>, ids: map<string, nat>, n: nat): set<nat>
    requires n <= |values|
  {
    set j | 0 <= j < n && values[j] in ids :: ids[values[j]]
  }

  /** One more value adds its id to the cached ids, when the cache gains at
      most that value without changing what it held. */
  lemma NamedIdsStep(values: seq<string>, old_ids: map<string, nat>, ids: map<string, nat>, n: nat)
    requires 0 < n <= |values| && values[n - 1] in ids
    requires forall m | m in ids :: m in old_ids || m == values[n - 1]
    requires forall m | m in old_ids :: m in ids && ids[m] == old_ids[m]
    ensures NamedIds(values, ids, n) == NamedIds(values, old_ids, n - 1) + {ids[values[n - 1]]}
  {
    forall x | x in NamedIds(values, ids, n) ensures x in NamedIds(values, old_ids, n - 1) + {ids[values[n - 1]]} {
      var j :| 0 <= j < n && values[j] in ids && ids[values[j]] == x;
      if values[j] != values[n - 1] {
        assert j < n - 1 && values[j] in old_ids && old_ids[values[j]] == x;
      }
    }
    forall x | x in NamedIds(values, old_ids, n - 1) ensures x in NamedIds(values, ids, n) {
      var j :| 0 <= j < n - 1 && values[j] in old_ids && old_ids[values[j]] == x;
      assert ids[values[j]] == x;
    }
  }

  /** After the first `n` values every value is cached, and what the cache
      held before is kept. */
  lemma {:induction false} TagsUpToCaches(values: seq<string>, ids: map<string, nat>, nextId: nat, n: nat)
    requires CacheOk(ids, nextId) && n <= |values|
    ensures var r := TagsUpTo(values, ids, nextId, n);
      && (forall j | 0 <= j < n :: values[j] in r.ids)
      && (forall m | m in ids :: m in r.ids && r.ids[m] == ids[m])
  {
    if n > 0 {
      TagsUpToCaches(values, ids, nextId, n - 1);
      var s := TagsUpTo(values, ids, nextId, n - 1);
      var t := ResolveName(s.ids, s.nextId, values[n - 1]);
      assert TagsUpTo(values, ids, nextId, n).ids == t.ids;
      forall j | 0 <= j < n ensures values[j] in t.ids {
        if j < n - 1 { assert values[j] in s.ids; }
      }
    }
  }

  /** The commands never link a tag twice. */
  lemma {:induction false} TagsUpToNoDuplicates(values: seq<string>, ids: map<string, nat>, nextId: nat, n: nat)
    requires CacheOk(ids, nextId) && n <= |values|
    ensures NoDuplicateTags(TagsUpTo(values, ids, nextId, n).cmds)
  {
    if n > 0 {
      TagsUpToNoDuplicates(values, ids, nextId, n - 1);
      var s := TagsUpTo(values, ids, nextId, n - 1);
      var t := ResolveName(s.ids, s.nextId, values[n - 1]);
      assert TagsUpTo(values, ids, nextId, n).cmds == AddTag(s.cmds, t.id);
      AddTagLinks(s.cmds, t.id);
    }
  }

  /** The commands link exactly the cached ids of the values seen. */
  lemma {:induction false} TagsUpToLinks(values: seq<string>, ids: map<string, nat>, nextId: nat, n: nat)
    requires CacheOk(ids, nextId) && n <= |values|
    ensures var r := TagsUpTo(values, ids, nextId, n);
      TagIds(r.cmds) == NamedIds(values, r.ids, n)
  {
    if n > 0 {
      TagsUpToLinks(values, ids, nextId, n - 1);
      var s := TagsUpTo(values, ids, nextId, n - 1);
      var t := ResolveName(s.ids, s.nextId, values[n - 1]);
      var r := TagsUpTo(values, ids, nextId, n);
      assert r.cmds == AddTag(s.cmds, t.id) && r.ids == t.ids;
      AddTagLinks(s.cmds, t.id);
      assert forall m | m in t.ids :: m in s.ids || m == values[n - 1];
      NamedIdsStep(values, s.ids, t.ids, n);
      assert TagIds(r.cmds) == TagIds(s.cmds) + {t.id};
    }
  }

  /** After the first `n` values every value is cached, and the commands
      link each of their tags exactly once. */
  lemma TagsUpToSpec(values: seq<string>, ids: map<string, nat>, nextId: nat, n: nat)
    requires CacheOk(ids, nextId) && n <= |values|
    ensures var r := TagsUpTo(values, ids, nextId, n);
      && NoDuplicateTags(r.cmds)
      && (forall j | 0 <= j < n :: values[j] in r.ids)
      && TagIds(r.cmds) == NamedIds(values, r.ids, n)
      && (forall m | m in ids :: m in r.ids && r.ids[m] == ids[m])
  {
    TagsUpToCaches(values, ids, nextId, n);
    TagsUpToNoDuplicates(values, ids, nextId, n);
    TagsUpToLinks(values, ids, nextId, n);
  }

  /** The tag values of an activity row: its 'Macro tipo' and then its
      'Tipo attività', each when given (wizard.py:1729, 1732). */
  function TagValues(row: Row): (r: seq<string>)
    ensures |r| <= 2 && forall j | 0 <= j < |r| :: r[j] != ""
  {
    (if Nonblank(row, "Macro tipo") then [Cell(row, "Macro tipo")] else [])
    + (if Nonblank(row, "Tipo attività") then [Cell(row, "Tipo attività")] else [])
  }

  /** One tag value: find or create the tag, and link it unless the
      commands already link it. */
  method LinkTagValue(tags: NameCache, cmds: seq<TagCommand>, value: string) returns (r: seq<TagCommand>)
    requires tags.Valid()
    modifies tags
    ensures tags.Valid()
    ensures var t := ResolveName(old(tags.ids), old(tags.nextId), value);
      TagState(r, tags.ids, tags.nextId) == TagState(AddTag(cmds, t.id), t.ids, t.nextId)
  {
    var id := tags.Resolve(value);
    r := cmds;
    if LinkTag(id) !in cmds {
      assert forall j | 0 <= j < |cmds| :: cmds[j].id != id;
      r := cmds + [LinkTag(id)];
    } else {
      assert exists j | 0 <= j < |cmds| :: cmds[j] == LinkTag(id);
    }
  }

  /** The tag commands of an activity, over its tag values in order. */
  method BuildTags(tags: NameCache, values: seq<string>) returns (cmds: seq<TagCommand>)
    requires tags.Valid()
    modifies tags
    ensures tags.Valid()
    ensures TagState(cmds, tags.ids, tags.nextId) == TagsUpTo(values, old(tags.ids), old(tags.nextId), |values|)
  {
    cmds := [];
    ghost var ids0, next0 := tags.ids, tags.nextId;
    for i := 0 to |values|
      invariant tags.Valid()
      invariant TagState(cmds, tags.ids, tags.nextId) == TagsUpTo(values, ids0, next0, i)
    {
      cmds := LinkTagValue(tags, cmds, values[i]);
    }
  }

  /** An activity whose two tag columns name the same tag links it once. */
  lemma SameTagLinkedOnce(row: Row, ids: map<string, nat>, nextId: nat)
    requires CacheOk(ids, nextId)
    requires Nonblank(row, "Macro tipo") && Nonblank(row, "Tipo attività")
    requires Cell(row, "Macro tipo") == Cell(row, "Tipo attività")
    ensures |TagsUpTo(TagValues(row), ids, nextId, 2).cmds| == 1
  {
    var v := TagValues(row);
    var c := Cell(row, "Macro tipo");
    assert v == [c, c];
    var t := ResolveName(ids, nextId, c);
    assert TagsUpTo(v, ids, nextId, 1) == TagState([LinkTag(t.id)], t.ids, t.nextId);
    assert ResolveName(t.ids, t.nextId, c) == t;
    assert [LinkTag(t.id)][0].id == t.id;
  }

  // ---------------------------------------------------------------------
  // Project of an activity (wizard.py:1956-1974)

  /** The project an activity's 'Commessa' value names: the first project
      whose code is the stripped value without its last `-` part. */
  function ActivityProject(value: string, projects: seq<Project>): (r: Option<nat>)
    ensures r.Some? <==> (StripProjectSuffix(value) != "" &&
                          exists i | 0 <= i < |projects| :: projects[i].code == Strip(StripProjectSuffix(value)))
    ensures r.Some? ==> exists i | 0 <= i < |projects| ::
              projects[i].code == Strip(StripProjectSuffix(value)) && projects[i].id == r.value &&
              forall k | 0 <= k < i :: projects[k].code != Strip(StripProjectSuffix(value))
  {
    var clean := StripProjectSuffix(value);
    if clean == "" then None
    else
      match FindByCode(projects, Strip(clean))
      case None => None
      case Some(p) => Some(p.id)
  }

  /** In `a + "-" + x` with `x` dash-free, the dash after `a` is the last one. */
  lemma LastDash(a: string, x: string)
    requires '-' !in x
    ensures var v := a + "-" + x; v[|a|] == '-' && forall k | |a| < k < |v| :: v[k] != '-'
  {
    var v := a + "-" + x;
    forall k | |a| < k < |v| ensures v[k] != '-' {
      assert v[k] == x[k - |a| - 1];
    }
  }

  /** A dash-free part after a dash is exactly what follows the last dash. */
  lemma LastPartUnique(a: string, b: string, x: string, y: string)
    requires a + "-" + x == b + "-" + y && '-' !in x && '-' !in y
    ensures a == b && x == y
  {
    var v := a + "-" + x;
    LastDash(a, x);
    LastDash(b, y);
    assert |a| == |b|;
    assert a == v[..|a|] && b == v[..|b|];
    assert x == v[|a| + 1..] && y == v[|b| + 1..];
  }

  /** The cut removes exactly the dash-free part after the last dash. */
  lemma StripProjectSuffixOfSuffixed(a: string, x: string)
    requires '-' !in x
    ensures StripProjectSuffix(a + "-" + x) == a
  {
    var v := a + "-" + x;
    assert v[|a|] == '-';
    StripProjectSuffixSpec(v);
    var last := Split(v, '-')[|Split(v, '-')| - 1];
    LastPartUnique(StripProjectSuffix(v), a, last, x);
  }

  /** A value made of a stored code, a dash and a dash-free suffix links
      the activity to the first project with that code. */
  lemma ActivityProjectOfSuffixed(code: string, suffix: string, projects: seq<Project>)
    requires code != "" && Strip(code) == code && '-' !in suffix
    ensures ActivityProject(code + "-" + suffix, projects)
         == (if FindByCode(projects, code).Some? then Some(FindByCode(projects, code).value.id) else None)
  {
    StripProjectSuffixOfSuffixed(code, suffix);
  }

  /** The example of the comment at wizard.py:1957: the code keeps the name
      and the first half of the code, and drops only the year. */
  lemma CommentExampleCut(v: string)
    requires v == "PROJECT_NAME-000001-24"
    ensures StripProjectSuffix(v) == "PROJECT_NAME-000001"
  {
    assert v == "PROJECT_NAME-000001" + "-" + "24";
    StripProjectSuffixOfSuffixed("PROJECT_NAME-000001", "24");
  }

  /** A 'Commessa' value of a name, a dash and a well-formed project code
      never links the activity to a project with a well-formed code: the
      cut keeps the name and ends in the five digits. */
  lemma PrefixedCodeNotFound(name: string, code: string, projects: seq<Project>)
    requires WellFormedCode(code)
    requires forall i | 0 <= i < |projects| :: WellFormedCode(projects[i].code)
    ensures StripProjectSuffix(name + "-" + code) == name + "-" + code[..5]
    ensures ActivityProject(name + "-" + code, projects).None?
  {
    var clean := name + "-" + code[..5];
    assert code == code[..5] + "-" + code[6..];
    assert name + "-" + code == clean + "-" + code[6..];
    assert '-' !in code[6..] by {
      assert forall c | c in code[6..] :: IsAsciiDigit(c);
    }
    StripProjectSuffixOfSuffixed(clean, code[6..]);
    var n := |clean|;
    assert clean[n - 1] == code[4] && clean[n - 3] == code[2];
    TrimLeftShape(clean);
    var l := TrimLeft(clean);
    assert l != [] by {
      assert !IsSpace(clean[n - 1]);
    }
    assert l[|l| - 1] == clean[n - 1];
    assert Strip(clean) == l;
    assert |l| == 8 ==> l[5] == clean[n - 3];
    assert !WellFormedCode(l);
  }

  /** A 'Commessa' value that is itself a well-formed project code never
      links the activity to a project with a well-formed code: cutting the
      suffix leaves only the five digits. */
  lemma BareCodeNotFound(value: string, projects: seq<Project>)
    requires WellFormedCode(value)
    requires forall i | 0 <= i < |projects| :: WellFormedCode(projects[i].code)
    ensures ActivityProject(value, projects).None?
  {
    assert value[5] == '-';
    StripProjectSuffixSpec(value);
    var last := Split(value, '-')[|Split(value, '-')| - 1];
    var clean := StripProjectSuffix(value);
    assert clean + "-" + last == value[..5] + "-" + value[6..];
    assert '-' !in value[6..] by {
      assert forall c | c in value[6..] :: IsAsciiDigit(c);
    }
    LastPartUnique(clean, value[..5], last, value[6..]);
    assert |Strip(clean)| <= 5;
  }
}
