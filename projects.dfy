/**
 * The project/version store: a list of projects, each with an ordered list
 * of versions and a current version, plus the project the workspace has
 * open. The new lists are pure functions of the old ones; the store class
 * holds the two pieces of state and reassigns them.
 *
 * Identifiers that the source draws from `crypto.randomUUID()` are
 * parameters here; timestamps are not modelled.
 */
module Projects {
  import opened Common

  type Id = string

  datatype Version = Version(id: Id, number: int, htmlCode: string, isComplete: bool)

  datatype Project = Project(id: Id, name: string, url: string, versions: seq<Version>, currentVersionId: Id)

  // ---------------------------------------------------------------------
  // Decimal rendering of the default project name
  // ---------------------------------------------------------------------

  function Digit(d: nat): (c: char)
    requires d < 10
    ensures '0' <= c <= '9' && c as int - '0' as int == d
  {
    (('0' as int) + d) as char
  }

  ghost predicate AllDigits(s: string)
  {
    forall i :: 0 <= i < |s| ==> '0' <= s[i] <= '9'
  }

  /** The decimal numeral of `n`, as a template literal prints it. */
  function Decimal(n: nat): (s: string)
    ensures |s| >= 1 && AllDigits(s)
    ensures s[0] == '0' <==> n == 0
  {
    if n < 10 then [Digit(n)] else Decimal(n / 10) + [Digit(n % 10)]
  }

  /** Reads a numeral back. */
  function ParseDecimal(s: string): nat
    requires AllDigits(s)
  {
    if s == [] then 0 else ParseDecimal(s[..|s| - 1]) * 10 + (s[|s| - 1] as int - '0' as int)
  }

  lemma {:induction false} ParseDecimalOfDecimal(n: nat)
    ensures ParseDecimal(Decimal(n)) == n
  {
    if n >= 10 {
      var s := Decimal(n);
      assert s[..|s| - 1] == Decimal(n / 10);
      ParseDecimalOfDecimal(n / 10);
    }
  }

  /** `Project ${count + 1}`. */
  function DefaultName(count: nat): string
  {
    "Project " + Decimal(count + 1)
  }

  /** The default name is "Project " followed by the numeral of `count + 1`. */
  lemma DefaultNameReadsBack(count: nat)
    ensures |DefaultName(count)| > 8 && DefaultName(count)[..8] == "Project "
    ensures AllDigits(DefaultName(count)[8..]) && ParseDecimal(DefaultName(count)[8..]) == count + 1
  {
    assert DefaultName(count)[8..] == Decimal(count + 1);
    ParseDecimalOfDecimal(count + 1);
  }

  // ---------------------------------------------------------------------
  // Well-formedness of a project's versions
  // ---------------------------------------------------------------------

  ghost predicate HasVersion(vs: seq<Version>, id: Id)
  {
    exists i :: 0 <= i < |vs| && vs[i].id == id
  }

  ghost predicate DistinctVersionIds(vs: seq<Version>)
  {
    forall i, j :: 0 <= i < j < |vs| ==> vs[i].id != vs[j].id
  }

  /**
   * Versions are numbered 1, 2, ... in list order, their ids are distinct,
   * and the current version id names one of them.
   */
  ghost predicate WellFormed(p: Project)
  {
    && (forall i :: 0 <= i < |p.versions| ==> p.versions[i].number == i + 1)
    && DistinctVersionIds(p.versions)
    && HasVersion(p.versions, p.currentVersionId)
  }

  ghost predicate UniqueIds(ps: seq<Project>)
  {
    forall i, j :: 0 <= i < j < |ps| ==> ps[i].id != ps[j].id
  }

  /** The invariant of the store: distinct project ids, every project well formed. */
  ghost predicate StoreInvariant(ps: seq<Project>)
  {
    UniqueIds(ps) && forall i :: 0 <= i < |ps| ==> WellFormed(ps[i])
  }

  // ---------------------------------------------------------------------
  // The list transformations
  // ---------------------------------------------------------------------

  /**
   * The project `createProject` builds: one empty, incomplete version
   * numbered 1 that is also current. An absent or empty name falls back to
   * the default (`name || ...`).
   */
  function NewProject(id: Id, versionId: Id, url: string, name: Option<string>, count: nat): (p: Project)
    ensures p.id == id && p.url == url && p.currentVersionId == versionId
    ensures |p.versions| == 1 && p.versions[0].htmlCode == "" && !p.versions[0].isComplete
    ensures WellFormed(p)
    ensures name.Some? && name.value != [] ==> p.name == name.value
    ensures name.None? || name.value == [] ==> p.name == DefaultName(count)
  {
    var n := if name.Some? && name.value != [] then name.value else DefaultName(count);
    Project(id, n, url, [Version(versionId, 1, "", false)], versionId)
  }

  /** `projects.find(p => p.id === id)`: the first project with that id. */
  function Find(ps: seq<Project>, id: Id): (r: Option<Project>)
    ensures r.None? <==> forall i :: 0 <= i < |ps| ==> ps[i].id != id
    ensures r.Some? ==> exists k :: 0 <= k < |ps| && ps[k] == r.value && r.value.id == id
                                    && forall j :: 0 <= j < k ==> ps[j].id != id
  {
    if ps == [] then None
    else if ps[0].id == id then Some(ps[0])
    else
      var r := Find(ps[1..], id);
      assert r.Some? ==> exists k :: 0 < k < |ps| && ps[k] == r.value && forall j :: 0 <= j < k ==> ps[j].id != id by {
        if r.Some? {
          var k :| 0 <= k < |ps| - 1 && ps[1..][k] == r.value && forall j :: 0 <= j < k ==> ps[1..][j].id != id;
          assert ps[k + 1] == r.value;
          assert forall j :: 0 <= j < k + 1 ==> ps[j].id != id by {
            forall j | 0 <= j < k + 1 ensures ps[j].id != id {
              if j > 0 { assert ps[j] == ps[1..][j - 1]; }
            }
          }
        }
      }
      r
  }

  /** With distinct ids, the first match is the only one. */
  lemma FindUnique(ps: seq<Project>, k: nat)
    requires UniqueIds(ps) && k < |ps|
    ensures Find(ps, ps[k].id) == Some(ps[k])
  {
  }

  /** The version list after `updateProjectCode` rewrote the current version. */
  function UpdateVersions(vs: seq<Version>, currentId: Id, code: string, isComplete: bool): (r: seq<Version>)
    ensures |r| == |vs|
    ensures forall i :: 0 <= i < |vs| ==> r[i].id == vs[i].id && r[i].number == vs[i].number
    ensures forall i :: 0 <= i < |vs| && vs[i].id != currentId ==> r[i] == vs[i]
    ensures forall i :: 0 <= i < |vs| && vs[i].id == currentId ==> r[i].htmlCode == code && r[i].isComplete == isComplete
  {
    seq(|vs|, i requires 0 <= i < |vs| =>
      if vs[i].id == currentId then vs[i].(htmlCode := code, isComplete := isComplete) else vs[i])
  }

  /** `updateProjectCode`'s new list. */
  function UpdateCode(ps: seq<Project>, id: Id, code: string, isComplete: bool): (r: seq<Project>)
    ensures |r| == |ps|
    ensures forall i :: 0 <= i < |ps| && ps[i].id != id ==> r[i] == ps[i]
  {
    seq(|ps|, i requires 0 <= i < |ps| =>
      if ps[i].id == id
      then ps[i].(versions := UpdateVersions(ps[i].versions, ps[i].currentVersionId, code, isComplete))
      else ps[i])
  }

  /** `addVersion`'s new list: `v` appended to the matching projects and made current. */
  function AppendVersion(ps: seq<Project>, id: Id, v: Version): (r: seq<Project>)
    ensures |r| == |ps|
    ensures forall i :: 0 <= i < |ps| && ps[i].id != id ==> r[i] == ps[i]
  {
    seq(|ps|, i requires 0 <= i < |ps| =>
      if ps[i].id == id then ps[i].(versions := ps[i].versions + [v], currentVersionId := v.id) else ps[i])
  }

  /**
   * `addVersion`: fails with "Project not found" for an unknown id;
   * otherwise the new version is numbered after the first matching
   * project's versions, complete, holds `code`, and becomes current.
   */
  function AddVersionTo(ps: seq<Project>, id: Id, code: string, versionId: Id): (r: Result<(seq<Project>, Version)>)
    ensures r.Failure? <==> Find(ps, id).None?
    ensures r.Failure? ==> r.message == "Project not found"
    ensures r.Success? ==> var (qs, v) := r.value;
      && v == Version(versionId, |Find(ps, id).value.versions| + 1, code, true)
      && qs == AppendVersion(ps, id, v)
  {
    match Find(ps, id)
    case None => Failure("Project not found")
    case Some(p) =>
      var v := Version(versionId, |p.versions| + 1, code, true);
      Success((AppendVersion(ps, id, v), v))
  }

  /** `switchVersion`'s new list; the version id is not checked. */
  function SwitchVersionIn(ps: seq<Project>, id: Id, versionId: Id): (r: seq<Project>)
    ensures |r| == |ps|
    ensures forall i :: 0 <= i < |ps| && ps[i].id != id ==> r[i] == ps[i]
    ensures forall i :: 0 <= i < |ps| && ps[i].id == id ==> r[i] == ps[i].(currentVersionId := versionId)
  {
    seq(|ps|, i requires 0 <= i < |ps| =>
      if ps[i].id == id then ps[i].(currentVersionId := versionId) else ps[i])
  }

  /** `deleteProject`'s new list: `projects.filter(p => p.id !== id)`. */
  function Remove(ps: seq<Project>, id: Id): (r: seq<Project>)
    ensures |r| <= |ps|
    ensures forall i :: 0 <= i < |r| ==> r[i].id != id
  {
    if ps == [] then []
    else if ps[0].id == id then Remove(ps[1..], id)
    else [ps[0]] + Remove(ps[1..], id)
  }

  /**
   * The open project after an update, add or switch of project `id`: if it
   * is that project, it becomes the updated copy found in the new list.
   */
  function Refreshed(current: Option<Project>, id: Id, updated: seq<Project>): (r: Option<Project>)
    ensures current.None? || current.value.id != id ==> r == current
    ensures current.Some? && current.value.id == id && Find(updated, id).Some? ==> r == Find(updated, id)
    ensures current.Some? && current.value.id == id && Find(updated, id).None? ==> r == current
  {
    if current.Some? && current.value.id == id then
      match Find(updated, id)
      case Some(p) => Some(p)
      case None => current
    else current
  }

  // ---------------------------------------------------------------------
  // What each transformation changes, and the invariant it keeps
  // ---------------------------------------------------------------------

  /** A fresh project appended to the store keeps the invariant. */
  lemma CreateKeepsInvariant(ps: seq<Project>, id: Id, versionId: Id, url: string, name: Option<string>)
    requires StoreInvariant(ps)
    requires forall i :: 0 <= i < |ps| ==> ps[i].id != id
    ensures StoreInvariant(ps + [NewProject(id, versionId, url, name, |ps|)])
  {
    var qs := ps + [NewProject(id, versionId, url, name, |ps|)];
    forall i | 0 <= i < |qs| ensures WellFormed(qs[i]) {
      if i < |ps| { assert qs[i] == ps[i]; }
    }
  }

  /**
   * `updateProjectCode` on a well-formed project rewrites the code and the
   * completion flag of its current version and of nothing else: same
   * number of versions, every other version, the version ids and numbers,
   * and every field of the project but the versions unchanged.
   */
  lemma UpdateCodeEffect(ps: seq<Project>, id: Id, code: string, isComplete: bool, i: nat, k: nat)
    requires i < |ps| && ps[i].id == id && WellFormed(ps[i])
    requires k < |ps[i].versions| && ps[i].versions[k].id == ps[i].currentVersionId
    ensures var p, q := ps[i], UpdateCode(ps, id, code, isComplete)[i];
      && q == p.(versions := q.versions)
      && |q.versions| == |p.versions|
      && q.versions[k] == p.versions[k].(htmlCode := code, isComplete := isComplete)
      && forall j :: 0 <= j < |p.versions| && j != k ==> q.versions[j] == p.versions[j]
  {
  }

  lemma UpdateVersionsWellFormed(p: Project, code: string, isComplete: bool)
    requires WellFormed(p)
    ensures WellFormed(p.(versions := UpdateVersions(p.versions, p.currentVersionId, code, isComplete)))
  {
    var vs := UpdateVersions(p.versions, p.currentVersionId, code, isComplete);
    assert forall j :: 0 <= j < |vs| ==> vs[j].id == p.versions[j].id && vs[j].number == p.versions[j].number;
    var k :| 0 <= k < |p.versions| && p.versions[k].id == p.currentVersionId;
    assert vs[k].id == p.currentVersionId;
  }

  lemma UpdateCodeKeepsInvariant(ps: seq<Project>, id: Id, code: string, isComplete: bool)
    requires StoreInvariant(ps)
    ensures StoreInvariant(UpdateCode(ps, id, code, isComplete))
  {
    var qs := UpdateCode(ps, id, code, isComplete);
    forall i | 0 <= i < |qs| ensures WellFormed(qs[i]) && qs[i].id == ps[i].id {
      if ps[i].id == id { UpdateVersionsWellFormed(ps[i], code, isComplete); }
    }
  }

  /**
   * On success `addVersion` appends exactly one version to the matching
   * project, numbered one past its last, complete, holding `code`, and
   * makes it current; nothing else in that project changes.
   */
  lemma AddVersionEffect(ps: seq<Project>, id: Id, code: string, versionId: Id, i: nat)
    requires UniqueIds(ps) && i < |ps| && ps[i].id == id
    ensures AddVersionTo(ps, id, code, versionId).Success?
    ensures var (qs, v) := AddVersionTo(ps, id, code, versionId).value;
      && v == Version(versionId, |ps[i].versions| + 1, code, true)
      && qs[i] == ps[i].(versions := ps[i].versions + [v], currentVersionId := versionId)
  {
    FindUnique(ps, i);
  }

  lemma AddVersionKeepsInvariant(ps: seq<Project>, id: Id, code: string, versionId: Id)
    requires StoreInvariant(ps)
    requires forall i, j :: 0 <= i < |ps| && 0 <= j < |ps[i].versions| ==> ps[i].versions[j].id != versionId
    ensures var r := AddVersionTo(ps, id, code, versionId); r.Success? ==> StoreInvariant(r.value.0)
  {
    var r := AddVersionTo(ps, id, code, versionId);
    if r.Success? {
      var (qs, v) := r.value;
      forall i | 0 <= i < |qs| ensures WellFormed(qs[i]) && qs[i].id == ps[i].id {
        if ps[i].id == id {
          FindUnique(ps, i);
          var vs := ps[i].versions + [v];
          assert vs[|vs| - 1].id == versionId;
        }
      }
    }
  }

  /** Switching to a version the project has keeps the invariant. */
  lemma SwitchKeepsInvariant(ps: seq<Project>, id: Id, versionId: Id)
    requires StoreInvariant(ps)
    requires forall i :: 0 <= i < |ps| && ps[i].id == id ==> HasVersion(ps[i].versions, versionId)
    ensures StoreInvariant(SwitchVersionIn(ps, id, versionId))
  {
    var qs := SwitchVersionIn(ps, id, versionId);
    forall i | 0 <= i < |qs| ensures WellFormed(qs[i]) && qs[i].id == ps[i].id {
    }
  }

  /** Without that check, switching to an unknown version id breaks it. */
  lemma SwitchToUnknownVersionBreaksInvariant()
    ensures var ps := [Project("p", "Project 1", "u", [Version("v1", 1, "", false)], "v1")];
      StoreInvariant(ps) && !StoreInvariant(SwitchVersionIn(ps, "p", "v2"))
  {
    var ps := [Project("p", "Project 1", "u", [Version("v1", 1, "", false)], "v1")];
    assert HasVersion(ps[0].versions, "v1") by { assert ps[0].versions[0].id == "v1"; }
    var qs := SwitchVersionIn(ps, "p", "v2");
    assert qs[0].currentVersionId == "v2";
    assert !HasVersion(qs[0].versions, "v2") by {
      assert qs[0].versions == [Version("v1", 1, "", false)];
    }
  }

  lemma {:induction false} RemoveKeepsOrder(ps: seq<Project>, id: Id, k: nat)
    requires k < |ps| && ps[k].id == id
    requires forall j :: 0 <= j < |ps| && j != k ==> ps[j].id != id
    ensures Remove(ps, id) == ps[..k] + ps[k + 1..]
  {
    var tail := ps[1..];
    if k == 0 {
      assert forall j :: 0 <= j < |tail| ==> tail[j].id != id by {
        forall j | 0 <= j < |tail| ensures tail[j].id != id { assert tail[j] == ps[j + 1]; }
      }
      RemoveNone(tail, id);
      assert Remove(ps, id) == Remove(tail, id);
    } else {
      assert ps[0].id != id;
      assert forall j :: 0 <= j < |tail| && j != k - 1 ==> tail[j].id != id by {
        forall j | 0 <= j < |tail| && j != k - 1 ensures tail[j].id != id { assert tail[j] == ps[j + 1]; }
      }
      RemoveKeepsOrder(tail, id, k - 1);
      assert Remove(ps, id) == [ps[0]] + Remove(tail, id);
      assert ps[..k] == [ps[0]] + tail[..k - 1];
      assert ps[k + 1..] == tail[k..];
    }
  }

  lemma {:induction false} RemoveNone(ps: seq<Project>, id: Id)
    requires forall j :: 0 <= j < |ps| ==> ps[j].id != id
    ensures Remove(ps, id) == ps
  {
    if ps != [] {
      var tail := ps[1..];
      assert forall j :: 0 <= j < |tail| ==> tail[j].id != id by {
        forall j | 0 <= j < |tail| ensures tail[j].id != id { assert tail[j] == ps[j + 1]; }
      }
      RemoveNone(tail, id);
      assert ps == [ps[0]] + tail;
    }
  }

  /**
   * Filtering works piece by piece, so the projects that stay keep their
   * relative order, whether or not ids are distinct.
   */
  lemma {:induction false} RemoveAppend(a: seq<Project>, b: seq<Project>, id: Id)
    ensures Remove(a + b, id) == Remove(a, id) + Remove(b, id)
  {
    if a == [] {
      assert a + b == b;
    } else {
      assert (a + b)[0] == a[0] && (a + b)[1..] == a[1..] + b;
      RemoveAppend(a[1..], b, id);
    }
  }

  lemma RemoveSingle(q: Project, id: Id)
    ensures Remove([q], id) == if q.id == id then [] else [q]
  {
    assert [q][1..] == [];
  }

  /**
   * `deleteProject` on a store with distinct ids removes exactly the project
   * with that id and keeps the others in their order; an unknown id
   * changes nothing.
   */
  lemma RemoveEffect(ps: seq<Project>, id: Id)
    requires UniqueIds(ps)
    ensures forall k :: 0 <= k < |ps| && ps[k].id == id ==> Remove(ps, id) == ps[..k] + ps[k + 1..]
    ensures (forall k :: 0 <= k < |ps| ==> ps[k].id != id) ==> Remove(ps, id) == ps
  {
    forall k | 0 <= k < |ps| && ps[k].id == id ensures Remove(ps, id) == ps[..k] + ps[k + 1..] {
      RemoveKeepsOrder(ps, id, k);
    }
    if forall k :: 0 <= k < |ps| ==> ps[k].id != id {
      RemoveNone(ps, id);
    }
  }

  lemma RemoveKeepsInvariant(ps: seq<Project>, id: Id)
    requires StoreInvariant(ps)
    ensures StoreInvariant(Remove(ps, id))
  {
    RemoveEffect(ps, id);
    if k :| 0 <= k < |ps| && ps[k].id == id {
      var r := ps[..k] + ps[k + 1..];
      assert Remove(ps, id) == r;
      assert forall i :: 0 <= i < |r| ==> r[i] == ps[if i < k then i else i + 1];
    }
  }

  // ---------------------------------------------------------------------
  // The store
  // ---------------------------------------------------------------------

  /** The state of `useProjects`: `projects` and `currentProject`. */
  class ProjectStore {
    var projects: seq<Project>
    var currentProject: Option<Project>

    ghost predicate Valid()
      reads this
    {
      && StoreInvariant(projects)
      && (currentProject.Some? ==> WellFormed(currentProject.value))
    }

    /** The initial, empty store (loading from local storage is not modelled). */
    constructor ()
      ensures Valid() && projects == [] && currentProject == None
    {
      projects := [];
      currentProject := None;
    }

    /**
     * `createProject(url, name)`: appends the new project, opens it and
     * returns it. `id` and `versionId` stand for two fresh UUIDs.
     */
    method CreateProject(url: string, name: Option<string>, id: Id, versionId: Id) returns (p: Project)
      requires Valid()
      requires forall i :: 0 <= i < |projects| ==> projects[i].id != id
      modifies this
      ensures Valid()
      ensures p == NewProject(id, versionId, url, name, |old(projects)|)
      ensures projects == old(projects) + [p]
      ensures currentProject == Some(p)
    {
      p := NewProject(id, versionId, url, name, |projects|);
      CreateKeepsInvariant(projects, id, versionId, url, name);
      projects := projects + [p];
      currentProject := Some(p);
    }

    /** `updateProjectCode(id, code, isComplete)`. */
    method UpdateProjectCode(id: Id, code: string, isComplete: bool)
      requires Valid()
      modifies this
      ensures Valid()
      ensures projects == UpdateCode(old(projects), id, code, isComplete)
      ensures currentProject == Refreshed(old(currentProject), id, projects)
    {
      UpdateCodeKeepsInvariant(projects, id, code, isComplete);
      projects := UpdateCode(projects, id, code, isComplete);
      RefreshedKeepsWellFormed(currentProject, id, projects);
      currentProject := Refreshed(currentProject, id, projects);
    }

    /**
     * `addVersion(id, code)`: on an unknown id the store is unchanged and
     * the call fails with "Project not found". `versionId` stands for a
     * fresh UUID.
     */
    method AddVersion(id: Id, code: string, versionId: Id) returns (r: Result<Version>)
      requires Valid()
      requires forall i, j :: 0 <= i < |projects| && 0 <= j < |projects[i].versions| ==> projects[i].versions[j].id != versionId
      modifies this
      ensures Valid()
      ensures var a := AddVersionTo(old(projects), id, code, versionId);
        if a.Failure? then
          r == Failure("Project not found") && projects == old(projects) && currentProject == old(currentProject)
        else
          r == Success(a.value.1) && projects == a.value.0 && currentProject == Refreshed(old(currentProject), id, projects)
    {
      var a := AddVersionTo(projects, id, code, versionId);
      if a.Failure? {
        r := Failure(a.message);
      } else {
        AddVersionKeepsInvariant(projects, id, code, versionId);
        projects := a.value.0;
        RefreshedKeepsWellFormed(currentProject, id, projects);
        currentProject := Refreshed(currentProject, id, projects);
        r := Success(a.value.1);
      }
    }

    /**
     * `switchVersion(id, versionId)`. The version history only offers
     * versions of the project, which is what keeps the invariant.
     */
    method SwitchVersion(id: Id, versionId: Id)
      requires Valid()
      requires forall i :: 0 <= i < |projects| && projects[i].id == id ==> HasVersion(projects[i].versions, versionId)
      modifies this
      ensures Valid()
      ensures projects == SwitchVersionIn(old(projects), id, versionId)
      ensures currentProject == Refreshed(old(currentProject), id, projects)
    {
      SwitchKeepsInvariant(projects, id, versionId);
      projects := SwitchVersionIn(projects, id, versionId);
      RefreshedKeepsWellFormed(currentProject, id, projects);
      currentProject := Refreshed(currentProject, id, projects);
    }

    /** `loadProject(id)`: opens and returns the first project with that id, if any. */
    method LoadProject(id: Id) returns (r: Option<Project>)
      requires Valid()
      modifies this`currentProject
      ensures Valid()
      ensures r == Find(projects, id)
      ensures currentProject == if r.Some? then r else old(currentProject)
    {
      r := Find(projects, id);
      if r.Some? {
        currentProject := r;
      }
    }

    /** `deleteProject(id)`: closes the open project only if it is the deleted one. */
    method DeleteProject(id: Id)
      requires Valid()
      modifies this
      ensures Valid()
      ensures projects == Remove(old(projects), id)
      ensures currentProject == if old(currentProject).Some? && old(currentProject).value.id == id then None else old(currentProject)
    {
      RemoveKeepsInvariant(projects, id);
      projects := Remove(projects, id);
      if currentProject.Some? && currentProject.value.id == id {
        currentProject := None;
      }
    }
  }

  lemma RefreshedKeepsWellFormed(current: Option<Project>, id: Id, updated: seq<Project>)
    requires current.Some? ==> WellFormed(current.value)
    requires StoreInvariant(updated)
    ensures var r := Refreshed(current, id, updated); r.Some? ==> WellFormed(r.value)
  {
  }
}
