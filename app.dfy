/**
 * The page-level handlers of the site shell: saving and deleting projects
 * by id, choosing the view, and the teaser paragraph of the about text.
 */
module App {
  import opened Records

  /** Some project in the list carries `id` (`prev.find(p => p.id === id)`). */
  predicate HasId(ps: seq<Project>, id: string)
  {
    exists i :: 0 <= i < |ps| && ps[i].id == id
  }

  /** Every entry with the project's id replaced by the project (`prev.map(...)`). */
  function ReplaceById(ps: seq<Project>, p: Project): (r: seq<Project>)
    ensures |r| == |ps|
    ensures forall i :: 0 <= i < |ps| ==> r[i] == (if ps[i].id == p.id then p else ps[i])
    ensures forall i :: 0 <= i < |ps| ==> r[i].id == ps[i].id
    ensures forall q :: q in r ==> q == p || q in ps
    ensures HasId(ps, p.id) ==> p in r
    ensures !HasId(ps, p.id) ==> r == ps
  {
    seq(|ps|, i requires 0 <= i < |ps| => if ps[i].id == p.id then p else ps[i])
  }

  /** `handleSaveProject`: replace by id when the id is present, append otherwise. */
  function SaveProject(ps: seq<Project>, p: Project): (r: seq<Project>)
  {
    if HasId(ps, p.id) then ReplaceById(ps, p) else ps + [p]
  }

  /** Saving over an existing id keeps the length, replaces every entry with that id and keeps the others. */
  lemma SaveExisting(ps: seq<Project>, p: Project)
    requires HasId(ps, p.id)
    ensures var r := SaveProject(ps, p);
      && |r| == |ps|
      && (forall i :: 0 <= i < |ps| && ps[i].id == p.id ==> r[i] == p)
      && (forall i :: 0 <= i < |ps| && ps[i].id != p.id ==> r[i] == ps[i])
  {
  }

  /** Saving a new id appends the project at the end. */
  lemma SaveNew(ps: seq<Project>, p: Project)
    requires !HasId(ps, p.id)
    ensures var r := SaveProject(ps, p);
      && |r| == |ps| + 1 && r[..|ps|] == ps && r[|ps|] == p
  {
    assert (ps + [p])[..|ps|] == ps;
  }

  /** After a save the project's id is present, and saving the same project again changes nothing. */
  lemma SaveIdempotent(ps: seq<Project>, p: Project)
    ensures HasId(SaveProject(ps, p), p.id)
    ensures SaveProject(SaveProject(ps, p), p) == SaveProject(ps, p)
  {
    var r := SaveProject(ps, p);
    if HasId(ps, p.id) {
      var i :| 0 <= i < |ps| && ps[i].id == p.id;
      assert r[i].id == p.id;
    } else {
      assert r[|ps|].id == p.id;
    }
    assert HasId(r, p.id);
    assert ReplaceById(r, p) == r;
  }

  /** `handleDeleteProject`: keep the projects whose id differs. */
  function DeleteProject(ps: seq<Project>, id: string): seq<Project>
  {
    Without(ps, ProjectId, id)
  }

  /**
   * Deleting leaves no project with the id, keeps every other project, works
   * piecewise (so the order of what remains is kept) and is idempotent.
   */
  lemma DeleteProperties(ps: seq<Project>, qs: seq<Project>, id: string)
    ensures !HasId(DeleteProject(ps, id), id)
    ensures forall p :: p in DeleteProject(ps, id) <==> p in ps && p.id != id
    ensures DeleteProject(ps + qs, id) == DeleteProject(ps, id) + DeleteProject(qs, id)
    ensures DeleteProject(DeleteProject(ps, id), id) == DeleteProject(ps, id)
  {
    WithoutMembers(ps, ProjectId, id);
    WithoutAppend(ps, qs, ProjectId, id);
    WithoutIdempotent(ps, ProjectId, id);
    var r := DeleteProject(ps, id);
    forall i | 0 <= i < |r|
      ensures r[i].id != id
    {
      assert r[i] in r;
    }
  }

  /**
   * `handleNavigate`: "WORK" is a section of the home page, so it selects
   * HOME; any other target becomes the view as given.
   */
  function Navigate(target: string): (view: string)
    ensures view != "WORK"
    ensures target == "WORK" ==> view == "HOME"
    ensures target != "WORK" ==> view == target
  {
    if target == "WORK" then "HOME" else target
  }

  /** A paragraph break "\n\n" starts at index i. */
  predicate BreakAt(s: string, i: int)
  {
    0 <= i && i + 1 < |s| && s[i] == '\n' && s[i + 1] == '\n'
  }

  /** The first paragraph break at or after `from`, or |s| when there is none. */
  function FirstBreak(s: string, from: nat): (j: nat)
    requires from <= |s|
    ensures from <= j <= |s|
    ensures j < |s| ==> BreakAt(s, j)
    ensures forall m :: from <= m < j ==> !BreakAt(s, m)
    decreases |s| - from
  {
    if from + 1 >= |s| then |s|
    else if s[from] == '\n' && s[from + 1] == '\n' then from
    else FirstBreak(s, from + 1)
  }

  /**
   * `aboutText.split('\n\n')[0]`: the text before the first paragraph break,
   * or the whole text when it has none.
   */
  function Teaser(text: string): (t: string)
    ensures t <= text
    ensures forall m :: 0 <= m < |t| ==> !BreakAt(text, m)
    ensures |t| < |text| ==> BreakAt(text, |t|)
  {
    text[..FirstBreak(text, 0)]
  }

  /** A text without a paragraph break is its own teaser. */
  lemma TeaserWhole(text: string)
    requires forall m :: 0 <= m < |text| ==> !BreakAt(text, m)
    ensures Teaser(text) == text
  {
  }

  /** The teaser of a paragraph followed by a break is the paragraph. */
  lemma TeaserFirstParagraph(first: string, rest: string)
    requires forall m :: 0 <= m < |first| ==> !BreakAt(first + "\n\n" + rest, m)
    ensures Teaser(first + "\n\n" + rest) == first
  {
    var s := first + "\n\n" + rest;
    assert BreakAt(s, |first|);
    assert |Teaser(s)| == |first|;
    assert s[..|first|] == first;
  }
}
