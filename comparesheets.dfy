// The two file columns of the comparison workbook that format and match
// their values themselves: the projects a file is an artifact of, and the
// file's contributors.

module CompareSheets {
  import opened Wrappers
  import opened SpdxTypes
  import opened JavaStrings

  // ---------------------------------------------------------------- artifact-of column

  /** What StringBuilder.append adds for a possibly null string. */
  function AppendText(s: Option<string>): (r: string)
    ensures s.Some? ==> r == s.value
    ensures s.None? ==> r == "null"
  {
    if s.None? then "null" else s.value
  }

  /** One project's entry: its name, then its home page in parentheses when
    * it has a non-empty one. */
  function ProjectText(p: DoapProject): string
  {
    AppendText(p.name) + (if p.homePage.Some? && |p.homePage.value| > 0 then "(" + p.homePage.value + ")" else "")
  }

  /** The entries of a list of projects, in order. */
  function ProjectTexts(ps: seq<DoapProject>): (r: seq<string>)
    ensures |r| == |ps|
    ensures forall k :: 0 <= k < |ps| ==> r[k] == ProjectText(ps[k])
  {
    seq(|ps|, k requires 0 <= k < |ps| => ProjectText(ps[k]))
  }

  /** The artifact-of column for a list of projects: each entry appended in
    * order, with "; " before it whenever the text so far is not empty. */
  function ArtifactOfText(ps: seq<DoapProject>): string
    decreases |ps|
  {
    if ps == [] then ""
    else
      var prev := ArtifactOfText(ps[..|ps| - 1]);
      (if |prev| > 0 then prev + "; " else prev) + ProjectText(ps[|ps| - 1])
  }

  /** getFileValue of the artifact-of sheet, on the projects of a file (None
    * for a missing array). */
  method ArtifactOfValue(projects: Option<seq<DoapProject>>) returns (r: string)
    ensures projects.None? ==> r == ""
    ensures projects.Some? ==> r == ArtifactOfText(projects.value)
  {
    if projects.None? || |projects.value| == 0 {
      return "";
    }
    var ps := projects.value;
    r := "";
    var i := 0;
    while i < |ps|
      invariant 0 <= i <= |ps|
      invariant r == ArtifactOfText(ps[..i])
    {
      ArtifactOfStep(ps, i);
      ghost var before := r;
      if |r| > 0 {
        r := r + "; ";
      }
      ghost var separated := r;
      r := r + AppendText(ps[i].name);
      if ps[i].homePage.Some? && |ps[i].homePage.value| > 0 {
        r := r + "(" + ps[i].homePage.value + ")";
      }
      assert r == separated + ProjectText(ps[i]);
      i := i + 1;
    }
    assert ps[..|ps|] == ps;
  }

  /** One more project: the separator when the column so far is not empty, then its entry. */
  lemma ArtifactOfStep(ps: seq<DoapProject>, i: nat)
    requires i < |ps|
    ensures var prev := ArtifactOfText(ps[..i]);
      ArtifactOfText(ps[..i + 1]) == (if |prev| > 0 then prev + "; " else prev) + ProjectText(ps[i])
  {
    assert ps[..i + 1][..i] == ps[..i];
  }

  /** When no entry is empty, the column is the entries joined by "; ". */
  lemma {:induction false} ArtifactOfJoins(ps: seq<DoapProject>)
    requires forall k :: 0 <= k < |ps| ==> |ProjectText(ps[k])| > 0
    ensures ArtifactOfText(ps) == JoinWith(ProjectTexts(ps), "; ")
    decreases |ps|
  {
    if ps != [] {
      var n := |ps| - 1;
      ArtifactOfJoins(ps[..n]);
      JoinsStep(ps, n);
      if n > 0 {
        ArtifactOfNotEmpty(ps[..n], n - 1);
      }
    }
  }

  /** The entries of all but the last project, then the last one's. */
  lemma JoinsStep(ps: seq<DoapProject>, n: nat)
    requires n + 1 == |ps|
    ensures JoinWith(ProjectTexts(ps), "; ") ==
      if n == 0 then ProjectText(ps[n]) else JoinWith(ProjectTexts(ps[..n]), "; ") + "; " + ProjectText(ps[n])
  {
    assert ProjectTexts(ps) == ProjectTexts(ps[..n]) + [ProjectText(ps[n])];
    JoinWithSnoc(ProjectTexts(ps[..n]), ProjectText(ps[n]), "; ");
  }

  /** The column is empty exactly when every entry is. */
  lemma {:induction false} ArtifactOfEmptyIff(ps: seq<DoapProject>)
    ensures |ArtifactOfText(ps)| == 0 <==> forall k :: 0 <= k < |ps| ==> |ProjectText(ps[k])| == 0
    decreases |ps|
  {
    if ps != [] {
      var n := |ps| - 1;
      ArtifactOfEmptyIff(ps[..n]);
      EmptyStep(ps, n);
    }
  }

  /** The column is empty when the one before the last project is and the last entry is. */
  lemma EmptyStep(ps: seq<DoapProject>, n: nat)
    requires n + 1 == |ps|
    requires |ArtifactOfText(ps[..n])| == 0 <==> forall k :: 0 <= k < n ==> |ProjectText(ps[..n][k])| == 0
    ensures |ArtifactOfText(ps)| == 0 <==> forall k :: 0 <= k < |ps| ==> |ProjectText(ps[k])| == 0
  {
    var prev := ArtifactOfText(ps[..n]);
    assert |ArtifactOfText(ps)| == (if |prev| > 0 then |prev| + 2 else 0) + |ProjectText(ps[n])|;
    assert forall k :: 0 <= k < n ==> ps[..n][k] == ps[k];
  }

  /** A non-empty entry makes the column non-empty. */
  lemma ArtifactOfNotEmpty(ps: seq<DoapProject>, k: nat)
    requires k < |ps| && |ProjectText(ps[k])| > 0
    ensures |ArtifactOfText(ps)| > 0
  {
    ArtifactOfEmptyIff(ps);
  }

  /** An empty entry (an empty name and no home page) adds only the
    * separator, and nothing at all while the column is still empty. */
  lemma ArtifactOfSkipsEmpty(ps: seq<DoapProject>, p: DoapProject)
    requires |ProjectText(p)| == 0
    ensures ArtifactOfText(ps + [p]) == ArtifactOfText(ps) + (if |ArtifactOfText(ps)| > 0 then "; " else "")
  {
    assert (ps + [p])[..|ps|] == ps;
  }

  /** Whether two projects agree in name, home page and URI under the string
    * equality of the comparer. */
  predicate SameProject(a: DoapProject, b: DoapProject, stringsEqual: (Option<string>, Option<string>) -> bool)
  {
    stringsEqual(a.name, b.name) && stringsEqual(a.homePage, b.homePage) && stringsEqual(a.projectUri, b.projectUri)
  }

  /** Whether some project of bs agrees with p. */
  ghost predicate Matched(p: DoapProject, bs: seq<DoapProject>, stringsEqual: (Option<string>, Option<string>) -> bool)
  {
    exists j :: 0 <= j < |bs| && SameProject(p, bs[j], stringsEqual)
  }

  /** When the artifact-of columns of two files match: a missing array
    * matches a missing or empty one; otherwise the arrays have the same
    * length and every project of A agrees with some project of B. */
  ghost predicate ArtifactsMatch(projectsA: Option<seq<DoapProject>>, projectsB: Option<seq<DoapProject>>,
                                 stringsEqual: (Option<string>, Option<string>) -> bool)
  {
    if projectsA.None? then projectsB.None? || |projectsB.value| == 0
    else if projectsB.None? then |projectsA.value| == 0
    else
      && |projectsA.value| == |projectsB.value|
      && forall i :: 0 <= i < |projectsA.value| ==> Matched(projectsA.value[i], projectsB.value, stringsEqual)
  }

  /** Whether some project of bs agrees with p, searched from the start. */
  method FindMatch(p: DoapProject, bs: seq<DoapProject>, stringsEqual: (Option<string>, Option<string>) -> bool)
    returns (found: bool)
    ensures found <==> Matched(p, bs, stringsEqual)
  {
    found := false;
    var j := 0;
    while j < |bs|
      invariant 0 <= j <= |bs|
      invariant forall j' :: 0 <= j' < j ==> !SameProject(p, bs[j'], stringsEqual)
    {
      if SameProject(p, bs[j], stringsEqual) {
        found := true;
        break;
      }
      j := j + 1;
    }
  }

  /** valuesMatch of the artifact-of sheet. */
  method ArtifactsValuesMatch(projectsA: Option<seq<DoapProject>>, projectsB: Option<seq<DoapProject>>,
                              stringsEqual: (Option<string>, Option<string>) -> bool)
    returns (r: bool)
    ensures r <==> ArtifactsMatch(projectsA, projectsB, stringsEqual)
  {
    if projectsA.None? {
      return projectsB.None? || |projectsB.value| == 0;
    }
    if projectsB.None? {
      return |projectsA.value| == 0;
    }
    var pa, bs := projectsA.value, projectsB.value;
    if |pa| != |bs| {
      return false;
    }
    var i := 0;
    while i < |pa|
      invariant 0 <= i <= |pa|
      invariant forall i' :: 0 <= i' < i ==> Matched(pa[i'], bs, stringsEqual)
    {
      var found := FindMatch(pa[i], bs, stringsEqual);
      if !found {
        return false;
      }
      i := i + 1;
    }
    return true;
  }

  /** Under a reflexive string equality, every list of projects matches itself. */
  lemma ArtifactsMatchReflexive(projects: Option<seq<DoapProject>>, stringsEqual: (Option<string>, Option<string>) -> bool)
    requires forall s :: stringsEqual(s, s)
    ensures ArtifactsMatch(projects, projects, stringsEqual)
  {
    if projects.Some? {
      forall i | 0 <= i < |projects.value| ensures Matched(projects.value[i], projects.value, stringsEqual) {
        assert SameProject(projects.value[i], projects.value[i], stringsEqual);
      }
    }
  }

  /** The match is not symmetric: a project repeated in A lets B carry one A
    * lacks. */
  lemma ArtifactsMatchOneWay(p: DoapProject, q: DoapProject, stringsEqual: (Option<string>, Option<string>) -> bool)
    requires stringsEqual(p.name, p.name) && stringsEqual(p.homePage, p.homePage) && stringsEqual(p.projectUri, p.projectUri)
    requires !stringsEqual(q.name, p.name)
    ensures ArtifactsMatch(Some([p, p]), Some([p, q]), stringsEqual)
    ensures !ArtifactsMatch(Some([p, q]), Some([p, p]), stringsEqual)
  {
    assert SameProject(p, [p, q][0], stringsEqual);
    assert !Matched([p, q][1], [p, p], stringsEqual) by {
      forall j | 0 <= j < 2 ensures !SameProject(q, [p, p][j], stringsEqual) {
      }
    }
  }

  // ---------------------------------------------------------------- contributors column

  /** getFileValue of the contributors sheet: the contributors joined in
    * order by ", "; nothing for a missing or empty array. */
  method ContributorsValue(contributors: Option<seq<string>>) returns (r: string)
    ensures contributors.None? ==> r == ""
    ensures contributors.Some? ==> r == JoinWith(contributors.value, ", ")
    ensures contributors.Some? && |contributors.value| == 1 ==> r == contributors.value[0]
  {
    r := "";
    if contributors.Some? && |contributors.value| > 0 {
      var cs := contributors.value;
      r := cs[0];
      assert cs[..1] == [cs[0]];
      var i := 1;
      while i < |cs|
        invariant 1 <= i <= |cs|
        invariant r == JoinWith(cs[..i], ", ")
      {
        assert cs[..i + 1] == cs[..i] + [cs[i]];
        JoinWithSnoc(cs[..i], cs[i], ", ");
        r := r + ", ";
        r := r + cs[i];
        i := i + 1;
      }
      assert cs[..|cs|] == cs;
    }
  }

  /** The contributors column holds every contributor, in order. */
  lemma {:induction false} ContributorsJoinContains(cs: seq<string>, k: nat)
    requires k < |cs|
    ensures exists a, b :: JoinWith(cs, ", ") == a + cs[k] + b
    decreases |cs|
  {
    if |cs| == 1 {
      assert JoinWith(cs, ", ") == "" + cs[k] + "";
    } else if k == 0 {
      assert JoinWith(cs, ", ") == "" + cs[0] + (", " + JoinWith(cs[1..], ", "));
    } else {
      ContributorsJoinContains(cs[1..], k - 1);
      var a, b :| JoinWith(cs[1..], ", ") == a + cs[1..][k - 1] + b;
      assert JoinWith(cs, ", ") == (cs[0] + ", " + a) + cs[k] + b;
    }
  }
}
