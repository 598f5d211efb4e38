// The loops the tag/value builder runs once every line has been read: the
// single pass over the registered files that matches dependency names and
// snippet file IDs, setting the dependencies found, binding snippets to their
// files, listing what was never found, and attaching the pending
// relationships and annotations. Each loop is proved to compute the
// corresponding function of TagStore.

module TagResolution {
  import opened Wrappers
  import opened SpdxTypes
  import opened TagEntities
  import opened TagStore
  import TagParsers

  /** The pass over every registered file, in registration order. */
  method RunPass(st: Store, fileMap: map<string, seq<nat>>, snippetMap: map<string, seq<nat>>)
    returns (ps: DependencyPass)
    requires StoreWf(st)
    ensures ps == Pass(StartPass(fileMap, snippetMap), st, FileReferences(st))
  {
    var refs := FileReferences(st);
    ps := StartPass(fileMap, snippetMap);
    var i := 0;
    while i < |refs|
      invariant 0 <= i <= |refs|
      invariant forall k :: 0 <= k < |refs| ==> refs[k] < |st.files|
      invariant ps == Pass(StartPass(fileMap, snippetMap), st, refs[..i])
    {
      var done := refs[..i + 1];
      assert done[..i] == refs[..i] && done[i] == refs[i];
      ps := PassFile(ps, st, refs[i]);
      i := i + 1;
    }
    assert refs[..|refs|] == refs;
  }

  /** Each file with recorded dependencies gets them; the others are kept. */
  method SetDependencies(files: seq<SpdxFile>, deps: map<nat, seq<nat>>) returns (r: seq<SpdxFile>)
    ensures r == WithDependencies(files, deps)
  {
    r := files;
    var i := 0;
    while i < |files|
      invariant 0 <= i <= |files| && |r| == |files|
      invariant forall j :: 0 <= j < i ==> r[j] == WithDependencies(files, deps)[j]
      invariant forall j :: i <= j < |files| ==> r[j] == files[j]
    {
      if i in deps && |deps[i]| > 0 {
        r := r[i := files[i].(fileDependencies := deps[i])];
      }
      i := i + 1;
    }
  }

  /** Snippet s is on the list of some file among done. */
  ghost predicate Queued(ws: map<nat, seq<nat>>, done: set<nat>, s: nat)
  {
    exists f :: f in done && f in ws && s in ws[f]
  }

  /** Snippet s is bound to some file among done whose list holds it. */
  ghost predicate BoundAmong(ws: map<nat, seq<nat>>, done: set<nat>, s: nat, r: seq<Snippet>)
    requires s < |r|
  {
    exists f :: f in done && f in ws && s in ws[f] && r[s].snippetFromFile == Some(f)
  }

  /** What binding the lists of the files in done has made of the snippets. */
  ghost predicate BoundSoFar(before: seq<Snippet>, r: seq<Snippet>, ws: map<nat, seq<nat>>, done: set<nat>)
  {
    && |r| == |before|
    && (forall s :: 0 <= s < |before| ==> r[s].(snippetFromFile := before[s].snippetFromFile) == before[s])
    && (forall s :: 0 <= s < |before| && Queued(ws, done, s) ==> BoundAmong(ws, done, s, r))
    && (forall s :: 0 <= s < |before| && !Queued(ws, done, s) ==> r[s] == before[s])
  }

  /** Every snippet on a file's list is bound to that file; the files are
    * taken in no particular order (hash order), so a snippet on two lists ends
    * up bound to one of them. */
  method BindSnippets(snippets: seq<Snippet>, ws: map<nat, seq<nat>>) returns (r: seq<Snippet>)
    requires forall f, k :: f in ws && 0 <= k < |ws[f]| ==> ws[f][k] < |snippets|
    ensures BoundSnippets(snippets, r, ws)
  {
    r := snippets;
    var todo := ws.Keys;
    ghost var done: set<nat> := {};
    while todo != {}
      invariant todo + done == ws.Keys && todo !! done
      invariant BoundSoFar(snippets, r, ws, done)
      decreases |todo|
    {
      var f :| f in todo;
      r := BindList(snippets, r, ws, done, f);
      todo, done := todo - {f}, done + {f};
    }
    BoundSoFarAll(snippets, r, ws);
  }

  /** The snippets on f's list are bound to f. */
  method BindList(snippets: seq<Snippet>, r0: seq<Snippet>, ws: map<nat, seq<nat>>, ghost done: set<nat>, f: nat)
    returns (r: seq<Snippet>)
    requires forall g, k :: g in ws && 0 <= k < |ws[g]| ==> ws[g][k] < |snippets|
    requires f in ws && BoundSoFar(snippets, r0, ws, done)
    ensures BoundSoFar(snippets, r, ws, done + {f})
  {
    var list := ws[f];
    r := r0;
    var j := 0;
    while j < |list|
      invariant 0 <= j <= |list| && |r| == |snippets|
      invariant forall s :: 0 <= s < |snippets| ==> r[s].(snippetFromFile := snippets[s].snippetFromFile) == snippets[s]
      invariant forall s :: 0 <= s < |snippets| && s in list[..j] ==> r[s].snippetFromFile == Some(f)
      invariant forall s :: 0 <= s < |snippets| && s !in list[..j] ==> r[s] == r0[s]
    {
      assert list[..j + 1] == list[..j] + [list[j]];
      r := r[list[j] := r[list[j]].(snippetFromFile := Some(f))];
      j := j + 1;
    }
    assert list[..|list|] == list;
    forall s | 0 <= s < |snippets| && Queued(ws, done + {f}, s)
      ensures BoundAmong(ws, done + {f}, s, r)
    {
      if s in list {
        assert r[s].snippetFromFile == Some(f);
      } else {
        var g :| g in done + {f} && g in ws && s in ws[g];
        assert g != f && Queued(ws, done, s);
        var h :| h in done && h in ws && s in ws[h] && r0[s].snippetFromFile == Some(h);
        assert r[s] == r0[s];
      }
    }
    forall s | 0 <= s < |snippets| && !Queued(ws, done + {f}, s)
      ensures r[s] == snippets[s]
    {
      assert s !in list && !Queued(ws, done, s);
    }
  }

  lemma BoundSoFarAll(before: seq<Snippet>, r: seq<Snippet>, ws: map<nat, seq<nat>>)
    requires BoundSoFar(before, r, ws, ws.Keys)
    ensures BoundSnippets(before, r, ws)
  {
    forall s | 0 <= s < |before|
      ensures (exists f :: f in ws && s in ws[f]) ==> exists f :: f in ws && s in ws[f] && r[s].snippetFromFile == Some(f)
      ensures !(exists f :: f in ws && s in ws[f]) ==> r[s] == before[s]
    {
      if exists f :: f in ws && s in ws[f] {
        var f :| f in ws && s in ws[f];
        assert Queued(ws, ws.Keys, s);
        var g :| g in ws.Keys && g in ws && s in ws[g] && r[s].snippetFromFile == Some(g);
      } else {
        assert !Queued(ws, ws.Keys, s);
      }
    }
  }

  /** lines lists, one tab-indented line each, the keys of listed that are
    * not in todo. */
  ghost predicate ListedSoFar(lines: seq<string>, listed: set<string>, todo: set<string>)
  {
    && todo <= listed
    && |lines| == |listed - todo|
    && (forall k :: k in listed - todo ==> "\t" + k in lines)
    && (forall j :: 0 <= j < |lines| ==> exists k :: k in listed - todo && lines[j] == "\t" + k)
  }

  lemma ListedStep(lines: seq<string>, listed: set<string>, todo: set<string>, k: string)
    requires ListedSoFar(lines, listed, todo) && k in todo
    ensures ListedSoFar(lines + ["\t" + k], listed, todo - {k})
  {
    assert listed - (todo - {k}) == (listed - todo) + {k};
    var lines' := lines + ["\t" + k];
    forall j | 0 <= j < |lines'|
      ensures exists k' :: k' in listed - (todo - {k}) && lines'[j] == "\t" + k'
    {
      if j < |lines| {
        var k' :| k' in listed - todo && lines[j] == "\t" + k';
        assert lines'[j] == lines[j];
      } else {
        assert lines'[j] == "\t" + k;
      }
    }
  }

  /** The header and one tab-indented line per listed key, in no particular
    * order (hash order), when announce holds; nothing otherwise. */
  method Announce(header: string, announce: bool, listed: set<string>) returns (w: seq<string>)
    ensures Announced(w, header, announce, listed)
  {
    if !announce {
      return [];
    }
    var lines: seq<string> := [];
    var todo := listed;
    while todo != {}
      invariant ListedSoFar(lines, listed, todo)
      decreases |todo|
    {
      var k :| k in todo;
      ListedStep(lines, listed, todo, k);
      lines := lines + ["\t" + k];
      todo := todo - {k};
    }
    assert listed - todo == listed;
    w := [header] + lines;
    assert w[1..] == lines;
  }

  /** addRelationships' loop: every pending relationship in turn. */
  method ResolveRelationships(st: Store, rs: seq<TagParsers.PendingRelationship>) returns (r: Store, ws: seq<string>)
    requires StoreWf(st)
    ensures (r, ws) == AddRelationships(st, rs)
  {
    r, ws := st, [];
    var i := 0;
    while i < |rs|
      invariant 0 <= i <= |rs|
      invariant (r, ws) == AddRelationships(st, rs[..i])
    {
      RelationshipsSnoc(st, rs, i);
      var next := AddRelationship(r, rs[i]);
      r, ws := next.0, ws + next.1;
      i := i + 1;
    }
    assert rs[..|rs|] == rs;
  }

  /** addAnnotations' loop: every pending annotation in turn. */
  method ResolveAnnotations(st: Store, as_: seq<AnnotationWithId>) returns (r: Store, ws: seq<string>)
    requires StoreWf(st)
    ensures (r, ws) == AddAnnotations(st, as_)
  {
    r, ws := st, [];
    var i := 0;
    while i < |as_|
      invariant 0 <= i <= |as_|
      invariant (r, ws) == AddAnnotations(st, as_[..i])
    {
      AnnotationsSnoc(st, as_, i);
      var next := AddAnnotation(r, as_[i]);
      r, ws := next.0, ws + next.1;
      i := i + 1;
    }
    assert as_[..|as_|] == as_;
  }

  lemma RelationshipsSnoc(st: Store, rs: seq<TagParsers.PendingRelationship>, i: nat)
    requires StoreWf(st) && i < |rs|
    ensures var prev := AddRelationships(st, rs[..i]);
      var next := AddRelationship(prev.0, rs[i]);
      AddRelationships(st, rs[..i + 1]) == (next.0, prev.1 + next.1)
  {
    assert rs[..i + 1][..i] == rs[..i];
  }

  lemma AnnotationsSnoc(st: Store, as_: seq<AnnotationWithId>, i: nat)
    requires StoreWf(st) && i < |as_|
    ensures var prev := AddAnnotations(st, as_[..i]);
      var next := AddAnnotation(prev.0, as_[i]);
      AddAnnotations(st, as_[..i + 1]) == (next.0, prev.1 + next.1)
  {
    assert as_[..i + 1][..i] == as_[..i];
  }
}
