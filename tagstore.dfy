// What the tag/value builder does once every line has been read: the store of
// elements its document container holds, looking an element up by its SPDX
// ID, attaching the pending relationships and annotations to their elements,
// resolving file dependencies and snippet files, the warnings for names and
// IDs that were never found, and the single-package default relationship.

module TagStore {
  import opened Wrappers
  import opened SpdxTypes
  import opened TagEntities
  import TagParsers

  /** The document with the files, packages and snippets its elements refer to
    * by index. A record lives in its store from the moment it is created,
    * before it is added to the container. */
  datatype Store = Store(doc: Document, files: seq<SpdxFile>, packages: seq<SpdxPackage>, snippets: seq<Snippet>)

  predicate ValidRef(st: Store, e: ElementRef)
  {
    match e
    case DocumentElement => true
    case FileElement(i) => i < |st.files|
    case PackageElement(p) => p < |st.packages|
    case SnippetElement(s) => s < |st.snippets|
  }

  /** Every element of the container and every file of a package is in the store. */
  predicate StoreWf(st: Store)
  {
    && (forall k :: 0 <= k < |st.doc.elements| ==> ValidRef(st, st.doc.elements[k]))
    && (forall p, k :: 0 <= p < |st.packages| && 0 <= k < |st.packages[p].files| ==> st.packages[p].files[k] < |st.files|)
  }

  /** The element fields of an element. */
  function ItemOf(st: Store, e: ElementRef): Item
    requires ValidRef(st, e)
  {
    match e
    case DocumentElement => st.doc.item
    case FileElement(i) => st.files[i].item
    case PackageElement(p) => st.packages[p].item
    case SnippetElement(s) => st.snippets[s].item
  }

  /** The SPDX ID of an element; the document always has its fixed one. */
  function IdOf(st: Store, e: ElementRef): Option<string>
  {
    match e
    case DocumentElement => Some(SPDX_DOCUMENT_ID)
    case FileElement(i) => if i < |st.files| then st.files[i].item.id else None
    case PackageElement(p) => if p < |st.packages| then st.packages[p].item.id else None
    case SnippetElement(s) => if s < |st.snippets| then st.snippets[s].item.id else None
  }

  /** b is a with only element fields changed. */
  predicate OnlyItemsChanged(a: Store, b: Store)
  {
    && b.doc.(item := a.doc.item) == a.doc
    && |b.files| == |a.files| && |b.packages| == |a.packages| && |b.snippets| == |a.snippets|
    && (forall i :: 0 <= i < |a.files| ==> b.files[i].(item := a.files[i].item) == a.files[i])
    && (forall p :: 0 <= p < |a.packages| ==> b.packages[p].(item := a.packages[p].item) == a.packages[p])
    && (forall s :: 0 <= s < |a.snippets| ==> b.snippets[s].(item := a.snippets[s].item) == a.snippets[s])
  }

  /** b is a with element fields changed but no SPDX ID: the container and the
    * lookups see the same elements. */
  ghost predicate SameShape(a: Store, b: Store)
  {
    OnlyItemsChanged(a, b) && forall e :: IdOf(a, e) == IdOf(b, e)
  }

  lemma SameShapeTransitive(a: Store, b: Store, c: Store)
    requires SameShape(a, b) && SameShape(b, c)
    ensures SameShape(a, c)
  {
    forall i | 0 <= i < |a.files|
      ensures c.files[i].(item := a.files[i].item) == a.files[i]
    {
      assert c.files[i].(item := b.files[i].item) == b.files[i];
    }
    forall p | 0 <= p < |a.packages|
      ensures c.packages[p].(item := a.packages[p].item) == a.packages[p]
    {
      assert c.packages[p].(item := b.packages[p].item) == b.packages[p];
    }
    forall s | 0 <= s < |a.snippets|
      ensures c.snippets[s].(item := a.snippets[s].item) == a.snippets[s]
    {
      assert c.snippets[s].(item := b.snippets[s].item) == b.snippets[s];
    }
  }

  /** The store with the element fields of one element replaced. */
  function WithItem(st: Store, e: ElementRef, it: Item): (r: Store)
    requires ValidRef(st, e)
    ensures ValidRef(r, e) && ItemOf(r, e) == it
    ensures OnlyItemsChanged(st, r)
    ensures forall x :: ValidRef(st, x) && x != e ==> ValidRef(r, x) && ItemOf(r, x) == ItemOf(st, x)
  {
    match e
    case DocumentElement => st.(doc := st.doc.(item := it))
    case FileElement(i) => st.(files := st.files[i := st.files[i].(item := it)])
    case PackageElement(p) => st.(packages := st.packages[p := st.packages[p].(item := it)])
    case SnippetElement(s) => st.(snippets := st.snippets[s := st.snippets[s].(item := it)])
  }

  /** Replacing element fields but not the SPDX ID keeps the shape. */
  lemma WithItemSameShape(st: Store, e: ElementRef, it: Item)
    requires ValidRef(st, e) && it.id == ItemOf(st, e).id
    ensures SameShape(st, WithItem(st, e, it))
    ensures StoreWf(st) ==> StoreWf(WithItem(st, e, it))
  {
    var r := WithItem(st, e, it);
    forall x
      ensures IdOf(st, x) == IdOf(r, x)
    {
    }
    if StoreWf(st) {
      forall p, k | 0 <= p < |r.packages| && 0 <= k < |r.packages[p].files|
        ensures r.packages[p].files[k] < |r.files|
      {
        assert r.packages[p].(item := st.packages[p].item) == st.packages[p];
      }
    }
  }

  // ---------------------------------------------------------------- registered elements

  function PackageFiles(fs: seq<nat>): (r: seq<ElementRef>)
    ensures |r| == |fs| && forall k :: 0 <= k < |fs| ==> r[k] == FileElement(fs[k])
  {
    seq(|fs|, k requires 0 <= k < |fs| => FileElement(fs[k]))
  }

  /** An element of the container followed, for a package, by its files. */
  function ExpandOne(st: Store, e: ElementRef): seq<ElementRef>
  {
    match e
    case PackageElement(p) => [e] + (if p < |st.packages| then PackageFiles(st.packages[p].files) else [])
    case _ => [e]
  }

  function Expand(st: Store, es: seq<ElementRef>): seq<ElementRef>
  {
    if |es| == 0 then [] else ExpandOne(st, es[0]) + Expand(st, es[1..])
  }

  /** Every element the container knows: the document, then the elements in
    * the order they were added, each package followed by its files. */
  function Registered(st: Store): seq<ElementRef>
  {
    [DocumentElement] + Expand(st, st.doc.elements)
  }

  lemma {:induction false} ExpandValid(st: Store, es: seq<ElementRef>)
    requires StoreWf(st)
    requires forall k :: 0 <= k < |es| ==> ValidRef(st, es[k])
    ensures forall k :: 0 <= k < |Expand(st, es)| ==> ValidRef(st, Expand(st, es)[k])
    decreases |es|
  {
    if |es| > 0 {
      ExpandValid(st, es[1..]);
      var h := ExpandOne(st, es[0]);
      assert forall k :: 0 <= k < |h| ==> ValidRef(st, h[k]);
    }
  }

  lemma RegisteredValid(st: Store)
    ensures StoreWf(st) ==> forall k :: 0 <= k < |Registered(st)| ==> ValidRef(st, Registered(st)[k])
  {
    if StoreWf(st) {
      ExpandValid(st, st.doc.elements);
    }
  }

  lemma {:induction false} ExpandSameShape(a: Store, b: Store, es: seq<ElementRef>)
    requires SameShape(a, b)
    ensures Expand(a, es) == Expand(b, es)
    decreases |es|
  {
    if |es| > 0 {
      ExpandSameShape(a, b, es[1..]);
      match es[0]
      case PackageElement(p) =>
        if p < |a.packages| {
          assert b.packages[p].(item := a.packages[p].item) == a.packages[p];
        }
      case _ =>
    }
  }

  lemma RegisteredSameShape(a: Store, b: Store)
    requires SameShape(a, b)
    ensures Registered(a) == Registered(b)
  {
    ExpandSameShape(a, b, a.doc.elements);
  }

  // ---------------------------------------------------------------- lookup by ID

  /** The first of rs with the given SPDX ID. */
  function FindIn(st: Store, rs: seq<ElementRef>, id: string): (r: Option<ElementRef>)
    ensures r.None? <==> forall k :: 0 <= k < |rs| ==> IdOf(st, rs[k]) != Some(id)
    ensures r.Some? ==> exists k :: 0 <= k < |rs| && rs[k] == r.value && IdOf(st, r.value) == Some(id)
                                    && forall j :: 0 <= j < k ==> IdOf(st, rs[j]) != Some(id)
  {
    if |rs| == 0 then None
    else if IdOf(st, rs[0]) == Some(id) then Some(rs[0])
    else
      var r := FindIn(st, rs[1..], id);
      assert forall k :: 1 <= k < |rs| ==> rs[k] == rs[1..][k - 1];
      r
  }

  /** findElementById: the registered element with the given SPDX ID. */
  function FindElementById(st: Store, id: string): (r: Option<ElementRef>)
    ensures r.None? <==> forall k :: 0 <= k < |Registered(st)| ==> IdOf(st, Registered(st)[k]) != Some(id)
    ensures r.Some? ==> IdOf(st, r.value) == Some(id) && r.value in Registered(st)
    ensures StoreWf(st) && r.Some? ==> ValidRef(st, r.value)
  {
    RegisteredValid(st);
    FindIn(st, Registered(st), id)
  }

  /** The document is always found by its own ID. */
  lemma FindDocument(st: Store)
    ensures FindElementById(st, SPDX_DOCUMENT_ID) == Some(DocumentElement)
  {
  }

  lemma {:induction false} FindInSameShape(a: Store, b: Store, rs: seq<ElementRef>, id: string)
    requires SameShape(a, b)
    ensures FindIn(a, rs, id) == FindIn(b, rs, id)
    decreases |rs|
  {
    if |rs| > 0 {
      FindInSameShape(a, b, rs[1..], id);
      assert IdOf(a, rs[0]) == IdOf(b, rs[0]);
    }
  }

  /** Changing element fields other than IDs changes no lookup. */
  lemma FindSameShape(a: Store, b: Store, id: string)
    requires SameShape(a, b)
    ensures FindElementById(a, id) == FindElementById(b, id)
  {
    RegisteredSameShape(a, b);
    FindInSameShape(a, b, Registered(a), id);
  }

  // ---------------------------------------------------------------- relationships

  const MISSING_RELATIONSHIP_ELEMENT: string := "Missing element for a relationship.  SPDX ID: "

  /** A pending relationship with its related ID looked up; an unknown related
    * ID leaves the related element missing. */
  function Resolve(st: Store, r: TagParsers.PendingRelationship): (rel: Relationship)
    ensures rel.related == FindElementById(st, r.relatedId)
    ensures rel.relationshipType == r.relationshipType && rel.comment == r.comment
  {
    Relationship(FindElementById(st, r.relatedId), r.relationshipType, r.comment)
  }

  /** One pending relationship: added to its element, or a warning when no
    * element has its ID. */
  function AddRelationship(st: Store, r: TagParsers.PendingRelationship): (res: (Store, seq<string>))
    requires StoreWf(st)
    ensures SameShape(st, res.0) && StoreWf(res.0)
    ensures FindElementById(st, r.id).None? ==> res == (st, [MISSING_RELATIONSHIP_ELEMENT + r.id])
    ensures FindElementById(st, r.id).Some? ==>
      var e := FindElementById(st, r.id).value;
      && res.1 == []
      && res.0 == WithItem(st, e, ItemOf(st, e).(relationships := ItemOf(st, e).relationships + [Resolve(st, r)]))
  {
    match FindElementById(st, r.id)
    case None => (st, [MISSING_RELATIONSHIP_ELEMENT + r.id])
    case Some(e) =>
      var it := ItemOf(st, e).(relationships := ItemOf(st, e).relationships + [Resolve(st, r)]);
      WithItemSameShape(st, e, it);
      (WithItem(st, e, it), [])
  }

  /** addRelationships: every pending relationship in turn. */
  function AddRelationships(st: Store, rs: seq<TagParsers.PendingRelationship>): (res: (Store, seq<string>))
    requires StoreWf(st)
    ensures SameShape(st, res.0) && StoreWf(res.0)
    decreases |rs|
  {
    if |rs| == 0 then (st, [])
    else
      var prev := AddRelationships(st, rs[..|rs| - 1]);
      var next := AddRelationship(prev.0, rs[|rs| - 1]);
      SameShapeTransitive(st, prev.0, next.0);
      (next.0, prev.1 + next.1)
  }

  /** The warnings: one for each relationship whose element ID is unknown, in order. */
  function RelationshipWarnings(st: Store, rs: seq<TagParsers.PendingRelationship>): seq<string>
    decreases |rs|
  {
    if |rs| == 0 then []
    else RelationshipWarnings(st, rs[..|rs| - 1])
         + (if FindElementById(st, rs[|rs| - 1].id).None? then [MISSING_RELATIONSHIP_ELEMENT + rs[|rs| - 1].id] else [])
  }

  /** What one pending relationship gives an element: itself resolved when
    * its ID is the element's, nothing otherwise. */
  function RelationshipFor(st: Store, r: TagParsers.PendingRelationship, e: ElementRef): seq<Relationship>
  {
    if FindElementById(st, r.id) == Some(e) then [Resolve(st, r)] else []
  }

  /** The relationships an element receives: those whose ID is its own, in order. */
  function RelationshipsFor(st: Store, rs: seq<TagParsers.PendingRelationship>, e: ElementRef): seq<Relationship>
    decreases |rs|
  {
    if |rs| == 0 then []
    else RelationshipsFor(st, rs[..|rs| - 1], e) + RelationshipFor(st, rs[|rs| - 1], e)
  }

  /** One relationship seen from one element, on a store whose elements
    * already differ from st's in their fields but not their IDs. */
  lemma AddRelationshipAt(st: Store, prev: Store, r: TagParsers.PendingRelationship, e: ElementRef)
    requires StoreWf(prev) && SameShape(st, prev) && ValidRef(st, e)
    ensures ValidRef(prev, e) && ValidRef(AddRelationship(prev, r).0, e)
    ensures ItemOf(AddRelationship(prev, r).0, e)
         == ItemOf(prev, e).(relationships := ItemOf(prev, e).relationships + RelationshipFor(st, r, e))
    ensures AddRelationship(prev, r).1
         == (if FindElementById(st, r.id).None? then [MISSING_RELATIONSHIP_ELEMENT + r.id] else [])
  {
    FindSameShape(st, prev, r.id);
    FindSameShape(st, prev, r.relatedId);
    var before := ItemOf(prev, e);
    match FindElementById(prev, r.id)
    case None =>
      assert before.relationships + [] == before.relationships;
    case Some(x) =>
      var it := ItemOf(prev, x).(relationships := ItemOf(prev, x).relationships + [Resolve(prev, r)]);
      assert AddRelationship(prev, r).0 == WithItem(prev, x, it);
      if x != e {
        assert before.relationships + [] == before.relationships;
      }
  }

  lemma {:induction false} RelationshipWarningsMeaning(st: Store, rs: seq<TagParsers.PendingRelationship>)
    requires StoreWf(st)
    ensures AddRelationships(st, rs).1 == RelationshipWarnings(st, rs)
    decreases |rs|
  {
    if |rs| > 0 {
      var rs', r := rs[..|rs| - 1], rs[|rs| - 1];
      RelationshipWarningsMeaning(st, rs');
      AddRelationshipAt(st, AddRelationships(st, rs').0, r, DocumentElement);
    }
  }

  lemma {:induction false} RelationshipsAt(st: Store, rs: seq<TagParsers.PendingRelationship>, e: ElementRef)
    requires StoreWf(st) && ValidRef(st, e)
    ensures ValidRef(AddRelationships(st, rs).0, e)
    ensures ItemOf(AddRelationships(st, rs).0, e) == ItemOf(st, e).(relationships := ItemOf(st, e).relationships + RelationshipsFor(st, rs, e))
    decreases |rs|
  {
    if |rs| > 0 {
      var rs', r := rs[..|rs| - 1], rs[|rs| - 1];
      var prev := AddRelationships(st, rs').0;
      var next := AddRelationship(prev, r).0;
      RelationshipsAt(st, rs', e);
      AddRelationshipAt(st, prev, r, e);
      RelationshipsAppend(ItemOf(st, e), ItemOf(prev, e), ItemOf(next, e), RelationshipsFor(st, rs', e), RelationshipFor(st, r, e));
    }
  }

  lemma RelationshipsAppend(it: Item, before: Item, after: Item, earlier: seq<Relationship>, added: seq<Relationship>)
    requires before == it.(relationships := it.relationships + earlier)
    requires after == before.(relationships := before.relationships + added)
    ensures after == it.(relationships := it.relationships + (earlier + added))
  {
    assert it.relationships + earlier + added == it.relationships + (earlier + added);
  }

  /** Each element gains exactly the relationships naming it, at the end of its
    * own, and nothing else about it changes; the warnings name the unknown IDs. */
  lemma AddRelationshipsMeaning(st: Store, rs: seq<TagParsers.PendingRelationship>)
    requires StoreWf(st)
    ensures AddRelationships(st, rs).1 == RelationshipWarnings(st, rs)
    ensures forall e :: ValidRef(st, e) ==>
      ItemOf(AddRelationships(st, rs).0, e) == ItemOf(st, e).(relationships := ItemOf(st, e).relationships + RelationshipsFor(st, rs, e))
  {
    RelationshipWarningsMeaning(st, rs);
    forall e | ValidRef(st, e)
      ensures ItemOf(AddRelationships(st, rs).0, e) == ItemOf(st, e).(relationships := ItemOf(st, e).relationships + RelationshipsFor(st, rs, e))
    {
      RelationshipsAt(st, rs, e);
    }
  }

  // ---------------------------------------------------------------- annotations

  const MISSING_ANNOTATION_ID: string := "missing SPDXREF: tag in annotation "
  const INVALID_ANNOTATION_REF: string := "Invalid element reference in annotation: "

  /** Where a pending annotation goes: nowhere without an ID or with an unknown ID. */
  function AnnotationTarget(st: Store, a: AnnotationWithId): Option<ElementRef>
  {
    if a.id.None? then None else FindElementById(st, a.id.value)
  }

  function AnnotationWarning(st: Store, a: AnnotationWithId): seq<string>
  {
    if a.id.None? then [MISSING_ANNOTATION_ID + NullToText(a.annotation.comment)]
    else if FindElementById(st, a.id.value).None? then [INVALID_ANNOTATION_REF + a.id.value]
    else []
  }

  /** One pending annotation: appended to its element's annotations, or a warning. */
  function AddAnnotation(st: Store, a: AnnotationWithId): (res: (Store, seq<string>))
    requires StoreWf(st)
    ensures SameShape(st, res.0) && StoreWf(res.0)
    ensures res.1 == AnnotationWarning(st, a)
    ensures AnnotationTarget(st, a).None? ==> res.0 == st
    ensures AnnotationTarget(st, a).Some? ==>
      var e := AnnotationTarget(st, a).value;
      res.0 == WithItem(st, e, ItemOf(st, e).(annotations := ItemOf(st, e).annotations + [a.annotation]))
  {
    match AnnotationTarget(st, a)
    case None => (st, AnnotationWarning(st, a))
    case Some(e) =>
      var it := ItemOf(st, e).(annotations := ItemOf(st, e).annotations + [a.annotation]);
      WithItemSameShape(st, e, it);
      (WithItem(st, e, it), [])
  }

  /** addAnnotations: every pending annotation in turn. */
  function AddAnnotations(st: Store, as_: seq<AnnotationWithId>): (res: (Store, seq<string>))
    requires StoreWf(st)
    ensures SameShape(st, res.0) && StoreWf(res.0)
    decreases |as_|
  {
    if |as_| == 0 then (st, [])
    else
      var prev := AddAnnotations(st, as_[..|as_| - 1]);
      var next := AddAnnotation(prev.0, as_[|as_| - 1]);
      SameShapeTransitive(st, prev.0, next.0);
      (next.0, prev.1 + next.1)
  }

  function AnnotationWarnings(st: Store, as_: seq<AnnotationWithId>): seq<string>
    decreases |as_|
  {
    if |as_| == 0 then [] else AnnotationWarnings(st, as_[..|as_| - 1]) + AnnotationWarning(st, as_[|as_| - 1])
  }

  /** What one pending annotation gives an element: itself when it targets
    * the element, nothing otherwise. */
  function AnnotationFor(st: Store, a: AnnotationWithId, e: ElementRef): seq<Annotation>
  {
    if AnnotationTarget(st, a) == Some(e) then [a.annotation] else []
  }

  /** The annotations an element receives: those whose ID is its own, in order. */
  function AnnotationsFor(st: Store, as_: seq<AnnotationWithId>, e: ElementRef): seq<Annotation>
    decreases |as_|
  {
    if |as_| == 0 then []
    else AnnotationsFor(st, as_[..|as_| - 1], e) + AnnotationFor(st, as_[|as_| - 1], e)
  }

  lemma AddAnnotationAt(st: Store, prev: Store, a: AnnotationWithId, e: ElementRef)
    requires StoreWf(prev) && SameShape(st, prev) && ValidRef(st, e)
    ensures ValidRef(prev, e) && ValidRef(AddAnnotation(prev, a).0, e)
    ensures ItemOf(AddAnnotation(prev, a).0, e)
         == ItemOf(prev, e).(annotations := ItemOf(prev, e).annotations + AnnotationFor(st, a, e))
    ensures AddAnnotation(prev, a).1 == AnnotationWarning(st, a)
  {
    if a.id.Some? { FindSameShape(st, prev, a.id.value); }
    var before := ItemOf(prev, e);
    match AnnotationTarget(prev, a)
    case None =>
      assert before.annotations + [] == before.annotations;
    case Some(x) =>
      var it := ItemOf(prev, x).(annotations := ItemOf(prev, x).annotations + [a.annotation]);
      assert AddAnnotation(prev, a).0 == WithItem(prev, x, it);
      if x != e {
        assert before.annotations + [] == before.annotations;
      }
  }

  lemma {:induction false} AnnotationWarningsMeaning(st: Store, as_: seq<AnnotationWithId>)
    requires StoreWf(st)
    ensures AddAnnotations(st, as_).1 == AnnotationWarnings(st, as_)
    decreases |as_|
  {
    if |as_| > 0 {
      var as', a := as_[..|as_| - 1], as_[|as_| - 1];
      AnnotationWarningsMeaning(st, as');
      AddAnnotationAt(st, AddAnnotations(st, as').0, a, DocumentElement);
    }
  }

  lemma {:induction false} AnnotationsAt(st: Store, as_: seq<AnnotationWithId>, e: ElementRef)
    requires StoreWf(st) && ValidRef(st, e)
    ensures ValidRef(AddAnnotations(st, as_).0, e)
    ensures ItemOf(AddAnnotations(st, as_).0, e) == ItemOf(st, e).(annotations := ItemOf(st, e).annotations + AnnotationsFor(st, as_, e))
    decreases |as_|
  {
    if |as_| > 0 {
      var as', a := as_[..|as_| - 1], as_[|as_| - 1];
      var prev := AddAnnotations(st, as').0;
      var next := AddAnnotation(prev, a).0;
      AnnotationsAt(st, as', e);
      AddAnnotationAt(st, prev, a, e);
      AnnotationsAppend(ItemOf(st, e), ItemOf(prev, e), ItemOf(next, e), AnnotationsFor(st, as', e), AnnotationFor(st, a, e));
    }
  }

  lemma AnnotationsAppend(it: Item, before: Item, after: Item, earlier: seq<Annotation>, added: seq<Annotation>)
    requires before == it.(annotations := it.annotations + earlier)
    requires after == before.(annotations := before.annotations + added)
    ensures after == it.(annotations := it.annotations + (earlier + added))
  {
    assert it.annotations + earlier + added == it.annotations + (earlier + added);
  }

  /** Each element gains exactly the annotations naming it, at the end of its
    * own, and nothing else about it changes; the warnings explain the rest. */
  lemma AddAnnotationsMeaning(st: Store, as_: seq<AnnotationWithId>)
    requires StoreWf(st)
    ensures AddAnnotations(st, as_).1 == AnnotationWarnings(st, as_)
    ensures forall e :: ValidRef(st, e) ==>
      ItemOf(AddAnnotations(st, as_).0, e) == ItemOf(st, e).(annotations := ItemOf(st, e).annotations + AnnotationsFor(st, as_, e))
  {
    AnnotationWarningsMeaning(st, as_);
    forall e | ValidRef(st, e)
      ensures ItemOf(AddAnnotations(st, as_).0, e) == ItemOf(st, e).(annotations := ItemOf(st, e).annotations + AnnotationsFor(st, as_, e))
    {
      AnnotationsAt(st, as_, e);
    }
  }

  /** A relationship or annotation naming the document lands on the document. */
  lemma DocumentReceivesItsOwn(st: Store, a: AnnotationWithId)
    requires StoreWf(st) && a.id == Some(SPDX_DOCUMENT_ID)
    ensures AddAnnotations(st, [a]).1 == []
    ensures ItemOf(AddAnnotations(st, [a]).0, DocumentElement).annotations == st.doc.item.annotations + [a.annotation]
  {
    FindDocument(st);
    AddAnnotationsMeaning(st, [a]);
    assert [a][..0] == [];
  }

  // ---------------------------------------------------------------- file dependencies and snippet files

  /** The file elements among rs, in order. */
  function FilesAmong(rs: seq<ElementRef>): (r: seq<nat>)
    ensures forall k :: 0 <= k < |r| ==> FileElement(r[k]) in rs
    decreases |rs|
  {
    if |rs| == 0 then []
    else (match rs[0] case FileElement(i) => [i] case _ => []) + FilesAmong(rs[1..])
  }

  /** getFileReferences: every registered file, in registration order. */
  function FileReferences(st: Store): (r: seq<nat>)
    ensures StoreWf(st) ==> forall k :: 0 <= k < |r| ==> r[k] < |st.files|
  {
    var r := FilesAmong(Registered(st));
    RegisteredValid(st);
    assert forall k :: 0 <= k < |r| ==> FileElement(r[k]) in Registered(st);
    r
  }

  /** What the single pass over the files has built so far: for each dependent
    * file the files it depends on, for each file the snippets from it, and the
    * dependency names and snippet file IDs not matched yet. */
  datatype DependencyPass = DependencyPass(
    withDependencies: map<nat, seq<nat>>,
    withSnippets: map<nat, seq<nat>>,
    fileMap: map<string, seq<nat>>,
    snippetMap: map<string, seq<nat>>)

  /** Before the pass: the two maps the reader filled in, nothing matched. */
  function StartPass(fileMap: map<string, seq<nat>>, snippetMap: map<string, seq<nat>>): DependencyPass
  {
    DependencyPass(map[], map[], fileMap, snippetMap)
  }

  /** f becomes a dependency of each of ds, in order. */
  function AddDependents(m: map<nat, seq<nat>>, ds: seq<nat>, f: nat): (r: map<nat, seq<nat>>)
    ensures forall d :: d in r <==> d in m || d in ds
    decreases |ds|
  {
    if |ds| == 0 then m
    else
      var m' := AddDependents(m, ds[..|ds| - 1], f);
      var d := ds[|ds| - 1];
      assert forall x :: x in ds <==> x in ds[..|ds| - 1] || x == d;
      m'[d := (if d in m' then m'[d] else []) + [f]]
  }

  /** One file of the pass: its name matches the dependency lists waiting for
    * it, its ID the snippets waiting for it; both keys are used up. */
  function PassFile(ps: DependencyPass, st: Store, f: nat): DependencyPass
    requires f < |st.files|
  {
    var name := st.files[f].item.name;
    var ps1 :=
      if name.Some? && name.value in ps.fileMap then
        ps.(withDependencies := AddDependents(ps.withDependencies, ps.fileMap[name.value], f),
            fileMap := ps.fileMap - {name.value})
      else ps;
    var id := st.files[f].item.id;
    if id.Some? && id.value in ps1.snippetMap then
      ps1.(withSnippets := ps1.withSnippets[f := ps1.snippetMap[id.value]],
           snippetMap := ps1.snippetMap - {id.value})
    else ps1
  }

  /** The pass over the given files, in order. */
  function Pass(ps: DependencyPass, st: Store, refs: seq<nat>): DependencyPass
    requires forall k :: 0 <= k < |refs| ==> refs[k] < |st.files|
    decreases |refs|
  {
    if |refs| == 0 then ps else PassFile(Pass(ps, st, refs[..|refs| - 1]), st, refs[|refs| - 1])
  }

  predicate Named(st: Store, refs: seq<nat>, n: string)
    requires forall k :: 0 <= k < |refs| ==> refs[k] < |st.files|
  {
    exists k :: 0 <= k < |refs| && st.files[refs[k]].item.name == Some(n)
  }

  predicate Identified(st: Store, refs: seq<nat>, id: string)
    requires forall k :: 0 <= k < |refs| ==> refs[k] < |st.files|
  {
    exists k :: 0 <= k < |refs| && st.files[refs[k]].item.id == Some(id)
  }

  lemma NamedSnoc(st: Store, refs: seq<nat>, n: string)
    requires |refs| > 0 && forall k :: 0 <= k < |refs| ==> refs[k] < |st.files|
    ensures Named(st, refs, n) <==> Named(st, refs[..|refs| - 1], n) || st.files[refs[|refs| - 1]].item.name == Some(n)
  {
    var refs' := refs[..|refs| - 1];
    if Named(st, refs, n) {
      var k :| 0 <= k < |refs| && st.files[refs[k]].item.name == Some(n);
      if k < |refs'| { assert refs'[k] == refs[k]; }
    }
    if Named(st, refs', n) {
      var k :| 0 <= k < |refs'| && st.files[refs'[k]].item.name == Some(n);
      assert refs'[k] == refs[k];
    }
  }

  lemma IdentifiedSnoc(st: Store, refs: seq<nat>, i: string)
    requires |refs| > 0 && forall k :: 0 <= k < |refs| ==> refs[k] < |st.files|
    ensures Identified(st, refs, i) <==> Identified(st, refs[..|refs| - 1], i) || st.files[refs[|refs| - 1]].item.id == Some(i)
  {
    var refs' := refs[..|refs| - 1];
    if Identified(st, refs, i) {
      var k :| 0 <= k < |refs| && st.files[refs[k]].item.id == Some(i);
      if k < |refs'| { assert refs'[k] == refs[k]; }
    }
    if Identified(st, refs', i) {
      var k :| 0 <= k < |refs'| && st.files[refs'[k]].item.id == Some(i);
      assert refs'[k] == refs[k];
    }
  }

  /** A dependency name stays unmatched exactly when no file has it, and its
    * list is untouched. */
  lemma {:induction false} PassLeavesUnmatchedNames(ps: DependencyPass, st: Store, refs: seq<nat>, n: string)
    requires forall k :: 0 <= k < |refs| ==> refs[k] < |st.files|
    ensures var r := Pass(ps, st, refs);
      && (n in r.fileMap <==> n in ps.fileMap && !Named(st, refs, n))
      && (n in r.fileMap ==> r.fileMap[n] == ps.fileMap[n])
    decreases |refs|
  {
    if |refs| > 0 {
      PassLeavesUnmatchedNames(ps, st, refs[..|refs| - 1], n);
      NamedSnoc(st, refs, n);
    }
  }

  /** A snippet file ID stays unmatched exactly when no file has it, and its
    * list is untouched. */
  lemma {:induction false} PassLeavesUnmatchedIds(ps: DependencyPass, st: Store, refs: seq<nat>, i: string)
    requires forall k :: 0 <= k < |refs| ==> refs[k] < |st.files|
    ensures var r := Pass(ps, st, refs);
      && (i in r.snippetMap <==> i in ps.snippetMap && !Identified(st, refs, i))
      && (i in r.snippetMap ==> r.snippetMap[i] == ps.snippetMap[i])
    decreases |refs|
  {
    if |refs| > 0 {
      PassLeavesUnmatchedIds(ps, st, refs[..|refs| - 1], i);
      IdentifiedSnoc(st, refs, i);
    }
  }

  /** Each file a snippet list was handed to carries the ID that list was
    * waiting for, and got the whole list. */
  lemma {:induction false} PassSnippetsSound(ps: DependencyPass, st: Store, refs: seq<nat>)
    requires forall k :: 0 <= k < |refs| ==> refs[k] < |st.files|
    requires ps.withSnippets == map[]
    ensures var r := Pass(ps, st, refs);
      forall f :: f in r.withSnippets ==>
        && f < |st.files| && st.files[f].item.id.Some?
        && st.files[f].item.id.value in ps.snippetMap
        && r.withSnippets[f] == ps.snippetMap[st.files[f].item.id.value]
    decreases |refs|
  {
    if |refs| > 0 {
      var refs' := refs[..|refs| - 1];
      PassSnippetsSound(ps, st, refs');
      var f := refs[|refs| - 1];
      var id := st.files[f].item.id;
      if id.Some? {
        PassLeavesUnmatchedIds(ps, st, refs', id.value);
      }
    }
  }

  /** A snippet file ID that some file has is handed, with its whole list, to
    * a file with that ID. */
  lemma {:induction false} PassSnippetsComplete(ps: DependencyPass, st: Store, refs: seq<nat>, i: string)
    requires forall k :: 0 <= k < |refs| ==> refs[k] < |st.files|
    requires ps.withSnippets == map[]
    requires i in ps.snippetMap && Identified(st, refs, i)
    ensures var r := Pass(ps, st, refs);
      exists f :: f in r.withSnippets && f < |st.files| && st.files[f].item.id == Some(i) && r.withSnippets[f] == ps.snippetMap[i]
    decreases |refs|
  {
    var refs' := refs[..|refs| - 1];
    var last := refs[|refs| - 1];
    var prev := Pass(ps, st, refs');
    var r := Pass(ps, st, refs);
    IdentifiedSnoc(st, refs, i);
    PassSnippetsSound(ps, st, refs');
    if Identified(st, refs', i) {
      PassSnippetsComplete(ps, st, refs', i);
      PassLeavesUnmatchedIds(ps, st, refs', i);
      var f :| f in prev.withSnippets && f < |st.files| && st.files[f].item.id == Some(i) && prev.withSnippets[f] == ps.snippetMap[i];
      assert f in r.withSnippets && r.withSnippets[f] == ps.snippetMap[i];
    } else {
      PassLeavesUnmatchedIds(ps, st, refs', i);
      assert last in r.withSnippets && st.files[last].item.id == Some(i);
    }
  }

  /** Every dependency recorded for a file is a file whose name a dependency
    * list of that file was waiting for. */
  ghost predicate DependenciesSound(fileMap: map<string, seq<nat>>, st: Store, deps: map<nat, seq<nat>>)
  {
    forall d, j :: d in deps && 0 <= j < |deps[d]| ==>
      && deps[d][j] < |st.files| && st.files[deps[d][j]].item.name.Some?
      && st.files[deps[d][j]].item.name.value in fileMap && d in fileMap[st.files[deps[d][j]].item.name.value]
  }

  lemma {:induction false} PassDependenciesSound(ps: DependencyPass, st: Store, refs: seq<nat>)
    requires forall k :: 0 <= k < |refs| ==> refs[k] < |st.files|
    requires ps.withDependencies == map[]
    ensures DependenciesSound(ps.fileMap, st, Pass(ps, st, refs).withDependencies)
    decreases |refs|
  {
    if |refs| > 0 {
      var refs' := refs[..|refs| - 1];
      PassDependenciesSound(ps, st, refs');
      var prev := Pass(ps, st, refs');
      var f := refs[|refs| - 1];
      var name := st.files[f].item.name;
      if name.Some? && name.value in prev.fileMap {
        PassLeavesUnmatchedNames(ps, st, refs', name.value);
        AddDependentsSound(prev.withDependencies, prev.fileMap[name.value], f);
        var r := Pass(ps, st, refs);
        assert r.withDependencies == AddDependents(prev.withDependencies, prev.fileMap[name.value], f);
        forall d, j | d in r.withDependencies && 0 <= j < |r.withDependencies[d]|
          ensures && r.withDependencies[d][j] < |st.files| && st.files[r.withDependencies[d][j]].item.name.Some?
            && st.files[r.withDependencies[d][j]].item.name.value in ps.fileMap
            && d in ps.fileMap[st.files[r.withDependencies[d][j]].item.name.value]
        {
          if d in prev.withDependencies && j < |prev.withDependencies[d]| && r.withDependencies[d][j] == prev.withDependencies[d][j] {
          } else {
            assert r.withDependencies[d][j] == f && d in prev.fileMap[name.value];
          }
        }
      } else {
        assert Pass(ps, st, refs).withDependencies == prev.withDependencies;
      }
    }
  }

  /** AddDependents adds f, and only f, to the lists of the dependents given. */
  ghost predicate DependentsFrom(m: map<nat, seq<nat>>, ds: seq<nat>, f: nat, r: map<nat, seq<nat>>)
  {
    forall d, j :: d in r && 0 <= j < |r[d]| ==>
      (d in m && j < |m[d]| && r[d][j] == m[d][j]) || (r[d][j] == f && d in ds)
  }

  lemma {:induction false} AddDependentsSound(m: map<nat, seq<nat>>, ds: seq<nat>, f: nat)
    ensures DependentsFrom(m, ds, f, AddDependents(m, ds, f))
    decreases |ds|
  {
    if |ds| > 0 {
      var ds', last := ds[..|ds| - 1], ds[|ds| - 1];
      AddDependentsSound(m, ds', f);
      var m' := AddDependents(m, ds', f);
      var r := AddDependents(m, ds, f);
      assert r == m'[last := (if last in m' then m'[last] else []) + [f]];
      forall d, j | d in r && 0 <= j < |r[d]|
        ensures (d in m && j < |m[d]| && r[d][j] == m[d][j]) || (r[d][j] == f && d in ds)
      {
        if d == last && j == |r[d]| - 1 {
          assert r[d][j] == f && d in ds;
        } else {
          assert d in m' && j < |m'[d]| && r[d][j] == m'[d][j];
          assert (d in m && j < |m[d]| && m'[d][j] == m[d][j]) || (m'[d][j] == f && d in ds');
          assert d in ds' ==> d in ds;
        }
      }
    }
  }

  /** The dependencies as set on the files: a file with recorded dependencies
    * gets exactly those, in the order they were found. */
  function WithDependencies(files: seq<SpdxFile>, deps: map<nat, seq<nat>>): (r: seq<SpdxFile>)
    ensures |r| == |files|
    ensures forall i :: 0 <= i < |files| ==>
      r[i] == (if i in deps && |deps[i]| > 0 then files[i].(fileDependencies := deps[i]) else files[i])
  {
    seq(|files|, i requires 0 <= i < |files| =>
      if i in deps && |deps[i]| > 0 then files[i].(fileDependencies := deps[i]) else files[i])
  }

  /** after is before with each snippet a file was handed bound to one such
    * file (which one, when several, follows hash order), and nothing else changed. */
  ghost predicate BoundSnippets(before: seq<Snippet>, after: seq<Snippet>, withSnippets: map<nat, seq<nat>>)
  {
    && |after| == |before|
    && forall s :: 0 <= s < |before| ==>
      && after[s].(snippetFromFile := before[s].snippetFromFile) == before[s]
      && ((exists f :: f in withSnippets && s in withSnippets[f]) ==>
            exists f :: f in withSnippets && s in withSnippets[f] && after[s].snippetFromFile == Some(f))
      && (!(exists f :: f in withSnippets && s in withSnippets[f]) ==> after[s] == before[s])
  }

  // ---------------------------------------------------------------- warnings for what was not found

  const MISSING_DEPENDENCIES_HEADER: string :=
    "The following file names were listed as file dependencies but were not found in the list of files:"
  const MISSING_SNIPPET_FILES_HEADER: string :=
    "The following file IDs were listed as files for snippets but were not found in the list of files:"

  /** w has one tab-indented line per key, in any order. */
  ghost predicate Lists(w: seq<string>, keys: set<string>)
  {
    && |w| == |keys|
    && (forall k :: k in keys ==> "\t" + k in w)
    && (forall j :: 0 <= j < |w| ==> exists k :: k in keys && w[j] == "\t" + k)
  }

  /** Nothing unless announce holds, and then the header and the listed keys. */
  ghost predicate Announced(w: seq<string>, header: string, announce: bool, listed: set<string>)
  {
    && (!announce ==> w == [])
    && (announce ==> |w| >= 1 && w[0] == header && Lists(w[1..], listed))
  }

  /** The file dependency names no file had. */
  ghost predicate MissingDependencyWarnings(w: seq<string>, fileKeys: set<string>)
  {
    Announced(w, MISSING_DEPENDENCIES_HEADER, fileKeys != {}, fileKeys)
  }

  /** As written: announced when a snippet file ID was not found, but listing
    * the missing dependency names instead. */
  ghost predicate SnippetFileWarningsAsWritten(w: seq<string>, fileKeys: set<string>, snippetKeys: set<string>)
  {
    Announced(w, MISSING_SNIPPET_FILES_HEADER, snippetKeys != {}, fileKeys)
  }

  /** The snippet file IDs no file had. */
  ghost predicate SnippetFileWarnings(w: seq<string>, snippetKeys: set<string>)
  {
    Announced(w, MISSING_SNIPPET_FILES_HEADER, snippetKeys != {}, snippetKeys)
  }

  /** As written, a snippet whose file ID is unknown, in a document whose
    * dependencies all resolved, gets a header and no line naming the ID. */
  lemma SnippetWarningsLoseIdAsWritten(w: seq<string>, id: string)
    requires SnippetFileWarningsAsWritten(w, {}, {id})
    ensures w == [MISSING_SNIPPET_FILES_HEADER]
    ensures !Lists(w[1..], {id})
  {
    assert |w[1..]| == 0;
  }

  /** Corrected, every unknown snippet file ID is named, and every line after
    * the header names one. */
  lemma SnippetWarningsNameIds(w: seq<string>, snippetKeys: set<string>)
    requires SnippetFileWarnings(w, snippetKeys)
    ensures snippetKeys == {} <==> w == []
    ensures forall k :: k in snippetKeys ==> "\t" + k in w
    ensures forall j :: 1 <= j < |w| ==> |w[j]| >= 1 && w[j][0] == '\t' && w[j][1..] in snippetKeys
  {
    if snippetKeys != {} {
      forall k | k in snippetKeys
        ensures "\t" + k in w
      {
        assert "\t" + k in w[1..];
      }
      forall j | 1 <= j < |w|
        ensures |w[j]| >= 1 && w[j][0] == '\t' && w[j][1..] in snippetKeys
      {
        assert w[j] == w[1..][j - 1];
        var k :| k in snippetKeys && w[j] == "\t" + k;
        assert w[j][1..] == k;
      }
    }
  }

  // ---------------------------------------------------------------- the single-package default

  const DESCRIBES: string := "DESCRIBES"
  const DEFAULT_DESCRIBES_COMMENT: string :=
    "This describes relationship was added as a default relationship by the SPDX Tools Tag parser."

  /** findAllPackages: the packages added to the container, in order. */
  function ContainerPackages(es: seq<ElementRef>): (r: seq<nat>)
    ensures forall k :: 0 <= k < |r| ==> PackageElement(r[k]) in es
    ensures (forall k :: 0 <= k < |es| ==> !es[k].PackageElement?) ==> r == []
    decreases |es|
  {
    if |es| == 0 then []
    else (match es[0] case PackageElement(p) => [p] case _ => []) + ContainerPackages(es[1..])
  }

  /** The document has a DESCRIBES relationship to package p. */
  predicate Describes(st: Store, p: nat)
  {
    exists k :: 0 <= k < |st.doc.item.relationships| &&
      st.doc.item.relationships[k].relationshipType == DESCRIBES &&
      st.doc.item.relationships[k].related == Some(PackageElement(p))
  }

  /** The message of the exception taking the first element of an empty list. */
  const INDEX_OUT_OF_BOUNDS: string := "Index: 0, Size: 0"

  /** checkSinglePackageDefault as written: the package list is never matched
    * against the related elements, and the default is only added for an
    * empty package list, whose first element does not exist. */
  function SinglePackageDefaultAsWritten(st: Store): (r: Result<Store>)
    ensures r.Err? <==> ContainerPackages(st.doc.elements) == []
    ensures r.Ok? ==> r.value == st
  {
    if ContainerPackages(st.doc.elements) == [] then Err(INDEX_OUT_OF_BOUNDS) else Ok(st)
  }

  /** checkSinglePackageDefault corrected: a document with a single package
    * that it does not describe gets the default DESCRIBES relationship to it. */
  function SinglePackageDefault(st: Store): (r: Store)
    ensures var pkgs := ContainerPackages(st.doc.elements);
      && (|pkgs| == 1 ==> Describes(r, pkgs[0]))
      && (|pkgs| != 1 || Describes(st, pkgs[0]) ==> r == st)
      && r.(doc := r.doc.(item := st.doc.item)) == st
      && r.doc.item.(relationships := st.doc.item.relationships) == st.doc.item
      && st.doc.item.relationships <= r.doc.item.relationships
  {
    var pkgs := ContainerPackages(st.doc.elements);
    if |pkgs| == 1 && !Describes(st, pkgs[0]) then
      var rel := Relationship(Some(PackageElement(pkgs[0])), DESCRIBES, Some(DEFAULT_DESCRIBES_COMMENT));
      var r := st.(doc := st.doc.(item := st.doc.item.(relationships := st.doc.item.relationships + [rel])));
      assert r.doc.item.relationships[|st.doc.item.relationships|] == rel;
      r
    else st
  }

  /** The default relationship changes no record and no SPDX ID. */
  lemma SinglePackageDefaultSameShape(st: Store)
    requires StoreWf(st)
    ensures SameShape(st, SinglePackageDefault(st)) && StoreWf(SinglePackageDefault(st))
  {
  }

  /** A document with a single package and no relationships: as written it is
    * left without a DESCRIBES relationship; corrected it describes the package. */
  lemma SinglePackageLeftUndescribedAsWritten(st: Store, p: nat)
    requires st.doc.elements == [PackageElement(p)] && st.doc.item.relationships == []
    ensures SinglePackageDefaultAsWritten(st) == Ok(st) && !Describes(st, p)
    ensures Describes(SinglePackageDefault(st), p)
  {
    assert ContainerPackages(st.doc.elements) == [p] by {
      assert st.doc.elements[1..] == [];
    }
  }
}
