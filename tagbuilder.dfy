// The tag/value document builder: it receives one (tag, value) pair at a
// time, keeps the entity being defined open (an annotation, a file, a
// snippet, a package or an extracted license), and when the input ends
// attaches what was waiting for other elements.

module TagBuilder {
  import opened Wrappers
  import opened JavaStrings
  import opened SpdxTypes
  import opened Tags
  import opened TagEntities
  import opened TagStore
  import SpdxFileModel
  import SpdxPackageModel
  import ExternalDocRefModel
  import TagParsers
  import TagResolution

  /** What the builder takes from its surroundings: how a normalised tag text
    * is recognised (the property file of tag names), the current date, a fresh
    * UUID, the text of a snippet in a message, and the document's own
    * verification. */
  datatype Env = Env(
    tagOf: string -> Option<Tag>,
    now: string,
    uuid: string,
    snippetText: Snippet -> string,
    verifyDocument: Store -> seq<string>)

  /** A position in a list owned by a file or package: the owner's index in
    * its store and the position in the owner's list. */
  datatype Loc = Loc(owner: nat, pos: nat)

  const GENERATED_NAMESPACE_PREFIX: string := "http://spdx.org/documents/"
  const NAMESPACE_FIRST: string := "The SPDX Document Namespace must be set before other SPDX document properties are set."
  const SECOND_NAMESPACE: string := "More than one document namespace was specified"

  /** The warning for an element that was given no SPDX ID. */
  function MissingIdWarning(what: string, kind: string): string
  {
    MISSING_ID + what + ID_GENERATED + kind + "."
  }

  const MISSING_ID: string := "Missing SPDX ID for "
  const ID_GENERATED: string := ".  An SPDX ID will be generated for this "

  /** The data license a DataLicense value stands for. */
  function ReadDataLicense(value: string, cat: Catalog): (r: DataLicense)
    ensures r.id == value
    ensures r.ListedLicense? <==> cat.isListedLicense(value)
    ensures r.ExtractedDataLicense? ==> r.text == "NO TEXT FOR " + value
  {
    if cat.isListedLicense(value) then ListedLicense(value) else ExtractedDataLicense(value, "NO TEXT FOR " + value)
  }

  /** A list with the optional item appended. */
  function Pushed<T>(xs: seq<T>, o: Option<T>): (r: seq<T>)
    ensures o.None? ==> r == xs
    ensures o.Some? ==> r == xs + [o.value]
  {
    if o.Some? then xs + [o.value] else xs
  }

  const NOT_PACKAGE_TAG: string := "Expecting a file definition, snippet definition or a package property.  Found "
  const COMMENT_OUTSIDE_RELATIONSHIP: string := "Relationship comment found outside of a relationship: "
  const COMMENT_WITHOUT_EXTERNAL_REF: string := "External reference comment found without an external reference: "
  const SECOND_EXTERNAL_REF_COMMENT: string := "Second reference comment found for the same external reference: "
  const MISSING_PROJECT_NAME: string := "Missing Project Name - A project name must be provided before the project properties"

  /** The list with x at position i, which is either a position of the list or
    * just past its end. */
  function ReplaceOrAppend<T>(xs: seq<T>, i: nat, x: T): (r: seq<T>)
    requires i <= |xs|
    ensures |r| == if i < |xs| then |xs| else |xs| + 1
    ensures r[i] == x
    ensures forall k :: 0 <= k < |xs| && k != i ==> r[k] == xs[k]
  {
    if i < |xs| then xs[i := x] else xs + [x]
  }

  /** The tags every builder reads the same way. */
  predicate SharedTag(t: Tag)
  {
    t == Annotator || t == RelationshipTag || t == RelationshipComment
  }

  /** The tags the package builder reads. */
  predicate PackageBuilderTag(t: Tag)
  {
    PackageProperty(t) || SharedTag(t) || t == ExternalReference || t == ExternalReferenceComment
    || t == FileName || t == SnippetSpdxId
  }

  /** The elements recorded as waiting for the named one. */
  function Waiting(m: map<string, seq<nat>>, name: string): seq<nat>
  {
    if name in m then m[name] else []
  }

  /** Every index the builder holds is in its store: the open file, snippet
    * and package, the last extracted license and review, the last project of a
    * file and the last external reference of a package, and the files and
    * snippets waiting for a file; there is no package before there is a
    * document, and the document and its records are well formed. */
  ghost predicate CoreOf(
    analysis: Option<Document>, files: seq<SpdxFile>, packages: seq<SpdxPackage>, snippets: seq<Snippet>,
    lastFile: Option<nat>, lastSnippet: Option<nat>, lastPackage: Option<nat>, lastExtractedLicense: Option<nat>,
    lastReviewer: Option<nat>, lastProject: Option<Loc>, lastExternalRef: Option<Loc>,
    fileDependencyMap: map<string, seq<nat>>, snippetDependencyMap: map<string, seq<nat>>)
  {
    && (analysis.None? ==> packages == [] && lastReviewer.None? && lastExtractedLicense.None?)
    && (analysis.Some? ==> StoreWf(Store(analysis.value, files, packages, snippets)))
    && (lastFile.Some? ==> analysis.Some? && lastFile.value < |files|)
    && (lastSnippet.Some? ==> analysis.Some? && lastSnippet.value < |snippets|)
    && (lastPackage.Some? ==> analysis.Some? && lastPackage.value < |packages|)
    && (lastExtractedLicense.Some? ==> analysis.Some? && lastExtractedLicense.value < |analysis.value.extractedLicenses|)
    && (lastReviewer.Some? ==> analysis.Some? && lastReviewer.value < |analysis.value.reviewers|)
    && (lastProject.Some? ==>
          lastProject.value.owner < |files| && lastProject.value.pos < |files[lastProject.value.owner].artifactOf|)
    && (lastExternalRef.Some? ==>
          && lastExternalRef.value.owner < |packages|
          && packages[lastExternalRef.value.owner].externalRefs.Some?
          && lastExternalRef.value.pos < |packages[lastExternalRef.value.owner].externalRefs.value|)
    && (forall n, k :: n in fileDependencyMap && 0 <= k < |fileDependencyMap[n]| ==> fileDependencyMap[n][k] < |files|)
    && (forall n, k :: n in snippetDependencyMap && 0 <= k < |snippetDependencyMap[n]| ==> snippetDependencyMap[n][k] < |snippets|)
  }

  /** Each open entity exists, and a file and a snippet are never open together. */
  ghost predicate FlagsOf(
    inAnnotation: bool, inFile: bool, inSnippet: bool, inPackage: bool, inExtracted: bool,
    lastAnnotation: Option<AnnotationWithId>, lastFile: Option<nat>, lastSnippet: Option<nat>,
    lastPackage: Option<nat>, lastExtracted: Option<nat>)
  {
    && (inAnnotation ==> lastAnnotation.Some?)
    && (inFile ==> lastFile.Some?)
    && (inSnippet ==> lastSnippet.Some?)
    && (inPackage ==> lastPackage.Some?)
    && (inExtracted ==> lastExtracted.Some?)
    && !(inFile && inSnippet)
  }

  /** Storing a new snippet, which becomes the open one, keeps the indices valid. */
  lemma SnippetAddedCore(
    analysis: Option<Document>, files: seq<SpdxFile>, packages: seq<SpdxPackage>, snippets: seq<Snippet>,
    lastFile: Option<nat>, lastSnippet: Option<nat>, lastPackage: Option<nat>, lastExtractedLicense: Option<nat>,
    lastReviewer: Option<nat>, lastProject: Option<Loc>, lastExternalRef: Option<Loc>,
    fileDependencyMap: map<string, seq<nat>>, snippetDependencyMap: map<string, seq<nat>>, s: Snippet)
    requires analysis.Some?
    requires CoreOf(analysis, files, packages, snippets, lastFile, lastSnippet, lastPackage, lastExtractedLicense,
                    lastReviewer, lastProject, lastExternalRef, fileDependencyMap, snippetDependencyMap)
    ensures CoreOf(analysis, files, packages, snippets + [s], lastFile, Some(|snippets|), lastPackage, lastExtractedLicense,
                   lastReviewer, lastProject, lastExternalRef, fileDependencyMap, snippetDependencyMap)
  {
    StoreWfGrows(Store(analysis.value, files, packages, snippets), files, packages, snippets + [s]);
  }

  /** Storing a new file, which becomes the open one, keeps the indices valid. */
  lemma FileAddedCore(
    analysis: Option<Document>, files: seq<SpdxFile>, packages: seq<SpdxPackage>, snippets: seq<Snippet>,
    lastSnippet: Option<nat>, lastPackage: Option<nat>, lastExtractedLicense: Option<nat>,
    lastReviewer: Option<nat>, lastProject: Option<Loc>, lastExternalRef: Option<Loc>,
    fileDependencyMap: map<string, seq<nat>>, snippetDependencyMap: map<string, seq<nat>>, f: SpdxFile)
    requires analysis.Some?
    requires CoreOf(analysis, files, packages, snippets, None, lastSnippet, lastPackage, lastExtractedLicense,
                    lastReviewer, lastProject, lastExternalRef, fileDependencyMap, snippetDependencyMap)
    ensures CoreOf(analysis, files + [f], packages, snippets, Some(|files|), lastSnippet, lastPackage, lastExtractedLicense,
                   lastReviewer, lastProject, lastExternalRef, fileDependencyMap, snippetDependencyMap)
  {
    StoreWfGrows(Store(analysis.value, files, packages, snippets), files + [f], packages, snippets);
    var fs := files + [f];
    assert forall o :: 0 <= o < |files| ==> fs[o] == files[o];
  }

  /** A store stays well formed when files and snippets are added and the
    * packages keep their files. */
  lemma StoreWfGrows(st: Store, files: seq<SpdxFile>, packages: seq<SpdxPackage>, snippets: seq<Snippet>)
    requires StoreWf(st) && |st.files| <= |files| && |st.snippets| <= |snippets|
    requires |packages| == |st.packages| && forall p :: 0 <= p < |packages| ==> packages[p].files == st.packages[p].files
    ensures StoreWf(Store(st.doc, files, packages, snippets))
  {
    var r := Store(st.doc, files, packages, snippets);
    forall k | 0 <= k < |r.doc.elements|
      ensures ValidRef(r, r.doc.elements[k])
    {
      assert ValidRef(st, st.doc.elements[k]);
    }
    forall p, k | 0 <= p < |r.packages| && 0 <= k < |r.packages[p].files|
      ensures r.packages[p].files[k] < |r.files|
    {
      assert r.packages[p].files == st.packages[p].files;
    }
  }

  /** Adding an element that is in the store keeps the store well formed. */
  lemma AddElementWf(st: Store, e: ElementRef)
    requires StoreWf(st) && ValidRef(st, e)
    ensures StoreWf(st.(doc := st.doc.(elements := st.doc.elements + [e])))
  {
    var r := st.(doc := st.doc.(elements := st.doc.elements + [e]));
    forall k | 0 <= k < |r.doc.elements|
      ensures ValidRef(r, r.doc.elements[k])
    {
      if k < |st.doc.elements| {
        assert r.doc.elements[k] == st.doc.elements[k];
      }
    }
  }

  /** Adding a stored file to a package keeps the store well formed. */
  lemma AddPackageFileWf(st: Store, p: nat, f: nat)
    requires StoreWf(st) && p < |st.packages| && f < |st.files|
    ensures StoreWf(st.(packages := st.packages[p := SpdxPackageModel.AddFile(st.packages[p], Some(f))]))
  {
    var r := st.(packages := st.packages[p := SpdxPackageModel.AddFile(st.packages[p], Some(f))]);
    forall q, k | 0 <= q < |r.packages| && 0 <= k < |r.packages[q].files|
      ensures r.packages[q].files[k] < |r.files|
    {
      if q == p && k < |st.packages[p].files| {
        assert r.packages[q].files[k] == st.packages[p].files[k];
      }
    }
    assert forall k :: 0 <= k < |r.doc.elements| ==> ValidRef(st, r.doc.elements[k]) == ValidRef(r, r.doc.elements[k]);
  }

  /** Storing a new package without files, which becomes the last package,
    * keeps the indices valid. */
  lemma PackageAddedCore(
    analysis: Option<Document>, files: seq<SpdxFile>, packages: seq<SpdxPackage>, snippets: seq<Snippet>,
    lastFile: Option<nat>, lastSnippet: Option<nat>, lastPackage: Option<nat>, lastExtractedLicense: Option<nat>,
    lastReviewer: Option<nat>, lastProject: Option<Loc>, lastExternalRef: Option<Loc>,
    fileDependencyMap: map<string, seq<nat>>, snippetDependencyMap: map<string, seq<nat>>, p: SpdxPackage)
    requires analysis.Some? && p.files == []
    requires CoreOf(analysis, files, packages, snippets, lastFile, lastSnippet, lastPackage, lastExtractedLicense,
                    lastReviewer, lastProject, lastExternalRef, fileDependencyMap, snippetDependencyMap)
    ensures CoreOf(analysis, files, packages + [p], snippets, lastFile, lastSnippet, Some(|packages|), lastExtractedLicense,
                   lastReviewer, lastProject, lastExternalRef, fileDependencyMap, snippetDependencyMap)
  {
    var ps := packages + [p];
    assert forall q :: 0 <= q < |packages| ==> ps[q] == packages[q];
    var st := Store(analysis.value, files, ps, snippets);
    forall k | 0 <= k < |st.doc.elements|
      ensures ValidRef(st, st.doc.elements[k])
    {
      assert ValidRef(Store(analysis.value, files, packages, snippets), st.doc.elements[k]);
    }
  }

  /** A document edit that keeps the container's elements and shortens no list
    * keeps the indices valid. */
  lemma DocumentEditedCore(
    analysis: Option<Document>, files: seq<SpdxFile>, packages: seq<SpdxPackage>, snippets: seq<Snippet>,
    lastFile: Option<nat>, lastSnippet: Option<nat>, lastPackage: Option<nat>, lastExtractedLicense: Option<nat>,
    lastReviewer: Option<nat>, lastProject: Option<Loc>, lastExternalRef: Option<Loc>,
    fileDependencyMap: map<string, seq<nat>>, snippetDependencyMap: map<string, seq<nat>>, d: Document)
    requires analysis.Some? && d.elements == analysis.value.elements
    requires |analysis.value.reviewers| <= |d.reviewers| && |analysis.value.extractedLicenses| <= |d.extractedLicenses|
    requires CoreOf(analysis, files, packages, snippets, lastFile, lastSnippet, lastPackage, lastExtractedLicense,
                    lastReviewer, lastProject, lastExternalRef, fileDependencyMap, snippetDependencyMap)
    ensures CoreOf(Some(d), files, packages, snippets, lastFile, lastSnippet, lastPackage, lastExtractedLicense,
                   lastReviewer, lastProject, lastExternalRef, fileDependencyMap, snippetDependencyMap)
  {
    StoreDocumentEdited(Store(analysis.value, files, packages, snippets), d);
  }

  /** A store stays well formed when its document keeps its elements. */
  lemma StoreDocumentEdited(st: Store, d: Document)
    requires StoreWf(st) && d.elements == st.doc.elements
    ensures StoreWf(st.(doc := d))
  {
    var r := st.(doc := d);
    forall k | 0 <= k < |r.doc.elements|
      ensures ValidRef(r, r.doc.elements[k])
    {
      assert ValidRef(st, st.doc.elements[k]);
    }
  }

  /** Replacing the store by one with the same shape keeps the indices valid. */
  lemma SameShapeCore(
    a: Store, b: Store,
    lastFile: Option<nat>, lastSnippet: Option<nat>, lastPackage: Option<nat>, lastExtractedLicense: Option<nat>,
    lastReviewer: Option<nat>, lastProject: Option<Loc>, lastExternalRef: Option<Loc>,
    fileDependencyMap: map<string, seq<nat>>, snippetDependencyMap: map<string, seq<nat>>)
    requires CoreOf(Some(a.doc), a.files, a.packages, a.snippets, lastFile, lastSnippet, lastPackage, lastExtractedLicense,
                    lastReviewer, lastProject, lastExternalRef, fileDependencyMap, snippetDependencyMap)
    requires SameShape(a, b) && StoreWf(b)
    ensures CoreOf(Some(b.doc), b.files, b.packages, b.snippets, lastFile, lastSnippet, lastPackage, lastExtractedLicense,
                   lastReviewer, lastProject, lastExternalRef, fileDependencyMap, snippetDependencyMap)
  {
    assert b.doc.extractedLicenses == a.doc.extractedLicenses && b.doc.reviewers == a.doc.reviewers;
    if lastProject.Some? {
      var o := lastProject.value.owner;
      assert b.files[o].(item := a.files[o].item) == a.files[o];
    }
    if lastExternalRef.Some? {
      var o := lastExternalRef.value.owner;
      assert b.packages[o].(item := a.packages[o].item) == a.packages[o];
    }
  }

  /** The dependency pass keeps the indices valid: the files keep their
    * projects, no store changes length, and what is left of the two maps is
    * part of what was there. */
  lemma PassedCore(
    analysis: Option<Document>, files: seq<SpdxFile>, packages: seq<SpdxPackage>, snippets: seq<Snippet>,
    lastFile: Option<nat>, lastSnippet: Option<nat>, lastPackage: Option<nat>, lastExtractedLicense: Option<nat>,
    lastReviewer: Option<nat>, lastProject: Option<Loc>, lastExternalRef: Option<Loc>,
    fileDependencyMap: map<string, seq<nat>>, snippetDependencyMap: map<string, seq<nat>>,
    files': seq<SpdxFile>, snippets': seq<Snippet>, fileMap: map<string, seq<nat>>, snippetMap: map<string, seq<nat>>)
    requires analysis.Some?
    requires CoreOf(analysis, files, packages, snippets, lastFile, lastSnippet, lastPackage, lastExtractedLicense,
                    lastReviewer, lastProject, lastExternalRef, fileDependencyMap, snippetDependencyMap)
    requires |files'| == |files| && |snippets'| == |snippets|
    requires forall i :: 0 <= i < |files| ==> files'[i].artifactOf == files[i].artifactOf
    requires forall n :: n in fileMap ==> n in fileDependencyMap && fileMap[n] == fileDependencyMap[n]
    requires forall n :: n in snippetMap ==> n in snippetDependencyMap && snippetMap[n] == snippetDependencyMap[n]
    ensures CoreOf(analysis, files', packages, snippets', lastFile, lastSnippet, lastPackage, lastExtractedLicense,
                   lastReviewer, lastProject, lastExternalRef, fileMap, snippetMap)
  {
    StoreWfGrows(Store(analysis.value, files, packages, snippets), files', packages, snippets');
  }

  // ---------------------------------------------------------------- external reference comments

  /** A location naming an external reference of a stored package. */
  predicate RefAt(packages: seq<SpdxPackage>, l: Loc)
  {
    l.owner < |packages| && packages[l.owner].externalRefs.Some? && l.pos < |packages[l.owner].externalRefs.value|
  }

  /** ExternalRefComment's error: there is no last external reference, or it
    * already carries a non-empty comment. */
  function ExternalRefCommentError(packages: seq<SpdxPackage>, last: Option<Loc>, value: string): (r: Option<string>)
    requires last.Some? ==> RefAt(packages, last.value)
    ensures last.None? ==> r == Some(COMMENT_WITHOUT_EXTERNAL_REF + value)
    ensures last.Some? ==>
      var c := packages[last.value.owner].externalRefs.value[last.value.pos].comment;
      && (r.Some? <==> c.Some? && c.value != "")
      && (r.Some? ==> r.value == SECOND_EXTERNAL_REF_COMMENT + value)
  {
    if last.None? then Some(COMMENT_WITHOUT_EXTERNAL_REF + value)
    else
      var c := packages[last.value.owner].externalRefs.value[last.value.pos].comment;
      if c.Some? && c.value != "" then Some(SECOND_EXTERNAL_REF_COMMENT + value) else None
  }

  /** The packages after ExternalRefComment: unchanged on an error, otherwise
    * the last external reference carries the comment and nothing else
    * differs. */
  function ExternalRefCommented(packages: seq<SpdxPackage>, last: Option<Loc>, value: string): (r: seq<SpdxPackage>)
    requires last.Some? ==> RefAt(packages, last.value)
    ensures |r| == |packages|
    ensures ExternalRefCommentError(packages, last, value).Some? ==> r == packages
    ensures ExternalRefCommentError(packages, last, value).None? ==>
      var l := last.value;
      var refs := packages[l.owner].externalRefs.value;
      && (forall i :: 0 <= i < |r| && i != l.owner ==> r[i] == packages[i])
      && r[l.owner] == packages[l.owner].(externalRefs := Some(refs[l.pos := refs[l.pos].(comment := Some(value))]))
  {
    if ExternalRefCommentError(packages, last, value).Some? then packages
    else
      var l := last.value;
      var refs := packages[l.owner].externalRefs.value;
      packages[l.owner := packages[l.owner].(externalRefs := Some(refs[l.pos := refs[l.pos].(comment := Some(value))]))]
  }

  // ---------------------------------------------------------------- document-level messages and tags

  const MISSING_REVIEWER: string := "Missing Reviewer - A reviewer must be provided before a review "
  const NOT_DOCUMENT_TAG: string := "Expecting a definition of a file, package, license information, or document property at "

  /** The error for an ElementID at document level other than the document's own. */
  function DocumentIdError(value: string): string
  {
    "SPDX Document " + value + " is invalid.  Document IDs must be " + SPDX_DOCUMENT_ID
  }

  /** The error for an annotation tag when no annotation is open. */
  function OutsideAnnotationError(t: Tag, value: string): string
    requires AnnotationTags(t)
  {
    var what := match t
      case AnnotationDate => "date"
      case AnnotationComment => "comment"
      case AnnotationId => "ID"
      case AnnotationType => "type";
    "Annotation " + what + " found outside of an annotation: " + value
  }

  /** The document properties that may come before the namespace. */
  predicate HeaderTag(t: Tag)
  {
    t in {SpdxVersion, SpdxDataLicense, DocumentName, DocumentNamespace, ElementId}
  }

  /** The document properties that need the document. */
  predicate RecordTag(t: Tag)
  {
    t == ExternalDocUri || CreationTag(t) || t in {SpdxComment, ReviewReviewer, ReviewDate, ReviewComment, LicenseId}
  }

  /** The tags that start an element at document level. */
  predicate ElementTag(t: Tag)
  {
    t in {PackageDeclaredName, FileName, SnippetSpdxId}
  }

  /** Every tag the document level reads. */
  predicate DocumentTag(t: Tag)
  {
    HeaderTag(t) || RecordTag(t) || ElementTag(t) || SharedTag(t) || AnnotationTags(t)
  }

  /** The document a DocumentNamespace creates: the namespace, the version,
    * data license and name read so far, and nothing else. */
  function NamespacedDocument(namespace: string, specVersion: Option<string>, dataLicense: Option<DataLicense>,
                              name: Option<string>): (r: Document)
    ensures r.namespace == namespace && r.specVersion == specVersion && r.dataLicense == dataLicense
    ensures r.item.name == name && r.item.id.None? && r.creationInfo.None?
    ensures r.elements == [] && r.extractedLicenses == [] && r.reviewers == [] && r.externalDocRefs == []
  {
    var d := NewDocument(namespace, specVersion);
    d.(dataLicense := dataLicense, item := d.item.(name := name))
  }

  class Builder {
    var analysis: Option<Document>
    var files: seq<SpdxFile>
    var packages: seq<SpdxPackage>
    var snippets: seq<Snippet>
    var specVersion: Option<string>
    var dataLicense: Option<DataLicense>
    var documentName: Option<string>
    var inPackageDefinition: bool
    var inFileDefinition: bool
    var inSnippetDefinition: bool
    var inAnnotation: bool
    var inExtractedLicenseDefinition: bool
    var lastFile: Option<nat>
    var lastSnippet: Option<nat>
    var lastPackage: Option<nat>
    var lastExtractedLicense: Option<nat>
    var lastReviewer: Option<nat>
    var lastProject: Option<Loc>
    var lastExternalRef: Option<Loc>
    var lastAnnotation: Option<AnnotationWithId>
    var annotations: seq<AnnotationWithId>
    var lastRelationship: Option<TagParsers.PendingRelationship>
    var relationships: seq<TagParsers.PendingRelationship>
    var fileDependencyMap: map<string, seq<nat>>
    var snippetDependencyMap: map<string, seq<nat>>
    var warnings: seq<string>

    /** The document and the records it refers to. */
    function Store(): TagStore.Store
      reads this`analysis, this`files, this`packages, this`snippets
      requires analysis.Some?
    {
      TagStore.Store(analysis.value, files, packages, snippets)
    }

    ghost predicate Core()
      reads this`analysis, this`files, this`packages, this`snippets, this`lastFile, this`lastSnippet,
            this`lastPackage, this`lastExtractedLicense, this`lastReviewer, this`lastProject,
            this`lastExternalRef, this`fileDependencyMap, this`snippetDependencyMap
    {
      CoreOf(analysis, files, packages, snippets, lastFile, lastSnippet, lastPackage, lastExtractedLicense,
             lastReviewer, lastProject, lastExternalRef, fileDependencyMap, snippetDependencyMap)
    }

    ghost predicate Valid()
      reads this`analysis, this`files, this`packages, this`snippets, this`lastFile, this`lastSnippet,
            this`lastPackage, this`lastExtractedLicense, this`lastReviewer, this`lastProject,
            this`lastExternalRef, this`fileDependencyMap, this`snippetDependencyMap,
            this`inAnnotation, this`inFileDefinition, this`inSnippetDefinition, this`inPackageDefinition,
            this`inExtractedLicenseDefinition, this`lastAnnotation
    {
      && Core()
      && FlagsOf(inAnnotation, inFileDefinition, inSnippetDefinition, inPackageDefinition, inExtractedLicenseDefinition,
                 lastAnnotation, lastFile, lastSnippet, lastPackage, lastExtractedLicense)
    }

    /** A new builder: nothing open, nothing recorded, no document yet. */
    constructor()
      ensures Valid()
      ensures analysis.None? && files == [] && packages == [] && snippets == []
      ensures specVersion.None? && dataLicense.None? && documentName.None?
      ensures !inPackageDefinition && !inFileDefinition && !inSnippetDefinition && !inAnnotation && !inExtractedLicenseDefinition
      ensures lastFile.None? && lastSnippet.None? && lastPackage.None? && lastExtractedLicense.None? && lastReviewer.None?
      ensures lastProject.None? && lastExternalRef.None? && lastAnnotation.None? && lastRelationship.None?
      ensures annotations == [] && relationships == [] && fileDependencyMap == map[] && snippetDependencyMap == map[]
      ensures warnings == []
    {
      analysis := None;
      files := [];
      packages := [];
      snippets := [];
      specVersion := None;
      dataLicense := None;
      documentName := None;
      inPackageDefinition := false;
      inFileDefinition := false;
      inSnippetDefinition := false;
      inAnnotation := false;
      inExtractedLicenseDefinition := false;
      lastFile := None;
      lastSnippet := None;
      lastPackage := None;
      lastExtractedLicense := None;
      lastReviewer := None;
      lastProject := None;
      lastExternalRef := None;
      lastAnnotation := None;
      annotations := [];
      lastRelationship := None;
      relationships := [];
      fileDependencyMap := map[];
      snippetDependencyMap := map[];
      warnings := [];
    }

    // ------------------------------------------------------------ shared by every element builder

    /** Annotator: the open annotation is queued and a new one opened. */
    method StartAnnotation(value: string)
      requires Valid()
      modifies this`annotations, this`inAnnotation, this`lastAnnotation
      ensures Valid()
      ensures annotations == Pushed(old(annotations), old(lastAnnotation))
      ensures inAnnotation && lastAnnotation == Some(NewAnnotation(value))
    {
      annotations, lastAnnotation := Pushed(annotations, lastAnnotation), Some(NewAnnotation(value));
      EnterAnnotation();
    }

    /** The last annotation is the one open. */
    method EnterAnnotation()
      requires Valid() && lastAnnotation.Some?
      modifies this`inAnnotation
      ensures Valid() && inAnnotation
    {
      inAnnotation := true;
    }

    /** Relationship: the open relationship is queued, then the value as read
      * is the new one; a value that does not read leaves no new one open. */
    method QueueRelationship(parsed: Result<TagParsers.PendingRelationship>)
      requires Valid()
      modifies this`relationships, this`lastRelationship
      ensures Valid()
      ensures relationships == Pushed(old(relationships), old(lastRelationship))
      ensures lastRelationship == if parsed.Ok? then Some(parsed.value) else old(lastRelationship)
    {
      relationships := Pushed(relationships, lastRelationship);
      if parsed.Ok? {
        lastRelationship := Some(parsed.value);
      }
    }

    /** RelationshipComment: the comment of the open relationship. */
    method CommentRelationship(value: string) returns (err: Option<string>)
      requires Valid()
      modifies this`lastRelationship
      ensures Valid()
      ensures err.Some? <==> old(lastRelationship).None?
      ensures err.Some? ==> err.value == COMMENT_OUTSIDE_RELATIONSHIP + value && lastRelationship == old(lastRelationship)
      ensures err.None? ==> lastRelationship == Some(old(lastRelationship).value.(comment := Some(value)))
    {
      if lastRelationship.None? {
        return Some(COMMENT_OUTSIDE_RELATIONSHIP + value);
      }
      lastRelationship := Some(lastRelationship.value.(comment := Some(value)));
      err := None;
    }

    /** The tags every element builder shares: an annotation, a relationship,
      * a relationship comment. */
    method BuildShared(t: Tag, value: string, cat: Catalog) returns (err: Option<string>)
      requires Valid() && SharedTag(t)
      modifies this`annotations, this`inAnnotation, this`lastAnnotation, this`relationships, this`lastRelationship
      ensures Valid()
      ensures t == Annotator ==>
        && err.None? && annotations == Pushed(old(annotations), old(lastAnnotation))
        && inAnnotation && lastAnnotation == Some(NewAnnotation(value))
        && relationships == old(relationships) && lastRelationship == old(lastRelationship)
      ensures t == RelationshipTag ==>
        var parsed := TagParsers.ParseRelationship(value, cat);
        && err == (if parsed.Err? then Some(parsed.error) else None)
        && relationships == Pushed(old(relationships), old(lastRelationship))
        && lastRelationship == (if parsed.Ok? then Some(parsed.value) else old(lastRelationship))
        && annotations == old(annotations) && lastAnnotation == old(lastAnnotation) && inAnnotation == old(inAnnotation)
      ensures t == RelationshipComment ==>
        && (err.Some? <==> old(lastRelationship).None?)
        && (err.Some? ==> err.value == COMMENT_OUTSIDE_RELATIONSHIP + value && lastRelationship == old(lastRelationship))
        && (err.None? ==> lastRelationship == Some(old(lastRelationship).value.(comment := Some(value))))
        && relationships == old(relationships)
        && annotations == old(annotations) && lastAnnotation == old(lastAnnotation) && inAnnotation == old(inAnnotation)
    {
      if t == Annotator {
        StartAnnotation(value);
        err := None;
      } else if t == RelationshipTag {
        var parsed := TagParsers.ParseRelationship(value, cat);
        QueueRelationship(parsed);
        err := if parsed.Err? then Some(parsed.error) else None;
      } else {
        err := CommentRelationship(value);
      }
    }

    // ------------------------------------------------------------ closing an open entity

    /** A warning is recorded when the condition holds. */
    method WarnIf(cond: bool, w: string)
      requires Core()
      modifies this`warnings
      ensures Core()
      ensures warnings == if cond then old(warnings) + [w] else old(warnings)
    {
      if cond {
        warnings := warnings + [w];
      }
    }

    /** A stored file goes into the package, or into the document when there
      * is no package. */
    method AttachFile(f: nat, pkg: Option<nat>)
      requires Core() && f < |files| && analysis.Some?
      requires pkg.Some? ==> pkg.value < |packages|
      modifies this`packages, this`analysis
      ensures Core()
      ensures pkg.Some? ==> packages == old(packages)[pkg.value := SpdxPackageModel.AddFile(old(packages)[pkg.value], Some(f))] && analysis == old(analysis)
      ensures pkg.None? ==> packages == old(packages) && analysis == Some(old(analysis).value.(elements := old(analysis).value.elements + [FileElement(f)]))
    {
      if pkg.Some? {
        AddPackageFileWf(Store(), pkg.value, f);
        packages := packages[pkg.value := SpdxPackageModel.AddFile(packages[pkg.value], Some(f))];
      } else {
        AddElementWf(Store(), FileElement(f));
        analysis := Some(analysis.value.(elements := analysis.value.elements + [FileElement(f)]));
      }
    }

    /** An element in the store goes into the document. */
    method AttachElement(e: ElementRef)
      requires Core() && analysis.Some? && ValidRef(Store(), e)
      modifies this`analysis
      ensures Core()
      ensures analysis == Some(old(analysis).value.(elements := old(analysis).value.elements + [e]))
    {
      AddElementWf(Store(), e);
      analysis := Some(analysis.value.(elements := analysis.value.elements + [e]));
    }

    /** addLastFile: the open file, if any, goes into the last package when there
      * is one and into the document otherwise, with a warning when it has no
      * SPDX ID; no file is open afterwards. */
    method AddLastFile()
      requires Core()
      modifies this`lastFile, this`warnings, this`packages, this`analysis
      ensures Core() && lastFile.None?
      ensures old(lastFile).None? ==> warnings == old(warnings) && packages == old(packages) && analysis == old(analysis)
      ensures old(lastFile).Some? ==>
        var f := old(lastFile).value;
        warnings == if files[f].item.id.None? then old(warnings) + [MissingIdWarning(NullToText(files[f].item.name), "file")] else old(warnings)
      ensures old(lastFile).Some? && lastPackage.Some? ==>
        && packages == old(packages)[lastPackage.value := SpdxPackageModel.AddFile(old(packages)[lastPackage.value], old(lastFile))]
        && analysis == old(analysis)
      ensures old(lastFile).Some? && lastPackage.None? ==>
        && packages == old(packages)
        && analysis == Some(old(analysis).value.(elements := old(analysis).value.elements + [FileElement(old(lastFile).value)]))
    {
      if lastFile.Some? {
        var f := lastFile.value;
        WarnIf(files[f].item.id.None?, MissingIdWarning(NullToText(files[f].item.name), "file"));
        AttachFile(f, lastPackage);
      }
      lastFile := None;
    }

    /** addLastSnippet: the open snippet, if any, goes into the document, with a
      * warning when it has no SPDX ID; no snippet is open afterwards. */
    method AddLastSnippet(env: Env)
      requires Core()
      modifies this`lastSnippet, this`warnings, this`analysis
      ensures Core() && lastSnippet.None?
      ensures old(lastSnippet).None? ==> warnings == old(warnings) && analysis == old(analysis)
      ensures old(lastSnippet).Some? ==>
        var s := old(lastSnippet).value;
        && warnings == (if snippets[s].item.id.None? then old(warnings) + [MissingIdWarning(env.snippetText(snippets[s]), "file")] else old(warnings))
        && analysis == Some(old(analysis).value.(elements := old(analysis).value.elements + [SnippetElement(s)]))
    {
      if lastSnippet.Some? {
        var s := lastSnippet.value;
        WarnIf(snippets[s].item.id.None?, MissingIdWarning(env.snippetText(snippets[s]), "file"));
        AttachElement(SnippetElement(s));
      }
      lastSnippet := None;
    }

    /** The last package goes into the document, with a warning when it has no
      * SPDX ID. */
    method AddLastPackage()
      requires Core()
      modifies this`warnings, this`analysis
      ensures Core()
      ensures lastPackage.None? ==> warnings == old(warnings) && analysis == old(analysis)
      ensures lastPackage.Some? ==>
        var p := lastPackage.value;
        && warnings == (if packages[p].item.id.None? then old(warnings) + [MissingIdWarning(NullToText(packages[p].item.name), "package")] else old(warnings))
        && analysis == Some(old(analysis).value.(elements := old(analysis).value.elements + [PackageElement(p)]))
    {
      if lastPackage.Some? {
        var p := lastPackage.value;
        WarnIf(packages[p].item.id.None?, MissingIdWarning(NullToText(packages[p].item.name), "package"));
        AttachElement(PackageElement(p));
      }
    }

    /** checkAnalysisNull: without a document, a version before SPDX-2.0 gets
      * one with a generated namespace; anything else is an error. */
    method CheckAnalysisNull(env: Env) returns (err: Option<string>)
      requires Core()
      modifies this`analysis
      ensures Core()
      ensures err.None? <==> analysis.Some?
      ensures old(analysis).Some? ==> err.None? && analysis == old(analysis)
      ensures old(analysis).None? ==>
        if specVersion.Some? && CompareTo(specVersion.value, "SPDX-2.0") < 0
        then err.None? && analysis == Some(NewDocument(GENERATED_NAMESPACE_PREFIX + env.uuid, None))
        else err == Some(NAMESPACE_FIRST) && analysis.None?
    {
      err := None;
      if analysis.None? {
        if specVersion.Some? && CompareTo(specVersion.value, "SPDX-2.0") < 0 {
          analysis := Some(NewDocument(GENERATED_NAMESPACE_PREFIX + env.uuid, None));
        } else {
          err := Some(NAMESPACE_FIRST);
        }
      }
    }

    // ------------------------------------------------------------ annotations

    /** The open annotation takes a new value. */
    method SetAnnotation(a: AnnotationWithId)
      requires Valid() && lastAnnotation.Some?
      modifies this`lastAnnotation
      ensures Valid() && lastAnnotation == Some(a)
    {
      lastAnnotation := Some(a);
    }

    /** buildAnnotation: a property of the open annotation; an annotation type
      * that is not known is an error and changes nothing. */
    method BuildAnnotation(t: Tag, value: string, cat: Catalog) returns (err: Option<string>)
      requires Valid() && inAnnotation
      modifies this`lastAnnotation
      ensures Valid()
      ensures var r := ApplyAnnotationProperty(old(lastAnnotation).value, t, value, cat);
        && (err.Some? <==> r.Err?)
        && (r.Err? ==> err == Some(r.error) && lastAnnotation == old(lastAnnotation))
        && (r.Ok? ==> lastAnnotation == Some(r.value))
    {
      var r := ApplyAnnotationProperty(lastAnnotation.value, t, value, cat);
      if r.Err? {
        return Some(r.error);
      }
      SetAnnotation(r.value);
      err := None;
    }

    // ------------------------------------------------------------ files and their projects

    /** Warnings are recorded in order. */
    method AddWarnings(ws: seq<string>)
      modifies this`warnings
      ensures warnings == old(warnings) + ws
    {
      warnings := warnings + ws;
    }

    /** The stored file f takes a new value with as many projects. */
    method SetFile(f: nat, g: SpdxFile)
      requires Valid() && f < |files| && |g.artifactOf| == |files[f].artifactOf|
      modifies this`files
      ensures Valid() && files == old(files)[f := g]
    {
      files := files[f := g];
    }

    /** The stored file f takes new projects, and the last project is the one at pos. */
    method SetProjects(f: nat, projects: seq<DoapProject>, pos: nat)
      requires Valid() && f < |files| && pos < |projects|
      modifies this`files, this`lastProject
      ensures Valid()
      ensures files == old(files)[f := SpdxFileModel.SetArtifactOf(old(files)[f], Some(projects))]
      ensures lastProject == Some(Loc(f, pos))
    {
      files := files[f := SpdxFileModel.SetArtifactOf(files[f], Some(projects))];
      lastProject := Some(Loc(f, pos));
    }

    /** The stored file f is recorded as depending on the file named. */
    method AddFileDependency(name: string, f: nat)
      requires Valid() && f < |files|
      modifies this`fileDependencyMap
      ensures Valid()
      ensures fileDependencyMap == old(fileDependencyMap)[name := Waiting(old(fileDependencyMap), name) + [f]]
    {
      fileDependencyMap := fileDependencyMap[name := Waiting(fileDependencyMap, name) + [f]];
    }

    /** A property of the stored file f, with the warnings it produces. */
    method SetFileProperty(f: nat, t: Tag, value: string, cat: Catalog) returns (err: Option<string>)
      requires Valid() && f < |files| && FileProperty(t)
      modifies this`files, this`warnings
      ensures Valid()
      ensures var r := ApplyFileProperty(old(files)[f], t, value, cat);
        && (err.Some? <==> r.Err?)
        && (r.Err? ==> err == Some(r.error) && files == old(files) && warnings == old(warnings))
        && (r.Ok? ==> files == old(files)[f := r.value.0] && warnings == old(warnings) + r.value.1)
    {
      var r := ApplyFileProperty(files[f], t, value, cat);
      if r.Err? {
        return Some(r.error);
      }
      FileListsGrowAtEnd(files[f], t, value, cat);
      SetFile(f, r.value.0);
      AddWarnings(r.value.1);
      err := None;
    }

    /** buildProject: ProjectName adds a project to the file and makes it the
      * last project; ProjectHomePage sets the last project's home page, wherever
      * that project is; ProjectURI replaces the last project, kept in place when
      * it is among the file's projects and appended otherwise, by one with the
      * URI. Without a last project those two are errors; any other tag is one. */
    method BuildProject(tagText: string, f: nat, t: Tag, value: string) returns (err: Option<string>)
      requires Valid() && f < |files|
      modifies this`files, this`lastProject
      ensures Valid()
      ensures t == ProjectName ==>
        && err.None?
        && files == old(files)[f := SpdxFileModel.SetArtifactOf(old(files)[f], Some(old(files)[f].artifactOf + [DoapProject(Some(value), None, None)]))]
        && lastProject == Some(Loc(f, |old(files)[f].artifactOf|))
      ensures t in {ProjectHomepage, ProjectUri} && old(lastProject).None? ==>
        err == Some(MISSING_PROJECT_NAME) && files == old(files) && lastProject == old(lastProject)
      ensures t == ProjectHomepage && old(lastProject).Some? ==>
        var l := old(lastProject).value;
        var ps := old(files)[l.owner].artifactOf;
        && err.None?
        && files == old(files)[l.owner := SpdxFileModel.SetArtifactOf(old(files)[l.owner], Some(ps[l.pos := ps[l.pos].(homePage := Some(value))]))]
        && lastProject == old(lastProject)
      ensures t == ProjectUri && old(lastProject).Some? ==>
        var l := old(lastProject).value;
        var p := old(files)[l.owner].artifactOf[l.pos];
        var ps := old(files)[f].artifactOf;
        var i := if l.owner == f then l.pos else |ps|;
        && err.None?
        && files == old(files)[f := SpdxFileModel.SetArtifactOf(old(files)[f], Some(ReplaceOrAppend(ps, i, DoapProject(p.name, p.homePage, Some(value)))))]
        && lastProject == Some(Loc(f, i))
      ensures t !in {ProjectName, ProjectHomepage, ProjectUri} ==>
        err == Some("Unrecognized tag: " + tagText) && files == old(files) && lastProject == old(lastProject)
    {
      err := None;
      if t == ProjectName {
        var ps := files[f].artifactOf;
        SetProjects(f, ps + [DoapProject(Some(value), None, None)], |ps|);
      } else if t == ProjectHomepage || t == ProjectUri {
        if lastProject.None? {
          return Some(MISSING_PROJECT_NAME);
        }
        var l := lastProject.value;
        var p := files[l.owner].artifactOf[l.pos];
        if t == ProjectHomepage {
          var ps := files[l.owner].artifactOf;
          SetProjects(l.owner, ps[l.pos := p.(homePage := Some(value))], l.pos);
        } else {
          var ps := files[f].artifactOf;
          var i := if l.owner == f then l.pos else |ps|;
          SetProjects(f, ReplaceOrAppend(ps, i, DoapProject(p.name, p.homePage, Some(value))), i);
        }
      } else {
        err := Some("Unrecognized tag: " + tagText);
      }
    }

    /** buildFile: a property of the open file, with the warnings it produces; a
      * dependency recorded until every file is known; the shared tags; anything
      * else is read as a project tag. */
    method BuildFile(tagText: string, t: Tag, value: string, cat: Catalog) returns (err: Option<string>)
      requires Valid() && inFileDefinition
      modifies this`files, this`warnings, this`fileDependencyMap, this`lastProject,
               this`annotations, this`inAnnotation, this`lastAnnotation, this`relationships, this`lastRelationship
      ensures Valid()
      ensures t == FileDependency ==> err.None?
      ensures !FileProperty(t) && !SharedTag(t) && t !in {FileDependency, ProjectName, ProjectHomepage, ProjectUri} ==>
        err == Some("Unrecognized tag: " + tagText)
    {
      var f := lastFile.value;
      if FileProperty(t) {
        err := SetFileProperty(f, t, value, cat);
      } else if t == FileDependency {
        AddFileDependency(value, f);
        err := None;
      } else if SharedTag(t) {
        err := BuildShared(t, value, cat);
      } else {
        err := BuildProject(tagText, f, t, value);
      }
    }

    // ------------------------------------------------------------ snippets

    /** The stored snippet i takes a new value. */
    method SetSnippet(i: nat, v: Snippet)
      requires Valid() && i < |snippets|
      modifies this`snippets
      ensures Valid() && snippets == old(snippets)[i := v]
    {
      snippets := snippets[i := v];
    }

    /** A property of the stored snippet i; a range or license that does not
      * read is an error and changes nothing. */
    method SetSnippetProperty(i: nat, t: Tag, value: string, cat: Catalog) returns (err: Option<string>)
      requires Valid() && i < |snippets| && SnippetProperty(t)
      modifies this`snippets
      ensures Valid()
      ensures var r := ApplySnippetProperty(old(snippets)[i], t, value, cat);
        && (err.Some? <==> r.Err?)
        && (r.Err? ==> err == Some(r.error) && snippets == old(snippets))
        && (r.Ok? ==> snippets == old(snippets)[i := r.value])
    {
      var r := ApplySnippetProperty(snippets[i], t, value, cat);
      if r.Err? {
        return Some(r.error);
      }
      SetSnippet(i, r.value);
      err := None;
    }

    /** The stored snippet i is recorded as being from the file named. */
    method AddSnippetDependency(name: string, i: nat)
      requires Valid() && i < |snippets|
      modifies this`snippetDependencyMap
      ensures Valid()
      ensures snippetDependencyMap == old(snippetDependencyMap)[name := Waiting(old(snippetDependencyMap), name) + [i]]
    {
      snippetDependencyMap := snippetDependencyMap[name := Waiting(snippetDependencyMap, name) + [i]];
    }

    /** buildSnippet: a property of the open snippet; the file it is from,
      * recorded until every file is known; the shared tags; anything else is
      * an error. */
    method BuildSnippet(tagText: string, t: Tag, value: string, cat: Catalog) returns (err: Option<string>)
      requires Valid() && inSnippetDefinition
      modifies this`snippets, this`snippetDependencyMap,
               this`annotations, this`inAnnotation, this`lastAnnotation, this`relationships, this`lastRelationship
      ensures Valid()
      ensures t == SnippetFromFileId ==> err.None?
      ensures !SnippetProperty(t) && !SharedTag(t) && t != SnippetFromFileId ==>
        err == Some("Error parsing snippet.  Unrecognized tag: " + tagText)
    {
      var i := lastSnippet.value;
      if SnippetProperty(t) {
        err := SetSnippetProperty(i, t, value, cat);
      } else if t == SnippetFromFileId {
        AddSnippetDependency(value, i);
        err := None;
      } else if SharedTag(t) {
        err := BuildShared(t, value, cat);
      } else {
        err := Some("Error parsing snippet.  Unrecognized tag: " + tagText);
      }
    }

    // ------------------------------------------------------------ packages

    /** The stored package p takes a new value with the same files and external
      * references. */
    method SetPackage(p: nat, v: SpdxPackage)
      requires Valid() && p < |packages|
      requires v.files == packages[p].files && v.externalRefs == packages[p].externalRefs
      modifies this`packages
      ensures Valid() && packages == old(packages)[p := v]
    {
      packages := packages[p := v];
    }

    /** A property of the stored package p; a value that does not read is an
      * error and changes nothing. */
    method SetPackageProperty(p: nat, t: Tag, value: string, cat: Catalog) returns (err: Option<string>)
      requires Valid() && p < |packages| && PackageProperty(t)
      modifies this`packages
      ensures Valid()
      ensures var r := ApplyPackageProperty(old(packages)[p], t, value, cat);
        && (err.Some? <==> r.Err?)
        && (r.Err? ==> err == Some(r.error) && packages == old(packages))
        && (r.Ok? ==> packages == old(packages)[p := r.value])
    {
      var r := ApplyPackageProperty(packages[p], t, value, cat);
      if r.Err? {
        return Some(r.error);
      }
      SetPackage(p, r.value);
      err := None;
    }

    /** The external reference is added at the end of package p's references
      * and is the last external reference. */
    method AppendExternalRef(p: nat, e: ExternalRef)
      requires Valid() && p < |packages|
      modifies this`packages, this`lastExternalRef
      ensures Valid()
      ensures packages == old(packages)[p := SpdxPackageModel.AddExternalRef(old(packages)[p], Some(e))]
      ensures lastExternalRef == Some(Loc(p, |old(packages)[p].externalRefs.GetOr([])|))
    {
      var n := |packages[p].externalRefs.GetOr([])|;
      packages := packages[p := SpdxPackageModel.AddExternalRef(packages[p], Some(e))];
      lastExternalRef := Some(Loc(p, n));
    }

    /** ExternalRef: the value read as an external reference of package p, with
      * the document namespace for a type that is neither listed nor a URI; a
      * value that does not read is an error and changes nothing. */
    method AddExternalRefTag(p: nat, value: string, cat: Catalog) returns (err: Option<string>)
      requires Valid() && p < |packages| && analysis.Some?
      modifies this`packages, this`lastExternalRef
      ensures Valid()
      ensures var r := TagParsers.ParseExternalRef(value, analysis.value.namespace, cat);
        && (err.Some? <==> r.Err?)
        && (r.Err? ==> err == Some(r.error) && packages == old(packages) && lastExternalRef == old(lastExternalRef))
        && (r.Ok? ==> packages == old(packages)[p := SpdxPackageModel.AddExternalRef(old(packages)[p], Some(r.value))]
                      && lastExternalRef == Some(Loc(p, |old(packages)[p].externalRefs.GetOr([])|)))
    {
      var r := TagParsers.ParseExternalRef(value, analysis.value.namespace, cat);
      if r.Err? {
        return Some(r.error);
      }
      AppendExternalRef(p, r.value);
      err := None;
    }

    /** ExternalRefComment: the comment of the last external reference, which
      * may be in an earlier package; it is an error when there is none or when
      * it already has a non-empty comment. */
    method CommentExternalRef(value: string) returns (err: Option<string>)
      requires Valid()
      modifies this`packages
      ensures Valid()
      ensures old(lastExternalRef).None? ==>
        err == Some(COMMENT_WITHOUT_EXTERNAL_REF + value) && packages == old(packages)
      ensures old(lastExternalRef).Some? ==>
        var l := old(lastExternalRef).value;
        var refs := old(packages)[l.owner].externalRefs.value;
        if refs[l.pos].comment.Some? && refs[l.pos].comment.value != "" then
          err == Some(SECOND_EXTERNAL_REF_COMMENT + value) && packages == old(packages)
        else
          err.None? && packages == old(packages)[l.owner := old(packages)[l.owner].(externalRefs := Some(refs[l.pos := refs[l.pos].(comment := Some(value))]))]
      ensures err == ExternalRefCommentError(old(packages), old(lastExternalRef), value)
      ensures packages == ExternalRefCommented(old(packages), old(lastExternalRef), value)
    {
      if lastExternalRef.None? {
        return Some(COMMENT_WITHOUT_EXTERNAL_REF + value);
      }
      var l := lastExternalRef.value;
      var refs := packages[l.owner].externalRefs.value;
      var e := refs[l.pos];
      if e.comment.Some? && e.comment.value != "" {
        return Some(SECOND_EXTERNAL_REF_COMMENT + value);
      }
      SetExternalRefs(l.owner, refs[l.pos := e.(comment := Some(value))]);
      err := None;
    }

    /** Package p takes new external references, as many as before. */
    method SetExternalRefs(p: nat, refs: seq<ExternalRef>)
      requires Valid() && p < |packages| && packages[p].externalRefs.Some? && |refs| == |packages[p].externalRefs.value|
      modifies this`packages
      ensures Valid() && packages == old(packages)[p := old(packages)[p].(externalRefs := Some(refs))]
    {
      packages := packages[p := packages[p].(externalRefs := Some(refs))];
    }

    /** A new file, stored and open; no snippet or annotation is open. */
    method StartFile(name: string)
      requires Core() && analysis.Some?
      requires inPackageDefinition ==> lastPackage.Some?
      requires inExtractedLicenseDefinition ==> lastExtractedLicense.Some?
      modifies this`files, this`lastFile, this`inFileDefinition, this`inSnippetDefinition, this`inAnnotation
      ensures Valid()
      ensures files == old(files) + [NewTagFile(name)] && lastFile == Some(|old(files)|)
      ensures inFileDefinition && !inSnippetDefinition && !inAnnotation
    {
      StoreFile(name);
      EnterFile();
    }

    /** The last file is the one open; no snippet or annotation is. */
    method EnterFile()
      requires Core() && lastFile.Some?
      requires inPackageDefinition ==> lastPackage.Some?
      requires inExtractedLicenseDefinition ==> lastExtractedLicense.Some?
      modifies this`inFileDefinition, this`inSnippetDefinition, this`inAnnotation
      ensures Valid()
      ensures inFileDefinition && !inSnippetDefinition && !inAnnotation
    {
      inFileDefinition, inSnippetDefinition, inAnnotation := true, false, false;
    }

    /** The new file is stored and is the last file. */
    method StoreFile(name: string)
      requires Core() && analysis.Some?
      modifies this`files, this`lastFile
      ensures Core() && files == old(files) + [NewTagFile(name)] && lastFile == Some(|old(files)|)
    {
      FileAddedCore(analysis, files, packages, snippets, lastSnippet, lastPackage, lastExtractedLicense,
                    lastReviewer, lastProject, lastExternalRef, fileDependencyMap, snippetDependencyMap, NewTagFile(name));
      files, lastFile := files + [NewTagFile(name)], Some(|files|);
    }

    /** A new snippet with the given SPDX ID, stored and open; no file, package
      * or annotation is open. */
    method StartSnippet(id: string)
      requires Core() && analysis.Some?
      requires inExtractedLicenseDefinition ==> lastExtractedLicense.Some?
      modifies this`snippets, this`lastSnippet, this`inSnippetDefinition, this`inFileDefinition,
               this`inPackageDefinition, this`inAnnotation
      ensures Valid()
      ensures snippets == old(snippets) + [NewSnippet(id)] && lastSnippet == Some(|old(snippets)|)
      ensures inSnippetDefinition && !inFileDefinition && !inPackageDefinition && !inAnnotation
    {
      StoreSnippet(id);
      EnterSnippet();
    }

    /** The last snippet is the one open; no file, package or annotation is. */
    method EnterSnippet()
      requires Core() && lastSnippet.Some?
      requires inExtractedLicenseDefinition ==> lastExtractedLicense.Some?
      modifies this`inSnippetDefinition, this`inFileDefinition, this`inPackageDefinition, this`inAnnotation
      ensures Valid()
      ensures inSnippetDefinition && !inFileDefinition && !inPackageDefinition && !inAnnotation
    {
      inSnippetDefinition, inFileDefinition, inPackageDefinition, inAnnotation := true, false, false, false;
    }

    /** The new snippet is stored and is the last snippet. */
    method StoreSnippet(id: string)
      requires Core() && analysis.Some?
      modifies this`snippets, this`lastSnippet
      ensures Core() && snippets == old(snippets) + [NewSnippet(id)] && lastSnippet == Some(|old(snippets)|)
    {
      SnippetAddedCore(analysis, files, packages, snippets, lastFile, lastSnippet, lastPackage, lastExtractedLicense,
                       lastReviewer, lastProject, lastExternalRef, fileDependencyMap, snippetDependencyMap, NewSnippet(id));
      snippets, lastSnippet := snippets + [NewSnippet(id)], Some(|snippets|);
    }

    /** The definitions named are no longer open: the annotation, the file, the
      * snippet, the package. */
    /** The open annotation is no longer open. */
    method EndAnnotation()
      requires Valid()
      modifies this`inAnnotation
      ensures Valid() && !inAnnotation
    {
      inAnnotation := false;
    }

    /** The open file is no longer open. */
    method EndFile()
      requires Valid()
      modifies this`inFileDefinition
      ensures Valid() && !inFileDefinition
    {
      inFileDefinition := false;
    }

    /** The open snippet is no longer open. */
    method EndSnippet()
      requires Valid()
      modifies this`inSnippetDefinition
      ensures Valid() && !inSnippetDefinition
    {
      inSnippetDefinition := false;
    }

    /** The open package is no longer open. */
    method EndPackage()
      requires Valid()
      modifies this`inPackageDefinition
      ensures Valid() && !inPackageDefinition
    {
      inPackageDefinition := false;
    }

    /** FileName: the open file, if any, is attached and a new one opened. */
    method OpenFile(name: string)
      requires Valid() && analysis.Some?
      modifies this`lastFile, this`warnings, this`packages, this`analysis, this`files,
               this`inFileDefinition, this`inSnippetDefinition, this`inAnnotation
      ensures Valid()
      ensures files == old(files) + [NewTagFile(name)] && lastFile == Some(|old(files)|)
      ensures inFileDefinition && !inSnippetDefinition && !inAnnotation
      ensures old(lastFile).None? ==> warnings == old(warnings) && packages == old(packages) && analysis == old(analysis)
    {
      AddLastFile();
      StartFile(name);
    }

    /** SnippetSPDXID: the open snippet, if any, is attached and a new one opened. */
    method OpenSnippet(env: Env, id: string)
      requires Valid() && analysis.Some?
      modifies this`lastSnippet, this`warnings, this`analysis, this`snippets,
               this`inSnippetDefinition, this`inFileDefinition, this`inPackageDefinition, this`inAnnotation
      ensures Valid()
      ensures snippets == old(snippets) + [NewSnippet(id)] && lastSnippet == Some(|old(snippets)|)
      ensures inSnippetDefinition && !inFileDefinition && !inPackageDefinition && !inAnnotation
      ensures old(lastSnippet).None? ==> warnings == old(warnings) && analysis == old(analysis)
    {
      AddLastSnippet(env);
      StartSnippet(id);
    }

    /** The tags that change the package record or its external references. */
    method BuildPackageRecord(p: nat, t: Tag, value: string, cat: Catalog) returns (err: Option<string>)
      requires Valid() && p < |packages| && (PackageProperty(t) || t == ExternalReference || t == ExternalReferenceComment)
      modifies this`packages, this`lastExternalRef
      ensures Valid()
      ensures t != ExternalReference && t != ExternalReferenceComment ==>
        var r := ApplyPackageProperty(old(packages)[p], t, value, cat);
        && (err.Some? <==> r.Err?)
        && (r.Err? ==> err == Some(r.error) && packages == old(packages))
        && (r.Ok? ==> packages == old(packages)[p := r.value])
        && lastExternalRef == old(lastExternalRef)
      ensures t == ExternalReference && analysis.Some? ==>
        var r := TagParsers.ParseExternalRef(value, analysis.value.namespace, cat);
        && (err.Some? <==> r.Err?)
        && (r.Err? ==> err == Some(r.error) && packages == old(packages) && lastExternalRef == old(lastExternalRef))
        && (r.Ok? ==> packages == old(packages)[p := SpdxPackageModel.AddExternalRef(old(packages)[p], Some(r.value))]
                      && lastExternalRef == Some(Loc(p, |old(packages)[p].externalRefs.GetOr([])|)))
      ensures t == ExternalReferenceComment ==>
        && lastExternalRef == old(lastExternalRef)
        && err == ExternalRefCommentError(old(packages), old(lastExternalRef), value)
        && packages == ExternalRefCommented(old(packages), old(lastExternalRef), value)
    {
      if t == ExternalReference {
        err := AddExternalRefTag(p, value, cat);
      } else if t == ExternalReferenceComment {
        err := CommentExternalRef(value);
      } else {
        err := SetPackageProperty(p, t, value, cat);
      }
    }

    /** buildPackage: a property of the open package; an external reference and
      * its comment; the shared tags; FileName opens a file in the package and
      * SnippetSPDXID a snippet; anything else is an error. */
    method BuildPackage(t: Tag, value: string, env: Env, cat: Catalog) returns (err: Option<string>)
      requires Valid() && inPackageDefinition
      modifies this`packages, this`lastExternalRef,
               this`annotations, this`inAnnotation, this`lastAnnotation, this`relationships, this`lastRelationship,
               this`lastFile, this`warnings, this`analysis, this`files, this`inFileDefinition,
               this`lastSnippet, this`snippets, this`inSnippetDefinition, this`inPackageDefinition
      ensures Valid()
      ensures t in {FileName, SnippetSpdxId} ==> err.None?
      ensures !PackageBuilderTag(t) ==> err == Some(NOT_PACKAGE_TAG + value)
    {
      err := None;
      if !PackageBuilderTag(t) {
        err := Some(NOT_PACKAGE_TAG + value);
      } else if t == FileName {
        OpenFile(value);
      } else if t == SnippetSpdxId {
        OpenSnippet(env, value);
      } else if SharedTag(t) {
        err := BuildShared(t, value, cat);
      } else {
        err := BuildPackageRecord(lastPackage.value, t, value, cat);
      }
    }

    // ------------------------------------------------------------ extracted licenses

    /** buildExtractedLicense: a property of the last extracted license, which
      * is in the document; the license text tag and any other tag change nothing. */
    method BuildExtractedLicense(t: Tag, value: string)
      requires Valid() && inExtractedLicenseDefinition
      modifies this`analysis
      ensures Valid()
      ensures var ls := old(analysis).value.extractedLicenses;
        var i := lastExtractedLicense.value;
        analysis == Some(old(analysis).value.(extractedLicenses := ls[i := ApplyExtractedLicenseProperty(ls[i], t, value)]))
    {
      var ls := analysis.value.extractedLicenses;
      var i := lastExtractedLicense.value;
      analysis := Some(analysis.value.(extractedLicenses := ls[i := ApplyExtractedLicenseProperty(ls[i], t, value)]));
    }

    // ------------------------------------------------------------ document properties

    /** The document takes a new value with the same elements and no shorter
      * lists of reviews and extracted licenses. */
    method SetDocument(d: Document)
      requires Valid() && analysis.Some? && d.elements == analysis.value.elements
      requires |analysis.value.reviewers| <= |d.reviewers| && |analysis.value.extractedLicenses| <= |d.extractedLicenses|
      modifies this`analysis
      ensures Valid() && analysis == Some(d)
    {
      DocumentEditedCore(analysis, files, packages, snippets, lastFile, lastSnippet, lastPackage, lastExtractedLicense,
                         lastReviewer, lastProject, lastExternalRef, fileDependencyMap, snippetDependencyMap, d);
      analysis := Some(d);
    }

    /** SPDXVersion: the version is kept for a document still to come and set
      * on the document if there is one. */
    method SetSpecVersion(value: string)
      requires Valid()
      modifies this`specVersion, this`analysis
      ensures Valid() && specVersion == Some(value)
      ensures analysis == if old(analysis).Some? then Some(old(analysis).value.(specVersion := Some(value))) else None
    {
      specVersion := Some(value);
      if analysis.Some? {
        SetDocument(analysis.value.(specVersion := Some(value)));
      }
    }

    /** DataLicense: the listed license with that ID, or an extracted one with a
      * placeholder text, kept and set on the document if there is one. */
    method SetDataLicense(value: string, cat: Catalog)
      requires Valid()
      modifies this`dataLicense, this`analysis
      ensures Valid() && dataLicense == Some(ReadDataLicense(value, cat))
      ensures analysis == if old(analysis).Some? then Some(old(analysis).value.(dataLicense := Some(ReadDataLicense(value, cat)))) else None
    {
      dataLicense := Some(ReadDataLicense(value, cat));
      if analysis.Some? {
        SetDocument(analysis.value.(dataLicense := dataLicense));
      }
    }

    /** DocumentName: kept, and set on the document if there is one. */
    method SetDocumentName(value: string)
      requires Valid()
      modifies this`documentName, this`analysis
      ensures Valid() && documentName == Some(value)
      ensures analysis == if old(analysis).Some? then Some(old(analysis).value.(item := old(analysis).value.item.(name := Some(value)))) else None
    {
      documentName := Some(value);
      if analysis.Some? {
        SetDocument(analysis.value.(item := analysis.value.item.(name := Some(value))));
      }
    }

    /** DocumentNamespace: creates the document, with the version, data license
      * and name read so far; a second namespace is an error. */
    method CreateDocument(value: string) returns (err: Option<string>)
      requires Valid()
      modifies this`analysis
      ensures Valid()
      ensures old(analysis).Some? ==> err == Some(SECOND_NAMESPACE) && analysis == old(analysis)
      ensures old(analysis).None? ==> err.None? && analysis == Some(NamespacedDocument(value, specVersion, dataLicense, documentName))
    {
      if analysis.Some? {
        return Some(SECOND_NAMESPACE);
      }
      analysis := Some(NamespacedDocument(value, specVersion, dataLicense, documentName));
      err := None;
    }

    /** The document properties that may come before the namespace: the
      * version, the data license, the name, the namespace itself and the
      * document's own SPDX ID, which must be the fixed one. */
    method BuildDocumentHeader(t: Tag, value: string, cat: Catalog) returns (err: Option<string>)
      requires Valid() && HeaderTag(t)
      modifies this`specVersion, this`dataLicense, this`documentName, this`analysis
      ensures Valid()
      ensures t in {SpdxVersion, SpdxDataLicense, DocumentName} ==> err.None?
      ensures t == DocumentNamespace ==> (err.None? <==> old(analysis).None?)
      ensures t == ElementId ==> err == (if value == SPDX_DOCUMENT_ID then None else Some(DocumentIdError(value)))
    {
      err := None;
      if t == SpdxVersion {
        SetSpecVersion(value);
      } else if t == SpdxDataLicense {
        SetDataLicense(value, cat);
      } else if t == DocumentName {
        SetDocumentName(value);
      } else if t == DocumentNamespace {
        err := CreateDocument(value);
      } else if value != SPDX_DOCUMENT_ID {
        err := Some(DocumentIdError(value));
      }
    }

    /** ExternalDocumentRef: the reference read from the value is appended to
      * the document's; a value that does not read is an error. */
    method AddExternalDocRef(value: string) returns (err: Option<string>)
      requires Valid() && analysis.Some?
      modifies this`analysis
      ensures Valid()
      ensures var r := TagParsers.ParseExternalDocumentRef(value);
        && (err.Some? <==> r.Err?)
        && (r.Err? ==> err == Some(r.error) && analysis == old(analysis))
        && (r.Ok? ==> analysis == Some(old(analysis).value.(externalDocRefs := old(analysis).value.externalDocRefs + [r.value])))
    {
      var r := TagParsers.ParseExternalDocumentRef(value);
      if r.Err? {
        return Some(r.error);
      }
      SetDocument(analysis.value.(externalDocRefs := analysis.value.externalDocRefs + [r.value]));
      err := None;
    }

    /** A creation tag updates the creation information. */
    method SetCreationInfo(t: Tag, value: string)
      requires Valid() && analysis.Some? && CreationTag(t)
      modifies this`analysis
      ensures Valid()
      ensures analysis == Some(old(analysis).value.(creationInfo := Some(ApplyCreationInfo(old(analysis).value.creationInfo, t, value))))
    {
      SetDocument(analysis.value.(creationInfo := Some(ApplyCreationInfo(analysis.value.creationInfo, t, value))));
    }

    /** DocumentComment: the document's comment. */
    method SetDocumentComment(value: string)
      requires Valid() && analysis.Some?
      modifies this`analysis
      ensures Valid()
      ensures analysis == Some(old(analysis).value.(item := old(analysis).value.item.(comment := Some(value))))
    {
      SetDocument(analysis.value.(item := analysis.value.item.(comment := Some(value))));
    }

    /** Reviewer: a review dated now is appended and is the last review. */
    method AddReviewer(value: string, now: string)
      requires Valid() && analysis.Some?
      modifies this`analysis, this`lastReviewer
      ensures Valid()
      ensures analysis == Some(old(analysis).value.(reviewers := old(analysis).value.reviewers + [Review(value, now, "")]))
      ensures lastReviewer == Some(|old(analysis).value.reviewers|)
    {
      var d := analysis.value;
      SetDocument(d.(reviewers := d.reviewers + [Review(value, now, "")]));
      lastReviewer := Some(|d.reviewers|);
    }

    /** ReviewDate and ReviewComment: the date or comment of the last review;
      * without one they are errors. */
    method SetReview(t: Tag, value: string) returns (err: Option<string>)
      requires Valid() && analysis.Some? && t in {ReviewDate, ReviewComment}
      modifies this`analysis
      ensures Valid()
      ensures old(lastReviewer).None? ==>
        err == Some(MISSING_REVIEWER + (if t == ReviewDate then "date" else "comment")) && analysis == old(analysis)
      ensures old(lastReviewer).Some? ==>
        var rs := old(analysis).value.reviewers;
        var i := old(lastReviewer).value;
        && err.None?
        && analysis == Some(old(analysis).value.(reviewers := rs[i := if t == ReviewDate then rs[i].(date := value) else rs[i].(comment := value)]))
    {
      if lastReviewer.None? {
        return Some(MISSING_REVIEWER + (if t == ReviewDate then "date" else "comment"));
      }
      var rs := analysis.value.reviewers;
      var i := lastReviewer.value;
      SetDocument(analysis.value.(reviewers := rs[i := if t == ReviewDate then rs[i].(date := value) else rs[i].(comment := value)]));
      err := None;
    }

    /** The document has a new extracted license, which is the last one. */
    method StoreExtractedLicense(l: ExtractedLicense)
      requires Valid() && analysis.Some?
      modifies this`analysis, this`lastExtractedLicense
      ensures Valid()
      ensures analysis == Some(old(analysis).value.(extractedLicenses := old(analysis).value.extractedLicenses + [l]))
      ensures lastExtractedLicense == Some(|old(analysis).value.extractedLicenses|)
    {
      var d := analysis.value;
      SetDocument(d.(extractedLicenses := d.extractedLicenses + [l]));
      lastExtractedLicense := Some(|d.extractedLicenses|);
    }

    /** The document's extracted license i is the last one. */
    method SelectExtractedLicense(i: nat)
      requires Valid() && analysis.Some? && i < |analysis.value.extractedLicenses|
      modifies this`lastExtractedLicense
      ensures Valid() && lastExtractedLicense == Some(i)
    {
      lastExtractedLicense := Some(i);
    }

    /** The last extracted license is the one open. */
    method EnterExtractedLicense()
      requires Valid() && lastExtractedLicense.Some?
      modifies this`inExtractedLicenseDefinition
      ensures Valid() && inExtractedLicenseDefinition
    {
      inExtractedLicenseDefinition := true;
    }

    /** LicenseID: the document's extracted license with that ID is opened, or
      * a new one with a placeholder text is added and opened. */
    method OpenExtractedLicense(value: string)
      requires Valid() && analysis.Some?
      modifies this`analysis, this`lastExtractedLicense, this`inExtractedLicenseDefinition
      ensures Valid() && inExtractedLicenseDefinition
      ensures var ls := old(analysis).value.extractedLicenses;
        match FindExtractedLicense(ls, value)
        case Some(i) => analysis == old(analysis) && lastExtractedLicense == Some(i)
        case None =>
          && analysis == Some(old(analysis).value.(extractedLicenses := ls + [ExtractedLicense(value, TEXT_REQUIRED, None, None, None)]))
          && lastExtractedLicense == Some(|ls|)
    {
      var found := FindExtractedLicense(analysis.value.extractedLicenses, value);
      if found.Some? {
        SelectExtractedLicense(found.value);
      } else {
        StoreExtractedLicense(ExtractedLicense(value, TEXT_REQUIRED, None, None, None));
      }
      EnterExtractedLicense();
    }

    /** The document properties that need the document: external document
      * references, creation information, the comment, reviews and extracted
      * licenses. */
    method BuildDocumentRecord(t: Tag, value: string, env: Env) returns (err: Option<string>)
      requires Valid() && analysis.Some? && RecordTag(t)
      modifies this`analysis, this`lastReviewer, this`lastExtractedLicense, this`inExtractedLicenseDefinition
      ensures Valid()
      ensures t != ExternalDocUri && t != ReviewDate && t != ReviewComment ==> err.None?
      ensures t in {ReviewDate, ReviewComment} ==> (err.Some? <==> old(lastReviewer).None?)
    {
      err := None;
      if t == ExternalDocUri {
        err := AddExternalDocRef(value);
      } else if CreationTag(t) {
        SetCreationInfo(t, value);
      } else if t == SpdxComment {
        SetDocumentComment(value);
      } else if t == ReviewReviewer {
        AddReviewer(value, env.now);
      } else if t == LicenseId {
        OpenExtractedLicense(value);
      } else {
        err := SetReview(t, value);
      }
    }

    /** The new package is stored and is the last package. */
    method StorePackage(name: string)
      requires Core() && analysis.Some?
      modifies this`packages, this`lastPackage
      ensures Core() && packages == old(packages) + [NewTagPackage(name)] && lastPackage == Some(|old(packages)|)
    {
      PackageAddedCore(analysis, files, packages, snippets, lastFile, lastSnippet, lastPackage, lastExtractedLicense,
                       lastReviewer, lastProject, lastExternalRef, fileDependencyMap, snippetDependencyMap, NewTagPackage(name));
      packages, lastPackage := packages + [NewTagPackage(name)], Some(|packages|);
    }

    /** The last package is the one open; no file, snippet or annotation is. */
    method EnterPackage()
      requires Core() && lastPackage.Some?
      requires inExtractedLicenseDefinition ==> lastExtractedLicense.Some?
      modifies this`inPackageDefinition, this`inFileDefinition, this`inSnippetDefinition, this`inAnnotation
      ensures Valid()
      ensures inPackageDefinition && !inFileDefinition && !inSnippetDefinition && !inAnnotation
    {
      inPackageDefinition, inFileDefinition, inSnippetDefinition, inAnnotation := true, false, false, false;
    }

    /** PackageName: the last package, if any, goes into the document and a new
      * one is opened. */
    method OpenPackage(name: string)
      requires Valid() && analysis.Some?
      modifies this`warnings, this`analysis, this`packages, this`lastPackage,
               this`inPackageDefinition, this`inFileDefinition, this`inSnippetDefinition, this`inAnnotation
      ensures Valid()
      ensures packages == old(packages) + [NewTagPackage(name)] && lastPackage == Some(|old(packages)|)
      ensures inPackageDefinition && !inFileDefinition && !inSnippetDefinition && !inAnnotation
      ensures old(lastPackage).None? ==> warnings == old(warnings) && analysis == old(analysis)
      ensures old(lastPackage).Some? ==>
        analysis == Some(old(analysis).value.(elements := old(analysis).value.elements + [PackageElement(old(lastPackage).value)]))
    {
      AddLastPackage();
      StartPackage(name);
    }

    /** A new package, stored and open; no file, snippet or annotation is open. */
    method StartPackage(name: string)
      requires Valid() && analysis.Some?
      modifies this`packages, this`lastPackage, this`inPackageDefinition, this`inFileDefinition,
               this`inSnippetDefinition, this`inAnnotation
      ensures Valid()
      ensures packages == old(packages) + [NewTagPackage(name)] && lastPackage == Some(|old(packages)|)
      ensures inPackageDefinition && !inFileDefinition && !inSnippetDefinition && !inAnnotation
    {
      StorePackage(name);
      EnterPackage();
    }

    /** The tags that start an element at document level: a package, a file
      * (in the last package, if any) and a snippet. */
    method BuildDocumentElement(t: Tag, value: string, env: Env)
      requires Valid() && analysis.Some? && ElementTag(t)
      modifies this`warnings, this`analysis, this`packages, this`lastPackage, this`lastFile, this`files,
               this`lastSnippet, this`snippets,
               this`inPackageDefinition, this`inFileDefinition, this`inSnippetDefinition, this`inAnnotation
      ensures Valid()
      ensures t == PackageDeclaredName ==> inPackageDefinition && lastPackage == Some(|old(packages)|)
      ensures t == FileName ==> inFileDefinition && !inPackageDefinition && lastFile == Some(|old(files)|)
      ensures t == SnippetSpdxId ==> inSnippetDefinition && !inPackageDefinition && lastSnippet == Some(|old(snippets)|)
    {
      if t == PackageDeclaredName {
        OpenPackage(value);
      } else if t == FileName {
        OpenFile(value);
        EndPackage();
      } else {
        OpenSnippet(env, value);
      }
    }

    /** buildDocumentProperties: the document-level reading of a tag. The tags
      * that need the document first make sure there is one; an annotation tag
      * with no open annotation, and a tag the document level does not read,
      * are errors. */
    method BuildDocumentProperties(tag: Option<Tag>, tagText: string, value: string, env: Env, cat: Catalog)
      returns (err: Option<string>)
      requires Valid()
      modifies this`specVersion, this`dataLicense, this`documentName, this`analysis,
               this`lastReviewer, this`lastExtractedLicense, this`inExtractedLicenseDefinition,
               this`warnings, this`packages, this`lastPackage, this`lastFile, this`files, this`lastSnippet, this`snippets,
               this`inPackageDefinition, this`inFileDefinition, this`inSnippetDefinition, this`inAnnotation,
               this`annotations, this`lastAnnotation, this`relationships, this`lastRelationship
      ensures Valid()
      ensures tag.None? || !DocumentTag(tag.value) ==> err == Some(NOT_DOCUMENT_TAG + tagText + value)
      ensures tag.Some? && AnnotationTags(tag.value) ==> err == Some(OutsideAnnotationError(tag.value, value))
    {
      if tag.None? || !DocumentTag(tag.value) {
        return Some(NOT_DOCUMENT_TAG + tagText + value);
      }
      var t := tag.value;
      if HeaderTag(t) {
        err := BuildDocumentHeader(t, value, cat);
      } else if SharedTag(t) {
        err := BuildShared(t, value, cat);
      } else if AnnotationTags(t) {
        err := Some(OutsideAnnotationError(t, value));
      } else {
        err := BuildDocumentContent(t, value, env);
      }
    }

    /** The document-level tags that need the document: without one, a version
      * before SPDX-2.0 gets one with a generated namespace and anything else is
      * an error. */
    method BuildDocumentContent(t: Tag, value: string, env: Env) returns (err: Option<string>)
      requires Valid() && (RecordTag(t) || ElementTag(t))
      modifies this`analysis, this`lastReviewer, this`lastExtractedLicense, this`inExtractedLicenseDefinition,
               this`warnings, this`packages, this`lastPackage, this`lastFile, this`files, this`lastSnippet, this`snippets,
               this`inPackageDefinition, this`inFileDefinition, this`inSnippetDefinition, this`inAnnotation
      ensures Valid()
      ensures ElementTag(t) && old(analysis).Some? ==> err.None?
    {
      err := CheckAnalysisNull(env);
      if err.None? {
        err := BuildDocumentEntry(t, value, env);
      }
    }

    /** A record or element tag once the document exists. */
    method BuildDocumentEntry(t: Tag, value: string, env: Env) returns (err: Option<string>)
      requires Valid() && analysis.Some? && (RecordTag(t) || ElementTag(t))
      modifies this`analysis, this`lastReviewer, this`lastExtractedLicense, this`inExtractedLicenseDefinition,
               this`warnings, this`packages, this`lastPackage, this`lastFile, this`files, this`lastSnippet, this`snippets,
               this`inPackageDefinition, this`inFileDefinition, this`inSnippetDefinition, this`inAnnotation
      ensures Valid()
      ensures ElementTag(t) ==> err.None?
    {
      err := None;
      if RecordTag(t) {
        err := BuildDocumentRecord(t, value, env);
      } else {
        BuildDocumentElement(t, value, env);
      }
    }

    // ------------------------------------------------------------ one tag/value pair

    /** Leaving every open definition for the document level: the open file
      * and the open snippet are attached, and no annotation, file, package or
      * snippet is open; an open extracted license stays open. */
    method LeaveDefinitions(env: Env)
      requires Valid()
      modifies this`lastFile, this`lastSnippet, this`warnings, this`packages, this`analysis,
               this`inAnnotation, this`inFileDefinition, this`inPackageDefinition, this`inSnippetDefinition
      ensures Valid()
      ensures !inAnnotation && !inFileDefinition && !inPackageDefinition && !inSnippetDefinition
      ensures old(inFileDefinition) ==> lastFile.None?
      ensures !old(inFileDefinition) ==> lastFile == old(lastFile)
      ensures old(inSnippetDefinition) ==> lastSnippet.None?
      ensures !old(inSnippetDefinition) ==> lastSnippet == old(lastSnippet)
    {
      if inFileDefinition {
        AddLastFile();
      }
      if inSnippetDefinition {
        AddLastSnippet(env);
      }
      EndDefinitions();
    }

    /** No annotation, file, package or snippet is open. */
    method EndDefinitions()
      requires Core() && (inExtractedLicenseDefinition ==> lastExtractedLicense.Some?)
      modifies this`inAnnotation, this`inFileDefinition, this`inPackageDefinition, this`inSnippetDefinition
      ensures Valid()
      ensures !inAnnotation && !inFileDefinition && !inPackageDefinition && !inSnippetDefinition
    {
      inAnnotation, inFileDefinition, inPackageDefinition, inSnippetDefinition := false, false, false, false;
    }

    /** buildDocument: the tag is trimmed and followed by a space, the value
      * cleaned; the pair goes to the first open entity that reads the tag, in
      * the order annotation, file, snippet, package, extracted license (a
      * SnippetSPDXID always goes to the document level, where it starts a new
      * snippet); otherwise the open definitions are left and the document level
      * reads it. */
    method BuildDocument(rawTag: string, rawValue: string, env: Env, cat: Catalog) returns (err: Option<string>)
      requires Valid()
      modifies this`specVersion, this`dataLicense, this`documentName, this`analysis,
               this`lastReviewer, this`lastExtractedLicense, this`inExtractedLicenseDefinition,
               this`warnings, this`packages, this`lastPackage, this`lastFile, this`files, this`lastSnippet, this`snippets,
               this`inPackageDefinition, this`inFileDefinition, this`inSnippetDefinition, this`inAnnotation,
               this`annotations, this`lastAnnotation, this`relationships, this`lastRelationship,
               this`lastProject, this`lastExternalRef, this`fileDependencyMap, this`snippetDependencyMap
      ensures Valid()
      ensures var tag := env.tagOf(Trim(rawTag) + " ");
        (Route(old(inAnnotation), old(inFileDefinition), old(inSnippetDefinition), old(inPackageDefinition),
               old(inExtractedLicenseDefinition), tag) == ToExtractedLicense) ==> err.None?
    {
      var tagText := Trim(rawTag) + " ";
      var value := TagParsers.CleanValue(rawValue);
      var tag := env.tagOf(tagText);
      var route := Route(inAnnotation, inFileDefinition, inSnippetDefinition, inPackageDefinition,
                         inExtractedLicenseDefinition, tag);
      RouteNeedsOpenEntity(inAnnotation, inFileDefinition, inSnippetDefinition, inPackageDefinition,
                           inExtractedLicenseDefinition, tag);
      err := None;
      match route {
        case ToAnnotation => err := BuildAnnotation(tag.value, value, cat);
        case ToFile => err := BuildFile(tagText, tag.value, value, cat);
        case ToSnippet => err := BuildSnippet(tagText, tag.value, value, cat);
        case ToPackage => err := BuildPackage(tag.value, value, env, cat);
        case ToExtractedLicense => BuildExtractedLicense(tag.value, value);
        case ToDocument =>
          LeaveDefinitions(env);
          err := BuildDocumentProperties(tag, tagText, value, env, cat);
      }
    }

    // ------------------------------------------------------------ the end of the input

    /** exit: the last package goes into the document, without the check for
      * its SPDX ID that a package closed earlier gets. */
    method AttachLastPackage()
      requires Core()
      modifies this`analysis
      ensures Core()
      ensures lastPackage.None? ==> analysis == old(analysis)
      ensures lastPackage.Some? ==> analysis == Some(old(analysis).value.(elements := old(analysis).value.elements + [PackageElement(lastPackage.value)]))
    {
      if lastPackage.Some? {
        AttachElement(PackageElement(lastPackage.value));
      }
    }

    /** The document and its records are replaced by a store of the same shape. */
    method SetStore(st: TagStore.Store)
      requires Core() && analysis.Some? && SameShape(Store(), st) && StoreWf(st)
      modifies this`analysis, this`files, this`packages, this`snippets
      ensures Core() && analysis == Some(st.doc) && files == st.files && packages == st.packages && snippets == st.snippets
      ensures analysis.value.elements == old(analysis).value.elements
    {
      SameShapeCore(Store(), st, lastFile, lastSnippet, lastPackage, lastExtractedLicense,
                    lastReviewer, lastProject, lastExternalRef, fileDependencyMap, snippetDependencyMap);
      analysis, files, packages, snippets := Some(st.doc), st.files, st.packages, st.snippets;
    }

    /** The single pass over the registered files: each file depending on a
      * name gets the files with that name as dependencies, each snippet waiting
      * for a file ID is bound to a file with that ID, and the names and IDs no
      * file had are what is left of the two maps. */
    method ApplyPass()
      requires Core() && analysis.Some?
      modifies this`files, this`snippets, this`fileDependencyMap, this`snippetDependencyMap
      ensures Core()
      ensures var ps := Pass(StartPass(old(fileDependencyMap), old(snippetDependencyMap)), old(Store()), FileReferences(old(Store())));
        && files == WithDependencies(old(files), ps.withDependencies)
        && BoundSnippets(old(snippets), snippets, ps.withSnippets)
        && fileDependencyMap == ps.fileMap && snippetDependencyMap == ps.snippetMap
    {
      var st := Store();
      var ps := TagResolution.RunPass(st, fileDependencyMap, snippetDependencyMap);
      var refs := FileReferences(st);
      var start := StartPass(fileDependencyMap, snippetDependencyMap);
      forall n | n in ps.fileMap
        ensures n in fileDependencyMap && ps.fileMap[n] == fileDependencyMap[n]
      {
        PassLeavesUnmatchedNames(start, st, refs, n);
      }
      forall n | n in ps.snippetMap
        ensures n in snippetDependencyMap && ps.snippetMap[n] == snippetDependencyMap[n]
      {
        PassLeavesUnmatchedIds(start, st, refs, n);
      }
      PassSnippetsSound(start, st, refs);
      var fs := TagResolution.SetDependencies(files, ps.withDependencies);
      var ss := TagResolution.BindSnippets(snippets, ps.withSnippets);
      PassedCore(analysis, files, packages, snippets, lastFile, lastSnippet, lastPackage, lastExtractedLicense,
                 lastReviewer, lastProject, lastExternalRef, fileDependencyMap, snippetDependencyMap,
                 fs, ss, ps.fileMap, ps.snippetMap);
      files, snippets, fileDependencyMap, snippetDependencyMap := fs, ss, ps.fileMap, ps.snippetMap;
    }

    /** fixFileAndSnippetDependencies, corrected: after the pass, a header and
      * one line per dependency name no file had, and a header and one line per
      * snippet file ID no file had. */
    method ResolveDependencies() returns (missingFiles: seq<string>, missingSnippetFiles: seq<string>)
      requires Core() && analysis.Some?
      modifies this`files, this`snippets, this`fileDependencyMap, this`snippetDependencyMap, this`warnings
      ensures Core()
      ensures var ps := Pass(StartPass(old(fileDependencyMap), old(snippetDependencyMap)), old(Store()), FileReferences(old(Store())));
        && files == WithDependencies(old(files), ps.withDependencies)
        && BoundSnippets(old(snippets), snippets, ps.withSnippets)
        && fileDependencyMap == ps.fileMap && snippetDependencyMap == ps.snippetMap
      ensures MissingDependencyWarnings(missingFiles, fileDependencyMap.Keys)
      ensures SnippetFileWarnings(missingSnippetFiles, snippetDependencyMap.Keys)
      ensures warnings == old(warnings) + missingFiles + missingSnippetFiles
    {
      ApplyPass();
      missingFiles, missingSnippetFiles := AnnounceMissing(fileDependencyMap.Keys, snippetDependencyMap.Keys);
    }

    /** The warnings for the names and IDs no file had. */
    method AnnounceMissing(fileKeys: set<string>, snippetKeys: set<string>)
      returns (missingFiles: seq<string>, missingSnippetFiles: seq<string>)
      modifies this`warnings
      ensures MissingDependencyWarnings(missingFiles, fileKeys)
      ensures SnippetFileWarnings(missingSnippetFiles, snippetKeys)
      ensures warnings == old(warnings) + missingFiles + missingSnippetFiles
    {
      missingFiles := TagResolution.Announce(MISSING_DEPENDENCIES_HEADER, fileKeys != {}, fileKeys);
      missingSnippetFiles := TagResolution.Announce(MISSING_SNIPPET_FILES_HEADER, snippetKeys != {}, snippetKeys);
      AddWarnings(missingFiles + missingSnippetFiles);
    }

    /** fixFileAndSnippetDependencies as written: the snippet header is followed
      * by the dependency names instead of the snippet file IDs. */
    method ResolveDependenciesAsWritten() returns (missingFiles: seq<string>, missingSnippetFiles: seq<string>)
      requires Core() && analysis.Some?
      modifies this`files, this`snippets, this`fileDependencyMap, this`snippetDependencyMap, this`warnings
      ensures Core()
      ensures var ps := Pass(StartPass(old(fileDependencyMap), old(snippetDependencyMap)), old(Store()), FileReferences(old(Store())));
        && files == WithDependencies(old(files), ps.withDependencies)
        && BoundSnippets(old(snippets), snippets, ps.withSnippets)
        && fileDependencyMap == ps.fileMap && snippetDependencyMap == ps.snippetMap
      ensures MissingDependencyWarnings(missingFiles, fileDependencyMap.Keys)
      ensures SnippetFileWarningsAsWritten(missingSnippetFiles, fileDependencyMap.Keys, snippetDependencyMap.Keys)
      ensures warnings == old(warnings) + missingFiles + missingSnippetFiles
    {
      ApplyPass();
      missingFiles, missingSnippetFiles := AnnounceMissingAsWritten(fileDependencyMap.Keys, snippetDependencyMap.Keys);
    }

    /** The warnings as written: the snippet header lists the dependency names. */
    method AnnounceMissingAsWritten(fileKeys: set<string>, snippetKeys: set<string>)
      returns (missingFiles: seq<string>, missingSnippetFiles: seq<string>)
      modifies this`warnings
      ensures MissingDependencyWarnings(missingFiles, fileKeys)
      ensures SnippetFileWarningsAsWritten(missingSnippetFiles, fileKeys, snippetKeys)
      ensures warnings == old(warnings) + missingFiles + missingSnippetFiles
    {
      missingFiles := TagResolution.Announce(MISSING_DEPENDENCIES_HEADER, fileKeys != {}, fileKeys);
      missingSnippetFiles := TagResolution.Announce(MISSING_SNIPPET_FILES_HEADER, snippetKeys != {}, fileKeys);
      AddWarnings(missingFiles + missingSnippetFiles);
    }

    /** The resolved store replaces the document's records and the warnings
      * found on the way are added. */
    method SetResolved(st: TagStore.Store, ws: seq<string>)
      requires Core() && analysis.Some? && SameShape(Store(), st) && StoreWf(st)
      modifies this`analysis, this`files, this`packages, this`snippets, this`warnings
      ensures Core() && analysis.Some? && Store() == st && warnings == old(warnings) + ws
    {
      SetStore(st);
      AddWarnings(ws);
    }

    /** addRelationships: the open relationship is queued, then each queued
      * relationship goes to the element with its ID, or is a warning. */
    method ResolvePendingRelationships()
      requires Core() && analysis.Some?
      modifies this`relationships, this`lastRelationship, this`analysis, this`files, this`packages, this`snippets, this`warnings
      ensures Core() && analysis.Some? && lastRelationship.None?
      ensures relationships == Pushed(old(relationships), old(lastRelationship))
      ensures var res := AddRelationships(old(Store()), relationships);
        Store() == res.0 && warnings == old(warnings) + res.1
    {
      relationships, lastRelationship := Pushed(relationships, lastRelationship), None;
      var r, ws := TagResolution.ResolveRelationships(Store(), relationships);
      SetResolved(r, ws);
    }

    /** addAnnotations: the open annotation is queued, then each queued
      * annotation goes to the element with its ID, or is a warning. */
    method ResolvePendingAnnotations()
      requires Core() && analysis.Some?
      modifies this`annotations, this`lastAnnotation, this`analysis, this`files, this`packages, this`snippets, this`warnings
      ensures Core() && analysis.Some? && lastAnnotation.None?
      ensures annotations == Pushed(old(annotations), old(lastAnnotation))
      ensures var res := AddAnnotations(old(Store()), annotations);
        Store() == res.0 && warnings == old(warnings) + res.1
    {
      annotations, lastAnnotation := Pushed(annotations, lastAnnotation), None;
      var r, ws := TagResolution.ResolveAnnotations(Store(), annotations);
      SetResolved(r, ws);
    }

    /** checkSinglePackageDefault, corrected: a single package the document
      * does not describe gets the default DESCRIBES relationship. */
    method AddDefaultDescribes()
      requires Core() && analysis.Some?
      modifies this`analysis, this`files, this`packages, this`snippets
      ensures Core() && analysis.Some? && Store() == SinglePackageDefault(old(Store()))
    {
      var st := Store();
      SinglePackageDefaultSameShape(st);
      SetStore(SinglePackageDefault(st));
    }

    /** checkSinglePackageDefault as written: it fails on a document without
      * packages and otherwise changes nothing. */
    method CheckSinglePackageDefaultAsWritten() returns (err: Option<string>)
      requires analysis.Some?
      ensures var r := SinglePackageDefaultAsWritten(Store());
        err == if r.Err? then Some(r.error) else None
    {
      var r := SinglePackageDefaultAsWritten(Store());
      err := if r.Err? then Some(r.error) else None;
    }

    /** exit's first step, corrected: the open file, the open snippet and the
      * last package go into the document. */
    method FlushDefinitions(env: Env)
      requires Core()
      modifies this`lastFile, this`lastSnippet, this`warnings, this`packages, this`analysis
      ensures Core() && lastFile.None? && lastSnippet.None?
      ensures old(lastSnippet).Some? ==> analysis.Some? && SnippetElement(old(lastSnippet).value) in analysis.value.elements
    {
      ghost var s := lastSnippet;
      AddLastFile();
      AddLastSnippet(env);
      ghost var es := if analysis.Some? then analysis.value.elements else [];
      assert s.Some? ==> SnippetElement(s.value) in es;
      AttachLastPackage();
      assert s.Some? ==> es <= analysis.value.elements;
    }

    /** exit after the document is known to exist, corrected: dependencies,
      * relationships, the single-package default, annotations, and the
      * document's own verification; no element is added or removed. */
    method ResolveAll(env: Env)
      requires Core() && analysis.Some?
      modifies this`files, this`snippets, this`fileDependencyMap, this`snippetDependencyMap, this`warnings,
               this`relationships, this`lastRelationship, this`analysis, this`packages,
               this`annotations, this`lastAnnotation
      ensures Core() && analysis.Some? && analysis.value.elements == old(analysis).value.elements
    {
      var _, _ := ResolveDependencies();
      ResolvePendingRelationships();
      AddDefaultDescribes();
      FinishExit(env);
    }

    /** exit's last steps: annotations, then the document's own verification. */
    method FinishExit(env: Env)
      requires Core() && analysis.Some?
      modifies this`annotations, this`lastAnnotation, this`analysis, this`files, this`packages, this`snippets, this`warnings
      ensures Core() && analysis.Some? && analysis.value.elements == old(analysis).value.elements
      ensures var res := AddAnnotations(old(Store()), annotations);
        warnings == old(warnings) + res.1 + env.verifyDocument(res.0)
    {
      ResolvePendingAnnotations();
      AddWarnings(env.verifyDocument(Store()));
    }

    /** exit, corrected: the open snippet is attached as well; without a
      * document this is where the namespace check fails. */
    method Exit(env: Env) returns (err: Option<string>)
      requires Valid()
      modifies this
      ensures Core()
      ensures err.Some? ==> err == Some(NAMESPACE_FIRST)
      ensures old(lastSnippet).Some? ==> err.None? && analysis.Some? && SnippetElement(old(lastSnippet).value) in analysis.value.elements
    {
      FlushDefinitions(env);
      err := CheckAnalysisNull(env);
      if err.None? {
        ResolveAll(env);
      }
    }

    /** exit as written: the open snippet is never attached, and the
      * single-package check fails on a document without packages. */
    method ExitAsWritten(env: Env) returns (err: Option<string>)
      requires Valid()
      modifies this
      ensures Core()
      ensures lastSnippet == old(lastSnippet)
      ensures err.Some? ==> err == Some(NAMESPACE_FIRST) || err == Some(INDEX_OUT_OF_BOUNDS)
    {
      AddLastFile();
      AttachLastPackage();
      err := CheckAnalysisNull(env);
      if err.None? {
        err := ResolveAllAsWritten(env);
      }
    }

    /** exit after the document is known to exist, as written: the snippet
      * warnings list the dependency names, and the single-package check
      * stops the exit on a document without packages. */
    method ResolveAllAsWritten(env: Env) returns (err: Option<string>)
      requires Core() && analysis.Some?
      modifies this`files, this`snippets, this`fileDependencyMap, this`snippetDependencyMap, this`warnings,
               this`relationships, this`lastRelationship, this`analysis, this`packages,
               this`annotations, this`lastAnnotation
      ensures Core() && analysis.Some?
      ensures err.Some? ==> err == Some(INDEX_OUT_OF_BOUNDS) && ContainerPackages(analysis.value.elements) == []
    {
      var _, _ := ResolveDependenciesAsWritten();
      ResolvePendingRelationships();
      err := CheckSinglePackageDefaultAsWritten();
      if err.None? {
        FinishExit(env);
      }
    }
  }
}
