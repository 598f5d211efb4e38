// The comparer of one package across several documents. It is an item
// comparer (the inherited part is the ItemComparer it holds) that in
// addition compares the package fields of a package added with the first
// package held, and its checksums, files and external references with every
// package held, keeping what is unique to each side per ordered pair of
// documents.

module PackageComparison {
  import opened Wrappers
  import opened SpdxTypes
  import opened ItemComparison
  import opened ExternalRefComparison
  import SpdxPackageModel
  import SpdxFileModel

  /** The package aspects whose equality the comparer tracks; an aspect is in
    * the comparer's set once a difference in it has been found. */
  datatype PackageAspect =
    | Versions | FileNames | Suppliers | Originators | DownloadLocations | VerificationCodes
    | Checksums | SourceInfos | DeclaredLicenses | Summaries | Descriptions | HomePages
    | FilesAnalyzedFlags | PackageFiles | ExternalRefs

  type SpdxFile = SpdxFileModel.SpdxFile

  // ---------------------------------------------------------------- the packages held

  /** The items held that are packages. */
  function PackagesOf(held: map<Doc, ComparedItem>): (r: map<Doc, PackageSide>)
    ensures forall d :: d in r <==> d in held && held[d].package.Some?
    ensures forall d :: d in r ==> r[d] == held[d].package.value
  {
    map d | d in held && held[d].package.Some? :: held[d].package.value
  }

  /** A package's external references; a package given none has none. */
  function RefsOf(side: PackageSide): seq<ExternalRef>
  {
    side.pkg.externalRefs.GetOr([])
  }

  function ChecksumsOf(pkgs: map<Doc, PackageSide>): (r: map<Doc, seq<Checksum>>)
    ensures r.Keys == pkgs.Keys
    ensures forall d :: d in pkgs ==> r[d] == pkgs[d].pkg.checksums
  {
    map d | d in pkgs :: pkgs[d].pkg.checksums
  }

  function FilesOf(pkgs: map<Doc, PackageSide>): (r: map<Doc, seq<SpdxFile>>)
    ensures r.Keys == pkgs.Keys
    ensures forall d :: d in pkgs ==> r[d] == pkgs[d].files
  {
    map d | d in pkgs :: pkgs[d].files
  }

  function ExternalRefsOf(pkgs: map<Doc, PackageSide>): (r: map<Doc, seq<ExternalRef>>)
    ensures r.Keys == pkgs.Keys
    ensures forall d :: d in pkgs ==> r[d] == RefsOf(pkgs[d])
  {
    map d | d in pkgs :: RefsOf(pkgs[d])
  }

  // ---------------------------------------------------------------- the package fields

  /** The aspects compared field by field before the checksums: version, file
    * name, supplier, originator, download location and verification code. */
  const EARLY_ASPECTS: set<PackageAspect> :=
    {Versions, FileNames, Suppliers, Originators, DownloadLocations, VerificationCodes}

  /** The aspects compared field by field after the checksums: source
    * information, declared license, summary, description, home page and
    * whether files were analyzed. */
  const LATE_ASPECTS: set<PackageAspect> :=
    {SourceInfos, DeclaredLicenses, Summaries, Descriptions, HomePages, FilesAnalyzedFlags}

  /** Whether packages a and b differ in a field-by-field aspect; declared is
    * the outcome of the declared-license comparison. */
  function FieldDiffers(a: SpdxPackageModel.SpdxPackage, b: SpdxPackageModel.SpdxPackage, declared: bool, h: Helpers,
                        aspect: PackageAspect): bool
  {
    match aspect
    case Versions => !h.stringsEqual(a.versionInfo, b.versionInfo)
    case FileNames => !h.stringsEqual(a.packageFileName, b.packageFileName)
    case Suppliers => !h.stringsEqual(a.supplier, b.supplier)
    case Originators => !h.stringsEqual(a.originator, b.originator)
    case DownloadLocations => !h.stringsEqual(a.downloadLocation, b.downloadLocation)
    case VerificationCodes => !h.verificationCodesEqual(a.verificationCode, b.verificationCode)
    case SourceInfos => !h.stringsEqual(a.sourceInfo, b.sourceInfo)
    case DeclaredLicenses => !declared
    case Summaries => !h.stringsEqual(a.summary, b.summary)
    case Descriptions => !h.stringsEqual(a.description, b.description)
    case HomePages => !h.stringsEqual(a.homepage, b.homepage)
    case FilesAnalyzedFlags => a.filesAnalyzed != b.filesAnalyzed
    case _ => false
  }

  /** The aspects two packages differ in among version, file name, supplier,
    * originator, download location and verification code. */
  function EarlyFieldDifferences(a: SpdxPackageModel.SpdxPackage, b: SpdxPackageModel.SpdxPackage, h: Helpers): (r: set<PackageAspect>)
    ensures Versions in r <==> !h.stringsEqual(a.versionInfo, b.versionInfo)
    ensures FileNames in r <==> !h.stringsEqual(a.packageFileName, b.packageFileName)
    ensures Suppliers in r <==> !h.stringsEqual(a.supplier, b.supplier)
    ensures Originators in r <==> !h.stringsEqual(a.originator, b.originator)
    ensures DownloadLocations in r <==> !h.stringsEqual(a.downloadLocation, b.downloadLocation)
    ensures VerificationCodes in r <==> !h.verificationCodesEqual(a.verificationCode, b.verificationCode)
    ensures r <= EARLY_ASPECTS
  {
    set aspect | aspect in EARLY_ASPECTS && FieldDiffers(a, b, true, h, aspect)
  }

  /** The aspects two packages differ in among source information, declared
    * license (this comparison may fail), summary, description, home page and
    * whether files were analyzed. */
  function LateFieldDifferences(a: SpdxPackageModel.SpdxPackage, b: SpdxPackageModel.SpdxPackage,
                                xl: Option<Xlation>, h: Helpers): (r: Result<set<PackageAspect>>)
    ensures r.Err? <==> h.licenseEqual(a.licenseDeclared, b.licenseDeclared, xl).Err?
    ensures r.Err? ==> r.error == h.licenseEqual(a.licenseDeclared, b.licenseDeclared, xl).error
    ensures r.Ok? ==> (SourceInfos in r.value <==> !h.stringsEqual(a.sourceInfo, b.sourceInfo))
    ensures r.Ok? ==> (DeclaredLicenses in r.value <==> h.licenseEqual(a.licenseDeclared, b.licenseDeclared, xl) == Ok(false))
    ensures r.Ok? ==> (Summaries in r.value <==> !h.stringsEqual(a.summary, b.summary))
    ensures r.Ok? ==> (Descriptions in r.value <==> !h.stringsEqual(a.description, b.description))
    ensures r.Ok? ==> (HomePages in r.value <==> !h.stringsEqual(a.homepage, b.homepage))
    ensures r.Ok? ==> (FilesAnalyzedFlags in r.value <==> a.filesAnalyzed != b.filesAnalyzed)
    ensures r.Ok? ==> r.value <= LATE_ASPECTS
  {
    match h.licenseEqual(a.licenseDeclared, b.licenseDeclared, xl)
    case Err(e) => Err(e)
    case Ok(declared) => Ok(set aspect | aspect in LATE_ASPECTS && FieldDiffers(a, b, declared, h, aspect))
  }

  /** The list aspects whose flag is set. */
  function PackageListAspects(checksums: bool, files: bool, refs: bool): (r: set<PackageAspect>)
    ensures Checksums in r <==> checksums
    ensures PackageFiles in r <==> files
    ensures ExternalRefs in r <==> refs
    ensures r <= {Checksums, PackageFiles, ExternalRefs}
  {
    (if checksums then {Checksums} else {}) + (if files then {PackageFiles} else {})
    + (if refs then {ExternalRefs} else {})
  }

  // ---------------------------------------------------------------- compareNewPackageFiles

  /** The file differences between the new package's files and d's, none when
    * the comparison fails. */
  function FileDifferencesWith(doc: Doc, files: seq<SpdxFile>, others: map<Doc, seq<SpdxFile>>, h: Helpers, d: Doc): Option<seq<FileDifference>>
  {
    var r := h.fileDifferences(doc, d, files, Others(others, d));
    if r.Ok? then Some(r.value) else None
  }

  /** The file-difference entry for (p, q) after recording against the
    * documents of done: the differences between doc's files and d's, the same
    * under (doc, d) and (d, doc). */
  ghost function WantedFileDifferences(m: PairTable<seq<FileDifference>>, doc: Doc, done: set<Doc>, files: seq<SpdxFile>,
                                       others: map<Doc, seq<SpdxFile>>, h: Helpers, p: Doc, q: Doc): Option<seq<FileDifference>>
  {
    if q == doc && p in done then FileDifferencesWith(doc, files, others, h, p)
    else if p == doc && q in done then FileDifferencesWith(doc, files, others, h, q)
    else Lookup(m, p, q)
  }

  ghost predicate FileDifferencesRecorded(m: PairTable<seq<FileDifference>>, r: PairTable<seq<FileDifference>>, doc: Doc,
                                          done: set<Doc>, files: seq<SpdxFile>, others: map<Doc, seq<SpdxFile>>, h: Helpers)
  {
    forall p: Doc, q: Doc :: Lookup(r, p, q) == WantedFileDifferences(m, doc, done, files, others, h, p, q)
  }

  ghost predicate FilesComparable(doc: Doc, files: seq<SpdxFile>, others: map<Doc, seq<SpdxFile>>, h: Helpers, d: Doc)
  {
    h.fileDifferences(doc, d, files, Others(others, d)).Ok?
  }

  /** Some document of done has files that differ from the new package's, or
    * files unique to one side. */
  ghost predicate FilesDifferAmong(doc: Doc, done: set<Doc>, files: seq<SpdxFile>, others: map<Doc, seq<SpdxFile>>, h: Helpers)
  {
    exists d :: d in done &&
      (FileDifferencesWith(doc, files, others, h, d) != Some([])
       || h.uniqueFiles(files, Others(others, d)) != [] || h.uniqueFiles(Others(others, d), files) != [])
  }

  lemma FileDifferencesRecordedStep(m: PairTable<seq<FileDifference>>, r: PairTable<seq<FileDifference>>, doc: Doc, done: set<Doc>,
                                    d: Doc, files: seq<SpdxFile>, others: map<Doc, seq<SpdxFile>>, h: Helpers)
    requires FileDifferencesRecorded(m, r, doc, done, files, others, h) && d !in done && FilesComparable(doc, files, others, h, d)
    ensures var fd := h.fileDifferences(doc, d, files, Others(others, d)).value;
      FileDifferencesRecorded(m, Record(Record(r, doc, d, fd), d, doc, fd), doc, done + {d}, files, others, h)
  {
    var fd := h.fileDifferences(doc, d, files, Others(others, d)).value;
    RecordLookup(r, doc, d, fd);
    RecordLookup(Record(r, doc, d, fd), d, doc, fd);
  }

  lemma FilesDifferStep(doc: Doc, done: set<Doc>, d: Doc, files: seq<SpdxFile>, others: map<Doc, seq<SpdxFile>>, h: Helpers)
    requires FilesComparable(doc, files, others, h, d)
    ensures var fd := h.fileDifferences(doc, d, files, Others(others, d)).value;
      FilesDifferAmong(doc, done + {d}, files, others, h) <==>
      FilesDifferAmong(doc, done, files, others, h) || fd != []
      || h.uniqueFiles(files, Others(others, d)) != [] || h.uniqueFiles(Others(others, d), files) != []
  {
    var fd := h.fileDifferences(doc, d, files, Others(others, d)).value;
    if FileDifferencesWith(doc, files, others, h, d) != Some([]) {
      assert fd != [];
    }
  }

  /** compareNewPackageFiles: against every package held, in no particular
    * order (hash order), the file differences are stored both ways round
    * and what is unique to each side under its own pair; a failing file
    * comparison ends it. */
  method CompareFilesAgainstAll(fm: PairTable<seq<FileDifference>>, um: PairTable<seq<SpdxFile>>, doc: Doc,
                                files: seq<SpdxFile>, others: map<Doc, seq<SpdxFile>>, h: Helpers)
    returns (fd: PairTable<seq<FileDifference>>, uf: PairTable<seq<SpdxFile>>, diff: bool, err: Option<string>)
    ensures err.None? <==> forall d :: d in others ==> FilesComparable(doc, files, others, h, d)
    ensures err.None? ==> FileDifferencesRecorded(fm, fd, doc, others.Keys, files, others, h)
    ensures err.None? ==> RecordedAgainst(um, uf, doc, others.Keys, files, others, h.uniqueFiles)
    ensures err.None? ==> (diff <==> FilesDifferAmong(doc, others.Keys, files, others, h))
  {
    fd, uf, diff, err := fm, um, false, None;
    var todo := others.Keys;
    ghost var done: set<Doc> := {};
    while todo != {}
      invariant todo + done == others.Keys && todo !! done
      invariant err.None?
      invariant forall d :: d in done ==> FilesComparable(doc, files, others, h, d)
      invariant FileDifferencesRecorded(fm, fd, doc, done, files, others, h)
      invariant RecordedAgainst(um, uf, doc, done, files, others, h.uniqueFiles)
      invariant diff <==> FilesDifferAmong(doc, done, files, others, h)
      decreases |todo|
    {
      var d :| d in todo;
      fd, uf, diff, err := RecordFiles(fm, um, fd, uf, diff, doc, done, d, files, others, h);
      if err.Some? {
        assert d in others && !FilesComparable(doc, files, others, h, d);
        return;
      }
      todo, done := todo - {d}, done + {d};
    }
  }

  /** One package of compareNewPackageFiles' loop. */
  method RecordFiles(ghost fm: PairTable<seq<FileDifference>>, ghost um: PairTable<seq<SpdxFile>>,
                     fd0: PairTable<seq<FileDifference>>, uf0: PairTable<seq<SpdxFile>>, diff0: bool, doc: Doc,
                     ghost done: set<Doc>, d: Doc, files: seq<SpdxFile>, others: map<Doc, seq<SpdxFile>>, h: Helpers)
    returns (fd: PairTable<seq<FileDifference>>, uf: PairTable<seq<SpdxFile>>, diff: bool, err: Option<string>)
    requires d !in done
    requires FileDifferencesRecorded(fm, fd0, doc, done, files, others, h)
    requires RecordedAgainst(um, uf0, doc, done, files, others, h.uniqueFiles)
    requires diff0 <==> FilesDifferAmong(doc, done, files, others, h)
    ensures err.Some? <==> !FilesComparable(doc, files, others, h, d)
    ensures err.None? ==> FileDifferencesRecorded(fm, fd, doc, done + {d}, files, others, h)
    ensures err.None? ==> RecordedAgainst(um, uf, doc, done + {d}, files, others, h.uniqueFiles)
    ensures err.None? ==> (diff <==> FilesDifferAmong(doc, done + {d}, files, others, h))
  {
    var compared := h.fileDifferences(doc, d, files, Others(others, d));
    if compared.Err? {
      return fd0, uf0, diff0, Some(compared.error);
    }
    var differences := compared.value;
    FileDifferencesRecordedStep(fm, fd0, doc, done, d, files, others, h);
    FilesDifferStep(doc, done, d, files, others, h);
    RecordedStep(um, uf0, doc, done, d, files, others, h.uniqueFiles);
    DifferentStep(doc, done, d, files, others, h.uniqueFiles);
    var inDoc := h.uniqueFiles(files, Others(others, d));
    var inCompare := h.uniqueFiles(Others(others, d), files);
    fd := Record(Record(fd0, doc, d, differences), d, doc, differences);
    uf := Record(Record(uf0, doc, d, inDoc), d, doc, inCompare);
    diff := diff0 || differences != [] || inDoc != [] || inCompare != [];
    err := None;
  }

  // ---------------------------------------------------------------- compareNewPackageExternalRefs

  /** The external-ref-difference entry for (p, q) after recording against the
    * documents of done: the differences between doc's references and d's,
    * the same under (doc, d) and (d, doc). */
  ghost function WantedRefDifferences(m: PairTable<seq<ExternalRefDifference>>, doc: Doc, done: set<Doc>, refs: seq<ExternalRef>,
                                      others: map<Doc, seq<ExternalRef>>, p: Doc, q: Doc): Option<seq<ExternalRefDifference>>
  {
    if q == doc && p in done then Some(SortedRefDifferences(refs, Others(others, p)))
    else if p == doc && q in done then Some(SortedRefDifferences(refs, Others(others, q)))
    else Lookup(m, p, q)
  }

  ghost predicate RefDifferencesRecorded(m: PairTable<seq<ExternalRefDifference>>, r: PairTable<seq<ExternalRefDifference>>,
                                         doc: Doc, done: set<Doc>, refs: seq<ExternalRef>, others: map<Doc, seq<ExternalRef>>)
  {
    forall p: Doc, q: Doc :: Lookup(r, p, q) == WantedRefDifferences(m, doc, done, refs, others, p, q)
  }

  /** Some document of done has references that differ from the new
    * package's, or references unique to one side. */
  ghost predicate RefsDifferAmong(doc: Doc, done: set<Doc>, refs: seq<ExternalRef>, others: map<Doc, seq<ExternalRef>>)
  {
    exists d :: d in done &&
      (SortedRefDifferences(refs, Others(others, d)) != []
       || SortedUniqueRefs(refs, Others(others, d)) != [] || SortedUniqueRefs(Others(others, d), refs) != [])
  }

  lemma RefDifferencesRecordedStep(m: PairTable<seq<ExternalRefDifference>>, r: PairTable<seq<ExternalRefDifference>>,
                                   doc: Doc, done: set<Doc>, d: Doc, refs: seq<ExternalRef>, others: map<Doc, seq<ExternalRef>>)
    requires RefDifferencesRecorded(m, r, doc, done, refs, others) && d !in done
    ensures var rd := SortedRefDifferences(refs, Others(others, d));
      RefDifferencesRecorded(m, Record(Record(r, doc, d, rd), d, doc, rd), doc, done + {d}, refs, others)
  {
    var rd := SortedRefDifferences(refs, Others(others, d));
    RecordLookup(r, doc, d, rd);
    RecordLookup(Record(r, doc, d, rd), d, doc, rd);
  }

  lemma RefsDifferStep(doc: Doc, done: set<Doc>, d: Doc, refs: seq<ExternalRef>, others: map<Doc, seq<ExternalRef>>)
    ensures RefsDifferAmong(doc, done + {d}, refs, others) <==>
      RefsDifferAmong(doc, done, refs, others) || SortedRefDifferences(refs, Others(others, d)) != []
      || SortedUniqueRefs(refs, Others(others, d)) != [] || SortedUniqueRefs(Others(others, d), refs) != []
  {
  }

  /** A fresh array holding s. */
  method ToArray(s: seq<ExternalRef>) returns (a: array<ExternalRef>)
    ensures fresh(a) && a[..] == s
  {
    a := new ExternalRef[|s|](i requires 0 <= i < |s| => s[i]);
  }

  /** compareNewPackageExternalRefs: against every package held, in no
    * particular order (hash order), both reference arrays are sorted in
    * place by the comparator, the references that match but differ are
    * stored both ways round and what is unique to each side under its own
    * pair (as intended; see UniqueRefsAsWritten for what the code stores). */
  method CompareExternalRefsAgainstAll(dm: PairTable<seq<ExternalRefDifference>>, um: PairTable<seq<ExternalRef>>, doc: Doc,
                                       refs: seq<ExternalRef>, others: map<Doc, seq<ExternalRef>>)
    returns (rd: PairTable<seq<ExternalRefDifference>>, ur: PairTable<seq<ExternalRef>>, diff: bool)
    ensures RefDifferencesRecorded(dm, rd, doc, others.Keys, refs, others)
    ensures RecordedAgainst(um, ur, doc, others.Keys, refs, others, SortedUniqueRefs)
    ensures diff <==> RefsDifferAmong(doc, others.Keys, refs, others)
  {
    rd, ur, diff := dm, um, false;
    var current := refs;
    var todo := others.Keys;
    ghost var done: set<Doc> := {};
    while todo != {}
      invariant todo + done == others.Keys && todo !! done
      invariant SortByTypeName(current) == SortByTypeName(refs)
      invariant RefDifferencesRecorded(dm, rd, doc, done, refs, others)
      invariant RecordedAgainst(um, ur, doc, done, refs, others, SortedUniqueRefs)
      invariant diff <==> RefsDifferAmong(doc, done, refs, others)
      decreases |todo|
    {
      var d :| d in todo;
      var differences, inDoc, inCompare;
      current, differences, inDoc, inCompare := CompareRefs(current, Others(others, d));
      RefDifferencesRecordedStep(dm, rd, doc, done, d, refs, others);
      RefsDifferStep(doc, done, d, refs, others);
      RecordedStep(um, ur, doc, done, d, refs, others, SortedUniqueRefs);
      rd := Record(Record(rd, doc, d, differences), d, doc, differences);
      ur := Record(Record(ur, doc, d, inDoc), d, doc, inCompare);
      diff := diff || differences != [] || inDoc != [] || inCompare != [];
      todo, done := todo - {d}, done + {d};
    }
  }

  /** One package of compareNewPackageExternalRefs' loop: the new package's
    * references (sorted in place, so current is left sorted) against d's. */
  method CompareRefs(current: seq<ExternalRef>, compare: seq<ExternalRef>)
    returns (sorted: seq<ExternalRef>, differences: seq<ExternalRefDifference>,
             inDoc: seq<ExternalRef>, inCompare: seq<ExternalRef>)
    ensures SortByTypeName(sorted) == SortByTypeName(current)
    ensures differences == SortedRefDifferences(current, compare)
    ensures inDoc == SortedUniqueRefs(current, compare) && inCompare == SortedUniqueRefs(compare, current)
  {
    var a := ToArray(current);
    var b := ToArray(compare);
    differences := FindExternalRefDifferences(a, b);
    inDoc := FindUniqueExternalRefs(a[..], b[..]);
    inCompare := FindUniqueExternalRefs(b[..], a[..]);
    sorted := a[..];
    SortIdempotent(current);
  }

  /** After recording, the references unique to doc against d are doc's less
    * d's, counted by key with multiplicity, and those unique to d are d's
    * less doc's. */
  lemma UniqueRefsRecordedMeaning(m: PairTable<seq<ExternalRef>>, r: PairTable<seq<ExternalRef>>, doc: Doc, done: set<Doc>,
                                  refs: seq<ExternalRef>, others: map<Doc, seq<ExternalRef>>, d: Doc)
    requires RecordedAgainst(m, r, doc, done, refs, others, SortedUniqueRefs) && d in done && d != doc
    ensures multiset(KeysOf(Stored(r, doc, d))) == multiset(KeysOf(refs)) - multiset(KeysOf(Others(others, d)))
    ensures multiset(KeysOf(Stored(r, d, doc))) == multiset(KeysOf(Others(others, d))) - multiset(KeysOf(refs))
  {
    assert Lookup(r, doc, d) == Wanted(m, doc, done, refs, others, SortedUniqueRefs, doc, d);
    assert Lookup(r, d, doc) == Wanted(m, doc, done, refs, others, SortedUniqueRefs, d, doc);
    SortedUniqueRefsMeaning(refs, Others(others, d));
    SortedUniqueRefsMeaning(Others(others, d), refs);
  }

  /** After recording, (doc, d) and (d, doc) hold the same differences, each
    * pairing one of doc's references with one of d's of the same type and
    * locator that differs from it in comment or category. */
  lemma RefDifferencesRecordedMeaning(m: PairTable<seq<ExternalRefDifference>>, r: PairTable<seq<ExternalRefDifference>>,
                                      doc: Doc, done: set<Doc>, refs: seq<ExternalRef>, others: map<Doc, seq<ExternalRef>>, d: Doc)
    requires RefDifferencesRecorded(m, r, doc, done, refs, others) && d in done
    ensures Stored(r, doc, d) == Stored(r, d, doc)
    ensures forall x :: x in Stored(r, doc, d) ==>
      x.refA in refs && x.refB in Others(others, d) && Key(x.refA) == Key(x.refB) && Differ(x.refA, x.refB)
  {
    assert Lookup(r, doc, d) == WantedRefDifferences(m, doc, done, refs, others, doc, d);
    assert Lookup(r, d, doc) == WantedRefDifferences(m, doc, done, refs, others, d, doc);
    SortedRefDifferencesMeaning(refs, Others(others, d));
  }

  // ---------------------------------------------------------------- line 287 as written

  /** The unique-reference table as compareNewPackageExternalRefs builds it:
    * each document maps to a handle of an inner table kept in an arena, so
    * that two documents can share one inner table. */
  datatype AliasedTable = AliasedTable(outer: map<Doc, nat>, arena: seq<map<Doc, seq<ExternalRef>>>)

  /** What getUniqueExternalRefs(a, b) finds in an aliased table. */
  function AliasedLookup(t: AliasedTable, a: Doc, b: Doc): Option<seq<ExternalRef>>
  {
    if a in t.outer && t.outer[a] < |t.arena| && b in t.arena[t.outer[a]] then Some(t.arena[t.outer[a]][b]) else None
  }

  /** doc's inner table, a new empty one when it has none. */
  function InnerOf(t: AliasedTable, doc: Doc): (r: (AliasedTable, nat))
    ensures r.1 < |r.0.arena|
  {
    if doc in t.outer && t.outer[doc] < |t.arena| then (t, t.outer[doc])
    else (AliasedTable(t.outer[doc := |t.arena|], t.arena + [map[]]), |t.arena|)
  }

  /** The unique-reference part of compareNewPackageExternalRefs' loop as
    * written, over the packages held in iteration order (keys): doc's inner
    * table (handle) is stored as the key's table, then what is unique to the
    * key's references is stored in it under doc. What is unique to doc's
    * references is computed but never stored. */
  function UniqueRefsAsWritten(t: AliasedTable, handle: nat, doc: Doc, refs: seq<ExternalRef>, keys: seq<Doc>,
                               others: map<Doc, seq<ExternalRef>>): (r: AliasedTable)
    requires handle < |t.arena|
    ensures |r.arena| == |t.arena|
    decreases |keys|
  {
    if keys == [] then t
    else
      var k := keys[0];
      var inner: map<Doc, seq<ExternalRef>> := t.arena[handle][doc := SortedUniqueRefs(Others(others, k), refs)];
      UniqueRefsAsWritten(AliasedTable(t.outer[k := handle], t.arena[handle := inner]), handle, doc, refs, keys[1..], others)
  }

  /** A package of document 1 with one reference compared with the package of
    * document 0, which has none: as written, nothing is unique to document 1
    * against document 0, and document 1 against itself holds what is unique
    * to document 0; as intended, the reference is unique to document 1. */
  lemma UniqueRefsAsWrittenLosesReferences()
    ensures var r := ExternalRef(None, None, None, None);
      var start := InnerOf(AliasedTable(map[], []), 1);
      var t := UniqueRefsAsWritten(start.0, start.1, 1, [r], [0], map[0 := []]);
      && AliasedLookup(t, 1, 0) == None && AliasedLookup(t, 1, 1) == Some([])
      && SortedUniqueRefs([r], []) == [r]
      && Stored(Record(Record(map[], 1, 0, SortedUniqueRefs([r], [])), 0, 1, SortedUniqueRefs([], [r])), 1, 0) == [r]
  {
    var r := ExternalRef(None, None, None, None);
    assert SortByTypeName([r]) == [r] by {
      assert [r][..0] == [];
    }
    RecordLookup(Record(map[], 1, 0, [r]), 0, 1, SortedUniqueRefs([], [r]));
  }

  // ---------------------------------------------------------------- addDocumentPackage against the packages held

  /** Whether the comparison of a package added from doc with the packages
    * held (pkgs) can complete: the declared license compares with the first
    * package's, and the files with every package's. */
  ghost predicate PackageComparable(pkgs: map<Doc, PackageSide>, doc: Doc, side: PackageSide, xls: map<Doc, Xlation>,
                                    h: Helpers, first: Doc)
    requires first in pkgs
  {
    && LateFieldDifferences(side.pkg, pkgs[first].pkg, Translation(xls, first), h).Ok?
    && forall d :: d in pkgs ==> FilesComparable(doc, side.files, FilesOf(pkgs), h, d)
  }

  /** The aspects in which a package added from doc differs from the packages
    * held: its fields compared with first's, its checksums, files and
    * external references with every package's. */
  ghost function PackageDifferences(pkgs: map<Doc, PackageSide>, doc: Doc, side: PackageSide, xls: map<Doc, Xlation>,
                                    h: Helpers, first: Doc): set<PackageAspect>
    requires first in pkgs && PackageComparable(pkgs, doc, side, xls, h, first)
  {
    EarlyFieldDifferences(side.pkg, pkgs[first].pkg, h)
    + LateFieldDifferences(side.pkg, pkgs[first].pkg, Translation(xls, first), h).value
    + PackageListAspects(DifferentAmong(doc, pkgs.Keys, side.pkg.checksums, ChecksumsOf(pkgs), h.uniqueChecksums),
                         FilesDifferAmong(doc, pkgs.Keys, side.files, FilesOf(pkgs), h),
                         RefsDifferAmong(doc, pkgs.Keys, RefsOf(side), ExternalRefsOf(pkgs)))
  }

  /** The five tables after recording against every package held; doc's own
    * checksum table is started afresh. */
  ghost predicate PackageTablesRecorded(pkgs: map<Doc, PackageSide>, doc: Doc, side: PackageSide, h: Helpers,
                                        c0: PairTable<seq<Checksum>>, c: PairTable<seq<Checksum>>,
                                        fd0: PairTable<seq<FileDifference>>, fd: PairTable<seq<FileDifference>>,
                                        uf0: PairTable<seq<SpdxFile>>, uf: PairTable<seq<SpdxFile>>,
                                        rd0: PairTable<seq<ExternalRefDifference>>, rd: PairTable<seq<ExternalRefDifference>>,
                                        ur0: PairTable<seq<ExternalRef>>, ur: PairTable<seq<ExternalRef>>)
  {
    && RecordedAgainst(c0[doc := map[]], c, doc, pkgs.Keys, side.pkg.checksums, ChecksumsOf(pkgs), h.uniqueChecksums)
    && FileDifferencesRecorded(fd0, fd, doc, pkgs.Keys, side.files, FilesOf(pkgs), h)
    && RecordedAgainst(uf0, uf, doc, pkgs.Keys, side.files, FilesOf(pkgs), h.uniqueFiles)
    && RefDifferencesRecorded(rd0, rd, doc, pkgs.Keys, RefsOf(side), ExternalRefsOf(pkgs))
    && RecordedAgainst(ur0, ur, doc, pkgs.Keys, RefsOf(side), ExternalRefsOf(pkgs), SortedUniqueRefs)
  }

  /** The outcome of comparing a package added from doc with the packages held. */
  ghost predicate PackageCompared(pkgs: map<Doc, PackageSide>, doc: Doc, side: PackageSide, xlm: PairTable<Xlation>, h: Helpers,
                                  first: Doc, diff: set<PackageAspect>,
                                  c0: PairTable<seq<Checksum>>, c: PairTable<seq<Checksum>>,
                                  fd0: PairTable<seq<FileDifference>>, fd: PairTable<seq<FileDifference>>,
                                  uf0: PairTable<seq<SpdxFile>>, uf: PairTable<seq<SpdxFile>>,
                                  rd0: PairTable<seq<ExternalRefDifference>>, rd: PairTable<seq<ExternalRefDifference>>,
                                  ur0: PairTable<seq<ExternalRef>>, ur: PairTable<seq<ExternalRef>>)
  {
    && first in pkgs
    && doc in xlm
    && PackageComparable(pkgs, doc, side, xlm[doc], h, first)
    && diff == PackageDifferences(pkgs, doc, side, xlm[doc], h, first)
    && PackageTablesRecorded(pkgs, doc, side, h, c0, c, fd0, fd, uf0, uf, rd0, rd, ur0, ur)
  }

  /** Everything addDocumentPackage compares with the packages held (pkgs).
    * Without a package nothing is compared. Otherwise the first package in
    * hash order (first) is the one whose fields are compared; a missing
    * translation table for doc fails before anything is compared, and a
    * failing declared-license or file comparison ends it. */
  method ComparePackage(pkgs: map<Doc, PackageSide>, doc: Doc, side: PackageSide, xlm: PairTable<Xlation>, h: Helpers,
                        c0: PairTable<seq<Checksum>>, fd0: PairTable<seq<FileDifference>>, uf0: PairTable<seq<SpdxFile>>,
                        rd0: PairTable<seq<ExternalRefDifference>>, ur0: PairTable<seq<ExternalRef>>)
    returns (c: PairTable<seq<Checksum>>, fd: PairTable<seq<FileDifference>>, uf: PairTable<seq<SpdxFile>>,
             rd: PairTable<seq<ExternalRefDifference>>, ur: PairTable<seq<ExternalRef>>,
             diff: set<PackageAspect>, err: Option<string>, first: Doc)
    ensures pkgs == map[] ==> err.None? && diff == {} && c == c0 && fd == fd0 && uf == uf0 && rd == rd0 && ur == ur0
    ensures pkgs != map[] ==> first in pkgs
    ensures pkgs != map[] && doc !in xlm ==> err == Some(NULL_POINTER)
    ensures pkgs != map[] && doc in xlm ==> (err.None? <==> PackageComparable(pkgs, doc, side, xlm[doc], h, first))
    ensures err.None? && pkgs != map[] ==>
      PackageCompared(pkgs, doc, side, xlm, h, first, diff, c0, c, fd0, fd, uf0, uf, rd0, rd, ur0, ur)
  {
    c, fd, uf, rd, ur, diff, err, first := c0, fd0, uf0, rd0, ur0, {}, None, doc;
    if pkgs == map[] {
      return;
    }
    first :| first in pkgs;
    if doc !in xlm {
      err := Some(NULL_POINTER);
      return;
    }
    c, fd, uf, rd, ur, diff, err := CompareWithFirst(pkgs, first, doc, side, xlm[doc], h, c0, fd0, uf0, rd0, ur0);
  }

  /** The comparison once the first package and doc's translation table are known. */
  method CompareWithFirst(pkgs: map<Doc, PackageSide>, first: Doc, doc: Doc, side: PackageSide, xls: map<Doc, Xlation>, h: Helpers,
                          c0: PairTable<seq<Checksum>>, fd0: PairTable<seq<FileDifference>>, uf0: PairTable<seq<SpdxFile>>,
                          rd0: PairTable<seq<ExternalRefDifference>>, ur0: PairTable<seq<ExternalRef>>)
    returns (c: PairTable<seq<Checksum>>, fd: PairTable<seq<FileDifference>>, uf: PairTable<seq<SpdxFile>>,
             rd: PairTable<seq<ExternalRefDifference>>, ur: PairTable<seq<ExternalRef>>,
             diff: set<PackageAspect>, err: Option<string>)
    requires first in pkgs
    ensures err.None? <==> PackageComparable(pkgs, doc, side, xls, h, first)
    ensures err.None? ==> diff == PackageDifferences(pkgs, doc, side, xls, h, first)
    ensures err.None? ==> PackageTablesRecorded(pkgs, doc, side, h, c0, c, fd0, fd, uf0, uf, rd0, rd, ur0, ur)
  {
    var b := pkgs[first].pkg;
    var early := EarlyFieldDifferences(side.pkg, b, h);
    var dc, df, dr;
    fd, uf, rd, ur, diff := fd0, uf0, rd0, ur0, {};
    c, dc := CompareAgainstAll(c0[doc := map[]], doc, side.pkg.checksums, ChecksumsOf(pkgs), h.uniqueChecksums);
    var late := LateFieldDifferences(side.pkg, b, Translation(xls, first), h);
    if late.Err? {
      err := Some(late.error);
      return;
    }
    fd, uf, rd, ur, df, dr, err := CompareFilesAndRefs(pkgs, doc, side, h, fd0, uf0, rd0, ur0);
    if err.Some? {
      return;
    }
    diff := early + late.value + PackageListAspects(dc, df, dr);
  }

  /** The files, then the external references, of a package added from doc
    * compared with those of every package held (pkgs). */
  method CompareFilesAndRefs(pkgs: map<Doc, PackageSide>, doc: Doc, side: PackageSide, h: Helpers,
                             fd0: PairTable<seq<FileDifference>>, uf0: PairTable<seq<SpdxFile>>,
                             rd0: PairTable<seq<ExternalRefDifference>>, ur0: PairTable<seq<ExternalRef>>)
    returns (fd: PairTable<seq<FileDifference>>, uf: PairTable<seq<SpdxFile>>,
             rd: PairTable<seq<ExternalRefDifference>>, ur: PairTable<seq<ExternalRef>>,
             df: bool, dr: bool, err: Option<string>)
    ensures err.None? <==> forall d :: d in pkgs ==> FilesComparable(doc, side.files, FilesOf(pkgs), h, d)
    ensures err.None? ==>
      && FileDifferencesRecorded(fd0, fd, doc, pkgs.Keys, side.files, FilesOf(pkgs), h)
      && RecordedAgainst(uf0, uf, doc, pkgs.Keys, side.files, FilesOf(pkgs), h.uniqueFiles)
      && (df <==> FilesDifferAmong(doc, pkgs.Keys, side.files, FilesOf(pkgs), h))
      && RefDifferencesRecorded(rd0, rd, doc, pkgs.Keys, RefsOf(side), ExternalRefsOf(pkgs))
      && RecordedAgainst(ur0, ur, doc, pkgs.Keys, RefsOf(side), ExternalRefsOf(pkgs), SortedUniqueRefs)
      && (dr <==> RefsDifferAmong(doc, pkgs.Keys, RefsOf(side), ExternalRefsOf(pkgs)))
  {
    rd, ur, dr := rd0, ur0, false;
    fd, uf, df, err := CompareFilesAgainstAll(fd0, uf0, doc, side.files, FilesOf(pkgs), h);
    if err.Some? {
      return;
    }
    rd, ur, dr := CompareExternalRefsAgainstAll(rd0, ur0, doc, RefsOf(side), ExternalRefsOf(pkgs));
  }

  // ---------------------------------------------------------------- the comparer

  /** SpdxPackageComparer: an item comparer (item) extended with the package
    * aspects, its own in-progress and difference flags, and the per-pair
    * tables of the package lists. */
  class PackageComparer {
    /** The item comparer this comparer extends; it holds the name and the
      * items added. */
    const item: ItemComparer
    var inProgress: bool
    /** Set by any package difference, never cleared. */
    var differenceFound: bool
    /** The package aspects whose equality flag has been cleared. */
    var differing: set<PackageAspect>
    var uniqueChecksums: PairTable<seq<Checksum>>
    var uniqueFiles: PairTable<seq<SpdxFile>>
    var fileDifferences: PairTable<seq<FileDifference>>
    var uniqueExternalRefs: PairTable<seq<ExternalRef>>
    var externalRefDifferences: PairTable<seq<ExternalRefDifference>>

    /** A new comparer: nothing added, every aspect equal. */
    constructor(extractedLicenseIdMap: PairTable<Xlation>)
      ensures fresh(item) && item.extractedLicenseIdMap == extractedLicenseIdMap && !item.snippetComparer
      ensures !item.inProgress && !item.differenceFound && item.differing == {} && item.name.None?
      ensures item.uniqueLicenseInfosInFiles == map[] && item.uniqueRelationships == map[] && item.uniqueAnnotations == map[]
      ensures item.documentItem == map[]
      ensures !inProgress && !differenceFound && differing == {}
      ensures uniqueChecksums == map[] && uniqueFiles == map[] && fileDifferences == map[]
      ensures uniqueExternalRefs == map[] && externalRefDifferences == map[]
    {
      item := new ItemComparer(extractedLicenseIdMap, false);
      inProgress, differenceFound, differing := false, false, {};
      uniqueChecksums, uniqueFiles, fileDifferences := map[], map[], map[];
      uniqueExternalRefs, externalRefDifferences := map[], map[];
    }

    /** checkInProgress: this comparer's flag, then the item comparer's. */
    function ProgressError(): (r: Option<string>)
      reads this`inProgress, item`inProgress
      ensures r.None? <==> !inProgress && !item.inProgress
      ensures r.Some? ==> r == Some(COMPARE_IN_PROGRESS)
    {
      if inProgress || item.inProgress then Some(COMPARE_IN_PROGRESS) else None
    }

    /** The name check of addDocumentPackage: the first package names the
      * comparer; every later one must carry that name. */
    method CheckName(side: PackageSide) returns (err: Option<string>)
      modifies item`name
      ensures old(item.name).None? ==> err.None? && item.name == side.pkg.item.name
      ensures old(item.name).Some? ==> item.name == old(item.name)
      ensures old(item.name).Some? ==> (err.None? <==> old(item.name) == side.pkg.item.name)
      ensures old(item.name).Some? && old(item.name) != side.pkg.item.name ==>
        err == Some(NamesDiffer(side.pkg.item.name, old(item.name).value))
    {
      err := None;
      if item.name.None? {
        item.name := side.pkg.item.name;
      } else if item.name != side.pkg.item.name {
        err := Some(NamesDiffer(side.pkg.item.name, item.name.value));
      }
    }

    /** The comparison with the packages held, recorded in this comparer. */
    method ComparePackages(doc: Doc, side: PackageSide, h: Helpers) returns (err: Option<string>, ghost first: Doc, ghost diff: set<PackageAspect>)
      modifies this`differing, this`differenceFound, this`uniqueChecksums, this`uniqueFiles, this`fileDifferences,
               this`uniqueExternalRefs, this`externalRefDifferences
      ensures differing == old(differing) + diff && differenceFound == (old(differenceFound) || diff != {})
      ensures PackagesOf(item.documentItem) == map[] ==>
        err.None? && diff == {} && uniqueChecksums == old(uniqueChecksums) && uniqueFiles == old(uniqueFiles) &&
        fileDifferences == old(fileDifferences) && uniqueExternalRefs == old(uniqueExternalRefs) &&
        externalRefDifferences == old(externalRefDifferences)
      ensures PackagesOf(item.documentItem) != map[] ==> first in PackagesOf(item.documentItem)
      ensures PackagesOf(item.documentItem) != map[] && doc !in item.extractedLicenseIdMap ==> err == Some(NULL_POINTER)
      ensures PackagesOf(item.documentItem) != map[] && doc in item.extractedLicenseIdMap ==>
        (err.None? <==> PackageComparable(PackagesOf(item.documentItem), doc, side, item.extractedLicenseIdMap[doc], h, first))
      ensures err.None? && PackagesOf(item.documentItem) != map[] ==>
        PackageCompared(PackagesOf(item.documentItem), doc, side, item.extractedLicenseIdMap, h, first, diff,
                        old(uniqueChecksums), uniqueChecksums, old(fileDifferences), fileDifferences,
                        old(uniqueFiles), uniqueFiles, old(externalRefDifferences), externalRefDifferences,
                        old(uniqueExternalRefs), uniqueExternalRefs)
    {
      var pkgs := PackagesOf(item.documentItem);
      var xlm := item.extractedLicenseIdMap;
      var c0, fd0, uf0, rd0, ur0 := uniqueChecksums, fileDifferences, uniqueFiles, externalRefDifferences, uniqueExternalRefs;
      var c, fd, uf, rd, ur, d, f;
      c, fd, uf, rd, ur, d, err, f := ComparePackage(pkgs, doc, side, xlm, h, c0, fd0, uf0, rd0, ur0);
      uniqueChecksums, fileDifferences, uniqueFiles, externalRefDifferences, uniqueExternalRefs := c, fd, uf, rd, ur;
      first, diff := f, d;
      differing := differing + d;
      differenceFound := differenceFound || d != {};
    }

    /** addDocumentPackage once its checks have passed: the comparison with
      * the packages held, then the package added as an item. Any failure
      * leaves the comparer in progress. */
    method CompareAndHold(doc: Doc, attributionText: seq<string>, side: PackageSide, h: Helpers)
      returns (err: Option<string>, ghost first: Doc, ghost diff: set<PackageAspect>, ghost itemFirst: Doc, ghost itemDiff: set<ItemAspect>)
      requires !inProgress && !item.inProgress && item.name == side.pkg.item.name
      modifies this`inProgress, this`differing, this`differenceFound, this`uniqueChecksums, this`uniqueFiles,
               this`fileDifferences, this`uniqueExternalRefs, this`externalRefDifferences, item
      ensures old(differing) <= differing && (old(differenceFound) ==> differenceFound)
      ensures err.Some? ==> ProgressError().Some? && item.documentItem == old(item.documentItem)
      ensures err.None? ==> ProgressError().None? && item.name == old(item.name)
      ensures err.None? ==> differing == old(differing) + diff && differenceFound == (old(differenceFound) || diff != {})
      ensures err.None? && PackagesOf(old(item.documentItem)) == map[] ==>
        diff == {} && uniqueChecksums == old(uniqueChecksums) && uniqueFiles == old(uniqueFiles) &&
        fileDifferences == old(fileDifferences) && uniqueExternalRefs == old(uniqueExternalRefs) &&
        externalRefDifferences == old(externalRefDifferences)
      ensures err.None? && PackagesOf(old(item.documentItem)) != map[] ==>
        PackageCompared(PackagesOf(old(item.documentItem)), doc, side, item.extractedLicenseIdMap, h, first, diff,
                        old(uniqueChecksums), uniqueChecksums, old(fileDifferences), fileDifferences,
                        old(uniqueFiles), uniqueFiles, old(externalRefDifferences), externalRefDifferences,
                        old(uniqueExternalRefs), uniqueExternalRefs)
      ensures err.None? ==>
        item.documentItem == old(item.documentItem)[doc := ComparedItem(side.pkg.item, attributionText, Some(side))]
      ensures err.None? ==> item.differing == old(item.differing) + itemDiff && item.differenceFound == (itemDiff != {})
      ensures err.None? && old(item.documentItem) != map[] ==>
        ItemCompared(old(item.documentItem), doc, ComparedItem(side.pkg.item, attributionText, Some(side)),
                     item.extractedLicenseIdMap, h, itemFirst, itemDiff,
                     old(item.uniqueLicenseInfosInFiles), item.uniqueLicenseInfosInFiles,
                     old(item.uniqueRelationships), item.uniqueRelationships,
                     old(item.uniqueAnnotations), item.uniqueAnnotations)
    {
      itemFirst, itemDiff := doc, {};
      inProgress := true;
      err, first, diff := ComparePackages(doc, side, h);
      if err.Some? {
        return;
      }
      inProgress := false;
      err, itemFirst, itemDiff := item.AddDocumentItem(doc, ComparedItem(side.pkg.item, attributionText, Some(side)), h);
    }

    /** addDocumentPackage: refused while a comparison is in progress or when
      * the name differs from the comparer's; otherwise compared with the
      * packages held and added as an item. */
    method AddDocumentPackage(doc: Doc, attributionText: seq<string>, side: PackageSide, h: Helpers)
      returns (err: Option<string>, ghost first: Doc, ghost diff: set<PackageAspect>, ghost itemFirst: Doc, ghost itemDiff: set<ItemAspect>)
      modifies this`inProgress, this`differing, this`differenceFound, this`uniqueChecksums, this`uniqueFiles,
               this`fileDifferences, this`uniqueExternalRefs, this`externalRefDifferences, item
      ensures old(ProgressError()).Some? ==> err == old(ProgressError()) && unchanged(this) && unchanged(item)
      ensures old(ProgressError()).None? && old(item.name).Some? && old(item.name) != side.pkg.item.name ==>
        err == Some(NamesDiffer(side.pkg.item.name, old(item.name).value)) && unchanged(this) && unchanged(item)
      ensures old(differing) <= differing && (old(differenceFound) ==> differenceFound)
      ensures err.Some? ==> ProgressError().Some? || (unchanged(this) && unchanged(item))
      ensures err.None? ==> ProgressError().None? && item.name == (if old(item.name).None? then side.pkg.item.name else old(item.name))
      ensures err.None? ==> differing == old(differing) + diff && differenceFound == (old(differenceFound) || diff != {})
      ensures err.None? && PackagesOf(old(item.documentItem)) == map[] ==>
        diff == {} && uniqueChecksums == old(uniqueChecksums) && uniqueFiles == old(uniqueFiles) &&
        fileDifferences == old(fileDifferences) && uniqueExternalRefs == old(uniqueExternalRefs) &&
        externalRefDifferences == old(externalRefDifferences)
      ensures err.None? && PackagesOf(old(item.documentItem)) != map[] ==>
        PackageCompared(PackagesOf(old(item.documentItem)), doc, side, item.extractedLicenseIdMap, h, first, diff,
                        old(uniqueChecksums), uniqueChecksums, old(fileDifferences), fileDifferences,
                        old(uniqueFiles), uniqueFiles, old(externalRefDifferences), externalRefDifferences,
                        old(uniqueExternalRefs), uniqueExternalRefs)
      ensures err.None? ==>
        item.documentItem == old(item.documentItem)[doc := ComparedItem(side.pkg.item, attributionText, Some(side))]
      ensures err.None? ==> item.differing == old(item.differing) + itemDiff && item.differenceFound == (itemDiff != {})
      ensures err.None? && old(item.documentItem) != map[] ==>
        ItemCompared(old(item.documentItem), doc, ComparedItem(side.pkg.item, attributionText, Some(side)),
                     item.extractedLicenseIdMap, h, itemFirst, itemDiff,
                     old(item.uniqueLicenseInfosInFiles), item.uniqueLicenseInfosInFiles,
                     old(item.uniqueRelationships), item.uniqueRelationships,
                     old(item.uniqueAnnotations), item.uniqueAnnotations)
    {
      first, diff, itemFirst, itemDiff := doc, {}, doc, {};
      err := ProgressError();
      if err.Some? {
        return;
      }
      err := CheckName(side);
      if err.Some? {
        return;
      }
      err, first, diff, itemFirst, itemDiff := CompareAndHold(doc, attributionText, side, h);
    }

    /** isInProgress: this comparer's own flag, without any check. */
    function IsInProgress(): (r: bool)
      reads this`inProgress, item`inProgress
      ensures r ==> ProgressError().Some?
      ensures !r ==> (ProgressError().Some? <==> item.inProgress)
    {
      inProgress
    }

    /** isDifferenceFound: a package difference found by any addition, or an
      * item difference found by the last. */
    function IsDifferenceFound(): (r: Result<bool>)
      reads this`inProgress, this`differenceFound, item`inProgress, item`documentItem, item`differenceFound
      ensures ProgressError().Some? ==> r == Err(COMPARE_IN_PROGRESS)
      ensures ProgressError().None? && differenceFound ==> r == Ok(true)
      ensures ProgressError().None? && !differenceFound ==> r == item.IsDifferenceFound()
      ensures r.Ok? ==> (r.value <==> differenceFound || item.differenceFound)
    {
      if ProgressError().Some? then Err(ProgressError().value)
      else if differenceFound then Ok(true)
      else item.IsDifferenceFound()
    }

    /** The package is...Equals getters: whether no difference in aspect a has been found. */
    function IsAspectEqual(a: PackageAspect): (r: Result<bool>)
      reads this`inProgress, this`differing, item`inProgress
      ensures r.Err? <==> ProgressError().Some?
      ensures r.Ok? ==> (r.value <==> a !in differing)
    {
      if ProgressError().Some? then Err(ProgressError().value) else Ok(a !in differing)
    }

    /** The inherited is...Equals getters, which check this comparer's flag too. */
    function IsItemAspectEqual(a: ItemAspect): (r: Result<bool>)
      reads this`inProgress, item`inProgress, item`documentItem, item`differing
      ensures r.Err? <==> ProgressError().Some? || item.ResultError().Some?
      ensures r.Err? ==> r.error == (if inProgress then COMPARE_IN_PROGRESS else item.ResultError().value)
      ensures r.Ok? ==> (r.value <==> a !in item.differing)
    {
      if ProgressError().Some? then Err(ProgressError().value) else item.IsAspectEqual(a)
    }

    /** getDocPackage: the package added from doc, if the item added from doc is one. */
    function GetDocPackage(doc: Doc): (r: Option<PackageSide>)
      reads item`documentItem
      ensures r.Some? <==> doc in item.documentItem && item.documentItem[doc].package.Some?
      ensures r.Some? ==> r.value == item.documentItem[doc].package.value
    {
      if doc in item.documentItem then item.documentItem[doc].package else None
    }

    /** getUniqueChecksums: the checksums of a's package in none of b's. */
    function GetUniqueChecksums(a: Doc, b: Doc): (r: Result<seq<Checksum>>)
      reads this`inProgress, this`uniqueChecksums, item`inProgress
      ensures r.Err? <==> ProgressError().Some?
      ensures r.Ok? ==> r.value == Stored(uniqueChecksums, a, b)
      ensures r.Ok? && Lookup(uniqueChecksums, a, b).None? ==> r.value == []
    {
      if ProgressError().Some? then Err(ProgressError().value) else Ok(Stored(uniqueChecksums, a, b))
    }

    /** getUniqueExternalRefs: the references of a's package unmatched in b's. */
    function GetUniqueExternalRefs(a: Doc, b: Doc): (r: Result<seq<ExternalRef>>)
      reads this`inProgress, this`uniqueExternalRefs, item`inProgress
      ensures r.Err? <==> ProgressError().Some?
      ensures r.Ok? ==> r.value == Stored(uniqueExternalRefs, a, b)
      ensures r.Ok? && Lookup(uniqueExternalRefs, a, b).None? ==> r.value == []
    {
      if ProgressError().Some? then Err(ProgressError().value) else Ok(Stored(uniqueExternalRefs, a, b))
    }

    /** getExternalRefDifferences: the matching references of a's and b's packages that differ. */
    function GetExternalRefDifferences(a: Doc, b: Doc): (r: Result<seq<ExternalRefDifference>>)
      reads this`inProgress, this`externalRefDifferences, item`inProgress
      ensures r.Err? <==> ProgressError().Some?
      ensures r.Ok? ==> r.value == Stored(externalRefDifferences, a, b)
      ensures r.Ok? && Lookup(externalRefDifferences, a, b).None? ==> r.value == []
    {
      if ProgressError().Some? then Err(ProgressError().value) else Ok(Stored(externalRefDifferences, a, b))
    }

    /** getFileDifferences: the files of the same name in a's and b's packages that differ. */
    function GetFileDifferences(a: Doc, b: Doc): (r: Result<seq<FileDifference>>)
      reads this`inProgress, this`fileDifferences, item`inProgress
      ensures r.Err? <==> ProgressError().Some?
      ensures r.Ok? ==> r.value == Stored(fileDifferences, a, b)
      ensures r.Ok? && Lookup(fileDifferences, a, b).None? ==> r.value == []
    {
      if ProgressError().Some? then Err(ProgressError().value) else Ok(Stored(fileDifferences, a, b))
    }

    /** getUniqueFiles: the files of a's package whose names b's lacks. */
    function GetUniqueFiles(a: Doc, b: Doc): (r: Result<seq<SpdxFile>>)
      reads this`inProgress, this`uniqueFiles, item`inProgress
      ensures r.Err? <==> ProgressError().Some?
      ensures r.Ok? ==> r.value == Stored(uniqueFiles, a, b)
      ensures r.Ok? && Lookup(uniqueFiles, a, b).None? ==> r.value == []
    {
      if ProgressError().Some? then Err(ProgressError().value) else Ok(Stored(uniqueFiles, a, b))
    }

    /** getPackageName: the name the first package gave the comparer. */
    function GetPackageName(): (r: Result<Option<string>>)
      reads this`inProgress, item`inProgress, item`name
      ensures r.Err? <==> ProgressError().Some?
      ensures r.Ok? ==> r.value == item.name
    {
      if ProgressError().Some? then Err(ProgressError().value) else Ok(item.name)
    }

    /** getNumPackages: the number of documents whose items were added. */
    function GetNumPackages(): (r: Result<nat>)
      reads this`inProgress, item`inProgress, item`documentItem
      ensures r.Err? <==> ProgressError().Some?
      ensures r.Ok? ==> r.value == |item.documentItem.Keys|
    {
      if ProgressError().Some? then Err(ProgressError().value) else Ok(|item.documentItem|)
    }
  }
}
