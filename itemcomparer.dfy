// The comparer of one SPDX item across several documents: each item added is
// compared with the items added before it, the aspects found different are
// recorded, and what is unique to each side is kept per ordered pair of
// documents. The equality tests on strings, licenses, relationships and
// annotations belong to other classes and are parameters.

module ItemComparison {
  import opened Wrappers
  import opened SpdxTypes
  import SpdxPackageModel
  import SpdxFileModel

  /** Documents are compared by identity. */
  type Doc = nat

  /** The translation of extracted-license IDs from one document to another. */
  type Xlation = map<string, string>

  /** A table of results keyed by an ordered pair of documents. */
  type PairTable<T> = map<Doc, map<Doc, T>>

  /** The entry for (a, b), if there is one. */
  function Lookup<T>(m: PairTable<T>, a: Doc, b: Doc): Option<T>
  {
    if a in m && b in m[a] then Some(m[a][b]) else None
  }

  /** The table with v stored for (a, b), the inner table created when missing. */
  function Record<T>(m: PairTable<T>, a: Doc, b: Doc, v: T): PairTable<T>
  {
    m[a := (if a in m then m[a] else map[])[b := v]]
  }

  /** Recording v for (a, b) sets that entry and leaves every other one. */
  lemma RecordLookup<T>(m: PairTable<T>, a: Doc, b: Doc, v: T)
    ensures Lookup(Record(m, a, b, v), a, b) == Some(v)
    ensures forall p: Doc, q: Doc :: (p, q) != (a, b) ==> Lookup(Record(m, a, b, v), p, q) == Lookup(m, p, q)
  {
  }

  /** What a result getter returns for (a, b): the stored list, or an empty one. */
  function Stored<T>(m: PairTable<seq<T>>, a: Doc, b: Doc): (r: seq<T>)
    ensures Lookup(m, a, b).None? ==> r == []
    ensures Lookup(m, a, b).Some? ==> r == m[a][b]
  {
    Lookup(m, a, b).GetOr([])
  }

  /** The aspects of an item whose equality the comparer tracks; an aspect is
    * in the comparer's set once a difference in it has been found. */
  datatype ItemAspect =
    | Comments | ConcludedLicense | Copyrights | AttributionText
    | LicenseComments | SeenLicenses | Relationships | Annotations

  /** A package as the package comparer sees it: the package and its files. */
  datatype PackageSide = PackageSide(pkg: SpdxPackageModel.SpdxPackage, files: seq<SpdxFileModel.SpdxFile>)

  /** A difference between two files with the same name, as the file
    * comparison reports it: the two files. */
  datatype FileDifference = FileDifference(fileA: SpdxFileModel.SpdxFile, fileB: SpdxFileModel.SpdxFile)

  /** An item added to a comparer: its item fields, its attribution text and,
    * for a package, the package. */
  datatype ComparedItem = ComparedItem(item: Item, attributionText: seq<string>, package: Option<PackageSide>)

  /** The comparisons the comparers delegate: string, string-list and license
    * equality (license equality under a translation of license IDs, which may
    * fail), the unique relationships, annotations, checksums and files of one
    * list against another, verification-code equality, and the differences
    * between two sorted file lists, which may fail. */
  datatype Helpers = Helpers(
    stringsEqual: (Option<string>, Option<string>) -> bool,
    stringArraysEqual: (seq<string>, seq<string>) -> bool,
    licenseEqual: (Option<string>, Option<string>, Option<Xlation>) -> Result<bool>,
    uniqueRelationships: (seq<Relationship>, seq<Relationship>) -> seq<Relationship>,
    uniqueAnnotations: (seq<Annotation>, seq<Annotation>) -> seq<Annotation>,
    verificationCodesEqual: (Option<VerificationCode>, Option<VerificationCode>) -> bool,
    uniqueChecksums: (seq<Checksum>, seq<Checksum>) -> seq<Checksum>,
    uniqueFiles: (seq<SpdxFileModel.SpdxFile>, seq<SpdxFileModel.SpdxFile>) -> seq<SpdxFileModel.SpdxFile>,
    fileDifferences: (Doc, Doc, seq<SpdxFileModel.SpdxFile>, seq<SpdxFileModel.SpdxFile>) -> Result<seq<FileDifference>>)

  const ADD_IN_PROGRESS: string := "Trying to add a document item while another document item is being added."
  const COMPARE_IN_PROGRESS: string := "File compare in progress - can not obtain compare results until compare has completed"
  const NO_COMPARE_MADE: string := "Trying to obtain results of a file compare before a file compare has been performed"
  /** The exception dereferencing a missing license-ID translation table throws. */
  const NULL_POINTER: string := "java.lang.NullPointerException"

  function NamesDiffer(found: Option<string>, expected: string): string
  {
    "Names do not match for item being added to comparer: " + NullToText(found) + ", expecting " + expected
  }

  // ---------------------------------------------------------------- compareLicenseArrays

  /** isLicenseEqual with x on the left (xLeft) or on the right. */
  function LicenseEq(x: string, y: string, xLeft: bool, xl: Option<Xlation>, h: Helpers): Result<bool>
  {
    if xLeft then h.licenseEqual(Some(x), Some(y), xl) else h.licenseEqual(Some(y), Some(x), xl)
  }

  /** The inner loop from position j: whether x equals a license of ys[j..];
    * the first failing comparison ends the search with its error. */
  function FindFrom(x: string, ys: seq<string>, j: nat, xLeft: bool, xl: Option<Xlation>, h: Helpers): (r: Result<bool>)
    requires j <= |ys|
    decreases |ys| - j
  {
    if j == |ys| then Ok(false)
    else match LicenseEq(x, ys[j], xLeft, xl, h)
      case Err(e) => Err(e)
      case Ok(eq) => if eq then Ok(true) else FindFrom(x, ys, j + 1, xLeft, xl, h)
  }

  /** The outer loop from position i: the licenses of xs[i..], in order, that
    * equal no license of ys; the first failing comparison ends it. */
  function UniqueFrom(xs: seq<string>, ys: seq<string>, i: nat, xLeft: bool, xl: Option<Xlation>, h: Helpers): (r: Result<seq<string>>)
    requires i <= |xs|
    decreases |xs| - i
  {
    if i == |xs| then Ok([])
    else match FindFrom(xs[i], ys, 0, xLeft, xl, h)
      case Err(e) => Err(e)
      case Ok(found) =>
        match UniqueFrom(xs, ys, i + 1, xLeft, xl, h)
        case Err(e) => Err(e)
        case Ok(rest) => Ok(if found then rest else [xs[i]] + rest)
  }

  function UniqueLicenses(xs: seq<string>, ys: seq<string>, xLeft: bool, xl: Option<Xlation>, h: Helpers): Result<seq<string>>
  {
    UniqueFrom(xs, ys, 0, xLeft, xl, h)
  }

  /** x equals some license of ys. */
  ghost predicate Matched(x: string, ys: seq<string>, xLeft: bool, xl: Option<Xlation>, h: Helpers)
  {
    exists j :: 0 <= j < |ys| && LicenseEq(x, ys[j], xLeft, xl, h) == Ok(true)
  }

  /** No comparison of x with a license of ys fails. */
  ghost predicate Comparable(x: string, ys: seq<string>, xLeft: bool, xl: Option<Xlation>, h: Helpers)
  {
    forall j :: 0 <= j < |ys| ==> LicenseEq(x, ys[j], xLeft, xl, h).Ok?
  }

  /** The reference definition: the licenses of xs[i..], in order, matched by no license of ys. */
  ghost function UnmatchedFrom(xs: seq<string>, ys: seq<string>, i: nat, xLeft: bool, xl: Option<Xlation>, h: Helpers): seq<string>
    requires i <= |xs|
    decreases |xs| - i
  {
    if i == |xs| then []
    else if Matched(xs[i], ys, xLeft, xl, h) then UnmatchedFrom(xs, ys, i + 1, xLeft, xl, h)
    else [xs[i]] + UnmatchedFrom(xs, ys, i + 1, xLeft, xl, h)
  }

  /** When no comparison fails, the search finds x exactly when x is matched. */
  lemma {:induction false} FindFromMeaning(x: string, ys: seq<string>, j: nat, xLeft: bool, xl: Option<Xlation>, h: Helpers)
    requires j <= |ys| && Comparable(x, ys, xLeft, xl, h)
    ensures FindFrom(x, ys, j, xLeft, xl, h).Ok?
    ensures FindFrom(x, ys, j, xLeft, xl, h).value <==>
      exists k :: j <= k < |ys| && LicenseEq(x, ys[k], xLeft, xl, h) == Ok(true)
    decreases |ys| - j
  {
    if j < |ys| {
      FindFromMeaning(x, ys, j + 1, xLeft, xl, h);
    }
  }

  /** When no comparison fails, the licenses kept as unique are exactly the
    * licenses of xs, in order, that equal no license of ys. */
  lemma {:induction false} UniqueFromMeaning(xs: seq<string>, ys: seq<string>, i: nat, xLeft: bool, xl: Option<Xlation>, h: Helpers)
    requires i <= |xs|
    requires forall k :: i <= k < |xs| ==> Comparable(xs[k], ys, xLeft, xl, h)
    ensures UniqueFrom(xs, ys, i, xLeft, xl, h) == Ok(UnmatchedFrom(xs, ys, i, xLeft, xl, h))
    decreases |xs| - i
  {
    if i < |xs| {
      FindFromMeaning(xs[i], ys, 0, xLeft, xl, h);
      UniqueFromMeaning(xs, ys, i + 1, xLeft, xl, h);
    }
  }

  /** Every license kept as unique is a license of xs that equals no license of ys. */
  lemma {:induction false} UnmatchedSound(xs: seq<string>, ys: seq<string>, i: nat, xLeft: bool, xl: Option<Xlation>, h: Helpers, x: string)
    requires i <= |xs|
    requires x in UnmatchedFrom(xs, ys, i, xLeft, xl, h)
    ensures x in xs[i..] && !Matched(x, ys, xLeft, xl, h)
    decreases |xs| - i
  {
    if i < |xs| {
      assert xs[i..] == [xs[i]] + xs[i + 1..];
      if x != xs[i] || Matched(xs[i], ys, xLeft, xl, h) {
        UnmatchedSound(xs, ys, i + 1, xLeft, xl, h, x);
      }
    }
  }

  /** Every license of xs that equals no license of ys is kept as unique. */
  lemma {:induction false} UnmatchedComplete(xs: seq<string>, ys: seq<string>, i: nat, xLeft: bool,
                                             xl: Option<Xlation>, h: Helpers, k: nat)
    requires i <= k < |xs| && !Matched(xs[k], ys, xLeft, xl, h)
    ensures xs[k] in UnmatchedFrom(xs, ys, i, xLeft, xl, h)
    decreases k - i
  {
    if i < k {
      UnmatchedComplete(xs, ys, i + 1, xLeft, xl, h, k);
    }
  }

  /** The inner loop of compareLicenseArrays: stops at the first equal license. */
  method SearchLicense(x: string, ys: seq<string>, xLeft: bool, xl: Option<Xlation>, h: Helpers) returns (r: Result<bool>)
    ensures r == FindFrom(x, ys, 0, xLeft, xl, h)
  {
    var j := 0;
    while j < |ys|
      invariant 0 <= j <= |ys|
      invariant FindFrom(x, ys, 0, xLeft, xl, h) == FindFrom(x, ys, j, xLeft, xl, h)
    {
      var eq := LicenseEq(x, ys[j], xLeft, xl, h);
      if eq.Err? {
        return Err(eq.error);
      }
      if eq.value {
        return Ok(true);
      }
      j := j + 1;
    }
    return Ok(false);
  }

  /** acc followed by what r holds, the error of r otherwise. */
  function Prepend(acc: seq<string>, r: Result<seq<string>>): Result<seq<string>>
  {
    match r
    case Err(e) => Err(e)
    case Ok(rest) => Ok(acc + rest)
  }

  lemma PrependEmpty(r: Result<seq<string>>)
    ensures Prepend([], r) == r
  {
    if r.Ok? {
      assert [] + r.value == r.value;
    }
  }

  /** One license of the outer loop: kept when not found. */
  lemma UniqueFromStep(acc: seq<string>, xs: seq<string>, ys: seq<string>, i: nat, xLeft: bool, xl: Option<Xlation>, h: Helpers)
    requires i < |xs| && FindFrom(xs[i], ys, 0, xLeft, xl, h).Ok?
    ensures Prepend(acc, UniqueFrom(xs, ys, i, xLeft, xl, h)) ==
      Prepend(if FindFrom(xs[i], ys, 0, xLeft, xl, h).value then acc else acc + [xs[i]], UniqueFrom(xs, ys, i + 1, xLeft, xl, h))
  {
    var rest := UniqueFrom(xs, ys, i + 1, xLeft, xl, h);
    if rest.Ok? {
      assert acc + ([xs[i]] + rest.value) == (acc + [xs[i]]) + rest.value;
    }
  }

  /** The outer loop of compareLicenseArrays: each license of xs not found in
    * ys is appended to the result list. */
  method CollectUnique(xs: seq<string>, ys: seq<string>, xLeft: bool, xl: Option<Xlation>, h: Helpers)
    returns (r: Result<seq<string>>)
    ensures r == UniqueLicenses(xs, ys, xLeft, xl, h)
  {
    var acc: seq<string> := [];
    PrependEmpty(UniqueFrom(xs, ys, 0, xLeft, xl, h));
    var i := 0;
    while i < |xs|
      invariant 0 <= i <= |xs|
      invariant UniqueFrom(xs, ys, 0, xLeft, xl, h) == Prepend(acc, UniqueFrom(xs, ys, i, xLeft, xl, h))
    {
      var found := SearchLicense(xs[i], ys, xLeft, xl, h);
      if found.Err? {
        return Err(found.error);
      }
      UniqueFromStep(acc, xs, ys, i, xLeft, xl, h);
      if !found.value {
        acc := acc + [xs[i]];
      }
      i := i + 1;
    }
    assert acc + [] == acc;
    return Ok(acc);
  }

  /** compareLicenseArrays: the licenses of a equal to none of b, then those of
    * b equal to none of a (the helper always gets a's license first). */
  method CompareLicenseArrays(a: seq<string>, b: seq<string>, xl: Option<Xlation>, h: Helpers)
    returns (uniqueA: seq<string>, uniqueB: seq<string>, err: Option<string>)
    ensures var ra := UniqueLicenses(a, b, true, xl, h);
      var rb := UniqueLicenses(b, a, false, xl, h);
      && (ra.Err? ==> err == Some(ra.error))
      && (ra.Ok? && rb.Err? ==> err == Some(rb.error))
      && (ra.Ok? && rb.Ok? ==> err.None? && uniqueA == ra.value && uniqueB == rb.value)
  {
    uniqueA, uniqueB, err := [], [], None;
    var ra := CollectUnique(a, b, true, xl, h);
    if ra.Err? {
      err := Some(ra.error);
      return;
    }
    var rb := CollectUnique(b, a, false, xl, h);
    if rb.Err? {
      err := Some(rb.error);
      return;
    }
    uniqueA, uniqueB := ra.value, rb.value;
  }

  // ---------------------------------------------------------------- the per-pair tables

  /** The list held for d, empty when there is none. */
  function Others<T>(others: map<Doc, seq<T>>, d: Doc): seq<T>
  {
    if d in others then others[d] else []
  }

  /** What the entry for (p, q) should be after recording against the
    * documents of done: (d, doc) holds what is unique to d's list, (doc, d)
    * what is unique to xs (for d == doc, the later of the two writes), and
    * every other entry is as it was in m. */
  ghost function Wanted<T>(m: PairTable<seq<T>>, doc: Doc, done: set<Doc>, xs: seq<T>, others: map<Doc, seq<T>>,
                           unique: (seq<T>, seq<T>) -> seq<T>, p: Doc, q: Doc): Option<seq<T>>
  {
    if q == doc && p in done then Some(unique(Others(others, p), xs))
    else if p == doc && q in done then Some(unique(xs, Others(others, q)))
    else Lookup(m, p, q)
  }

  ghost predicate RecordedAgainst<T>(m: PairTable<seq<T>>, r: PairTable<seq<T>>, doc: Doc, done: set<Doc>,
                                     xs: seq<T>, others: map<Doc, seq<T>>, unique: (seq<T>, seq<T>) -> seq<T>)
  {
    forall p: Doc, q: Doc :: Lookup(r, p, q) == Wanted(m, doc, done, xs, others, unique, p, q)
  }

  /** Some document of done has a list with something unique to one side. */
  ghost predicate DifferentAmong<T>(doc: Doc, done: set<Doc>, xs: seq<T>, others: map<Doc, seq<T>>,
                                    unique: (seq<T>, seq<T>) -> seq<T>)
  {
    exists d :: d in done && (unique(xs, Others(others, d)) != [] || unique(Others(others, d), xs) != [])
  }

  lemma RecordedStep<T>(m: PairTable<seq<T>>, r: PairTable<seq<T>>, doc: Doc, done: set<Doc>, d: Doc,
                        xs: seq<T>, others: map<Doc, seq<T>>, unique: (seq<T>, seq<T>) -> seq<T>)
    requires RecordedAgainst(m, r, doc, done, xs, others, unique) && d !in done
    ensures RecordedAgainst(m, Record(Record(r, doc, d, unique(xs, Others(others, d))), d, doc, unique(Others(others, d), xs)),
                            doc, done + {d}, xs, others, unique)
  {
    RecordLookup(r, doc, d, unique(xs, Others(others, d)));
    RecordLookup(Record(r, doc, d, unique(xs, Others(others, d))), d, doc, unique(Others(others, d), xs));
  }

  lemma DifferentStep<T>(doc: Doc, done: set<Doc>, d: Doc, xs: seq<T>, others: map<Doc, seq<T>>,
                         unique: (seq<T>, seq<T>) -> seq<T>)
    ensures DifferentAmong(doc, done + {d}, xs, others, unique) <==>
      DifferentAmong(doc, done, xs, others, unique) || unique(xs, Others(others, d)) != [] || unique(Others(others, d), xs) != []
  {
  }

  /** compareRelationships and compareAnnotation: against every document
    * already holding the item, in no particular order (hash order), what is
    * unique to the new list is stored under (doc, d) and what is unique to d's
    * list under (d, doc); diff tells whether anything was unique. */
  method CompareAgainstAll<T>(m: PairTable<seq<T>>, doc: Doc, xs: seq<T>, others: map<Doc, seq<T>>,
                              unique: (seq<T>, seq<T>) -> seq<T>)
    returns (r: PairTable<seq<T>>, diff: bool)
    ensures RecordedAgainst(m, r, doc, others.Keys, xs, others, unique)
    ensures diff <==> DifferentAmong(doc, others.Keys, xs, others, unique)
  {
    r, diff := m, false;
    var todo := others.Keys;
    ghost var done: set<Doc> := {};
    while todo != {}
      invariant todo + done == others.Keys && todo !! done
      invariant RecordedAgainst(m, r, doc, done, xs, others, unique)
      invariant diff <==> DifferentAmong(doc, done, xs, others, unique)
      decreases |todo|
    {
      var d :| d in todo;
      var inDoc := unique(xs, Others(others, d));
      var inCompare := unique(Others(others, d), xs);
      RecordedStep(m, r, doc, done, d, xs, others, unique);
      DifferentStep(doc, done, d, xs, others, unique);
      r := Record(Record(r, doc, d, inDoc), d, doc, inCompare);
      diff := diff || inDoc != [] || inCompare != [];
      todo, done := todo - {d}, done + {d};
    }
  }

  /** The list a comparison produced, none when it failed. */
  function OkValue(r: Result<seq<string>>): Option<seq<string>>
  {
    if r.Ok? then Some(r.value) else None
  }

  /** The seen-license entry for (p, q) after recording against the documents of done. */
  ghost function WantedLicenses(m: PairTable<seq<string>>, doc: Doc, done: set<Doc>, licenses: seq<string>,
                                others: map<Doc, seq<string>>, xls: map<Doc, Xlation>, h: Helpers, p: Doc, q: Doc): Option<seq<string>>
  {
    if q == doc && p in done then OkValue(UniqueLicenses(Others(others, p), licenses, false, Translation(xls, p), h))
    else if p == doc && q in done then OkValue(UniqueLicenses(licenses, Others(others, q), true, Translation(xls, q), h))
    else Lookup(m, p, q)
  }

  /** The seen-license tables recorded against the documents of done. */
  ghost predicate LicensesRecorded(m: PairTable<seq<string>>, r: PairTable<seq<string>>, doc: Doc, done: set<Doc>,
                                   licenses: seq<string>, others: map<Doc, seq<string>>, xls: map<Doc, Xlation>, h: Helpers)
  {
    forall p: Doc, q: Doc :: Lookup(r, p, q) == WantedLicenses(m, doc, done, licenses, others, xls, h, p, q)
  }

  /** The license-ID translation from the new document to d, if there is one. */
  function Translation(xls: map<Doc, Xlation>, d: Doc): Option<Xlation>
  {
    if d in xls then Some(xls[d]) else None
  }

  /** Every comparison of the new licenses with d's succeeds. */
  ghost predicate LicensesComparable(licenses: seq<string>, others: map<Doc, seq<string>>, xls: map<Doc, Xlation>, h: Helpers, d: Doc)
  {
    && UniqueLicenses(licenses, Others(others, d), true, Translation(xls, d), h).Ok?
    && UniqueLicenses(Others(others, d), licenses, false, Translation(xls, d), h).Ok?
  }

  /** Some document of done has a license list with something unique to one side. */
  ghost predicate LicensesDifferAmong(licenses: seq<string>, others: map<Doc, seq<string>>, xls: map<Doc, Xlation>,
                                      h: Helpers, done: set<Doc>)
  {
    exists d :: d in done && LicensesComparable(licenses, others, xls, h, d) &&
      (UniqueLicenses(licenses, Others(others, d), true, Translation(xls, d), h).value != [] ||
       UniqueLicenses(Others(others, d), licenses, false, Translation(xls, d), h).value != [])
  }

  lemma LicensesRecordedStep(m: PairTable<seq<string>>, r: PairTable<seq<string>>, doc: Doc, done: set<Doc>, d: Doc,
                              licenses: seq<string>, others: map<Doc, seq<string>>, xls: map<Doc, Xlation>, h: Helpers)
    requires LicensesRecorded(m, r, doc, done, licenses, others, xls, h) && d !in done
    requires LicensesComparable(licenses, others, xls, h, d)
    ensures LicensesRecorded(m,
      Record(Record(r, doc, d, UniqueLicenses(licenses, Others(others, d), true, Translation(xls, d), h).value),
             d, doc, UniqueLicenses(Others(others, d), licenses, false, Translation(xls, d), h).value),
      doc, done + {d}, licenses, others, xls, h)
  {
    var inDoc := UniqueLicenses(licenses, Others(others, d), true, Translation(xls, d), h).value;
    RecordLookup(r, doc, d, inDoc);
    RecordLookup(Record(r, doc, d, inDoc), d, doc, UniqueLicenses(Others(others, d), licenses, false, Translation(xls, d), h).value);
  }

  lemma LicensesDifferStep(licenses: seq<string>, others: map<Doc, seq<string>>, xls: map<Doc, Xlation>,
                           h: Helpers, done: set<Doc>, d: Doc)
    requires LicensesComparable(licenses, others, xls, h, d)
    ensures LicensesDifferAmong(licenses, others, xls, h, done + {d}) <==>
      LicensesDifferAmong(licenses, others, xls, h, done)
      || UniqueLicenses(licenses, Others(others, d), true, Translation(xls, d), h).value != []
      || UniqueLicenses(Others(others, d), licenses, false, Translation(xls, d), h).value != []
  {
  }

  /** compareLicenseInfosInFiles: the seen licenses against every document
    * already holding the item, in hash order; the first failing license
    * comparison ends it with its error. */
  method CompareLicensesAgainstAll(m: PairTable<seq<string>>, doc: Doc, licenses: seq<string>,
                                   others: map<Doc, seq<string>>, xls: map<Doc, Xlation>, h: Helpers)
    returns (r: PairTable<seq<string>>, diff: bool, err: Option<string>)
    ensures err.None? <==> forall d :: d in others ==> LicensesComparable(licenses, others, xls, h, d)
    ensures err.None? ==> LicensesRecorded(m, r, doc, others.Keys, licenses, others, xls, h)
    ensures err.None? ==> (diff <==> LicensesDifferAmong(licenses, others, xls, h, others.Keys))
  {
    r, diff, err := m, false, None;
    var todo := others.Keys;
    ghost var done: set<Doc> := {};
    while todo != {}
      invariant todo + done == others.Keys && todo !! done
      invariant err.None?
      invariant forall d :: d in done ==> LicensesComparable(licenses, others, xls, h, d)
      invariant LicensesRecorded(m, r, doc, done, licenses, others, xls, h)
      invariant diff <==> LicensesDifferAmong(licenses, others, xls, h, done)
      decreases |todo|
    {
      var d :| d in todo;
      r, diff, err := RecordLicenses(m, r, diff, doc, done, d, licenses, others, xls, h);
      if err.Some? {
        assert d in others && !LicensesComparable(licenses, others, xls, h, d);
        return;
      }
      todo, done := todo - {d}, done + {d};
    }
  }

  /** One document of compareLicenseInfosInFiles' loop: both directions
    * compared, each recorded under its ordered pair. */
  method RecordLicenses(ghost m: PairTable<seq<string>>, r0: PairTable<seq<string>>, diff0: bool, doc: Doc,
                        ghost done: set<Doc>, d: Doc,
                        licenses: seq<string>, others: map<Doc, seq<string>>, xls: map<Doc, Xlation>, h: Helpers)
    returns (r: PairTable<seq<string>>, diff: bool, err: Option<string>)
    requires LicensesRecorded(m, r0, doc, done, licenses, others, xls, h) && d !in done
    requires diff0 <==> LicensesDifferAmong(licenses, others, xls, h, done)
    ensures err.None? <==> LicensesComparable(licenses, others, xls, h, d)
    ensures err.None? ==> LicensesRecorded(m, r, doc, done + {d}, licenses, others, xls, h)
    ensures err.None? ==> (diff <==> LicensesDifferAmong(licenses, others, xls, h, done + {d}))
  {
    var inDoc, inCompare;
    inDoc, inCompare, err := CompareLicenseArrays(licenses, Others(others, d), Translation(xls, d), h);
    if err.Some? {
      return r0, diff0, err;
    }
    LicensesRecordedStep(m, r0, doc, done, d, licenses, others, xls, h);
    LicensesDifferStep(licenses, others, xls, h, done, d);
    r := Record(Record(r0, doc, d, inDoc), d, doc, inCompare);
    diff := diff0 || inDoc != [] || inCompare != [];
  }

  /** The aspects two items differ in among those compared field by field:
    * comment, concluded license (this comparison may fail), copyright,
    * attribution text and license comments. */
  function FieldDifferences(a: ComparedItem, b: ComparedItem, xl: Option<Xlation>, h: Helpers): (r: Result<set<ItemAspect>>)
    ensures r.Err? <==> h.licenseEqual(a.item.licenseConcluded, b.item.licenseConcluded, xl).Err?
    ensures r.Ok? ==> (Comments in r.value <==> !h.stringsEqual(a.item.comment, b.item.comment))
    ensures r.Ok? ==> (ConcludedLicense in r.value <==> h.licenseEqual(a.item.licenseConcluded, b.item.licenseConcluded, xl) == Ok(false))
    ensures r.Ok? ==> (Copyrights in r.value <==> !h.stringsEqual(a.item.copyrightText, b.item.copyrightText))
    ensures r.Ok? ==> (AttributionText in r.value <==> !h.stringArraysEqual(a.attributionText, b.attributionText))
    ensures r.Ok? ==> (LicenseComments in r.value <==> !h.stringsEqual(a.item.licenseComments, b.item.licenseComments))
    ensures r.Ok? ==> r.value <= {Comments, ConcludedLicense, Copyrights, AttributionText, LicenseComments}
  {
    match h.licenseEqual(a.item.licenseConcluded, b.item.licenseConcluded, xl)
    case Err(e) => Err(e)
    case Ok(concluded) =>
      Ok((if h.stringsEqual(a.item.comment, b.item.comment) then {} else {Comments})
         + (if concluded then {} else {ConcludedLicense})
         + (if h.stringsEqual(a.item.copyrightText, b.item.copyrightText) then {} else {Copyrights})
         + (if h.stringArraysEqual(a.attributionText, b.attributionText) then {} else {AttributionText})
         + (if h.stringsEqual(a.item.licenseComments, b.item.licenseComments) then {} else {LicenseComments}))
  }

  /** The seen licenses, relationships and annotations of the items held. */
  function SeenLicensesOf(items: map<Doc, ComparedItem>): (r: map<Doc, seq<string>>)
    ensures r.Keys == items.Keys
    ensures forall d :: d in items ==> r[d] == items[d].item.licenseInfoFromFiles
  {
    map d | d in items :: items[d].item.licenseInfoFromFiles
  }

  function RelationshipsOf(items: map<Doc, ComparedItem>): (r: map<Doc, seq<Relationship>>)
    ensures r.Keys == items.Keys
    ensures forall d :: d in items ==> r[d] == items[d].item.relationships
  {
    map d | d in items :: items[d].item.relationships
  }

  function AnnotationsOf(items: map<Doc, ComparedItem>): (r: map<Doc, seq<Annotation>>)
    ensures r.Keys == items.Keys
    ensures forall d :: d in items ==> r[d] == items[d].item.annotations
  {
    map d | d in items :: items[d].item.annotations
  }

  /** The aspects in which an item added from doc differs from the items held,
    * its fields compared with those of the item held for first. */
  ghost function Differences(held: map<Doc, ComparedItem>, doc: Doc, it: ComparedItem, first: Doc,
                             xls: map<Doc, Xlation>, h: Helpers): set<ItemAspect>
    requires first in held
    requires FieldDifferences(it, held[first], Translation(xls, first), h).Ok?
  {
    FieldDifferences(it, held[first], Translation(xls, first), h).value + ListDifferences(held, doc, it, xls, h)
  }

  /** The aspects among seen licenses, relationships and annotations in which
    * an item added from doc differs from the items held. */
  ghost function ListDifferences(held: map<Doc, ComparedItem>, doc: Doc, it: ComparedItem,
                                 xls: map<Doc, Xlation>, h: Helpers): set<ItemAspect>
  {
    ListAspects(LicensesDifferAmong(it.item.licenseInfoFromFiles, SeenLicensesOf(held), xls, h, held.Keys),
                DifferentAmong(doc, held.Keys, it.item.relationships, RelationshipsOf(held), h.uniqueRelationships),
                DifferentAmong(doc, held.Keys, it.item.annotations, AnnotationsOf(held), h.uniqueAnnotations))
  }

  /** The list aspects whose flag is set. */
  function ListAspects(seen: bool, relationships: bool, annotations: bool): (r: set<ItemAspect>)
    ensures SeenLicenses in r <==> seen
    ensures Relationships in r <==> relationships
    ensures Annotations in r <==> annotations
    ensures r <= {SeenLicenses, Relationships, Annotations}
  {
    (if seen then {SeenLicenses} else {}) + (if relationships then {Relationships} else {})
    + (if annotations then {Annotations} else {})
  }

  /** The three tables of unique entries recorded against every item held. */
  ghost predicate TablesRecorded(held: map<Doc, ComparedItem>, doc: Doc, it: ComparedItem, xls: map<Doc, Xlation>, h: Helpers,
                                 l0: PairTable<seq<string>>, l: PairTable<seq<string>>,
                                 r0: PairTable<seq<Relationship>>, r: PairTable<seq<Relationship>>,
                                 a0: PairTable<seq<Annotation>>, a: PairTable<seq<Annotation>>)
  {
    && LicensesRecorded(l0, l, doc, held.Keys, it.item.licenseInfoFromFiles, SeenLicensesOf(held), xls, h)
    && RecordedAgainst(r0, r, doc, held.Keys, it.item.relationships, RelationshipsOf(held), h.uniqueRelationships)
    && RecordedAgainst(a0, a, doc, held.Keys, it.item.annotations, AnnotationsOf(held), h.uniqueAnnotations)
  }

  /** compareLicenseInfosInFiles, compareRelationships and compareAnnotation
    * against the items held: the tables after recording, and the aspects
    * found different. A failing license comparison ends it, the relationships
    * and annotations not compared. */
  method CompareWithItems(held: map<Doc, ComparedItem>, doc: Doc, it: ComparedItem, xls: map<Doc, Xlation>, h: Helpers,
                          l0: PairTable<seq<string>>, r0: PairTable<seq<Relationship>>, a0: PairTable<seq<Annotation>>)
    returns (l: PairTable<seq<string>>, r: PairTable<seq<Relationship>>, a: PairTable<seq<Annotation>>,
             diff: set<ItemAspect>, err: Option<string>)
    ensures err.None? <==> forall d :: d in held ==> LicensesComparable(it.item.licenseInfoFromFiles, SeenLicensesOf(held), xls, h, d)
    ensures err.None? ==> TablesRecorded(held, doc, it, xls, h, l0, l, r0, r, a0, a) && diff == ListDifferences(held, doc, it, xls, h)
    ensures err.Some? ==> r == r0 && a == a0 && diff <= {SeenLicenses}
  {
    var dl, dr, da;
    l, dl, err := CompareLicensesAgainstAll(l0, doc, it.item.licenseInfoFromFiles, SeenLicensesOf(held), xls, h);
    if err.Some? {
      return l, r0, a0, ListAspects(dl, false, false), err;
    }
    r, dr := CompareAgainstAll(r0, doc, it.item.relationships, RelationshipsOf(held), h.uniqueRelationships);
    a, da := CompareAgainstAll(a0, doc, it.item.annotations, AnnotationsOf(held), h.uniqueAnnotations);
    diff := ListAspects(dl, dr, da);
  }

  /** The outcome of comparing an item added from doc with the items held:
    * the aspects found different, and the tables after recording. */
  ghost predicate ItemCompared(held: map<Doc, ComparedItem>, doc: Doc, it: ComparedItem, xlm: PairTable<Xlation>, h: Helpers,
                               first: Doc, diff: set<ItemAspect>,
                               l0: PairTable<seq<string>>, l: PairTable<seq<string>>,
                               r0: PairTable<seq<Relationship>>, r: PairTable<seq<Relationship>>,
                               a0: PairTable<seq<Annotation>>, a: PairTable<seq<Annotation>>)
  {
    && first in held
    && doc in xlm
    && FieldDifferences(it, held[first], Translation(xlm[doc], first), h).Ok?
    && diff == Differences(held, doc, it, first, xlm[doc], h)
    && TablesRecorded(held, doc, it, xlm[doc], h, l0, l, r0, r, a0, a)
  }

  /** Everything addDocumentItem compares with the items held: the fields with
    * the first one in hash order (first), then the seen licenses,
    * relationships and annotations with each of them. A missing translation
    * table for doc fails before anything is compared; a failing
    * concluded-license comparison leaves only the comment difference found. */
  method CompareItem(held: map<Doc, ComparedItem>, doc: Doc, it: ComparedItem, xlm: PairTable<Xlation>, h: Helpers,
                     l0: PairTable<seq<string>>, r0: PairTable<seq<Relationship>>, a0: PairTable<seq<Annotation>>)
    returns (l: PairTable<seq<string>>, r: PairTable<seq<Relationship>>, a: PairTable<seq<Annotation>>,
             diff: set<ItemAspect>, err: Option<string>, first: Doc)
    requires held != map[]
    ensures first in held
    ensures doc !in xlm ==> err == Some(NULL_POINTER) && diff == {} && (l, r, a) == (l0, r0, a0)
    ensures doc in xlm && FieldDifferences(it, held[first], Translation(xlm[doc], first), h).Err? ==>
      && err == Some(FieldDifferences(it, held[first], Translation(xlm[doc], first), h).error)
      && diff == (if h.stringsEqual(it.item.comment, held[first].item.comment) then {} else {Comments})
      && (l, r, a) == (l0, r0, a0)
    ensures err.None? ==> ItemCompared(held, doc, it, xlm, h, first, diff, l0, l, r0, r, a0, a)
  {
    first :| first in held;
    if doc !in xlm {
      return l0, r0, a0, {}, Some(NULL_POINTER), first;
    }
    var b := held[first];
    var fields := FieldDifferences(it, b, Translation(xlm[doc], first), h);
    if fields.Err? {
      return l0, r0, a0, (if h.stringsEqual(it.item.comment, b.item.comment) then {} else {Comments}), Some(fields.error), first;
    }
    var lists;
    l, r, a, lists, err := CompareWithItems(held, doc, it, xlm[doc], h, l0, r0, a0);
    diff := fields.value + lists;
  }

  // ---------------------------------------------------------------- the comparer

  class ItemComparer {
    /** Whether this is a snippet comparer, which accepts items of any name. */
    const snippetComparer: bool
    /** The license-ID translation for every ordered pair of documents. */
    const extractedLicenseIdMap: PairTable<Xlation>
    var inProgress: bool
    var differenceFound: bool
    /** The aspects whose equality flag has been cleared. */
    var differing: set<ItemAspect>
    var name: Option<string>
    var uniqueLicenseInfosInFiles: PairTable<seq<string>>
    var uniqueRelationships: PairTable<seq<Relationship>>
    var uniqueAnnotations: PairTable<seq<Annotation>>
    var documentItem: map<Doc, ComparedItem>

    /** A new comparer: nothing added, every aspect equal. */
    constructor(extractedLicenseIdMap: PairTable<Xlation>, snippetComparer: bool)
      ensures this.extractedLicenseIdMap == extractedLicenseIdMap && this.snippetComparer == snippetComparer
      ensures !inProgress && !differenceFound && differing == {} && name.None?
      ensures uniqueLicenseInfosInFiles == map[] && uniqueRelationships == map[] && uniqueAnnotations == map[]
      ensures documentItem == map[]
    {
      this.extractedLicenseIdMap := extractedLicenseIdMap;
      this.snippetComparer := snippetComparer;
      inProgress, differenceFound, differing, name := false, false, {}, None;
      uniqueLicenseInfosInFiles, uniqueRelationships, uniqueAnnotations := map[], map[], map[];
      documentItem := map[];
    }

    /** The aspects found different are added; a difference found is recorded. */
    method MarkDifferent(s: set<ItemAspect>)
      modifies this`differing, this`differenceFound
      ensures differing == old(differing) + s
      ensures differenceFound == (old(differenceFound) || s != {})
    {
      differing := differing + s;
      differenceFound := differenceFound || s != {};
    }

    /** The comparison with the items held, its outcome recorded. */
    method CompareHeld(doc: Doc, it: ComparedItem, h: Helpers) returns (err: Option<string>, ghost first: Doc, ghost diff: set<ItemAspect>)
      requires documentItem != map[]
      modifies this`uniqueLicenseInfosInFiles, this`uniqueRelationships, this`uniqueAnnotations, this`differing, this`differenceFound
      ensures differing == old(differing) + diff && differenceFound == (diff != {})
      ensures doc !in extractedLicenseIdMap ==> err == Some(NULL_POINTER)
      ensures err.None? ==>
        ItemCompared(documentItem, doc, it, extractedLicenseIdMap, h, first, diff,
                     old(uniqueLicenseInfosInFiles), uniqueLicenseInfosInFiles,
                     old(uniqueRelationships), uniqueRelationships, old(uniqueAnnotations), uniqueAnnotations)
    {
      var l, r, a, d, f;
      l, r, a, d, err, f := CompareItem(documentItem, doc, it, extractedLicenseIdMap, h,
                                        uniqueLicenseInfosInFiles, uniqueRelationships, uniqueAnnotations);
      first, diff := f, d;
      uniqueLicenseInfosInFiles, uniqueRelationships, uniqueAnnotations := l, r, a;
      differing, differenceFound := differing + d, d != {};
    }

    /** The name check of addDocumentItem: the first item names the comparer;
      * an item named otherwise is refused unless this is a snippet comparer. */
    method CheckName(it: ComparedItem) returns (err: Option<string>)
      modifies this`name
      ensures old(name).None? ==> err.None? && name == it.item.name
      ensures old(name).Some? ==> name == old(name)
      ensures old(name).Some? && old(name) != it.item.name && !snippetComparer ==>
        err == Some(NamesDiffer(it.item.name, old(name).value))
      ensures old(name).Some? && !(old(name) != it.item.name && !snippetComparer) ==> err.None?
    {
      if name.None? {
        name := it.item.name;
      } else if name != it.item.name && !snippetComparer {
        return Some(NamesDiffer(it.item.name, name.value));
      }
      err := None;
    }

    /** The item compared with those held, then held itself; a failing
      * comparison leaves the comparer in progress. */
    method Hold(doc: Doc, it: ComparedItem, h: Helpers) returns (err: Option<string>, ghost first: Doc, ghost diff: set<ItemAspect>)
      modifies this`inProgress, this`differenceFound, this`differing,
               this`uniqueLicenseInfosInFiles, this`uniqueRelationships, this`uniqueAnnotations, this`documentItem
      ensures documentItem == (if err.None? then old(documentItem)[doc := it] else old(documentItem))
      ensures inProgress == err.Some?
      ensures differing == old(differing) + diff && differenceFound == (diff != {})
      ensures old(documentItem) == map[] ==> err.None? && diff == {}
      ensures old(documentItem) != map[] && doc !in extractedLicenseIdMap ==> err == Some(NULL_POINTER)
      ensures err.None? && old(documentItem) != map[] ==>
        ItemCompared(old(documentItem), doc, it, extractedLicenseIdMap, h, first, diff,
                     old(uniqueLicenseInfosInFiles), uniqueLicenseInfosInFiles,
                     old(uniqueRelationships), uniqueRelationships, old(uniqueAnnotations), uniqueAnnotations)
    {
      first, diff := doc, {};
      inProgress, differenceFound := true, false;
      if documentItem != map[] {
        err, first, diff := CompareHeld(doc, it, h);
        if err.Some? {
          return;
        }
      }
      documentItem := documentItem[doc := it];
      inProgress := false;
      err := None;
    }

    /** addDocumentItem: refused while another add is in progress, and for an
      * item named differently from the first one unless this is a snippet
      * comparer; otherwise the item is compared with those held and then held
      * itself, differenceFound telling whether this item differs from them. */
    method AddDocumentItem(doc: Doc, it: ComparedItem, h: Helpers) returns (err: Option<string>, ghost first: Doc, ghost diff: set<ItemAspect>)
      modifies this`inProgress, this`differenceFound, this`differing, this`name,
               this`uniqueLicenseInfosInFiles, this`uniqueRelationships, this`uniqueAnnotations, this`documentItem
      ensures documentItem == (if err.None? then old(documentItem)[doc := it] else old(documentItem))
      ensures old(differing) <= differing
      ensures old(inProgress) ==> err == Some(ADD_IN_PROGRESS) && inProgress
      ensures !old(inProgress) && old(name).Some? && old(name) != it.item.name && !snippetComparer ==>
        err == Some(NamesDiffer(it.item.name, old(name).value)) && !inProgress
      ensures !old(inProgress) && old(documentItem) != map[] && doc !in extractedLicenseIdMap &&
              !(old(name).Some? && old(name) != it.item.name && !snippetComparer) ==>
        err == Some(NULL_POINTER) && inProgress
      ensures !old(inProgress) && !(old(name).Some? && old(name) != it.item.name && !snippetComparer) ==> inProgress == err.Some?
      ensures err.None? ==> !inProgress && ResultError().None?
      ensures err.None? ==> name == (if old(name).None? then it.item.name else old(name))
      ensures err.None? ==> differing == old(differing) + diff && differenceFound == (diff != {})
      ensures err.None? && old(documentItem) == map[] ==> diff == {}
      ensures err.None? && old(documentItem) != map[] ==>
        ItemCompared(old(documentItem), doc, it, extractedLicenseIdMap, h, first, diff,
                     old(uniqueLicenseInfosInFiles), uniqueLicenseInfosInFiles,
                     old(uniqueRelationships), uniqueRelationships, old(uniqueAnnotations), uniqueAnnotations)
    {
      first, diff := doc, {};
      if inProgress {
        return Some(ADD_IN_PROGRESS), first, diff;
      }
      err := CheckName(it);
      if err.Some? {
        return;
      }
      err, first, diff := Hold(doc, it, h);
      assert err.None? ==> doc in documentItem;
    }

    /** checkInProgress then checkCompareMade: the error a result getter
      * reports, if any. */
    function ResultError(): (r: Option<string>)
      reads this`inProgress, this`documentItem
      ensures r.None? <==> !inProgress && documentItem != map[]
      ensures inProgress ==> r == Some(COMPARE_IN_PROGRESS)
      ensures !inProgress && documentItem == map[] ==> r == Some(NO_COMPARE_MADE)
    {
      if inProgress then Some(COMPARE_IN_PROGRESS)
      else if documentItem == map[] then Some(NO_COMPARE_MADE)
      else None
    }

    /** isDifferenceFound: whether the last item added differs from the ones before it. */
    function IsDifferenceFound(): (r: Result<bool>)
      reads this`inProgress, this`documentItem, this`differenceFound
      ensures r.Err? <==> ResultError().Some?
      ensures r.Ok? ==> r.value == differenceFound
    {
      if ResultError().Some? then Err(ResultError().value) else Ok(differenceFound)
    }

    /** The is...Equals getters: whether no difference in aspect a has been found. */
    function IsAspectEqual(a: ItemAspect): (r: Result<bool>)
      reads this`inProgress, this`documentItem, this`differing
      ensures r.Err? <==> ResultError().Some?
      ensures r.Ok? ==> (r.value <==> a !in differing)
    {
      if ResultError().Some? then Err(ResultError().value) else Ok(a !in differing)
    }

    /** isInProgress: a comparer in progress reports an error, so it never answers true. */
    function IsInProgress(): (r: Result<bool>)
      reads this`inProgress, this`documentItem
      ensures r != Ok(true)
      ensures r.Err? <==> ResultError().Some?
    {
      if ResultError().Some? then Err(ResultError().value) else Ok(inProgress)
    }

    /** getItem: the item held for doc, if any. */
    function GetItem(doc: Doc): (r: Result<Option<ComparedItem>>)
      reads this`inProgress, this`documentItem
      ensures r.Err? <==> ResultError().Some?
      ensures r.Ok? ==> (r.value.Some? <==> doc in documentItem)
      ensures r.Ok? && doc in documentItem ==> r.value == Some(documentItem[doc])
    {
      if ResultError().Some? then Err(ResultError().value)
      else if doc in documentItem then Ok(Some(documentItem[doc])) else Ok(None)
    }

    /** getUniqueSeenLicenses: the licenses of a's item equal to none of b's. */
    function GetUniqueSeenLicenses(a: Doc, b: Doc): (r: Result<seq<string>>)
      reads this`inProgress, this`documentItem, this`uniqueLicenseInfosInFiles
      ensures r.Err? <==> ResultError().Some?
      ensures r.Ok? ==> r.value == Stored(uniqueLicenseInfosInFiles, a, b)
    {
      if ResultError().Some? then Err(ResultError().value) else Ok(Stored(uniqueLicenseInfosInFiles, a, b))
    }

    /** getUniqueRelationship: the relationships of a's item not in b's. */
    function GetUniqueRelationship(a: Doc, b: Doc): (r: Result<seq<Relationship>>)
      reads this`inProgress, this`documentItem, this`uniqueRelationships
      ensures r.Err? <==> ResultError().Some?
      ensures r.Ok? ==> r.value == Stored(uniqueRelationships, a, b)
    {
      if ResultError().Some? then Err(ResultError().value) else Ok(Stored(uniqueRelationships, a, b))
    }

    /** getUniqueAnnotations: the annotations of a's item not in b's. */
    function GetUniqueAnnotations(a: Doc, b: Doc): (r: Result<seq<Annotation>>)
      reads this`inProgress, this`documentItem, this`uniqueAnnotations
      ensures r.Err? <==> ResultError().Some?
      ensures r.Ok? ==> r.value == Stored(uniqueAnnotations, a, b)
    {
      if ResultError().Some? then Err(ResultError().value) else Ok(Stored(uniqueAnnotations, a, b))
    }
  }
}
