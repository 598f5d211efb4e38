// The SPDX document's identifier helpers: the document namespace formed from
// its URI, element and license reference numbers, the version check, the
// data-license rule and the two reference counters.

module SpdxDocumentModel {
  import opened Wrappers
  import opened JavaStrings
  import ExternalDocRefModel

  // Constants of the SPDX tools (their constants class is not part of this model).
  const SPDX_ELEMENT_REF_PRENUM := "SPDXRef-"
  const NON_STD_LICENSE_ID_PRENUM := "LicenseRef-"
  const POINT_EIGHT_SPDX_VERSION := "SPDX-0.8"
  const POINT_NINE_SPDX_VERSION := "SPDX-0.9"
  const ONE_DOT_ZERO_SPDX_VERSION := "SPDX-1.0"
  const SPDX_DATA_LICENSE_ID := "CC0-1.0"
  const SPDX_DATA_LICENSE_ID_VERSION_1_0 := "PDDL-1.0"

  // ---------------------------------------------------------------- namespace

  /** formDocNamespace: the URI without its fragment, followed by '#'. A '#'
    * at index 0 is not treated as a fragment. */
  function FormDocNamespace(docUri: string): (r: string)
    ensures |r| > 0 && r[|r| - 1] == '#'
    ensures r[..|r| - 1] <= docUri
    ensures '#' !in docUri ==> r == docUri + "#"
    ensures docUri != [] && docUri[0] == '#' ==> r == docUri + "#"
    ensures |r| - 1 < |docUri| ==> docUri[|r| - 1] == '#'
    ensures docUri != [] && docUri[0] != '#' ==> '#' !in r[..|r| - 1]
  {
    var fragmentIndex := IndexOf(docUri, '#');
    if fragmentIndex <= 0 then docUri + "#" else docUri[..fragmentIndex] + "#"
  }

  /** Unless the URI is empty or starts with '#', the namespace has its only
    * '#' at the end, and forming it again changes nothing. */
  lemma FormDocNamespaceIdempotent(docUri: string)
    requires docUri != [] && docUri[0] != '#'
    ensures '#' !in FormDocNamespace(docUri)[..|FormDocNamespace(docUri)| - 1]
    ensures FormDocNamespace(FormDocNamespace(docUri)) == FormDocNamespace(docUri)
  {
    var r := FormDocNamespace(docUri);
    var k := IndexOf(docUri, '#');
    var pre := if k < 0 then docUri else docUri[..k];
    assert r == pre + "#";
    assert |pre| > 0 && '#' !in pre;
    assert r[..|pre|] == pre;
    assert IndexOf(r, '#') == |pre|;
  }

  /** The empty URI and a URI starting with '#' gain one more '#' each time. */
  lemma FormDocNamespaceOfFragmentOnly()
    ensures FormDocNamespace("") == "#"
    ensures FormDocNamespace("#") == "##"
  {
  }

  /** The document URI an external reference derives from a formed namespace
    * is the URI with its fragment cut off. */
  lemma DocumentUriOfNamespace(docUri: string)
    ensures ExternalDocRefModel.DocumentToDocumentUri(Some(FormDocNamespace(docUri)))
      == Some(FormDocNamespace(docUri)[..|FormDocNamespace(docUri)| - 1])
  {
  }

  // ---------------------------------------------------------------- element refs

  /** formSpdxElementRef */
  function FormSpdxElementRef(refNum: int): string
  {
    SPDX_ELEMENT_REF_PRENUM + IntToString(refNum)
  }

  /** getElementRefNumber: the text after the prefix's length read as an int,
    * or -1; the substring fails on a reference shorter than the prefix. The
    * prefix itself is not checked. */
  function GetElementRefNumber(elementReference: string): (r: Result<int>)
    ensures r.Err? <==> |elementReference| < |SPDX_ELEMENT_REF_PRENUM|
    ensures r.Ok? ==> InInt32(r.value)
    ensures r.Ok? && r.value != -1 ==> ParseInt(elementReference[|SPDX_ELEMENT_REF_PRENUM|..]) == Some(r.value)
    ensures r.Ok? && ParseInt(elementReference[|SPDX_ELEMENT_REF_PRENUM|..]).Some? ==>
      r.value == ParseInt(elementReference[|SPDX_ELEMENT_REF_PRENUM|..]).value
    ensures r.Ok? && ParseInt(elementReference[|SPDX_ELEMENT_REF_PRENUM|..]).None? ==> r.value == -1
  {
    if |elementReference| < |SPDX_ELEMENT_REF_PRENUM| then Err("StringIndexOutOfBoundsException")
    else match ParseInt(elementReference[|SPDX_ELEMENT_REF_PRENUM|..])
      case Some(n) => Ok(n)
      case None => Ok(-1)
  }

  /** Every element reference formed from a number reads back as it. */
  lemma ElementRefRoundTrip(refNum: int)
    requires InInt32(refNum)
    ensures GetElementRefNumber(FormSpdxElementRef(refNum)) == Ok(refNum)
  {
    var s := FormSpdxElementRef(refNum);
    assert s[|SPDX_ELEMENT_REF_PRENUM|..] == IntToString(refNum);
    IntToStringRoundTrip(refNum);
  }

  // ---------------------------------------------------------------- license refs

  /** formNonStandardLicenseID */
  function FormNonStandardLicenseID(idNum: int): string
  {
    NON_STD_LICENSE_ID_PRENUM + IntToString(idNum)
  }

  /** Distinct numbers give distinct license IDs. */
  lemma FormNonStandardLicenseIDInjective(a: int, b: int)
    requires InInt32(a) && InInt32(b) && a != b
    ensures FormNonStandardLicenseID(a) != FormNonStandardLicenseID(b)
  {
    var p := |NON_STD_LICENSE_ID_PRENUM|;
    assert FormNonStandardLicenseID(a)[p..] == IntToString(a);
    assert FormNonStandardLicenseID(b)[p..] == IntToString(b);
    IntToStringRoundTrip(a);
    IntToStringRoundTrip(b);
  }

  /** What getLicenseRefNum yields: a number, the checked "non-numeric"
    * exception the callers skip, or an unchecked number-format exception. */
  datatype RefNumber = Numeric(n: int) | NonNumeric | NumberFormatError

  /** The license ID matches LicenseRef-(\d+) as a whole. */
  predicate NumericLicenseId(id: string)
  {
    |id| > |NON_STD_LICENSE_ID_PRENUM| && id[..|NON_STD_LICENSE_ID_PRENUM|] == NON_STD_LICENSE_ID_PRENUM
    && AllDigits(id[|NON_STD_LICENSE_ID_PRENUM|..])
  }

  predicate IsOctalDigit(c: char) { '0' <= c <= '7' }

  function OctalValue(s: string): nat
    requires forall k :: 0 <= k < |s| ==> IsOctalDigit(s[k])
  {
    if |s| == 0 then 0
    else
      assert IsOctalDigit(s[|s| - 1]);
      OctalValue(s[..|s| - 1]) * 8 + (s[|s| - 1] as int - '0' as int)
  }

  /** Integer.decode of a non-empty string of decimal digits: a leading zero
    * followed by more digits selects base eight. */
  function DecodeDigits(d: string): Option<int>
    requires |d| > 0 && AllDigits(d)
  {
    if |d| > 1 && d[0] == '0' then
      if forall k :: 1 <= k < |d| ==> IsOctalDigit(d[k]) then
        var v := OctalValue(d[1..]);
        if v <= INT_MAX then Some(v) else None
      else None
    else
      var v := DigitsValue(d);
      if v <= INT_MAX then Some(v) else None
  }

  /** getLicenseRefNum as written: the digits are read with Integer.decode,
    * whose failures are not the exception the callers catch. */
  function LicenseRefNumAsWritten(id: string): (r: RefNumber)
    ensures r.Numeric? ==> NumericLicenseId(id) && 0 <= r.n <= INT_MAX
    ensures !NumericLicenseId(id) <==> r.NonNumeric?
  {
    if !NumericLicenseId(id) then NonNumeric
    else match DecodeDigits(id[|NON_STD_LICENSE_ID_PRENUM|..])
      case None => NumberFormatError
      case Some(n) => Numeric(n)
  }

  /** getLicenseRefNum as intended: the digits are the decimal number of a
    * LicenseRef-N ID; an ID whose number does not fit an int is skipped like
    * a non-numeric one. */
  function LicenseRefNum(id: string): (r: RefNumber)
    ensures !r.NumberFormatError?
    ensures r.Numeric? <==> NumericLicenseId(id) && DigitsValue(id[|NON_STD_LICENSE_ID_PRENUM|..]) <= INT_MAX
    ensures r.Numeric? ==> 0 <= r.n <= INT_MAX
  {
    if !NumericLicenseId(id) then NonNumeric
    else
      var v := DigitsValue(id[|NON_STD_LICENSE_ID_PRENUM|..]);
      if v <= INT_MAX then Numeric(v) else NonNumeric
  }

  /** Both readings give back the number of every formed license ID. */
  lemma LicenseRefRoundTrip(n: int)
    requires 0 <= n <= INT_MAX
    ensures LicenseRefNum(FormNonStandardLicenseID(n)) == Numeric(n)
    ensures LicenseRefNumAsWritten(FormNonStandardLicenseID(n)) == Numeric(n)
  {
    var id := FormNonStandardLicenseID(n);
    var p := |NON_STD_LICENSE_ID_PRENUM|;
    assert id[..p] == NON_STD_LICENSE_ID_PRENUM;
    assert id[p..] == NatToString(n);
  }

  /** A zero-padded ID with an 8 or 9 makes Integer.decode throw, while the
    * intended reading gives its decimal number. */
  lemma LicenseRefNumAsWrittenThrows()
    ensures LicenseRefNumAsWritten("LicenseRef-08") == NumberFormatError
    ensures LicenseRefNum("LicenseRef-08") == Numeric(8)
  {
    var d := "LicenseRef-08"[|NON_STD_LICENSE_ID_PRENUM|..];
    assert d == "08";
    assert !IsOctalDigit(d[1]);
    assert DigitsValue(d) == DigitsValue("0") * 10 + 8;
  }

  /** The highest number among the numeric license IDs, or 0. */
  function HighestLicenseRef(ids: seq<string>): (r: int)
    ensures 0 <= r <= INT_MAX
  {
    if ids == [] then 0
    else
      var h := HighestLicenseRef(ids[..|ids| - 1]);
      match LicenseRefNum(ids[|ids| - 1])
      case Numeric(n) => if n > h then n else h
      case _ => h
  }

  /** The highest number initializeNextLicenseRef finds as written: the
    * first ID that makes Integer.decode throw aborts the scan. */
  function HighestLicenseRefAsWritten(ids: seq<string>): (r: Result<int>)
    ensures r.Ok? ==> 0 <= r.value <= INT_MAX
  {
    if ids == [] then Ok(0)
    else
      match HighestLicenseRefAsWritten(ids[..|ids| - 1])
      case Err(e) => Err(e)
      case Ok(h) =>
        match LicenseRefNumAsWritten(ids[|ids| - 1])
        case NumberFormatError => Err("NumberFormatException")
        case Numeric(n) => Ok(if n > h then n else h)
        case NonNumeric => Ok(h)
  }

  /** The next license number initializeNextLicenseRef sets as written. */
  function NextLicenseRefAsWritten(ids: seq<string>): Result<int>
  {
    match HighestLicenseRefAsWritten(ids)
    case Err(e) => Err(e)
    case Ok(h) => Ok(Wrap32(h + 1))
  }

  /** The as-written initialisation fails on a document holding LicenseRef-08;
    * the intended one continues after it. */
  lemma NextLicenseRefAsWrittenFails()
    ensures NextLicenseRefAsWritten(["LicenseRef-08"]).Err?
    ensures Wrap32(HighestLicenseRef(["LicenseRef-08"]) + 1) == 9
  {
    LicenseRefNumAsWrittenThrows();
    assert ["LicenseRef-08"][..0] == [];
  }

  /** No numeric license ID exceeds the highest one. */
  lemma {:induction false} HighestLicenseRefBound(ids: seq<string>, i: nat)
    requires i < |ids|
    ensures LicenseRefNum(ids[i]).Numeric? ==> LicenseRefNum(ids[i]).n <= HighestLicenseRef(ids)
  {
    if i < |ids| - 1 {
      HighestLicenseRefBound(ids[..|ids| - 1], i);
      assert ids[..|ids| - 1][i] == ids[i];
    }
  }

  /** The ID formed from one past the highest number is not in use. */
  lemma NextLicenseRefFresh(ids: seq<string>)
    requires HighestLicenseRef(ids) < INT_MAX
    ensures FormNonStandardLicenseID(HighestLicenseRef(ids) + 1) !in ids
  {
    var next := HighestLicenseRef(ids) + 1;
    LicenseRefRoundTrip(next);
    forall i | 0 <= i < |ids| ensures ids[i] != FormNonStandardLicenseID(next) {
      HighestLicenseRefBound(ids, i);
    }
  }

  // ---------------------------------------------------------------- version

  const VERSION_PREFIX_MESSAGE := "Invalid spdx version - must start with 'SPDX-'"
  const VERSION_FORMAT_MESSAGE := "Invalid spdx version format - must match 'SPDX-M.N'"

  /** The version matches SPDX-(\d+)\.(\d+) as a whole. */
  predicate MatchesVersionPattern(v: string)
  {
    "SPDX-" <= v &&
    var rest := v[5..];
    var k := IndexOf(rest, '.');
    0 < k < |rest| - 1 && AllDigits(rest[..k]) && AllDigits(rest[k + 1..])
  }

  /** verifySpdxVersion: no message exactly for a version of the SPDX-M.N
    * form; the prefix is checked first. */
  function VerifySpdxVersion(spdxVersion: string): (r: Option<string>)
    ensures r.None? <==> MatchesVersionPattern(spdxVersion)
    ensures !("SPDX-" <= spdxVersion) ==> r == Some(VERSION_PREFIX_MESSAGE)
  {
    if !("SPDX-" <= spdxVersion) then Some(VERSION_PREFIX_MESSAGE)
    else if !MatchesVersionPattern(spdxVersion) then Some(VERSION_FORMAT_MESSAGE)
    else None
  }

  /** Every SPDX-M.N with decimal M and N is accepted. */
  lemma VersionAccepted(major: string, minor: string)
    requires |major| > 0 && AllDigits(major) && |minor| > 0 && AllDigits(minor)
    ensures VerifySpdxVersion("SPDX-" + major + "." + minor) == None
  {
    var v := "SPDX-" + major + "." + minor;
    var rest := v[5..];
    assert rest == major + "." + minor;
    assert '.' !in major by {
      forall k | 0 <= k < |major| ensures major[k] != '.' {
        assert IsDigit(major[k]);
      }
    }
    assert rest[..|major|] == major && rest[|major|] == '.';
    assert IndexOf(rest, '.') == |major|;
    assert rest[|major| + 1..] == minor;
  }

  /** An accepted version is SPDX- followed by its two digit runs and a dot. */
  lemma AcceptedVersionShape(v: string)
    requires VerifySpdxVersion(v).None?
    ensures var k := IndexOf(v[5..], '.');
      0 < k && 6 + k < |v| && v == "SPDX-" + v[5..5 + k] + "." + v[6 + k..]
      && AllDigits(v[5..5 + k]) && AllDigits(v[6 + k..])
  {
    var rest := v[5..];
    var k := IndexOf(rest, '.');
    assert rest[..k] == v[5..5 + k];
    assert rest[k + 1..] == v[6 + k..];
    assert v == v[..5] + v[5..5 + k] + [v[5 + k]] + v[6 + k..];
  }

  // ---------------------------------------------------------------- data license

  /** The data license a version demands: PDDL-1.0 for SPDX-1.0, CC0-1.0 for
    * every other version. */
  function RequiredDataLicense(spdxVersion: string): string
  {
    if spdxVersion == ONE_DOT_ZERO_SPDX_VERSION then SPDX_DATA_LICENSE_ID_VERSION_1_0 else SPDX_DATA_LICENSE_ID
  }

  /** The data license createSpdxAnalysis sets: none for SPDX-0.8 and
    * SPDX-0.9, where it was not yet required, otherwise the one the version
    * demands. */
  function DefaultDataLicense(spdxVersion: string): (r: Option<string>)
    ensures r.Some? ==> r.value == RequiredDataLicense(spdxVersion)
    ensures r.None? <==> spdxVersion == POINT_EIGHT_SPDX_VERSION || spdxVersion == POINT_NINE_SPDX_VERSION
  {
    if spdxVersion == POINT_EIGHT_SPDX_VERSION || spdxVersion == POINT_NINE_SPDX_VERSION then None
    else Some(RequiredDataLicense(spdxVersion))
  }

  /** The value of an option as a set of at most one element. */
  function OptionSet<T>(o: Option<T>): set<T>
  {
    if o.Some? then {o.value} else {}
  }

  /** The start of createSpdxAnalysis's message for an invalid version. */
  const INVALID_VERSION_PREFIX := "Invalid SPDX Version: "

  /** setDataLicense's message for a document without a version. */
  const NO_VERSION_FOR_DATA_LICENSE := "Can not set a data license - document does not contain a version.  Set the SPDX version property before setting the data license."

  /** setDataLicense's checks: it fails without a version and with any license
    * other than the one the version demands. */
  function DataLicenseError(spdxVersion: Option<string>, licenseId: string): (r: Option<string>)
    ensures r.None? <==> spdxVersion.Some? && licenseId == RequiredDataLicense(spdxVersion.value)
    ensures spdxVersion.Some? && spdxVersion.value != ONE_DOT_ZERO_SPDX_VERSION ==>
      (r.None? <==> licenseId == SPDX_DATA_LICENSE_ID)
  {
    if spdxVersion.None? then Some(NO_VERSION_FOR_DATA_LICENSE)
    else if spdxVersion.value == ONE_DOT_ZERO_SPDX_VERSION then
      if licenseId != SPDX_DATA_LICENSE_ID_VERSION_1_0 then Some("Invalid data license for version 1 SPDX document - license must have ID " + SPDX_DATA_LICENSE_ID_VERSION_1_0)
      else None
    else if licenseId != SPDX_DATA_LICENSE_ID then Some("Invalid data license for SPDX document - license must have ID " + SPDX_DATA_LICENSE_ID)
    else None
  }

  /** The document state the identifier helpers act on; the RDF graph behind
    * it is not part of this model. */
  class SpdxDocument {
    var spdxVersion: Option<string>
    var documentNamespace: Option<string>
    var dataLicenseId: Option<string>
    /** The IDs of the document's extracted license infos. */
    var extractedLicenseIds: seq<string>
    /** Every license ID literal in the document's graph: the extracted
      * license infos' and those of the listed licenses it refers to. */
    var graphLicenseIds: set<string>
    var nextLicenseRef: int
    var nextElementRef: int

    /** The counters are Java ints, and every extracted license's ID is in
      * the graph. */
    predicate Valid()
      reads this
    {
      InInt32(nextLicenseRef) && InInt32(nextElementRef)
      && forall id :: id in extractedLicenseIds ==> id in graphLicenseIds
    }

    constructor ()
      ensures Valid()
      ensures spdxVersion.None? && documentNamespace.None? && dataLicenseId.None?
      ensures extractedLicenseIds == [] && graphLicenseIds == {}
      ensures nextLicenseRef == 1 && nextElementRef == 0
    {
      spdxVersion := None;
      documentNamespace := None;
      dataLicenseId := None;
      extractedLicenseIds := [];
      graphLicenseIds := {};
      nextLicenseRef := 1;
      nextElementRef := 0;
    }

    /** getNextLicenseRef: the current number's ID; the counter moves on by
      * one, wrapping like an AtomicInteger. */
    method GetNextLicenseRef() returns (id: string)
      requires Valid()
      modifies this
      ensures Valid()
      ensures id == FormNonStandardLicenseID(old(nextLicenseRef))
      ensures nextLicenseRef == Wrap32(old(nextLicenseRef) + 1)
      ensures nextElementRef == old(nextElementRef) && spdxVersion == old(spdxVersion)
      ensures documentNamespace == old(documentNamespace) && dataLicenseId == old(dataLicenseId)
      ensures extractedLicenseIds == old(extractedLicenseIds) && graphLicenseIds == old(graphLicenseIds)
    {
      var nextLicNum := nextLicenseRef;
      nextLicenseRef := Wrap32(nextLicenseRef + 1);
      id := FormNonStandardLicenseID(nextLicNum);
    }

    /** getNextSpdxElementRef, the same for element references. */
    method GetNextSpdxElementRef() returns (ref: string)
      requires Valid()
      modifies this
      ensures Valid()
      ensures ref == FormSpdxElementRef(old(nextElementRef))
      ensures nextElementRef == Wrap32(old(nextElementRef) + 1)
      ensures nextLicenseRef == old(nextLicenseRef) && spdxVersion == old(spdxVersion)
      ensures documentNamespace == old(documentNamespace) && dataLicenseId == old(dataLicenseId)
      ensures extractedLicenseIds == old(extractedLicenseIds) && graphLicenseIds == old(graphLicenseIds)
    {
      var nextSpdxElementNum := nextElementRef;
      nextElementRef := Wrap32(nextElementRef + 1);
      ref := FormSpdxElementRef(nextSpdxElementNum);
    }

    /** initializeNextLicenseRef over the given IDs, with the intended reading
      * of each: one past the highest numeric ID. */
    method InitializeNextLicenseRef(existingLicenseIds: seq<string>)
      requires Valid()
      modifies this
      ensures Valid()
      ensures nextLicenseRef == Wrap32(HighestLicenseRef(existingLicenseIds) + 1)
      ensures nextElementRef == old(nextElementRef) && spdxVersion == old(spdxVersion)
      ensures documentNamespace == old(documentNamespace) && dataLicenseId == old(dataLicenseId)
      ensures extractedLicenseIds == old(extractedLicenseIds) && graphLicenseIds == old(graphLicenseIds)
    {
      var highestNonStdLicense := 0;
      var i := 0;
      while i < |existingLicenseIds|
        invariant 0 <= i <= |existingLicenseIds|
        invariant highestNonStdLicense == HighestLicenseRef(existingLicenseIds[..i])
      {
        assert existingLicenseIds[..i + 1][..i] == existingLicenseIds[..i];
        var idNum := LicenseRefNum(existingLicenseIds[i]);
        if idNum.Numeric? && idNum.n > highestNonStdLicense {
          highestNonStdLicense := idNum.n;
        }
        i := i + 1;
      }
      assert existingLicenseIds[..i] == existingLicenseIds;
      nextLicenseRef := Wrap32(highestNonStdLicense + 1);
    }

    /** setDataLicense: the license is recorded only when the version allows
      * it; its node, with its license ID, joins the graph. */
    method SetDataLicense(licenseId: string) returns (err: Option<string>)
      requires Valid()
      modifies this
      ensures Valid()
      ensures err == DataLicenseError(old(spdxVersion), licenseId)
      ensures dataLicenseId == (if err.None? then Some(licenseId) else old(dataLicenseId))
      ensures graphLicenseIds == (if err.None? then old(graphLicenseIds) + {licenseId} else old(graphLicenseIds))
      ensures spdxVersion == old(spdxVersion) && documentNamespace == old(documentNamespace)
      ensures nextLicenseRef == old(nextLicenseRef) && nextElementRef == old(nextElementRef)
      ensures extractedLicenseIds == old(extractedLicenseIds)
    {
      err := DataLicenseError(spdxVersion, licenseId);
      if err.None? {
        dataLicenseId := Some(licenseId);
        graphLicenseIds := graphLicenseIds + {licenseId};
      }
    }

    /** addNewExtractedLicenseInfo: an ID that any license node of the graph
      * already carries is rejected (extractedLicenseExists looks for the ID
      * on every node, not only on the extracted license infos). */
    method AddNewExtractedLicenseInfo(licenseId: string) returns (err: Option<string>)
      requires Valid()
      modifies this
      ensures Valid()
      ensures err.Some? <==> licenseId in old(graphLicenseIds)
      ensures licenseId in old(extractedLicenseIds) ==> err.Some?
      ensures err == (if err.Some? then Some("Can not add license - ID " + licenseId + " already exists.") else None)
      ensures extractedLicenseIds == if err.Some? then old(extractedLicenseIds) else old(extractedLicenseIds) + [licenseId]
      ensures graphLicenseIds == if err.Some? then old(graphLicenseIds) else old(graphLicenseIds) + {licenseId}
      ensures spdxVersion == old(spdxVersion) && documentNamespace == old(documentNamespace)
      ensures dataLicenseId == old(dataLicenseId)
      ensures nextLicenseRef == old(nextLicenseRef) && nextElementRef == old(nextElementRef)
    {
      if licenseId in graphLicenseIds {
        err := Some("Can not add license - ID " + licenseId + " already exists.");
      } else {
        err := None;
        extractedLicenseIds := extractedLicenseIds + [licenseId];
        graphLicenseIds := graphLicenseIds + {licenseId};
      }
    }

    /** createSpdxAnalysis: an invalid version is refused; otherwise the
      * document starts afresh with the formed namespace, the version, both
      * counters at 1 and, from SPDX-1.0 on, the data license the version
      * demands. The graph is emptied only when it already held a document
      * (a namespace is set exactly then). */
    method CreateSpdxAnalysis(uri: string, version: string) returns (err: Option<string>)
      requires Valid()
      modifies this
      ensures Valid()
      ensures err.Some? <==> VerifySpdxVersion(version).Some?
      ensures err.Some? ==> (spdxVersion == old(spdxVersion) && documentNamespace == old(documentNamespace)
        && dataLicenseId == old(dataLicenseId) && extractedLicenseIds == old(extractedLicenseIds)
        && graphLicenseIds == old(graphLicenseIds) && nextLicenseRef == old(nextLicenseRef) && nextElementRef == old(nextElementRef))
      ensures err.None? ==> spdxVersion == Some(version) && documentNamespace == Some(FormDocNamespace(uri))
      ensures err.None? ==> nextLicenseRef == 1 && nextElementRef == 1 && extractedLicenseIds == []
      ensures err.None? ==> dataLicenseId == DefaultDataLicense(version)
      ensures err.None? ==>
                graphLicenseIds == (if old(documentNamespace).Some? then {} else old(graphLicenseIds)) + OptionSet(DefaultDataLicense(version))
    {
      var v := VerifySpdxVersion(version);
      if v.Some? {
        return Some(INVALID_VERSION_PREFIX + v.value);
      }
      Reset(uri, version);
      err := None;
    }

    /** What createSpdxAnalysis does once the version is accepted. */
    method Reset(uri: string, version: string)
      requires Valid()
      modifies this
      ensures Valid()
      ensures spdxVersion == Some(version) && documentNamespace == Some(FormDocNamespace(uri))
      ensures nextLicenseRef == 1 && nextElementRef == 1 && extractedLicenseIds == []
      ensures dataLicenseId == DefaultDataLicense(version)
      ensures graphLicenseIds ==
        (if old(documentNamespace).Some? then {} else old(graphLicenseIds)) + OptionSet(DefaultDataLicense(version))
    {
      graphLicenseIds := if documentNamespace.Some? then {} else graphLicenseIds;
      extractedLicenseIds, dataLicenseId := [], None;
      documentNamespace, spdxVersion := Some(FormDocNamespace(uri)), Some(version);
      nextElementRef, nextLicenseRef := 1, 1;
      var dataLicense := DefaultDataLicense(version);
      if dataLicense.Some? {
        assert DataLicenseError(spdxVersion, dataLicense.value).None?;
        var dataLicenseErr := SetDataLicense(dataLicense.value);
      }
    }
  }

  /** Two successive getNextLicenseRef calls issue different IDs, and so do
    * two successive getNextSpdxElementRef calls, until the counter wraps. */
  lemma SuccessiveRefsDiffer(n: int)
    requires InInt32(n) && n < INT_MAX
    ensures Wrap32(n + 1) == n + 1
    ensures FormNonStandardLicenseID(n) != FormNonStandardLicenseID(Wrap32(n + 1))
    ensures FormSpdxElementRef(n) != FormSpdxElementRef(Wrap32(n + 1))
  {
    FormNonStandardLicenseIDInjective(n, n + 1);
    ElementRefRoundTrip(n);
    ElementRefRoundTrip(n + 1);
  }
}
