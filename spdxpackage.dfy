// An SPDX package: its own fields on top of the item fields, the appending
// operations, its ordering, the FilesAnalyzed text and the checks of verify.

module SpdxPackageModel {
  import opened Wrappers
  import opened JavaStrings
  import opened SpdxTypes

  datatype SpdxPackage = SpdxPackage(
    item: Item,
    licenseDeclared: Option<string>,
    checksums: seq<Checksum>,
    description: Option<string>,
    downloadLocation: Option<string>,
    files: seq<nat>,                      // indices into the builder's file store
    homepage: Option<string>,
    originator: Option<string>,
    packageFileName: Option<string>,
    verificationCode: Option<VerificationCode>,
    sourceInfo: Option<string>,
    summary: Option<string>,
    supplier: Option<string>,
    versionInfo: Option<string>,
    filesAnalyzed: bool,
    externalRefs: Option<seq<ExternalRef>>)

  /** The full constructor: missing checksums and files become empty lists; the
    * external references are kept as given, missing ones included. */
  function NewPackage(
    item: Item, licenseDeclared: Option<string>, checksums: Option<seq<Checksum>>,
    description: Option<string>, downloadLocation: Option<string>, files: Option<seq<nat>>,
    homepage: Option<string>, originator: Option<string>, packageFileName: Option<string>,
    verificationCode: Option<VerificationCode>, sourceInfo: Option<string>, summary: Option<string>,
    supplier: Option<string>, versionInfo: Option<string>, filesAnalyzed: bool,
    externalRefs: Option<seq<ExternalRef>>): (r: SpdxPackage)
    ensures checksums.None? ==> r.checksums == []
    ensures checksums.Some? ==> r.checksums == checksums.value
    ensures files.None? ==> r.files == []
    ensures files.Some? ==> r.files == files.value
    ensures r.externalRefs == externalRefs && r.filesAnalyzed == filesAnalyzed
    ensures r.item == item && r.downloadLocation == downloadLocation && r.verificationCode == verificationCode
  {
    SpdxPackage(item, licenseDeclared, checksums.GetOr([]), description, downloadLocation,
                files.GetOr([]), homepage, originator, packageFileName, verificationCode,
                sourceInfo, summary, supplier, versionInfo, filesAnalyzed, externalRefs)
  }

  /** The eight-argument constructor the tag/value reader uses: files analyzed,
    * no checksums and an empty (not missing) list of external references. */
  function NewPackageWithDefaults(
    item: Item, licenseDeclared: Option<string>, downloadLocation: Option<string>,
    files: Option<seq<nat>>, verificationCode: Option<VerificationCode>): (r: SpdxPackage)
    ensures r.filesAnalyzed && r.externalRefs == Some([]) && r.checksums == []
    ensures files.None? ==> r.files == []
    ensures r.item == item && r.licenseDeclared == licenseDeclared
    ensures r.downloadLocation == downloadLocation && r.verificationCode == verificationCode
  {
    NewPackage(item, licenseDeclared, None, None, downloadLocation, files, None, None, None,
               verificationCode, None, None, None, None, true, Some([]))
  }

  /** addChecksum: nothing for a missing checksum, otherwise appended at the end. */
  function AddChecksum(p: SpdxPackage, c: Option<Checksum>): (r: SpdxPackage)
    ensures c.None? ==> r == p
    ensures c.Some? ==> r == p.(checksums := p.checksums + [c.value])
  {
    match c
    case None => p
    case Some(v) => p.(checksums := p.checksums + [v])
  }

  /** addFile: nothing for a missing file, otherwise appended at the end. */
  function AddFile(p: SpdxPackage, f: Option<nat>): (r: SpdxPackage)
    ensures f.None? ==> r == p
    ensures f.Some? ==> r == p.(files := p.files + [f.value])
  {
    match f
    case None => p
    case Some(v) => p.(files := p.files + [v])
  }

  /** addExternalRef: nothing for a missing reference; a missing list becomes a
    * list of the one reference; otherwise appended at the end. */
  function AddExternalRef(p: SpdxPackage, e: Option<ExternalRef>): (r: SpdxPackage)
    ensures e.None? ==> r == p
    ensures e.Some? ==> r == p.(externalRefs := Some(p.externalRefs.GetOr([]) + [e.value]))
  {
    match e
    case None => p
    case Some(v) =>
      match p.externalRefs
      case None =>
        assert [] + [v] == [v];
        p.(externalRefs := Some([v]))
      case Some(refs) => p.(externalRefs := Some(refs + [v]))
  }

  /** Appending keeps the earlier elements and puts the new one last. */
  lemma AppendKeepsPrefix(p: SpdxPackage, c: Checksum, f: nat, e: ExternalRef)
    ensures |AddChecksum(p, Some(c)).checksums| == |p.checksums| + 1
    ensures AddChecksum(p, Some(c)).checksums[|p.checksums|] == c
    ensures p.checksums <= AddChecksum(p, Some(c)).checksums
    ensures AddFile(p, Some(f)).files[|p.files|] == f && p.files <= AddFile(p, Some(f)).files
    ensures var refs := AddExternalRef(p, Some(e)).externalRefs.value;
      |refs| == |p.externalRefs.GetOr([])| + 1 && refs[|refs| - 1] == e && p.externalRefs.GetOr([]) <= refs
  {
  }

  // ---------------------------------------------------------------- ordering

  /** The text packages are ordered by: the name ("" when missing) followed by
    * the version when there is one. */
  function NameVersion(p: SpdxPackage): string
  {
    p.item.name.GetOr("") + p.versionInfo.GetOr("")
  }

  /** compareTo: name and version compared ignoring case. */
  function CompareTo(a: SpdxPackage, b: SpdxPackage): int
  {
    CompareToIgnoreCase(NameVersion(a), NameVersion(b))
  }

  /** Packages whose name and version differ only in case compare equal. */
  lemma CompareToIgnoresCase(a: SpdxPackage, b: SpdxPackage)
    requires ToUpper(NameVersion(a)) == ToUpper(NameVersion(b))
    ensures CompareTo(a, b) == 0
  {
    UpperIgnoresCaseFrom(NameVersion(a), NameVersion(b));
  }

  lemma {:induction false} UpperIgnoresCaseFrom(a: string, b: string)
    requires ToUpper(a) == ToUpper(b)
    ensures CompareToIgnoreCase(a, b) == 0
    decreases |a|
  {
    assert |a| == |ToUpper(a)| == |ToUpper(b)| == |b|;
    if |a| > 0 {
      assert ToUpper(a)[0] == ToUpper(b)[0];
      assert ToUpper(a)[1..] == ToUpper(a[1..]);
      assert ToUpper(b)[1..] == ToUpper(b[1..]);
      UpperIgnoresCaseFrom(a[1..], b[1..]);
    }
  }

  /** The order is antisymmetric. */
  lemma CompareToAntisymmetric(a: SpdxPackage, b: SpdxPackage)
    ensures CompareTo(a, b) > 0 <==> CompareTo(b, a) < 0
  {
    CompareToIgnoreCaseAntisymmetric(NameVersion(a), NameVersion(b));
  }

  /** A missing name sorts like an empty one, and a missing version adds nothing. */
  lemma CompareToMissingParts(a: SpdxPackage, b: SpdxPackage)
    requires a.item.name.None? && a.versionInfo.None?
    ensures CompareTo(a, b) == -|NameVersion(b)|
  {
  }

  // ---------------------------------------------------------------- files analyzed

  /** The stored FilesAnalyzed text: missing means true; after trimming,
    * "true" and "1" mean true, "false" and "0" mean false, and anything else is
    * rejected. */
  const INVALID_FILES_ANALYZED := "Invalid value for files analyzed - must be {true, false, 0, 1}"

  function FilesAnalyzedFromText(text: Option<string>): (r: Result<bool>)
    ensures text.None? ==> r == Ok(true)
    ensures text.Some? ==>
      var t := Trim(text.value);
      (r == Ok(true) <==> t == "true" || t == "1") &&
      (r == Ok(false) <==> t == "false" || t == "0") &&
      (r.Err? <==> !(t == "true" || t == "1" || t == "false" || t == "0"))
  {
    match text
    case None => Ok(true)
    case Some(s) =>
      var t := Trim(s);
      if t == "true" || t == "1" then Ok(true)
      else if t == "false" || t == "0" then Ok(false)
      else Err(INVALID_FILES_ANALYZED)
  }

  /** The stored text of a flag is read back as the same flag. */
  lemma FilesAnalyzedRoundTrip(b: bool)
    ensures FilesAnalyzedFromText(Some(if b then "true" else "false")) == Ok(b)
  {
    if b {
      TrimIdempotent("true");
    } else {
      TrimIdempotent("false");
      assert "false" != "true" && "false" != "1";
    }
  }

  // ---------------------------------------------------------------- verify

  /** The name used in the messages: "UNKNOWN PACKAGE" when missing. */
  function PackageName(p: SpdxPackage): string
  {
    p.item.name.GetOr("UNKNOWN PACKAGE")
  }

  function DownloadLocationMessages(p: SpdxPackage): (r: seq<string>)
    ensures r == [] <==> p.downloadLocation.Some? && p.downloadLocation.value != ""
    ensures r != [] ==> r == ["Missing required download location for package " + PackageName(p)]
  {
    if p.downloadLocation.None? || p.downloadLocation.value == "" then
      ["Missing required download location for package " + PackageName(p)]
    else []
  }

  /** The declared license: a missing one is reported, a present one's own
    * messages are passed on with the package's name added. */
  function DeclaredLicenseMessages(p: SpdxPackage, cat: Catalog): (r: seq<string>)
    ensures p.licenseDeclared.None? ==> r == ["Missing required declared license for package " + PackageName(p)]
    ensures p.licenseDeclared.Some? ==>
      && |r| == |cat.licenseErrors(p.licenseDeclared.value)|
      && forall j :: 0 <= j < |r| ==> r[j] == cat.nameWarning(p.item.name, cat.licenseErrors(p.licenseDeclared.value)[j])
  {
    match p.licenseDeclared
    case None => ["Missing required declared license for package " + PackageName(p)]
    case Some(l) => NamedMessages(cat, p.item.name, cat.licenseErrors(l))
  }

  /** License information from the files: required only when the files were
    * analyzed; otherwise only a complex license among them is reported. The
    * message uses the raw name ("null" when missing). */
  function LicenseInfoMessages(p: SpdxPackage, cat: Catalog): (r: seq<string>)
    ensures p.item.licenseInfoFromFiles == [] ==>
      (r == [] <==> !p.filesAnalyzed)
    ensures |r| <= 1
    ensures r != [] && p.item.licenseInfoFromFiles != [] ==>
      exists l :: l in p.item.licenseInfoFromFiles && !cat.isSimpleLicense(l)
  {
    var infos := p.item.licenseInfoFromFiles;
    if infos == [] && p.filesAnalyzed then
      ["Missing required license information from files for " + NullToText(p.item.name)]
    else if exists l :: l in infos && !cat.isSimpleLicense(l) then
      ["license info from files contains complex licenses for " + NullToText(p.item.name)]
    else []
  }

  /** What verify takes from outside the package: the messages of the
    * element part it inherits, and for each file (a handle into the file
    * store) the messages of that file's own verify. */
  datatype VerifyContext = VerifyContext(
    elementMessages: seq<string>,
    fileMessages: nat -> seq<string>)

  /** Files: missing files are reported only when analyzed; present files are
    * reported only when not analyzed, and each present file's own messages
    * follow, with the package's name added. */
  function FilesMessages(p: SpdxPackage, cat: Catalog, ctx: VerifyContext): (r: seq<string>)
    ensures p.files == [] ==> r == (if p.filesAnalyzed then ["Missing required package files for " + PackageName(p)] else [])
    ensures p.files != [] && !p.filesAnalyzed ==>
      r == ["Warning: Found analyzed files for package " + PackageName(p) + " when analyzedFiles is set to false."]
        + EachNamed(p.files, ctx.fileMessages, p.item.name, cat)
    ensures p.files != [] && p.filesAnalyzed ==> r == EachNamed(p.files, ctx.fileMessages, p.item.name, cat)
  {
    if p.files == [] then
      if p.filesAnalyzed then ["Missing required package files for " + PackageName(p)] else []
    else
      (if !p.filesAnalyzed then
         ["Warning: Found analyzed files for package " + PackageName(p) + " when analyzedFiles is set to false."]
       else [])
      + EachNamed(p.files, ctx.fileMessages, p.item.name, cat)
  }

  /** The file part is silent exactly when the files agree with the flag (some
    * files exactly when analyzed) and every listed file verifies clean. */
  lemma FilesMessagesEmptyIff(p: SpdxPackage, cat: Catalog, ctx: VerifyContext)
    ensures FilesMessages(p, cat, ctx) == [] <==>
      (p.files != [] <==> p.filesAnalyzed) && forall k :: 0 <= k < |p.files| ==> ctx.fileMessages(p.files[k]) == []
  {
    EachNamedEmptyIff(p.files, ctx.fileMessages, p.item.name, cat);
  }

  const MISSING_VERIFICATION_CODE := "Missing required package verification code for package "
  const VERIFICATION_CODE_NOT_ALLOWED := "Verification code must not be included when files not analyzed."

  /** The verification code: required when analyzed, and a non-empty one is
    * rejected when not analyzed; when analyzed, a present code's own messages
    * are passed on with the package's name added. */
  function VerificationCodeMessages(p: SpdxPackage, cat: Catalog): (r: seq<string>)
    ensures p.verificationCode.None? && p.filesAnalyzed ==>
      r == [MISSING_VERIFICATION_CODE + PackageName(p)]
    ensures !p.filesAnalyzed ==>
      (r == [] <==> p.verificationCode.None? || p.verificationCode.value.value.None? || p.verificationCode.value.value.value == "")
    ensures !p.filesAnalyzed && r != [] ==> r == [VERIFICATION_CODE_NOT_ALLOWED]
    ensures p.verificationCode.Some? && p.filesAnalyzed ==>
      var errs := cat.verificationCodeErrors(p.verificationCode.value);
      |r| == |errs| && forall j :: 0 <= j < |r| ==> r[j] == cat.nameWarning(p.item.name, errs[j])
  {
    var vc := p.verificationCode;
    if vc.None? && p.filesAnalyzed then
      [MISSING_VERIFICATION_CODE + PackageName(p)]
    else if vc.Some? && vc.value.value.Some? && vc.value.value.value != "" && !p.filesAnalyzed then
      [VERIFICATION_CODE_NOT_ALLOWED]
    else if p.filesAnalyzed then NamedMessages(cat, p.item.name, cat.verificationCodeErrors(vc.value))
    else []
  }

  function PartyMessages(p: SpdxPackage, cat: Catalog): seq<string>
  {
    var supplierPart :=
      if p.supplier.Some? && p.supplier.value != "" && cat.supplierError(p.supplier.value).Some?
         && cat.supplierError(p.supplier.value).value != ""
      then ["Supplier error - " + cat.supplierError(p.supplier.value).value + " for package " + PackageName(p)]
      else [];
    var originatorPart :=
      if p.originator.Some? && p.originator.value != "" && cat.originatorError(p.originator.value).Some?
         && cat.originatorError(p.originator.value).value != ""
      then ["Originator error - " + cat.originatorError(p.originator.value).value + " for package " + PackageName(p)]
      else [];
    supplierPart + originatorPart
  }

  function ExternalRefMessages(refs: Option<seq<ExternalRef>>, cat: Catalog): seq<string>
    decreases if refs.None? then 0 else |refs.value|
  {
    if refs.None? || refs.value == [] then []
    else cat.externalRefErrors(refs.value[0]) + ExternalRefMessages(Some(refs.value[1..]), cat)
  }

  /** verify: the inherited element messages, then each rule's messages in the
    * order the source checks them. */
  function Verify(p: SpdxPackage, cat: Catalog, ctx: VerifyContext): (r: seq<string>)
    ensures r == ctx.elementMessages + DownloadLocationMessages(p) + EachNamed(p.checksums, cat.checksumErrors, p.item.name, cat)
      + DeclaredLicenseMessages(p, cat) + LicenseInfoMessages(p, cat) + FilesMessages(p, cat, ctx)
      + VerificationCodeMessages(p, cat) + PartyMessages(p, cat) + ExternalRefMessages(p.externalRefs, cat)
  {
    ctx.elementMessages + DownloadLocationMessages(p) + EachNamed(p.checksums, cat.checksumErrors, p.item.name, cat)
      + DeclaredLicenseMessages(p, cat) + LicenseInfoMessages(p, cat) + FilesMessages(p, cat, ctx)
      + VerificationCodeMessages(p, cat) + PartyMessages(p, cat) + ExternalRefMessages(p.externalRefs, cat)
  }

  /** A package whose files were not analyzed, that lists no files and carries
    * no verification code value, gets no complaint about files, license
    * information from files or the verification code. */
  lemma NotAnalyzedNeedsNothing(p: SpdxPackage, cat: Catalog, ctx: VerifyContext)
    requires !p.filesAnalyzed && p.files == []
    requires p.verificationCode.None? || p.verificationCode.value.value.None?
    requires forall l :: l in p.item.licenseInfoFromFiles ==> cat.isSimpleLicense(l)
    ensures FilesMessages(p, cat, ctx) == [] && VerificationCodeMessages(p, cat) == [] && LicenseInfoMessages(p, cat) == []
  {
  }

  /** An analyzed package needs files, license information from the files and a
    * verification code: without each, its own message is part of verify; and
    * every message of a listed file is part of it too. */
  lemma AnalyzedNeedsAll(p: SpdxPackage, cat: Catalog, ctx: VerifyContext)
    requires p.filesAnalyzed
    ensures p.files == [] ==> "Missing required package files for " + PackageName(p) in Verify(p, cat, ctx)
    ensures p.verificationCode.None? ==>
      MISSING_VERIFICATION_CODE + PackageName(p) in Verify(p, cat, ctx)
    ensures p.item.licenseInfoFromFiles == [] ==>
      "Missing required license information from files for " + NullToText(p.item.name) in Verify(p, cat, ctx)
  {
    var r := Verify(p, cat, ctx);
    if p.files == [] {
      assert "Missing required package files for " + PackageName(p) in FilesMessages(p, cat, ctx);
    }
    if p.verificationCode.None? {
      assert MISSING_VERIFICATION_CODE + PackageName(p) in VerificationCodeMessages(p, cat);
    }
    if p.item.licenseInfoFromFiles == [] {
      assert "Missing required license information from files for " + NullToText(p.item.name) in LicenseInfoMessages(p, cat);
    }
  }

  /** Each message a checksum, the declared license, the verification code
    * (when the files were analyzed) or a listed file (whatever the flag)
    * reports about itself is part of verify, with the package's name added. */
  lemma NamedMessagesInVerify(p: SpdxPackage, cat: Catalog, ctx: VerifyContext, m: string)
    ensures forall k :: 0 <= k < |p.checksums| && m in cat.checksumErrors(p.checksums[k]) ==>
      cat.nameWarning(p.item.name, m) in Verify(p, cat, ctx)
    ensures p.licenseDeclared.Some? && m in cat.licenseErrors(p.licenseDeclared.value) ==>
      cat.nameWarning(p.item.name, m) in Verify(p, cat, ctx)
    ensures p.filesAnalyzed && p.verificationCode.Some? && m in cat.verificationCodeErrors(p.verificationCode.value) ==>
      cat.nameWarning(p.item.name, m) in Verify(p, cat, ctx)
    ensures forall k :: 0 <= k < |p.files| && m in ctx.fileMessages(p.files[k]) ==>
      cat.nameWarning(p.item.name, m) in Verify(p, cat, ctx)
  {
    var named := cat.nameWarning(p.item.name, m);
    forall k | 0 <= k < |p.checksums| && m in cat.checksumErrors(p.checksums[k])
      ensures named in Verify(p, cat, ctx)
    {
      EachNamedIncludes(p.checksums, cat.checksumErrors, p.item.name, cat, k, m);
    }
    if p.licenseDeclared.Some? && m in cat.licenseErrors(p.licenseDeclared.value) {
      var errs := cat.licenseErrors(p.licenseDeclared.value);
      var i :| 0 <= i < |errs| && errs[i] == m;
      assert DeclaredLicenseMessages(p, cat)[i] == named;
    }
    if p.filesAnalyzed && p.verificationCode.Some? && m in cat.verificationCodeErrors(p.verificationCode.value) {
      var errs := cat.verificationCodeErrors(p.verificationCode.value);
      var i :| 0 <= i < |errs| && errs[i] == m;
      assert VerificationCodeMessages(p, cat)[i] == named;
    }
    forall k | 0 <= k < |p.files| && m in ctx.fileMessages(p.files[k])
      ensures named in Verify(p, cat, ctx)
    {
      EachNamedIncludes(p.files, ctx.fileMessages, p.item.name, cat, k, m);
      assert named in FilesMessages(p, cat, ctx);
    }
  }
}
