// The records the tag/value builder keeps besides files and packages
// (snippets, extracted licenses, reviews, creation information, the document
// itself, pending annotations), how each builder applies an entity's own
// property tags to the open entity, and the dispatch of a tag to a builder.

module TagEntities {
  import opened Wrappers
  import opened JavaStrings
  import opened SpdxTypes
  import opened Tags
  import SpdxFileModel
  import SpdxPackageModel
  import ExternalDocRefModel
  import TagParsers

  type SpdxFile = SpdxFileModel.SpdxFile
  type SpdxPackage = SpdxPackageModel.SpdxPackage

  /** The SPDX ID every document has. */
  const SPDX_DOCUMENT_ID: string := "SPDXRef-DOCUMENT"

  /** The text of a new extracted license, until its text is given. */
  const TEXT_REQUIRED: string := "WARNING: TEXT IS REQUIRED"

  // ---------------------------------------------------------------- records

  /** A snippet: its item fields, the file it is from (an index into the
    * builder's file store) and its byte and line ranges. */
  datatype Snippet = Snippet(
    item: Item,
    snippetFromFile: Option<nat>,
    byteRange: Option<StartEndPointer>,
    lineRange: Option<StartEndPointer>)

  /** A license found in the files, declared in the document by its ID. */
  datatype ExtractedLicense = ExtractedLicense(
    licenseId: string,
    extractedText: string,
    name: Option<string>,
    seeAlso: Option<seq<string>>,
    comment: Option<string>)

  /** The data license: a listed license, or an extracted one standing in for
    * an ID the license list does not know. */
  datatype DataLicense = ListedLicense(id: string) | ExtractedDataLicense(id: string, text: string)

  /** The creators, creation date, comment and license-list version. */
  datatype CreationInfo = CreationInfo(
    creators: seq<string>, created: string, comment: string, licenseListVersion: string)

  /** A review: reviewer, date and comment. */
  datatype Review = Review(reviewer: string, date: string, comment: string)

  /** The document: its namespace and version, data license, its own element
    * fields (name, comment, relationships, annotations), creation information,
    * reviews, external document references and extracted licenses, and the
    * elements added to its container, in the order they were added. */
  datatype Document = Document(
    namespace: string,
    specVersion: Option<string>,
    dataLicense: Option<DataLicense>,
    item: Item,
    creationInfo: Option<CreationInfo>,
    reviewers: seq<Review>,
    externalDocRefs: seq<ExternalDocRefModel.ExternalDocumentRef>,
    extractedLicenses: seq<ExtractedLicense>,
    elements: seq<ElementRef>)

  /** An annotation waiting for the ID of the element it is about. */
  datatype AnnotationWithId = AnnotationWithId(annotation: Annotation, id: Option<string>)

  /** A new document container with the given namespace and, if given, version. */
  function NewDocument(namespace: string, specVersion: Option<string>): (r: Document)
    ensures r.namespace == namespace && r.specVersion == specVersion
    ensures r.elements == [] && r.extractedLicenses == [] && r.reviewers == [] && r.externalDocRefs == []
    ensures r.item.relationships == [] && r.item.annotations == [] && r.dataLicense.None?
  {
    Document(namespace, specVersion, None, EmptyItem(None), None, [], [], [], [])
  }

  /** A new snippet has only its SPDX ID. */
  function NewSnippet(id: string): (r: Snippet)
    ensures r.item.id == Some(id) && r.item.name.None? && r.snippetFromFile.None?
    ensures r.byteRange.None? && r.lineRange.None?
    ensures r.item.annotations == [] && r.item.relationships == [] && r.item.licenseInfoFromFiles == []
  {
    Snippet(EmptyItem(None).(id := Some(id)), None, None, None)
  }

  /** A new pending annotation has only its annotator. */
  function NewAnnotation(annotator: string): (r: AnnotationWithId)
    ensures r.annotation.annotator == annotator && r.id.None?
    ensures r.annotation.date.None? && r.annotation.comment.None? && r.annotation.annotationType.None?
  {
    AnnotationWithId(Annotation(annotator, None, None, None), None)
  }

  /** A file as the reader creates it: a name and empty lists. */
  function NewTagFile(name: string): (r: SpdxFile)
    ensures r.item.name == Some(name) && r.item.id.None?
    ensures r.fileTypes == [] && r.checksums == [] && r.fileContributors == []
    ensures r.artifactOf == [] && r.fileDependencies == [] && r.item.licenseInfoFromFiles == []
  {
    SpdxFileModel.NewFile(EmptyItem(Some(name)), Some([]), Some([]), Some([]), None, Some([]))
  }

  /** A package as the reader creates it: a name and the constructor defaults. */
  function NewTagPackage(name: string): (r: SpdxPackage)
    ensures r.item.name == Some(name) && r.item.id.None?
    ensures r.files == [] && r.checksums == [] && r.externalRefs == Some([]) && r.filesAnalyzed
  {
    SpdxPackageModel.NewPackageWithDefaults(EmptyItem(Some(name)), None, None, None, None)
  }

  // ---------------------------------------------------------------- licenses

  /** A license expression as the builders store it; the expression parser is
    * outside this model and decides which values it rejects. */
  function ParseLicense(value: string, cat: Catalog): (r: Result<string>)
    ensures r.Ok? <==> cat.parsesAsLicense(value)
    ensures r.Ok? ==> r.value == value
  {
    if cat.parsesAsLicense(value) then Ok(value) else Err("Invalid license expression: " + value)
  }

  // ---------------------------------------------------------------- annotations

  /** Sets a property of the open annotation. Only an unknown annotation type
    * is an error; the annotator is never changed. */
  function ApplyAnnotationProperty(a: AnnotationWithId, t: Tag, value: string, cat: Catalog): (r: Result<AnnotationWithId>)
    ensures r.Err? <==> t == AnnotationType && !cat.isAnnotationType(value)
    ensures r.Ok? ==> r.value.annotation.annotator == a.annotation.annotator
    ensures r.Ok? ==> r.value.annotation.date == (if t == AnnotationDate then Some(value) else a.annotation.date)
    ensures r.Ok? ==> r.value.annotation.comment == (if t == AnnotationComment then Some(value) else a.annotation.comment)
    ensures r.Ok? ==> r.value.id == (if t == AnnotationId then Some(value) else a.id)
    ensures r.Ok? ==> r.value.annotation.annotationType == (if t == AnnotationType then Some(value) else a.annotation.annotationType)
  {
    match t
    case AnnotationDate => Ok(a.(annotation := a.annotation.(date := Some(value))))
    case AnnotationComment => Ok(a.(annotation := a.annotation.(comment := Some(value))))
    case AnnotationId => Ok(a.(id := Some(value)))
    case AnnotationType =>
      if cat.isAnnotationType(value) then Ok(a.(annotation := a.annotation.(annotationType := Some(value))))
      else Err("Invalid annotation type: " + value)
    case _ => Ok(a)
  }

  // ---------------------------------------------------------------- files

  /** The properties that belong to the file record itself. */
  predicate FileProperty(t: Tag)
  {
    t in {ElementId, FileTypeTag, FileChecksum, FileLicense, FileSeenLicense, FileLicComments,
          FileCopyright, FileComment, FileNoticeText, FileContributor}
  }

  const UPPERCASE_WARNING: string := "Invalid filetype - needs to be uppercased: "

  /** A FileType value: its tag, or failing that its upper-cased tag with a
    * warning; unknown either way is an error. */
  function ReadFileType(value: string): (r: Result<(SpdxFileModel.FileType, seq<string>)>)
    ensures r.Err? <==> SpdxFileModel.FromTag(Trim(value)).None? && SpdxFileModel.FromTag(ToUpper(Trim(value))).None?
    ensures r.Ok? && SpdxFileModel.FromTag(Trim(value)).Some? ==> r.value == (SpdxFileModel.FromTag(Trim(value)).value, [])
    ensures r.Ok? && SpdxFileModel.FromTag(Trim(value)).None? ==>
      r.value == (SpdxFileModel.FromTag(ToUpper(Trim(value))).value, [UPPERCASE_WARNING + value])
  {
    match SpdxFileModel.FromTag(Trim(value))
    case Some(ft) => Ok((ft, []))
    case None =>
      match SpdxFileModel.FromTag(ToUpper(Trim(value)))
      case Some(ft) => Ok((ft, [UPPERCASE_WARNING + value]))
      case None => Err("Unknown file type: " + value)
  }

  /** A printed file type line's value is read back as that type, with no warning. */
  lemma ReadFileTypeOfTag(t: SpdxFileModel.FileType)
    ensures ReadFileType(SpdxFileModel.GetTag(t)) == Ok((t, []))
  {
    var tag := SpdxFileModel.GetTag(t);
    assert IsTrimmed(tag) by {
      assert tag[0] != ' ' && tag[|tag| - 1] != ' ';
    }
    TrimIdempotent(tag);
    SpdxFileModel.TagBijection(t, tag);
  }

  /** Sets a plain text property of the file; any other tag leaves the file
    * as it is. */
  function SetFileText(f: SpdxFile, t: Tag, value: string): (g: SpdxFile)
    ensures g.fileContributors == f.fileContributors && g.item.licenseInfoFromFiles == f.item.licenseInfoFromFiles
    ensures g.fileTypes == f.fileTypes && g.checksums == f.checksums
    ensures g.artifactOf == f.artifactOf && g.fileDependencies == f.fileDependencies
    ensures g.item.annotations == f.item.annotations && g.item.relationships == f.item.relationships
    ensures g.item.licenseConcluded == f.item.licenseConcluded && g.item.name == f.item.name
    ensures g.item.id == (if t == ElementId then Some(value) else f.item.id)
    ensures g.item.licenseComments == (if t == FileLicComments then Some(value) else f.item.licenseComments)
    ensures g.item.copyrightText == (if t == FileCopyright then Some(value) else f.item.copyrightText)
    ensures g.item.comment == (if t == FileComment then Some(value) else f.item.comment)
    ensures g.noticeText == (if t == FileNoticeText then Some(value) else f.noticeText)
  {
    if t == ElementId then f.(item := f.item.(id := Some(value)))
    else if t == FileLicComments then f.(item := f.item.(licenseComments := Some(value)))
    else if t == FileCopyright then f.(item := f.item.(copyrightText := Some(value)))
    else if t == FileComment then f.(item := f.item.(comment := Some(value)))
    else if t == FileNoticeText then f.(noticeText := Some(value))
    else f
  }

  /** Sets a property of the open file, with the warnings that produces. */
  function ApplyFileProperty(f: SpdxFile, t: Tag, value: string, cat: Catalog): (r: Result<(SpdxFile, seq<string>)>)
    requires FileProperty(t)
    ensures r.Err? <==>
      || (t == FileTypeTag && ReadFileType(value).Err?)
      || (t == FileChecksum && TagParsers.ParseChecksum(value, cat).Err?)
      || ((t == FileLicense || t == FileSeenLicense) && !cat.parsesAsLicense(value))
    ensures r.Ok? && t != FileTypeTag ==> r.value.1 == []
  {
    if t == FileTypeTag then
      match ReadFileType(value)
      case Err(e) => Err(e)
      case Ok((ft, w)) => Ok((SpdxFileModel.AddFileType(f, Some(ft)), w))
    else if t == FileChecksum then
      match TagParsers.ParseChecksum(value, cat)
      case Err(e) => Err(e)
      case Ok(c) => Ok((SpdxFileModel.AddChecksum(f, Some(c)), []))
    else if t == FileLicense then
      match ParseLicense(value, cat)
      case Err(e) => Err(e)
      case Ok(l) => Ok((f.(item := f.item.(licenseConcluded := Some(l))), []))
    else if t == FileSeenLicense then
      match ParseLicense(value, cat)
      case Err(e) => Err(e)
      case Ok(l) => Ok((f.(item := f.item.(licenseInfoFromFiles := f.item.licenseInfoFromFiles + [l])), []))
    else if t == FileContributor then
      Ok((SpdxFileModel.SetFileContributors(f, Some(f.fileContributors + [value])), []))
    else Ok((SetFileText(f, t, value), []))
  }

  /** The multi-valued file fields grow by exactly one element, at the end,
    * under their own tag, and are left alone by every other property. */
  lemma FileListsGrowAtEnd(f: SpdxFile, t: Tag, value: string, cat: Catalog)
    requires FileProperty(t) && ApplyFileProperty(f, t, value, cat).Ok?
    ensures var g := ApplyFileProperty(f, t, value, cat).value.0;
      && g.fileContributors == f.fileContributors + (if t == FileContributor then [value] else [])
      && g.item.licenseInfoFromFiles == f.item.licenseInfoFromFiles + (if t == FileSeenLicense then [value] else [])
      && |g.fileTypes| == |f.fileTypes| + (if t == FileTypeTag then 1 else 0)
      && g.fileTypes[..|f.fileTypes|] == f.fileTypes
      && |g.checksums| == |f.checksums| + (if t == FileChecksum then 1 else 0)
      && g.checksums[..|f.checksums|] == f.checksums
      && g.artifactOf == f.artifactOf && g.fileDependencies == f.fileDependencies
      && g.item.annotations == f.item.annotations && g.item.relationships == f.item.relationships
  {
  }

  /** The single-valued file fields are overwritten by their own tag and kept
    * by every other one. */
  lemma FileFieldsOverwrite(f: SpdxFile, t: Tag, value: string, cat: Catalog)
    requires FileProperty(t) && ApplyFileProperty(f, t, value, cat).Ok?
    ensures var g := ApplyFileProperty(f, t, value, cat).value.0;
      && g.item.id == (if t == ElementId then Some(value) else f.item.id)
      && g.item.licenseConcluded == (if t == FileLicense then Some(value) else f.item.licenseConcluded)
      && g.item.licenseComments == (if t == FileLicComments then Some(value) else f.item.licenseComments)
      && g.item.copyrightText == (if t == FileCopyright then Some(value) else f.item.copyrightText)
      && g.item.comment == (if t == FileComment then Some(value) else f.item.comment)
      && g.noticeText == (if t == FileNoticeText then Some(value) else f.noticeText)
      && g.item.name == f.item.name
  {
  }

  // ---------------------------------------------------------------- snippets

  /** The properties that belong to the snippet record itself. */
  predicate SnippetProperty(t: Tag)
  {
    t in {SnippetSpdxId, SnippetByteRange, SnippetLineRange, SnippetConcludedLicense,
          SnippetLicComments, SnippetCopyright, SnippetComment, SnippetName, SnippetSeenLicense}
  }

  /** Sets a property of the open snippet. The seen license replaces the whole
    * list with the one license. */
  function ApplySnippetProperty(s: Snippet, t: Tag, value: string, cat: Catalog): (r: Result<Snippet>)
    requires SnippetProperty(t)
    ensures r.Err? <==>
      || (t == SnippetByteRange && TagParsers.ParseByteRange(value).Err?)
      || (t == SnippetLineRange && TagParsers.ParseLineRange(value).Err?)
      || ((t == SnippetConcludedLicense || t == SnippetSeenLicense) && !cat.parsesAsLicense(value))
    ensures r.Ok? ==> r.value.snippetFromFile == s.snippetFromFile
    ensures r.Ok? ==> r.value.item.licenseInfoFromFiles == (if t == SnippetSeenLicense then [value] else s.item.licenseInfoFromFiles)
    ensures r.Ok? ==> r.value.item.id == (if t == SnippetSpdxId then Some(value) else s.item.id)
    ensures r.Ok? ==> r.value.byteRange == (if t == SnippetByteRange then Some(TagParsers.ParseByteRange(value).value) else s.byteRange)
    ensures r.Ok? ==> r.value.lineRange == (if t == SnippetLineRange then Some(TagParsers.ParseLineRange(value).value) else s.lineRange)
  {
    match t
    case SnippetSpdxId => Ok(s.(item := s.item.(id := Some(value))))
    case SnippetByteRange =>
      (match TagParsers.ParseByteRange(value)
       case Err(e) => Err(e)
       case Ok(range) => Ok(s.(byteRange := Some(range))))
    case SnippetLineRange =>
      (match TagParsers.ParseLineRange(value)
       case Err(e) => Err(e)
       case Ok(range) => Ok(s.(lineRange := Some(range))))
    case SnippetConcludedLicense =>
      (match ParseLicense(value, cat)
       case Err(e) => Err(e)
       case Ok(l) => Ok(s.(item := s.item.(licenseConcluded := Some(l)))))
    case SnippetLicComments => Ok(s.(item := s.item.(licenseComments := Some(value))))
    case SnippetCopyright => Ok(s.(item := s.item.(copyrightText := Some(value))))
    case SnippetComment => Ok(s.(item := s.item.(comment := Some(value))))
    case SnippetName => Ok(s.(item := s.item.(name := Some(value))))
    case SnippetSeenLicense =>
      (match ParseLicense(value, cat)
       case Err(e) => Err(e)
       case Ok(l) => Ok(s.(item := s.item.(licenseInfoFromFiles := [l]))))
  }

  // ---------------------------------------------------------------- packages

  /** The properties that belong to the package record itself. */
  predicate PackageProperty(t: Tag)
  {
    t in {ElementId, PackageVersionInfo, PackageFileName, PackageSupplier, PackageOriginator,
          PackageDownloadUrl, PackageVerificationCode, PackageChecksum, PackageHomepageUrl,
          PackageSourceInfo, PackageConcludedLicense, PackageLicenseInfoFromFiles,
          PackageDeclaredLicense, PackageLicenseComment, PackageDeclaredCopyright,
          PackageShortDesc, PackageDescription, PackageComment, PackageFilesAnalyzed}
  }

  /** FilesAnalyzed in a tag/value file: "true" or "false" in any letter case. */
  function ReadFilesAnalyzed(value: string): (r: Result<bool>)
    ensures r == Ok(true) <==> ToUpper(value) == "TRUE"
    ensures r == Ok(false) <==> ToUpper(value) == "FALSE"
    ensures r.Err? <==> ToUpper(value) != "TRUE" && ToUpper(value) != "FALSE"
  {
    if ToUpper(value) == "TRUE" then Ok(true)
    else if ToUpper(value) == "FALSE" then Ok(false)
    else Err("Invalid value for files analyzed.  Must be 'true' or 'false'.  Found value: " + value)
  }

  /** Sets a plain text property of the package; any other tag leaves the
    * package as it is. */
  function SetPackageText(p: SpdxPackage, t: Tag, value: string): (q: SpdxPackage)
    ensures q.files == p.files && q.externalRefs == p.externalRefs
    ensures q.item.annotations == p.item.annotations && q.item.relationships == p.item.relationships
    ensures q.checksums == p.checksums && q.item.licenseInfoFromFiles == p.item.licenseInfoFromFiles
    ensures q.verificationCode == p.verificationCode && q.filesAnalyzed == p.filesAnalyzed
  {
    if t == ElementId then p.(item := p.item.(id := Some(value)))
    else if t == PackageVersionInfo then p.(versionInfo := Some(value))
    else if t == PackageFileName then p.(packageFileName := Some(value))
    else if t == PackageSupplier then p.(supplier := Some(value))
    else if t == PackageOriginator then p.(originator := Some(value))
    else if t == PackageDownloadUrl then p.(downloadLocation := Some(value))
    else if t == PackageHomepageUrl then p.(homepage := Some(value))
    else if t == PackageSourceInfo then p.(sourceInfo := Some(value))
    else if t == PackageLicenseComment then p.(item := p.item.(licenseComments := Some(value)))
    else if t == PackageDeclaredCopyright then p.(item := p.item.(copyrightText := Some(value)))
    else if t == PackageShortDesc then p.(summary := Some(value))
    else if t == PackageDescription then p.(description := Some(value))
    else if t == PackageComment then p.(item := p.item.(comment := Some(value)))
    else p
  }

  /** Sets a property of the open package: the verification code, a checksum,
    * the three licenses and FilesAnalyzed are parsed first, the rest is text. */
  function ApplyPackageProperty(p: SpdxPackage, t: Tag, value: string, cat: Catalog): (r: Result<SpdxPackage>)
    requires PackageProperty(t)
    ensures r.Err? <==>
      || (t == PackageVerificationCode && TagParsers.ParseVerificationCode(value).Err?)
      || (t == PackageChecksum && TagParsers.ParseChecksum(value, cat).Err?)
      || ((t == PackageConcludedLicense || t == PackageLicenseInfoFromFiles || t == PackageDeclaredLicense) && !cat.parsesAsLicense(value))
      || (t == PackageFilesAnalyzed && ReadFilesAnalyzed(value).Err?)
    ensures r.Ok? ==> r.value.files == p.files && r.value.externalRefs == p.externalRefs
    ensures r.Ok? ==> r.value.item.annotations == p.item.annotations && r.value.item.relationships == p.item.relationships
  {
    if t == PackageVerificationCode then
      match TagParsers.ParseVerificationCode(value)
      case Err(e) => Err(e)
      case Ok(code) => Ok(p.(verificationCode := Some(code)))
    else if t == PackageChecksum then
      match TagParsers.ParseChecksum(value, cat)
      case Err(e) => Err(e)
      case Ok(c) => Ok(SpdxPackageModel.AddChecksum(p, Some(c)))
    else if t == PackageConcludedLicense then
      match ParseLicense(value, cat)
      case Err(e) => Err(e)
      case Ok(l) => Ok(p.(item := p.item.(licenseConcluded := Some(l))))
    else if t == PackageLicenseInfoFromFiles then
      match ParseLicense(value, cat)
      case Err(e) => Err(e)
      case Ok(l) => Ok(p.(item := p.item.(licenseInfoFromFiles := p.item.licenseInfoFromFiles + [l])))
    else if t == PackageDeclaredLicense then
      match ParseLicense(value, cat)
      case Err(e) => Err(e)
      case Ok(l) => Ok(p.(licenseDeclared := Some(l)))
    else if t == PackageFilesAnalyzed then
      match ReadFilesAnalyzed(value)
      case Err(e) => Err(e)
      case Ok(b) => Ok(p.(filesAnalyzed := b))
    else Ok(SetPackageText(p, t, value))
  }

  /** The package's checksums and license information from files grow by one
    * element at the end under their own tags; the verification code is the
    * split value. */
  lemma PackageListsGrowAtEnd(p: SpdxPackage, t: Tag, value: string, cat: Catalog)
    requires PackageProperty(t) && ApplyPackageProperty(p, t, value, cat).Ok?
    ensures var q := ApplyPackageProperty(p, t, value, cat).value;
      && |q.checksums| == |p.checksums| + (if t == PackageChecksum then 1 else 0)
      && q.checksums[..|p.checksums|] == p.checksums
      && q.item.licenseInfoFromFiles == p.item.licenseInfoFromFiles + (if t == PackageLicenseInfoFromFiles then [value] else [])
      && q.verificationCode == (if t == PackageVerificationCode then Some(TagParsers.ParseVerificationCode(value).value) else p.verificationCode)
      && q.filesAnalyzed == (if t == PackageFilesAnalyzed then ToUpper(value) == "TRUE" else p.filesAnalyzed)
  {
  }

  // ---------------------------------------------------------------- extracted licenses

  /** Sets a property of the open extracted license; the license text tag is
    * accepted and ignored. */
  function ApplyExtractedLicenseProperty(l: ExtractedLicense, t: Tag, value: string): (r: ExtractedLicense)
    ensures r.licenseId == l.licenseId
    ensures r.extractedText == (if t == ExtractedText then value else l.extractedText)
    ensures r.name == (if t == LicenseName then Some(value) else l.name)
    ensures r.seeAlso == (if t == SourceUrls then Some(TagParsers.ParseSourceUrls(value)) else l.seeAlso)
    ensures r.comment == (if t == LicenseComment then Some(value) else l.comment)
  {
    match t
    case ExtractedText => l.(extractedText := value)
    case LicenseName => l.(name := Some(value))
    case SourceUrls => l.(seeAlso := Some(TagParsers.ParseSourceUrls(value)))
    case LicenseComment => l.(comment := Some(value))
    case _ => l
  }

  /** The position of the first extracted license with the given ID. */
  function FindExtractedLicense(ls: seq<ExtractedLicense>, id: string): (r: Option<nat>)
    ensures r.None? <==> forall i :: 0 <= i < |ls| ==> ls[i].licenseId != id
    ensures r.Some? ==> r.value < |ls| && ls[r.value].licenseId == id
  {
    if |ls| == 0 then None
    else if ls[0].licenseId == id then Some(0)
    else match FindExtractedLicense(ls[1..], id)
      case None => None
      case Some(k) => Some(k + 1)
  }

  // ---------------------------------------------------------------- creation information

  predicate CreationTag(t: Tag)
  {
    t in {CreationCreator, CreationCreated, CreationComment, LicenseListVersion}
  }

  /** The creation information after a creation tag. A missing record is
    * created first: with no creators for the creation date, and, as written,
    * with the value itself as the only creator for the creator, the comment
    * and the license-list version. */
  function ApplyCreationInfo(ci: Option<CreationInfo>, t: Tag, value: string): (r: CreationInfo)
    requires CreationTag(t)
    ensures ci.Some? ==> r.creators == ci.value.creators + (if t == CreationCreator then [value] else [])
    ensures ci.None? ==> r.creators == (if t == CreationCreated then [] else [value])
    ensures r.created == (if t == CreationCreated then value else if ci.Some? then ci.value.created else "")
    ensures r.comment == (if t == CreationComment then value else if ci.Some? then ci.value.comment else "")
    ensures r.licenseListVersion == (if t == LicenseListVersion then value else if ci.Some? then ci.value.licenseListVersion else "")
  {
    match t
    case CreationCreator =>
      (match ci
       case None => CreationInfo([value], "", "", "")
       case Some(c) => c.(creators := c.creators + [value]))
    case CreationCreated => ci.GetOr(CreationInfo([], "", "", "")).(created := value)
    case CreationComment => ci.GetOr(CreationInfo([value], "", "", "")).(comment := value)
    case LicenseListVersion => ci.GetOr(CreationInfo([value], "", "", "")).(licenseListVersion := value)
  }

  // ---------------------------------------------------------------- dispatch

  /** The builder a tag is routed to. */
  datatype Target = ToAnnotation | ToFile | ToSnippet | ToPackage | ToExtractedLicense | ToDocument

  /** The tags the open snippet accepts once corrected: every snippet tag but
    * SnippetSPDXID, which starts the next snippet. */
  predicate SnippetTagsCorrected(t: Tag)
  {
    SnippetTags(t) && t != SnippetSpdxId
  }

  /** The dispatch as written: the first builder whose flag is set and whose
    * tag set holds the tag, in the order annotation, file, snippet, package,
    * extracted license; the document otherwise. */
  function RouteAsWritten(inAnnotation: bool, inFile: bool, inSnippet: bool, inPackage: bool,
                          inExtracted: bool, tag: Option<Tag>): (r: Target)
    ensures r == ToSnippet <==>
      tag.Some? && !(inAnnotation && AnnotationTags(tag.value)) && !(inFile && FileTags(tag.value))
      && inSnippet && SnippetTags(tag.value)
  {
    if tag.None? then ToDocument
    else if inAnnotation && AnnotationTags(tag.value) then ToAnnotation
    else if inFile && FileTags(tag.value) then ToFile
    else if inSnippet && SnippetTags(tag.value) then ToSnippet
    else if inPackage && PackageTags(tag.value) then ToPackage
    else if inExtracted && ExtractedLicenseTags(tag.value) then ToExtractedLicense
    else ToDocument
  }

  /** The dispatch, with SnippetSPDXID always read at document level so that
    * it starts a new snippet. Exactly one builder is chosen, by priority. */
  function Route(inAnnotation: bool, inFile: bool, inSnippet: bool, inPackage: bool,
                 inExtracted: bool, tag: Option<Tag>): (r: Target)
    ensures r == ToAnnotation <==> tag.Some? && inAnnotation && AnnotationTags(tag.value)
    ensures r == ToFile <==>
      tag.Some? && !(inAnnotation && AnnotationTags(tag.value)) && inFile && FileTags(tag.value)
    ensures r == ToSnippet <==>
      tag.Some? && !(inAnnotation && AnnotationTags(tag.value)) && !(inFile && FileTags(tag.value))
      && inSnippet && SnippetTagsCorrected(tag.value)
    ensures r == ToPackage <==>
      tag.Some? && !(inAnnotation && AnnotationTags(tag.value)) && !(inFile && FileTags(tag.value))
      && !(inSnippet && SnippetTagsCorrected(tag.value)) && inPackage && PackageTags(tag.value)
    ensures r == ToExtractedLicense <==>
      tag.Some? && !(inAnnotation && AnnotationTags(tag.value)) && !(inFile && FileTags(tag.value))
      && !(inSnippet && SnippetTagsCorrected(tag.value)) && !(inPackage && PackageTags(tag.value))
      && inExtracted && ExtractedLicenseTags(tag.value)
  {
    if tag.None? then ToDocument
    else if inAnnotation && AnnotationTags(tag.value) then ToAnnotation
    else if inFile && FileTags(tag.value) then ToFile
    else if inSnippet && SnippetTagsCorrected(tag.value) then ToSnippet
    else if inPackage && PackageTags(tag.value) then ToPackage
    else if inExtracted && ExtractedLicenseTags(tag.value) then ToExtractedLicense
    else ToDocument
  }

  /** As written, a second SnippetSPDXID inside an open snippet goes to that
    * snippet, whose ID it then overwrites: the two snippets become one. */
  lemma SecondSnippetIdRenamesAsWritten(s: Snippet, id: string, cat: Catalog)
    ensures RouteAsWritten(false, false, true, false, false, Some(SnippetSpdxId)) == ToSnippet
    ensures ApplySnippetProperty(s, SnippetSpdxId, id, cat) == Ok(s.(item := s.item.(id := Some(id))))
  {
  }

  /** Corrected, SnippetSPDXID is always read at document level, whatever is open. */
  lemma SnippetIdAlwaysStartsSnippet(inAnnotation: bool, inFile: bool, inSnippet: bool, inPackage: bool, inExtracted: bool)
    ensures Route(inAnnotation, inFile, inSnippet, inPackage, inExtracted, Some(SnippetSpdxId)) == ToDocument
  {
  }

  /** The correction changes nothing but SnippetSPDXID. */
  lemma RouteAgreesElsewhere(inAnnotation: bool, inFile: bool, inSnippet: bool, inPackage: bool,
                             inExtracted: bool, tag: Option<Tag>)
    requires tag != Some(SnippetSpdxId)
    ensures Route(inAnnotation, inFile, inSnippet, inPackage, inExtracted, tag)
         == RouteAsWritten(inAnnotation, inFile, inSnippet, inPackage, inExtracted, tag)
  {
  }

  /** An entity builder is chosen only while its entity is open. */
  lemma RouteNeedsOpenEntity(inAnnotation: bool, inFile: bool, inSnippet: bool, inPackage: bool,
                             inExtracted: bool, tag: Option<Tag>)
    ensures var r := Route(inAnnotation, inFile, inSnippet, inPackage, inExtracted, tag);
      && (r == ToAnnotation ==> inAnnotation)
      && (r == ToFile ==> inFile)
      && (r == ToSnippet ==> inSnippet)
      && (r == ToPackage ==> inPackage)
      && (r == ToExtractedLicense ==> inExtracted)
      && (!inAnnotation && !inFile && !inSnippet && !inPackage && !inExtracted ==> r == ToDocument)
  {
  }
}
