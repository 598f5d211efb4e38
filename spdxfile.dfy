// An SPDX file: its file types, checksums, contributors, projects it is an
// artifact of and the files it depends on.

module SpdxFileModel {
  import opened Wrappers
  import opened JavaStrings
  import opened SpdxTypes

  datatype FileType =
    | Application | Archive | Audio | Binary | Documentation | Image
    | Other | Source | Spdx | Text | Video

  /** FILE_TYPE_TO_TAG: the tag/value name of a file type. */
  function GetTag(t: FileType): string
  {
    match t
    case Application => "APPLICATION"
    case Archive => "ARCHIVE"
    case Audio => "AUDIO"
    case Binary => "BINARY"
    case Documentation => "DOCUMENTATION"
    case Image => "IMAGE"
    case Other => "OTHER"
    case Source => "SOURCE"
    case Spdx => "SPDX"
    case Text => "TEXT"
    case Video => "VIDEO"
  }

  /** TAG_TO_FILE_TYPE: the file type with a given tag, if any. */
  function FromTag(tag: string): Option<FileType>
  {
    if tag == "APPLICATION" then Some(Application)
    else if tag == "ARCHIVE" then Some(Archive)
    else if tag == "AUDIO" then Some(Audio)
    else if tag == "BINARY" then Some(Binary)
    else if tag == "DOCUMENTATION" then Some(Documentation)
    else if tag == "IMAGE" then Some(Image)
    else if tag == "OTHER" then Some(Other)
    else if tag == "SOURCE" then Some(Source)
    else if tag == "SPDX" then Some(Spdx)
    else if tag == "TEXT" then Some(Text)
    else if tag == "VIDEO" then Some(Video)
    else None
  }

  /** The two tag maps are inverse bijections between the eleven file types and
    * their eleven tags. */
  lemma TagBijection(t: FileType, tag: string)
    ensures FromTag(GetTag(t)) == Some(t)
    ensures FromTag(tag) == Some(t) <==> tag == GetTag(t)
  {
  }

  /** The Java constant name of a file type (toString, and what valueOf accepts). */
  function EnumName(t: FileType): string
  {
    match t
    case Application => "fileType_application"
    case Archive => "fileType_archive"
    case Audio => "fileType_audio"
    case Binary => "fileType_binary"
    case Documentation => "fileType_documentation"
    case Image => "fileType_image"
    case Other => "fileType_other"
    case Source => "fileType_source"
    case Spdx => "fileType_spdx"
    case Text => "fileType_text"
    case Video => "fileType_video"
  }

  /** FileType.valueOf: the file type whose constant name is s, if any. */
  function ValueOf(s: string): (r: Option<FileType>)
    ensures r.Some? ==> EnumName(r.value) == s
  {
    if s == "fileType_application" then Some(Application)
    else if s == "fileType_archive" then Some(Archive)
    else if s == "fileType_audio" then Some(Audio)
    else if s == "fileType_binary" then Some(Binary)
    else if s == "fileType_documentation" then Some(Documentation)
    else if s == "fileType_image" then Some(Image)
    else if s == "fileType_other" then Some(Other)
    else if s == "fileType_source" then Some(Source)
    else if s == "fileType_spdx" then Some(Spdx)
    else if s == "fileType_text" then Some(Text)
    else if s == "fileType_video" then Some(Video)
    else None
  }

  lemma ValueOfEnumName(t: FileType)
    ensures ValueOf(EnumName(t)) == Some(t)
  {
  }

  /** fileTypesToUris: each type as the SPDX namespace followed by its constant name. */
  function FileTypesToUris(ts: seq<FileType>): (r: seq<string>)
    ensures |r| == |ts|
    ensures forall i :: 0 <= i < |ts| ==> r[i] == SPDX_NAMESPACE + EnumName(ts[i])
  {
    if ts == [] then [] else [SPDX_NAMESPACE + EnumName(ts[0])] + FileTypesToUris(ts[1..])
  }

  /** What urisToFileType makes of one array entry. */
  datatype UriReading = Blank | OutsideNamespace | Known(t: FileType) | UnknownName

  function ReadUri(uri: Option<string>): (r: UriReading)
    ensures r.Known? ==> uri == Some(SPDX_NAMESPACE + EnumName(r.t))
    ensures r.OutsideNamespace? <==> uri.Some? && uri.value != "" && !(SPDX_NAMESPACE <= uri.value)
  {
    match uri
    case None => Blank
    case Some(u) =>
      if u == "" then Blank
      else if !(SPDX_NAMESPACE <= u) then OutsideNamespace
      else
        var name := u[|SPDX_NAMESPACE|..];
        assert u == SPDX_NAMESPACE + name;
        match ValueOf(name)
        case Some(t) => Known(t)
        case None => UnknownName
  }

  /** The result of urisToFileType, entry by entry: missing and empty entries are
    * skipped, an entry outside the namespace fails, and an unknown constant name
    * fails unless errors are ignored, in which case it is dropped. */
  function UrisToFileTypes(uris: seq<Option<string>>, ignoreErrors: bool): Result<seq<FileType>>
  {
    if uris == [] then Ok([])
    else
      var rest := UrisToFileTypes(uris[1..], ignoreErrors);
      match ReadUri(uris[0])
      case Blank => rest
      case OutsideNamespace => Err("Invalid file type: " + uris[0].value)
      case UnknownName => if ignoreErrors then rest else Err("Invalid file type: " + uris[0].value)
      case Known(t) => Prepend([t], rest)
  }

  function Prepend(prefix: seq<FileType>, r: Result<seq<FileType>>): Result<seq<FileType>>
  {
    match r
    case Ok(ts) => Ok(prefix + ts)
    case Err(e) => Err(e)
  }

  /** urisToFileType, as the loop over the array that it is. */
  method UrisToFileType(uris: seq<Option<string>>, ignoreErrors: bool) returns (r: Result<seq<FileType>>)
    ensures r == UrisToFileTypes(uris, ignoreErrors)
  {
    var found: seq<FileType> := [];
    var i := 0;
    assert uris[0..] == uris;
    PrependEmpty(UrisToFileTypes(uris, ignoreErrors));
    while i < |uris|
      invariant 0 <= i <= |uris|
      invariant UrisToFileTypes(uris, ignoreErrors) == Prepend(found, UrisToFileTypes(uris[i..], ignoreErrors))
    {
      assert uris[i..][1..] == uris[i + 1..];
      match ReadUri(uris[i]) {
        case Blank =>
        case OutsideNamespace =>
          return Err("Invalid file type: " + uris[i].value);
        case UnknownName =>
          if !ignoreErrors {
            return Err("Invalid file type: " + uris[i].value);
          }
        case Known(t) =>
          PrependTwice(found, [t], UrisToFileTypes(uris[i + 1..], ignoreErrors));
          found := found + [t];
      }
      i := i + 1;
    }
    assert uris[i..] == [];
    assert found + [] == found;
    r := Ok(found);
  }

  lemma PrependEmpty(r: Result<seq<FileType>>)
    ensures Prepend([], r) == r
  {
    if r.Ok? {
      assert [] + r.value == r.value;
    }
  }

  lemma PrependTwice(a: seq<FileType>, b: seq<FileType>, r: Result<seq<FileType>>)
    ensures Prepend(a, Prepend(b, r)) == Prepend(a + b, r)
  {
    if r.Ok? {
      assert a + (b + r.value) == (a + b) + r.value;
    }
  }

  function Somes(xs: seq<string>): (r: seq<Option<string>>)
    ensures |r| == |xs| && forall i :: 0 <= i < |xs| ==> r[i] == Some(xs[i])
  {
    if xs == [] then [] else [Some(xs[0])] + Somes(xs[1..])
  }

  /** Reading back the URIs of a list of file types gives the same list. */
  lemma {:induction false} UrisRoundTrip(ts: seq<FileType>, ignoreErrors: bool)
    ensures UrisToFileTypes(Somes(FileTypesToUris(ts)), ignoreErrors) == Ok(ts)
  {
    var uris := Somes(FileTypesToUris(ts));
    if ts != [] {
      assert uris[1..] == Somes(FileTypesToUris(ts[1..]));
      UrisRoundTrip(ts[1..], ignoreErrors);
      ValueOfEnumName(ts[0]);
      assert uris[0].value[|SPDX_NAMESPACE|..] == EnumName(ts[0]);
      assert [ts[0]] + ts[1..] == ts;
    }
  }

  /** An entry outside the SPDX namespace fails the conversion whether or
    * not errors are ignored, unless an earlier entry failed first. */
  lemma {:induction false} UrisOutsideNamespaceFail(uris: seq<Option<string>>, ignoreErrors: bool, k: nat)
    requires k < |uris| && uris[k].Some? && uris[k].value != "" && !(SPDX_NAMESPACE <= uris[k].value)
    ensures UrisToFileTypes(uris, ignoreErrors).Err?
  {
    if k > 0 {
      assert uris[1..][k - 1] == uris[k];
      UrisOutsideNamespaceFail(uris[1..], ignoreErrors, k - 1);
    }
  }

  /** The types the entries name, in the order of the entries, every other
    * entry left out. */
  function KnownTypes(uris: seq<Option<string>>): seq<FileType>
  {
    if uris == [] then []
    else (if ReadUri(uris[0]).Known? then [ReadUri(uris[0]).t] else []) + KnownTypes(uris[1..])
  }

  /** When errors are ignored, the conversion fails only on an entry outside the
    * namespace, and otherwise returns the type of every entry naming one, in
    * the order of the entries, and nothing else. */
  lemma {:induction false} UrisIgnoringErrors(uris: seq<Option<string>>)
    requires forall k :: 0 <= k < |uris| ==> ReadUri(uris[k]) != OutsideNamespace
    ensures UrisToFileTypes(uris, true) == Ok(KnownTypes(uris))
    ensures forall k :: 0 <= k < |uris| && ReadUri(uris[k]).Known? ==> ReadUri(uris[k]).t in KnownTypes(uris)
    ensures forall t :: t in KnownTypes(uris) ==> exists k :: 0 <= k < |uris| && ReadUri(uris[k]) == Known(t)
  {
    if uris != [] {
      forall k | 0 <= k < |uris[1..]| ensures ReadUri(uris[1..][k]) != OutsideNamespace {
        assert uris[1..][k] == uris[k + 1];
      }
      UrisIgnoringErrors(uris[1..]);
      var head := if ReadUri(uris[0]).Known? then [ReadUri(uris[0]).t] else [];
      assert KnownTypes(uris) == head + KnownTypes(uris[1..]);
      assert ReadUri(uris[0]) != OutsideNamespace;
      if !ReadUri(uris[0]).Known? {
        assert head == [] && head + KnownTypes(uris[1..]) == KnownTypes(uris[1..]);
      }
      forall k | 0 <= k < |uris| && ReadUri(uris[k]).Known?
        ensures ReadUri(uris[k]).t in KnownTypes(uris)
      {
        if k > 0 {
          assert uris[1..][k - 1] == uris[k];
        }
      }
      forall t | t in KnownTypes(uris)
        ensures exists k :: 0 <= k < |uris| && ReadUri(uris[k]) == Known(t)
      {
        if t !in KnownTypes(uris[1..]) {
          assert ReadUri(uris[0]) == Known(t);
        } else {
          var k :| 0 <= k < |uris[1..]| && ReadUri(uris[1..][k]) == Known(t);
          assert uris[1..][k] == uris[k + 1];
        }
      }
    }
  }

  // ---------------------------------------------------------------- the file record

  datatype SpdxFile = SpdxFile(
    item: Item,
    fileTypes: seq<FileType>,
    checksums: seq<Checksum>,
    fileContributors: seq<string>,
    noticeText: Option<string>,
    artifactOf: seq<DoapProject>,
    fileDependencies: seq<nat>)   // indices of the dependency files in the builder's file store

  /** The constructor: missing file types, checksums, contributors and projects
    * become empty lists, present ones are kept as given, and a new file never
    * has dependencies. */
  function NewFile(item: Item, fileTypes: Option<seq<FileType>>, checksums: Option<seq<Checksum>>,
                   fileContributors: Option<seq<string>>, noticeText: Option<string>,
                   artifactOf: Option<seq<DoapProject>>): (r: SpdxFile)
    ensures r.item == item && r.noticeText == noticeText
    ensures fileTypes.None? ==> r.fileTypes == []
    ensures fileTypes.Some? ==> r.fileTypes == fileTypes.value
    ensures checksums.None? ==> r.checksums == []
    ensures checksums.Some? ==> r.checksums == checksums.value
    ensures fileContributors.None? ==> r.fileContributors == []
    ensures fileContributors.Some? ==> r.fileContributors == fileContributors.value
    ensures artifactOf.None? ==> r.artifactOf == []
    ensures artifactOf.Some? ==> r.artifactOf == artifactOf.value
    ensures r.fileDependencies == []
  {
    SpdxFile(item, fileTypes.GetOr([]), checksums.GetOr([]), fileContributors.GetOr([]),
             noticeText, artifactOf.GetOr([]), [])
  }

  /** addFileType: nothing for a missing type, otherwise appended at the end. */
  function AddFileType(f: SpdxFile, t: Option<FileType>): (r: SpdxFile)
    ensures t.None? ==> r == f
    ensures t.Some? ==> r == f.(fileTypes := f.fileTypes + [t.value])
  {
    match t
    case None => f
    case Some(v) => f.(fileTypes := f.fileTypes + [v])
  }

  /** addChecksum: nothing for a missing checksum, otherwise appended at the end. */
  function AddChecksum(f: SpdxFile, c: Option<Checksum>): (r: SpdxFile)
    ensures c.None? ==> r == f
    ensures c.Some? ==> r == f.(checksums := f.checksums + [c.value])
  {
    match c
    case None => f
    case Some(v) => f.(checksums := f.checksums + [v])
  }

  /** setFileTypes, setFileContributors, setArtifactOf, setFileDependencies:
    * a missing list stands for the empty one. */
  function SetFileTypes(f: SpdxFile, ts: Option<seq<FileType>>): (r: SpdxFile)
    ensures r == f.(fileTypes := if ts.None? then [] else ts.value)
  {
    f.(fileTypes := ts.GetOr([]))
  }

  function SetFileContributors(f: SpdxFile, cs: Option<seq<string>>): (r: SpdxFile)
    ensures r == f.(fileContributors := if cs.None? then [] else cs.value)
  {
    f.(fileContributors := cs.GetOr([]))
  }

  function SetArtifactOf(f: SpdxFile, ps: Option<seq<DoapProject>>): (r: SpdxFile)
    ensures r == f.(artifactOf := if ps.None? then [] else ps.value)
  {
    f.(artifactOf := ps.GetOr([]))
  }

  function SetFileDependencies(f: SpdxFile, ds: Option<seq<nat>>): (r: SpdxFile)
    ensures r == f.(fileDependencies := if ds.None? then [] else ds.value)
  {
    f.(fileDependencies := ds.GetOr([]))
  }

  /** After adding a checksum, the file's SHA1 is the one it had, or the added
    * checksum's value when it had none and the added one is a SHA1. */
  lemma AddChecksumSha1(f: SpdxFile, c: Checksum)
    ensures GetSha1(AddChecksum(f, Some(c)).checksums) ==
      if FirstSha1Index(f.checksums).Some? then GetSha1(f.checksums)
      else if c.algorithm == SHA1 then c.value else Some("")
  {
    GetSha1Append(f.checksums, c);
  }

  // ---------------------------------------------------------------- verify

  predicate MissingSha1(f: SpdxFile)
  {
    var sha1 := GetSha1(f.checksums);
    sha1.None? || sha1.value == ""
  }

  /** The checksum and SHA1 part of verify: a missing checksum list is
    * reported once (with "UNKNOWN" for a missing name), otherwise each
    * checksum's own messages are passed on with the file's name added; a
    * missing or empty SHA1 value is then reported once (with "null" for a
    * missing name). */
  function ChecksumMessages(f: SpdxFile, cat: Catalog): (r: seq<string>)
    ensures f.checksums == [] ==>
      r == ["Missing required checksum for file " + f.item.name.GetOr("UNKNOWN"),
            "Missing required SHA1 hashcode value for " + NullToText(f.item.name)]
    ensures f.checksums != [] ==> EachNamed(f.checksums, cat.checksumErrors, f.item.name, cat) <= r
    ensures MissingSha1(f) <==>
      (&& |r| == (if f.checksums == [] then 1 else |EachNamed(f.checksums, cat.checksumErrors, f.item.name, cat)|) + 1
       && r[|r| - 1] == "Missing required SHA1 hashcode value for " + NullToText(f.item.name))
  {
    var fileName := f.item.name.GetOr("UNKNOWN");
    var checksumPart :=
      if f.checksums == [] then ["Missing required checksum for file " + fileName]
      else EachNamed(f.checksums, cat.checksumErrors, f.item.name, cat);
    checksumPart
      + (if MissingSha1(f) then ["Missing required SHA1 hashcode value for " + NullToText(f.item.name)] else [])
  }

  /** What verify takes from outside the file: the messages of the element
    * part it inherits, each project's own messages, and for each dependency
    * (a handle into the file store) that file's name and the messages of its
    * own verify. */
  datatype VerifyContext = VerifyContext(
    elementMessages: seq<string>,
    projectMessages: DoapProject -> seq<string>,
    dependencyName: nat -> Option<string>,
    dependencyMessages: nat -> seq<string>)

  /** The messages of the projects the file is an artifact of, in order. */
  function ProjectMessages(ps: seq<DoapProject>, ctx: VerifyContext): seq<string>
  {
    if ps == [] then [] else ctx.projectMessages(ps[0]) + ProjectMessages(ps[1..], ctx)
  }

  const DEPENDENCY_MESSAGE_PREFIX := "Invalid file dependency for file named "

  /** One dependency's messages, each prefixed with the dependency's name. */
  function DependencyLines(name: Option<string>, msgs: seq<string>): (r: seq<string>)
    ensures |r| == |msgs|
    ensures forall j :: 0 <= j < |r| ==> r[j] == DEPENDENCY_MESSAGE_PREFIX + NullToText(name) + ": " + msgs[j]
  {
    seq(|msgs|, j requires 0 <= j < |msgs| => DEPENDENCY_MESSAGE_PREFIX + NullToText(name) + ": " + msgs[j])
  }

  /** The messages of the file's dependencies, dependency by dependency. */
  function DependencyMessages(ds: seq<nat>, ctx: VerifyContext): seq<string>
  {
    if ds == [] then [] else
      DependencyLines(ctx.dependencyName(ds[0]), ctx.dependencyMessages(ds[0]))
        + DependencyMessages(ds[1..], ctx)
  }

  /** verify: the inherited element messages, the checksum and SHA1 part, the
    * projects' messages and the dependencies' messages, in that order. */
  function Verify(f: SpdxFile, cat: Catalog, ctx: VerifyContext): (r: seq<string>)
    ensures ctx.elementMessages + ChecksumMessages(f, cat) <= r
    ensures r[|ctx.elementMessages| + |ChecksumMessages(f, cat)|..]
      == ProjectMessages(f.artifactOf, ctx) + DependencyMessages(f.fileDependencies, ctx)
  {
    ctx.elementMessages + ChecksumMessages(f, cat)
      + ProjectMessages(f.artifactOf, ctx) + DependencyMessages(f.fileDependencies, ctx)
  }

  /** The projects report nothing exactly when each of them reports nothing. */
  lemma {:induction false} ProjectMessagesEmptyIff(ps: seq<DoapProject>, ctx: VerifyContext)
    ensures ProjectMessages(ps, ctx) == [] <==> forall k :: 0 <= k < |ps| ==> ctx.projectMessages(ps[k]) == []
  {
    if ps != [] {
      ProjectMessagesEmptyIff(ps[1..], ctx);
      assert forall k :: 1 <= k < |ps| ==> ps[k] == ps[1..][k - 1];
    }
  }

  /** The dependencies report nothing exactly when each dependency's own
    * verify reports nothing; otherwise there is one line per message. */
  lemma {:induction false} DependencyMessagesEmptyIff(ds: seq<nat>, ctx: VerifyContext)
    ensures DependencyMessages(ds, ctx) == [] <==> forall k :: 0 <= k < |ds| ==> ctx.dependencyMessages(ds[k]) == []
  {
    if ds != [] {
      DependencyMessagesEmptyIff(ds[1..], ctx);
      assert forall k :: 1 <= k < |ds| ==> ds[k] == ds[1..][k - 1];
    }
  }

  /** A file verifies clean exactly when the inherited part reports nothing,
    * it has checksums that report nothing and a non-empty SHA1, and every
    * project and every dependency reports nothing. */
  lemma VerifyClean(f: SpdxFile, cat: Catalog, ctx: VerifyContext)
    ensures Verify(f, cat, ctx) == [] <==>
      && ctx.elementMessages == []
      && f.checksums != [] && !MissingSha1(f)
      && (forall k :: 0 <= k < |f.checksums| ==> cat.checksumErrors(f.checksums[k]) == [])
      && (forall k :: 0 <= k < |f.artifactOf| ==> ctx.projectMessages(f.artifactOf[k]) == [])
      && (forall k :: 0 <= k < |f.fileDependencies| ==> ctx.dependencyMessages(f.fileDependencies[k]) == [])
  {
    EachNamedEmptyIff(f.checksums, cat.checksumErrors, f.item.name, cat);
    ProjectMessagesEmptyIff(f.artifactOf, ctx);
    DependencyMessagesEmptyIff(f.fileDependencies, ctx);
  }

  /** Each message a checksum reports about itself is part of verify, with
    * the file's name added. */
  lemma ChecksumMessageInVerify(f: SpdxFile, cat: Catalog, ctx: VerifyContext, k: nat, m: string)
    requires k < |f.checksums| && m in cat.checksumErrors(f.checksums[k])
    ensures cat.nameWarning(f.item.name, m) in Verify(f, cat, ctx)
  {
    EachNamedIncludes(f.checksums, cat.checksumErrors, f.item.name, cat, k, m);
    assert cat.nameWarning(f.item.name, m) in ChecksumMessages(f, cat);
  }

  // ---------------------------------------------------------------- ordering

  /** compareTo: by name; a missing name on either side is a NullPointerException. */
  function CompareTo(a: SpdxFile, b: SpdxFile): (r: Option<int>)
    ensures r.Some? <==> a.item.name.Some? && b.item.name.Some?
  {
    if a.item.name.None? || b.item.name.None? then None
    else Some(JavaStrings.CompareTo(a.item.name.value, b.item.name.value))
  }

  /** Files are ordered by name: antisymmetric, and equal exactly for equal names. */
  lemma CompareToByName(a: SpdxFile, b: SpdxFile)
    requires a.item.name.Some? && b.item.name.Some?
    ensures CompareTo(a, b).value == 0 <==> a.item.name == b.item.name
    ensures CompareTo(a, b).value > 0 <==> CompareTo(b, a).value < 0
  {
    CompareToZeroIffEqual(a.item.name.value, b.item.name.value);
    CompareToAntisymmetric(a.item.name.value, b.item.name.value);
  }
}
