// Value types shared by the SPDX entities, and the enumerations and lookups
// that live outside the modelled code, bundled as one parameter.

module SpdxTypes {
  import opened Wrappers

  /** The SPDX RDF namespace; file types and other enumerations are named in it. */
  const SPDX_NAMESPACE: string := "http://spdx.org/rdf/terms#"

  /** Checksum algorithms are identified by their tag/value tag; this is SHA1's. */
  const SHA1: string := "SHA1"

  /** A checksum: its algorithm's tag and its (possibly missing) value. */
  datatype Checksum = Checksum(algorithm: string, value: Option<string>)

  /** A position inside a file: a byte offset or a line number. */
  datatype Pointer = ByteOffset(offset: int) | LineChar(lineNumber: int)

  /** The two ends of a snippet range; either may be missing. */
  datatype StartEndPointer = StartEndPointer(start: Option<Pointer>, end: Option<Pointer>)

  /** An external reference of a package. The reference type is identified by its URI. */
  datatype ExternalRef = ExternalRef(
    category: Option<string>,
    referenceType: Option<string>,
    locator: Option<string>,
    comment: Option<string>)

  /** A DOAP project a file is an artifact of. */
  datatype DoapProject = DoapProject(name: Option<string>, homePage: Option<string>, projectUri: Option<string>)

  /** The package verification code: the code and the excluded file names. */
  datatype VerificationCode = VerificationCode(value: Option<string>, excludedFileNames: seq<string>)

  /** An element of the document under construction: the document itself, or a
    * file, package or snippet identified by its index in the builder's stores. */
  datatype ElementRef = DocumentElement | FileElement(file: nat) | PackageElement(pkg: nat) | SnippetElement(snippet: nat)

  /** A relationship held by its source element. Relationship types are
    * identified by their tags. */
  datatype Relationship = Relationship(related: Option<ElementRef>, relationshipType: string, comment: Option<string>)

  /** An annotation held by the element it is about. */
  datatype Annotation = Annotation(annotator: string, date: Option<string>, comment: Option<string>, annotationType: Option<string>)

  /** The fields every SPDX item (file, package, snippet) has. Licenses are
    * kept as the license expressions they were given as. */
  datatype Item = Item(
    name: Option<string>,
    id: Option<string>,
    comment: Option<string>,
    annotations: seq<Annotation>,
    relationships: seq<Relationship>,
    licenseConcluded: Option<string>,
    licenseInfoFromFiles: seq<string>,
    copyrightText: Option<string>,
    licenseComments: Option<string>)

  /** An item with only a name (or nothing at all) set. */
  function EmptyItem(name: Option<string>): (r: Item)
    ensures r.name == name && r.id.None?
    ensures r.annotations == [] && r.relationships == [] && r.licenseInfoFromFiles == []
  {
    Item(name, None, None, [], [], None, [], None, None)
  }

  /** The position of the first SHA1 checksum, if any. */
  function FirstSha1Index(checksums: seq<Checksum>): (r: Option<nat>)
    ensures r.None? <==> forall i :: 0 <= i < |checksums| ==> checksums[i].algorithm != SHA1
    ensures r.Some? ==> r.value < |checksums| && checksums[r.value].algorithm == SHA1
    ensures r.Some? ==> forall i :: 0 <= i < r.value ==> checksums[i].algorithm != SHA1
  {
    if |checksums| == 0 then None
    else if checksums[0].algorithm == SHA1 then Some(0)
    else match FirstSha1Index(checksums[1..])
      case None => None
      case Some(k) => Some(k + 1)
  }

  /** getSha1: the value of the first SHA1 checksum, or "" when there is none
    * (the value itself may be missing). */
  function GetSha1(checksums: seq<Checksum>): (r: Option<string>)
    ensures (forall i :: 0 <= i < |checksums| ==> checksums[i].algorithm != SHA1) ==> r == Some("")
    ensures forall i :: 0 <= i < |checksums| && checksums[i].algorithm == SHA1 ==>
      (forall j :: 0 <= j < i ==> checksums[j].algorithm != SHA1) ==> r == checksums[i].value
  {
    match FirstSha1Index(checksums)
    case None => Some("")
    case Some(k) => checksums[k].value
  }

  /** Appending a checksum never changes an existing SHA1 lookup; it only
    * supplies one when there was none. */
  lemma {:induction false} GetSha1Append(checksums: seq<Checksum>, c: Checksum)
    ensures GetSha1(checksums + [c]) ==
      if FirstSha1Index(checksums).Some? then GetSha1(checksums)
      else if c.algorithm == SHA1 then c.value
      else Some("")
  {
    var all := checksums + [c];
    match FirstSha1Index(checksums)
    case Some(k) =>
      assert all[k] == checksums[k];
    case None =>
      assert all[|checksums|] == c;
  }

  /** The lookups and enumerations the modelled code calls but does not define:
    * the tag maps of the checksum algorithms, relationship types, annotation types
    * and reference categories; the listed licenses, the license-expression
    * parser and the simple-license classification; the listed reference types
    * (name to URI); URI syntax and the external-document ID syntax; the
    * messages that checksums, licenses, verification codes and external
    * references report about themselves, and the supplier/originator checks;
    * the SHA-1 digest of a string; and what an element adds to one of the
    * messages it passes on, given the element's name. */
  datatype Catalog = Catalog(
    isChecksumAlgorithm: string -> bool,
    isRelationshipType: string -> bool,
    isAnnotationType: string -> bool,
    isReferenceCategory: string -> bool,
    isListedLicense: string -> bool,
    parsesAsLicense: string -> bool,
    isSimpleLicense: string -> bool,
    listedReferenceType: string -> Option<string>,
    isValidUri: string -> bool,
    isValidExternalDocRef: string -> bool,
    checksumErrors: Checksum -> seq<string>,
    licenseErrors: string -> seq<string>,
    verificationCodeErrors: VerificationCode -> seq<string>,
    externalRefErrors: ExternalRef -> seq<string>,
    supplierError: string -> Option<string>,
    originatorError: string -> Option<string>,
    sha1Digest: string -> seq<bv8>,
    nameWarning: (Option<string>, string) -> string)

  /** An element passing on the messages of one of its parts adds its own name
    * to them: each message is rewritten where it stands, none is added or
    * dropped. */
  function NamedMessages(cat: Catalog, name: Option<string>, msgs: seq<string>): (r: seq<string>)
    ensures |r| == |msgs|
    ensures forall j :: 0 <= j < |r| ==> r[j] == cat.nameWarning(name, msgs[j])
  {
    seq(|msgs|, j requires 0 <= j < |msgs| => cat.nameWarning(name, msgs[j]))
  }

  /** The messages of each part in turn, each part's messages named by the
    * element that holds the parts. */
  function EachNamed<T>(xs: seq<T>, msgs: T -> seq<string>, name: Option<string>, cat: Catalog): seq<string>
  {
    if xs == [] then [] else NamedMessages(cat, name, msgs(xs[0])) + EachNamed(xs[1..], msgs, name, cat)
  }

  /** The parts pass on nothing exactly when each of them reports nothing. */
  lemma {:induction false} EachNamedEmptyIff<T>(xs: seq<T>, msgs: T -> seq<string>, name: Option<string>, cat: Catalog)
    ensures EachNamed(xs, msgs, name, cat) == [] <==> forall k :: 0 <= k < |xs| ==> msgs(xs[k]) == []
  {
    if xs != [] {
      EachNamedEmptyIff(xs[1..], msgs, name, cat);
      assert forall k :: 1 <= k < |xs| ==> xs[k] == xs[1..][k - 1];
    }
  }

  /** Every message of every part is passed on, with the name added. */
  lemma {:induction false} EachNamedIncludes<T>(xs: seq<T>, msgs: T -> seq<string>, name: Option<string>, cat: Catalog,
                                                 k: nat, m: string)
    requires k < |xs| && m in msgs(xs[k])
    ensures cat.nameWarning(name, m) in EachNamed(xs, msgs, name, cat)
  {
    if k == 0 {
      var i :| 0 <= i < |msgs(xs[0])| && msgs(xs[0])[i] == m;
      assert NamedMessages(cat, name, msgs(xs[0]))[i] == cat.nameWarning(name, m);
    } else {
      EachNamedIncludes(xs[1..], msgs, name, cat, k - 1, m);
      assert xs[1..][k - 1] == xs[k];
    }
  }
}
