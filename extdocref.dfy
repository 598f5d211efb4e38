// A reference from one SPDX document to another: the other document's
// namespace, the SHA1 checksum of that document and a local ID for it.

module ExternalDocRefModel {
  import opened Wrappers
  import opened JavaStrings
  import opened SpdxTypes

  datatype ExternalDocumentRef = ExternalDocumentRef(
    namespace: Option<string>,
    checksum: Option<Checksum>,
    id: Option<string>)

  /** The URI of a referenced document, given its namespace (None for no
    * document): the namespace with one trailing '#' removed, if there is one. */
  function DocumentToDocumentUri(docNamespace: Option<string>): (r: Option<string>)
    ensures r.None? <==> docNamespace.None?
    ensures docNamespace.Some? ==>
      var ns := docNamespace.value;
      if |ns| > 0 && ns[|ns| - 1] == '#' then r.value + "#" == ns else r.value == ns
  {
    match docNamespace
    case None => None
    case Some(ns) =>
      if |ns| > 0 && ns[|ns| - 1] == '#' then Some(ns[..|ns| - 1]) else Some(ns)
  }

  const MISSING_URI := "Missing required external document URI"

  /** The URI used in messages: the namespace, or "UNKNOWN" when it is missing. */
  function MessageUri(ref: ExternalDocumentRef): string
  {
    ref.namespace.GetOr("UNKNOWN")
  }

  function NamespaceMessages(ref: ExternalDocumentRef, cat: Catalog): seq<string>
  {
    match ref.namespace
    case None => [MISSING_URI]
    case Some(ns) =>
      if cat.isValidUri(ns) then [] else ["Invalid URI for external Spdx Document URI: " + ns]
  }

  function ChecksumMessages(ref: ExternalDocumentRef, cat: Catalog): seq<string>
  {
    match ref.checksum
    case None => ["Missing checksum for external document " + MessageUri(ref)]
    case Some(c) =>
      cat.checksumErrors(c)
        + (if c.algorithm != SHA1 then ["Checksum algorithm is not SHA1 for external reference " + MessageUri(ref)] else [])
  }

  function IdMessages(ref: ExternalDocumentRef, cat: Catalog): seq<string>
  {
    match ref.id
    case None => ["Missing external document ID for document " + MessageUri(ref)]
    case Some(id) =>
      if cat.isValidExternalDocRef(id) then [] else ["Invalid external document ID: " + id]
  }

  /** verify: the namespace messages, then the checksum messages, then the ID
    * messages. Each missing part contributes exactly one message. */
  function Verify(ref: ExternalDocumentRef, cat: Catalog): (r: seq<string>)
    ensures ref.namespace.None? ==> |r| > 0 && r[0] == MISSING_URI
    ensures ref.checksum.None? ==>
      "Missing checksum for external document " + MessageUri(ref) in r
    ensures ref.checksum.Some? && ref.checksum.value.algorithm != SHA1 ==>
      "Checksum algorithm is not SHA1 for external reference " + MessageUri(ref) in r
    ensures ref.id.None? ==> |r| > 0 && r[|r| - 1] == "Missing external document ID for document " + MessageUri(ref)
    ensures |r| == |NamespaceMessages(ref, cat)| + |ChecksumMessages(ref, cat)| + |IdMessages(ref, cat)|
  {
    NamespaceMessages(ref, cat) + ChecksumMessages(ref, cat) + IdMessages(ref, cat)
  }

  /** A reference is well formed: a valid namespace URI, a SHA1 checksum with
    * nothing to report about it, and a valid ID. */
  predicate WellFormed(ref: ExternalDocumentRef, cat: Catalog)
  {
    && ref.namespace.Some? && cat.isValidUri(ref.namespace.value)
    && ref.checksum.Some? && ref.checksum.value.algorithm == SHA1 && cat.checksumErrors(ref.checksum.value) == []
    && ref.id.Some? && cat.isValidExternalDocRef(ref.id.value)
  }

  /** verify reports nothing exactly for the well-formed references. */
  lemma VerifyEmptyIff(ref: ExternalDocumentRef, cat: Catalog)
    ensures Verify(ref, cat) == [] <==> WellFormed(ref, cat)
  {
    if Verify(ref, cat) == [] {
      assert |NamespaceMessages(ref, cat)| == 0;
      assert |ChecksumMessages(ref, cat)| == 0;
      assert |IdMessages(ref, cat)| == 0;
    }
  }

  /** compareTo: by ID, then namespace, then checksum value; a missing part of
    * the receiver sorts first (even against a missing part of the argument),
    * a missing part of the argument after a present one. */
  function CompareTo(a: ExternalDocumentRef, b: ExternalDocumentRef): (r: int)
    ensures a.id.None? ==> r == -1
    ensures a.id.Some? && b.id.None? ==> r == 1
  {
    if b.id.None? && a.id.Some? then 1
    else if a.id.None? then -1
    else
      var byId := JavaStrings.CompareTo(a.id.value, b.id.value);
      if byId != 0 then byId
      else if b.namespace.None? && a.namespace.Some? then 1
      else if a.namespace.None? then -1
      else
        var byNamespace := JavaStrings.CompareTo(a.namespace.value, b.namespace.value);
        if byNamespace != 0 then byNamespace
        else if HasChecksumValue(a) && !HasChecksumValue(b) then 1
        else if !HasChecksumValue(a) then -1
        else JavaStrings.CompareTo(a.checksum.value.value.value, b.checksum.value.value.value)
  }

  predicate HasChecksumValue(ref: ExternalDocumentRef)
  {
    ref.checksum.Some? && ref.checksum.value.value.Some?
  }

  /** All three ordering components are present. */
  predicate Complete(ref: ExternalDocumentRef)
  {
    ref.id.Some? && ref.namespace.Some? && HasChecksumValue(ref)
  }

  /** On complete references the order is antisymmetric, and it is zero exactly
    * when ID, namespace and checksum value all agree. */
  lemma CompareToOfComplete(a: ExternalDocumentRef, b: ExternalDocumentRef)
    requires Complete(a) && Complete(b)
    ensures CompareTo(a, b) > 0 <==> CompareTo(b, a) < 0
    ensures CompareTo(a, b) == 0 <==>
      a.id == b.id && a.namespace == b.namespace && a.checksum.value.value == b.checksum.value.value
  {
    CompareToAntisymmetric(a.id.value, b.id.value);
    CompareToZeroIffEqual(a.id.value, b.id.value);
    CompareToAntisymmetric(a.namespace.value, b.namespace.value);
    CompareToZeroIffEqual(a.namespace.value, b.namespace.value);
    CompareToAntisymmetric(a.checksum.value.value.value, b.checksum.value.value.value);
    CompareToZeroIffEqual(a.checksum.value.value.value, b.checksum.value.value.value);
  }

  /** equivalent: equal namespaces, equivalent checksums (both missing, or equal)
    * and equal IDs. */
  function Equivalent(a: ExternalDocumentRef, b: ExternalDocumentRef): (r: bool)
    ensures r <==> a == b
  {
    a.namespace == b.namespace && a.checksum == b.checksum && a.id == b.id
  }

  /** clone: copies all three fields; it fails when there is no checksum to clone. */
  function Clone(ref: ExternalDocumentRef): (r: Result<ExternalDocumentRef>)
    ensures r.Ok? <==> ref.checksum.Some?
    ensures r.Ok? ==> r.value == ref && Equivalent(r.value, ref)
  {
    if ref.checksum.None? then Err("NullPointerException: no checksum to clone")
    else Ok(ExternalDocumentRef(ref.namespace, Some(ref.checksum.value), ref.id))
  }
}
