// The tag/value printer's line formats for checksums, relationships,
// external document references, snippet ranges, the package verification
// code, license cross references and file types, and how the reader's value
// parsers read each of them back. A printed line is its property and the
// text that follows the property's tag.

module TagPrinter {
  import opened Wrappers
  import opened JavaStrings
  import opened SpdxTypes
  import opened ExternalDocRefModel
  import opened TagParsers
  import opened SpdxFileModel
  import opened Tags

  datatype TagLine = TagLine(tag: Tag, value: string)

  // ---------------------------------------------------------------- checksums

  /** The value of a checksum line: the algorithm's tag, a space and the value
    * (Java prints a missing value as "null"). */
  function ChecksumValue(c: Checksum): (r: string)
    ensures |r| == |c.algorithm| + 1 + |NullToText(c.value)|
    ensures r[..|c.algorithm|] == c.algorithm && r[|c.algorithm|] == ' '
    ensures r[|c.algorithm| + 1..] == NullToText(c.value)
  {
    c.algorithm + " " + NullToText(c.value)
  }

  /** A checksum whose algorithm tag is known and whose parts are single tokens
    * is read back as itself. */
  lemma ChecksumLineRoundTrip(c: Checksum, cat: Catalog)
    requires IsToken(c.algorithm) && cat.isChecksumAlgorithm(c.algorithm)
    requires c.value.Some? && IsToken(c.value.value)
    ensures ParseChecksum(ChecksumValue(c), cat) == Ok(c)
  {
    ChecksumRoundTrip(c.algorithm, c.value.value, cat);
  }

  /** A checksum without a value is printed with the text "null", which reads
    * back as a checksum whose value is that text. */
  lemma ChecksumLineOfMissingValue(alg: string, cat: Catalog)
    requires IsToken(alg) && cat.isChecksumAlgorithm(alg)
    ensures ParseChecksum(ChecksumValue(Checksum(alg, None)), cat) == Ok(Checksum(alg, Some("null")))
  {
    ChecksumRoundTrip(alg, "null", cat);
  }

  /** printChecksum for each checksum in turn, under one checksum property;
    * by ChecksumLineRoundTrip each such line reads back as its checksum. */
  method PrintChecksums(prop: Tag, checksums: seq<Checksum>) returns (lines: seq<TagLine>)
    ensures |lines| == |checksums|
    ensures forall i :: 0 <= i < |lines| ==> lines[i] == TagLine(prop, ChecksumValue(checksums[i]))
  {
    lines := [];
    var i := 0;
    while i < |checksums|
      invariant 0 <= i <= |checksums| && |lines| == i
      invariant forall k :: 0 <= k < i ==> lines[k] == TagLine(prop, ChecksumValue(checksums[k]))
    {
      lines := lines + [TagLine(prop, ChecksumValue(checksums[i]))];
      i := i + 1;
    }
  }

  // ---------------------------------------------------------------- relationships

  /** The value of a relationship line: the element's ID, the relationship
    * type's tag and the related element's ID, separated by single spaces. */
  function RelationshipValue(elementId: string, relationshipType: string, relatedId: string): (r: string)
    ensures |r| == |elementId| + |relationshipType| + |relatedId| + 2
    ensures r[..|elementId|] == elementId && r[|elementId|] == ' '
    ensures r[|elementId| + 1..|elementId| + 1 + |relationshipType|] == relationshipType
    ensures r[|elementId| + 1 + |relationshipType|] == ' '
    ensures r[|elementId| + |relationshipType| + 2..] == relatedId
  {
    elementId + " " + relationshipType + " " + relatedId
  }

  /** With whitespace-free IDs and a known type, the reader recovers the
    * element, the type and the related element. */
  lemma RelationshipLineRoundTrip(elementId: string, relationshipType: string, relatedId: string, cat: Catalog)
    requires IsToken(elementId) && IsToken(relationshipType) && IsToken(relatedId)
    requires cat.isRelationshipType(relationshipType)
    ensures ParseRelationship(RelationshipValue(elementId, relationshipType, relatedId), cat)
      == Ok(PendingRelationship(elementId, relatedId, relationshipType, None))
  {
    RelationshipRoundTrip(elementId, relationshipType, relatedId, cat);
  }

  // ---------------------------------------------------------------- external document references

  const UNSPECIFIED := "[UNSPECIFIED]"

  /** A part of an external document reference as printed: the text, or
    * "[UNSPECIFIED]" when it is missing or empty. */
  function Shown(part: Option<string>): (r: string)
    ensures part.None? || part.value == "" ==> r == UNSPECIFIED
    ensures part.Some? && part.value != "" ==> r == part.value
  {
    if part.None? || part.value == "" then UNSPECIFIED else part.value
  }

  /** The checksum value of a reference, when it has one. */
  function ChecksumText(ref: ExternalDocumentRef): Option<string>
  {
    if ref.checksum.Some? then ref.checksum.value.value else None
  }

  /** The value of an external document reference line: `id uri SHA1: sha1`,
    * whatever the checksum's algorithm. */
  function ExternalDocRefValue(ref: ExternalDocumentRef): (r: string)
    ensures Shown(ref.id) + " " + Shown(ref.namespace) <= r
    ensures r[|Shown(ref.id)| + 1 + |Shown(ref.namespace)|..] == " SHA1: " + Shown(ChecksumText(ref))
  {
    Shown(ref.id) + " " + Shown(ref.namespace) + " SHA1: " + Shown(ChecksumText(ref))
  }

  /** A part prints as one token: it is missing, empty or whitespace free. */
  predicate PrintsAsToken(part: Option<string>)
  {
    part.None? || part.value == "" || IsToken(part.value)
  }

  /** Every printed reference whose present parts are whitespace free is read
    * back, with "[UNSPECIFIED]" for what was missing and SHA1 as the
    * checksum algorithm. */
  lemma ExternalDocRefLineRoundTrip(ref: ExternalDocumentRef)
    requires PrintsAsToken(ref.id) && PrintsAsToken(ref.namespace) && PrintsAsToken(ChecksumText(ref))
    ensures ParseExternalDocumentRef(ExternalDocRefValue(ref)) ==
      Ok(ExternalDocumentRef(Some(Shown(ref.namespace)), Some(Checksum(SHA1, Some(Shown(ChecksumText(ref))))), Some(Shown(ref.id))))
  {
    assert IsToken(UNSPECIFIED);
    ExternalDocRefRoundTrip(Shown(ref.id), Shown(ref.namespace), Shown(ChecksumText(ref)));
  }

  /** A complete reference with a SHA1 checksum reads back exactly. */
  lemma CompleteExternalDocRefRoundTrip(ref: ExternalDocumentRef)
    requires Complete(ref) && ref.checksum.value.algorithm == SHA1
    requires IsToken(ref.id.value) && IsToken(ref.namespace.value) && IsToken(ref.checksum.value.value.value)
    ensures ParseExternalDocumentRef(ExternalDocRefValue(ref)) == Ok(ref)
  {
    ExternalDocRefLineRoundTrip(ref);
  }

  // ---------------------------------------------------------------- snippet ranges

  const MISSING := "[MISSING]"

  /** One end of a range: its offset or line number, or "[MISSING]". */
  function PointerText(p: Option<Pointer>): string
  {
    match p
    case None => MISSING
    case Some(ByteOffset(o)) => IntToString(o)
    case Some(LineChar(n)) => IntToString(n)
  }

  /** formatPointerRange as written: the end is printed as a line number only
    * when the START pointer is a line pointer. */
  function FormatPointerRangeAsWritten(ptr: StartEndPointer): (r: string)
    ensures PointerText(ptr.start) + ":" <= r
    ensures r[|PointerText(ptr.start)| + 1..] ==
      if ptr.end.Some? && ptr.end.value.LineChar? && !(ptr.start.Some? && ptr.start.value.LineChar?)
      then MISSING else PointerText(ptr.end)
  {
    var end :=
      match ptr.end
      case None => MISSING
      case Some(ByteOffset(o)) => IntToString(o)
      case Some(LineChar(n)) => if ptr.start.Some? && ptr.start.value.LineChar? then IntToString(n) else MISSING;
    PointerText(ptr.start) + ":" + end
  }

  /** formatPointerRange as intended: both ends printed by their own kind. */
  function FormatPointerRange(ptr: StartEndPointer): (r: string)
    ensures PointerText(ptr.start) + ":" <= r
    ensures r[|PointerText(ptr.start)| + 1..] == PointerText(ptr.end)
  {
    PointerText(ptr.start) + ":" + PointerText(ptr.end)
  }

  /** The two agree on every range whose end is not a line pointer, or whose
    * ends are both line pointers: all ranges the reader itself builds. */
  lemma FormatPointerRangeAgrees(ptr: StartEndPointer)
    requires ptr.end.None? || ptr.end.value.ByteOffset? || (ptr.start.Some? && ptr.start.value.LineChar?)
    ensures FormatPointerRangeAsWritten(ptr) == FormatPointerRange(ptr)
  {
  }

  /** A range from a byte offset to a line number loses its end as written. */
  lemma FormatPointerRangeDropsLineEnd()
    ensures FormatPointerRangeAsWritten(StartEndPointer(Some(ByteOffset(1)), Some(LineChar(2)))) == "1:[MISSING]"
    ensures FormatPointerRange(StartEndPointer(Some(ByteOffset(1)), Some(LineChar(2)))) == "1:2"
  {
    assert NatToString(1) == "1";
    assert NatToString(2) == "2";
  }

  /** Byte ranges with non-negative 32-bit ends are read back by the byte range
    * parser. */
  lemma ByteRangeRoundTrip(a: int, b: int)
    requires 0 <= a <= INT_MAX && 0 <= b <= INT_MAX
    ensures ParseByteRange(FormatPointerRange(StartEndPointer(Some(ByteOffset(a)), Some(ByteOffset(b)))))
      == Ok(StartEndPointer(Some(ByteOffset(a)), Some(ByteOffset(b))))
  {
    RangeRoundTrip(a, b, "byte");
  }

  /** Line ranges with non-negative 32-bit ends are read back by the line range
    * parser. */
  lemma LineRangeRoundTrip(a: int, b: int)
    requires 0 <= a <= INT_MAX && 0 <= b <= INT_MAX
    ensures ParseLineRange(FormatPointerRange(StartEndPointer(Some(LineChar(a)), Some(LineChar(b)))))
      == Ok(StartEndPointer(Some(LineChar(a)), Some(LineChar(b))))
  {
    RangeRoundTrip(a, b, "line");
  }

  // ---------------------------------------------------------------- verification code

  /** Each name preceded by ", ". */
  function Prefixed(names: seq<string>): string
  {
    if names == [] then "" else ", " + names[0] + Prefixed(names[1..])
  }

  lemma PrefixedSnoc(names: seq<string>, x: string)
    ensures Prefixed(names + [x]) == Prefixed(names) + ", " + x
  {
    if names != [] {
      assert (names + [x])[1..] == names[1..] + [x];
    }
  }

  /** The excluded-files suffix as written: the builder starts as "(", so the
    * length test before each separator always succeeds and every name,
    * the first included, is preceded by ", ". */
  method ExcludedFilesSuffixAsWritten(excluded: seq<string>) returns (r: string)
    ensures r == "(" + Prefixed(excluded) + ")"
  {
    var sb := "(";
    var i := 0;
    while i < |excluded|
      invariant 0 <= i <= |excluded|
      invariant sb == "(" + Prefixed(excluded[..i])
    {
      if |sb| > 0 {
        sb := sb + ", ";
      }
      sb := sb + excluded[i];
      PrefixedSnoc(excluded[..i], excluded[i]);
      assert excluded[..i + 1] == excluded[..i] + [excluded[i]];
      i := i + 1;
    }
    assert excluded[..i] == excluded;
    sb := sb + ")";
    r := sb;
  }

  /** The excluded-files suffix as intended: the names joined with ", ". */
  method ExcludedFilesSuffix(excluded: seq<string>) returns (r: string)
    ensures r == "(" + JoinWith(excluded, ", ") + ")"
  {
    var sb := "";
    var i := 0;
    while i < |excluded|
      invariant 0 <= i <= |excluded|
      invariant sb == JoinWith(excluded[..i], ", ")
    {
      if |sb| > 0 || i > 0 {
        sb := sb + ", ";
      }
      JoinWithSnoc(excluded[..i], excluded[i], ", ");
      assert excluded[..i + 1] == excluded[..i] + [excluded[i]];
      sb := sb + excluded[i];
      i := i + 1;
    }
    assert excluded[..i] == excluded;
    r := "(" + sb + ")";
  }

  /** The verification-code line as written: printed only for a non-empty
    * code, with the as-written suffix when there are excluded files. */
  function VerificationCodeLinesAsWritten(vc: Option<VerificationCode>): (r: seq<TagLine>)
    ensures |r| <= 1
    ensures |r| == 1 <==> vc.Some? && vc.value.value.Some? && vc.value.value.value != ""
    ensures |r| == 1 ==> r[0].tag == PackageVerificationCode
  {
    if vc.None? || vc.value.value.None? || vc.value.value.value == "" then []
    else
      var excluded := vc.value.excludedFileNames;
      [TagLine(PackageVerificationCode, vc.value.value.value + (if excluded == [] then "" else "(" + Prefixed(excluded) + ")"))]
  }

  /** The verification-code line as intended. */
  function VerificationCodeLines(vc: Option<VerificationCode>): (r: seq<TagLine>)
    ensures |r| <= 1
    ensures |r| == 1 <==> vc.Some? && vc.value.value.Some? && vc.value.value.value != ""
    ensures |r| == 1 ==> r[0].tag == PackageVerificationCode
  {
    if vc.None? || vc.value.value.None? || vc.value.value.value == "" then []
    else
      var excluded := vc.value.excludedFileNames;
      [TagLine(PackageVerificationCode, vc.value.value.value + (if excluded == [] then "" else "(" + JoinWith(excluded, ", ") + ")"))]
  }

  /** A name the verification-code line can carry unchanged. */
  predicate PlainName(s: string)
  {
    IsTrimmed(s) && '(' !in s && ')' !in s && ',' !in s
  }

  /** A code the verification-code line can carry unchanged. */
  predicate PlainCode(vc: VerificationCode)
  {
    && vc.value.Some? && vc.value.value != "" && PlainName(vc.value.value)
    && forall i :: 0 <= i < |vc.excludedFileNames| ==> PlainName(vc.excludedFileNames[i])
  }

  /** The intended line reads back as the code it was printed from. */
  lemma VerificationCodeRoundTrip(vc: VerificationCode)
    requires PlainCode(vc)
    ensures ParseVerificationCode(VerificationCodeLines(Some(vc))[0].value) == Ok(vc)
  {
    var v := vc.value.value;
    var ex := vc.excludedFileNames;
    var line := VerificationCodeLines(Some(vc))[0].value;
    if ex == [] {
      assert line == v;
    } else {
      var body := JoinWith(ex, ", ");
      var parts := [ex[0]] + Spaced(ex[1..]);
      assert line == v + "(" + body + ")";
      JoinSpacedPieces(ex);
      assert body == JoinWith(parts, ",");
      SpacedPartsPlain(ex);
      assert |parts| == 1 || parts[|parts| - 1] == " " + ex[|ex| - 1];
      ParseSuffixed(v, body, parts);
      TrimAllSpaced(ex);
    }
  }

  /** The spaced parts of plain names carry no ',', '(' or ')', and the last is
    * not empty unless it is the only, empty, name. */
  lemma SpacedPartsPlain(names: seq<string>)
    requires |names| >= 1 && forall i :: 0 <= i < |names| ==> PlainName(names[i])
    ensures var parts := [names[0]] + Spaced(names[1..]);
      forall i :: 0 <= i < |parts| ==> ',' !in parts[i] && '(' !in parts[i] && ')' !in parts[i]
  {
  }

  /** As written, every non-empty excluded list reads back with an extra empty
    * name in front. */
  lemma VerificationCodeAsWrittenAddsEmptyName(vc: VerificationCode)
    requires PlainCode(vc) && vc.excludedFileNames != []
    ensures ParseVerificationCode(VerificationCodeLinesAsWritten(Some(vc))[0].value)
      == Ok(VerificationCode(vc.value, [""] + vc.excludedFileNames))
  {
    var v := vc.value.value;
    var ex := vc.excludedFileNames;
    var line := VerificationCodeLinesAsWritten(Some(vc))[0].value;
    var body := Prefixed(ex);
    var all := [""] + ex;
    var parts := [all[0]] + Spaced(all[1..]);
    assert all[1..] == ex;
    assert line == v + "(" + body + ")";
    PrefixedPieces(ex);
    assert body == JoinWith(parts, ",");
    assert parts[|parts| - 1] == " " + ex[|ex| - 1];
    SpacedPartsPlain(all);
    ParseSuffixed(v, body, parts);
    TrimAllSpaced(all);
  }

  /** Each name preceded by a space. */
  function Spaced(names: seq<string>): (r: seq<string>)
    ensures |r| == |names|
    ensures forall i :: 0 <= i < |r| ==> r[i] == " " + names[i]
  {
    if names == [] then [] else [" " + names[0]] + Spaced(names[1..])
  }

  /** Joining with ", " is joining the space-prefixed names with ",". */
  lemma {:induction false} JoinSpacedPieces(names: seq<string>)
    requires |names| >= 1
    ensures JoinWith(names, ", ") == JoinWith([names[0]] + Spaced(names[1..]), ",")
    decreases |names|
  {
    if |names| > 1 {
      var tail := names[1..];
      JoinSpacedPieces(tail);
      var sp := [tail[0]] + Spaced(tail[1..]);
      assert JoinWith(tail, ", ") == JoinWith(sp, ",");
      var all := [names[0]] + Spaced(tail);
      assert Spaced(tail) == [" " + tail[0]] + Spaced(tail[1..]);
      assert all[1..] == Spaced(tail);
      JoinSpacedTail(tail);
    }
  }

  /** ", " followed by the join of a list is the join of its spaced form, led by ",". */
  lemma {:induction false} JoinSpacedTail(tail: seq<string>)
    requires |tail| >= 1
    ensures ", " + JoinWith(tail, ", ") == "," + JoinWith(Spaced(tail), ",")
    decreases |tail|
  {
    var sp := Spaced(tail);
    JoinWithFirst(tail, ", ");
    JoinWithFirst(sp, ",");
    if |tail| > 1 {
      JoinSpacedTail(tail[1..]);
      assert sp[1..] == Spaced(tail[1..]);
      assert JoinWith(sp, ",") == " " + tail[0] + ("," + JoinWith(Spaced(tail[1..]), ","));
      assert JoinWith(tail, ", ") == tail[0] + (", " + JoinWith(tail[1..], ", "));
    }
  }

  /** The as-written names are the space-prefixed names after an empty one,
    * joined with ",". */
  lemma {:induction false} PrefixedPieces(names: seq<string>)
    ensures Prefixed(names) == if names == [] then "" else JoinWith([""] + Spaced(names), ",")
    decreases |names|
  {
    if names != [] {
      PrefixedSpacedTail(names);
      var all := [""] + Spaced(names);
      assert all[1..] == Spaced(names);
      JoinWithFirst(all, ",");
    }
  }

  lemma {:induction false} PrefixedSpacedTail(names: seq<string>)
    requires names != []
    ensures Prefixed(names) == "," + JoinWith(Spaced(names), ",")
    decreases |names|
  {
    var sp := Spaced(names);
    JoinWithFirst(sp, ",");
    if |names| > 1 {
      PrefixedSpacedTail(names[1..]);
      assert sp[1..] == Spaced(names[1..]);
    }
  }

  /** "v(" + body + ")" with body the join of ','-separated parts reads back as
    * v with the parts trimmed. */
  lemma ParseSuffixed(v: string, body: string, parts: seq<string>)
    requires IsTrimmed(v) && v != "" && '(' !in v && ')' !in v
    requires |parts| >= 1 && body == JoinWith(parts, ",")
    requires forall i :: 0 <= i < |parts| ==> ',' !in parts[i] && '(' !in parts[i] && ')' !in parts[i]
    requires |parts| == 1 || parts[|parts| - 1] != ""
    ensures ParseVerificationCode(v + "(" + body + ")") ==
      Ok(VerificationCode(Some(v), TrimAll(parts)))
  {
    var s := v + "(" + body + ")";
    var rest := body + ")";
    assert s == v + "(" + rest;
    NoCharInJoin(parts, ',', '(');
    NoCharInJoin(parts, ',', ')');
    assert '(' !in rest;
    SplitAtOpen(v, rest);
    var pieces := Split(s, '(');
    assert pieces == [v, rest];
    TrimIdempotent(v);
    CloserRemoved(body);
    assert ReplaceAll(pieces[1], ")", "") == body;
    SplitJoin(parts);
    assert Split(ReplaceAll(pieces[1], ")", ""), ',') == parts;
  }

  /** Cutting at the only '(' gives the two sides. */
  lemma SplitAtOpen(v: string, rest: string)
    requires '(' !in v && '(' !in rest && rest != ""
    ensures '(' in v + "(" + rest
    ensures Split(v + "(" + rest, '(') == [v, rest]
  {
    var s := v + "(" + rest;
    assert s[|v|] == '(';
    assert s == JoinWith([v, rest], "(");
    PiecesOfJoin([v, rest], '(');
  }

  /** Splitting a ','-join of comma-free parts, the last non-empty, gives the parts. */
  lemma SplitJoin(parts: seq<string>)
    requires |parts| >= 1 && (|parts| == 1 || parts[|parts| - 1] != "")
    requires forall i :: 0 <= i < |parts| ==> ',' !in parts[i]
    ensures Split(JoinWith(parts, ","), ',') == parts
  {
    if |parts| == 1 {
      assert JoinWith(parts, ",") == parts[0];
    } else {
      CommaInJoin(parts);
      PiecesOfJoin(parts, ',');
    }
  }

  lemma CommaInJoin(parts: seq<string>)
    requires |parts| >= 2
    ensures ',' in JoinWith(parts, ",")
  {
    assert JoinWith(parts, ",")[|parts[0]|] == ',';
  }

  /** A join of parts without d (d not the separator) has no d. */
  lemma NoCharInJoin(parts: seq<string>, c: char, d: char)
    requires c != d
    requires forall i :: 0 <= i < |parts| ==> d !in parts[i]
    ensures d !in JoinWith(parts, [c])
    decreases |parts|
  {
    if |parts| > 1 {
      NoCharInJoin(parts[1..], c, d);
    }
  }

  /** Removing the ')' characters from a text with none but a final one. */
  lemma {:induction false} CloserRemoved(body: string)
    requires ')' !in body
    ensures ReplaceAll(body + ")", ")", "") == body
    decreases |body|
  {
    if body == [] {
      assert ")" <= ")";
      assert ")"[1..] == "";
    } else {
      assert (body + ")")[0] == body[0] && body[0] != ')';
      assert !(")" <= body + ")");
      assert (body + ")")[1..] == body[1..] + ")";
      CloserRemoved(body[1..]);
      assert [body[0]] + body[1..] == body;
    }
  }

  /** Trimming the spaced names gives the names back. */
  lemma {:induction false} TrimAllSpaced(names: seq<string>)
    requires |names| >= 1
    requires forall i :: 0 <= i < |names| ==> IsTrimmed(names[i])
    ensures TrimAll([names[0]] + Spaced(names[1..])) == names
  {
    var parts := [names[0]] + Spaced(names[1..]);
    TrimIdempotent(names[0]);
    forall i | 1 <= i < |names| ensures Trim(parts[i]) == names[i] {
      assert parts[i] == " " + names[i];
      TrimLeadingSpace(names[i]);
    }
  }

  // ---------------------------------------------------------------- license cross references

  /** The seeAlso line: printed only for a non-empty list, whose URLs are joined
    * with ", " by a builder loop. */
  method PrintSeeAlso(urls: seq<string>) returns (lines: seq<TagLine>)
    ensures urls == [] ==> lines == []
    ensures urls != [] ==> lines == [TagLine(SourceUrls, JoinWith(urls, ", "))]
    ensures urls != [] && (forall i :: 0 <= i < |urls| ==> IsTrimmed(urls[i]) && ',' !in urls[i]) ==>
      ParseSourceUrls(lines[0].value) == urls
  {
    if urls == [] {
      return [];
    }
    var sb := urls[0];
    var i := 1;
    while i < |urls|
      invariant 1 <= i <= |urls|
      invariant sb == JoinWith(urls[..i], ", ")
    {
      JoinWithSnoc(urls[..i], urls[i], ", ");
      assert urls[..i + 1] == urls[..i] + [urls[i]];
      sb := sb + ", " + urls[i];
      i := i + 1;
    }
    assert urls[..i] == urls;
    if forall k :: 0 <= k < |urls| ==> IsTrimmed(urls[k]) && ',' !in urls[k] {
      SeeAlsoRoundTrip(urls);
    }
    lines := [TagLine(SourceUrls, sb)];
  }

  /** URLs without commas or outer whitespace survive joining with ", " and
    * reading back by splitting at ',' and trimming. */
  lemma SeeAlsoRoundTrip(urls: seq<string>)
    requires urls != []
    requires forall i :: 0 <= i < |urls| ==> IsTrimmed(urls[i]) && ',' !in urls[i]
    ensures ParseSourceUrls(JoinWith(urls, ", ")) == urls
  {
    var parts := [urls[0]] + Spaced(urls[1..]);
    var x := JoinWith(urls, ", ");
    JoinSpacedPieces(urls);
    SpacedCommaFree(urls);
    SpacedLastNonEmpty(urls);
    SplitJoin(parts);
    TrimAllSpaced(urls);
    assert TrimAll(Split(x, ',')) == urls;
  }

  lemma SpacedLastNonEmpty(names: seq<string>)
    requires |names| >= 1
    ensures var parts := [names[0]] + Spaced(names[1..]);
      |parts| == 1 || parts[|parts| - 1] != ""
  {
    var parts := [names[0]] + Spaced(names[1..]);
    if |parts| > 1 {
      assert parts[|parts| - 1] == " " + names[|names| - 1];
    }
  }

  lemma SpacedCommaFree(names: seq<string>)
    requires |names| >= 1 && forall i :: 0 <= i < |names| ==> ',' !in names[i]
    ensures var parts := [names[0]] + Spaced(names[1..]);
      forall i :: 0 <= i < |parts| ==> ',' !in parts[i]
  {
  }

  // ---------------------------------------------------------------- file types

  /** One FileType line per file type, in order; by FileTypeLineReadsBack
    * each is read back by fromTag. */
  method PrintFileTypes(types: seq<FileType>) returns (lines: seq<TagLine>)
    ensures |lines| == |types|
    ensures forall i :: 0 <= i < |lines| ==> lines[i] == TagLine(FileTypeTag, GetTag(types[i]))
  {
    lines := [];
    var i := 0;
    while i < |types|
      invariant 0 <= i <= |types| && |lines| == i
      invariant forall k :: 0 <= k < i ==> lines[k] == TagLine(FileTypeTag, GetTag(types[k]))
    {
      lines := lines + [TagLine(FileTypeTag, GetTag(types[i]))];
      i := i + 1;
    }
  }

  /** The reader trims a FileType value and looks it up with fromTag: the
    * printed tag gives the file type back. */
  lemma FileTypeLineReadsBack(t: FileType)
    ensures FromTag(Trim(GetTag(t))) == Some(t)
  {
    FileTypeTagTrimmed(t);
    TagBijection(t, GetTag(t));
  }

  lemma FileTypeTagTrimmed(t: FileType)
    ensures Trim(GetTag(t)) == GetTag(t)
  {
    var s := GetTag(t);
    assert s[0] > ' ' && s[|s| - 1] > ' ';
    TrimIdempotent(s);
  }
}
