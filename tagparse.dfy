// The small parsers the tag/value reader applies to values: tag and value
// normalisation, and the regular-expression based parsers for checksums,
// relationships, ranges, external document references, external references,
// verification codes and license cross-reference lists.
//
// A regular expression `find` is modelled as the leftmost position where the
// pattern matches; at each position the match is computed by maximal runs of a
// character class, which for these patterns is exactly what backtracking finds
// (each group is followed by a character outside its class, or by the end).

module TagParsers {
  import opened Wrappers
  import opened JavaStrings
  import opened SpdxTypes
  import opened ExternalDocRefModel

  // ---------------------------------------------------------------- normalisation

  const NBSP: char := '\U{00A0}'

  /** The tag as looked up: trimmed, with exactly one space appended. */
  function NormaliseTag(raw: string): (r: string)
    ensures |r| > 0 && r[|r| - 1] == ' '
    ensures r[..|r| - 1] == Trim(raw)
  {
    Trim(raw) + " "
  }

  /** Normalising a normalised tag changes nothing. */
  lemma NormaliseTagIdempotent(raw: string)
    ensures NormaliseTag(NormaliseTag(raw)) == NormaliseTag(raw)
  {
    var t := Trim(raw);
    TrimEndPadding(t, " ");
    if t == [] {
      assert TrimStart(" ") == [];
    } else {
      assert (t + " ")[0] == t[0];
      TrimStartOfUntrimmable(t + " ");
      TrimEndOfUntrimmable(t);
    }
  }

  /** The value as handed to the builders: trimmed (by the caller), no-break
    * spaces turned into spaces, trimmed again, and the <text> and </text>
    * markers removed. */
  function CleanValue(raw: string): (r: string)
    ensures NBSP !in r
    ensures |r| <= |raw|
  {
    var a := ReplaceAll(Trim(raw), [NBSP], " ");
    ReplaceCharRemoves(Trim(raw), NBSP, ' ');
    var b := Trim(a);
    var c := ReplaceAll(b, "<text>", "");
    var d := ReplaceAll(c, "</text>", "");
    ReplaceAllShrinks(b, "<text>");
    ReplaceAllShrinks(c, "</text>");
    d
  }

  /** A value that is already trimmed and holds no no-break space and no text
    * marker reaches the builders unchanged. */
  lemma CleanValueOfPlain(raw: string)
    requires IsTrimmed(raw) && NBSP !in raw
    requires forall k: nat :: !OccursAt(raw, "<text>", k) && !OccursAt(raw, "</text>", k)
    ensures CleanValue(raw) == raw
  {
    TrimIdempotent(raw);
    forall k: nat ensures !OccursAt(raw, [NBSP], k) {
      if k < |raw| {
        assert raw[k..k + 1] == [raw[k]];
      }
    }
    ReplaceAbsent(raw, [NBSP], " ");
    TrimIdempotent(raw);
    ReplaceAbsent(raw, "<text>", "");
    ReplaceAbsent(raw, "</text>", "");
  }

  // ---------------------------------------------------------------- character classes

  /** \s in a Java regular expression: space, tab, newline, vertical tab, form feed, return. */
  predicate IsSpace(c: char)
  {
    c == ' ' || c == '\t' || c == '\n' || c == '\r' || c == '\U{000B}' || c == '\U{000C}'
  }

  predicate IsNonSpace(c: char) { !IsSpace(c) }

  /** [^ ] : anything but the space character. */
  predicate IsNotBlank(c: char) { c != ' ' }

  /** . : anything but a line terminator. */
  predicate IsNotLineTerminator(c: char)
  {
    c != '\n' && c != '\r' && c != '\U{0085}' && c != '\U{2028}' && c != '\U{2029}'
  }

  /** A printable token: non-empty, every character above U+0020 (so neither
    * whitespace nor trimmed away). */
  predicate IsToken(t: string)
  {
    |t| > 0 && forall k :: 0 <= k < |t| ==> t[k] > ' '
  }

  /** A group of a class: non-empty, every character in the class. */
  predicate AllIn(t: string, cls: char -> bool)
  {
    |t| > 0 && forall k :: 0 <= k < |t| ==> cls(t[k])
  }

  /** The end of the longest run of characters of class cls starting at p. */
  function RunEnd(s: string, p: nat, cls: char -> bool): (r: nat)
    requires p <= |s|
    ensures p <= r <= |s|
    ensures forall k :: p <= k < r ==> cls(s[k])
    ensures r == |s| || !cls(s[r])
    decreases |s| - p
  {
    if p < |s| && cls(s[p]) then RunEnd(s, p + 1, cls) else p
  }

  /** The run of class cls from p ends at q when every character in between
    * is in the class and the one at q is not. */
  lemma {:induction false} RunEndIs(s: string, p: nat, q: nat, cls: char -> bool)
    requires p <= q <= |s|
    requires forall k :: p <= k < q ==> cls(s[k])
    requires q == |s| || !cls(s[q])
    ensures RunEnd(s, p, cls) == q
    decreases q - p
  {
    if p < q {
      RunEndIs(s, p + 1, q, cls);
    }
  }

  // ---------------------------------------------------------------- find

  /** The leftmost position at or after p where the matcher succeeds, with its groups. */
  function FindFrom<G>(s: string, p: nat, m: (string, nat) -> Option<G>): (r: Option<(nat, G)>)
    requires p <= |s|
    ensures r.Some? ==> p <= r.value.0 <= |s| && m(s, r.value.0) == Some(r.value.1)
    ensures r.Some? ==> forall q :: p <= q < r.value.0 ==> m(s, q).None?
    ensures r.None? ==> forall q :: p <= q <= |s| ==> m(s, q).None?
    decreases |s| - p
  {
    match m(s, p)
    case Some(g) => Some((p, g))
    case None => if p == |s| then None else FindFrom(s, p + 1, m)
  }

  /** Matcher.find: the groups of the leftmost match. */
  function Find<G>(s: string, m: (string, nat) -> Option<G>): Option<G>
  {
    match FindFrom(s, 0, m)
    case None => None
    case Some((_, g)) => Some(g)
  }

  /** A match at the very start is the one find reports. */
  lemma FindAtStart<G>(s: string, m: (string, nat) -> Option<G>, g: G)
    requires m(s, 0) == Some(g)
    ensures Find(s, m) == Some(g)
  {
  }

  // ---------------------------------------------------------------- checksum: (\S+)\s+(\S+)

  function MatchChecksumAt(s: string, p: nat): (r: Option<(string, string)>)
    ensures r.Some? ==> AllIn(r.value.0, IsNonSpace) && AllIn(r.value.1, IsNonSpace)
  {
    if p > |s| then None
    else
      var i := RunEnd(s, p, IsNonSpace);
      if i == p then None
      else
        var j := RunEnd(s, i, IsSpace);
        if j == i then None
        else
          var k := RunEnd(s, j, IsNonSpace);
          if k == j then None else Some((s[p..i], s[j..k]))
  }

  /** parseChecksum: the two groups of the first match in the trimmed value, the
    * first being a known algorithm tag. */
  function ParseChecksum(value: string, cat: Catalog): (r: Result<Checksum>)
    ensures Find<(string, string)>(Trim(value), MatchChecksumAt).None? ==> r == Err("Invalid checksum: " + value)
    ensures r.Ok? ==>
      && r.value.value.Some?
      && Find<(string, string)>(Trim(value), MatchChecksumAt) == Some((r.value.algorithm, r.value.value.value))
      && cat.isChecksumAlgorithm(r.value.algorithm)
    ensures Find<(string, string)>(Trim(value), MatchChecksumAt).Some? && !cat.isChecksumAlgorithm(Find<(string, string)>(Trim(value), MatchChecksumAt).value.0)
      ==> r == Err("Invalid checksum algorithm: " + value)
  {
    match Find<(string, string)>(Trim(value), MatchChecksumAt)
    case None => Err("Invalid checksum: " + value)
    case Some((alg, v)) =>
      if !cat.isChecksumAlgorithm(alg) then Err("Invalid checksum algorithm: " + value)
      else Ok(Checksum(alg, Some(v)))
  }

  /** Two tokens separated by one space are read back as the checksum they
    * spell, when the first is a known algorithm tag. */
  lemma ChecksumRoundTrip(alg: string, v: string, cat: Catalog)
    requires IsToken(alg) && IsToken(v) && cat.isChecksumAlgorithm(alg)
    ensures ParseChecksum(alg + " " + v, cat) == Ok(Checksum(alg, Some(v)))
  {
    var s := alg + " " + v;
    TokensTrimmed2(alg, v);
    RunEndIs(s, 0, |alg|, IsNonSpace);
    RunEndIs(s, |alg|, |alg| + 1, IsSpace);
    RunEndIs(s, |alg| + 1, |s|, IsNonSpace);
    assert s[..|alg|] == alg && s[|alg| + 1..] == v;
    FindAtStart(s, MatchChecksumAt, (alg, v));
  }

  lemma TokensTrimmed2(a: string, b: string)
    requires IsToken(a) && IsToken(b)
    ensures Trim(a + " " + b) == a + " " + b
  {
    var s := a + " " + b;
    assert s[0] == a[0] && s[|s| - 1] == b[|b| - 1];
    TrimIdempotent(s);
  }

  // ---------------------------------------------------------------- relationship: (\S+)\s+(\S+)\s+(\S+)

  function MatchRelationshipAt(s: string, p: nat): (r: Option<(string, string, string)>)
    ensures r.Some? ==> AllIn(r.value.0, IsNonSpace) && AllIn(r.value.1, IsNonSpace) && AllIn(r.value.2, IsNonSpace)
  {
    if p > |s| then None
    else
      var i := RunEnd(s, p, IsNonSpace);
      if i == p then None
      else
        var j := RunEnd(s, i, IsSpace);
        if j == i then None
        else
          var k := RunEnd(s, j, IsNonSpace);
          if k == j then None
          else
            var l := RunEnd(s, k, IsSpace);
            if l == k then None
            else
              var m := RunEnd(s, l, IsNonSpace);
              if m == l then None else Some((s[p..i], s[j..k], s[l..m]))
  }

  /** A relationship as read, before its element IDs are resolved. */
  datatype PendingRelationship = PendingRelationship(
    id: string, relatedId: string, relationshipType: string, comment: Option<string>)

  /** parseRelationship: (element ID, type, related ID) from the first match of
    * the trimmed value, the type being a known relationship type tag. */
  function ParseRelationship(value: string, cat: Catalog): (r: Result<PendingRelationship>)
    ensures Find<(string, string, string)>(Trim(value), MatchRelationshipAt).None? ==> r == Err("Invalid relationship: " + value)
    ensures r.Ok? ==>
      && Find<(string, string, string)>(Trim(value), MatchRelationshipAt) == Some((r.value.id, r.value.relationshipType, r.value.relatedId))
      && cat.isRelationshipType(r.value.relationshipType) && r.value.comment.None?
    ensures Find<(string, string, string)>(Trim(value), MatchRelationshipAt).Some? && !cat.isRelationshipType(Find<(string, string, string)>(Trim(value), MatchRelationshipAt).value.1)
      ==> r == Err("Invalid relationship type: " + value)
  {
    match Find<(string, string, string)>(Trim(value), MatchRelationshipAt)
    case None => Err("Invalid relationship: " + value)
    case Some((id, t, related)) =>
      if !cat.isRelationshipType(t) then Err("Invalid relationship type: " + value)
      else Ok(PendingRelationship(id, related, t, None))
  }

  /** Three tokens separated by single spaces are read back as the relationship
    * they spell, when the middle one is a known type. */
  lemma RelationshipRoundTrip(id: string, t: string, related: string, cat: Catalog)
    requires IsToken(id) && IsToken(t) && IsToken(related) && cat.isRelationshipType(t)
    ensures ParseRelationship(id + " " + t + " " + related, cat) == Ok(PendingRelationship(id, related, t, None))
  {
    var s := id + " " + t + " " + related;
    assert s[0] == id[0] && s[|s| - 1] == related[|related| - 1];
    TrimIdempotent(s);
    MatchPrintedRelationship(id, t, related);
    FindAtStart(s, MatchRelationshipAt, (id, t, related));
  }

  lemma MatchPrintedRelationship(id: string, t: string, related: string)
    requires IsToken(id) && IsToken(t) && IsToken(related)
    ensures MatchRelationshipAt(id + " " + t + " " + related, 0) == Some((id, t, related))
  {
    var s := id + " " + t + " " + related;
    PrintedRelationshipParts(id, t, related);
    PrintedHeadRuns(s, id, t, " " + related);
    var b := |id| + 1 + |t|;
    var l := |id| + 2 + |t|;
    RunOverAt(s, l, related, IsNonSpace);
    MatchRelationshipBy(s, |id|, b, l, |s|);
  }

  lemma PrintedRelationshipParts(id: string, t: string, related: string)
    ensures var s := id + " " + t + " " + related;
      s == id + " " + t + (" " + related) && s[|id| + 2 + |t|..|s|] == related
  {
  }

  /** The matcher in terms of the run boundaries it finds. */
  lemma MatchRelationshipBy(s: string, a: nat, b: nat, l: nat, c: nat)
    requires 0 < a && a + 1 < b && l == b + 1 && l < c <= |s|
    requires RunEnd(s, 0, IsNonSpace) == a && RunEnd(s, a, IsSpace) == a + 1
    requires RunEnd(s, a + 1, IsNonSpace) == b && RunEnd(s, b, IsSpace) == l
    requires RunEnd(s, l, IsNonSpace) == c
    ensures MatchRelationshipAt(s, 0) == Some((s[..a], s[a + 1..b], s[l..c]))
  {
  }

  // ---------------------------------------------------------------- ranges: (\d+):(\d+)

  function MatchRangeAt(s: string, p: nat): (r: Option<(string, string)>)
    ensures r.Some? ==> AllIn(r.value.0, IsDigit) && AllIn(r.value.1, IsDigit)
  {
    if p > |s| then None
    else
      var i := RunEnd(s, p, IsDigit);
      if i == p || i == |s| || s[i] != ':' then None
      else
        var j := RunEnd(s, i + 1, IsDigit);
        if j == i + 1 then None else Some((s[p..i], s[i + 1..j]))
  }

  /** The two numbers of the first d:d in the trimmed value; each must fit in
    * 32 bits. The message kind ("line" or "byte") names the range in errors. */
  function ParseRange(value: string, kind: string): (r: Result<(int, int)>)
    ensures Find<(string, string)>(Trim(value), MatchRangeAt).None? ==> r == Err("Invalid snippet " + kind + " range: " + value)
    ensures Find<(string, string)>(Trim(value), MatchRangeAt).Some? ==>
      var (g1, g2) := Find<(string, string)>(Trim(value), MatchRangeAt).value;
      && (ParseInt(g1).None? ==> r == Err("Non integer start to snippet " + kind + " offset: " + value))
      && (ParseInt(g1).Some? && ParseInt(g2).None? ==> r == Err("Non integer end to snippet " + kind + " offset: " + value))
      && (ParseInt(g1).Some? && ParseInt(g2).Some? ==> r == Ok((ParseInt(g1).value, ParseInt(g2).value)))
    ensures r.Ok? ==> Find<(string, string)>(Trim(value), MatchRangeAt).Some?
    ensures r.Ok? ==>
      ParseInt(Find<(string, string)>(Trim(value), MatchRangeAt).value.0) == Some(r.value.0) &&
      ParseInt(Find<(string, string)>(Trim(value), MatchRangeAt).value.1) == Some(r.value.1)
  {
    match Find<(string, string)>(Trim(value), MatchRangeAt)
    case None => Err("Invalid snippet " + kind + " range: " + value)
    case Some(groups) =>
      var start := ParseInt(groups.0);
      var end := ParseInt(groups.1);
      if start.None? then Err("Non integer start to snippet " + kind + " offset: " + value)
      else if end.None? then Err("Non integer end to snippet " + kind + " offset: " + value)
      else Ok((start.value, end.value))
  }

  /** parseByteRange: a pair of byte offsets. */
  function ParseByteRange(value: string): (r: Result<StartEndPointer>)
    ensures r.Ok? ==> (ParseRange(value, "byte").Ok? &&
      r.value == StartEndPointer(Some(ByteOffset(ParseRange(value, "byte").value.0)),
                                 Some(ByteOffset(ParseRange(value, "byte").value.1))))
    ensures ParseRange(value, "byte").Err? ==> r.Err?
  {
    match ParseRange(value, "byte")
    case Err(e) => Err(e)
    case Ok((a, b)) => Ok(StartEndPointer(Some(ByteOffset(a)), Some(ByteOffset(b))))
  }

  /** parseLineRange: a pair of line numbers. */
  function ParseLineRange(value: string): (r: Result<StartEndPointer>)
    ensures r.Ok? ==> (ParseRange(value, "line").Ok? &&
      r.value == StartEndPointer(Some(LineChar(ParseRange(value, "line").value.0)),
                                 Some(LineChar(ParseRange(value, "line").value.1))))
    ensures ParseRange(value, "line").Err? ==> r.Err?
  {
    match ParseRange(value, "line")
    case Err(e) => Err(e)
    case Ok((a, b)) => Ok(StartEndPointer(Some(LineChar(a)), Some(LineChar(b))))
  }

  /** Numbers printed as start:end are read back, for non-negative 32-bit values. */
  lemma RangeRoundTrip(a: int, b: int, kind: string)
    requires 0 <= a <= INT_MAX && 0 <= b <= INT_MAX
    ensures ParseRange(IntToString(a) + ":" + IntToString(b), kind) == Ok((a, b))
  {
    var sa := IntToString(a);
    var sb := IntToString(b);
    var s := sa + ":" + sb;
    assert s[0] == sa[0] && s[|s| - 1] == sb[|sb| - 1];
    TrimIdempotent(s);
    RunEndIs(s, 0, |sa|, IsDigit);
    RunEndIs(s, |sa| + 1, |s|, IsDigit);
    assert s[..|sa|] == sa && s[|sa| + 1..] == sb;
    FindAtStart(s, MatchRangeAt, (sa, sb));
    IntToStringRoundTrip(a);
    IntToStringRoundTrip(b);
  }

  // ---------------------------------------------------------------- external document reference:
  //                                                                   (\S+)\s+(\S+)\s+SHA1:\s+(\S+)

  function MatchExternalDocRefAt(s: string, p: nat): (r: Option<(string, string, string)>)
    ensures r.Some? ==> AllIn(r.value.0, IsNonSpace) && AllIn(r.value.1, IsNonSpace) && AllIn(r.value.2, IsNonSpace)
  {
    if p > |s| then None
    else
      var i := RunEnd(s, p, IsNonSpace);
      if i == p then None
      else
        var j := RunEnd(s, i, IsSpace);
        if j == i then None
        else
          var k := RunEnd(s, j, IsNonSpace);
          if k == j then None
          else
            var l := RunEnd(s, k, IsSpace);
            if l == k then None
            else
              match Sha1Tail(s, l)
              case None => None
              case Some((m, n)) => Some((s[p..i], s[j..k], s[m..n]))
  }

  /** SHA1:\s+(\S+) at l: the bounds of the group. */
  function Sha1Tail(s: string, l: nat): (r: Option<(nat, nat)>)
    requires l <= |s|
    ensures r.Some? ==> l < r.value.0 < r.value.1 <= |s| && AllIn(s[r.value.0..r.value.1], IsNonSpace)
  {
    if !("SHA1:" <= s[l..]) then None
    else
      var m := RunEnd(s, l + 5, IsSpace);
      if m == l + 5 then None
      else
        var n := RunEnd(s, m, IsNonSpace);
        if n == m then None else Some((m, n))
  }

  /** parseExternalDocumentRef: namespace from group 2, a SHA1 checksum from
    * group 3 and the ID from group 1 of the first match in the trimmed value. */
  function ParseExternalDocumentRef(refStr: string): (r: Result<ExternalDocumentRef>)
    ensures Find<(string, string, string)>(Trim(refStr), MatchExternalDocRefAt).None? <==> r.Err?
    ensures r.Err? ==> r.error == "Invalid external document reference: " + refStr
    ensures r.Ok? ==>
      && r.value.namespace.Some? && r.value.id.Some? && r.value.checksum.Some?
      && r.value.checksum.value.algorithm == SHA1 && r.value.checksum.value.value.Some?
      && Find<(string, string, string)>(Trim(refStr), MatchExternalDocRefAt) ==
           Some((r.value.id.value, r.value.namespace.value, r.value.checksum.value.value.value))
  {
    match Find<(string, string, string)>(Trim(refStr), MatchExternalDocRefAt)
    case None => Err("Invalid external document reference: " + refStr)
    case Some((id, ns, sha1)) => Ok(ExternalDocumentRef(Some(ns), Some(Checksum(SHA1, Some(sha1))), Some(id)))
  }

  /** The printed shape `id uri SHA1: sha1` is read back as the reference it
    * describes. */
  lemma ExternalDocRefRoundTrip(id: string, uri: string, sha1: string)
    requires IsToken(id) && IsToken(uri) && IsToken(sha1)
    ensures ParseExternalDocumentRef(id + " " + uri + " SHA1: " + sha1) ==
      Ok(ExternalDocumentRef(Some(uri), Some(Checksum(SHA1, Some(sha1))), Some(id)))
  {
    var s := id + " " + uri + " SHA1: " + sha1;
    assert s[0] == id[0] && s[|s| - 1] == sha1[|sha1| - 1];
    TrimIdempotent(s);
    MatchPrintedExternalDocRef(id, uri, sha1);
    FindAtStart(s, MatchExternalDocRefAt, (id, uri, sha1));
  }

  lemma MatchPrintedExternalDocRef(id: string, uri: string, sha1: string)
    requires IsToken(id) && IsToken(uri) && IsToken(sha1)
    ensures MatchExternalDocRefAt(id + " " + uri + " SHA1: " + sha1, 0) == Some((id, uri, sha1))
  {
    var s := id + " " + uri + " SHA1: " + sha1;
    var b := |id| + 1 + |uri|;
    var l := b + 1;
    PrintedExternalDocRefRuns(s, id, uri, sha1, b, l);
    MatchExternalDocRefBy(s, |id|, b, l, l + 6, |s|);
  }

  /** The runs the matcher follows over a printed reference. */
  lemma PrintedExternalDocRefRuns(s: string, id: string, uri: string, sha1: string, b: nat, l: nat)
    requires IsToken(id) && IsToken(uri) && IsToken(sha1)
    requires s == id + " " + uri + " SHA1: " + sha1
    requires b == |id| + 1 + |uri| && l == b + 1
    ensures 0 < |id| < b < |s| && |id| + 1 < b
    ensures RunEnd(s, 0, IsNonSpace) == |id| && RunEnd(s, |id|, IsSpace) == |id| + 1
    ensures RunEnd(s, |id| + 1, IsNonSpace) == b && RunEnd(s, b, IsSpace) == l
    ensures Sha1Tail(s, l).Some? && Sha1Tail(s, l).value.0 == l + 6 && Sha1Tail(s, l).value.1 == |s|
    ensures s[..|id|] == id && s[|id| + 1..b] == uri && s[l + 6..|s|] == sha1
  {
    PrintedExternalDocRefParts(id, uri, sha1);
    PrintedHeadRuns(s, id, uri, " SHA1: " + sha1);
    Sha1TailAt(s, l, sha1);
  }

  lemma PrintedExternalDocRefParts(id: string, uri: string, sha1: string)
    ensures var s := id + " " + uri + " SHA1: " + sha1;
      s == id + " " + uri + (" SHA1: " + sha1) && s[|id| + 2 + |uri|..] == "SHA1: " + sha1
  {
  }

  /** SHA1: followed by one space and a token, up to the end. */
  lemma Sha1TailAt(s: string, l: nat, sha1: string)
    requires IsToken(sha1) && l + 6 + |sha1| == |s| && s[l..] == "SHA1: " + sha1
    ensures Sha1Tail(s, l).Some? && Sha1Tail(s, l).value.0 == l + 6 && Sha1Tail(s, l).value.1 == |s|
    ensures s[l + 6..|s|] == sha1
  {
    assert "SHA1:" <= s[l..];
    assert s[l + 5..l + 6] == " ";
    RunOverAt(s, l + 5, " ", IsSpace);
    assert s[l + 6..|s|] == s[l..][6..];
    assert ("SHA1: " + sha1)[6..] == sha1;
    RunOverAt(s, l + 6, sha1, IsNonSpace);
  }

  /** Two tokens, each followed by a single space: the runs the matcher finds. */
  lemma PrintedHeadRuns(s: string, id: string, uri: string, rest: string)
    requires IsToken(id) && IsToken(uri) && |rest| >= 2 && rest[0] == ' ' && rest[1] > ' '
    requires s == id + " " + uri + rest
    ensures RunEnd(s, 0, IsNonSpace) == |id| && RunEnd(s, |id|, IsSpace) == |id| + 1
    ensures RunEnd(s, |id| + 1, IsNonSpace) == |id| + 1 + |uri|
    ensures RunEnd(s, |id| + 1 + |uri|, IsSpace) == |id| + 2 + |uri|
    ensures s[..|id|] == id && s[|id| + 1..|id| + 1 + |uri|] == uri
  {
    PrintedFirstToken(s, id, uri, rest);
    PrintedFirstSpace(s, id, uri, rest);
    PrintedSecondToken(s, id, uri, rest);
    PrintedSecondSpace(s, id, uri, rest);
  }

  lemma PrintedFirstToken(s: string, id: string, uri: string, rest: string)
    requires IsToken(id) && s == id + " " + uri + rest
    ensures RunEnd(s, 0, IsNonSpace) == |id| && s[..|id|] == id
  {
    assert s[0..|id|] == id;
    RunOverAt(s, 0, id, IsNonSpace);
  }

  lemma PrintedFirstSpace(s: string, id: string, uri: string, rest: string)
    requires IsToken(uri) && s == id + " " + uri + rest
    ensures RunEnd(s, |id|, IsSpace) == |id| + 1
  {
    assert s[|id|..|id| + 1] == " ";
    RunOverAt(s, |id|, " ", IsSpace);
  }

  lemma PrintedSecondToken(s: string, id: string, uri: string, rest: string)
    requires IsToken(uri) && |rest| >= 1 && rest[0] == ' ' && s == id + " " + uri + rest
    ensures RunEnd(s, |id| + 1, IsNonSpace) == |id| + 1 + |uri|
    ensures s[|id| + 1..|id| + 1 + |uri|] == uri
  {
    assert s[|id| + 1..|id| + 1 + |uri|] == uri;
    RunOverAt(s, |id| + 1, uri, IsNonSpace);
  }

  lemma PrintedSecondSpace(s: string, id: string, uri: string, rest: string)
    requires |rest| >= 2 && rest[0] == ' ' && rest[1] > ' ' && s == id + " " + uri + rest
    ensures RunEnd(s, |id| + 1 + |uri|, IsSpace) == |id| + 2 + |uri|
  {
    assert s[|id| + 1 + |uri|..|id| + 2 + |uri|] == " ";
    RunOverAt(s, |id| + 1 + |uri|, " ", IsSpace);
  }

  /** The run of a class from p covers exactly the text t found there, when t is
    * all in the class and the character after it is not. */
  lemma RunOverAt(s: string, p: nat, t: string, cls: char -> bool)
    requires p + |t| <= |s| && s[p..p + |t|] == t
    requires forall k :: 0 <= k < |t| ==> cls(t[k])
    requires p + |t| == |s| || !cls(s[p + |t|])
    ensures RunEnd(s, p, cls) == p + |t|
  {
    forall k | p <= k < p + |t| ensures cls(s[k]) {
      assert s[k] == s[p..p + |t|][k - p];
    }
    RunEndIs(s, p, p + |t|, cls);
  }

  /** The matcher in terms of the run boundaries it finds. */
  lemma MatchExternalDocRefBy(s: string, a: nat, b: nat, l: nat, m: nat, n: nat)
    requires 0 < a < b < |s| && l == b + 1
    requires RunEnd(s, 0, IsNonSpace) == a && RunEnd(s, a, IsSpace) == a + 1
    requires RunEnd(s, a + 1, IsNonSpace) == b && RunEnd(s, b, IsSpace) == l
    requires a + 1 < b && Sha1Tail(s, l).Some? && Sha1Tail(s, l).value.0 == m && Sha1Tail(s, l).value.1 == n
    ensures MatchExternalDocRefAt(s, 0) == Some((s[..a], s[a + 1..b], s[m..n]))
  {
  }

  // ---------------------------------------------------------------- external reference: ([^ ]+) ([^ ]+) (.+)

  function MatchExternalRefAt(s: string, p: nat): (r: Option<(string, string, string)>)
    ensures r.Some? ==>
      AllIn(r.value.0, IsNotBlank) && AllIn(r.value.1, IsNotBlank) && AllIn(r.value.2, IsNotLineTerminator)
  {
    if p > |s| then None
    else
      var i := RunEnd(s, p, IsNotBlank);
      if i == p || i == |s| then None
      else
        var j := RunEnd(s, i + 1, IsNotBlank);
        if j == i + 1 || j == |s| then None
        else
          var k := RunEnd(s, j + 1, IsNotLineTerminator);
          if k == j + 1 then None else Some((s[p..i], s[i + 1..j], s[j + 1..k]))
  }

  const INVALID_REF_FORMAT := "Invalid External Ref format: "
  const INVALID_REF_CATEGORY := "Invalid External Ref category: "
  const INVALID_REF_TYPE := "Invalid External Ref type: "

  /** parseExternalRef: the category (group 1, trimmed) must be known; the type
    * (group 2, trimmed) is a listed reference type if there is one by that
    * name, otherwise a URI: the text itself when it has a '/' or ':', else the
    * document namespace followed by it, and it must be valid URI syntax; the
    * locator is group 3. The pattern is applied to the value as given. */
  function ParseExternalRef(value: string, documentNamespace: string, cat: Catalog): (r: Result<ExternalRef>)
    ensures Find<(string, string, string)>(value, MatchExternalRefAt).None? ==> r == Err(INVALID_REF_FORMAT + value)
    ensures Find<(string, string, string)>(value, MatchExternalRefAt).Some? ==>
      var (g1, g2, g3) := Find<(string, string, string)>(value, MatchExternalRefAt).value;
      var typeKnown := cat.listedReferenceType(Trim(g2)).Some?
                       || cat.isValidUri(ReferenceTypeUri(Trim(g2), documentNamespace, cat));
      && (!cat.isReferenceCategory(Trim(g1)) ==> r == Err(INVALID_REF_CATEGORY + value))
      && (cat.isReferenceCategory(Trim(g1)) && !typeKnown ==> r == Err(INVALID_REF_TYPE + value))
      && (cat.isReferenceCategory(Trim(g1)) && typeKnown ==> r.Ok?)
    ensures r.Ok? ==>
      && Find<(string, string, string)>(value, MatchExternalRefAt).Some?
      && var (g1, g2, g3) := Find<(string, string, string)>(value, MatchExternalRefAt).value;
         && r.value.category == Some(Trim(g1)) && cat.isReferenceCategory(Trim(g1))
         && r.value.locator == Some(g3) && r.value.comment.None?
         && r.value.referenceType == Some(ReferenceTypeUri(Trim(g2), documentNamespace, cat))
  {
    match Find<(string, string, string)>(value, MatchExternalRefAt)
    case None => Err(INVALID_REF_FORMAT + value)
    case Some((g1, g2, g3)) =>
      var category := Trim(g1);
      if !cat.isReferenceCategory(category) then Err(INVALID_REF_CATEGORY + value)
      else
        var tagType := Trim(g2);
        if cat.listedReferenceType(tagType).None? && !cat.isValidUri(ReferenceTypeUri(tagType, documentNamespace, cat)) then
          Err(INVALID_REF_TYPE + value)
        else Ok(ExternalRef(Some(category), Some(ReferenceTypeUri(tagType, documentNamespace, cat)), Some(g3), None))
  }

  /** A `category type locator` value, with a known category, a type that is
    * listed or names a valid URI, and a locator on one line, reads back as
    * that reference. */
  lemma ExternalRefRoundTrip(category: string, refType: string, locator: string, documentNamespace: string, cat: Catalog)
    requires IsToken(category) && IsToken(refType) && AllIn(locator, IsNotLineTerminator)
    requires cat.isReferenceCategory(category)
    requires cat.listedReferenceType(refType).Some? || cat.isValidUri(ReferenceTypeUri(refType, documentNamespace, cat))
    ensures ParseExternalRef(category + " " + refType + " " + locator, documentNamespace, cat)
      == Ok(ExternalRef(Some(category), Some(ReferenceTypeUri(refType, documentNamespace, cat)), Some(locator), None))
  {
    var s := category + " " + refType + " " + locator;
    MatchPrintedExternalRef(category, refType, locator);
    FindAtStart(s, MatchExternalRefAt, (category, refType, locator));
    TrimIdempotent(category);
    TrimIdempotent(refType);
  }

  lemma MatchPrintedExternalRef(category: string, refType: string, locator: string)
    requires IsToken(category) && IsToken(refType) && AllIn(locator, IsNotLineTerminator)
    ensures MatchExternalRefAt(category + " " + refType + " " + locator, 0) == Some((category, refType, locator))
  {
    var s := category + " " + refType + " " + locator;
    var i := |category|;
    var j := i + 1 + |refType|;
    PrintedExternalRefParts(category, refType, locator);
    RunOverAt(s, 0, category, IsNotBlank);
    RunOverAt(s, i + 1, refType, IsNotBlank);
    RunOverAt(s, j + 1, locator, IsNotLineTerminator);
    MatchExternalRefBy(s, i, j, |s|);
  }

  lemma PrintedExternalRefParts(category: string, refType: string, locator: string)
    ensures var s := category + " " + refType + " " + locator;
      var i := |category|;
      var j := i + 1 + |refType|;
      && |s| == j + 1 + |locator|
      && s[0..i] == category && s[i] == ' '
      && s[i + 1..j] == refType && s[j] == ' '
      && s[j + 1..|s|] == locator
  {
  }

  /** The matcher in terms of the run boundaries it finds. */
  lemma MatchExternalRefBy(s: string, i: nat, j: nat, k: nat)
    requires 0 < i && i + 1 < j < |s| && j + 1 < k <= |s|
    requires RunEnd(s, 0, IsNotBlank) == i && RunEnd(s, i + 1, IsNotBlank) == j
    requires RunEnd(s, j + 1, IsNotLineTerminator) == k
    ensures MatchExternalRefAt(s, 0) == Some((s[0..i], s[i + 1..j], s[j + 1..k]))
  {
  }

  /** The URI of a reference type named in a value. */
  function ReferenceTypeUri(tagType: string, documentNamespace: string, cat: Catalog): (r: string)
    ensures cat.listedReferenceType(tagType).None? && ('/' in tagType || ':' in tagType) ==> r == tagType
    ensures cat.listedReferenceType(tagType).None? && !('/' in tagType || ':' in tagType) ==>
      r == documentNamespace + tagType
  {
    match cat.listedReferenceType(tagType)
    case Some(uri) => uri
    case None => if '/' in tagType || ':' in tagType then tagType else documentNamespace + tagType
  }

  // ---------------------------------------------------------------- verification code

  /** The PackageVerificationCode value `code (excluded, ...)`: without a '(' the
    * whole value is the code; otherwise the code is the trimmed text before the
    * first '(' and the excluded names are the trimmed ','-separated parts of the
    * text between the first and second '(' with every ')' removed. A value
    * with nothing split off after its '(' is an error. */
  function ParseVerificationCode(value: string): (r: Result<VerificationCode>)
    ensures '(' !in value ==> r == Ok(VerificationCode(Some(value), []))
    ensures r.Ok? && '(' in value ==>
      var parts := Split(value, '(');
      |parts| >= 2 && r.value.value == Some(Trim(parts[0]))
      && r.value.excludedFileNames == TrimAll(Split(ReplaceAll(parts[1], ")", ""), ','))
  {
    if '(' in value then
      var parts := Split(value, '(');
      if |parts| < 2 then Err("ArrayIndexOutOfBoundsException: no excluded files after '(' in " + value)
      else Ok(VerificationCode(Some(Trim(parts[0])), TrimAll(Split(ReplaceAll(parts[1], ")", ""), ','))))
    else Ok(VerificationCode(Some(value), []))
  }

  // ---------------------------------------------------------------- seeAlso URLs

  /** LicenseCrossReference: the ','-separated parts, each trimmed. */
  function ParseSourceUrls(value: string): (r: seq<string>)
    ensures |r| >= 1 || ',' in value
    ensures forall i :: 0 <= i < |r| ==> IsTrimmed(r[i]) && ',' !in r[i]
  {
    var parts := Split(value, ',');
    SplitPiecesFree(value, ',');
    TrimAll(parts)
  }

  lemma SplitPiecesFree(s: string, c: char)
    ensures c !in s ==> Split(s, c) == [s]
    ensures forall i :: 0 <= i < |Split(s, c)| ==> c !in Split(s, c)[i]
  {
  }
}
