// The package verification code: file paths normalised the SPDX way, the
// SHA1 checksums of the files that are not skipped, sorted and digested
// together, and the digest written as lowercase hexadecimal.

module VerificationCodeGen {
  import opened Wrappers
  import opened JavaStrings
  import opened SpdxTypes
  import SpdxFileModel

  // ---------------------------------------------------------------- normalizeFilePath

  /** pat occurs somewhere in s (String.contains). */
  predicate Contains(s: string, pat: string)
    decreases |s|
  {
    pat <= s || (|s| > 0 && Contains(s[1..], pat))
  }

  /** A segment is kept unless it is ".." or the next segment is "..". */
  predicate Kept(parts: seq<string>, j: nat)
    requires j < |parts|
  {
    !(j + 1 < |parts| && parts[j + 1] == "..") && parts[j] != ".."
  }

  /** The text the segment loop has built after the first n segments: every
    * kept segment after the first position is preceded by '/'. */
  function Rebuild(parts: seq<string>, n: nat): string
    requires n <= |parts|
  {
    if n == 0 then ""
    else if Kept(parts, n - 1) then Rebuild(parts, n - 1) + (if n - 1 > 0 then "/" else "") + parts[n - 1]
    else Rebuild(parts, n - 1)
  }

  /** The kept segments among the first n, in order. */
  function KeptOf(parts: seq<string>, n: nat): (r: seq<string>)
    requires n <= |parts|
    ensures forall i :: 0 <= i < |r| ==> r[i] != ".."
    ensures |r| <= n
  {
    if n == 0 then []
    else KeptOf(parts, n - 1) + (if Kept(parts, n - 1) then [parts[n - 1]] else [])
  }

  /** normalizeFilePath: backslashes become '/', the path is trimmed, and when
    * it contains "../" each ".." segment is dropped together with the segment
    * before it; then every "./" is removed and the result is made to start
    * with "./". */
  function NormalizedPath(path: string): string
  {
    var p1 := Trim(ReplaceAll(path, "\\", "/"));
    var p2 := if Contains(p1, "../") then Rebuild(Split(p1, '/'), |Split(p1, '/')|) else p1;
    var p3 := ReplaceAll(p2, "./", "");
    if p3 != "" && p3[0] == '/' then "." + p3 else "./" + p3
  }

  /** The segment loop of normalizeFilePath. */
  method DropParentSegments(parts: seq<string>) returns (r: string)
    ensures r == Rebuild(parts, |parts|)
  {
    var sb := "";
    var j := 0;
    while j < |parts|
      invariant 0 <= j <= |parts|
      invariant sb == Rebuild(parts, j)
    {
      if j + 1 < |parts| && parts[j + 1] == ".." {
        // the segment before a ".." is skipped
      } else if parts[j] == ".." {
        // and so is the ".." itself
      } else {
        if j > 0 {
          sb := sb + "/";
        }
        sb := sb + parts[j];
      }
      j := j + 1;
    }
    r := sb;
  }

  method NormalizeFilePath(path: string) returns (r: string)
    ensures r == NormalizedPath(path)
  {
    var filePath := Trim(ReplaceAll(path, "\\", "/"));
    if Contains(filePath, "../") {
      var parts := Split(filePath, '/');
      filePath := DropParentSegments(parts);
    }
    filePath := ReplaceAll(filePath, "./", "");
    if filePath != "" && filePath[0] == '/' {
      filePath := "." + filePath;
    } else {
      filePath := "./" + filePath;
    }
    r := filePath;
  }

  /** Every normalised path starts with "./". */
  lemma NormalizedStartsWithDotSlash(path: string)
    ensures |NormalizedPath(path)| >= 2 && NormalizedPath(path)[..2] == "./"
  {
    var p1 := Trim(ReplaceAll(path, "\\", "/"));
    var p2 := if Contains(p1, "../") then Rebuild(Split(p1, '/'), |Split(p1, '/')|) else p1;
    DotSlashPrefixed(ReplaceAll(p2, "./", ""));
  }

  /** The last step of the normalisation puts "./" in front, sharing a leading slash. */
  lemma DotSlashPrefixed(p: string)
    ensures var r := if p != "" && p[0] == '/' then "." + p else "./" + p;
      |r| >= 2 && r[..2] == "./"
  {
    if p != "" && p[0] == '/' {
      assert ("." + p)[..2] == ['.', p[0]];
    } else {
      assert ("./" + p)[..2] == "./";
    }
  }

  /** No normalised path contains a backslash. */
  lemma NormalizedHasNoBackslash(path: string)
    ensures '\\' !in NormalizedPath(path)
  {
    var p0 := ReplaceAll(path, "\\", "/");
    ReplaceCharRemoves(path, '\\', '/');
    var p1 := Trim(p0);
    var p2 := if Contains(p1, "../") then Rebuild(Split(p1, '/'), |Split(p1, '/')|) else p1;
    if Contains(p1, "../") {
      var parts := Split(p1, '/');
      SplitKeepsChars(p1, '/');
      RebuildKeepsChars(parts, |parts|, '\\');
    }
    ReplaceAllShrinks(p2, "./");
  }

  /** Split introduces no character. */
  lemma SplitKeepsChars(s: string, c: char)
    ensures forall i, x :: 0 <= i < |Split(s, c)| && x in Split(s, c)[i] ==> x in s
  {
    var parts := Split(s, c);
    if c in s {
      var pieces := Pieces(s, c);
      forall i, x | 0 <= i < |parts| && x in parts[i] ensures x in s {
        assert parts[i] == pieces[i];
        PieceInJoin(pieces, [c], i, x);
      }
    }
  }

  lemma {:induction false} PieceInJoin(parts: seq<string>, sep: string, i: nat, x: char)
    requires i < |parts| && x in parts[i]
    ensures x in JoinWith(parts, sep)
    decreases |parts|
  {
    JoinWithFirst(parts, sep);
    if i > 0 {
      PieceInJoin(parts[1..], sep, i - 1, x);
    }
  }

  /** The segment loop adds only '/' to the segments' characters. */
  lemma {:induction false} RebuildKeepsChars(parts: seq<string>, n: nat, x: char)
    requires n <= |parts| && x != '/'
    requires forall i :: 0 <= i < |parts| ==> x !in parts[i]
    ensures x !in Rebuild(parts, n)
  {
    if n > 0 {
      RebuildKeepsChars(parts, n - 1, x);
    }
  }

  /** Some segment before n is kept. */
  predicate SomeKept(parts: seq<string>, n: nat)
    requires n <= |parts|
  {
    KeptOf(parts, n) != []
  }

  /** The segment loop yields the kept segments joined with '/', with a leading
    * '/' when the first segment was dropped and a later one kept. */
  lemma {:induction false} RebuildIsJoinOfKept(parts: seq<string>, n: nat)
    requires 0 < n <= |parts|
    ensures Rebuild(parts, n) ==
      (if SomeKept(parts, n) && !Kept(parts, 0) then "/" else "") + JoinWith(KeptOf(parts, n), "/")
  {
    if n > 1 {
      RebuildIsJoinOfKept(parts, n - 1);
      FirstKept(parts, n - 1);
      var k := KeptOf(parts, n - 1);
      if Kept(parts, n - 1) {
        assert KeptOf(parts, n) == k + [parts[n - 1]];
        assert Rebuild(parts, n) == Rebuild(parts, n - 1) + "/" + parts[n - 1];
        JoinWithSnoc(k, parts[n - 1], "/");
      } else {
        assert KeptOf(parts, n) == k;
      }
    }
  }

  /** When the first segment is kept it comes first among the kept ones. */
  lemma {:induction false} FirstKept(parts: seq<string>, n: nat)
    requires 0 < n <= |parts|
    ensures Kept(parts, 0) ==> KeptOf(parts, n) != [] && KeptOf(parts, n)[0] == parts[0]
  {
    if n > 1 {
      FirstKept(parts, n - 1);
    }
  }

  // ---------------------------------------------------------------- convertChecksumToString

  /** Character.forDigit(d, 16): lowercase letters above nine. */
  function HexDigit(d: nat): char
    requires d < 16
  {
    if d < 10 then ('0' as int + d) as char else ('a' as int + d - 10) as char
  }

  /** Integer.toHexString of a value below 256: no leading zeros. */
  function ToHexString(n: nat): string
    requires n < 256
  {
    if n < 16 then [HexDigit(n)] else [HexDigit(n / 16), HexDigit(n % 16)]
  }

  /** One byte value padded to two hexadecimal characters. */
  function HexPair(n: nat): string
    requires n < 256
  {
    var hex := ToHexString(n);
    if |hex| < 2 then "0" + hex else hex
  }

  /** The hexadecimal form of a digest. */
  function HexString(digest: seq<bv8>): string
  {
    if digest == [] then "" else HexString(digest[..|digest| - 1]) + HexPair(digest[|digest| - 1] as nat)
  }

  /** convertChecksumToString */
  method ConvertChecksumToString(digest: seq<bv8>) returns (r: string)
    ensures r == HexString(digest)
  {
    var sb := "";
    var i := 0;
    while i < |digest|
      invariant 0 <= i <= |digest|
      invariant sb == HexString(digest[..i])
    {
      var hex := ToHexString(digest[i] as nat);
      assert digest[..i + 1][..i] == digest[..i];
      if |hex| < 2 {
        sb := sb + "0";
      }
      sb := sb + hex;
      i := i + 1;
    }
    assert digest[..i] == digest;
    r := sb;
  }

  predicate IsLowerHex(c: char)
  {
    '0' <= c <= '9' || 'a' <= c <= 'f'
  }

  /** The value of a lowercase hexadecimal character. */
  function HexValue(c: char): nat
  {
    if '0' <= c <= '9' then c as nat - '0' as nat
    else if 'a' <= c <= 'f' then c as nat - 'a' as nat + 10
    else 0
  }

  lemma HexDigitValue(d: nat)
    requires d < 16
    ensures IsLowerHex(HexDigit(d)) && HexValue(HexDigit(d)) == d
  {
  }

  /** Each byte is written as exactly two lowercase hexadecimal characters,
    * the high half first. */
  lemma HexPairDigits(n: nat)
    requires n < 256
    ensures HexPair(n) == [HexDigit(n / 16), HexDigit(n % 16)]
  {
  }

  /** Reading hexadecimal text back, two characters per byte value. */
  function ParseHex(s: string): seq<nat>
    requires |s| % 2 == 0
  {
    if s == [] then []
    else ParseHex(s[..|s| - 2]) + [HexValue(s[|s| - 2]) * 16 + HexValue(s[|s| - 1])]
  }

  /** The byte values of a digest. */
  function ByteValues(digest: seq<bv8>): seq<nat>
  {
    if digest == [] then [] else ByteValues(digest[..|digest| - 1]) + [digest[|digest| - 1] as nat]
  }

  /** The hexadecimal form has two characters per byte, all lowercase hex. */
  lemma {:induction false} HexStringShape(digest: seq<bv8>)
    ensures |HexString(digest)| == 2 * |digest|
    ensures forall k :: 0 <= k < |HexString(digest)| ==> IsLowerHex(HexString(digest)[k])
  {
    if digest != [] {
      var n := digest[|digest| - 1] as nat;
      HexStringShape(digest[..|digest| - 1]);
      HexPairDigits(n);
      HexDigitValue(n / 16);
      HexDigitValue(n % 16);
    }
  }

  /** The two characters of a byte read back as its value. */
  lemma HexPairValue(n: nat)
    requires n < 256
    ensures HexValue(HexPair(n)[0]) * 16 + HexValue(HexPair(n)[1]) == n
  {
    HexPairDigits(n);
    HexDigitValue(n / 16);
    HexDigitValue(n % 16);
  }

  lemma {:induction false} HexStringLength(digest: seq<bv8>)
    ensures |HexString(digest)| == 2 * |digest|
  {
    if digest != [] {
      HexStringLength(digest[..|digest| - 1]);
      HexPairDigits(digest[|digest| - 1] as nat);
    }
  }

  lemma ParseHexSnoc(s: string, pair: string)
    requires |s| % 2 == 0 && |pair| == 2
    ensures ParseHex(s + pair) == ParseHex(s) + [HexValue(pair[0]) * 16 + HexValue(pair[1])]
  {
    var t := s + pair;
    assert t[..|t| - 2] == s;
  }

  /** The hexadecimal form determines the digest. */
  lemma {:induction false} HexStringRoundTrip(digest: seq<bv8>)
    ensures |HexString(digest)| % 2 == 0
    ensures ParseHex(HexString(digest)) == ByteValues(digest)
  {
    HexStringLength(digest);
    if digest != [] {
      var init := digest[..|digest| - 1];
      var n := digest[|digest| - 1] as nat;
      HexStringRoundTrip(init);
      HexPairDigits(n);
      HexPairValue(n);
      assert HexString(digest) == HexString(init) + HexPair(n);
      ParseHexSnoc(HexString(init), HexPair(n));
      assert ByteValues(digest) == ByteValues(init) + [n];
    }
  }

  // ---------------------------------------------------------------- sorting

  /** Sorted in compareTo order. */
  predicate Sorted(s: seq<string>)
  {
    forall i, j :: 0 <= i < j < |s| ==> CompareTo(s[i], s[j]) <= 0
  }

  function Insert(x: string, s: seq<string>): seq<string>
  {
    if s == [] then [x]
    else if CompareTo(x, s[0]) <= 0 then [x] + s
    else [s[0]] + Insert(x, s[1..])
  }

  /** Collections.sort of strings (any sorting algorithm gives this result). */
  function Sort(xs: seq<string>): seq<string>
  {
    if xs == [] then [] else Insert(xs[0], Sort(xs[1..]))
  }

  lemma {:induction false} InsertMultiset(x: string, s: seq<string>)
    ensures multiset(Insert(x, s)) == multiset(s) + multiset{x}
  {
    if s != [] {
      assert s == [s[0]] + s[1..];
      if CompareTo(x, s[0]) > 0 {
        InsertMultiset(x, s[1..]);
      }
    }
  }

  /** A head no greater than every element of a sorted tail keeps it sorted. */
  lemma SortedCons(h: string, t: seq<string>)
    requires Sorted(t)
    requires forall j :: 0 <= j < |t| ==> CompareTo(h, t[j]) <= 0
    ensures Sorted([h] + t)
  {
    var r := [h] + t;
    forall i, j | 0 <= i < j < |r| ensures CompareTo(r[i], r[j]) <= 0 {
      if i > 0 {
        assert r[i] == t[i - 1] && r[j] == t[j - 1];
      }
    }
  }

  lemma {:induction false} InsertSorted(x: string, s: seq<string>)
    requires Sorted(s)
    ensures Sorted(Insert(x, s))
    decreases |s|
  {
    if s != [] {
      if CompareTo(x, s[0]) <= 0 {
        forall j | 0 <= j < |s| ensures CompareTo(x, s[j]) <= 0 {
          if j > 0 {
            CompareToTransitive(x, s[0], s[j]);
          }
        }
        SortedCons(x, s);
      } else {
        var rest := s[1..];
        InsertSorted(x, rest);
        InsertMultiset(x, rest);
        var ins := Insert(x, rest);
        CompareToAntisymmetric(x, s[0]);
        forall j | 0 <= j < |ins| ensures CompareTo(s[0], ins[j]) <= 0 {
          assert ins[j] in multiset(ins);
          if ins[j] != x {
            assert ins[j] in multiset(rest);
            var k :| 0 <= k < |rest| && rest[k] == ins[j];
            assert s[k + 1] == rest[k];
          }
        }
        SortedCons(s[0], ins);
      }
    }
  }

  /** Sort yields a sorted permutation. */
  lemma {:induction false} SortProperties(xs: seq<string>)
    ensures Sorted(Sort(xs)) && multiset(Sort(xs)) == multiset(xs)
  {
    if xs != [] {
      SortProperties(xs[1..]);
      InsertSorted(xs[0], Sort(xs[1..]));
      InsertMultiset(xs[0], Sort(xs[1..]));
      assert xs == [xs[0]] + xs[1..];
    }
  }

  /** The head of a sorted sequence is no greater than any of its elements. */
  lemma SortedHeadLeast(a: seq<string>, x: string)
    requires Sorted(a) && x in a
    ensures CompareTo(a[0], x) <= 0
  {
    var i :| 0 <= i < |a| && a[i] == x;
    if i == 0 {
      CompareToZeroIffEqual(a[0], x);
    }
  }

  lemma SortedTail(a: seq<string>)
    requires Sorted(a) && a != []
    ensures Sorted(a[1..])
  {
    forall i, j | 0 <= i < j < |a| - 1 ensures CompareTo(a[1..][i], a[1..][j]) <= 0 {
      assert a[1..][i] == a[i + 1] && a[1..][j] == a[j + 1];
    }
  }

  /** Two sorted permutations of one multiset start alike. */
  lemma SortedSameHead(a: seq<string>, b: seq<string>)
    requires Sorted(a) && Sorted(b) && multiset(a) == multiset(b) && a != []
    ensures b != [] && a[0] == b[0]
  {
    assert a[0] in multiset(b);
    assert b != [];
    assert b[0] in multiset(a);
    SortedHeadLeast(b, a[0]);
    SortedHeadLeast(a, b[0]);
    CompareToAntisymmetric(a[0], b[0]);
    CompareToZeroIffEqual(a[0], b[0]);
  }

  lemma TailMultiset(a: seq<string>, b: seq<string>)
    requires a != [] && b != [] && a[0] == b[0] && multiset(a) == multiset(b)
    ensures multiset(a[1..]) == multiset(b[1..])
  {
    assert a == [a[0]] + a[1..] && b == [b[0]] + b[1..];
    assert multiset(a[1..]) == multiset(a) - multiset{a[0]};
    assert multiset(b[1..]) == multiset(b) - multiset{b[0]};
  }

  /** Two sorted permutations of one multiset are the same sequence. */
  lemma {:induction false} SortedUnique(a: seq<string>, b: seq<string>)
    requires Sorted(a) && Sorted(b) && multiset(a) == multiset(b)
    ensures a == b
    decreases |a|
  {
    if a == [] {
      assert |multiset(b)| == 0;
    } else {
      SortedSameHead(a, b);
      TailMultiset(a, b);
      SortedTail(a);
      SortedTail(b);
      SortedUnique(a[1..], b[1..]);
      assert a == [a[0]] + a[1..] && b == [b[0]] + b[1..];
    }
  }

  /** Sorting forgets the order: permutations sort to the same sequence. */
  lemma SortOrderIndependent(xs: seq<string>, ys: seq<string>)
    requires multiset(xs) == multiset(ys)
    ensures Sort(xs) == Sort(ys)
  {
    SortProperties(xs);
    SortProperties(ys);
    SortedUnique(Sort(xs), Sort(ys));
  }

  // ---------------------------------------------------------------- generatePackageVerificationCode

  function ConcatAll(xs: seq<string>): string
  {
    if xs == [] then "" else ConcatAll(xs[..|xs| - 1]) + xs[|xs| - 1]
  }

  /** The code of a list of file checksums: the hexadecimal SHA-1 digest of the
    * sorted checksums fed in one after the other (the digest of the
    * concatenation), with the given excluded names. */
  function CodeOf(fileChecksums: seq<string>, skippedFilePaths: seq<string>, cat: Catalog): VerificationCode
  {
    VerificationCode(Some(HexString(cat.sha1Digest(ConcatAll(Sort(fileChecksums))))), skippedFilePaths)
  }

  /** generatePackageVerificationCode(List, String[]): sort, digest, convert. */
  method GenerateFromChecksums(fileChecksums: seq<string>, skippedFilePaths: seq<string>, cat: Catalog)
    returns (r: VerificationCode)
    ensures r == CodeOf(fileChecksums, skippedFilePaths, cat)
  {
    var sorted := Sort(fileChecksums);
    var digestInput := "";
    var i := 0;
    while i < |sorted|
      invariant 0 <= i <= |sorted|
      invariant digestInput == ConcatAll(sorted[..i])
    {
      assert sorted[..i + 1][..i] == sorted[..i];
      digestInput := digestInput + sorted[i];
      i := i + 1;
    }
    assert sorted[..i] == sorted;
    var value := ConvertChecksumToString(cat.sha1Digest(digestInput));
    r := VerificationCode(Some(value), skippedFilePaths);
  }

  /** The code does not depend on the order of the checksums; its excluded
    * list is exactly the skipped paths; its value is forty hexadecimal
    * characters when the digest is twenty bytes. */
  lemma CodeOfProperties(xs: seq<string>, ys: seq<string>, skipped: seq<string>, cat: Catalog)
    requires multiset(xs) == multiset(ys)
    ensures CodeOf(xs, skipped, cat) == CodeOf(ys, skipped, cat)
    ensures CodeOf(xs, skipped, cat).excludedFileNames == skipped
    ensures |cat.sha1Digest(ConcatAll(Sort(xs)))| == 20 ==> |CodeOf(xs, skipped, cat).value.value| == 40
  {
    SortOrderIndependent(xs, ys);
    HexStringShape(cat.sha1Digest(ConcatAll(Sort(xs))));
  }

  /** A file entry contributes a checksum when it and its name are present and
    * the name is not skipped. */
  predicate Contributes(f: Option<SpdxFileModel.SpdxFile>, skipped: set<string>)
  {
    f.Some? && f.value.item.name.Some? && f.value.item.name.value !in skipped
  }

  /** The getSha1 values of the contributing files, in order. */
  function Contributions(files: seq<Option<SpdxFileModel.SpdxFile>>, skipped: set<string>): seq<Option<string>>
  {
    if files == [] then []
    else
      var last := files[|files| - 1];
      Contributions(files[..|files| - 1], skipped)
        + (if Contributes(last, skipped) then [GetSha1(last.value.checksums)] else [])
  }

  /** The checksum values, when none is missing. */
  function Values(cs: seq<Option<string>>): (r: Option<seq<string>>)
    ensures r.Some? ==> |r.value| == |cs|
  {
    if cs == [] then Some([])
    else if cs[0].None? then None
    else match Values(cs[1..])
      case None => None
      case Some(vs) => Some([cs[0].value] + vs)
  }

  /** generatePackageVerificationCode(SpdxFile[], String[]): null for a missing
    * file array; otherwise the code of the contributing checksums. A
    * contributing file whose SHA1 checksum has no value makes the sort or
    * the digest fail. */
  function GeneratedCode(files: Option<seq<Option<SpdxFileModel.SpdxFile>>>, skippedFilePaths: seq<string>, cat: Catalog): Option<Result<VerificationCode>>
  {
    if files.None? then None
    else
      match Values(Contributions(files.value, set p | p in skippedFilePaths))
      case None => Some(Err("NullPointerException: a file's SHA1 checksum has no value"))
      case Some(cs) => Some(Ok(CodeOf(cs, skippedFilePaths, cat)))
  }

  method GeneratePackageVerificationCode(files: Option<seq<Option<SpdxFileModel.SpdxFile>>>, skippedFilePaths: seq<string>, cat: Catalog)
    returns (r: Option<Result<VerificationCode>>)
    ensures r == GeneratedCode(files, skippedFilePaths, cat)
  {
    if files.None? {
      return None;
    }
    var skippedFilePathSet: set<string> := {};
    var i := 0;
    while i < |skippedFilePaths|
      invariant 0 <= i <= |skippedFilePaths|
      invariant skippedFilePathSet == set p | p in skippedFilePaths[..i]
    {
      assert skippedFilePaths[..i + 1] == skippedFilePaths[..i] + [skippedFilePaths[i]];
      skippedFilePathSet := skippedFilePathSet + {skippedFilePaths[i]};
      i := i + 1;
    }
    assert skippedFilePaths[..i] == skippedFilePaths;
    var fs := files.value;
    var fileChecksums: seq<Option<string>> := [];
    i := 0;
    while i < |fs|
      invariant 0 <= i <= |fs|
      invariant fileChecksums == Contributions(fs[..i], skippedFilePathSet)
    {
      assert fs[..i + 1][..i] == fs[..i];
      if fs[i].Some? && fs[i].value.item.name.Some? && fs[i].value.item.name.value !in skippedFilePathSet {
        fileChecksums := fileChecksums + [GetSha1(fs[i].value.checksums)];
      }
      i := i + 1;
    }
    assert fs[..i] == fs;
    match Values(fileChecksums)
    case None =>
      r := Some(Err("NullPointerException: a file's SHA1 checksum has no value"));
    case Some(cs) =>
      var code := GenerateFromChecksums(cs, skippedFilePaths, cat);
      r := Some(Ok(code));
  }

  /** Exactly the contributing files give a checksum: one more contributing
    * file adds its getSha1 at the end, any other entry adds nothing. */
  lemma ContributionsSnoc(files: seq<Option<SpdxFileModel.SpdxFile>>, f: Option<SpdxFileModel.SpdxFile>, skipped: set<string>)
    ensures Contributions(files + [f], skipped) ==
      Contributions(files, skipped) + (if Contributes(f, skipped) then [GetSha1(f.value.checksums)] else [])
  {
    assert (files + [f])[..|files|] == files;
  }

  /** A file whose name is skipped contributes nothing, wherever it is. */
  lemma {:induction false} SkippedContributeNothing(files: seq<Option<SpdxFileModel.SpdxFile>>, skipped: set<string>)
    requires forall i :: 0 <= i < |files| ==> files[i].Some? && files[i].value.item.name.Some? && files[i].value.item.name.value in skipped
    ensures Contributions(files, skipped) == []
  {
    if files != [] {
      SkippedContributeNothing(files[..|files| - 1], skipped);
    }
  }
}
