/** The java.lang.String and java.lang.Integer operations the SPDX code relies
  * on, with Java's exact edge cases: trim, split on one character, replace,
  * compareTo, parseInt and the decimal rendering of an int. Characters are
  * compared by code point; case mapping is restricted to ASCII letters. */
module JavaStrings {
  import opened Wrappers

  const INT_MIN: int := -0x8000_0000
  const INT_MAX: int := 0x7FFF_FFFF

  predicate InInt32(n: int) { INT_MIN <= n <= INT_MAX }

  /** Two's-complement 32-bit wrap-around of an int result. */
  function Wrap32(n: int): (r: int)
    ensures InInt32(r)
    ensures InInt32(n) ==> r == n
    ensures n == INT_MAX + 1 ==> r == INT_MIN
  {
    (n - INT_MIN) % 0x1_0000_0000 + INT_MIN
  }

  // ---------------------------------------------------------------- trim

  /** A character String.trim removes: anything at or below U+0020. */
  predicate IsTrimmable(c: char) { c <= ' ' }

  function TrimStart(s: string): (r: string)
    ensures |r| <= |s| && r == s[|s| - |r|..]
    ensures forall k :: 0 <= k < |s| - |r| ==> IsTrimmable(s[k])
    ensures r == [] || !IsTrimmable(r[0])
    decreases |s|
  {
    if |s| > 0 && IsTrimmable(s[0]) then TrimStart(s[1..]) else s
  }

  function TrimEnd(s: string): (r: string)
    ensures |r| <= |s| && r == s[..|r|]
    ensures forall k :: |r| <= k < |s| ==> IsTrimmable(s[k])
    ensures r == [] || !IsTrimmable(r[|r| - 1])
    decreases |s|
  {
    if |s| > 0 && IsTrimmable(s[|s| - 1]) then TrimEnd(s[..|s| - 1]) else s
  }

  /** String.trim: no trimmable character at either end. */
  predicate IsTrimmed(s: string)
  {
    s == [] || (!IsTrimmable(s[0]) && !IsTrimmable(s[|s| - 1]))
  }

  function Trim(s: string): (r: string)
    ensures IsTrimmed(r)
    ensures |r| <= |s|
    ensures forall c :: c in r ==> c in s
  {
    var t := TrimStart(s);
    var r := TrimEnd(t);
    assert r == [] || r[|r| - 1] == t[|r| - 1];
    r
  }

  lemma TrimStartOfUntrimmable(s: string)
    requires s == [] || !IsTrimmable(s[0])
    ensures TrimStart(s) == s
  {
  }

  lemma TrimEndOfUntrimmable(s: string)
    requires s == [] || !IsTrimmable(s[|s| - 1])
    ensures TrimEnd(s) == s
  {
  }

  /** A trimmed string is left alone by Trim. */
  lemma TrimIdempotent(s: string)
    requires IsTrimmed(s)
    ensures Trim(s) == s
  {
    TrimStartOfUntrimmable(s);
    TrimEndOfUntrimmable(s);
  }

  /** Trimmable padding on either side is removed by Trim. */
  lemma {:induction false} TrimStartPadding(pad: string, s: string)
    requires forall k :: 0 <= k < |pad| ==> IsTrimmable(pad[k])
    requires s == [] || !IsTrimmable(s[0])
    ensures TrimStart(pad + s) == s
    decreases |pad|
  {
    if pad == [] {
      assert pad + s == s;
      TrimStartOfUntrimmable(s);
    } else {
      assert (pad + s)[1..] == pad[1..] + s;
      TrimStartPadding(pad[1..], s);
    }
  }

  lemma {:induction false} TrimEndPadding(s: string, pad: string)
    requires forall k :: 0 <= k < |pad| ==> IsTrimmable(pad[k])
    requires s == [] || !IsTrimmable(s[|s| - 1])
    ensures TrimEnd(s + pad) == s
    decreases |pad|
  {
    if pad == [] {
      assert s + pad == s;
      TrimEndOfUntrimmable(s);
    } else {
      assert (s + pad)[..|s + pad| - 1] == s + pad[..|pad| - 1];
      TrimEndPadding(s, pad[..|pad| - 1]);
    }
  }

  lemma TrimLeadingSpace(s: string)
    requires IsTrimmed(s)
    ensures Trim(" " + s) == s
  {
    TrimStartPadding(" ", s);
    TrimEndOfUntrimmable(s);
  }

  // ---------------------------------------------------------------- split / join

  /** All pieces of s between occurrences of c (the separators themselves dropped). */
  function Pieces(s: string, c: char): (r: seq<string>)
    ensures |r| >= 1
    ensures JoinWith(r, [c]) == s
    ensures forall i :: 0 <= i < |r| ==> c !in r[i]
    decreases |s|
  {
    if |s| == 0 then [""]
    else
      var rest := Pieces(s[1..], c);
      if s[0] == c then
        assert JoinWith([""] + rest, [c]) == "" + [c] + JoinWith(rest, [c]);
        [""] + rest
      else
        var r := [[s[0]] + rest[0]] + rest[1..];
        assert r[1..] == rest[1..];
        JoinWithFirst(rest, [c]);
        JoinWithFirst(r, [c]);
        r
  }

  /** String.join(sep, parts). */
  function JoinWith(parts: seq<string>, sep: string): string
  {
    if |parts| == 0 then ""
    else if |parts| == 1 then parts[0]
    else parts[0] + sep + JoinWith(parts[1..], sep)
  }

  lemma JoinWithFirst(parts: seq<string>, sep: string)
    requires |parts| >= 1
    ensures JoinWith(parts, sep) == parts[0] + (if |parts| == 1 then "" else sep + JoinWith(parts[1..], sep))
  {
  }

  /** Appending one part to a join adds the separator and the part. */
  lemma JoinWithSnoc(parts: seq<string>, x: string, sep: string)
    ensures JoinWith(parts + [x], sep) == if parts == [] then x else JoinWith(parts, sep) + sep + x
    decreases |parts|
  {
    if |parts| > 1 {
      assert (parts + [x])[1..] == parts[1..] + [x];
      JoinWithSnoc(parts[1..], x, sep);
    }
  }

  /** Cutting a join of separator-free parts at the separator gives the parts back. */
  lemma {:induction false} PiecesOfJoin(parts: seq<string>, c: char)
    requires |parts| >= 1
    requires forall i :: 0 <= i < |parts| ==> c !in parts[i]
    ensures Pieces(JoinWith(parts, [c]), c) == parts
    decreases |parts|, |parts[0]|
  {
    var s := JoinWith(parts, [c]);
    if |parts[0]| == 0 {
      if |parts| == 1 {
      } else {
        assert s == [c] + JoinWith(parts[1..], [c]);
        assert s[1..] == JoinWith(parts[1..], [c]);
        PiecesOfJoin(parts[1..], c);
        assert [""] + parts[1..] == parts;
      }
    } else {
      var p0 := parts[0];
      var shorter := [p0[1..]] + parts[1..];
      assert shorter[1..] == parts[1..];
      JoinWithFirst(shorter, [c]);
      JoinWithFirst(parts, [c]);
      assert s == [p0[0]] + JoinWith(shorter, [c]);
      assert s[1..] == JoinWith(shorter, [c]);
      assert s[0] == p0[0] && p0[0] != c;
      forall i | 0 <= i < |shorter| ensures c !in shorter[i] {
        if i == 0 {
          assert forall x :: x in p0[1..] ==> x in p0;
        } else {
          assert shorter[i] == parts[i];
        }
      }
      PiecesOfJoin(shorter, c);
      var rest := Pieces(s[1..], c);
      assert rest == shorter;
      assert [p0[0]] + p0[1..] == p0;
      assert [[s[0]] + rest[0]] + rest[1..] == parts;
      assert Pieces(s, c) == [[s[0]] + rest[0]] + rest[1..];
    }
  }

  /** Removes every trailing empty string, as split with limit 0 does. */
  function DropTrailingEmpty(parts: seq<string>): (r: seq<string>)
    ensures |r| <= |parts| && r == parts[..|r|]
    ensures r == [] || r[|r| - 1] != ""
    ensures forall i :: |r| <= i < |parts| ==> parts[i] == ""
  {
    if |parts| > 0 && parts[|parts| - 1] == "" then DropTrailingEmpty(parts[..|parts| - 1]) else parts
  }

  /** String.split with a one-character literal separator: when the separator
    * does not occur the result is the whole string (even the empty one);
    * otherwise the pieces with the trailing empty ones removed. */
  function Split(s: string, c: char): seq<string>
  {
    if c !in s then [s] else DropTrailingEmpty(Pieces(s, c))
  }

  function TrimAll(parts: seq<string>): (r: seq<string>)
    ensures |r| == |parts|
    ensures forall i :: 0 <= i < |r| ==> r[i] == Trim(parts[i])
  {
    if parts == [] then [] else [Trim(parts[0])] + TrimAll(parts[1..])
  }

  // ---------------------------------------------------------------- search / replace

  function IndexOf(s: string, c: char): (r: int)
    ensures -1 <= r < |s|
    ensures r == -1 <==> c !in s
    ensures r >= 0 ==> s[r] == c && c !in s[..r]
  {
    if |s| == 0 then -1
    else if s[0] == c then 0
    else
      var k := IndexOf(s[1..], c);
      assert s[1..] == s[..|s|][1..];
      if k == -1 then -1
      else
        assert s[..k + 1] == [s[0]] + s[1..][..k];
        k + 1
  }

  /** String.replace(CharSequence, CharSequence) (and replaceAll with a pattern
    * free of regex metacharacters): occurrences found left to right, not
    * overlapping, each replaced once. */
  function ReplaceAll(s: string, pat: string, rep: string): string
    requires |pat| > 0
    decreases |s|
  {
    if |s| == 0 then ""
    else if pat <= s then rep + ReplaceAll(s[|pat|..], pat, rep)
    else [s[0]] + ReplaceAll(s[1..], pat, rep)
  }

  /** Replacing a character by a different one leaves none of it behind, and
    * every other character is kept. */
  lemma {:induction false} ReplaceCharRemoves(s: string, a: char, b: char)
    requires a != b
    ensures a !in ReplaceAll(s, [a], [b])
    ensures |ReplaceAll(s, [a], [b])| == |s|
    ensures forall k :: 0 <= k < |s| ==> ReplaceAll(s, [a], [b])[k] == (if s[k] == a then b else s[k])
    decreases |s|
  {
    if |s| > 0 {
      ReplaceCharRemoves(s[1..], a, b);
      if [a] <= s {
        assert s[|[a]|..] == s[1..];
      }
    }
  }

  /** Deleting every occurrence of a pattern never lengthens the text and
    * introduces no character. */
  lemma {:induction false} ReplaceAllShrinks(s: string, pat: string)
    requires |pat| > 0
    ensures |ReplaceAll(s, pat, "")| <= |s|
    ensures forall c :: c in ReplaceAll(s, pat, "") ==> c in s
    decreases |s|
  {
    if |s| > 0 {
      if pat <= s {
        ReplaceAllShrinks(s[|pat|..], pat);
        assert forall c :: c in s[|pat|..] ==> c in s;
      } else {
        ReplaceAllShrinks(s[1..], pat);
        assert forall c :: c in s[1..] ==> c in s;
      }
    }
  }

  /** pat occurs in s starting at index k. */
  predicate OccursAt(s: string, pat: string, k: nat)
  {
    k + |pat| <= |s| && s[k..k + |pat|] == pat
  }

  lemma {:induction false} ReplaceAbsent(s: string, pat: string, rep: string)
    requires |pat| > 0
    requires forall k: nat :: !OccursAt(s, pat, k)
    ensures ReplaceAll(s, pat, rep) == s
    decreases |s|
  {
    if |s| > 0 {
      assert !OccursAt(s, pat, 0);
      forall k: nat
        ensures !OccursAt(s[1..], pat, k)
      {
        assert !OccursAt(s, pat, k + 1);
        if k + |pat| <= |s[1..]| {
          assert s[1..][k..k + |pat|] == s[k + 1..k + 1 + |pat|];
        }
      }
      ReplaceAbsent(s[1..], pat, rep);
    }
  }

  // ---------------------------------------------------------------- comparison

  /** String.compareTo: difference of the first differing characters, or of
    * the lengths when one string is a prefix of the other. */
  function CompareTo(a: string, b: string): int
    decreases |a|
  {
    if |a| == 0 || |b| == 0 then |a| - |b|
    else if a[0] != b[0] then a[0] as int - b[0] as int
    else CompareTo(a[1..], b[1..])
  }

  lemma {:induction false} CompareToAntisymmetric(a: string, b: string)
    ensures CompareTo(a, b) == -CompareTo(b, a)
    decreases |a|
  {
    if |a| > 0 && |b| > 0 && a[0] == b[0] {
      CompareToAntisymmetric(a[1..], b[1..]);
    }
  }

  lemma {:induction false} CompareToZeroIffEqual(a: string, b: string)
    ensures CompareTo(a, b) == 0 <==> a == b
    decreases |a|
  {
    if |a| > 0 && |b| > 0 && a[0] == b[0] {
      CompareToZeroIffEqual(a[1..], b[1..]);
      if a[1..] == b[1..] {
        assert a == [a[0]] + a[1..] && b == [b[0]] + b[1..];
      }
    }
  }

  /** The order compareTo defines is transitive. */
  lemma {:induction false} CompareToTransitive(a: string, b: string, c: string)
    requires CompareTo(a, b) <= 0 && CompareTo(b, c) <= 0
    ensures CompareTo(a, c) <= 0
    decreases |a|
  {
    if |a| > 0 && |b| > 0 && |c| > 0 && a[0] == b[0] && b[0] == c[0] {
      CompareToTransitive(a[1..], b[1..], c[1..]);
    }
  }

  function ToUpperChar(c: char): char
  {
    if 'a' <= c <= 'z' then (c as int - 32) as char else c
  }

  function ToLowerChar(c: char): char
  {
    if 'A' <= c <= 'Z' then (c as int + 32) as char else c
  }

  /** String.toUpperCase, on ASCII letters. */
  function ToUpper(s: string): (r: string)
    ensures |r| == |s|
    ensures forall k :: 0 <= k < |s| ==> r[k] == ToUpperChar(s[k])
  {
    if s == [] then [] else [ToUpperChar(s[0])] + ToUpper(s[1..])
  }

  /** String.compareToIgnoreCase: at each position the characters, if
    * different, are compared again upper-cased and then lower-cased. */
  function CompareToIgnoreCase(a: string, b: string): int
    decreases |a|
  {
    if |a| == 0 || |b| == 0 then |a| - |b|
    else
      var c1 := a[0];
      var c2 := b[0];
      if c1 != c2 && ToUpperChar(c1) != ToUpperChar(c2)
         && ToLowerChar(ToUpperChar(c1)) != ToLowerChar(ToUpperChar(c2))
      then ToLowerChar(ToUpperChar(c1)) as int - ToLowerChar(ToUpperChar(c2)) as int
      else CompareToIgnoreCase(a[1..], b[1..])
  }

  lemma {:induction false} CompareToIgnoreCaseAntisymmetric(a: string, b: string)
    ensures CompareToIgnoreCase(a, b) == -CompareToIgnoreCase(b, a)
    decreases |a|
  {
    if |a| > 0 && |b| > 0 {
      CompareToIgnoreCaseAntisymmetric(a[1..], b[1..]);
    }
  }

  /** Strings that differ only in the case of ASCII letters compare equal. */
  lemma {:induction false} CompareToIgnoreCaseOfUpper(a: string)
    ensures CompareToIgnoreCase(a, ToUpper(a)) == 0
    decreases |a|
  {
    if |a| > 0 {
      assert ToUpper(a)[1..] == ToUpper(a[1..]);
      CompareToIgnoreCaseOfUpper(a[1..]);
    }
  }

  // ---------------------------------------------------------------- integers

  predicate IsDigit(c: char) { '0' <= c <= '9' }

  predicate AllDigits(s: string) { forall k :: 0 <= k < |s| ==> IsDigit(s[k]) }

  /** The value of a string of decimal digits (most significant first). */
  function DigitsValue(s: string): nat
    requires AllDigits(s)
    decreases |s|
  {
    if |s| == 0 then 0
    else DigitsValue(s[..|s| - 1]) * 10 + (s[|s| - 1] as int - '0' as int)
  }

  /** Integer.parseInt(s) in radix 10: an optional sign, at least one digit,
    * and a value that fits in 32 bits; anything else is a NumberFormatException. */
  function ParseInt(s: string): Option<int>
  {
    if |s| == 0 then None
    else
      var negative := s[0] == '-';
      var body := if s[0] == '-' || s[0] == '+' then s[1..] else s;
      if |body| == 0 || !AllDigits(body) then None
      else
        var d: int := DigitsValue(body);
        var v := if negative then 0 - d else d;
        if InInt32(v) then Some(v) else None
  }

  /** The decimal digits of a natural number, no leading zeros. */
  function NatToString(n: nat): (r: string)
    ensures |r| >= 1 && AllDigits(r)
    ensures DigitsValue(r) == n
    ensures n > 0 ==> r[0] != '0'
    decreases n
  {
    if n < 10 then
      var r := [('0' as int + n) as char];
      assert r[..0] == [];
      r
    else
      var prefix := NatToString(n / 10);
      var r := prefix + [('0' as int + n % 10) as char];
      assert r[..|r| - 1] == prefix;
      r
  }

  /** String.valueOf(int). */
  function IntToString(n: int): string
  {
    if n < 0 then "-" + NatToString(-n) else NatToString(n)
  }

  /** parseInt reads back what valueOf writes, for every 32-bit value. */
  lemma IntToStringRoundTrip(n: int)
    requires InInt32(n)
    ensures ParseInt(IntToString(n)) == Some(n)
  {
    if n < 0 {
      var d := NatToString(-n);
      assert ("-" + d)[1..] == d;
    }
  }
}
