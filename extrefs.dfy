// The package comparer's handling of external references: the order of
// references by reference type and locator, the stable sort by that order,
// and the two merge walks over sorted lists that find the references unique
// to one list and the matching references whose comment or category differ.

module ExternalRefComparison {
  import opened Wrappers
  import opened SpdxTypes
  import JavaStrings
  import ItemComparison

  // ---------------------------------------------------------------- the order

  /** A missing text first, then String.compareTo. */
  function CompareOptional(x: Option<string>, y: Option<string>): int
  {
    match (x, y)
    case (None, None) => 0
    case (None, Some(_)) => -1
    case (Some(_), None) => 1
    case (Some(a), Some(b)) => JavaStrings.CompareTo(a, b)
  }

  lemma CompareOptionalAntisymmetric(x: Option<string>, y: Option<string>)
    ensures CompareOptional(x, y) == -CompareOptional(y, x)
  {
    if x.Some? && y.Some? {
      JavaStrings.CompareToAntisymmetric(x.value, y.value);
    }
  }

  lemma CompareOptionalZeroIffEqual(x: Option<string>, y: Option<string>)
    ensures CompareOptional(x, y) == 0 <==> x == y
  {
    if x.Some? && y.Some? {
      JavaStrings.CompareToZeroIffEqual(x.value, y.value);
    }
  }

  lemma CompareOptionalTransitive(x: Option<string>, y: Option<string>, z: Option<string>)
    requires CompareOptional(x, y) <= 0 && CompareOptional(y, z) <= 0
    ensures CompareOptional(x, z) <= 0
  {
    if x.Some? && y.Some? && z.Some? {
      JavaStrings.CompareToTransitive(x.value, y.value, z.value);
    }
  }

  /** What the comparator looks at: the reference type and the locator. */
  function Key(e: ExternalRef): (Option<string>, Option<string>)
  {
    (e.referenceType, e.locator)
  }

  /** externalRefTypeNameComparator as written: a missing reference type
    * first, then the reference types, then a missing locator first and the
    * locators. A present locator compared with a missing one is passed to
    * String.compareTo and throws. (ReferenceType.compareTo is taken to compare
    * the type URIs, a missing one first.) */
  function CompareByTypeNameAsWritten(a: ExternalRef, b: ExternalRef): (r: Result<int>)
    ensures r.Err? <==> CompareOptional(a.referenceType, b.referenceType) == 0 && a.locator.Some? && b.locator.None?
  {
    if a.referenceType.None? && b.referenceType.Some? then Ok(-1)
    else if a.referenceType.Some? && CompareOptional(a.referenceType, b.referenceType) != 0 then
      Ok(CompareOptional(a.referenceType, b.referenceType))
    else if a.locator.None? then Ok(if b.locator.None? then 0 else -1)
    else if b.locator.None? then Err(ItemComparison.NULL_POINTER)
    else Ok(JavaStrings.CompareTo(a.locator.value, b.locator.value))
  }

  /** The comparator as intended: reference type, then locator, a missing
    * value first in both. */
  function CompareByTypeName(a: ExternalRef, b: ExternalRef): int
  {
    var c := CompareOptional(a.referenceType, b.referenceType);
    if c != 0 then c else CompareOptional(a.locator, b.locator)
  }

  /** Where the comparator as written answers, it answers as intended. */
  lemma AsWrittenAgreesWhenDefined(a: ExternalRef, b: ExternalRef)
    ensures CompareByTypeNameAsWritten(a, b).Ok? ==> CompareByTypeNameAsWritten(a, b).value == CompareByTypeName(a, b)
  {
    CompareOptionalZeroIffEqual(a.referenceType, b.referenceType);
  }

  /** A reference with a locator compared with one without: the comparator as
    * written throws one way round and answers -1 the other way. */
  lemma AsWrittenThrowsOnMissingLocator()
    ensures var a := ExternalRef(None, None, Some("pkg:a"), None);
      var b := ExternalRef(None, None, None, None);
      && CompareByTypeNameAsWritten(a, b) == Err(ItemComparison.NULL_POINTER)
      && CompareByTypeNameAsWritten(b, a) == Ok(-1)
      && CompareByTypeName(a, b) == 1 && CompareByTypeName(b, a) == -1
  {
  }

  lemma CompareAntisymmetric(a: ExternalRef, b: ExternalRef)
    ensures CompareByTypeName(a, b) == -CompareByTypeName(b, a)
  {
    CompareOptionalAntisymmetric(a.referenceType, b.referenceType);
    CompareOptionalAntisymmetric(a.locator, b.locator);
  }

  /** The comparator finds two references equal exactly when their keys are. */
  lemma CompareZeroIffSameKey(a: ExternalRef, b: ExternalRef)
    ensures CompareByTypeName(a, b) == 0 <==> Key(a) == Key(b)
  {
    CompareOptionalZeroIffEqual(a.referenceType, b.referenceType);
    CompareOptionalZeroIffEqual(a.locator, b.locator);
  }

  lemma CompareTransitive(a: ExternalRef, b: ExternalRef, c: ExternalRef)
    requires CompareByTypeName(a, b) <= 0 && CompareByTypeName(b, c) <= 0
    ensures CompareByTypeName(a, c) <= 0
  {
    var ab := CompareOptional(a.referenceType, b.referenceType);
    var bc := CompareOptional(b.referenceType, c.referenceType);
    CompareOptionalTransitive(a.referenceType, b.referenceType, c.referenceType);
    CompareOptionalZeroIffEqual(a.referenceType, b.referenceType);
    CompareOptionalZeroIffEqual(b.referenceType, c.referenceType);
    CompareOptionalZeroIffEqual(a.referenceType, c.referenceType);
    if ab == 0 && bc == 0 {
      CompareOptionalTransitive(a.locator, b.locator, c.locator);
    } else if CompareOptional(a.referenceType, c.referenceType) == 0 {
      // a and c have the same type, so b's type is between equal ones
      CompareOptionalAntisymmetric(a.referenceType, b.referenceType);
      CompareOptionalTransitive(b.referenceType, c.referenceType, a.referenceType);
      CompareOptionalZeroIffEqual(b.referenceType, a.referenceType);
    }
  }

  /** Strictly below then at most: strictly below. */
  lemma CompareStrictTransitive(a: ExternalRef, b: ExternalRef, c: ExternalRef)
    requires CompareByTypeName(a, b) < 0 && CompareByTypeName(b, c) <= 0
    ensures CompareByTypeName(a, c) < 0
  {
    CompareTransitive(a, b, c);
    CompareZeroIffSameKey(a, c);
    CompareAntisymmetric(a, b);
  }

  // ---------------------------------------------------------------- sorting

  ghost predicate SortedByTypeName(s: seq<ExternalRef>)
  {
    forall i, j :: 0 <= i < j < |s| ==> CompareByTypeName(s[i], s[j]) <= 0
  }

  /** x inserted into s after every element not above it. */
  function InsertByTypeName(s: seq<ExternalRef>, x: ExternalRef): seq<ExternalRef>
    decreases |s|
  {
    if s == [] || CompareByTypeName(s[|s| - 1], x) <= 0 then s + [x]
    else InsertByTypeName(s[..|s| - 1], x) + [s[|s| - 1]]
  }

  /** Arrays.sort with the comparator: a stable sort, here insertion sort. */
  function SortByTypeName(s: seq<ExternalRef>): seq<ExternalRef>
    decreases |s|
  {
    if s == [] then [] else InsertByTypeName(SortByTypeName(s[..|s| - 1]), s[|s| - 1])
  }

  /** The keys of a list of references, in order. */
  function KeysOf(s: seq<ExternalRef>): (r: seq<(Option<string>, Option<string>)>)
    ensures |r| == |s|
  {
    seq(|s|, i requires 0 <= i < |s| => Key(s[i]))
  }

  lemma KeysOfAppend(s: seq<ExternalRef>, t: seq<ExternalRef>)
    ensures KeysOf(s + t) == KeysOf(s) + KeysOf(t)
  {
    assert forall i :: 0 <= i < |s + t| ==> KeysOf(s + t)[i] == (KeysOf(s) + KeysOf(t))[i];
  }

  /** Insertion adds x to the list and its key to the keys. */
  lemma InsertPermutes(s: seq<ExternalRef>, x: ExternalRef)
    ensures multiset(InsertByTypeName(s, x)) == multiset(s) + multiset{x}
    ensures multiset(KeysOf(InsertByTypeName(s, x))) == multiset(KeysOf(s)) + multiset{Key(x)}
  {
    InsertAddsElement(s, x);
    InsertAddsKey(s, x);
  }

  lemma {:induction false} InsertAddsElement(s: seq<ExternalRef>, x: ExternalRef)
    ensures multiset(InsertByTypeName(s, x)) == multiset(s) + multiset{x}
    decreases |s|
  {
    if s != [] && CompareByTypeName(s[|s| - 1], x) > 0 {
      var p, l := s[..|s| - 1], s[|s| - 1];
      assert s == p + [l];
      InsertAddsElement(p, x);
    }
  }

  lemma {:induction false} InsertAddsKey(s: seq<ExternalRef>, x: ExternalRef)
    ensures multiset(KeysOf(InsertByTypeName(s, x))) == multiset(KeysOf(s)) + multiset{Key(x)}
    decreases |s|
  {
    if s == [] || CompareByTypeName(s[|s| - 1], x) <= 0 {
      KeysOfSnoc(s, x);
    } else {
      InsertAddsKey(s[..|s| - 1], x);
      KeysOfSnoc(InsertByTypeName(s[..|s| - 1], x), s[|s| - 1]);
      KeysOfLast(s);
    }
  }

  lemma KeysOfSnoc(q: seq<ExternalRef>, l: ExternalRef)
    ensures multiset(KeysOf(q + [l])) == multiset(KeysOf(q)) + multiset{Key(l)}
  {
    KeysOfAppend(q, [l]);
    assert KeysOf([l]) == [Key(l)];
  }

  lemma KeysOfLast(s: seq<ExternalRef>)
    requires s != []
    ensures multiset(KeysOf(s)) == multiset(KeysOf(s[..|s| - 1])) + multiset{Key(s[|s| - 1])}
  {
    assert s == s[..|s| - 1] + [s[|s| - 1]];
    KeysOfSnoc(s[..|s| - 1], s[|s| - 1]);
  }

  lemma {:induction false} InsertSorted(s: seq<ExternalRef>, x: ExternalRef)
    requires SortedByTypeName(s)
    ensures SortedByTypeName(InsertByTypeName(s, x))
    decreases |s|
  {
    if s == [] {
    } else if CompareByTypeName(s[|s| - 1], x) <= 0 {
      forall i | 0 <= i < |s|
        ensures CompareByTypeName(s[i], x) <= 0
      {
        if i < |s| - 1 {
          CompareTransitive(s[i], s[|s| - 1], x);
        }
      }
    } else {
      var p, l := s[..|s| - 1], s[|s| - 1];
      InsertSorted(p, x);
      CompareAntisymmetric(l, x);
      InsertBelow(p, x, l);
    }
  }

  /** Inserting an element below l into a list below l keeps it below l. */
  lemma InsertBelow(p: seq<ExternalRef>, x: ExternalRef, l: ExternalRef)
    requires forall k :: 0 <= k < |p| ==> CompareByTypeName(p[k], l) <= 0
    requires CompareByTypeName(x, l) <= 0
    ensures forall i :: 0 <= i < |InsertByTypeName(p, x)| ==> CompareByTypeName(InsertByTypeName(p, x)[i], l) <= 0
  {
    InsertPermutes(p, x);
    var q := InsertByTypeName(p, x);
    forall i | 0 <= i < |q|
      ensures CompareByTypeName(q[i], l) <= 0
    {
      assert q[i] in multiset(q);
      if q[i] != x {
        assert q[i] in multiset(p);
        var k :| 0 <= k < |p| && p[k] == q[i];
      }
    }
  }

  lemma SortPermutesAndSorts(s: seq<ExternalRef>)
    ensures SortedByTypeName(SortByTypeName(s))
    ensures multiset(SortByTypeName(s)) == multiset(s)
    ensures multiset(KeysOf(SortByTypeName(s))) == multiset(KeysOf(s))
  {
    SortSorts(s);
    SortKeepsElements(s);
    SortKeepsKeys(s);
  }

  lemma {:induction false} SortSorts(s: seq<ExternalRef>)
    ensures SortedByTypeName(SortByTypeName(s))
    decreases |s|
  {
    if s != [] {
      SortSorts(s[..|s| - 1]);
      InsertSorted(SortByTypeName(s[..|s| - 1]), s[|s| - 1]);
    }
  }

  lemma {:induction false} SortKeepsElements(s: seq<ExternalRef>)
    ensures multiset(SortByTypeName(s)) == multiset(s)
    decreases |s|
  {
    if s != [] {
      var p, l := s[..|s| - 1], s[|s| - 1];
      SortKeepsElements(p);
      InsertAddsElement(SortByTypeName(p), l);
      assert s == p + [l];
    }
  }

  lemma {:induction false} SortKeepsKeys(s: seq<ExternalRef>)
    ensures multiset(KeysOf(SortByTypeName(s))) == multiset(KeysOf(s))
    decreases |s|
  {
    if s != [] {
      var p, l := s[..|s| - 1], s[|s| - 1];
      SortKeepsKeys(p);
      InsertAddsKey(SortByTypeName(p), l);
      KeysOfLast(s);
    }
  }

  /** Sorting a sorted list leaves it as it is, so sorting twice is sorting once. */
  lemma {:induction false} SortOfSorted(s: seq<ExternalRef>)
    requires SortedByTypeName(s)
    ensures SortByTypeName(s) == s
    decreases |s|
  {
    if s != [] {
      var p, l := s[..|s| - 1], s[|s| - 1];
      SortedInit(s);
      SortOfSorted(p);
      if p != [] {
        assert CompareByTypeName(p[|p| - 1], l) <= 0 by {
          assert p[|p| - 1] == s[|s| - 2];
        }
      }
      assert s == p + [l];
    }
  }

  lemma SortedInit(s: seq<ExternalRef>)
    requires SortedByTypeName(s) && s != []
    ensures SortedByTypeName(s[..|s| - 1])
  {
    var p := s[..|s| - 1];
    forall i, j | 0 <= i < j < |p|
      ensures CompareByTypeName(p[i], p[j]) <= 0
    {
      assert p[i] == s[i] && p[j] == s[j];
    }
  }

  lemma SortIdempotent(s: seq<ExternalRef>)
    ensures SortByTypeName(SortByTypeName(s)) == SortByTypeName(s)
  {
    SortPermutesAndSorts(s);
    SortOfSorted(SortByTypeName(s));
  }

  /** The element at i inserted into the sorted prefix before it, moving the
    * elements above it one place up. */
  method InsertAt(a: array<ExternalRef>, i: nat)
    requires i < a.Length
    modifies a
    ensures a[..i + 1] == InsertByTypeName(old(a[..i]), old(a[i]))
    ensures a[i + 1..] == old(a[i + 1..])
  {
    ghost var s0 := a[..];
    var x := a[i];
    var j := i;
    while j > 0 && CompareByTypeName(a[j - 1], x) > 0
      invariant 0 <= j <= i
      invariant a[..j] == s0[..j]
      invariant a[i + 1..] == s0[i + 1..]
      invariant InsertByTypeName(s0[..i], x) == InsertByTypeName(a[..j], x) + a[j + 1..i + 1]
    {
      ghost var p, rest := a[..j], a[j + 1..i + 1];
      InsertShift(p, x, rest);
      a[j] := a[j - 1];
      assert a[..j - 1] == p[..j - 1];
      assert a[j..i + 1] == [p[j - 1]] + rest;
      j := j - 1;
    }
    ghost var before, after := a[..j], a[j + 1..i + 1];
    assert InsertByTypeName(before, x) == before + [x];
    a[j] := x;
    assert a[..i + 1] == before + [x] + after;
  }

  /** One step of the shift: an element above x moves past it. */
  lemma InsertShift(p: seq<ExternalRef>, x: ExternalRef, rest: seq<ExternalRef>)
    requires p != [] && CompareByTypeName(p[|p| - 1], x) > 0
    ensures InsertByTypeName(p, x) + rest == InsertByTypeName(p[..|p| - 1], x) + ([p[|p| - 1]] + rest)
  {
  }

  /** Arrays.sort(refs, externalRefTypeNameComparator), in place. */
  method SortExternalRefs(a: array<ExternalRef>)
    modifies a
    ensures a[..] == SortByTypeName(old(a[..]))
  {
    var i := 0;
    while i < a.Length
      invariant 0 <= i <= a.Length
      invariant a[..i] == SortByTypeName(old(a[..])[..i])
      invariant a[i..] == old(a[..])[i..]
    {
      assert old(a[..])[..i + 1][..i] == old(a[..])[..i];
      assert a[i] == old(a[..])[i];
      InsertAt(a, i);
      assert old(a[..])[..i + 1] == old(a[..])[..i] + [old(a[..])[i]];
      i := i + 1;
    }
    assert old(a[..])[..a.Length] == old(a[..]);
  }

  // ---------------------------------------------------------------- findUniqueExternalRefs

  /** The merge walk of findUniqueExternalRefs: once b is exhausted the rest
    * of a is kept; equal heads are both skipped; the smaller head of b is
    * skipped and the smaller head of a kept. */
  function UniqueRefs(a: seq<ExternalRef>, b: seq<ExternalRef>): seq<ExternalRef>
    decreases |a| + |b|
  {
    if a == [] then []
    else if b == [] then a
    else
      var c := CompareByTypeName(a[0], b[0]);
      if c == 0 then UniqueRefs(a[1..], b[1..])
      else if c > 0 then UniqueRefs(a, b[1..])
      else [a[0]] + UniqueRefs(a[1..], b)
  }

  method FindUniqueExternalRefs(a: seq<ExternalRef>, b: seq<ExternalRef>) returns (r: seq<ExternalRef>)
    ensures r == UniqueRefs(a, b)
  {
    r := [];
    var i, j := 0, 0;
    assert a[0..] == a && b[0..] == b;
    while i < |a|
      invariant 0 <= i <= |a| && 0 <= j <= |b|
      invariant r + UniqueRefs(a[i..], b[j..]) == UniqueRefs(a, b)
      decreases |a| - i + |b| - j
    {
      assert a[i..][1..] == a[i + 1..];
      if j >= |b| {
        assert a[i..] == [a[i]] + a[i + 1..];
        r, i := r + [a[i]], i + 1;
      } else {
        assert b[j..][1..] == b[j + 1..];
        var c := CompareByTypeName(a[i], b[j]);
        assert UniqueRefs(a[i..], b[j..]) == if c == 0 then UniqueRefs(a[i + 1..], b[j + 1..])
          else if c > 0 then UniqueRefs(a[i..], b[j + 1..]) else [a[i]] + UniqueRefs(a[i + 1..], b[j..]);
        if c == 0 {
          i, j := i + 1, j + 1;
        } else if c > 0 {
          j := j + 1;
        } else {
          r, i := r + [a[i]], i + 1;
        }
      }
    }
  }

  /** s occurs in t, in order, possibly with gaps. */
  ghost predicate SubsequenceOf(s: seq<ExternalRef>, t: seq<ExternalRef>)
    decreases |t|
  {
    s == [] || (t != [] && ((s[0] == t[0] && SubsequenceOf(s[1..], t[1..])) || SubsequenceOf(s, t[1..])))
  }

  /** What is unique to a is taken from a, in a's order, and is all of a when
    * b is empty. */
  lemma {:induction false} UniqueRefsWithin(a: seq<ExternalRef>, b: seq<ExternalRef>)
    ensures SubsequenceOf(UniqueRefs(a, b), a)
    ensures multiset(UniqueRefs(a, b)) <= multiset(a) && |UniqueRefs(a, b)| <= |a|
    ensures b == [] ==> UniqueRefs(a, b) == a
    decreases |a| + |b|
  {
    if a == [] {
    } else if b == [] {
      SubsequenceOfSelf(a);
    } else {
      assert a == [a[0]] + a[1..];
      var c := CompareByTypeName(a[0], b[0]);
      if c == 0 {
        UniqueRefsWithin(a[1..], b[1..]);
      } else if c > 0 {
        UniqueRefsWithin(a, b[1..]);
      } else {
        UniqueRefsWithin(a[1..], b);
        assert UniqueRefs(a, b)[1..] == UniqueRefs(a[1..], b);
      }
    }
  }

  lemma {:induction false} SubsequenceOfSelf(s: seq<ExternalRef>)
    ensures SubsequenceOf(s, s)
    decreases |s|
  {
    if s != [] {
      SubsequenceOfSelf(s[1..]);
    }
  }

  /** A list has nothing unique with respect to itself. */
  lemma {:induction false} UniqueRefsOfSelf(a: seq<ExternalRef>)
    ensures UniqueRefs(a, a) == []
    decreases |a|
  {
    if a != [] {
      CompareZeroIffSameKey(a[0], a[0]);
      UniqueRefsOfSelf(a[1..]);
    }
  }

  lemma KeyAbsent(s: seq<ExternalRef>, k: (Option<string>, Option<string>))
    requires forall i :: 0 <= i < |s| ==> Key(s[i]) != k
    ensures k !in multiset(KeysOf(s))
  {
  }

  /** An element strictly below the head of a sorted list has a key none of
    * the list's elements has. */
  lemma KeyBelowSorted(s: seq<ExternalRef>, x: ExternalRef)
    requires SortedByTypeName(s) && s != [] && CompareByTypeName(x, s[0]) < 0
    ensures Key(x) !in multiset(KeysOf(s))
  {
    forall i | 0 <= i < |s|
      ensures Key(s[i]) != Key(x)
    {
      CompareZeroIffSameKey(s[0], s[0]);
      CompareStrictTransitive(x, s[0], s[i]);
      CompareZeroIffSameKey(x, s[i]);
    }
    KeyAbsent(s, Key(x));
  }

  lemma MultisetCancel<K>(x: multiset<K>, y: multiset<K>, k: K)
    ensures (x + multiset{k}) - (y + multiset{k}) == x - y
  {
    assert forall z :: ((x + multiset{k}) - (y + multiset{k}))[z] == (x - y)[z];
  }

  lemma MultisetTakeAbsent<K>(x: multiset<K>, y: multiset<K>, k: K)
    requires k !in x
    ensures x - (y + multiset{k}) == x - y
  {
    assert forall z :: (x - (y + multiset{k}))[z] == (x - y)[z];
  }

  lemma MultisetKeepAbsent<K>(x: multiset<K>, y: multiset<K>, k: K)
    requires k !in y
    ensures (x + multiset{k}) - y == (x - y) + multiset{k}
  {
    assert forall z :: ((x + multiset{k}) - y)[z] == ((x - y) + multiset{k})[z];
  }

  /** The key multiset of a non-empty list: its head's key and its tail's. */
  lemma KeysOfCons(s: seq<ExternalRef>)
    requires s != []
    ensures multiset(KeysOf(s)) == multiset(KeysOf(s[1..])) + multiset{Key(s[0])}
  {
    assert s == [s[0]] + s[1..];
    KeysOfAppend([s[0]], s[1..]);
    assert KeysOf([s[0]]) == [Key(s[0])];
  }

  lemma SortedTail(s: seq<ExternalRef>)
    requires SortedByTypeName(s) && s != []
    ensures SortedByTypeName(s[1..])
  {
    forall i, j | 0 <= i < j < |s| - 1
      ensures CompareByTypeName(s[1..][i], s[1..][j]) <= 0
    {
      assert s[1..][i] == s[i + 1] && s[1..][j] == s[j + 1];
    }
  }

  /** On lists sorted by the comparator, the keys of what findUniqueExternalRefs
    * keeps are those of a less those of b, counted with multiplicity. */
  lemma {:induction false} UniqueRefsDifference(a: seq<ExternalRef>, b: seq<ExternalRef>)
    requires SortedByTypeName(a) && SortedByTypeName(b)
    ensures multiset(KeysOf(UniqueRefs(a, b))) == multiset(KeysOf(a)) - multiset(KeysOf(b))
    decreases |a| + |b|
  {
    if a != [] && b != [] {
      KeysOfCons(a);
      KeysOfCons(b);
      var c := CompareByTypeName(a[0], b[0]);
      if c == 0 {
        CompareZeroIffSameKey(a[0], b[0]);
        SortedTail(a);
        SortedTail(b);
        UniqueRefsDifference(a[1..], b[1..]);
        MultisetCancel(multiset(KeysOf(a[1..])), multiset(KeysOf(b[1..])), Key(a[0]));
      } else if c > 0 {
        CompareAntisymmetric(a[0], b[0]);
        KeyBelowSorted(a, b[0]);
        SortedTail(b);
        UniqueRefsDifference(a, b[1..]);
        MultisetTakeAbsent(multiset(KeysOf(a)), multiset(KeysOf(b[1..])), Key(b[0]));
      } else {
        KeyBelowSorted(b, a[0]);
        SortedTail(a);
        UniqueRefsDifference(a[1..], b);
        KeysOfCons(UniqueRefs(a, b));
        assert UniqueRefs(a, b)[1..] == UniqueRefs(a[1..], b);
        MultisetKeepAbsent(multiset(KeysOf(a[1..])), multiset(KeysOf(b)), Key(a[0]));
      }
    }
  }

  // ---------------------------------------------------------------- findExternalRefDifferences

  /** Two references with the same type and locator whose comment or category differ. */
  datatype ExternalRefDifference = ExternalRefDifference(refA: ExternalRef, refB: ExternalRef)

  /** Whether two matching references differ in comment or category. */
  predicate Differ(x: ExternalRef, y: ExternalRef)
  {
    x.comment != y.comment || x.category != y.category
  }

  /** The merge walk of findExternalRefDifferences: while both lists last,
    * equal heads are reported when they differ and both skipped, and the
    * smaller head is skipped. */
  function RefDifferences(a: seq<ExternalRef>, b: seq<ExternalRef>): seq<ExternalRefDifference>
    decreases |a| + |b|
  {
    if a == [] || b == [] then []
    else
      var c := CompareByTypeName(a[0], b[0]);
      if c == 0 then
        (if Differ(a[0], b[0]) then [ExternalRefDifference(a[0], b[0])] else []) + RefDifferences(a[1..], b[1..])
      else if c > 0 then RefDifferences(a, b[1..])
      else RefDifferences(a[1..], b)
  }

  method WalkDifferences(a: seq<ExternalRef>, b: seq<ExternalRef>) returns (r: seq<ExternalRefDifference>)
    ensures r == RefDifferences(a, b)
  {
    r := [];
    var i, j := 0, 0;
    assert a[0..] == a && b[0..] == b;
    while i < |a| && j < |b|
      invariant 0 <= i <= |a| && 0 <= j <= |b|
      invariant r + RefDifferences(a[i..], b[j..]) == RefDifferences(a, b)
      decreases |a| - i + |b| - j
    {
      assert a[i..][1..] == a[i + 1..] && b[j..][1..] == b[j + 1..];
      var c := CompareByTypeName(a[i], b[j]);
      if c == 0 {
        if Differ(a[i], b[j]) {
          r := r + [ExternalRefDifference(a[i], b[j])];
        }
        i, j := i + 1, j + 1;
      } else if c > 0 {
        j := j + 1;
      } else {
        i := i + 1;
      }
    }
  }

  /** findExternalRefDifferences: both arrays sorted in place by the
    * comparator, then walked. */
  method FindExternalRefDifferences(a: array<ExternalRef>, b: array<ExternalRef>) returns (r: seq<ExternalRefDifference>)
    modifies a, b
    ensures a[..] == SortByTypeName(old(a[..])) && b[..] == SortByTypeName(old(b[..]))
    ensures r == RefDifferences(a[..], b[..])
  {
    SortExternalRefs(a);
    SortExternalRefs(b);
    if a == b {
      SortIdempotent(old(a[..]));
    }
    r := WalkDifferences(a[..], b[..]);
  }

  /** Every difference reported pairs an element of a with an element of b of
    * the same key that differs from it, and there are no more of them than
    * elements in either list. */
  lemma {:induction false} RefDifferencesSound(a: seq<ExternalRef>, b: seq<ExternalRef>)
    ensures |RefDifferences(a, b)| <= |a| && |RefDifferences(a, b)| <= |b|
    ensures forall d :: d in RefDifferences(a, b) ==>
      d.refA in a && d.refB in b && Key(d.refA) == Key(d.refB) && Differ(d.refA, d.refB)
    decreases |a| + |b|
  {
    if a != [] && b != [] {
      var c := CompareByTypeName(a[0], b[0]);
      if c == 0 {
        CompareZeroIffSameKey(a[0], b[0]);
        RefDifferencesSound(a[1..], b[1..]);
      } else if c > 0 {
        RefDifferencesSound(a, b[1..]);
      } else {
        RefDifferencesSound(a[1..], b);
      }
    }
  }

  /** A list compared with itself reports no difference. */
  lemma {:induction false} RefDifferencesOfSelf(a: seq<ExternalRef>)
    ensures RefDifferences(a, a) == []
    decreases |a|
  {
    if a != [] {
      CompareZeroIffSameKey(a[0], a[0]);
      RefDifferencesOfSelf(a[1..]);
    }
  }

  /** No two elements with the same key, in the comparator's order. */
  ghost predicate StrictlySortedByTypeName(s: seq<ExternalRef>)
  {
    forall i, j :: 0 <= i < j < |s| ==> CompareByTypeName(s[i], s[j]) < 0
  }

  /** On lists sorted with no key repeated, every pair of same-key references
    * that differ is reported. */
  lemma {:induction false} RefDifferencesComplete(a: seq<ExternalRef>, b: seq<ExternalRef>, i: nat, j: nat)
    requires StrictlySortedByTypeName(a) && StrictlySortedByTypeName(b)
    requires i < |a| && j < |b| && Key(a[i]) == Key(b[j]) && Differ(a[i], b[j])
    ensures ExternalRefDifference(a[i], b[j]) in RefDifferences(a, b)
    decreases |a| + |b|
  {
    var c := CompareByTypeName(a[0], b[0]);
    if i > 0 {
      CompareZeroIffSameKey(a[0], a[i]);
    }
    if j > 0 {
      CompareZeroIffSameKey(b[0], b[j]);
    }
    CompareZeroIffSameKey(a[0], b[0]);
    if c == 0 {
      if i > 0 || j > 0 {
        assert i > 0 && j > 0;
        RefDifferencesComplete(a[1..], b[1..], i - 1, j - 1);
      }
    } else if c > 0 {
      assert j > 0;
      RefDifferencesComplete(a, b[1..], i, j - 1);
    } else {
      CompareAntisymmetric(a[0], b[0]);
      assert i > 0;
      RefDifferencesComplete(a[1..], b, i - 1, j);
    }
  }

  // ---------------------------------------------------------------- as the package comparer uses them

  /** What the package comparer finds unique to a against b: both sorted by
    * the comparator, then walked. */
  function SortedUniqueRefs(a: seq<ExternalRef>, b: seq<ExternalRef>): seq<ExternalRef>
  {
    UniqueRefs(SortByTypeName(a), SortByTypeName(b))
  }

  /** What the package comparer reports as differing between a and b. */
  function SortedRefDifferences(a: seq<ExternalRef>, b: seq<ExternalRef>): seq<ExternalRefDifference>
  {
    RefDifferences(SortByTypeName(a), SortByTypeName(b))
  }

  /** The references found unique to a are references of a whose keys are a's
    * less b's, counted with multiplicity: nothing when a and b hold the same
    * keys, all of a when b is empty. */
  lemma SortedUniqueRefsMeaning(a: seq<ExternalRef>, b: seq<ExternalRef>)
    ensures multiset(KeysOf(SortedUniqueRefs(a, b))) == multiset(KeysOf(a)) - multiset(KeysOf(b))
    ensures multiset(SortedUniqueRefs(a, b)) <= multiset(a)
    ensures SortedUniqueRefs(a, []) == SortByTypeName(a)
  {
    SortPermutesAndSorts(a);
    SortPermutesAndSorts(b);
    UniqueRefsDifference(SortByTypeName(a), SortByTypeName(b));
    UniqueRefsWithin(SortByTypeName(a), SortByTypeName(b));
  }

  /** The differences reported between a and b pair a reference of a with a
    * reference of b of the same key that differs from it in comment or
    * category; a list compared with itself reports none. */
  lemma SortedRefDifferencesMeaning(a: seq<ExternalRef>, b: seq<ExternalRef>)
    ensures forall d :: d in SortedRefDifferences(a, b) ==>
      d.refA in a && d.refB in b && Key(d.refA) == Key(d.refB) && Differ(d.refA, d.refB)
    ensures SortedRefDifferences(a, a) == []
  {
    SortPermutesAndSorts(a);
    SortPermutesAndSorts(b);
    RefDifferencesSound(SortByTypeName(a), SortByTypeName(b));
    RefDifferencesOfSelf(SortByTypeName(a));
    forall d | d in SortedRefDifferences(a, b)
      ensures d.refA in a && d.refB in b
    {
      assert d.refA in multiset(SortByTypeName(a)) && d.refB in multiset(SortByTypeName(b));
    }
  }
}
