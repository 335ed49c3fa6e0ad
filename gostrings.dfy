/**
 * The parts of Go's `strings` and `strconv` packages that the core relies on,
 * over Dafny strings. Go compares and slices strings by UTF-8 bytes; the
 * model uses characters (Unicode scalar values), whose lexicographic order
 * coincides with the byte order of their UTF-8 encodings.
 */
module GoStrings {
  import opened Wrappers

  const MaxInt64: int := 0x7FFF_FFFF_FFFF_FFFF
  const MinInt64: int := -0x8000_0000_0000_0000

  /** Go's `int`/`int64` arithmetic: a result reduced into the 64-bit two's-complement range. */
  function Wrap64(x: int): (r: int)
    ensures MinInt64 <= r <= MaxInt64
    ensures MinInt64 <= x <= MaxInt64 ==> r == x
    ensures MaxInt64 < x <= 2 * MaxInt64 + 1 ==> r == x - 0x1_0000_0000_0000_0000
  {
    (x - MinInt64) % 0x1_0000_0000_0000_0000 + MinInt64
  }

  /** Go's integer `/`, which truncates toward zero (Dafny's rounds down for a positive divisor). */
  function Quo(a: int, b: int): (q: int)
    requires b > 0
    ensures a >= 0 ==> 0 <= a - q * b < b
    ensures a < 0 ==> -b < a - q * b <= 0
  {
    if a >= 0 then a / b else -((-a) / b)
  }

  /** `strings.HasPrefix(s, prefix)` */
  predicate HasPrefix(s: string, prefix: string) {
    |prefix| <= |s| && s[..|prefix|] == prefix
  }

  /** `strings.HasSuffix(s, suffix)` */
  predicate HasSuffix(s: string, suffix: string) {
    |suffix| <= |s| && s[|s| - |suffix|..] == suffix
  }

  /** `sub` occurs in `s` starting at offset `i`. */
  predicate OccursAt(s: string, sub: string, i: int) {
    0 <= i <= |s| - |sub| && s[i..i + |sub|] == sub
  }

  /** `strings.Contains(s, sub)`: `sub` occurs at some offset of `s`. */
  predicate Contains(s: string, sub: string) {
    exists i | 0 <= i <= |s| - |sub| :: OccursAt(s, sub, i)
  }

  /** The characters of a prefix occur in the string. */
  lemma PrefixChars(s: string, t: string, c: char)
    requires HasPrefix(s, t) && c in t
    ensures c in s
  {
    var k :| 0 <= k < |t| && t[k] == c;
    assert s[k] == c;
  }

  /** The characters of a suffix occur in the string. */
  lemma SuffixChars(s: string, t: string, c: char)
    requires HasSuffix(s, t) && c in t
    ensures c in s
  {
    var k :| 0 <= k < |t| && t[k] == c;
    assert s[|s| - |t| + k] == c;
  }

  /** A prefix lacks what the string lacks. */
  lemma PrefixLacks(s: string, t: string, c: char)
    requires HasPrefix(s, t) && c !in s
    ensures c !in t
  {
    forall k | 0 <= k < |t| ensures t[k] != c {
      assert t[k] == s[k];
    }
  }

  /** A suffix lacks what the string lacks. */
  lemma SuffixLacks(s: string, t: string, c: char)
    requires HasSuffix(s, t) && c !in s
    ensures c !in t
  {
    forall k | 0 <= k < |t| ensures t[k] != c {
      assert t[k] == s[|s| - |t| + k];
    }
  }

  /** A string keeps an occurrence of `sub` when text is put in front of it. */
  lemma ContainsPrepend(p: string, s: string, sub: string)
    requires Contains(s, sub)
    ensures Contains(p + s, sub)
  {
    var i :| 0 <= i <= |s| - |sub| && OccursAt(s, sub, i);
    assert (p + s)[|p| + i..|p| + i + |sub|] == s[i..i + |sub|];
    assert OccursAt(p + s, sub, |p| + i);
  }

  /** Appending text keeps an occurrence. */
  lemma ContainsAppend(s: string, t: string, sub: string)
    requires Contains(s, sub)
    ensures Contains(s + t, sub)
  {
    var i :| 0 <= i <= |s| - |sub| && OccursAt(s, sub, i);
    assert (s + t)[i..i + |sub|] == s[i..i + |sub|];
    assert OccursAt(s + t, sub, i);
  }

  /** A string without the first character of `sub` does not contain `sub`. */
  lemma LacksFirstChar(s: string, sub: string)
    requires sub != [] && sub[0] !in s
    ensures !Contains(s, sub)
  {
    forall i | 0 <= i <= |s| - |sub| ensures !OccursAt(s, sub, i) {
      assert s[i..i + |sub|][0] == s[i] && s[i] in s;
    }
  }

  /** A string that does not contain `sub` has no prefix that contains it. */
  lemma PrefixKeepsAbsence(s: string, k: nat, sub: string)
    requires k <= |s| && !Contains(s, sub)
    ensures !Contains(s[..k], sub)
  {
    if Contains(s[..k], sub) {
      var i :| 0 <= i <= k - |sub| && OccursAt(s[..k], sub, i);
      assert s[i..i + |sub|] == s[..k][i..i + |sub|];
      assert OccursAt(s, sub, i);
    }
  }

  /** `strings.TrimSuffix(s, suffix)`: removes one trailing `suffix`, if present. */
  function TrimSuffix(s: string, suffix: string): (r: string)
    ensures HasPrefix(s, r)
    ensures HasSuffix(s, suffix) ==> r + suffix == s
    ensures !HasSuffix(s, suffix) ==> r == s
  {
    if HasSuffix(s, suffix) then s[..|s| - |suffix|] else s
  }

  /** `strings.IndexByte(s, c)`: the first position of `c`, or None (Go's -1). */
  function IndexOf(s: string, c: char): (r: Option<nat>)
    ensures r.None? <==> c !in s
    ensures r.Some? ==> r.value < |s| && s[r.value] == c && c !in s[..r.value]
  {
    if s == [] then None
    else if s[0] == c then Some(0)
    else
      match IndexOf(s[1..], c)
      case None => None
      case Some(i) =>
        assert s[1..][..i] == s[1..i + 1];
        assert s[..i + 1] == [s[0]] + s[1..i + 1];
        Some(i + 1)
  }

  /** A position holding `c` with no `c` before it is what `IndexOf` finds. */
  lemma {:induction false} IndexOfAt(s: string, c: char, i: nat)
    requires i < |s| && s[i] == c && c !in s[..i]
    ensures IndexOf(s, c) == Some(i)
  {
    if i > 0 {
      assert s[0] == s[..i][0];
      assert s[1..][..i - 1] == s[1..i] && s[1..i] == s[..i][1..];
      IndexOfAt(s[1..], c, i - 1);
    }
  }

  /** The last position of `c`, or None (`strings.LastIndexByte`). */
  function LastIndexOf(s: string, c: char): (r: Option<nat>)
    ensures r.None? <==> c !in s
    ensures r.Some? ==> r.value < |s| && s[r.value] == c && c !in s[r.value + 1..]
  {
    if s == [] then None
    else if s[|s| - 1] == c then Some(|s| - 1)
    else
      var front := s[..|s| - 1];
      assert s == front + [s[|s| - 1]];
      match LastIndexOf(front, c)
      case None => None
      case Some(j) =>
        assert s[j + 1..] == front[j + 1..] + [s[|s| - 1]];
        Some(j)
  }

  /**
   * `strings.Split(s, "/")` with a one-character separator, its pieces
   * taken from the end: never empty, and no piece holds the separator.
   */
  function Split(s: string, sep: char): (parts: seq<string>)
    ensures |parts| >= 1
    ensures forall k :: 0 <= k < |parts| ==> sep !in parts[k]
    decreases |s|
  {
    match LastIndexOf(s, sep)
    case None => [s]
    case Some(j) => Split(s[..j], sep) + [s[j + 1..]]
  }

  /** `strings.Join(parts, sep)`, the inverse of Split. */
  function Join(parts: seq<string>, sep: char): string
    requires |parts| >= 1
  {
    if |parts| == 1 then parts[0] else Join(parts[..|parts| - 1], sep) + [sep] + parts[|parts| - 1]
  }

  /** Joining the pieces of a split gives back the string. */
  lemma {:induction false} JoinSplit(s: string, sep: char)
    ensures Join(Split(s, sep), sep) == s
    decreases |s|
  {
    match LastIndexOf(s, sep)
    case None =>
    case Some(j) =>
      var front := Split(s[..j], sep);
      var parts := front + [s[j + 1..]];
      assert Split(s, sep) == parts;
      assert parts[..|parts| - 1] == front;
      JoinSplit(s[..j], sep);
      assert s == s[..j] + [sep] + s[j + 1..];
  }

  /**
   * The last piece of `Split(s, sep)`: the text after the last `sep`, which
   * is a suffix of `s` free of `sep` and is preceded by `sep` unless it is
   * all of `s`.
   */
  lemma SplitLast(s: string, sep: char)
    ensures var parts := Split(s, sep); var last := parts[|parts| - 1];
      && sep !in last
      && HasSuffix(s, last)
      && (|last| < |s| ==> s[|s| - |last| - 1] == sep)
  {
    match LastIndexOf(s, sep)
    case None =>
      assert s[|s| - |s|..] == s;
    case Some(j) =>
      assert Split(s, sep)[|Split(s, sep)| - 1] == s[j + 1..];
  }

  /** A suffix of a tail of `s` is a suffix of `s`. */
  lemma SuffixOfTail(s: string, d: nat, p: string)
    requires d <= |s| && HasSuffix(s[d..], p)
    ensures HasSuffix(s, p)
  {
    assert s[|s| - |p|..] == s[d..][|s| - d - |p|..];
  }

  /** No position of a suffix free of `c` holds `c`. */
  lemma SuffixRange(s: string, t: string, c: char)
    requires HasSuffix(s, t) && c !in t
    ensures forall k :: |s| - |t| <= k < |s| ==> s[k] != c
  {
    forall k | |s| - |t| <= k < |s| ensures s[k] != c {
      assert s[k] == t[k - (|s| - |t|)];
    }
  }

  /** The last piece of splitting `pre`, `sep`, `seg` is `seg` when `seg` is free of `sep`. */
  lemma SplitLastSegment(pre: string, seg: string, sep: char)
    requires sep !in seg
    ensures var parts := Split(pre + [sep] + seg, sep); parts[|parts| - 1] == seg
  {
    var s := pre + [sep] + seg;
    SplitLast(s, sep);
    var parts := Split(s, sep);
    var last := parts[|parts| - 1];
    assert s[|s| - |seg|..] == seg;
    assert s[|s| - |seg| - 1] == sep;
    // Each of `last` and `seg` is a `sep`-free suffix preceded by `sep` (or all of `s`).
    SuffixRange(s, last, sep);
    SuffixRange(s, seg, sep);
    assert |last| <= |seg|;
    assert |last| >= |seg|;
  }

  predicate IsDigit(c: char) {
    '0' <= c <= '9'
  }

  predicate AllDigits(s: string) {
    forall i :: 0 <= i < |s| ==> IsDigit(s[i])
  }

  /** The value of a string of decimal digits, read most significant first. */
  function DigitsValue(s: string): nat
    requires AllDigits(s)
  {
    if s == [] then 0
    else DigitsValue(s[..|s| - 1]) * 10 + (s[|s| - 1] as int - '0' as int)
  }

  /**
   * `strconv.Atoi(s)` on a 64-bit platform: an optional sign followed by at
   * least one decimal digit, rejected (None, Go's non-nil error) when the
   * value does not fit in an int64.
   */
  function Atoi(s: string): (r: Option<int>)
    ensures r.Some? ==> MinInt64 <= r.value <= MaxInt64
    ensures r.Some? ==> s != [] && (r.value < 0 ==> s[0] == '-')
  {
    if s == [] then None
    else
      var digits := if s[0] == '+' || s[0] == '-' then s[1..] else s;
      if digits == [] || !AllDigits(digits) then None
      else
        var v: int := if s[0] == '-' then -(DigitsValue(digits) as int) else DigitsValue(digits);
        if MinInt64 <= v <= MaxInt64 then Some(v) else None
  }

  /** The decimal digits of `n`, as a user types them. */
  function Decimal(n: nat): (s: string)
    ensures |s| >= 1 && AllDigits(s)
  {
    if n < 10 then ['0' + n as char]
    else Decimal(n / 10) + ['0' + (n % 10) as char]
  }

  lemma {:induction false} DigitsValueDecimal(n: nat)
    ensures DigitsValue(Decimal(n)) == n
  {
    if n >= 10 {
      DigitsValueDecimal(n / 10);
      var s := Decimal(n);
      assert s[..|s| - 1] == Decimal(n / 10);
    }
  }

  /** Parsing the decimal digits of any int64-sized `n` gives back `n`. */
  lemma AtoiDecimal(n: nat)
    requires n <= MaxInt64
    ensures Atoi(Decimal(n)) == Some(n)
  {
    DigitsValueDecimal(n);
  }

  /** Go's `<` on strings: lexicographic order on characters. */
  predicate Less(a: string, b: string) {
    if a == [] then b != []
    else if b == [] then false
    else if a[0] != b[0] then a[0] < b[0]
    else Less(a[1..], b[1..])
  }

  /** Go's `<=` on strings. */
  predicate LessEq(a: string, b: string) {
    a == b || Less(a, b)
  }

  lemma {:induction false} LessIrreflexive(a: string)
    ensures !Less(a, a)
  {
    if a != [] { LessIrreflexive(a[1..]); }
  }

  lemma {:induction false} LessTransitive(a: string, b: string, c: string)
    requires Less(a, b) && Less(b, c)
    ensures Less(a, c)
  {
    if a != [] && b != [] && c != [] && a[0] == b[0] == c[0] {
      LessTransitive(a[1..], b[1..], c[1..]);
    }
  }

  /** Two different strings are ordered one way or the other. */
  lemma {:induction false} LessTotal(a: string, b: string)
    requires a != b
    ensures Less(a, b) || Less(b, a)
  {
    if a != [] && b != [] && a[0] == b[0] {
      assert a == [a[0]] + a[1..] && b == [b[0]] + b[1..];
      LessTotal(a[1..], b[1..]);
    }
  }

  lemma {:induction false} LessAsymmetric(a: string, b: string)
    requires Less(a, b)
    ensures !Less(b, a)
  {
    if a != [] && b != [] && a[0] == b[0] {
      LessAsymmetric(a[1..], b[1..]);
    }
  }

  /** Each element is at most the next one (what `sort.Strings` promises). */
  predicate SortedAdjacent(s: seq<string>) {
    forall k :: 0 < k < |s| ==> LessEq(s[k - 1], s[k])
  }

  /** Every element is below every later one: ascending and duplicate-free. */
  predicate StrictlySorted(s: seq<string>) {
    forall i, j :: 0 <= i < j < |s| ==> Less(s[i], s[j])
  }

  lemma {:induction false} StrictlySortedDistinct(s: seq<string>, i: int, j: int)
    requires StrictlySorted(s) && 0 <= i < j < |s|
    ensures s[i] != s[j]
  {
    LessIrreflexive(s[i]);
  }

  /** A sequence sorted step by step whose elements are distinct is strictly sorted. */
  lemma {:induction false} AdjacentToStrict(s: seq<string>)
    requires SortedAdjacent(s)
    requires forall i, j :: 0 <= i < j < |s| ==> s[i] != s[j]
    ensures StrictlySorted(s)
  {
    forall i, j | 0 <= i < j < |s| ensures Less(s[i], s[j]) {
      var k := i + 1;
      assert Less(s[i], s[k]);
      while k < j
        invariant i < k <= j && Less(s[i], s[k])
      {
        assert Less(s[k], s[k + 1]);
        LessTransitive(s[i], s[k], s[k + 1]);
        k := k + 1;
      }
    }
  }

  /**
   * Two strictly sorted sequences holding the same elements are equal: the
   * sorted tag list is determined by its set of tags.
   */
  lemma {:induction false} StrictlySortedUnique(s: seq<string>, t: seq<string>)
    requires StrictlySorted(s) && StrictlySorted(t)
    requires forall x :: x in s <==> x in t
    ensures s == t
    decreases |s|
  {
    assert s != [] ==> s[0] in s;
    assert t != [] ==> t[0] in t;
    if s != [] && t != [] {
      // The least element of each is the least element of the other.
      assert s[0] in s && t[0] in t;
      var j :| 0 <= j < |s| && s[j] == t[0];
      var i :| 0 <= i < |t| && t[i] == s[0];
      if j > 0 && i > 0 {
        LessAsymmetric(s[0], t[0]);
      }
      assert s[0] == t[0];
      assert s == [s[0]] + s[1..] && t == [t[0]] + t[1..];
      forall x ensures x in s[1..] <==> x in t[1..] {
        if x in s[1..] {
          var i :| 0 <= i < |s[1..]| && s[1..][i] == x;
          StrictlySortedDistinct(s, 0, i + 1);
          assert x in t && x != t[0];
        }
        if x in t[1..] {
          var i :| 0 <= i < |t[1..]| && t[1..][i] == x;
          StrictlySortedDistinct(t, 0, i + 1);
          assert x in s && x != s[0];
        }
      }
      StrictlySortedUnique(s[1..], t[1..]);
      assert s == [s[0]] + s[1..] && t == [t[0]] + t[1..];
    }
  }
}
