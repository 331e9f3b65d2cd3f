/** String operations the route handlers rely on, written out with JavaScript's semantics. */
module Text {
  import opened Wrappers

  /** JavaScript truthiness of an optional string: present and non-empty. */
  predicate Truthy(s: Option<string>) {
    s.Some? && s.value != ""
  }

  /** `s.startsWith(prefix)`. */
  predicate StartsWith(s: string, prefix: string) {
    |prefix| <= |s| && s[..|prefix|] == prefix
  }

  /** `pat` occurs in `s` at position `i`. */
  predicate OccursAt(s: string, pat: string, i: nat) {
    i + |pat| <= |s| && s[i..i + |pat|] == pat
  }

  /** First position at or after `from` where `pat` occurs. */
  function IndexFrom(s: string, pat: string, from: nat): (r: Option<nat>)
    decreases |s| - from
    ensures r.Some? ==> from <= r.value && OccursAt(s, pat, r.value)
    ensures r.Some? ==> forall j :: from <= j < r.value ==> !OccursAt(s, pat, j)
    ensures r.None? ==> forall j :: from <= j ==> !OccursAt(s, pat, j)
  {
    if from + |pat| > |s| then None
    else if s[from..from + |pat|] == pat then Some(from)
    else IndexFrom(s, pat, from + 1)
  }

  /** `s.indexOf(pat)`, with `None` for -1. */
  function IndexOf(s: string, pat: string): Option<nat> {
    IndexFrom(s, pat, 0)
  }

  /** `s.replace(pat, rep)` with a string pattern: only the first occurrence is replaced. */
  function ReplaceFirst(s: string, pat: string, rep: string): string {
    match IndexOf(s, pat)
    case None => s
    case Some(i) => s[..i] + rep + s[i + |pat|..]
  }

  lemma ReplaceFirstOfPrefix(pat: string, rest: string, rep: string)
    requires pat != ""
    ensures ReplaceFirst(pat + rest, pat, rep) == rep + rest
  {
    assert OccursAt(pat + rest, pat, 0);
    assert (pat + rest)[|pat|..] == rest;
  }

  /** The text before the first `c`, or all of `s` when it has none. */
  function TakeUntil(s: string, c: char): (r: string)
    ensures c !in r && StartsWith(s, r)
    ensures r == s || (|r| < |s| && s[|r|] == c)
  {
    if s == [] then []
    else if s[0] == c then []
    else [s[0]] + TakeUntil(s[1..], c)
  }

  /** `s.split(c)` for a one-character separator: every piece, empty ones included. */
  function Split(s: string, c: char): (r: seq<string>)
    ensures |r| >= 1
    decreases |s|
  {
    var head := TakeUntil(s, c);
    if head == s then [s] else [head] + Split(s[|head| + 1..], c)
  }

  /** The piece after the first separator, so `"Bearer a b".split(' ')[1] == "a"`. */
  lemma {:induction false} SecondPiece(word: string, rest: string, c: char)
    requires c !in word
    ensures |Split(word + [c] + rest, c)| >= 2
    ensures Split(word + [c] + rest, c)[1] == TakeUntil(rest, c)
  {
    var s := word + [c] + rest;
    TakeUntilSkipsWord(word, [c] + rest, c);
    assert s == word + ([c] + rest);
    assert TakeUntil(s, c) == word;
    assert s[|word| + 1..] == rest;
    assert Split(s, c) == [word] + Split(rest, c);
  }

  lemma {:induction false} TakeUntilSkipsWord(word: string, tail: string, c: char)
    requires c !in word && |tail| > 0 && tail[0] == c
    ensures TakeUntil(word + tail, c) == word
  {
    if word != [] {
      assert (word + tail)[1..] == word[1..] + tail;
      TakeUntilSkipsWord(word[1..], tail, c);
    } else {
      assert word + tail == tail;
    }
  }

  /** ASCII lower-casing, the case folding used for the `i` regex flag in this model. */
  function Lower(c: char): char {
    if 'A' <= c <= 'Z' then (c as int + 32) as char else c
  }

  function LowerAll(s: string): (r: string)
    ensures |r| == |s| && forall i :: 0 <= i < |s| ==> r[i] == Lower(s[i])
  {
    seq(|s|, i requires 0 <= i < |s| => Lower(s[i]))
  }

  /** A case-insensitive `$regex` / `new RegExp(pat, 'i')` match, read as a substring search. */
  predicate ContainsIgnoringCase(text: string, pat: string) {
    IndexOf(LowerAll(text), LowerAll(pat)).Some?
  }

  function DigitChar(d: nat): (c: char)
    requires d < 10
    ensures '0' <= c <= '9'
  {
    ('0' as int + d) as char
  }

  /** `n.toString()` for a non-negative integer. */
  function Decimal(n: nat): (r: string)
    ensures |r| >= 1 && forall i :: 0 <= i < |r| ==> '0' <= r[i] <= '9'
  {
    if n < 10 then [DigitChar(n)] else Decimal(n / 10) + [DigitChar(n % 10)]
  }

  /** `n.toString()` for any integer. */
  function NumberString(n: int): string {
    if n < 0 then "-" + Decimal(-n) else Decimal(n)
  }

  /** `s.slice(-k)` for k > 0: the last `k` characters, or all of `s` when shorter. */
  function LastChars(s: string, k: nat): (r: string)
    ensures |r| == if |s| <= k then |s| else k
  {
    if |s| <= k then s else s[|s| - k..]
  }

  function Pow10(k: nat): (p: nat)
    ensures p >= 1
  {
    if k == 0 then 1 else 10 * Pow10(k - 1)
  }

  /** The last `k` decimal digits of `n`, zero-padded to exactly `k` characters. */
  function Padded(n: nat, k: nat): (r: string)
    ensures |r| == k && forall i :: 0 <= i < k ==> '0' <= r[i] <= '9'
  {
    if k == 0 then [] else Padded(n / 10, k - 1) + [DigitChar(n % 10)]
  }

  lemma {:induction false} DecimalLength(n: nat, k: nat)
    requires n >= Pow10(k)
    ensures |Decimal(n)| > k
  {
    if k > 0 {
      DecimalLength(n / 10, k - 1);
    }
  }

  /** Once `n` has at least `k` digits, its last `k` characters are its last `k` digits. */
  lemma {:induction false} LastDigits(n: nat, k: nat)
    requires k >= 1 && n >= Pow10(k - 1)
    ensures LastChars(Decimal(n), k) == Padded(n, k)
  {
    if k == 1 {
      assert Padded(n, 1) == [DigitChar(n % 10)];
      if n < 10 {
      } else {
        assert Decimal(n)[|Decimal(n)| - 1..] == [DigitChar(n % 10)];
      }
    } else {
      assert n >= 10;
      DecimalLength(n, k - 1);
      LastDigits(n / 10, k - 1);
      var s := Decimal(n / 10);
      DecimalLength(n / 10, k - 2);
      assert Decimal(n) == s + [DigitChar(n % 10)];
      assert (s + [DigitChar(n % 10)])[|s| + 1 - k..] == s[|s| - (k - 1)..] + [DigitChar(n % 10)];
    }
  }

  /** Padding keeps only the last `k` digits: adding a multiple of 10^k changes nothing. */
  lemma {:induction false} PaddedPeriodic(n: nat, k: nat)
    ensures Padded(n + Pow10(k), k) == Padded(n, k)
  {
    if k > 0 {
      assert Pow10(k) == 10 * Pow10(k - 1);
      assert (n + Pow10(k)) / 10 == n / 10 + Pow10(k - 1);
      assert (n + Pow10(k)) % 10 == n % 10;
      PaddedPeriodic(n / 10, k - 1);
    }
  }

  /** The UTF-8 bytes of one character: one to four, the lead byte announcing how many. */
  function Utf8Char(c: char): (r: seq<int>)
    ensures 1 <= |r| <= 4 && |r| == Utf8Length(r[0])
  {
    var n := c as int;
    if n < 0x80 then [n]
    else if n < 0x800 then [0xC0 + n / 64, 0x80 + n % 64]
    else if n < 0x10000 then [0xE0 + n / 4096, 0x80 + n / 64 % 64, 0x80 + n % 64]
    else [0xF0 + n / 262144, 0x80 + n / 4096 % 64, 0x80 + n / 64 % 64, 0x80 + n % 64]
  }

  /** How many bytes a character whose encoding starts with `lead` takes. */
  function Utf8Length(lead: int): nat {
    if lead < 0x80 then 1 else if lead < 0xE0 then 2 else if lead < 0xF0 then 3 else 4
  }

  /** The UTF-8 encoding of a string. */
  function Utf8(s: string): seq<int> {
    if s == [] then [] else Utf8Char(s[0]) + Utf8(s[1..])
  }

  /** Distinct characters have distinct encodings. */
  lemma Utf8CharInjective(c: char, d: char)
    requires Utf8Char(c) == Utf8Char(d)
    ensures c == d
  {
    var n, m := c as int, d as int;
    var e := Utf8Char(c);
    if |e| == 2 {
      SameBase64Digits(n, m);
    } else if |e| == 3 {
      Base64Shifts(n);
      Base64Shifts(m);
      SameBase64Digits(n / 64, m / 64);
      SameBase64Digits(n, m);
    } else if |e| == 4 {
      Base64Shifts(n);
      Base64Shifts(m);
      SameBase64Digits(n / 4096, m / 4096);
      SameBase64Digits(n / 64, m / 64);
      SameBase64Digits(n, m);
    }
  }

  lemma SameBase64Digits(n: int, m: int)
    requires n >= 0 && m >= 0 && n / 64 == m / 64 && n % 64 == m % 64
    ensures n == m
  {
  }

  lemma Base64Shifts(n: int)
    requires n >= 0
    ensures n / 64 / 64 == n / 4096 && n / 4096 / 64 == n / 262144
  {
  }

  lemma {:induction false} Utf8Append(a: string, b: string)
    ensures Utf8(a + b) == Utf8(a) + Utf8(b)
  {
    if a != [] {
      assert (a + b)[1..] == a[1..] + b;
      Utf8Append(a[1..], b);
    } else {
      assert a + b == b;
    }
  }

  /** Two strings with the same UTF-8 encoding are the same string. */
  lemma {:induction false} Utf8Injective(a: string, b: string)
    requires Utf8(a) == Utf8(b)
    ensures a == b
  {
    if a != [] && b != [] {
      var ea, eb := Utf8Char(a[0]), Utf8Char(b[0]);
      assert Utf8(a)[0] == ea[0] && Utf8(b)[0] == eb[0];
      assert Utf8(a)[..|ea|] == ea && Utf8(b)[..|eb|] == eb;
      Utf8CharInjective(a[0], b[0]);
      assert Utf8(a)[|ea|..] == Utf8(a[1..]) && Utf8(b)[|eb|..] == Utf8(b[1..]);
      Utf8Injective(a[1..], b[1..]);
      assert a == [a[0]] + a[1..] && b == [b[0]] + b[1..];
    }
  }

  /** Only U+0000 encodes to a 0 byte. */
  lemma {:induction false} Utf8HasNoZero(s: string)
    requires '\0' !in s
    ensures 0 !in Utf8(s)
  {
    if s != [] {
      assert s[0] != '\0' && (s[0] as int) > 0;
      assert 0 !in Utf8Char(s[0]);
      Utf8HasNoZero(s[1..]);
    }
  }
}
