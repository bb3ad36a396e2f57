/** Short codes: the alphabet and the generator behind `generate_code`, the
    `RESERVED_ROUTES` membership test, and the whitespace trimming that
    `str.strip()` applies to a custom code. */
module Codes {

  /** The characters with code points lo..hi, in order (ASCII only). */
  function CharRange(lo: nat, hi: nat): string
    requires hi < 128
    decreases hi + 1 - lo
  {
    if lo > hi then [] else [lo as char] + CharRange(lo + 1, hi)
  }

  lemma {:induction false} CharRangeAt(lo: nat, hi: nat, k: nat)
    requires lo <= hi < 128 && k <= hi - lo
    ensures |CharRange(lo, hi)| == hi + 1 - lo
    ensures CharRange(lo, hi)[k] == (lo + k) as char
    decreases hi - lo
  {
    if lo < hi {
      CharRangeAt(lo + 1, hi, if k == 0 then 0 else k - 1);
    } else {
      assert CharRange(lo + 1, hi) == [];
    }
  }

  /** `string.ascii_letters + string.digits`: a-z, then A-Z, then 0-9. */
  const Lowercase: string := CharRange('a' as int, 'z' as int)
  const Uppercase: string := CharRange('A' as int, 'Z' as int)
  const Digits: string := CharRange('0' as int, '9' as int)
  const Alphabet: string := Lowercase + Uppercase + Digits

  /** The default `length` of `generate_code`. */
  const CodeLength: nat := 6

  predicate IsAsciiAlnum(c: char) {
    'a' <= c <= 'z' || 'A' <= c <= 'Z' || '0' <= c <= '9'
  }

  predicate AllAsciiAlnum(s: string) {
    forall i :: 0 <= i < |s| ==> IsAsciiAlnum(s[i])
  }

  lemma AlphabetSize()
    ensures |Lowercase| == 26 && |Uppercase| == 26 && |Digits| == 10
    ensures |Alphabet| == 62
  {
    CharRangeAt('a' as int, 'z' as int, 0);
    CharRangeAt('A' as int, 'Z' as int, 0);
    CharRangeAt('0' as int, '9' as int, 0);
  }

  /** Every symbol `random.choice` can draw is an ASCII letter or digit. */
  lemma AlphabetSymbol(i: nat)
    requires i < |Alphabet|
    ensures IsAsciiAlnum(Alphabet[i])
  {
    AlphabetSize();
    if i < 26 {
      CharRangeAt('a' as int, 'z' as int, i);
    } else if i < 52 {
      CharRangeAt('A' as int, 'Z' as int, i - 26);
      assert Alphabet[i] == (Lowercase + Uppercase)[i] == Uppercase[i - 26];
    } else {
      CharRangeAt('0' as int, '9' as int, i - 52);
    }
  }

  /** The position of an ASCII letter or digit in the alphabet. */
  function AlphabetIndex(c: char): (i: nat)
    requires IsAsciiAlnum(c)
    ensures i < |Alphabet| && Alphabet[i] == c
  {
    AlphabetSize();
    if 'a' <= c <= 'z' then
      CharRangeAt('a' as int, 'z' as int, c as int - 'a' as int);
      c as int - 'a' as int
    else if 'A' <= c <= 'Z' then
      CharRangeAt('A' as int, 'Z' as int, c as int - 'A' as int);
      assert Alphabet[26 + (c as int - 'A' as int)] == (Lowercase + Uppercase)[26 + (c as int - 'A' as int)];
      26 + (c as int - 'A' as int)
    else
      CharRangeAt('0' as int, '9' as int, c as int - '0' as int);
      52 + (c as int - '0' as int)
  }

  /** The alphabet holds exactly the ASCII letters and digits. */
  lemma AlphabetIsAsciiAlnum(c: char)
    ensures c in Alphabet <==> IsAsciiAlnum(c)
  {
    if c in Alphabet {
      var i :| 0 <= i < |Alphabet| && Alphabet[i] == c;
      AlphabetSymbol(i);
    }
    if IsAsciiAlnum(c) {
      var i := AlphabetIndex(c);
    }
  }

  /** A sequence of draws of `random.choice(chars)`, each an index into the alphabet. */
  predicate ValidPicks(picks: seq<nat>) {
    forall i :: 0 <= i < |picks| ==> picks[i] < |Alphabet|
  }

  /** `generate_code(length)`: position i holds the symbol drawn by `picks[i]`. */
  function GenerateCode(length: nat, picks: seq<nat>): (code: string)
    requires |picks| == length && ValidPicks(picks)
    ensures |code| == length
    ensures AllAsciiAlnum(code)
  {
    if length == 0 then []
    else
      AlphabetSymbol(picks[0]);
      [Alphabet[picks[0]]] + GenerateCode(length - 1, picks[1..])
  }

  /** The draws that spell a given string of letters and digits. */
  function PicksFor(code: string): (picks: seq<nat>)
    requires AllAsciiAlnum(code)
    ensures |picks| == |code| && ValidPicks(picks)
  {
    if code == [] then [] else [AlphabetIndex(code[0])] + PicksFor(code[1..])
  }

  /** Every string of letters and digits of the requested length can be generated. */
  lemma {:induction false} GenerateCodeReaches(code: string)
    requires AllAsciiAlnum(code)
    ensures GenerateCode(|code|, PicksFor(code)) == code
  {
    if code != [] {
      GenerateCodeReaches(code[1..]);
    }
  }

  const ReservedRoutes: seq<string> := ["admin", "login", "logout", "stats", "toggle"]

  predicate IsReserved(code: string) {
    code in ReservedRoutes
  }

  /** A generated code is reserved exactly when it is "logout" or "toggle",
      the two reserved names of length 6. */
  lemma GeneratedReservedCodes(picks: seq<nat>)
    requires |picks| == CodeLength && ValidPicks(picks)
    ensures IsReserved(GenerateCode(CodeLength, picks))
      <==> GenerateCode(CodeLength, picks) in {"logout", "toggle"}
  {
  }

  /** ... and both of them can come out of the generator. */
  lemma ReservedCodesCanBeGenerated()
    ensures AllAsciiAlnum("logout") && AllAsciiAlnum("toggle")
    ensures IsReserved(GenerateCode(CodeLength, PicksFor("logout")))
    ensures IsReserved(GenerateCode(CodeLength, PicksFor("toggle")))
  {
    GenerateCodeReaches("logout");
    GenerateCodeReaches("toggle");
  }

  /** The characters Python's `str.isspace` accepts. */
  predicate IsSpace(c: char) {
    var n := c as int;
    (9 <= n <= 13) || (28 <= n <= 32) || n == 0x85 || n == 0xA0 || n == 0x1680
    || (0x2000 <= n <= 0x200A) || n == 0x2028 || n == 0x2029 || n == 0x202F
    || n == 0x205F || n == 0x3000
  }

  /** The length of the run of whitespace at the start of s. */
  function LeadingSpaces(s: string): (n: nat)
    ensures n <= |s|
    ensures forall i :: 0 <= i < n ==> IsSpace(s[i])
    ensures n < |s| ==> !IsSpace(s[n])
  {
    if s != [] && IsSpace(s[0]) then 1 + LeadingSpaces(s[1..]) else 0
  }

  /** The length of the run of whitespace at the end of s. */
  function TrailingSpaces(s: string): (n: nat)
    ensures n <= |s|
    ensures forall i :: |s| - n <= i < |s| ==> IsSpace(s[i])
    ensures n < |s| ==> !IsSpace(s[|s| - 1 - n])
  {
    if s != [] && IsSpace(s[|s| - 1]) then 1 + TrailingSpaces(s[..|s| - 1]) else 0
  }

  /** `str.strip()` with no argument: drop whitespace at both ends. */
  function Strip(s: string): (r: string)
    ensures |r| <= |s|
    ensures r == [] <==> forall i :: 0 <= i < |s| ==> IsSpace(s[i])
    ensures r != [] ==> !IsSpace(r[0]) && !IsSpace(r[|r| - 1])
  {
    var rest := s[LeadingSpaces(s)..];
    rest[..|rest| - TrailingSpaces(rest)]
  }

  /** A string without whitespace at either end is left as it is. */
  lemma StripKeepsTrimmed(s: string)
    requires s == [] || (!IsSpace(s[0]) && !IsSpace(s[|s| - 1]))
    ensures Strip(s) == s
  {
    if s != [] {
      assert LeadingSpaces(s) == 0;
      assert TrailingSpaces(s) == 0;
    }
  }

  lemma StripIdempotent(s: string)
    ensures Strip(Strip(s)) == Strip(s)
  {
    StripKeepsTrimmed(Strip(s));
  }

  /** Whitespace around a trimmed string is what strip removes. */
  lemma {:induction false} StripPadding(pre: string, s: string, post: string)
    requires forall i :: 0 <= i < |pre| ==> IsSpace(pre[i])
    requires forall i :: 0 <= i < |post| ==> IsSpace(post[i])
    requires s != [] && !IsSpace(s[0]) && !IsSpace(s[|s| - 1])
    ensures Strip(pre + s + post) == s
  {
    var t := pre + s + post;
    LeadingPadding(pre, s + post);
    assert t == pre + (s + post);
    assert t[|pre|..] == s + post;
    TrailingPadding(s, post);
  }

  lemma {:induction false} LeadingPadding(pre: string, s: string)
    requires forall i :: 0 <= i < |pre| ==> IsSpace(pre[i])
    requires s != [] && !IsSpace(s[0])
    ensures LeadingSpaces(pre + s) == |pre|
  {
    if pre != [] {
      assert (pre + s)[1..] == pre[1..] + s;
      LeadingPadding(pre[1..], s);
    }
  }

  lemma {:induction false} TrailingPadding(s: string, post: string)
    requires forall i :: 0 <= i < |post| ==> IsSpace(post[i])
    requires s != [] && !IsSpace(s[|s| - 1])
    ensures TrailingSpaces(s + post) == |post|
  {
    if post != [] {
      var t := s + post;
      assert t[..|t| - 1] == s + post[..|post| - 1];
      TrailingPadding(s, post[..|post| - 1]);
    }
  }
}
