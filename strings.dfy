/**
 * The string operations of Python and JavaScript that the backend and the
 * patient form rely on, over `string` (a sequence of `char`).
 *
 * Case mapping is that of ASCII: `Lower` maps `A`..`Z` and leaves every other
 * character alone. `IsSpace` is Python's `str.isspace()`, the whitespace that
 * `str.strip()` and `str.split()` remove: the ASCII blanks and controls
 * `\t`..`\r`, the four separators `\x1c`..`\x1f`, and the Unicode spaces.
 */
module Strings {
  import opened Common

  // ---------------------------------------------------------------- characters

  predicate IsSpace(c: char) {
    || c == ' ' || '\t' <= c <= '\r' || '\U{1C}' <= c <= '\U{1F}'
    || c == '\U{85}' || c == '\U{A0}' || c == '\U{1680}' || '\U{2000}' <= c <= '\U{200A}'
    || c == '\U{2028}' || c == '\U{2029}' || c == '\U{202F}' || c == '\U{205F}' || c == '\U{3000}'
  }

  predicate IsDigit(c: char) {
    '0' <= c <= '9'
  }

  predicate IsUpper(c: char) {
    'A' <= c <= 'Z'
  }

  function LowerChar(c: char): (r: char)
    ensures !IsUpper(r)
    ensures IsSpace(r) <==> IsSpace(c)
    ensures !IsUpper(c) ==> r == c
  {
    if IsUpper(c) then (c as int - 'A' as int + 'a' as int) as char else c
  }

  // ---------------------------------------------------------------- lower()

  /** `s.lower()` (and JavaScript's `toLowerCase()`) on ASCII letters. */
  function Lower(s: string): (r: string)
    ensures |r| == |s|
  {
    seq(|s|, i requires 0 <= i < |s| => LowerChar(s[i]))
  }

  predicate HasNoUpper(s: string) {
    forall i | 0 <= i < |s| :: !IsUpper(s[i])
  }

  lemma LowerAppend(a: string, b: string)
    ensures Lower(a + b) == Lower(a) + Lower(b)
  {
    assert forall i | 0 <= i < |a + b| :: Lower(a + b)[i] == (Lower(a) + Lower(b))[i];
  }

  lemma LowerOfLowerCase(s: string)
    requires HasNoUpper(s)
    ensures Lower(s) == s
  {
  }

  // ---------------------------------------------------------------- strip()

  /** The index of the first non-whitespace character of `s` at or after `i`, or `|s|`. */
  function SkipSpace(s: string, i: nat): (j: nat)
    requires i <= |s|
    ensures i <= j <= |s|
    ensures j < |s| ==> !IsSpace(s[j])
    decreases |s| - i
  {
    if i < |s| && IsSpace(s[i]) then SkipSpace(s, i + 1) else i
  }

  lemma {:induction false} SkipSpaceSkipsSpace(s: string, i: nat)
    requires i <= |s|
    ensures forall k | i <= k < SkipSpace(s, i) :: IsSpace(s[k])
    decreases |s| - i
  {
    if i < |s| && IsSpace(s[i]) {
      SkipSpaceSkipsSpace(s, i + 1);
    }
  }

  /** The end of `s[..n]` once its trailing whitespace is cut off. */
  function SpaceEnd(s: string, n: nat): (m: nat)
    requires n <= |s|
    ensures m <= n
    ensures m > 0 ==> !IsSpace(s[m - 1])
    decreases n
  {
    if n > 0 && IsSpace(s[n - 1]) then SpaceEnd(s, n - 1) else n
  }

  lemma {:induction false} SpaceEndSkipsSpace(s: string, n: nat)
    requires n <= |s|
    ensures forall k | SpaceEnd(s, n) <= k < n :: IsSpace(s[k])
    decreases n
  {
    if n > 0 && IsSpace(s[n - 1]) {
      SpaceEndSkipsSpace(s, n - 1);
    }
  }

  /** `s.lstrip()`: the suffix of `s` from its first non-whitespace character. */
  function TrimStart(s: string): string {
    s[SkipSpace(s, 0)..]
  }

  /** What `lstrip()` removes is whitespace only. */
  lemma TrimStartRemovesSpace(s: string)
    ensures forall i | 0 <= i < |s| - |TrimStart(s)| :: IsSpace(s[i])
  {
    SkipSpaceSkipsSpace(s, 0);
  }

  /** `s.rstrip()`: the prefix of `s` up to its last non-whitespace character. */
  function TrimEnd(s: string): string {
    s[..SpaceEnd(s, |s|)]
  }

  /** What `rstrip()` removes is whitespace only. */
  lemma TrimEndRemovesSpace(s: string)
    ensures forall i | |TrimEnd(s)| <= i < |s| :: IsSpace(s[i])
  {
    SpaceEndSkipsSpace(s, |s|);
  }

  /** `s.strip()`: removes leading and trailing whitespace. */
  function Strip(s: string): string {
    TrimEnd(TrimStart(s))
  }

  /** A string `strip()` leaves alone. */
  predicate IsStripped(s: string) {
    s == [] || (!IsSpace(s[0]) && !IsSpace(s[|s| - 1]))
  }

  lemma StripIsStripped(s: string)
    ensures IsStripped(Strip(s))
  {
    var t := TrimStart(s);
    var r := TrimEnd(t);
    if r != [] {
      assert r[0] == t[0] == s[SkipSpace(s, 0)];
      assert r[|r| - 1] == t[SpaceEnd(t, |t|) - 1];
    }
  }

  lemma StripOfStripped(s: string)
    requires IsStripped(s)
    ensures Strip(s) == s
  {
    assert SkipSpace(s, 0) == 0;
    assert s[0..] == s;
    assert SpaceEnd(s, |s|) == |s|;
    assert s[..|s|] == s;
  }

  /** Stripping finds the first and the last non-space character, nothing else. */
  lemma StripIsEmptyIffAllSpace(s: string)
    ensures Strip(s) == [] <==> forall i | 0 <= i < |s| :: IsSpace(s[i])
  {
    var j := SkipSpace(s, 0);
    var t := TrimStart(s);
    SkipSpaceSkipsSpace(s, 0);
    if j < |s| {
      assert t[0] == s[j];
      SpaceEndSkipsSpace(t, |t|);
    }
  }

  // ---------------------------------------------------------------- in / endswith

  /** Python's `p in s` for strings: `p` occurs in `s` (the empty string occurs everywhere). */
  predicate Contains(s: string, p: string)
    decreases |s|
  {
    StartsWith(s, p) || (s != [] && Contains(s[1..], p))
  }

  /** `s.startswith(p)`. */
  predicate StartsWith(s: string, p: string) {
    |p| <= |s| && s[..|p|] == p
  }

  /** `p` occurs in `s` starting at index `i`. */
  predicate OccursAt(s: string, p: string, i: int) {
    0 <= i <= |s| - |p| && s[i..i + |p|] == p
  }

  /** `Contains` finds exactly the positions where `p` occurs. */
  lemma {:induction false} ContainsIffOccurs(s: string, p: string)
    ensures Contains(s, p) <==> exists i | 0 <= i <= |s| - |p| :: OccursAt(s, p, i)
    decreases |s|
  {
    if s == [] {
      if p == [] {
        assert OccursAt(s, p, 0);
      }
    } else {
      var t := s[1..];
      ContainsIffOccurs(t, p);
      if Contains(s, p) {
        if StartsWith(s, p) {
          assert OccursAt(s, p, 0);
        } else {
          var i :| 0 <= i <= |t| - |p| && OccursAt(t, p, i);
          assert t[i..i + |p|] == s[i + 1..i + 1 + |p|];
          assert OccursAt(s, p, i + 1);
        }
      }
      if exists i | 0 <= i <= |s| - |p| :: OccursAt(s, p, i) {
        var i :| 0 <= i <= |s| - |p| && OccursAt(s, p, i);
        if i == 0 {
          assert StartsWith(s, p);
        } else {
          assert t[i - 1..i - 1 + |p|] == s[i..i + |p|];
          assert OccursAt(t, p, i - 1);
        }
      }
    }
  }

  lemma ContainsInLarger(u: string, t: string, v: string, p: string)
    requires Contains(t, p)
    ensures Contains(u + t + v, p)
  {
    ContainsIffOccurs(t, p);
    var i :| 0 <= i <= |t| - |p| && OccursAt(t, p, i);
    var s := u + t + v;
    assert s[|u| + i..|u| + i + |p|] == t[i..i + |p|];
    assert OccursAt(s, p, |u| + i);
    ContainsIffOccurs(s, p);
  }

  lemma ContainsSelf(s: string)
    ensures Contains(s, s)
  {
    assert s[..|s|] == s;
  }

  lemma ContainsEmpty(s: string)
    ensures Contains(s, "")
  {
    assert s[..0] == "";
  }

  /** Nothing longer than `s` occurs in it. */
  lemma {:induction false} ContainsShort(s: string, p: string)
    requires |s| < |p|
    ensures !Contains(s, p)
    decreases |s|
  {
    if s != [] {
      ContainsShort(s[1..], p);
    }
  }

  /** `s.endswith(suffix)`. */
  predicate EndsWith(s: string, suffix: string) {
    |suffix| <= |s| && s[|s| - |suffix|..] == suffix
  }

  // ---------------------------------------------------------------- replace / split

  /** `s.replace(a, b)` for single characters. */
  function ReplaceChar(s: string, a: char, b: char): (r: string)
    ensures |r| == |s|
  {
    seq(|s|, i requires 0 <= i < |s| => if s[i] == a then b else s[i])
  }

  /** `s.replace(c, '')`: every occurrence of `c` deleted, the rest in order. */
  function RemoveChar(s: string, c: char): (r: string)
    ensures |r| <= |s|
  {
    if s == [] then []
    else if s[0] == c then RemoveChar(s[1..], c)
    else [s[0]] + RemoveChar(s[1..], c)
  }

  /** After `replace(c, '')` no `c` is left, and every remaining character was there before. */
  lemma {:induction false} RemoveCharSpec(s: string, c: char)
    ensures c !in RemoveChar(s, c)
    ensures forall x | x in RemoveChar(s, c) :: x in s
  {
    if s != [] {
      RemoveCharSpec(s[1..], c);
      assert forall x | x in s[1..] :: x in s;
    }
  }

  lemma RemoveAbsentChar(s: string, c: char)
    requires c !in s
    ensures RemoveChar(s, c) == s
  {
    if s != [] {
      RemoveAbsentChar(s[1..], c);
    }
  }

  /** `s.split(c)` for a single character: the pieces between the separators, at least one. */
  function Split(s: string, c: char): (r: seq<string>)
    ensures |r| >= 1
  {
    if s == [] then [""]
    else
      var rest := Split(s[1..], c);
      if s[0] == c then [""] + rest else [[s[0]] + rest[0]] + rest[1..]
  }

  /** No piece contains the separator, and there is one piece more than separators. */
  lemma {:induction false} SplitSpec(s: string, c: char)
    ensures forall k | 0 <= k < |Split(s, c)| :: c !in Split(s, c)[k]
    ensures |Split(s, c)| == multiset(s)[c] + 1
  {
    if s != [] {
      SplitSpec(s[1..], c);
      assert s == [s[0]] + s[1..];
    }
  }

  /** The index of the first `c` in `s` at or after `i`, or `|s|`. */
  function IndexOf(s: string, c: char, i: nat): (j: nat)
    requires i <= |s|
    ensures i <= j <= |s|
    ensures j < |s| ==> s[j] == c
    decreases |s| - i
  {
    if i < |s| && s[i] != c then IndexOf(s, c, i + 1) else i
  }

  lemma {:induction false} IndexOfIsFirst(s: string, c: char, i: nat)
    requires i <= |s|
    ensures forall k | i <= k < IndexOf(s, c, i) :: s[k] != c
    decreases |s| - i
  {
    if i < |s| && s[i] != c {
      IndexOfIsFirst(s, c, i + 1);
    }
  }

  /** `s.split(c)[0]`: the text before the first `c`, or all of `s`. */
  function BeforeFirst(s: string, c: char): string {
    s[..IndexOf(s, c, 0)]
  }

  /** The end of the whitespace-free run of `s` that starts at `i`. */
  function WordEnd(s: string, i: nat): (j: nat)
    requires i <= |s|
    ensures i <= j <= |s|
    ensures j < |s| ==> IsSpace(s[j])
    ensures i < |s| && !IsSpace(s[i]) ==> i < j
    decreases |s| - i
  {
    if i < |s| && !IsSpace(s[i]) then WordEnd(s, i + 1) else i
  }

  /** The first whitespace-free run at the start of `s`. */
  function LeadingWord(s: string): string {
    s[..WordEnd(s, 0)]
  }

  /** `s.split()` with no argument: the maximal runs of non-whitespace, in order. */
  function Words(s: string): (r: seq<string>)
    decreases |s|
  {
    var t := TrimStart(s);
    if t == [] then []
    else
      var w := LeadingWord(t);
      [w] + Words(t[|w|..])
  }

  predicate HasNoSpace(s: string) {
    forall i | 0 <= i < |s| :: !IsSpace(s[i])
  }

  lemma WordsEmptyIffAllSpace(s: string)
    ensures Words(s) == [] <==> forall i | 0 <= i < |s| :: IsSpace(s[i])
  {
    var t := TrimStart(s);
    TrimStartRemovesSpace(s);
    if t != [] {
      assert !IsSpace(s[|s| - |t|]);
    }
  }

  /** The run starting at `i` ends at `n` when everything between is non-whitespace and
      whitespace (or the end) follows. */
  lemma {:induction false} WordEndAt(s: string, i: nat, n: nat)
    requires i <= n <= |s|
    requires forall k | i <= k < n :: !IsSpace(s[k])
    requires n == |s| || IsSpace(s[n])
    ensures WordEnd(s, i) == n
    decreases n - i
  {
    if i < n {
      WordEndAt(s, i + 1, n);
    }
  }

  lemma WordsOfSingleWord(w: string)
    requires w != [] && HasNoSpace(w)
    ensures Words(w) == [w]
  {
    assert SkipSpace(w, 0) == 0;
    assert TrimStart(w) == w;
    LeadingWordOfWord(w);
    assert w[|w|..] == [];
  }

  lemma LeadingWordOfWord(w: string)
    requires HasNoSpace(w)
    ensures LeadingWord(w) == w
  {
    WordEndAt(w, 0, |w|);
    assert w[..|w|] == w;
  }

  /** A leading word followed by whitespace (or nothing) is the first of the words. */
  lemma WordsCons(a: string, rest: string)
    requires a != [] && HasNoSpace(a)
    requires rest == [] || IsSpace(rest[0])
    ensures Words(a + rest) == [a] + Words(rest)
  {
    var s := a + rest;
    assert s[0] == a[0];
    assert SkipSpace(s, 0) == 0;
    assert TrimStart(s) == s;
    LeadingWordPrefix(a, rest);
    assert s[|a|..] == rest;
  }

  /** Skipping whitespace in `[c] + b` from `i + 1` is skipping it in `b` from `i`. */
  lemma {:induction false} SkipSpaceShift(c: char, b: string, i: nat)
    requires i <= |b|
    ensures SkipSpace([c] + b, i + 1) == SkipSpace(b, i) + 1
    decreases |b| - i
  {
    var s := [c] + b;
    if i < |b| {
      assert s[i + 1] == b[i];
      if IsSpace(b[i]) {
        SkipSpaceShift(c, b, i + 1);
      }
    }
  }

  lemma WordsSkipSpace(c: char, b: string)
    requires IsSpace(c)
    ensures Words([c] + b) == Words(b)
  {
    var s := [c] + b;
    SkipSpaceShift(c, b, 0);
    assert SkipSpace(s, 0) == SkipSpace(s, 1);
    assert TrimStart(s) == TrimStart(b);
  }

  /** Two words separated by one space split into exactly those two words. */
  lemma WordsOfTwo(a: string, b: string)
    requires a != [] && HasNoSpace(a)
    requires b != [] && HasNoSpace(b)
    ensures Words(a + " " + b) == [a, b]
  {
    assert a + " " + b == a + ([' '] + b);
    WordsCons(a, [' '] + b);
    WordsSkipSpace(' ', b);
    WordsOfSingleWord(b);
  }

  lemma LeadingWordPrefix(a: string, rest: string)
    requires HasNoSpace(a)
    requires rest == [] || IsSpace(rest[0])
    ensures LeadingWord(a + rest) == a
  {
    var s := a + rest;
    forall k | 0 <= k < |a| ensures !IsSpace(s[k]) {
      assert s[k] == a[k];
    }
    if |a| < |s| {
      assert s[|a|] == rest[0];
    }
    WordEndAt(s, 0, |a|);
    assert s[..|a|] == a;
  }

  /** `sep.join(xs)`. */
  function Join(sep: string, xs: seq<string>): string {
    if xs == [] then ""
    else if |xs| == 1 then xs[0]
    else xs[0] + sep + Join(sep, xs[1..])
  }

  // ---------------------------------------------------------------- numbers

  /** `str.isdigit()` restricted to the ASCII digits `0`..`9`: non-empty and all digits.
      Python also accepts the other Unicode decimal digits and the superscripts. */
  predicate IsDigits(s: string) {
    |s| > 0 && forall i | 0 <= i < |s| :: IsDigit(s[i])
  }

  /** The value of a string of decimal digits. */
  function DigitsValue(s: string): nat
    requires forall i | 0 <= i < |s| :: IsDigit(s[i])
  {
    if s == [] then 0
    else
      assert IsDigit(s[|s| - 1]);
      DigitsValue(s[..|s| - 1]) * 10 + (s[|s| - 1] as int - '0' as int)
  }

  /** Digits with single underscores between them, as Python's `int()` accepts. */
  predicate IsIntegerBody(b: string) {
    && |b| > 0
    && IsDigit(b[0])
    && forall i | 0 <= i < |b| :: IsDigit(b[i]) || (b[i] == '_' && 0 < i < |b| - 1 && IsDigit(b[i + 1]))
  }

  lemma UnderscoresRemoved(b: string)
    requires IsIntegerBody(b)
    ensures forall i | 0 <= i < |RemoveChar(b, '_')| :: IsDigit(RemoveChar(b, '_')[i])
  {
    var r := RemoveChar(b, '_');
    RemoveCharSpec(b, '_');
    forall i | 0 <= i < |r| ensures IsDigit(r[i]) {
      assert r[i] in r;
      var j :| 0 <= j < |b| && b[j] == r[i];
    }
  }

  /** Python's `int(s)` for a string: surrounding whitespace, an optional sign, digits and
      single underscores; anything else raises, which is `None` here. */
  function ParseInt(s: string): (r: Option<int>)
    ensures IsDigits(s) ==> r == Some(DigitsValue(s))
  {
    var t := Strip(s);
    if |t| > 0 && (t[0] == '+' || t[0] == '-') then
      var body := t[1..];
      if IsIntegerBody(body) then
        UnderscoresRemoved(body);
        var m: int := DigitsValue(RemoveChar(body, '_'));
        Some(if t[0] == '-' then -m else m)
      else None
    else if IsIntegerBody(t) then
      assert IsDigits(s) ==> t == s by {
        if IsDigits(s) { StripOfStripped(s); }
      }
      assert IsDigits(s) ==> RemoveChar(t, '_') == t by {
        if IsDigits(s) { RemoveAbsentChar(t, '_'); }
      }
      UnderscoresRemoved(t);
      Some(DigitsValue(RemoveChar(t, '_')))
    else
      assert IsDigits(s) ==> t == s by {
        if IsDigits(s) { StripOfStripped(s); }
      }
      None
  }
}
