/**
 * The Python string operations the storefront and note code rely on:
 * `str.strip`/`str.rstrip`, `str.replace`, `str.startswith`, `str(int)` as
 * used inside f-strings, and `float(text)` on a price, the last one
 * abstracted to a whole number of cents.
 */
module PyStrings {
  import opened Wrappers

  /** Python's `str.isspace`: what `str.strip()` removes when given no argument. */
  predicate IsSpace(c: char) {
    c == ' ' || ('\t' <= c <= '\r') || ('\U{1c}' <= c <= '\U{1f}')
    || c == '\U{85}' || c == '\U{a0}' || c == '\U{1680}'
    || ('\U{2000}' <= c <= '\U{200a}') || c == '\U{2028}' || c == '\U{2029}'
    || c == '\U{202f}' || c == '\U{205f}' || c == '\U{3000}'
  }

  /** The character set of `strip("/")` and `rstrip("/")`. */
  predicate IsSlash(c: char) { c == '/' }

  /** `s.rstrip(chars)`: drop trailing characters that belong to the set. */
  function RStrip(s: string, drop: char -> bool): (r: string)
    ensures |r| <= |s| && r == s[..|r|]
    ensures forall i :: |r| <= i < |s| ==> drop(s[i])
    ensures |r| < |s| ==> drop(s[|r|])
    ensures r == "" || !drop(r[|r| - 1])
    decreases |s|
  {
    if s != [] && drop(s[|s| - 1]) then
      var init := s[..|s| - 1];
      var r := RStrip(init, drop);
      assert init[..|r|] == s[..|r|];
      assert forall i :: |r| <= i < |init| ==> s[i] == init[i];
      r
    else s
  }

  /** How many leading characters of `s` belong to the set. */
  function LeadingCount(s: string, drop: char -> bool): (k: nat)
    ensures k <= |s|
    ensures forall i :: 0 <= i < k ==> drop(s[i])
    ensures k == |s| || !drop(s[k])
    decreases |s|
  {
    if s != [] && drop(s[0]) then
      var k := LeadingCount(s[1..], drop);
      assert forall i :: 1 <= i < k + 1 ==> s[i] == s[1..][i - 1];
      k + 1
    else 0
  }

  /** `s.lstrip(chars)`: drop leading characters that belong to the set. */
  function LStrip(s: string, drop: char -> bool): (r: string)
    ensures |r| <= |s| && r == s[|s| - |r|..]
    ensures forall i :: 0 <= i < |s| - |r| ==> drop(s[i])
    ensures |r| < |s| ==> drop(s[0])
    ensures r == "" || !drop(r[0])
  {
    s[LeadingCount(s, drop)..]
  }

  /**
   * `s.strip(chars)`: both ends. The result is the slice of `s` that starts
   * after its leading run of set characters and is followed only by set
   * characters.
   */
  function Strip(s: string, drop: char -> bool): (r: string)
    ensures |r| <= |s|
    ensures r == "" || (!drop(r[0]) && !drop(r[|r| - 1]))
    ensures (forall i :: 0 <= i < |s| ==> !drop(s[i])) ==> r == s
    ensures OccursAt(s, r, LeadingCount(s, drop))
    ensures forall k :: LeadingCount(s, drop) + |r| <= k < |s| ==> drop(s[k])
  {
    StripEnds(s, drop);
    StripSlice(s, drop);
    LStrip(RStrip(s, drop), drop)
  }

  /** Neither end of `strip`'s result is in the set, and a string with nothing to strip is kept. */
  lemma StripEnds(s: string, drop: char -> bool)
    ensures var r := LStrip(RStrip(s, drop), drop);
      && (r == "" || (!drop(r[0]) && !drop(r[|r| - 1])))
      && ((forall i :: 0 <= i < |s| ==> !drop(s[i])) ==> r == s)
  {
    var t := RStrip(s, drop);
    var r := LStrip(t, drop);
    KeptEnds(t, r, drop);
    if forall i :: 0 <= i < |s| ==> !drop(s[i]) {
      NothingToStrip(s, drop);
    }
  }

  /** A tail of `t` that starts outside the set, where `t` ends outside it, has both ends outside it. */
  lemma KeptEnds(t: string, r: string, drop: char -> bool)
    requires |r| <= |t| && r == t[|t| - |r|..]
    requires r == "" || !drop(r[0])
    requires t == "" || !drop(t[|t| - 1])
    ensures r == "" || (!drop(r[0]) && !drop(r[|r| - 1]))
  {
    assert r != "" ==> r[|r| - 1] == t[|t| - 1];
  }

  lemma NothingToStrip(s: string, drop: char -> bool)
    requires forall i :: 0 <= i < |s| ==> !drop(s[i])
    ensures RStrip(s, drop) == s && LStrip(s, drop) == s
  {
    if s != [] {
      assert !drop(s[|s| - 1]) && !drop(s[0]);
      assert LeadingCount(s, drop) == 0;
    }
  }

  /** Where `strip`'s result sits inside its argument. */
  lemma StripSlice(s: string, drop: char -> bool)
    ensures var r := LStrip(RStrip(s, drop), drop);
      var i := LeadingCount(s, drop);
      && OccursAt(s, r, i)
      && (forall k :: i + |r| <= k < |s| ==> drop(s[k]))
  {
    var t := RStrip(s, drop);
    var r := LStrip(t, drop);
    StripStart(s, t, r, drop);
    StripPrefixPlace(s, t, r, LeadingCount(s, drop), drop);
  }

  /**
   * `strip`'s result starts where the leading run of set characters of `s`
   * ends: at the end of `s` when nothing is kept.
   */
  lemma StripStart(s: string, t: string, r: string, drop: char -> bool)
    requires t == RStrip(s, drop) && r == LStrip(t, drop)
    ensures t == "" ==> LeadingCount(s, drop) == |s|
    ensures t != "" ==> LeadingCount(s, drop) == |t| - |r|
  {
    if t == "" {
      AllDropped(s, drop);
    } else {
      LeadingCountPrefix(s, t, drop);
      assert r == t[LeadingCount(t, drop)..];
    }
  }

  /** A string made only of set characters is one leading run. */
  lemma AllDropped(s: string, drop: char -> bool)
    requires forall k :: 0 <= k < |s| ==> drop(s[k])
    ensures LeadingCount(s, drop) == |s|
  {
  }

  /** A prefix that ends outside the set starts with the same run of set characters. */
  lemma LeadingCountPrefix(s: string, t: string, drop: char -> bool)
    requires |t| <= |s| && t == s[..|t|]
    requires t != "" && !drop(t[|t| - 1])
    ensures LeadingCount(t, drop) == LeadingCount(s, drop)
  {
    var k1 := LeadingCount(t, drop);
    var k2 := LeadingCount(s, drop);
    assert k1 < |t|;
    assert s[k1] == t[k1];
  }

  /**
   * A tail `r` of `t`, where `t` is a prefix of `s` followed only by set
   * characters, sits at `|t| - |r|` in `s` (at the end when `t` is empty) and
   * is followed only by set characters.
   */
  lemma StripPrefixPlace(s: string, t: string, r: string, i: int, drop: char -> bool)
    requires |t| <= |s| && t == s[..|t|]
    requires forall k :: |t| <= k < |s| ==> drop(s[k])
    requires |r| <= |t| && r == t[|t| - |r|..]
    requires t == "" ==> i == |s|
    requires t != "" ==> i == |t| - |r|
    ensures OccursAt(s, r, i)
    ensures forall k :: i + |r| <= k < |s| ==> drop(s[k])
  {
    if t != "" {
      assert s[i..i + |r|] == t[i..];
    }
  }

  /** `rstrip` removes exactly a trailing run of set characters before a kept end. */
  lemma RStripOf(a: string, b: string, drop: char -> bool)
    requires forall k :: 0 <= k < |b| ==> drop(b[k])
    requires a == "" || !drop(a[|a| - 1])
    ensures RStrip(a + b, drop) == a
  {
    var s := a + b;
    var r := RStrip(s, drop);
    assert a != "" ==> s[|a| - 1] == a[|a| - 1];
    assert r == s[..|a|] == a;
  }

  /** `lstrip` removes exactly a leading run of set characters before a kept start. */
  lemma LStripOf(a: string, b: string, drop: char -> bool)
    requires forall k :: 0 <= k < |a| ==> drop(a[k])
    requires b == "" || !drop(b[0])
    ensures LStrip(a + b, drop) == b
  {
    LeadingCountOf(a, b, drop);
  }

  lemma {:induction false} LeadingCountOf(a: string, b: string, drop: char -> bool)
    requires forall k :: 0 <= k < |a| ==> drop(a[k])
    requires b == "" || !drop(b[0])
    ensures LeadingCount(a + b, drop) == |a|
    decreases |a|
  {
    if a == "" {
      assert a + b == b;
    } else {
      assert (a + b)[0] == a[0];
      assert (a + b)[1..] == a[1..] + b;
      LeadingCountOf(a[1..], b, drop);
    }
  }

  /**
   * `strip` keeps exactly the core between a leading and a trailing run of
   * set characters, when the core's own ends are outside the set.
   */
  lemma StripOf(pre: string, core: string, post: string, drop: char -> bool)
    requires forall k :: 0 <= k < |pre| ==> drop(pre[k])
    requires forall k :: 0 <= k < |post| ==> drop(post[k])
    requires core == "" || (!drop(core[0]) && !drop(core[|core| - 1]))
    ensures Strip(pre + core + post, drop) == core
  {
    if core == "" {
      assert pre + core + post == pre + post;
      forall k | 0 <= k < |pre + post| ensures drop((pre + post)[k]) {
        if k >= |pre| {
          assert (pre + post)[k] == post[k - |pre|];
        }
      }
      RStripOf("", pre + post, drop);
      assert "" + (pre + post) == pre + post;
      assert LStrip("", drop) == "";
    } else {
      assert pre + core + post == (pre + core) + post;
      RStripOf(pre + core, post, drop);
      LStripOf(pre, core, drop);
    }
  }

  predicate StartsWith(s: string, prefix: string) {
    |prefix| <= |s| && s[..|prefix|] == prefix
  }

  predicate EndsWith(s: string, suffix: string) {
    |suffix| <= |s| && s[|s| - |suffix|..] == suffix
  }

  /** Ending with a one-character string is having that character last. */
  lemma EndsWithLast(s: string, c: char)
    ensures EndsWith(s, [c]) <==> s != [] && s[|s| - 1] == c
  {
    if s != [] {
      assert s[|s| - 1..] == [s[|s| - 1]];
    }
  }

  /** `c in s`. */
  predicate Contains(s: string, c: char) {
    exists i :: 0 <= i < |s| && s[i] == c
  }

  function HexDigit(d: nat): (c: char)
    requires d < 16
  {
    if d < 10 then DigitChar(d) else ('a' as int + d - 10) as char
  }

  /**
   * `repr(s)` for a string: single quotes, or double quotes when the text
   * holds a `'` and no `"`, around the escaped characters.
   */
  function Repr(s: string): (r: string)
    ensures |r| >= |s| + 2
  {
    var q := if Contains(s, '\'') && !Contains(s, '"') then '"' else '\'';
    [q] + ReprBody(s, q) + [q]
  }

  function ReprBody(s: string, q: char): (r: string)
    ensures |r| >= |s|
    decreases |s|
  {
    if s == [] then "" else ReprChar(s[0], q) + ReprBody(s[1..], q)
  }

  /**
   * One character inside `repr`: the quote and the backslash get a
   * backslash, tab, newline and carriage return their escapes, the other
   * control characters, U+00A0 and U+00AD a `\xhh` escape; the rest is kept.
   */
  function ReprChar(c: char, q: char): (r: string)
    ensures |r| >= 1
  {
    if c == q || c == '\\' then ['\\', c]
    else if c == '\t' then "\\t"
    else if c == '\n' then "\\n"
    else if c == '\r' then "\\r"
    else if c < ' ' || ('\U{7f}' <= c <= '\U{a0}') || c == '\U{ad}' then
      "\\x" + [HexDigit(c as int / 16), HexDigit(c as int % 16)]
    else [c]
  }

  /** A printable ASCII character with no escape of its own. */
  predicate PlainChar(c: char) {
    ' ' <= c <= '~' && c != '\\'
  }

  lemma {:induction false} ReprBodyPlain(s: string, q: char)
    requires forall i :: 0 <= i < |s| ==> PlainChar(s[i]) && s[i] != q
    ensures ReprBody(s, q) == s
    decreases |s|
  {
    if s != [] {
      ReprBodyPlain(s[1..], q);
      assert s == [s[0]] + s[1..];
    }
  }

  /** Printable text without quotes or backslashes is shown between single quotes. */
  lemma ReprPlain(s: string)
    requires forall i :: 0 <= i < |s| ==> PlainChar(s[i]) && s[i] != '\'' && s[i] != '"'
    ensures Repr(s) == "'" + s + "'"
  {
    ReprBodyPlain(s, '\'');
  }

  /** Printable text holding a `'` but no `"` is shown between double quotes, the `'` unescaped. */
  lemma ReprApostrophe(s: string, k: nat)
    requires k < |s| && s[k] == '\''
    requires forall i :: 0 <= i < |s| ==> PlainChar(s[i]) && s[i] != '"'
    ensures Repr(s) == "\"" + s + "\""
  {
    ReprBodyPlain(s, '"');
  }

  /** `pat` occurs in `s` starting at index `i`. */
  predicate OccursAt(s: string, pat: string, i: int) {
    0 <= i && i + |pat| <= |s| && s[i..i + |pat|] == pat
  }

  predicate Occurs(s: string, pat: string) {
    exists i | 0 <= i <= |s| :: OccursAt(s, pat, i)
  }

  /**
   * `s.replace(pat, rep)`: every non-overlapping occurrence of `pat`,
   * scanning from the left, is replaced by `rep`.
   */
  function ReplaceAll(s: string, pat: string, rep: string): (r: string)
    requires pat != ""
    ensures |rep| == |pat| ==> |r| == |s|
    decreases |s|
  {
    if |s| < |pat| then s
    else if s[..|pat|] == pat then rep + ReplaceAll(s[|pat|..], pat, rep)
    else [s[0]] + ReplaceAll(s[1..], pat, rep)
  }

  /**
   * The leftmost occurrence is replaced: text before it that holds no
   * occurrence (not even one running into the pattern) is kept, and the
   * scan goes on after the pattern.
   */
  lemma {:induction false} ReplaceAllLeftmost(a: string, pat: string, b: string, rep: string)
    requires pat != "" && !Occurs(a + pat[..|pat| - 1], pat)
    ensures ReplaceAll(a + pat + b, pat, rep) == a + rep + ReplaceAll(b, pat, rep)
    decreases |a|
  {
    var s := a + pat + b;
    var tail := ReplaceAll(b, pat, rep);
    if a == "" {
      assert ReplaceAll(s, pat, rep) == rep + tail by {
        assert s[..|pat|] == pat && s[|pat|..] == b;
      }
      assert a + rep + tail == rep + tail;
    } else {
      assert ReplaceAll(s, pat, rep) == [a[0]] + (a[1..] + rep + tail) by {
        LeftmostStep(a, pat, b);
        ReplaceAllSkip(s, pat, rep);
        ReplaceAllLeftmost(a[1..], pat, b, rep);
      }
      assert [a[0]] + (a[1..] + rep + tail) == a + rep + tail by {
        assert [a[0]] + a[1..] == a;
      }
    }
  }

  /** Where the pattern does not start, the first character is kept as it is. */
  lemma ReplaceAllSkip(s: string, pat: string, rep: string)
    requires pat != "" && |pat| <= |s| && s[..|pat|] != pat
    ensures ReplaceAll(s, pat, rep) == [s[0]] + ReplaceAll(s[1..], pat, rep)
  {
  }

  /** One step of the scan over a prefix `a` that holds no occurrence. */
  lemma LeftmostStep(a: string, pat: string, b: string)
    requires a != "" && pat != "" && !Occurs(a + pat[..|pat| - 1], pat)
    ensures (a + pat + b)[..|pat|] != pat
    ensures (a + pat + b)[1..] == a[1..] + pat + b
    ensures !Occurs(a[1..] + pat[..|pat| - 1], pat)
  {
    var s := a + pat + b;
    var front := a + pat[..|pat| - 1];
    assert s[..|pat|] == front[..|pat|];
    assert !OccursAt(front, pat, 0);
    NoOccurrenceInTail(front, pat);
    assert front[1..] == a[1..] + pat[..|pat| - 1];
  }

  /** A string without an occurrence has none after its first character either. */
  lemma NoOccurrenceInTail(s: string, pat: string)
    requires s != "" && !Occurs(s, pat)
    ensures !Occurs(s[1..], pat)
  {
    forall i | OccursAt(s[1..], pat, i) ensures false {
      assert s[1..][i..i + |pat|] == s[i + 1..i + 1 + |pat|];
      assert OccursAt(s, pat, i + 1);
    }
  }

  /** Replacing a pattern that does not occur leaves the string as it is. */
  lemma {:induction false} ReplaceAllAbsent(s: string, pat: string, rep: string)
    requires pat != "" && !Occurs(s, pat)
    ensures ReplaceAll(s, pat, rep) == s
    decreases |s|
  {
    if |s| >= |pat| {
      assert !OccursAt(s, pat, 0);
      forall i | OccursAt(s[1..], pat, i) ensures false {
        assert s[1..][i..i + |pat|] == s[i + 1..i + 1 + |pat|];
        assert OccursAt(s, pat, i + 1);
      }
      ReplaceAllAbsent(s[1..], pat, rep);
    }
  }

  /**
   * Replacing one character by another keeps the length and changes exactly
   * the positions that held the replaced character.
   */
  lemma {:induction false} ReplaceCharPointwise(s: string, a: char, b: char)
    ensures |ReplaceAll(s, [a], [b])| == |s|
    ensures forall i :: 0 <= i < |s| ==>
      ReplaceAll(s, [a], [b])[i] == (if s[i] == a then b else s[i])
    decreases |s|
  {
    if s != [] {
      ReplaceCharPointwise(s[1..], a, b);
      var r := ReplaceAll(s, [a], [b]);
      var t := ReplaceAll(s[1..], [a], [b]);
      assert r == [if s[0] == a then b else s[0]] + t;
    }
  }

  /**
   * A pattern whose character `k` is a ':' cannot occur in a string that has
   * no ':' from index `k` on.
   */
  lemma NoColonNoOccurrence(s: string, pat: string, k: nat)
    requires k < |pat| && pat[k] == ':'
    requires forall i :: k <= i < |s| ==> s[i] != ':'
    ensures !Occurs(s, pat)
  {
  }

  predicate IsDigit(c: char) { '0' <= c <= '9' }

  predicate AllDigits(s: string) {
    forall i :: 0 <= i < |s| ==> IsDigit(s[i])
  }

  function DigitChar(d: nat): (c: char)
    requires d < 10
    ensures IsDigit(c)
  {
    ('0' as int + d) as char
  }

  function DigitValue(c: char): (d: nat)
    requires IsDigit(c)
    ensures d < 10 && DigitChar(d) == c
  {
    (c as int - '0' as int)
  }

  /** Python's `str(n)` for a non-negative int: decimal digits, no leading zero. */
  function NatToString(n: nat): (s: string)
    ensures |s| > 0 && AllDigits(s)
    ensures s[0] == '0' ==> n == 0 && s == "0"
    decreases n
  {
    if n < 10 then [DigitChar(n)] else NatToString(n / 10) + [DigitChar(n % 10)]
  }

  /**
   * Python's `str(n)` for any int, as an f-string renders it: a '-' exactly
   * for a negative number, then the digits, with no leading zero.
   */
  function IntToString(n: int): (s: string)
    ensures |s| > 0
    ensures s[0] == '-' <==> n < 0
    ensures var d := if n < 0 then s[1..] else s;
      d != [] && AllDigits(d) && (d[0] == '0' ==> d == "0")
  {
    if n < 0 then "-" + NatToString(-n) else NatToString(n)
  }

  /** The value of a string of decimal digits ("" reads as 0). */
  function ParseNat(s: string): nat
    requires AllDigits(s)
    decreases |s|
  {
    if s == [] then 0 else ParseNat(s[..|s| - 1]) * 10 + DigitValue(s[|s| - 1])
  }

  /** `int(s)` restricted to what `str(n)` produces: an optional '-', then digits. */
  function ParseInt(s: string): Option<int> {
    if s != [] && s[0] == '-' then
      if s[1..] != [] && AllDigits(s[1..]) then Some(0 - ParseNat(s[1..])) else None
    else if s != [] && AllDigits(s) then Some(ParseNat(s))
    else None
  }

  lemma {:induction false} NatToStringRoundTrip(n: nat)
    ensures ParseNat(NatToString(n)) == n
    decreases n
  {
    if n >= 10 {
      NatToStringRoundTrip(n / 10);
      var s := NatToString(n);
      assert s[..|s| - 1] == NatToString(n / 10);
    }
  }

  /** `str(n)` can be read back: the rendering loses nothing. */
  lemma IntToStringRoundTrip(n: int)
    ensures ParseInt(IntToString(n)) == Some(n)
  {
    if n < 0 {
      NatToStringRoundTrip(-n);
      assert IntToString(n)[1..] == NatToString(-n);
    } else {
      NatToStringRoundTrip(n);
    }
  }

  /** Index of the first `c` in `s`, or `|s|` when there is none. */
  function IndexOf(s: string, c: char): (k: nat)
    ensures k <= |s|
    ensures k < |s| ==> s[k] == c
    ensures forall i :: 0 <= i < k ==> s[i] != c
    decreases |s|
  {
    if s == [] then 0 else if s[0] == c then 0 else 1 + IndexOf(s[1..], c)
  }

  /**
   * `float(text)` on a price, in cents: an optional sign, digits, and an
   * optional '.' with at most two fraction digits; at least one digit in all.
   */
  function ParseCents(s: string): Option<int> {
    if s != [] && (s[0] == '-' || s[0] == '+') then
      var m :- ParseUnsignedCents(s[1..]);
      var cents: int := if s[0] == '-' then 0 - m else m;
      Some(cents)
    else
      ParseUnsignedCents(s)
  }

  /** The text before the first '.' and the text after it ("" when there is no '.'). */
  function ParseUnsignedCents(s: string): Option<nat> {
    var dot := IndexOf(s, '.');
    CentsOfParts(s[..dot], if dot < |s| then s[dot + 1..] else "")
  }

  function CentsOfParts(whole: string, frac: string): Option<nat> {
    if whole == "" && frac == "" then None
    else if !AllDigits(whole) || !AllDigits(frac) || |frac| > 2 then None
    else Some(ParseNat(whole) * 100 + FractionCents(frac))
  }

  function FractionCents(frac: string): (c: nat)
    requires AllDigits(frac) && |frac| <= 2
    ensures c < 100
  {
    if |frac| == 0 then 0
    else if |frac| == 1 then DigitValue(frac[0]) * 10
    else DigitValue(frac[0]) * 10 + DigitValue(frac[1])
  }

  /** A string of digits holds no '.'. */
  lemma IndexOfDotInDigits(digits: string)
    requires AllDigits(digits)
    ensures IndexOf(digits, '.') == |digits|
  {
  }

  lemma ParseUnsignedCentsDigits(digits: string)
    requires AllDigits(digits) && digits != ""
    ensures ParseUnsignedCents(digits) == Some(ParseNat(digits) * 100)
  {
    IndexOfDotInDigits(digits);
    assert digits[..|digits|] == digits;
  }

  /** A whole number, as `str(n)` writes it, parses to that many units. */
  lemma ParseCentsWhole(n: int)
    ensures ParseCents(IntToString(n)) == Some(n * 100)
  {
    var a: nat := if n < 0 then -n else n;
    var digits := NatToString(a);
    NatToStringRoundTrip(a);
    ParseUnsignedCentsDigits(digits);
    if n < 0 {
      assert IntToString(n)[1..] == digits;
    } else {
      assert IntToString(n) == digits;
    }
  }

  /** `whole.frac` with a digit whole part and at most two fraction digits parses to its value in cents. */
  lemma ParseCentsDecimal(whole: string, frac: string)
    requires whole != "" && AllDigits(whole) && AllDigits(frac) && |frac| <= 2
    ensures ParseCents(whole + "." + frac) == Some(ParseNat(whole) * 100 + FractionCents(frac))
  {
    var s := whole + "." + frac;
    var k := |whole|;
    assert s[..k] == whole;
    assert s[k + 1..] == frac;
    ParseUnsignedCentsAt(s, k);
    assert s[0] == whole[0] && IsDigit(whole[0]);
  }

  /** A leading '-' negates the price and a leading '+' changes nothing. */
  lemma ParseCentsSigned(s: string)
    requires s == "" || (s[0] != '-' && s[0] != '+')
    ensures ParseCents("-" + s) == (if ParseCents(s).Some? then Some(0 - ParseCents(s).value) else None)
    ensures ParseCents("+" + s) == ParseCents(s)
  {
    assert ("-" + s)[1..] == s;
    assert ("+" + s)[1..] == s;
  }

  /** When the first `k` characters are digits and a '.' follows, the price splits there. */
  lemma ParseUnsignedCentsAt(s: string, k: nat)
    requires k < |s| && s[k] == '.' && AllDigits(s[..k])
    ensures ParseUnsignedCents(s) == CentsOfParts(s[..k], s[k + 1..])
  {
    forall i | 0 <= i < k ensures s[i] != '.' {
      assert s[i] == s[..k][i];
    }
    assert IndexOf(s, '.') == k;
  }
}
