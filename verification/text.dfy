/**
 * String primitives the two programs lean on: substring search
 * (JavaScript `includes`, PHP `stripos`), ASCII lower-casing, JavaScript
 * `trim`, and the decimal rendering of a natural number (template
 * interpolation, `sprintf('%d')`, string concatenation of an integer).
 */
module Text {

  // ---------------------------------------------------------------------
  // Substring search
  // ---------------------------------------------------------------------

  predicate StartsWith(s: string, prefix: string)
  {
    |prefix| <= |s| && s[..|prefix|] == prefix
  }

  /** `s.includes(sub)`: true when `sub` occurs somewhere in `s` (always for ""). */
  predicate Contains(s: string, sub: string)
    decreases |s|
  {
    StartsWith(s, sub) || (|s| > 0 && Contains(s[1..], sub))
  }

  /** Reference definition: `sub` occurs in `s` at offset `i`. */
  ghost predicate OccursAt(s: string, sub: string, i: int)
  {
    0 <= i && i + |sub| <= |s| && s[i..i + |sub|] == sub
  }

  lemma {:induction false} ContainsIffOccurs(s: string, sub: string)
    ensures Contains(s, sub) <==> exists i :: OccursAt(s, sub, i)
    decreases |s|
  {
    if Contains(s, sub) {
      if StartsWith(s, sub) {
        assert OccursAt(s, sub, 0);
      } else {
        ContainsIffOccurs(s[1..], sub);
        var i :| OccursAt(s[1..], sub, i);
        assert s[1..][i..i + |sub|] == s[i + 1..i + 1 + |sub|];
        assert OccursAt(s, sub, i + 1);
      }
    }
    forall i | OccursAt(s, sub, i) ensures Contains(s, sub) {
      if i == 0 {
        assert s[..|sub|] == sub;
      } else {
        assert s[1..][i - 1..i - 1 + |sub|] == s[i..i + |sub|];
        assert OccursAt(s[1..], sub, i - 1);
        ContainsIffOccurs(s[1..], sub);
      }
    }
  }

  lemma ContainsAt(s: string, sub: string, i: int)
    requires OccursAt(s, sub, i)
    ensures Contains(s, sub)
  {
    ContainsIffOccurs(s, sub);
  }

  lemma ContainsSelf(s: string)
    ensures Contains(s, s)
  {
    assert s[..|s|] == s;
  }

  /** A substring of either half is a substring of the concatenation. */
  lemma ContainsInConcat(a: string, b: string, sub: string)
    requires Contains(a, sub) || Contains(b, sub)
    ensures Contains(a + b, sub)
  {
    ContainsIffOccurs(a, sub);
    ContainsIffOccurs(b, sub);
    if Contains(a, sub) {
      var i :| OccursAt(a, sub, i);
      assert (a + b)[i..i + |sub|] == a[i..i + |sub|];
      ContainsAt(a + b, sub, i);
    } else {
      var i :| OccursAt(b, sub, i);
      assert (a + b)[|a| + i..|a| + i + |sub|] == b[i..i + |sub|];
      ContainsAt(a + b, sub, |a| + i);
    }
  }

  /** Every character of a contained needle is a character of the haystack. */
  lemma ContainedCharsOccur(s: string, sub: string)
    ensures Contains(s, sub) ==> forall c :: c in sub ==> c in s
  {
    ContainsIffOccurs(s, sub);
    if Contains(s, sub) {
      var i :| OccursAt(s, sub, i);
      forall c | c in sub ensures c in s {
        var k :| 0 <= k < |sub| && sub[k] == c;
        assert s[i + k] == s[i..i + |sub|][k];
      }
    }
  }

  // ---------------------------------------------------------------------
  // ASCII lower-casing
  // ---------------------------------------------------------------------

  predicate IsAsciiUpper(c: char) { 'A' <= c <= 'Z' }

  predicate IsAsciiLower(c: char) { 'a' <= c <= 'z' }

  function LowerChar(c: char): (r: char)
    ensures IsAsciiUpper(c) ==> IsAsciiLower(r)
    ensures !IsAsciiUpper(c) ==> r == c
  {
    if IsAsciiUpper(c) then (c as int + 32) as char else c
  }

  /** Lower-cases the ASCII letters of `s` and keeps every other character. */
  function Lower(s: string): string
  {
    seq(|s|, i requires 0 <= i < |s| => LowerChar(s[i]))
  }

  lemma LowerIdempotent(s: string)
    ensures Lower(Lower(s)) == Lower(s)
  {
  }

  /** Reference definition of a case-insensitive match of a lower-case token at offset `i`. */
  ghost predicate MatchesFoldedAt(s: string, token: string, i: int)
  {
    0 <= i && i + |token| <= |s| &&
    forall k :: 0 <= k < |token| ==> LowerChar(s[i + k]) == token[k]
  }

  ghost predicate ContainsIgnoringCase(s: string, token: string)
  {
    exists i :: MatchesFoldedAt(s, token, i)
  }

  lemma ContainsLowerIffIgnoringCase(s: string, token: string)
    ensures Contains(Lower(s), token) <==> ContainsIgnoringCase(s, token)
  {
    ContainsIffOccurs(Lower(s), token);
    forall i ensures OccursAt(Lower(s), token, i) <==> MatchesFoldedAt(s, token, i) {
      if 0 <= i && i + |token| <= |s| {
        if MatchesFoldedAt(s, token, i) {
          assert Lower(s)[i..i + |token|] == token;
        }
        if OccursAt(Lower(s), token, i) {
          forall k | 0 <= k < |token| ensures LowerChar(s[i + k]) == token[k] {
            assert Lower(s)[i..i + |token|][k] == token[k];
          }
        }
      }
    }
  }

  /**
   * PHP `stripos(haystack, needle) !== false` with ASCII case folding.  For a
   * needle that holds no ASCII letter the search is a plain substring search.
   */
  predicate ContainsCaseless(haystack: string, needle: string)
  {
    Contains(Lower(haystack), Lower(needle))
  }

  lemma {:induction false} CaselessWithoutLetters(haystack: string, needle: string)
    requires forall k :: 0 <= k < |needle| ==> !IsAsciiUpper(needle[k]) && !IsAsciiLower(needle[k])
    ensures ContainsCaseless(haystack, needle) <==> Contains(haystack, needle)
  {
    assert Lower(needle) == needle;
    ContainsIffOccurs(Lower(haystack), needle);
    ContainsIffOccurs(haystack, needle);
    forall i ensures OccursAt(Lower(haystack), needle, i) <==> OccursAt(haystack, needle, i) {
      if 0 <= i && i + |needle| <= |haystack| {
        if OccursAt(Lower(haystack), needle, i) {
          forall k | 0 <= k < |needle| ensures haystack[i + k] == needle[k] {
            assert Lower(haystack)[i..i + |needle|][k] == needle[k];
          }
          assert haystack[i..i + |needle|] == needle;
        }
        if OccursAt(haystack, needle, i) {
          forall k | 0 <= k < |needle| ensures Lower(haystack)[i + k] == needle[k] {
            assert haystack[i..i + |needle|][k] == needle[k];
          }
          assert Lower(haystack)[i..i + |needle|] == needle;
        }
      }
    }
  }

  // ---------------------------------------------------------------------
  // JavaScript String.prototype.trim
  // ---------------------------------------------------------------------

  /** The WhiteSpace and LineTerminator code points that ECMAScript's `trim` removes. */
  predicate IsJsSpace(c: char)
  {
    c in {'\t', '\n', '\U{000B}', '\U{000C}', '\r', ' ', '\U{00A0}', '\U{1680}',
          '\U{2028}', '\U{2029}', '\U{202F}', '\U{205F}', '\U{3000}', '\U{FEFF}'}
    || ('\U{2000}' <= c <= '\U{200A}')
  }

  ghost predicate AllSpace(s: string)
  {
    forall k :: 0 <= k < |s| ==> IsJsSpace(s[k])
  }

  /** Drops the leading white space: what is left is a suffix that starts with a non-space. */
  function TrimStart(s: string): (r: string)
    ensures |r| <= |s| && r == s[|s| - |r|..]
    ensures AllSpace(s[..|s| - |r|])
    ensures r == [] || !IsJsSpace(r[0])
    decreases |s|
  {
    if |s| > 0 && IsJsSpace(s[0]) then TrimStart(s[1..]) else s
  }

  /** Drops the trailing white space: what is left is a prefix that ends with a non-space. */
  function TrimEnd(s: string): (r: string)
    ensures |r| <= |s| && r == s[..|r|]
    ensures AllSpace(s[|r|..])
    ensures r == [] || !IsJsSpace(r[|r| - 1])
    decreases |s|
  {
    if |s| > 0 && IsJsSpace(s[|s| - 1]) then TrimEnd(s[..|s| - 1]) else s
  }

  /** `s` is `r` with only white space around it, `r` starting at offset `i`. */
  ghost predicate Padded(s: string, r: string, i: int)
  {
    0 <= i && i + |r| <= |s| && s[i..i + |r|] == r &&
    AllSpace(s[..i]) && AllSpace(s[i + |r|..])
  }

  function Trim(s: string): (r: string)
    ensures Padded(s, r, |s| - |TrimStart(s)|)
    ensures r == [] || (!IsJsSpace(r[0]) && !IsJsSpace(r[|r| - 1]))
    ensures r == [] ==> AllSpace(s)
  {
    TrimComposes(s);
    TrimEnd(TrimStart(s))
  }

  lemma TrimComposes(s: string)
    ensures Padded(s, TrimEnd(TrimStart(s)), |s| - |TrimStart(s)|)
    ensures var r := TrimEnd(TrimStart(s)); r == [] || (!IsJsSpace(r[0]) && !IsJsSpace(r[|r| - 1]))
    ensures TrimEnd(TrimStart(s)) == [] ==> AllSpace(s)
  {
    var t := TrimStart(s);
    PaddedParts(s, t, TrimEnd(t), |s| - |t|);
    TrimBorders(s);
  }

  lemma TrimBorders(s: string)
    ensures var r := TrimEnd(TrimStart(s)); r == [] || (!IsJsSpace(r[0]) && !IsJsSpace(r[|r| - 1]))
    ensures TrimEnd(TrimStart(s)) == [] ==> AllSpace(s)
  {
    var t := TrimStart(s);
    if t != [] {
      NonSpaceHeadKept(t);
    } else {
      BlankWhenNothingLeft(s);
    }
  }

  lemma BlankWhenNothingLeft(s: string)
    requires TrimStart(s) == []
    ensures AllSpace(s)
  {
    assert s == s[..|s| - |TrimStart(s)|];
  }

  lemma PaddedParts(s: string, t: string, r: string, lo: int)
    requires 0 <= lo <= |s| && t == s[lo..] && AllSpace(s[..lo])
    requires |r| <= |t| && r == t[..|r|] && AllSpace(t[|r|..])
    ensures Padded(s, r, lo)
  {
    assert s[lo..lo + |r|] == r;
    assert s[lo + |r|..] == t[|r|..];
  }

  lemma {:induction false} NonSpaceHeadKept(t: string)
    requires t != [] && !IsJsSpace(t[0])
    ensures TrimEnd(t) != [] && TrimEnd(t)[0] == t[0]
    decreases |t|
  {
    if IsJsSpace(t[|t| - 1]) {
      NonSpaceHeadKept(t[..|t| - 1]);
    }
  }

  /** A string whose ends are not white space is its own trimming. */
  lemma TrimKeepsTrimmed(s: string)
    requires s == [] || (!IsJsSpace(s[0]) && !IsJsSpace(s[|s| - 1]))
    ensures Trim(s) == s
  {
  }

  /** Trimming twice is trimming once. */
  lemma TrimIdempotent(s: string)
    ensures Trim(Trim(s)) == Trim(s)
  {
    TrimKeepsTrimmed(Trim(s));
  }

  /** Text made only of white space trims to the empty string. */
  lemma {:induction false} BlankTrimsToEmpty(s: string)
    requires AllSpace(s)
    ensures Trim(s) == []
    decreases |s|
  {
    if s != [] {
      assert AllSpace(s[1..]);
      BlankTrimsToEmpty(s[1..]);
    }
  }

  // ---------------------------------------------------------------------
  // Decimal rendering of natural numbers
  // ---------------------------------------------------------------------

  predicate IsDigit(c: char) { '0' <= c <= '9' }

  function DigitChar(d: nat): (c: char)
    requires d < 10
    ensures IsDigit(c)
  {
    ('0' as int + d) as char
  }

  function DigitValue(c: char): nat
    requires IsDigit(c)
  {
    c as int - '0' as int
  }

  /** The shortest base-10 spelling of `n`, as `${n}`, `sprintf('%d', n)` and `'x' . n` print it. */
  function DecimalString(n: nat): (r: string)
    ensures |r| >= 1
    ensures forall k :: 0 <= k < |r| ==> IsDigit(r[k])
    ensures r[0] == '0' ==> n == 0
    decreases n
  {
    if n < 10 then [DigitChar(n)] else DecimalString(n / 10) + [DigitChar(n % 10)]
  }

  /** Reads a string of digits back as a number. */
  function DecimalValue(s: string): nat
    requires forall k :: 0 <= k < |s| ==> IsDigit(s[k])
  {
    if s == [] then 0 else 10 * DecimalValue(s[..|s| - 1]) + DigitValue(s[|s| - 1])
  }

  lemma {:induction false} DecimalRoundTrip(n: nat)
    ensures DecimalValue(DecimalString(n)) == n
    decreases n
  {
    if n >= 10 {
      var s := DecimalString(n);
      assert s[..|s| - 1] == DecimalString(n / 10);
      DecimalRoundTrip(n / 10);
    }
  }

  lemma DecimalInjective(m: nat, n: nat)
    requires DecimalString(m) == DecimalString(n)
    ensures m == n
  {
    DecimalRoundTrip(m);
    DecimalRoundTrip(n);
  }
}
