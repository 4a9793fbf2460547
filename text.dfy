/**
 * The string operations the pages rely on, with JavaScript's semantics:
 * `trim`, `toLowerCase`/`toUpperCase` (letters A-Z only), `includes`,
 * `startsWith` (Dafny's prefix test `p <= s`), `join`, `parseInt(s, 10)`
 * and the decimal rendering of an integer.
 */
module Text {
  import opened Wrappers

  // ---------------------------------------------------------------------
  // Whitespace and trim
  // ---------------------------------------------------------------------

  /** JavaScript's WhiteSpace and LineTerminator characters: what `trim` strips and `parseInt` skips. */
  predicate IsSpace(c: char)
  {
    c == ' ' || c == '\t' || c == '\n' || c == '\r' || c == '\U{000B}' || c == '\U{000C}'
    || c == '\U{00A0}' || c == '\U{1680}' || ('\U{2000}' <= c <= '\U{200A}')
    || c == '\U{2028}' || c == '\U{2029}' || c == '\U{202F}' || c == '\U{205F}'
    || c == '\U{3000}' || c == '\U{FEFF}'
  }

  predicate AllSpace(s: string)
  {
    forall i :: 0 <= i < |s| ==> IsSpace(s[i])
  }

  function TrimStart(s: string): string
  {
    if s != [] && IsSpace(s[0]) then TrimStart(s[1..]) else s
  }

  function TrimEnd(s: string): string
  {
    if s != [] && IsSpace(s[|s| - 1]) then TrimEnd(s[..|s| - 1]) else s
  }

  /** `s.trim()` */
  function Trim(s: string): string
  {
    TrimEnd(TrimStart(s))
  }

  lemma {:induction false} TrimStartShape(s: string)
    ensures exists k :: 0 <= k <= |s| && TrimStart(s) == s[k..] && AllSpace(s[..k])
    ensures TrimStart(s) == [] || !IsSpace(TrimStart(s)[0])
  {
    if s != [] && IsSpace(s[0]) {
      TrimStartShape(s[1..]);
      var k :| 0 <= k <= |s[1..]| && TrimStart(s[1..]) == s[1..][k..] && AllSpace(s[1..][..k]);
      assert s[1..][k..] == s[k + 1..];
      forall i | 0 <= i <= k ensures IsSpace(s[i]) {
        if i > 0 {
          assert s[i] == s[1..][..k][i - 1];
        }
      }
      assert AllSpace(s[..k + 1]);
    } else {
      assert s[0..] == s && s[..0] == [];
    }
  }

  lemma {:induction false} TrimEndShape(s: string)
    ensures exists k :: 0 <= k <= |s| && TrimEnd(s) == s[..k] && AllSpace(s[k..])
    ensures TrimEnd(s) == [] || !IsSpace(TrimEnd(s)[|TrimEnd(s)| - 1])
  {
    if s != [] && IsSpace(s[|s| - 1]) {
      var pre := s[..|s| - 1];
      TrimEndShape(pre);
      var k :| 0 <= k <= |pre| && TrimEnd(pre) == pre[..k] && AllSpace(pre[k..]);
      assert pre[..k] == s[..k];
      assert AllSpace(s[k..]) by {
        forall i | 0 <= i < |s| - k ensures IsSpace(s[k..][i]) {
          if k + i < |s| - 1 {
            assert s[k..][i] == pre[k..][i];
          }
        }
      }
    } else {
      assert s[..|s|] == s && s[|s|..] == [];
    }
  }

  /** A string trims to "" exactly when it is all whitespace (`!s.trim()` is the blank test). */
  lemma TrimEmptyIffBlank(s: string)
    ensures Trim(s) == "" <==> AllSpace(s)
  {
    TrimStartShape(s);
    TrimEndShape(TrimStart(s));
    var k :| 0 <= k <= |s| && TrimStart(s) == s[k..] && AllSpace(s[..k]);
    var t := TrimStart(s);
    var m :| 0 <= m <= |t| && TrimEnd(t) == t[..m] && AllSpace(t[m..]);
    if Trim(s) == "" {
      assert m == 0 && t[m..] == t;
      assert t == [];
      forall i | 0 <= i < |s| ensures IsSpace(s[i]) {
        assert s[i] == s[..k][i];
      }
    } else {
      assert t != [] && t[0] == s[k];
      assert !IsSpace(s[k]);
    }
  }

  /** Trimming an already trimmed string changes nothing. */
  lemma TrimIdempotent(s: string)
    ensures Trim(Trim(s)) == Trim(s)
  {
    var t := TrimStart(s);
    TrimStartShape(s);
    TrimEndShape(t);
    var m :| 0 <= m <= |t| && TrimEnd(t) == t[..m] && AllSpace(t[m..]);
    var r := Trim(s);
    if r != [] {
      assert r[0] == t[0];
      assert TrimStart(r) == r;
    } else {
      assert TrimStart(r) == r;
    }
  }

  // ---------------------------------------------------------------------
  // Case mapping (ASCII letters only)
  // ---------------------------------------------------------------------

  function LowerChar(c: char): char
  {
    if 'A' <= c <= 'Z' then (c as int + 32) as char else c
  }

  function UpperChar(c: char): char
  {
    if 'a' <= c <= 'z' then (c as int - 32) as char else c
  }

  /** `s.toLowerCase()` */
  function ToLower(s: string): (r: string)
    ensures |r| == |s|
  {
    seq(|s|, i requires 0 <= i < |s| => LowerChar(s[i]))
  }

  /** `s.toUpperCase()` */
  function ToUpper(s: string): (r: string)
    ensures |r| == |s|
  {
    seq(|s|, i requires 0 <= i < |s| => UpperChar(s[i]))
  }

  lemma ToUpperIdempotent(s: string)
    ensures ToUpper(ToUpper(s)) == ToUpper(s)
  {
  }

  /** Lower-casing forgets any earlier change of case, so case-insensitive comparisons ignore it. */
  lemma ToLowerForgetsCase(s: string)
    ensures ToLower(ToLower(s)) == ToLower(s)
    ensures ToLower(ToUpper(s)) == ToLower(s)
  {
  }

  lemma {:induction false} TrimStartToUpper(s: string)
    ensures TrimStart(ToUpper(s)) == ToUpper(TrimStart(s))
  {
    if s != [] {
      assert ToUpper(s)[1..] == ToUpper(s[1..]);
      TrimStartToUpper(s[1..]);
    }
  }

  lemma {:induction false} TrimEndToUpper(s: string)
    ensures TrimEnd(ToUpper(s)) == ToUpper(TrimEnd(s))
  {
    if s != [] {
      assert ToUpper(s)[..|s| - 1] == ToUpper(s[..|s| - 1]);
      TrimEndToUpper(s[..|s| - 1]);
    }
  }

  /** Upper-casing never touches whitespace, so it commutes with trimming. */
  lemma TrimToUpper(s: string)
    ensures Trim(ToUpper(s)) == ToUpper(Trim(s))
  {
    TrimStartToUpper(s);
    TrimEndToUpper(TrimStart(s));
  }

  // ---------------------------------------------------------------------
  // Substring search: `s.includes(q)`
  // ---------------------------------------------------------------------

  function Contains(s: string, q: string): bool
    decreases |s|
  {
    if |q| > |s| then false
    else if q <= s then true
    else Contains(s[1..], q)
  }

  /** `s.includes(q)` holds exactly when `q` occurs in `s` at some position. */
  lemma {:induction false} ContainsIff(s: string, q: string)
    ensures Contains(s, q) <==> exists i :: 0 <= i <= |s| && q <= s[i..]
  {
    if |q| > |s| {
      forall i | 0 <= i <= |s| ensures !(q <= s[i..]) { }
    } else if q <= s {
      assert s[0..] == s;
    } else {
      ContainsIff(s[1..], q);
      if Contains(s[1..], q) {
        var i :| 0 <= i <= |s[1..]| && q <= s[1..][i..];
        assert s[1..][i..] == s[i + 1..];
      } else {
        forall i | 0 <= i <= |s| ensures !(q <= s[i..]) {
          if i > 0 {
            assert s[1..][i - 1..] == s[i..];
          } else {
            assert s[0..] == s;
          }
        }
      }
    }
  }

  /** A string occurs inside any string that has it as a middle part. */
  lemma ContainsMiddle(a: string, q: string, b: string)
    ensures Contains(a + q + b, q)
  {
    ContainsIff(a + q + b, q);
    assert q <= (a + q + b)[|a|..];
  }

  /** Lower-casing both sides preserves an occurrence. */
  lemma ContainsToLower(s: string, q: string)
    requires Contains(s, q)
    ensures Contains(ToLower(s), ToLower(q))
  {
    ContainsIff(s, q);
    var i :| 0 <= i <= |s| && q <= s[i..];
    assert ToLower(q) <= ToLower(s)[i..] by {
      forall j | 0 <= j < |q| ensures ToLower(q)[j] == ToLower(s)[i..][j] {
        assert q[j] == s[i..][j];
      }
    }
    ContainsIff(ToLower(s), ToLower(q));
  }

  // ---------------------------------------------------------------------
  // Array.prototype.join
  // ---------------------------------------------------------------------

  function Join(xs: seq<string>, sep: string): string
  {
    if xs == [] then ""
    else if |xs| == 1 then xs[0]
    else xs[0] + sep + Join(xs[1..], sep)
  }

  /** Every joined element occurs in the joined string. */
  lemma {:induction false} JoinContains(xs: seq<string>, sep: string, i: nat)
    requires i < |xs|
    ensures Contains(Join(xs, sep), xs[i])
  {
    if |xs| == 1 {
      ContainsMiddle("", xs[0], "");
      assert "" + xs[0] + "" == xs[0];
    } else if i == 0 {
      ContainsMiddle("", xs[0], sep + Join(xs[1..], sep));
      assert "" + xs[0] + (sep + Join(xs[1..], sep)) == Join(xs, sep);
    } else {
      JoinContains(xs[1..], sep, i - 1);
      var rest := Join(xs[1..], sep);
      ContainsIff(rest, xs[i]);
      var k :| 0 <= k <= |rest| && xs[i] <= rest[k..];
      var pre := xs[0] + sep;
      assert Join(xs, sep) == pre + rest;
      assert (pre + rest)[|pre| + k..] == rest[k..];
      ContainsIff(Join(xs, sep), xs[i]);
    }
  }

  // ---------------------------------------------------------------------
  // Decimal numbers: parseInt(s, 10) and `${n}`
  // ---------------------------------------------------------------------

  predicate IsDigit(c: char)
  {
    '0' <= c <= '9'
  }

  predicate AllDigits(s: string)
  {
    forall i :: 0 <= i < |s| ==> IsDigit(s[i])
  }

  /** The longest prefix of `s` made of decimal digits. */
  function DigitPrefix(s: string): (r: string)
    ensures r <= s && AllDigits(r)
  {
    if s != [] && IsDigit(s[0]) then [s[0]] + DigitPrefix(s[1..]) else []
  }

  function DigitsValue(d: string): nat
    requires AllDigits(d)
  {
    if d == [] then 0 else DigitsValue(d[..|d| - 1]) * 10 + (d[|d| - 1] as int - '0' as int)
  }

  /**
   * `parseInt(s, 10)`: skip leading whitespace, take an optional sign, then the
   * longest run of digits; anything after it is ignored. None stands for NaN.
   */
  function ParseInt(s: string): Option<int>
  {
    var t := TrimStart(s);
    var negative := t != [] && t[0] == '-';
    var body := if t != [] && (t[0] == '-' || t[0] == '+') then t[1..] else t;
    var digits := DigitPrefix(body);
    if digits == [] then None
    else
      var v: int := DigitsValue(digits);
      Some(if negative then -v else v)
  }

  /** A blank input is NaN. */
  lemma {:induction false} ParseIntBlank(s: string)
    requires AllSpace(s)
    ensures TrimStart(s) == []
    ensures ParseInt(s) == None
  {
    if s != [] {
      ParseIntBlank(s[1..]);
    }
  }

  function DigitChar(d: nat): char
    requires d < 10
  {
    ('0' as int + d) as char
  }

  /** The decimal digits of `n`, most significant first, without leading zeros. */
  function DecimalString(n: nat): (r: string)
    ensures r != [] && AllDigits(r)
  {
    if n < 10 then [DigitChar(n)] else DecimalString(n / 10) + [DigitChar(n % 10)]
  }

  /** `${n}` for an integer `n`. */
  function IntToString(n: int): string
  {
    if n < 0 then "-" + DecimalString(-n) else DecimalString(n)
  }

  lemma {:induction false} DecimalStringValue(n: nat)
    ensures DigitsValue(DecimalString(n)) == n
  {
    if n >= 10 {
      var d := DecimalString(n / 10);
      DecimalStringValue(n / 10);
      assert (d + [DigitChar(n % 10)])[..|d|] == d;
    }
  }

  lemma {:induction false} DigitPrefixOfDigits(d: string, rest: string)
    requires AllDigits(d)
    requires rest == [] || !IsDigit(rest[0])
    ensures DigitPrefix(d + rest) == d
  {
    if d == [] {
      assert d + rest == rest;
    } else {
      assert (d + rest)[1..] == d[1..] + rest;
      DigitPrefixOfDigits(d[1..], rest);
    }
  }

  lemma DigitNotSpace(c: char)
    requires IsDigit(c) || c == '-'
    ensures !IsSpace(c)
  {
  }

  /** A string that does not start with whitespace is its own `trimStart`. */
  lemma TrimStartNoSpace(s: string)
    requires s != [] && !IsSpace(s[0])
    ensures TrimStart(s) == s
  {
  }

  /** parseInt of digits followed by text that does not start with a digit. */
  lemma ParseIntDigits(d: string, rest: string)
    requires d != [] && AllDigits(d)
    requires rest == [] || !IsDigit(rest[0])
    ensures ParseInt(d + rest) == Some(DigitsValue(d) as int)
  {
    var s := d + rest;
    assert s[0] == d[0];
    DigitNotSpace(d[0]);
    TrimStartNoSpace(s);
    DigitPrefixOfDigits(d, rest);
  }

  /** parseInt of a minus sign, then digits, then text that does not start with a digit. */
  lemma ParseIntNegativeDigits(d: string, rest: string)
    requires d != [] && AllDigits(d)
    requires rest == [] || !IsDigit(rest[0])
    ensures ParseInt("-" + d + rest) == Some(-(DigitsValue(d) as int))
  {
    var s := "-" + d + rest;
    assert s[0] == '-' && s[1..] == d + rest;
    DigitNotSpace('-');
    TrimStartNoSpace(s);
    DigitPrefixOfDigits(d, rest);
  }

  /** parseInt reads back the decimal rendering of any integer, whatever non-digit text follows it. */
  lemma ParseIntRoundTrip(n: int, rest: string)
    requires rest == [] || !IsDigit(rest[0])
    ensures ParseInt(IntToString(n) + rest) == Some(n)
  {
    if n < 0 {
      DecimalStringValue(-n);
      ParseIntNegativeDigits(DecimalString(-n), rest);
      assert IntToString(n) + rest == "-" + DecimalString(-n) + rest;
    } else {
      DecimalStringValue(n);
      ParseIntDigits(DecimalString(n), rest);
      assert IntToString(n) + rest == DecimalString(n) + rest;
    }
  }
}
