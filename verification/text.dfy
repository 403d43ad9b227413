/** String operations of the JavaScript runtime that the backend and the
    frontend rely on: `String.prototype.trim`, a leading-prefix `replace`,
    `toLowerCase`, `includes`, and numeric conversion of path parameters
    (JavaScript's unary `+` and PostgreSQL's cast of a text parameter to an
    integer column).
 */
module Text {
  import opened Common

  /** The characters `String.prototype.trim` removes: ECMAScript WhiteSpace
      (tab, vertical tab, form feed, space, no-break space, byte order mark and
      the space separators) and LineTerminator. */
  predicate IsSpace(c: char)
  {
    || c == ' ' || c == '\t' || c == '\n' || c == '\r'
    || c == '\U{000B}' || c == '\U{000C}' || c == '\U{00A0}' || c == '\U{FEFF}'
    || c == '\U{1680}' || ('\U{2000}' <= c <= '\U{200A}')
    || c == '\U{2028}' || c == '\U{2029}' || c == '\U{202F}' || c == '\U{205F}' || c == '\U{3000}'
  }

  /** The characters PostgreSQL skips around an integer literal: C's
      `isspace` in the "C" locale, that is space, tab, line feed, carriage
      return, vertical tab and form feed. */
  predicate IsAsciiSpace(c: char)
  {
    c == ' ' || c == '\t' || c == '\n' || c == '\r' || c == '\U{000B}' || c == '\U{000C}'
  }

  /** PostgreSQL's white space is also JavaScript's. */
  lemma AsciiSpaceIsSpace(c: char)
    ensures IsAsciiSpace(c) ==> IsSpace(c)
  {
  }

  function TrimStart(s: string): (r: string)
    ensures |r| <= |s| && r == s[|s| - |r|..]
    ensures forall i :: 0 <= i < |s| - |r| ==> IsSpace(s[i])
    ensures r == [] || !IsSpace(r[0])
  {
    if s != [] && IsSpace(s[0]) then TrimStart(s[1..]) else s
  }

  function TrimEnd(s: string): (r: string)
    ensures |r| <= |s| && r == s[..|r|]
    ensures forall i :: |r| <= i < |s| ==> IsSpace(s[i])
    ensures r == [] || !IsSpace(r[|r| - 1])
  {
    if s != [] && IsSpace(s[|s| - 1]) then TrimEnd(s[..|s| - 1]) else s
  }

  /** `r` is the slice of `s` starting at `k`, with only white space around it. */
  ghost predicate TrimmedAt(s: string, r: string, k: int)
  {
    && 0 <= k <= k + |r| <= |s| && s[k..k + |r|] == r
    && (forall i :: 0 <= i < k ==> IsSpace(s[i]))
    && (forall i :: k + |r| <= i < |s| ==> IsSpace(s[i]))
  }

  /** `String.prototype.trim`: the slice of `s` left after removing leading
      and trailing white space; it neither starts nor ends with white space. */
  function Trim(s: string): (r: string)
    ensures exists k :: TrimmedAt(s, r, k)
    ensures r == [] || (!IsSpace(r[0]) && !IsSpace(r[|r| - 1]))
  {
    var t := TrimStart(s);
    var r := TrimEnd(t);
    var k := |s| - |t|;
    assert s[k..k + |r|] == r;
    assert forall i :: k + |r| <= i < |s| ==> s[i] == t[i - k];
    assert TrimmedAt(s, r, k);
    r
  }

  /** The white space PostgreSQL strips from the front of an integer literal. */
  function PgTrimStart(s: string): (r: string)
    ensures |r| <= |s| && r == s[|s| - |r|..]
    ensures forall i :: 0 <= i < |s| - |r| ==> IsAsciiSpace(s[i])
    ensures r == [] || !IsAsciiSpace(r[0])
  {
    if s != [] && IsAsciiSpace(s[0]) then PgTrimStart(s[1..]) else s
  }

  /** The white space PostgreSQL strips from the end of an integer literal. */
  function PgTrimEnd(s: string): (r: string)
    ensures |r| <= |s| && r == s[..|r|]
    ensures forall i :: |r| <= i < |s| ==> IsAsciiSpace(s[i])
    ensures r == [] || !IsAsciiSpace(r[|r| - 1])
  {
    if s != [] && IsAsciiSpace(s[|s| - 1]) then PgTrimEnd(s[..|s| - 1]) else s
  }

  /** `r` is the slice of `s` starting at `k`, with only ASCII white space
      around it. */
  ghost predicate PgTrimmedAt(s: string, r: string, k: int)
  {
    && 0 <= k <= k + |r| <= |s| && s[k..k + |r|] == r
    && (forall i :: 0 <= i < k ==> IsAsciiSpace(s[i]))
    && (forall i :: k + |r| <= i < |s| ==> IsAsciiSpace(s[i]))
  }

  /** What PostgreSQL's integer input reads as digits: `s` without its
      leading and trailing ASCII white space. */
  function PgTrim(s: string): (r: string)
    ensures exists k :: PgTrimmedAt(s, r, k)
    ensures r == [] || (!IsAsciiSpace(r[0]) && !IsAsciiSpace(r[|r| - 1]))
  {
    var t := PgTrimStart(s);
    var r := PgTrimEnd(t);
    var k := |s| - |t|;
    assert s[k..k + |r|] == r;
    assert forall i :: k + |r| <= i < |s| ==> s[i] == t[i - k];
    assert PgTrimmedAt(s, r, k);
    r
  }

  /** Trimming text that has no white space at either end changes nothing. */
  lemma TrimIdentity(s: string)
    requires s == [] || (!IsSpace(s[0]) && !IsSpace(s[|s| - 1]))
    ensures Trim(s) == s
  {
  }

  /** A slice of `s` with only white space around it, that itself neither
      starts nor ends with white space, is what `Trim` returns. */
  lemma TrimUnique(s: string, r: string, k: int)
    requires TrimmedAt(s, r, k)
    requires r != [] && !IsSpace(r[0]) && !IsSpace(r[|r| - 1])
    ensures Trim(s) == r
  {
    var t := Trim(s);
    var j :| TrimmedAt(s, t, j);
    assert s[k] == r[0];
    assert s[k + |r| - 1] == r[|r| - 1];
    assert t != [];
    assert s[j] == t[0];
    assert s[j + |t| - 1] == t[|t| - 1];
    assert j == k;
    assert j + |t| == k + |r|;
  }

  /** The same for PostgreSQL's trim. */
  lemma PgTrimUnique(s: string, r: string, k: int)
    requires PgTrimmedAt(s, r, k)
    requires r != [] && !IsAsciiSpace(r[0]) && !IsAsciiSpace(r[|r| - 1])
    ensures PgTrim(s) == r
  {
    var t := PgTrim(s);
    var j :| PgTrimmedAt(s, t, j);
    assert s[k] == r[0];
    assert s[k + |r| - 1] == r[|r| - 1];
    assert t != [];
    assert s[j] == t[0];
    assert s[j + |t| - 1] == t[|t| - 1];
    assert j == k;
    assert j + |t| == k + |r|;
  }

  predicate StartsWith(s: string, prefix: string)
  {
    |prefix| <= |s| && s[..|prefix|] == prefix
  }

  /** ASCII lower-casing of one character. */
  function LowerChar(c: char): char
  {
    if 'A' <= c <= 'Z' then (c as int + 32) as char else c
  }

  function Lower(s: string): (r: string)
    ensures |r| == |s|
    ensures forall i :: 0 <= i < |s| ==> r[i] == LowerChar(s[i])
  {
    seq(|s|, i requires 0 <= i < |s| => LowerChar(s[i]))
  }

  /** `t` occurs in `s` at position `i`. */
  predicate OccursAt(s: string, t: string, i: int)
  {
    0 <= i <= |s| - |t| && s[i..i + |t|] == t
  }

  /** `String.prototype.includes`: `t` occurs as a contiguous slice of `s`
      (the empty string occurs everywhere). */
  function Contains(s: string, t: string): (b: bool)
    ensures b <==> exists i :: OccursAt(s, t, i)
  {
    if |s| < |t| then false
    else if s[..|t|] == t then assert OccursAt(s, t, 0); true
    else
      var b := Contains(s[1..], t);
      assert b ==> exists i :: OccursAt(s, t, i) by {
        if b {
          var i :| OccursAt(s[1..], t, i);
          assert s[i + 1..i + 1 + |t|] == t;
          assert OccursAt(s, t, i + 1);
        }
      }
      assert (exists i :: OccursAt(s, t, i)) ==> b by {
        if exists i :: OccursAt(s, t, i) {
          var i :| OccursAt(s, t, i);
          assert i != 0;
          assert s[1..][i - 1..i - 1 + |t|] == t;
          assert OccursAt(s[1..], t, i - 1);
        }
      }
      b
  }

  predicate IsDigit(c: char)
  {
    '0' <= c <= '9'
  }

  function DigitValue(c: char): nat
    requires IsDigit(c)
  {
    c as int - '0' as int
  }

  /** The decimal value of a string of digits. */
  function DigitsValue(s: string): nat
    requires forall i :: 0 <= i < |s| ==> IsDigit(s[i])
  {
    if s == [] then 0 else 10 * DigitsValue(s[..|s| - 1]) + DigitValue(s[|s| - 1])
  }

  /** A nonempty run of decimal digits, as a number; anything else is not a number. */
  function ParseDigits(s: string): (r: Option<nat>)
    ensures r.Some? <==> s != [] && forall i :: 0 <= i < |s| ==> IsDigit(s[i])
  {
    if s != [] && forall i :: 0 <= i < |s| ==> IsDigit(s[i]) then Some(DigitsValue(s)) else None
  }

  /** JavaScript's unary `+` on a string, restricted to decimal integers:
      surrounding white space is ignored, the blank string is 0, and any
      other form is `NaN` (`None`), which compares unequal to every number. */
  function JsToNumber(s: string): (r: Option<int>)
    ensures Trim(s) == [] ==> r == Some(0)
    ensures Trim(s) != [] ==> r == ParseDigits(Trim(s))
  {
    var t := Trim(s);
    if t == [] then Some(0) else match ParseDigits(t) case Some(n) => Some(n) case None => None
  }

  /** The largest value of a PostgreSQL `integer` column. */
  const PgIntMax: int := 2147483647

  /** Every character of `s` is a digit or ASCII white space. */
  predicate DigitsOrAsciiSpace(s: string)
  {
    forall i :: 0 <= i < |s| ==> IsDigit(s[i]) || IsAsciiSpace(s[i])
  }

  /** PostgreSQL's cast of a text query parameter to `integer`, restricted to
      unsigned decimals: one run of digits with only ASCII white space around
      it, whose value fits in 32 bits.  `None` is the "invalid input syntax"
      or "out of range" error the driver throws.  `PgToIntReadsPgTrim` shows
      this is the value of the digits `PgTrim` leaves. */
  function PgToInt(s: string): (r: Option<int>)
    ensures r.Some? ==> 0 <= r.value <= PgIntMax
    ensures r.Some? ==> DigitsOrAsciiSpace(s) && ParseDigits(Trim(s)) == Some(r.value)
  {
    if !DigitsOrAsciiSpace(s) then None
    else match ParseDigits(Trim(s))
      case Some(n) => if n <= PgIntMax then Some(n) else None
      case None => None
  }

  /** The cast reads exactly the strings whose ASCII-trimmed text is a run
      of digits that fits in 32 bits, and gives the value of those digits. */
  lemma PgToIntReadsPgTrim(s: string)
    ensures PgToInt(s).Some? <==> ParseDigits(PgTrim(s)).Some? && ParseDigits(PgTrim(s)).value <= PgIntMax
    ensures PgToInt(s).Some? ==> PgToInt(s).value == ParseDigits(PgTrim(s)).value
  {
    if ParseDigits(PgTrim(s)).Some? {
      PgTrimDigitsAreTrim(s);
    }
    if DigitsOrAsciiSpace(s) && ParseDigits(Trim(s)).Some? {
      TrimDigitsArePgTrim(s);
    }
  }

  /** Digits with ASCII white space around them are also what JavaScript's
      trim leaves. */
  lemma PgTrimDigitsAreTrim(s: string)
    requires ParseDigits(PgTrim(s)).Some?
    ensures DigitsOrAsciiSpace(s) && Trim(s) == PgTrim(s)
  {
    var p := PgTrim(s);
    var k :| PgTrimmedAt(s, p, k);
    PaddedDigitsAreTrim(s, p, k);
  }

  lemma PaddedDigitsAreTrim(s: string, p: string, k: int)
    requires PgTrimmedAt(s, p, k) && ParseDigits(p).Some?
    ensures DigitsOrAsciiSpace(s) && Trim(s) == p
  {
    forall i | 0 <= i < |s|
      ensures IsDigit(s[i]) || IsAsciiSpace(s[i])
    {
      if k <= i < k + |p| {
        assert s[i] == p[i - k];
      }
    }
    forall i | 0 <= i < k || k + |p| <= i < |s|
      ensures IsSpace(s[i])
    {
      AsciiSpaceIsSpace(s[i]);
    }
    assert TrimmedAt(s, p, k);
    assert IsDigit(p[0]) && IsDigit(p[|p| - 1]);
    TrimUnique(s, p, k);
  }

  /** In a string of digits and ASCII white space, what JavaScript's trim
      leaves, when it is digits, is also what PostgreSQL's trim leaves. */
  lemma TrimDigitsArePgTrim(s: string)
    requires DigitsOrAsciiSpace(s) && ParseDigits(Trim(s)).Some?
    ensures PgTrim(s) == Trim(s)
  {
    var t := Trim(s);
    var k :| TrimmedAt(s, t, k);
    forall i | 0 <= i < k || k + |t| <= i < |s|
      ensures IsAsciiSpace(s[i])
    {
      assert IsDigit(s[i]) || IsAsciiSpace(s[i]);
    }
    assert PgTrimmedAt(s, t, k);
    assert IsDigit(t[0]) && IsDigit(t[|t| - 1]);
    PgTrimUnique(s, t, k);
  }

  /** Decimal rendering of a natural number (JavaScript's `String(n)`). */
  function NatToString(n: nat): (s: string)
    ensures s != [] && forall i :: 0 <= i < |s| ==> IsDigit(s[i])
    ensures s[0] == '0' ==> n == 0
    decreases n
  {
    if n < 10 then [('0' as int + n) as char]
    else NatToString(n / 10) + [('0' as int + n % 10) as char]
  }

  /** Decimal rendering of an integer, with a leading minus sign when negative. */
  function IntToString(n: int): (s: string)
    ensures n >= 0 ==> s == NatToString(n)
    ensures n < 0 ==> s == "-" + NatToString(-n)
  {
    if n >= 0 then NatToString(n) else "-" + NatToString(-n)
  }

  /** Rendering then parsing a number gives the number back. */
  lemma {:induction false} ParseNatToString(n: nat)
    ensures ParseDigits(NatToString(n)) == Some(n)
    decreases n
  {
    var s := NatToString(n);
    if n >= 10 {
      ParseNatToString(n / 10);
      assert s[..|s| - 1] == NatToString(n / 10);
      assert DigitValue(s[|s| - 1]) == n % 10;
    } else {
      assert DigitValue(s[0]) == n;
      assert s[..0] == [];
      assert DigitsValue(s[..0]) == 0;
      assert DigitsValue(s) == n;
    }
  }

  /** A rendered number has no surrounding white space, so both numeric
      conversions of it give the number back. */
  lemma ToNumberNatToString(n: nat)
    ensures JsToNumber(NatToString(n)) == Some(n)
    ensures n <= PgIntMax ==> PgToInt(NatToString(n)) == Some(n)
  {
    DigitsUntrimmed(NatToString(n));
    ParseNatToString(n);
  }

  /** Trimming does not change a run of digits. */
  lemma DigitsUntrimmed(s: string)
    requires s != [] && forall i :: 0 <= i < |s| ==> IsDigit(s[i])
    ensures Trim(s) == s
  {
    assert IsDigit(s[0]) && IsDigit(s[|s| - 1]);
    TrimIdentity(s);
  }

  /** Code-point lexicographic order on strings (PostgreSQL's "C" collation):
      a prefix comes first, otherwise the first differing character decides. */
  predicate LexLe(a: string, b: string)
    decreases |a|
  {
    a == [] || (b != [] && (a[0] < b[0] || (a[0] == b[0] && LexLe(a[1..], b[1..]))))
  }

  lemma {:induction false} LexLeTotal(a: string, b: string)
    ensures LexLe(a, b) || LexLe(b, a)
    decreases |a|
  {
    if a != [] && b != [] && a[0] == b[0] {
      LexLeTotal(a[1..], b[1..]);
    }
  }

  lemma {:induction false} LexLeTransitive(a: string, b: string, c: string)
    requires LexLe(a, b) && LexLe(b, c)
    ensures LexLe(a, c)
    decreases |a|
  {
    if a != [] && a[0] == b[0] && b[0] == c[0] {
      LexLeTransitive(a[1..], b[1..], c[1..]);
    }
  }

  /** A parameter PostgreSQL reads as an integer has the same value under
      JavaScript's unary `+`. */
  lemma PgToIntAgrees(s: string)
    requires PgToInt(s).Some?
    ensures JsToNumber(s) == PgToInt(s)
  {
  }

  /** JavaScript's trim removes a no-break space that PostgreSQL does not
      skip, so the two conversions disagree on such a parameter. */
  lemma NoBreakSpaceDisagrees()
    ensures JsToNumber("\U{00A0}5") == Some(5)
    ensures PgToInt("\U{00A0}5") == None
  {
    var s := "\U{00A0}5";
    assert |s| == 2 && s[0] == '\U{00A0}' && s[1] == '5';
    assert TrimmedAt(s, "5", 1);
    TrimUnique(s, "5", 1);
    assert DigitsValue("5") == 5 by { assert "5"[..0] == []; }
    assert !(IsDigit(s[0]) || IsAsciiSpace(s[0]));
  }


}
