/** The JavaScript string operations the application relies on:
    `String.prototype.trim`, `split` on one character, `Array.prototype.join`
    and the decimal rendering of a non-negative integer in a template string. */
module Text {

  /** The characters `trim` removes: ECMAScript's white space (tab,
      vertical tab, form feed, the byte-order mark and every space separator
      of Unicode category Zs) and its line terminators (line feed, carriage
      return, line and paragraph separator). */
  predicate IsSpace(c: char)
  {
    || c == '\t' || c == '\U{000B}' || c == '\U{000C}' || c == '\U{FEFF}'
    || c == ' ' || c == '\U{00A0}' || c == '\U{1680}' || '\U{2000}' <= c <= '\U{200A}'
    || c == '\U{202F}' || c == '\U{205F}' || c == '\U{3000}'
    || c == '\n' || c == '\r' || c == '\U{2028}' || c == '\U{2029}'
  }

  /** An ideographic space alone is blank: it trims to nothing. */
  lemma IdeographicSpaceTrims()
    ensures Trim("\U{3000}") == ""
  {
    assert "\U{3000}"[1..] == "";
  }

  predicate AllSpace(s: string)
  {
    forall k | 0 <= k < |s| :: IsSpace(s[k])
  }

  /** Drops the leading white space: the result is a suffix of `s` and only
      white space was dropped. */
  function TrimStart(s: string): (r: string)
    ensures |r| <= |s| && r == s[|s| - |r|..]
    ensures r != [] ==> !IsSpace(r[0])
  {
    if |s| > 0 && IsSpace(s[0]) then TrimStart(s[1..]) else s
  }

  lemma {:induction false} TrimStartDropsSpace(s: string)
    ensures AllSpace(s[..|s| - |TrimStart(s)|])
  {
    if |s| > 0 && IsSpace(s[0]) {
      TrimStartDropsSpace(s[1..]);
      var n := |s| - |TrimStart(s)|;
      assert forall k | 1 <= k < n :: s[..n][k] == s[1..][..n - 1][k - 1];
    }
  }

  /** Drops the trailing white space: the result is a prefix of `s` and only
      white space was dropped. */
  function TrimEnd(s: string): (r: string)
    ensures |r| <= |s| && r == s[..|r|]
    ensures r != [] ==> !IsSpace(r[|r| - 1])
  {
    if |s| > 0 && IsSpace(s[|s| - 1]) then TrimEnd(s[..|s| - 1]) else s
  }

  lemma {:induction false} TrimEndDropsSpace(s: string)
    ensures AllSpace(s[|TrimEnd(s)|..])
  {
    if |s| > 0 && IsSpace(s[|s| - 1]) {
      TrimEndDropsSpace(s[..|s| - 1]);
      var m := |TrimEnd(s)|;
      assert forall k | 0 <= k < |s| - 1 - m :: s[m..][k] == s[..|s| - 1][m..][k];
    }
  }

  /** `s.trim()`: no longer than `s`, and either empty or free of white
      space at both ends. */
  function Trim(s: string): (r: string)
    ensures |r| <= |s|
    ensures r != [] ==> !IsSpace(r[0]) && !IsSpace(r[|r| - 1])
  {
    var t := TrimStart(s);
    var r := TrimEnd(t);
    assert r != [] ==> r[0] == t[0];
    r
  }

  /** Text trims to nothing exactly when it is all white space: the test
      behind every "blank" check. */
  lemma TrimBlank(s: string)
    ensures Trim(s) == [] <==> AllSpace(s)
  {
    var t := TrimStart(s);
    var i := |s| - |t|;
    TrimStartDropsSpace(s);
    TrimEndDropsSpace(t);
    assert t == s[i..];
    if Trim(s) == [] {
      assert t[0..] == t;
      assert t == [];
      assert s[..i] == s;
    }
    if AllSpace(s) && t != [] {
      assert false;
    }
  }

  /** The trimmed string is the slice of `s` left between white space on
      both sides, and it neither starts nor ends with white space. */
  lemma TrimIsSlice(s: string)
    ensures exists i, j :: (0 <= i <= j <= |s| && Trim(s) == s[i..j]
                            && AllSpace(s[..i]) && AllSpace(s[j..]))
    ensures Trim(s) != [] ==> !IsSpace(Trim(s)[0]) && !IsSpace(Trim(s)[|Trim(s)| - 1])
  {
    var t := TrimStart(s);
    var i := |s| - |t|;
    var r := TrimEnd(t);
    var j := i + |r|;
    TrimStartDropsSpace(s);
    TrimEndDropsSpace(t);
    assert t == s[i..];
    assert r == t[..|r|];
    assert r == s[i..j];
    assert s[j..] == t[|r|..];
    assert AllSpace(s[..i]) && AllSpace(s[j..]);
    if r != [] {
      assert r[0] == t[0];
    }
  }

  /** Non-empty text with no white space at either end: what `trim` leaves
      of any text that is not blank. */
  predicate IsTrimmed(s: string)
  {
    s != [] && !IsSpace(s[0]) && !IsSpace(s[|s| - 1])
  }

  /** Trimmed text is left alone by `trim`. */
  lemma TrimmedFixed(s: string)
    requires IsTrimmed(s)
    ensures Trim(s) == s
  {
    assert TrimStart(s) == s;
  }

  /** Trimming twice changes nothing. */
  lemma TrimIdempotent(s: string)
    ensures Trim(Trim(s)) == Trim(s)
  {
    TrimIsSlice(s);
    var r := Trim(s);
    if r != [] {
      assert TrimStart(r) == r;
      assert TrimEnd(r) == r;
    }
  }

  /** `s.split(sep)` for a one-character separator: the pieces between
      separators, always at least one. */
  function Split(s: string, sep: char): (r: seq<string>)
    ensures |r| >= 1
    ensures forall k | 0 <= k < |r| :: sep !in r[k]
  {
    if |s| == 0 then [""]
    else
      var rest := Split(s[1..], sep);
      if s[0] == sep then [""] + rest
      else [[s[0]] + rest[0]] + rest[1..]
  }

  /** `parts.join(sep)`; an empty list joins to the empty string, and a
      join starts with its first piece. */
  function Join(parts: seq<string>, sep: string): (r: string)
    ensures |parts| == 0 ==> r == ""
    ensures |parts| >= 1 ==> |parts[0]| <= |r| && r[..|parts[0]|] == parts[0]
  {
    if |parts| == 0 then ""
    else if |parts| == 1 then parts[0]
    else parts[0] + sep + Join(parts[1..], sep)
  }

  /** Text without the separator splits into itself alone. */
  lemma {:induction false} SplitNoSep(x: string, sep: char)
    requires sep !in x
    ensures Split(x, sep) == [x]
  {
    if |x| > 0 {
      SplitNoSep(x[1..], sep);
      assert [x[0]] + x[1..] == x;
    }
  }

  /** A separator-free piece followed by the separator splits off first. */
  lemma {:induction false} SplitCons(x: string, y: string, sep: char)
    requires sep !in x
    ensures Split(x + [sep] + y, sep) == [x] + Split(y, sep)
  {
    var s := x + [sep] + y;
    if |x| == 0 {
      assert s[1..] == y;
    } else {
      assert s[1..] == x[1..] + [sep] + y;
      SplitCons(x[1..], y, sep);
      assert [x[0]] + x[1..] == x;
    }
  }

  /** Splitting text joined at a separator splits each side: the pieces of
      `x` followed by the pieces of `y`. */
  lemma {:induction false} SplitAppend(x: string, y: string, sep: char)
    ensures Split(x + [sep] + y, sep) == Split(x, sep) + Split(y, sep)
  {
    var s := x + [sep] + y;
    if |x| == 0 {
      assert s[1..] == y;
    } else {
      assert s[0] == x[0] && s[1..] == x[1..] + [sep] + y;
      SplitAppend(x[1..], y, sep);
      FirstPieceAppend(x[0], sep, Split(x[1..], sep), Split(y, sep));
    }
  }

  /** One step of `Split` puts a character in front of the pieces of the
      rest; doing so before appending more pieces is the same as after. */
  lemma FirstPieceAppend(c: char, sep: char, left: seq<string>, right: seq<string>)
    requires |left| >= 1
    ensures (if c == sep then [""] + (left + right) else [[c] + (left + right)[0]] + (left + right)[1..])
         == (if c == sep then [""] + left else [[c] + left[0]] + left[1..]) + right
  {
    if c != sep {
      assert (left + right)[0] == left[0];
      assert (left + right)[1..] == left[1..] + right;
    }
  }

  /** Joining separator-free pieces and splitting again gives the pieces
      back. */
  lemma {:induction false} SplitJoin(parts: seq<string>, sep: char)
    requires |parts| >= 1
    requires forall k | 0 <= k < |parts| :: sep !in parts[k]
    ensures Split(Join(parts, [sep]), sep) == parts
  {
    if |parts| == 1 {
      SplitNoSep(parts[0], sep);
    } else {
      SplitJoin(parts[1..], sep);
      SplitCons(parts[0], Join(parts[1..], [sep]), sep);
      assert [parts[0]] + parts[1..] == parts;
    }
  }

  /** Splitting and joining back with the same separator restores the text. */
  lemma {:induction false} JoinSplit(s: string, sep: char)
    ensures Join(Split(s, sep), [sep]) == s
  {
    if |s| > 0 {
      var rest := Split(s[1..], sep);
      JoinSplit(s[1..], sep);
      if s[0] == sep {
        assert Split(s, sep) == [""] + rest;
        assert ([""] + rest)[1..] == rest;
        assert s == [sep] + s[1..];
      } else {
        var r := [[s[0]] + rest[0]] + rest[1..];
        assert Split(s, sep) == r;
        if |rest| == 1 {
          assert Join(r, [sep]) == [s[0]] + rest[0];
        } else {
          assert r[1..] == rest[1..];
          assert Join(rest, [sep]) == rest[0] + [sep] + Join(rest[1..], [sep]);
          assert Join(r, [sep]) == [s[0]] + rest[0] + [sep] + Join(rest[1..], [sep]);
        }
        assert s == [s[0]] + s[1..];
      }
    }
  }

  /** The decimal digit for 0..9. */
  function Digit(d: nat): (c: char)
    requires d < 10
    ensures '0' <= c <= '9'
  {
    "0123456789"[d]
  }

  function DigitValue(c: char): (d: nat)
    ensures '0' <= c <= '9' ==> d < 10
  {
    if '0' <= c <= '9' then (c as int - '0' as int) else 0
  }

  /** The decimal rendering of a natural number, as `${n}` gives it. */
  function NatToString(n: nat): (r: string)
    ensures |r| >= 1
    ensures forall k | 0 <= k < |r| :: '0' <= r[k] <= '9'
  {
    if n < 10 then [Digit(n)] else NatToString(n / 10) + [Digit(n % 10)]
  }

  /** Reads a string of decimal digits back as a number. */
  function ParseNat(s: string): nat
  {
    if |s| == 0 then 0 else 10 * ParseNat(s[..|s| - 1]) + DigitValue(s[|s| - 1])
  }

  lemma DigitRoundTrip(d: nat)
    requires d < 10
    ensures DigitValue(Digit(d)) == d
  {
    assert "0123456789"[0] == '0' && "0123456789"[1] == '1' && "0123456789"[2] == '2';
    assert "0123456789"[3] == '3' && "0123456789"[4] == '4' && "0123456789"[5] == '5';
    assert "0123456789"[6] == '6' && "0123456789"[7] == '7' && "0123456789"[8] == '8';
    assert "0123456789"[9] == '9';
  }

  /** Parsing the rendering gives the number back, so distinct numbers
      render differently. */
  lemma {:induction false} ParseNatToString(n: nat)
    ensures ParseNat(NatToString(n)) == n
  {
    if n < 10 {
      DigitRoundTrip(n);
      assert NatToString(n)[..0] == [];
    } else {
      var s := NatToString(n);
      ParseNatToString(n / 10);
      DigitRoundTrip(n % 10);
      assert s[..|s| - 1] == NatToString(n / 10);
    }
  }

  // ---------------------------------------------------------------------
  // Numbers with a fractional part

  /** A JavaScript number in the decimal form `String(x)` prints for it: a
      sign, the whole part, and the digits after the point (none for a whole
      number). */
  datatype Decimal = Decimal(negative: bool, whole: nat, fraction: string)

  /** The digits after the point are decimal digits and do not end in 0,
      as in the shortest form JavaScript prints. */
  predicate ValidDecimal(d: Decimal)
  {
    && (forall k | 0 <= k < |d.fraction| :: '0' <= d.fraction[k] <= '9')
    && (d.fraction == [] || d.fraction[|d.fraction| - 1] != '0')
  }

  function Pow10(n: nat): (p: nat)
    ensures p >= 1
  {
    if n == 0 then 1 else 10 * Pow10(n - 1)
  }

  /** Digits read as a number stay below the next power of ten, and a last
      digit other than 0 makes them positive. */
  lemma {:induction false} ParseNatRange(s: string)
    requires forall k | 0 <= k < |s| :: '0' <= s[k] <= '9'
    ensures ParseNat(s) < Pow10(|s|)
    ensures s != [] && s[|s| - 1] != '0' ==> ParseNat(s) >= 1
  {
    if |s| > 0 {
      var init := s[..|s| - 1];
      assert forall k | 0 <= k < |init| :: init[k] == s[k];
      ParseNatRange(init);
      assert Pow10(|s|) == 10 * Pow10(|init|);
    }
  }

  /** The value of the digits after the point: 0.25 for "25". */
  function FractionValue(f: string): (v: real)
    requires forall k | 0 <= k < |f| :: '0' <= f[k] <= '9'
    ensures 0.0 <= v < 1.0
    ensures f != [] && f[|f| - 1] != '0' ==> 0.0 < v
  {
    ParseNatRange(f);
    var v := ParseNat(f) as real / Pow10(|f|) as real;
    ShareBelowOne(ParseNat(f), Pow10(|f|));
    v
  }

  lemma ShareBelowOne(part: nat, whole: nat)
    requires part < whole
    ensures 0.0 <= part as real / whole as real < 1.0
    ensures 0 < part ==> 0.0 < part as real / whole as real
  {
    var q, w := part as real / whole as real, whole as real;
    assert (1.0 - q) * w == w - part as real;
  }

  /** The number a decimal stands for; its whole part is the magnitude's
      floor. */
  function Value(d: Decimal): (x: real)
    requires ValidDecimal(d)
    ensures d.whole as real <= (if d.negative then -x else x) < d.whole as real + 1.0
    ensures !d.negative ==> x.Floor == d.whole
    ensures x == 0.0 <==> d.whole == 0 && d.fraction == []
  {
    var m := d.whole as real + FractionValue(d.fraction);
    if d.negative then -m else m
  }

  /** `${x}`: a minus sign for a number below 0 (minus zero prints as 0),
      the whole part, then a point and the fraction digits if there are
      any. */
  function NumberText(d: Decimal): (r: string)
    requires ValidDecimal(d)
    ensures |r| >= 1
    ensures r[0] == '-' <==> Value(d) < 0.0
    ensures '.' in r <==> d.fraction != []
    ensures d.fraction == [] && Value(d) >= 0.0 ==> r == NatToString(d.whole)
  {
    var sign := if d.negative && (d.whole > 0 || d.fraction != []) then "-" else "";
    var point := if d.fraction == [] then "" else "." + d.fraction;
    var digits := NatToString(d.whole);
    DigitsOnly(d.whole);
    assert '.' in point <==> d.fraction != [];
    InThree('.', sign, digits, point);
    FirstOfThree(sign, digits, point);
    sign + digits + point
  }

  /** A number's decimal text holds neither a point nor a minus sign. */
  lemma DigitsOnly(n: nat)
    ensures '.' !in NatToString(n) && NatToString(n)[0] != '-'
  {
  }

  lemma InThree<T>(x: T, a: seq<T>, b: seq<T>, c: seq<T>)
    ensures x in a + b + c <==> x in a || x in b || x in c
  {
    if x in a + b + c {
      var k :| 0 <= k < |a + b + c| && (a + b + c)[k] == x;
      if k < |a| {
        assert a[k] == x;
      } else if k < |a| + |b| {
        assert b[k - |a|] == x;
      } else {
        assert c[k - |a| - |b|] == x;
      }
    }
  }

  lemma FirstOfThree<T>(a: seq<T>, b: seq<T>, c: seq<T>)
    requires b != []
    ensures (a + b + c)[0] == if a == [] then b[0] else a[0]
  {
  }

  lemma NatToStringInjective(m: nat, n: nat)
    requires NatToString(m) == NatToString(n)
    ensures m == n
  {
    ParseNatToString(m);
    ParseNatToString(n);
  }
}
