/**
 * The JavaScript string operations the source relies on, on `string` = `seq<char>`:
 * `String(n)` for integers, `padStart`, `parseInt` (decimal), `trim`, `split` on one character,
 * and `length` and `substring` counted in UTF-16 code units.
 */
module Text {

  predicate IsDigit(c: char) {
    '0' <= c <= '9'
  }

  predicate AllDigits(s: string) {
    forall i :: 0 <= i < |s| ==> IsDigit(s[i])
  }

  function DigitChar(d: nat): (c: char)
    requires d < 10
    ensures IsDigit(c)
  {
    "0123456789"[d]
  }

  function DigitValue(c: char): (d: nat)
    requires IsDigit(c)
    ensures d < 10
  {
    c as int - '0' as int
  }

  lemma DigitRoundTrip(d: nat)
    requires d < 10
    ensures DigitValue(DigitChar(d)) == d
  {
  }

  /** The decimal digits of `n`, without leading zeros (`String(n)` for `n >= 0`). */
  function Digits(n: nat): (s: string)
    ensures 1 <= |s|
    ensures AllDigits(s)
    ensures n < 10 <==> |s| == 1
    ensures 10 <= n < 100 ==> |s| == 2
  {
    if n < 10 then [DigitChar(n)] else Digits(n / 10) + [DigitChar(n % 10)]
  }

  /** The value of a string of decimal digits, most significant first. */
  function DecVal(s: string): nat
    requires AllDigits(s)
  {
    if s == [] then 0 else DecVal(s[..|s| - 1]) * 10 + DigitValue(s[|s| - 1])
  }

  /** `Digits` and `DecVal` are inverse: printing a number and reading it back gives it again. */
  lemma {:induction false} DecValDigits(n: nat)
    ensures DecVal(Digits(n)) == n
  {
    if n >= 10 {
      var s := Digits(n);
      assert s[..|s| - 1] == Digits(n / 10);
      DecValDigits(n / 10);
      DigitRoundTrip(n % 10);
    } else {
      DigitRoundTrip(n);
    }
  }

  /** `k` copies of `c`. */
  function Repeat(c: char, k: nat): (r: string)
    ensures |r| == k
    ensures forall i :: 0 <= i < k ==> r[i] == c
  {
    seq(k, _ => c)
  }

  /** Leading zeros do not change a decimal value. */
  lemma {:induction false} DecValLeadingZeros(k: nat, s: string)
    requires AllDigits(s)
    ensures AllDigits(Repeat('0', k) + s)
    ensures DecVal(Repeat('0', k) + s) == DecVal(s)
    decreases |s|
  {
    var z := Repeat('0', k);
    assert AllDigits(z + s) by {
      forall i | 0 <= i < |z + s| ensures IsDigit((z + s)[i]) {
        if i < k { assert (z + s)[i] == '0'; } else { assert (z + s)[i] == s[i - k]; }
      }
    }
    if s == [] {
      assert z + s == z;
      DecValZeros(k);
    } else {
      assert (z + s)[..|z + s| - 1] == z + s[..|s| - 1];
      DecValLeadingZeros(k, s[..|s| - 1]);
    }
  }

  lemma {:induction false} DecValZeros(k: nat)
    ensures AllDigits(Repeat('0', k))
    ensures DecVal(Repeat('0', k)) == 0
  {
    if k > 0 {
      assert Repeat('0', k)[..k - 1] == Repeat('0', k - 1);
      DecValZeros(k - 1);
    }
  }

  /** `String(n)` for any integer: a minus sign in front of the digits of a negative number. */
  function IntToString(n: int): (s: string)
    ensures n >= 0 ==> s == Digits(n)
    ensures n < 0 ==> s == "-" + Digits(-n)
  {
    if n < 0 then "-" + Digits(-n) else Digits(n)
  }

  /** `s.padStart(width, fill)`: `fill` repeated on the left until `s` is `width` long. */
  function PadStart(s: string, width: nat, fill: char): (r: string)
    ensures |r| == if |s| >= width then |s| else width
    ensures r[|r| - |s|..] == s
    ensures forall i :: 0 <= i < |r| - |s| ==> r[i] == fill
  {
    if |s| >= width then s else Repeat(fill, width - |s|) + s
  }

  /** The characters `String.prototype.trim` removes: WhiteSpace and LineTerminator of ECMAScript. */
  predicate IsJsWhitespace(c: char) {
    || c == ' ' || c == '\t' || c == '\n' || c == '\r'
    || c == '\U{B}' || c == '\U{C}' || c == '\U{A0}' || c == '\U{FEFF}'
    || c == '\U{1680}' || ('\U{2000}' <= c <= '\U{200A}') || c == '\U{2028}' || c == '\U{2029}'
    || c == '\U{202F}' || c == '\U{205F}' || c == '\U{3000}'
  }

  /** `s.trimStart()`: `s` without its leading whitespace, and nothing else removed. */
  function TrimStart(s: string): (r: string)
    ensures |r| <= |s| && r == s[|s| - |r|..]
    ensures forall i :: 0 <= i < |s| - |r| ==> IsJsWhitespace(s[i])
    ensures r != [] ==> !IsJsWhitespace(r[0])
  {
    if s != [] && IsJsWhitespace(s[0]) then TrimStart(s[1..]) else s
  }

  /** `s.trimEnd()`: `s` without its trailing whitespace, and nothing else removed. */
  function TrimEnd(s: string): (r: string)
    ensures |r| <= |s| && r == s[..|r|]
    ensures forall i :: |r| <= i < |s| ==> IsJsWhitespace(s[i])
    ensures r != [] ==> !IsJsWhitespace(r[|r| - 1])
  {
    if s != [] && IsJsWhitespace(s[|s| - 1]) then TrimEnd(s[..|s| - 1]) else s
  }

  /** `s.trim()`. */
  function Trim(s: string): (r: string)
    ensures |r| <= |s|
    ensures r != [] ==> !IsJsWhitespace(r[0]) && !IsJsWhitespace(r[|r| - 1])
    ensures r == [] <==> forall i :: 0 <= i < |s| ==> IsJsWhitespace(s[i])
  {
    var t := TrimStart(s);
    var r := TrimEnd(t);
    assert r != [] ==> t[0] == s[|s| - |t|];
    r
  }

  /** `s.trim()` is a run of `s`'s own characters, starting after the leading whitespace. */
  lemma TrimIsSlice(s: string)
    ensures var a := |s| - |TrimStart(s)|; a + |Trim(s)| <= |s| && Trim(s) == s[a..a + |Trim(s)|]
  {
  }

  /** Every character of `s.trim()` is a character of `s`. */
  lemma TrimChars(s: string)
    ensures forall c :: c in Trim(s) ==> c in s
  {
    TrimIsSlice(s);
    var a := |s| - |TrimStart(s)|;
    var r := Trim(s);
    forall c | c in r ensures c in s {
      var i :| 0 <= i < |r| && r[i] == c;
      assert s[a + i] == c;
    }
  }

  /** A string with no whitespace at either end is its own trim. */
  lemma TrimKeeps(s: string)
    requires s != [] && !IsJsWhitespace(s[0]) && !IsJsWhitespace(s[|s| - 1])
    ensures Trim(s) == s
  {
  }

  /**
   * JavaScript strings are sequences of UTF-16 code units: a character outside the Basic
   * Multilingual Plane takes two of them (a surrogate pair), every other character one.
   */
  function UnitWidth(c: char): (w: nat)
    ensures w == 1 || w == 2
    ensures w == 2 <==> c as int >= 0x10000
  {
    if c as int >= 0x10000 then 2 else 1
  }

  /** `s.length`: the number of UTF-16 code units. */
  function Utf16Length(s: string): (n: nat)
    ensures |s| <= n <= 2 * |s|
  {
    if s == [] then 0 else UnitWidth(s[0]) + Utf16Length(s[1..])
  }

  lemma Utf16LengthCons(c: char, t: string)
    ensures Utf16Length([c] + t) == UnitWidth(c) + Utf16Length(t)
  {
    assert ([c] + t)[1..] == t;
  }

  /** The length in code units is the number of characters exactly when no pair is needed. */
  lemma {:induction false} Utf16LengthBmp(s: string)
    ensures Utf16Length(s) == |s| <==> forall i :: 0 <= i < |s| ==> s[i] as int < 0x10000
  {
    if s != [] {
      Utf16LengthBmp(s[1..]);
      assert forall i :: 1 <= i < |s| ==> s[i] == s[1..][i - 1];
    }
  }

  /**
   * The characters `s.substring(0, units)` keeps whole: the longest prefix of at most `units`
   * code units. When a surrogate pair straddles the cut, JavaScript keeps its first half alone,
   * which no `char` can hold; the prefix then stops before that pair.
   */
  function Utf16Prefix(s: string, units: nat): (p: string)
    ensures |p| <= |s| && p == s[..|p|]
  {
    if s == [] || UnitWidth(s[0]) > units then []
    else
      var rest := Utf16Prefix(s[1..], units - UnitWidth(s[0]));
      assert [s[0]] + rest == s[..|rest| + 1];
      [s[0]] + rest
  }

  /** The prefix fits in `units` code units. */
  lemma {:induction false} Utf16PrefixFits(s: string, units: nat)
    ensures Utf16Length(Utf16Prefix(s, units)) <= units
  {
    if s != [] && UnitWidth(s[0]) <= units {
      var rest := Utf16Prefix(s[1..], units - UnitWidth(s[0]));
      Utf16PrefixFits(s[1..], units - UnitWidth(s[0]));
      Utf16LengthCons(s[0], rest);
    }
  }

  /** A string that fits in `units` code units is kept whole. */
  lemma {:induction false} Utf16PrefixWhole(s: string, units: nat)
    requires Utf16Length(s) <= units
    ensures Utf16Prefix(s, units) == s
  {
    if s != [] {
      Utf16LengthCons(s[0], s[1..]);
      assert [s[0]] + s[1..] == s;
      Utf16PrefixWhole(s[1..], units - UnitWidth(s[0]));
    }
  }

  /** The prefix is the longest that fits: one more character would exceed `units`. */
  lemma {:induction false} Utf16PrefixLongest(s: string, units: nat)
    ensures var p := Utf16Prefix(s, units);
      |p| < |s| ==> Utf16Length(s[..|p| + 1]) > units
  {
    if s == [] {
    } else if UnitWidth(s[0]) > units {
      Utf16LengthCons(s[0], []);
      assert s[..1] == [s[0]] + [];
    } else {
      var rest := Utf16Prefix(s[1..], units - UnitWidth(s[0]));
      Utf16PrefixLongest(s[1..], units - UnitWidth(s[0]));
      if |rest| < |s[1..]| {
        Utf16LengthCons(s[0], s[1..][..|rest| + 1]);
        assert [s[0]] + s[1..][..|rest| + 1] == s[..|rest| + 2];
      }
    }
  }

  /** On text inside the Basic Multilingual Plane, units and characters coincide. */
  lemma {:induction false} Utf16PrefixBmp(s: string, units: nat)
    requires forall i :: 0 <= i < |s| ==> s[i] as int < 0x10000
    ensures |Utf16Prefix(s, units)| == if |s| < units then |s| else units
  {
    if s != [] && units > 0 {
      assert forall i :: 0 <= i < |s[1..]| ==> s[1..][i] == s[i + 1];
      Utf16PrefixBmp(s[1..], units - 1);
    }
  }

  /** `parts.join(sep)`. */
  function Join(parts: seq<string>, sep: char): string
    requires |parts| >= 1
  {
    if |parts| == 1 then parts[0] else parts[0] + [sep] + Join(parts[1..], sep)
  }

  /**
   * `s.split(sep)` for a one-character separator: the pieces between separators, in order.
   * Joining them again gives `s` back, and no piece holds the separator.
   */
  function Split(s: string, sep: char): (parts: seq<string>)
    ensures |parts| >= 1
    ensures forall i :: 0 <= i < |parts| ==> sep !in parts[i]
    ensures Join(parts, sep) == s
  {
    if s == [] then [""]
    else
      var rest := Split(s[1..], sep);
      if s[0] == sep then
        assert Join([""] + rest, sep) == [sep] + Join(rest, sep) by {
          assert ([""] + rest)[1..] == rest;
        }
        [""] + rest
      else
        var parts := [[s[0]] + rest[0]] + rest[1..];
        assert Join(parts, sep) == [s[0]] + Join(rest, sep) by {
          if |rest| > 1 {
            assert parts[1..] == rest[1..];
          }
        }
        parts
  }

  /**
   * The pieces `Split` produces are the only ones: any sequence of separator-free strings
   * that joins to `s` is `Split(s, sep)`.
   */
  lemma {:induction false} SplitUnique(s: string, sep: char, parts: seq<string>)
    requires |parts| >= 1
    requires forall i :: 0 <= i < |parts| ==> sep !in parts[i]
    requires Join(parts, sep) == s
    ensures parts == Split(s, sep)
    decreases |s|, |parts[0]|
  {
    JoinLength(parts, sep);
    if s == [] {
    } else if parts[0] == [] {
      assert s[0] == sep && s[1..] == Join(parts[1..], sep);
      SplitUnique(s[1..], sep, parts[1..]);
      assert parts == [""] + parts[1..];
    } else {
      var head := parts[0];
      assert head[0] != sep by { assert head[0] in head; }
      var tailParts := [head[1..]] + parts[1..];
      assert forall i :: 0 <= i < |tailParts| ==> sep !in tailParts[i] by {
        forall i | 0 <= i < |tailParts| ensures sep !in tailParts[i] {
          if i == 0 {
            assert forall x :: x in head[1..] ==> x in head;
          } else {
            assert tailParts[i] == parts[i];
          }
        }
      }
      assert Join(tailParts, sep) == s[1..] by {
        if |parts| == 1 {
          assert Join(tailParts, sep) == head[1..];
        } else {
          assert tailParts[1..] == parts[1..];
          assert Join(parts, sep) == head + [sep] + Join(parts[1..], sep);
          assert Join(tailParts, sep) == head[1..] + [sep] + Join(parts[1..], sep);
        }
      }
      assert s[0] == head[0];
      SplitUnique(s[1..], sep, tailParts);
      var rest := Split(s[1..], sep);
      assert rest == tailParts;
      assert head == [head[0]] + head[1..];
      assert parts == [head] + parts[1..];
      assert parts == [[s[0]] + rest[0]] + rest[1..];
    }
  }

  lemma {:induction false} JoinLength(parts: seq<string>, sep: char)
    requires |parts| >= 1
    ensures |Join(parts, sep)| >= |parts| - 1
    ensures |parts| == 1 ==> Join(parts, sep) == parts[0]
  {
    if |parts| > 1 {
      JoinLength(parts[1..], sep);
    }
  }

  /** The longest prefix of `s` made of decimal digits. */
  function DigitPrefix(s: string): (d: string)
    ensures AllDigits(d) && |d| <= |s| && d == s[..|d|]
    ensures |d| < |s| ==> !IsDigit(s[|d|])
  {
    if s != [] && IsDigit(s[0]) then [s[0]] + DigitPrefix(s[1..]) else []
  }

  /**
   * `parseInt(s) || 0` in base 10: leading whitespace skipped, an optional sign, then the longest
   * run of digits; no digits at all (`NaN`) becomes 0.
   */
  function ParseIntOrZero(s: string): int
  {
    var t := TrimStart(s);
    var negative := |t| > 0 && t[0] == '-';
    var body := if |t| > 0 && (t[0] == '-' || t[0] == '+') then t[1..] else t;
    var d := DigitPrefix(body);
    if d == [] then 0 else if negative then 0 - DecVal(d) else DecVal(d)
  }

  /** Reading back a printed non-negative number gives that number; the empty field reads as 0. */
  lemma ParseIntOrZeroDigits(n: nat)
    ensures ParseIntOrZero(Digits(n)) == n
    ensures ParseIntOrZero("") == 0
  {
    var s := Digits(n);
    DigitIsNotWhitespace(s[0]);
    assert TrimStart(s) == s;
    AllDigitsPrefix(s);
    DecValDigits(n);
  }

  lemma DigitIsNotWhitespace(c: char)
    requires IsDigit(c)
    ensures !IsJsWhitespace(c) && c != '-' && c != '+'
  {
  }

  lemma {:induction false} AllDigitsPrefix(s: string)
    requires AllDigits(s)
    ensures DigitPrefix(s) == s
  {
    if s != [] {
      AllDigitsPrefix(s[1..]);
    }
  }
}
