/**
 * The parts of java.lang.String and java.lang.Integer the club code relies on: trim, split on
 * one separator character, zero-padded decimal formatting (`%03d`), Integer.parseInt,
 * toLowerCase, contains and equalsIgnoreCase.
 */
module Text {
  import opened Wrappers

  // ---------------------------------------------------------------- trim

  /** Java's trim() removes every leading and trailing character whose code is at most U+0020. */
  predicate IsSpace(c: char) { c <= ' ' }

  function TrimStart(s: string): (r: string)
    ensures |r| <= |s| && r == s[|s| - |r|..]
    ensures r == [] || !IsSpace(r[0])
    ensures forall i :: 0 <= i < |s| - |r| ==> IsSpace(s[i])
  {
    if |s| > 0 && IsSpace(s[0]) then TrimStart(s[1..]) else s
  }

  function TrimEnd(s: string): (r: string)
    ensures |r| <= |s| && r == s[..|r|]
    ensures r == [] || !IsSpace(r[|r| - 1])
    ensures forall i :: |r| <= i < |s| ==> IsSpace(s[i])
  {
    if |s| > 0 && IsSpace(s[|s| - 1]) then TrimEnd(s[..|s| - 1]) else s
  }

  function Trim(s: string): string
  {
    TrimEnd(TrimStart(s))
  }

  /** `t` is s[a..b], everything cut off is blank, and neither end of `t` is blank. */
  predicate BlankFramed(s: string, a: int, b: int, t: string)
  {
    0 <= a <= b <= |s| && t == s[a..b]
    && (forall i :: 0 <= i < a ==> IsSpace(s[i]))
    && (forall i :: b <= i < |s| ==> IsSpace(s[i]))
    && (t == [] || (!IsSpace(t[0]) && !IsSpace(t[|t| - 1])))
  }

  /** The trimmed string is a slice of the input with neither end blank, and only blanks were cut. */
  lemma TrimIsCore(s: string)
    ensures exists a, b :: BlankFramed(s, a, b, Trim(s))
  {
    var u := TrimStart(s);
    var t := TrimEnd(u);
    var a := |s| - |u|;
    assert Trim(s) == t;
    TrimEndInside(s, a, u, t);
    assert forall i :: 0 <= i < a ==> IsSpace(s[i]);
    if t != [] {
      assert t == u[..|t|] && t[0] == u[0];
    }
    assert BlankFramed(s, a, a + |t|, t);
  }

  /** Trimming the end of the suffix s[a..] leaves a slice of s and cuts only blanks of s. */
  lemma TrimEndInside(s: string, a: nat, u: string, t: string)
    requires a <= |s| && u == s[a..] && t == TrimEnd(u)
    ensures t == s[a..a + |t|]
    ensures forall i :: a + |t| <= i < |s| ==> IsSpace(s[i])
  {
    forall i | a + |t| <= i < |s|
      ensures IsSpace(s[i])
    {
      assert s[i] == u[i - a];
    }
  }

  /** Trimming twice is trimming once. */
  lemma TrimIdempotent(s: string)
    ensures Trim(Trim(s)) == Trim(s)
  {
    var t := Trim(s);
    if t != [] {
      assert TrimStart(t) == t;
      assert TrimEnd(t) == t;
    }
  }

  // ---------------------------------------------------------------- split

  /** Every piece between occurrences of `sep`, empty pieces included; there is always one more piece than separators. */
  function SplitAll(s: string, sep: char): (r: seq<string>)
    ensures |r| >= 1
    ensures forall i :: 0 <= i < |r| ==> sep !in r[i]
    decreases |s|
  {
    if |s| == 0 then [""]
    else if s[0] == sep then [""] + SplitAll(s[1..], sep)
    else
      var rest := SplitAll(s[1..], sep);
      [[s[0]] + rest[0]] + rest[1..]
  }

  /** The inverse of SplitAll: the pieces glued back with the separator between them. */
  function Join(pieces: seq<string>, sep: char): string
    requires |pieces| >= 1
  {
    if |pieces| == 1 then pieces[0] else pieces[0] + [sep] + Join(pieces[1..], sep)
  }

  lemma {:induction false} JoinSplit(s: string, sep: char)
    ensures Join(SplitAll(s, sep), sep) == s
    decreases |s|
  {
    if |s| == 0 {
    } else if s[0] == sep {
      JoinSplit(s[1..], sep);
      assert s == [sep] + s[1..];
    } else {
      var rest := SplitAll(s[1..], sep);
      JoinSplit(s[1..], sep);
      if |rest| == 1 {
        assert s == [s[0]] + s[1..];
      } else {
        assert rest == [rest[0]] + rest[1..];
        assert s == [s[0]] + s[1..];
      }
    }
  }

  /** String.split drops the empty pieces at the end of the array. */
  function DropTrailingEmpty(ps: seq<string>): (r: seq<string>)
    ensures |r| <= |ps| && r == ps[..|r|]
    ensures r == [] || r[|r| - 1] != ""
    ensures forall i :: |r| <= i < |ps| ==> ps[i] == ""
  {
    if |ps| > 0 && ps[|ps| - 1] == "" then DropTrailingEmpty(ps[..|ps| - 1]) else ps
  }

  /**
   * `s.split(sep)` for a one-character, non-special regular expression: a string with no
   * separator yields itself (even the empty string); otherwise the pieces with trailing empty
   * pieces removed.
   */
  function Split(s: string, sep: char): (r: seq<string>)
    ensures sep !in s ==> r == [s]
    ensures forall i :: 0 <= i < |r| ==> sep !in r[i]
  {
    if sep !in s then [s] else DropTrailingEmpty(SplitAll(s, sep))
  }

  // ---------------------------------------------------------------- decimal digits

  predicate IsDigit(c: char) { '0' <= c <= '9' }

  predicate AllDigits(s: string) { forall i :: 0 <= i < |s| ==> IsDigit(s[i]) }

  function DigitValue(c: char): nat
    requires IsDigit(c)
  {
    (c as int) - ('0' as int)
  }

  function DigitChar(d: nat): (c: char)
    requires d < 10
    ensures IsDigit(c) && DigitValue(c) == d
  {
    ('0' as int + d) as char
  }

  /** The value of a string of decimal digits, most significant first. */
  function DecimalValue(s: string): nat
    requires AllDigits(s)
  {
    if |s| == 0 then 0 else 10 * DecimalValue(s[..|s| - 1]) + DigitValue(s[|s| - 1])
  }

  /** The shortest decimal representation of `n` ("0" for zero). */
  function Digits(n: nat): (r: string)
    ensures |r| >= 1 && AllDigits(r)
    ensures |r| > 1 ==> r[0] != '0'
  {
    if n < 10 then [DigitChar(n)] else Digits(n / 10) + [DigitChar(n % 10)]
  }

  lemma {:induction false} DecimalDigits(n: nat)
    ensures DecimalValue(Digits(n)) == n
  {
    if n >= 10 {
      var s := Digits(n);
      DecimalDigits(n / 10);
      assert s[..|s| - 1] == Digits(n / 10);
    }
  }

  lemma LeadingZeroValue(z: string, s: string)
    requires AllDigits(z) && AllDigits(s) && AllDigits(z + s)
    requires forall i :: 0 <= i < |z| ==> z[i] == '0'
    ensures DecimalValue(z + s) == DecimalValue(s)
    decreases |s|
  {
    if |s| == 0 {
      assert z + s == z;
      ZerosValue(z);
    } else {
      assert (z + s)[..|z + s| - 1] == z + s[..|s| - 1];
      LeadingZeroValue(z, s[..|s| - 1]);
    }
  }

  lemma ZerosValue(z: string)
    requires AllDigits(z)
    requires forall i :: 0 <= i < |z| ==> z[i] == '0'
    ensures DecimalValue(z) == 0
  {
    if |z| > 0 {
      ZerosValue(z[..|z| - 1]);
    }
  }

  /** `String.format("%03d", n)` for a non-negative n: at least three digits, zero-padded on the left. */
  function Pad3(n: nat): (r: string)
    ensures |r| >= 3 && AllDigits(r)
  {
    var d := Digits(n);
    if |d| >= 3 then d else seq(3 - |d|, _ => '0') + d
  }

  /** The padded number reads back as the number. */
  lemma Pad3Value(n: nat)
    ensures DecimalValue(Pad3(n)) == n
  {
    DecimalDigits(n);
    var d := Digits(n);
    if |d| < 3 {
      LeadingZeroValue(seq(3 - |d|, _ => '0'), d);
    }
  }

  /** Different numbers get different padded codes. */
  lemma Pad3Injective(m: nat, n: nat)
    requires Pad3(m) == Pad3(n)
    ensures m == n
  {
    Pad3Value(m);
    Pad3Value(n);
  }

  // ---------------------------------------------------------------- Integer.parseInt

  const MinInt: int := -0x8000_0000
  const MaxInt: int := 0x7FFF_FFFF

  /** Java's 32-bit `int`, used where values serve as keys (member ids). */
  newtype Int32 = x: int | -0x8000_0000 <= x <= 0x7FFF_FFFF

  /**
   * Integer.parseInt(s): an optional '+' or '-' sign followed by at least one decimal digit,
   * denoting a value within the 32-bit range; anything else is a NumberFormatException (None).
   */
  function ParseInt(s: string): (r: Option<int>)
    ensures r.Some? ==> MinInt <= r.value <= MaxInt
  {
    var neg := |s| > 0 && s[0] == '-';
    var body := if |s| > 0 && (s[0] == '-' || s[0] == '+') then s[1..] else s;
    if |body| == 0 || !AllDigits(body) then None
    else
      var v: int := if neg then 0 - (DecimalValue(body) as int) else DecimalValue(body);
      if MinInt <= v <= MaxInt then Some(v) else None
  }

  /** Integer.toString(n). */
  function IntToString(n: int): string
  {
    if n < 0 then "-" + Digits(-n) else Digits(n)
  }

  /** Every 32-bit integer parses back from its decimal form. */
  lemma ParseIntToString(n: int)
    requires MinInt <= n <= MaxInt
    ensures ParseInt(IntToString(n)) == Some(n)
  {
    if n < 0 {
      DecimalDigits(-n);
      assert ("-" + Digits(-n))[1..] == Digits(-n);
    } else {
      DecimalDigits(n);
    }
  }

  /** Blank or empty input never parses. */
  lemma ParseIntEmpty()
    ensures ParseInt("") == None && ParseInt("-") == None && ParseInt("+") == None
  {
  }

  /** Read the other way: an accepted string is an optional sign and then digits, denoting their value with that sign. */
  lemma ParseIntAccepted(s: string, n: int)
    requires ParseInt(s) == Some(n)
    ensures |s| > 0
    ensures var body := if s[0] == '-' || s[0] == '+' then s[1..] else s;
      |body| > 0 && AllDigits(body) && n == (if s[0] == '-' then 0 - (DecimalValue(body) as int) else DecimalValue(body))
  {
  }

  /** Leading zeros and a '+' sign change nothing: the same answer as the bare digits. */
  lemma ParseIntLeadingZeros(z: string, s: string)
    requires |s| > 0 && AllDigits(s) && forall i :: 0 <= i < |z| ==> z[i] == '0'
    ensures ParseInt(z + s) == ParseInt(s) && ParseInt("+" + s) == ParseInt(s)
  {
    assert AllDigits(z + s);
    LeadingZeroValue(z, s);
    assert ("+" + s)[1..] == s;
  }

  /** Leading zeros are ignored: "007" is 7. */
  lemma ParseIntLeadingZerosExample()
    ensures ParseInt("007") == Some(7)
  {
    assert DecimalValue("7") == 7 by { assert "7"[..0] == []; }
    ParseIntLeadingZeros("00", "7");
    assert "00" + "7" == "007";
  }

  /** A '+' sign is accepted: "+5" is 5. */
  lemma ParseIntPlusExample()
    ensures ParseInt("+5") == Some(5)
  {
    assert DecimalValue("5") == 5 by { assert "5"[..0] == []; }
    assert "+5"[1..] == "5";
  }

  /** A negative zero is accepted: "-0" is 0. */
  lemma ParseIntNegativeZeroExample()
    ensures ParseInt("-0") == Some(0)
  {
    assert DecimalValue("0") == 0 by { assert "0"[..0] == []; }
    assert "-0"[1..] == "0";
  }

  /** A stray character anywhere refuses the whole string: "1a", " 1" and "1-" do not parse. */
  lemma ParseIntRejectsStray()
    ensures ParseInt("1a") == None && ParseInt(" 1") == None && ParseInt("1-") == None
  {
    assert !IsDigit("1a"[1]) && !IsDigit(" 1"[0]) && !IsDigit("1-"[1]);
  }

  // ---------------------------------------------------------------- case and search

  /**
   * Character.toLowerCase on the characters that occur in the club's data: ASCII A-Z and the
   * Latin-1 capitals U+00C0..U+00DE except the multiplication sign U+00D7.
   */
  function LowerChar(c: char): char
  {
    if 'A' <= c <= 'Z' || ('À' <= c <= 'Þ' && c != '×') then
      (c as int + 32) as char
    else c
  }

  function ToLower(s: string): (r: string)
    ensures |r| == |s|
    ensures forall i :: 0 <= i < |s| ==> r[i] == LowerChar(s[i])
  {
    seq(|s|, i requires 0 <= i < |s| => LowerChar(s[i]))
  }

  /** equalsIgnoreCase, restricted to the same character range as LowerChar. */
  predicate EqualsIgnoreCase(a: string, b: string)
  {
    ToLower(a) == ToLower(b)
  }

  /** String.contains: `t` occurs somewhere in `s` as a contiguous slice. */
  predicate Contains(s: string, t: string)
  {
    exists i :: 0 <= i <= |s| && OccursAt(s, t, i)
  }

  predicate OccursAt(s: string, t: string, i: int)
  {
    0 <= i && i + |t| <= |s| && s[i..i + |t|] == t
  }

  /** The empty string is contained in every string. */
  lemma ContainsEmpty(s: string)
    ensures Contains(s, "")
  {
    assert OccursAt(s, "", 0);
  }

  /** Every string contains itself. */
  lemma ContainsSelf(s: string)
    ensures Contains(s, s)
  {
    assert OccursAt(s, s, 0);
  }
}
