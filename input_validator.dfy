/**
 * InputValidator: string predicates (e-mail shape, phone characters) and the read-until-valid
 * loops of the console.  The scanner is a sequence of input lines; a reader that runs out of
 * lines before it accepts one yields None.  An accepted reading records the value and how many
 * lines it consumed.
 */
module InputValidation {
  import opened Wrappers
  import opened Text

  datatype Reading<T> = Reading(value: T, used: nat)

  // ---------------------------------------------------------------- what each reader accepts

  /** getIntInRange's test of one line: non-empty once trimmed, an int, and within [min, max]. */
  function IntInRange(line: string, min: int, max: int): (r: Option<int>)
    ensures r.Some? <==> Trim(line) != [] && ParseInt(Trim(line)).Some?
                         && min <= ParseInt(Trim(line)).value <= max
    ensures r.Some? ==> r.value == ParseInt(Trim(line)).value
  {
    var input := Trim(line);
    if |input| == 0 then None
    else match ParseInt(input)
      case None => None
      case Some(value) => if value < min || value > max then None else Some(value)
  }

  /**
   * The reading a read-until-valid loop makes of `lines` with the line test `accept`: the first
   * line the test takes, with its value and how many lines were consumed; None when the test
   * takes no line.
   */
  function FirstAccepted<T>(lines: seq<string>, accept: string -> Option<T>): (r: Option<Reading<T>>)
    ensures r.Some? ==> 0 < r.value.used <= |lines| && accept(lines[r.value.used - 1]) == Some(r.value.value)
                        && forall j :: 0 <= j < r.value.used - 1 ==> accept(lines[j]).None?
    ensures r.None? ==> forall j :: 0 <= j < |lines| ==> accept(lines[j]).None?
  {
    if |lines| == 0 then None
    else match accept(lines[0])
      case Some(v) => Some(Reading(v, 1))
      case None =>
        var rest := FirstAccepted(lines[1..], accept);
        assert forall j :: 0 <= j < |lines| - 1 ==> lines[1..][j] == lines[j + 1];
        match rest
        case None => None
        case Some(rd) => Some(Reading(rd.value, rd.used + 1))
  }

  /** Only one reading has FirstAccepted's properties: the first accepted line is unique. */
  lemma {:induction false} FirstAcceptedUnique<T>(lines: seq<string>, accept: string -> Option<T>, r: Option<Reading<T>>)
    requires r.Some? ==> 0 < r.value.used <= |lines| && accept(lines[r.value.used - 1]) == Some(r.value.value)
                         && forall j :: 0 <= j < r.value.used - 1 ==> accept(lines[j]).None?
    requires r.None? ==> forall j :: 0 <= j < |lines| ==> accept(lines[j]).None?
    ensures r == FirstAccepted(lines, accept)
  {
    if |lines| > 0 && accept(lines[0]).None? {
      var rest := if r.None? then None else Some(Reading(r.value.value, r.value.used - 1));
      assert forall j :: 0 <= j < |lines| - 1 ==> lines[1..][j] == lines[j + 1];
      FirstAcceptedUnique(lines[1..], accept, rest);
    }
  }

  /** getIntInRange's line test, for given bounds. */
  function IntTest(min: int, max: int): string -> Option<int>
  {
    line => IntInRange(line, min, max)
  }

  /** The reading getIntInRange makes of `lines`: the first line it accepts, and where that line is. */
  function FirstInt(lines: seq<string>, min: int, max: int): (r: Option<Reading<int>>)
    ensures r.Some? ==> 0 < r.value.used <= |lines| && min <= r.value.value <= max
  {
    var r := FirstAccepted(lines, IntTest(min, max));
    assert r.Some? ==> IntInRange(lines[r.value.used - 1], min, max) == Some(r.value.value);
    r
  }

  /** getNonEmptyString's test: the trimmed line, unless it is empty. */
  function NonEmpty(line: string): (r: Option<string>)
    ensures r.Some? <==> Trim(line) != []
    ensures r.Some? ==> r.value == Trim(line)
  {
    var value := Trim(line);
    if |value| == 0 then None else Some(value)
  }

  /** getYesNoConfirmation's test: "Ja" is yes and "Nej" is no, in any case, after trim. */
  function YesNo(line: string): (r: Option<bool>)
    ensures r == Some(true) <==> EqualsIgnoreCase(Trim(line), "Ja")
    ensures r == Some(false) <==> EqualsIgnoreCase(Trim(line), "Nej")
  {
    var input := Trim(line);
    if EqualsIgnoreCase(input, "Ja") then Some(true)
    else if EqualsIgnoreCase(input, "Nej") then Some(false)
    else None
  }

  /** "Ja" and "Nej" are never equal ignoring case, so no line is both answers. */
  lemma YesAndNoDiffer(s: string)
    ensures !(EqualsIgnoreCase(s, "Ja") && EqualsIgnoreCase(s, "Nej"))
  {
    if EqualsIgnoreCase(s, "Ja") {
      assert |ToLower(s)| == 2;
      assert |ToLower("Nej")| == 3;
    }
  }

  /** getPassword's test: the trimmed line, if it has at least minLength characters. */
  function Password(line: string, minLength: int): (r: Option<string>)
    ensures r.Some? <==> |Trim(line)| >= minLength
    ensures r.Some? ==> r.value == Trim(line)
  {
    var password := Trim(line);
    if |password| < minLength then None else Some(password)
  }

  /** getPassword's line test, for a given minimum length. */
  function PasswordTest(minLength: int): string -> Option<string>
  {
    line => Password(line, minLength)
  }

  /** confirmPassword: the trimmed confirmation line equals the original password. */
  function ConfirmPassword(line: string, originalPassword: string): bool
  {
    originalPassword == Trim(line)
  }

  /**
   * A password read by getPassword is confirmed by typing the same line again, and a
   * confirmation always has the original password's length.
   */
  lemma ConfirmPasswordOfReading(line: string, again: string, minLength: int)
    requires Password(line, minLength).Some?
    ensures Trim(again) == Trim(line) ==> ConfirmPassword(again, Password(line, minLength).value)
    ensures ConfirmPassword(again, Password(line, minLength).value) ==> |Trim(again)| >= minLength
  {
  }

  // ---------------------------------------------------------------- e-mail and phone

  /** String.indexOf(c): the first position of c, or -1. */
  function IndexOf(s: string, c: char): (r: int)
    ensures -1 <= r < |s|
    ensures r >= 0 ==> s[r] == c && forall i :: 0 <= i < r ==> s[i] != c
    ensures r == -1 ==> forall i :: 0 <= i < |s| ==> s[i] != c
  {
    if |s| == 0 then -1
    else if s[0] == c then 0
    else var k := IndexOf(s[1..], c); if k == -1 then -1 else k + 1
  }

  /** String.lastIndexOf(c): the last position of c, or -1. */
  function LastIndexOf(s: string, c: char): (r: int)
    ensures -1 <= r < |s|
    ensures r >= 0 ==> s[r] == c && forall i :: r < i < |s| ==> s[i] != c
    ensures r == -1 ==> forall i :: 0 <= i < |s| ==> s[i] != c
  {
    if |s| == 0 then -1
    else if s[|s| - 1] == c then |s| - 1
    else LastIndexOf(s[..|s| - 1], c)
  }

  /** isValidEmail; a null argument is None. */
  predicate IsValidEmail(email: Option<string>)
  {
    match email
    case None => false
    case Some(e) =>
      if |Trim(e)| == 0 then false
      else Contains(e, "@") && Contains(e, ".") && IndexOf(e, '@') < LastIndexOf(e, '.')
  }

  lemma ContainsChar(s: string, c: char)
    ensures Contains(s, [c]) <==> exists i :: 0 <= i < |s| && s[i] == c
  {
    if exists i :: 0 <= i < |s| && s[i] == c {
      var i :| 0 <= i < |s| && s[i] == c;
      assert s[i..i + 1] == [c];
      assert OccursAt(s, [c], i);
    }
    if Contains(s, [c]) {
      var i :| 0 <= i <= |s| && OccursAt(s, [c], i);
      assert s[i] == s[i..i + 1][0];
    }
  }

  /** The first '@' precedes the last '.' exactly when some '@' precedes some '.'. */
  lemma AtBeforeDot(e: string)
    ensures (0 <= IndexOf(e, '@') < LastIndexOf(e, '.'))
            <==> exists i, j :: 0 <= i < j < |e| && e[i] == '@' && e[j] == '.'
  {
    var a, d := IndexOf(e, '@'), LastIndexOf(e, '.');
    if exists i, j :: 0 <= i < j < |e| && e[i] == '@' && e[j] == '.' {
      var i, j :| 0 <= i < j < |e| && e[i] == '@' && e[j] == '.';
      assert a <= i && j <= d;
    }
    if 0 <= a < d {
      assert e[a] == '@' && e[d] == '.';
    }
  }

  /** An address is valid exactly when it is not blank and some '@' comes before some '.'. */
  lemma ValidEmailCharacterised(e: string)
    ensures IsValidEmail(Some(e))
            <==> |Trim(e)| > 0 && exists i, j :: 0 <= i < j < |e| && e[i] == '@' && e[j] == '.'
  {
    assert "@" == ['@'] && "." == ['.'];
    ContainsChar(e, '@');
    ContainsChar(e, '.');
    AtBeforeDot(e);
  }

  /** A character of `^[0-9\s\-+()]+$`: a digit, Java's \s, or one of - + ( ). */
  predicate PhoneChar(c: char)
  {
    IsDigit(c) || c == ' ' || c == '\t' || c == '\n' || c == '\U{B}' || c == '\U{C}' || c == '\r'
    || c == '-' || c == '+' || c == '(' || c == ')'
  }

  predicate PhonePattern(s: string)
  {
    |s| > 0 && forall i :: 0 <= i < |s| ==> PhoneChar(s[i])
  }

  /** getValidEmail's test: the trimmed line, if it is a valid address. */
  function Email(line: string): (r: Option<string>)
    ensures r.Some? <==> Trim(line) != [] && IsValidEmail(Some(Trim(line)))
    ensures r.Some? ==> r.value == Trim(line)
  {
    var email := Trim(line);
    if |email| == 0 then None
    else if !IsValidEmail(Some(email)) then None
    else Some(email)
  }

  /** getValidPhone's test: the trimmed line, if it is non-empty and matches the phone pattern. */
  function Phone(line: string): (r: Option<string>)
    ensures r.Some? <==> PhonePattern(Trim(line))
    ensures r.Some? ==> r.value == Trim(line)
  {
    var phone := Trim(line);
    if |phone| == 0 then None
    else if !PhonePattern(phone) then None
    else Some(phone)
  }

  // ---------------------------------------------------------------- the read-until-valid loops

  /**
   * The loop every reader runs: read a line, apply the reader's test, return the value the
   * test accepts, otherwise go on with the next line.
   */
  method ReadUntil<T>(lines: seq<string>, accept: string -> Option<T>) returns (r: Option<Reading<T>>)
    ensures r == FirstAccepted(lines, accept)
  {
    var i := 0;
    while i < |lines|
      invariant 0 <= i <= |lines|
      invariant forall j :: 0 <= j < i ==> accept(lines[j]).None?
    {
      var accepted := accept(lines[i]);
      i := i + 1;
      if accepted.Some? {
        r := Some(Reading(accepted.value, i));
        FirstAcceptedUnique(lines, accept, r);
        return;
      }
    }
    FirstAcceptedUnique(lines, accept, None);
    return None;
  }

  /** getIntInRange: the first acceptable line's value, which is within [min, max]. */
  method GetIntInRange(lines: seq<string>, min: int, max: int) returns (r: Option<Reading<int>>)
    ensures r == FirstInt(lines, min, max)
    ensures r.Some? ==> min <= r.value.value <= max
  {
    r := ReadUntil(lines, IntTest(min, max));
  }

  /** getNonEmptyString: the first line that is not blank, trimmed. */
  method GetNonEmptyString(lines: seq<string>) returns (r: Option<Reading<string>>)
    ensures r == FirstAccepted(lines, NonEmpty)
    ensures r.Some? ==> r.value.value == Trim(lines[r.value.used - 1]) && r.value.value != []
  {
    r := ReadUntil(lines, NonEmpty);
  }

  /** getYesNoConfirmation: the answer on the first line that says "Ja" or "Nej". */
  method GetYesNoConfirmation(lines: seq<string>) returns (r: Option<Reading<bool>>)
    ensures r == FirstAccepted(lines, YesNo)
    ensures r.Some? ==> (r.value.value <==> EqualsIgnoreCase(Trim(lines[r.value.used - 1]), "Ja"))
  {
    r := ReadUntil(lines, YesNo);
  }

  /** getPassword: the first trimmed line at least minLength long. */
  method GetPassword(lines: seq<string>, minLength: int) returns (r: Option<Reading<string>>)
    ensures r == FirstAccepted(lines, PasswordTest(minLength))
    ensures r.Some? ==> r.value.value == Trim(lines[r.value.used - 1]) && |r.value.value| >= minLength
  {
    r := ReadUntil(lines, PasswordTest(minLength));
  }

  /** getValidEmail: the first trimmed line that is a valid address. */
  method GetValidEmail(lines: seq<string>) returns (r: Option<Reading<string>>)
    ensures r == FirstAccepted(lines, Email)
    ensures r.Some? ==> r.value.value == Trim(lines[r.value.used - 1]) && IsValidEmail(Some(r.value.value))
  {
    r := ReadUntil(lines, Email);
  }

  /** getValidPhone: the first trimmed line that matches the phone pattern. */
  method GetValidPhone(lines: seq<string>) returns (r: Option<Reading<string>>)
    ensures r == FirstAccepted(lines, Phone)
    ensures r.Some? ==> r.value.value == Trim(lines[r.value.used - 1]) && PhonePattern(r.value.value)
  {
    r := ReadUntil(lines, Phone);
  }
}
