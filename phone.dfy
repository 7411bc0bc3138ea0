/** Russian phone numbers as the checkout and the admin forms handle them:
    `validatePhone`, `formatPhone` and the progressive input mask of
    `handlePhoneChange`. The three pages carry identical copies of this
    code; the model has one. */
module Phone {
  import opened Text

  /** Eleven digits starting with 7 or 8. */
  predicate IsRussianMobile(d: string) {
    |d| == 11 && (d[0] == '7' || d[0] == '8')
  }

  /** `validatePhone`: a non-empty input whose digits form a Russian mobile
      number. */
  predicate ValidatePhone(p: string)
    ensures ValidatePhone(p) ==> |p| >= 11
  {
    DigitsAreDigits(p);
    p != "" && IsRussianMobile(Digits(p))
  }

  /** `formatPhone`: the canonical `+7 (XXX) XXX-XX-XX` display of a valid
      number (a leading 8 is shown as +7), the empty string for an empty
      input, and any other input unchanged. */
  function FormatPhone(p: string): (r: string)
    ensures p == "" ==> r == ""
    ensures p != "" && !ValidatePhone(p) ==> r == p
    ensures ValidatePhone(p) ==> |r| == 18 && Digits(r) == "7" + Digits(p)[1..]
    ensures ValidatePhone(p) ==>
              var d := Digits(p);
              r == "+7 (" + d[1..4] + ") " + d[4..7] + "-" + d[7..9] + "-" + d[9..11]
  {
    if p == "" then ""
    else
      var d := Digits(p);
      if IsRussianMobile(d) then
        DigitsAreDigits(p);
        var r := "+7 (" + Substring(d, 1, 4) + ") " + Substring(d, 4, 7) + "-" + Substring(d, 7, 9) + "-" + Substring(d, 9, 11);
        DigitsOfFormatted(d);
        r
      else p
  }

  /** The formatted display is `+7` followed by the full-length groups. */
  lemma DigitsOfFormatted(d: string)
    requires IsRussianMobile(d) && AllDigits(d)
    ensures Digits("+7 (" + Substring(d, 1, 4) + ") " + Substring(d, 4, 7) + "-" + Substring(d, 7, 9) + "-" + Substring(d, 9, 11)) == "7" + d[1..]
  {
    var a, b, c, e := Substring(d, 1, 4), Substring(d, 4, 7), Substring(d, 7, 9), Substring(d, 9, 11);
    var g := Groups(d);
    assert "+7 (" + a + ") " + b + "-" + c + "-" + e == "+7" + g by {
      assert Piece(d, " (", 1, 4) == " (" + a;
      assert Piece(d, ") ", 4, 7) == ") " + b;
      assert Piece(d, "-", 7, 9) == "-" + c;
      assert Piece(d, "-", 9, 11) == "-" + e;
      assert g == " (" + a + (") " + b) + ("-" + c) + ("-" + e);
      assert "+7 (" == "+7" + " (";
    }
    DigitsAppend("+7", g);
    SepDigits("+", "7");
  }

  /** A formatted number is accepted again and formats to itself, so
      formatting is idempotent on every input. */
  lemma {:induction false} FormatPhoneIdempotent(p: string)
    ensures ValidatePhone(p) ==> ValidatePhone(FormatPhone(p))
    ensures FormatPhone(FormatPhone(p)) == FormatPhone(p)
  {
    if ValidatePhone(p) {
      var d := Digits(p);
      var r := FormatPhone(p);
      var e := Digits(r);
      assert e == "7" + d[1..];
      assert e[1..4] == d[1..4] && e[4..7] == d[4..7] && e[7..9] == d[7..9] && e[9..11] == d[9..11];
    }
  }

  /** The digits of the phone entered through the mask, capped at eleven. */
  function MaskedDigits(value: string): (d: string)
    ensures AllDigits(d) && |d| <= 11 && |d| <= |Digits(value)|
    ensures d == Digits(value)[..|d|]
    ensures |Digits(value)| <= 11 ==> d == Digits(value)
  {
    DigitsAreDigits(value);
    Take(Digits(value), 11)
  }

  /** One group of the mask: the separator `sep` and the digits
      `d[i..j]` (fewer when fewer were typed), present only once digit
      `i` is there: the source's `if (digits.length > i) formatted += ...`. */
  function Piece(d: string, sep: string, i: nat, j: nat): (r: string)
    requires AllDigits(d) && i < j
    requires forall k :: 0 <= k < |sep| ==> !IsDigit(sep[k])
    ensures Digits(r) == d[Clamp(i, |d|)..Clamp(j, |d|)]
  {
    if |d| > i then
      DigitsAppend(sep, Substring(d, i, j));
      DigitsOfNonDigits(sep);
      DigitsOfDigits(Substring(d, i, j));
      sep + Substring(d, i, j)
    else ""
  }

  /** The punctuation the mask inserts after the leading digit `d[0]`:
      ` (` before digit 2, `) ` before digit 5, `-` before digits 8 and 10,
      each only once the digit it precedes has been typed. */
  function Groups(d: string): (r: string)
    requires AllDigits(d) && 1 <= |d| <= 11
    ensures Digits(r) == d[1..]
  {
    PiecesTelescope(d);
    Piece(d, " (", 1, 4) + Piece(d, ") ", 4, 7) + Piece(d, "-", 7, 9) + Piece(d, "-", 9, 11)
  }

  /** The four groups together carry every digit after the first. */
  lemma PiecesTelescope(d: string)
    requires AllDigits(d) && 1 <= |d| <= 11
    ensures Digits(Piece(d, " (", 1, 4) + Piece(d, ") ", 4, 7) + Piece(d, "-", 7, 9) + Piece(d, "-", 9, 11)) == d[1..]
  {
    var n := |d|;
    assert Clamp(1, n) == 1 && Clamp(11, n) == n;
    Telescope(d, Piece(d, " (", 1, 4), Piece(d, ") ", 4, 7), Piece(d, "-", 7, 9), Piece(d, "-", 9, 11),
              Clamp(4, n), Clamp(7, n), Clamp(9, n));
  }

  /** Four pieces carrying consecutive runs of `d` after its first digit
      carry all of them. */
  lemma Telescope(d: string, a: string, b: string, c: string, e: string, i: nat, j: nat, k: nat)
    requires 1 <= i <= j <= k <= |d|
    requires Digits(a) == d[1..i] && Digits(b) == d[i..j] && Digits(c) == d[j..k] && Digits(e) == d[k..]
    ensures Digits(a + b + c + e) == d[1..]
  {
    DigitsAppend4(a, b, c, e);
    assert d[1..j] == d[1..i] + d[i..j];
    assert d[1..k] == d[1..j] + d[j..k];
    assert d[1..] == d[1..k] + d[k..];
  }

  /** The mask shown for a digit string: `+7 (XXX) XXX-XX-XX` growing as
      digits arrive when it starts with 7, the same with a leading `8`
      instead of `+7` when it starts with 8, and the bare digits otherwise. */
  function MaskOfDigits(d: string): (r: string)
    requires AllDigits(d) && |d| <= 11
    ensures Digits(r) == d
  {
    if |d| == 0 then ""
    else if d[0] == '7' then
      LeadThenGroups("+7", d);
      "+7" + Groups(d)
    else if d[0] == '8' then
      LeadThenGroups("8", d);
      "8" + Groups(d)
    else
      DigitsOfDigits(d);
      d
  }

  /** A lead whose only digit is the first digit of `d`, followed by the
      groups of `d`, carries exactly the digits of `d`. */
  lemma LeadThenGroups(lead: string, d: string)
    requires AllDigits(d) && 1 <= |d| <= 11
    requires Digits(lead) == [d[0]]
    ensures Digits(lead + Groups(d)) == d
  {
    DigitsAppend(lead, Groups(d));
    assert d == [d[0]] + d[1..];
  }

  /** The text `handlePhoneChange` puts in the phone field. Its digits are
      exactly the first eleven digits of what was typed. */
  function Mask(value: string): (r: string)
    ensures Digits(r) == MaskedDigits(value)
  {
    MaskOfDigits(MaskedDigits(value))
  }

  /** Masking its own output changes nothing. */
  lemma MaskIdempotent(value: string)
    ensures Mask(Mask(value)) == Mask(value)
  {
    var d := MaskedDigits(value);
    assert Digits(Mask(value)) == d;
    assert MaskedDigits(Mask(value)) == d;
  }

  /** `handlePhoneChange`: caps the digits typed at eleven and, for a number
      starting with 7 or 8, builds the mask behind its prefix; any other
      digits are shown bare. */
  method MaskInput(value: string) returns (masked: string)
    ensures masked == Mask(value)
    ensures Digits(masked) == Take(Digits(value), 11)
  {
    var digits := Digits(value);
    if |digits| > 11 {
      digits := Substring(digits, 0, 11);
    }
    assert digits == MaskedDigits(value);
    if |digits| == 0 {
      masked := "";
    } else if digits[0] == '7' || digits[0] == '8' {
      var prefix := if digits[0] == '7' then "+7" else "8";
      masked := AppendGroups(prefix, digits);
    } else {
      masked := digits;
    }
  }

  /** The group-by-group appends of `handlePhoneChange`: each group is added
      to `formatted` only once its first digit has been typed. */
  method AppendGroups(prefix: string, digits: string) returns (formatted: string)
    requires AllDigits(digits) && 1 <= |digits| <= 11
    ensures formatted == prefix + Groups(digits)
  {
    formatted := prefix;
    ghost var pieces := "";
    if |digits| > 1 {
      formatted := formatted + (" (" + Substring(digits, 1, 4));
    }
    pieces := Piece(digits, " (", 1, 4);
    assert formatted == prefix + pieces;
    if |digits| > 4 {
      formatted := formatted + (") " + Substring(digits, 4, 7));
    }
    pieces := pieces + Piece(digits, ") ", 4, 7);
    assert formatted == prefix + pieces;
    if |digits| > 7 {
      formatted := formatted + ("-" + Substring(digits, 7, 9));
    }
    pieces := pieces + Piece(digits, "-", 7, 9);
    assert formatted == prefix + pieces;
    if |digits| > 9 {
      formatted := formatted + ("-" + Substring(digits, 9, 11));
    }
    pieces := pieces + Piece(digits, "-", 9, 11);
    assert formatted == prefix + pieces;
  }

  const PrefixError := "Номер должен начинаться с 7 или 8"
  const LengthError := "Введите 11 цифр"

  /** The error `handlePhoneChange` shows on the checkout page. */
  function MaskError(value: string): (e: string)
    ensures e == "" <==> MaskedDigits(value) == "" || IsRussianMobile(MaskedDigits(value))
    ensures e == LengthError <==> MaskedDigits(value) != "" && (MaskedDigits(value)[0] == '7' || MaskedDigits(value)[0] == '8') && |MaskedDigits(value)| < 11
    ensures e == PrefixError <==> MaskedDigits(value) != "" && MaskedDigits(value)[0] != '7' && MaskedDigits(value)[0] != '8'
    ensures e == PrefixError ==> Mask(value) == MaskedDigits(value)
  {
    var d := MaskedDigits(value);
    if |d| == 0 then ""
    else if d[0] == '7' || d[0] == '8' then (if |d| == 11 then "" else LengthError)
    else PrefixError
  }

  /** A non-empty mask without an error is a valid phone number. */
  lemma MaskWithoutErrorIsValid(value: string)
    requires MaskError(value) == "" && Mask(value) != ""
    ensures ValidatePhone(Mask(value))
  {
    assert Digits(Mask(value)) == MaskedDigits(value);
  }

  /** A complete number entered through the mask formats to the canonical
      display of its digits. */
  lemma FormatOfMask(value: string)
    requires MaskError(value) == "" && Mask(value) != ""
    ensures var d := MaskedDigits(value);
            FormatPhone(Mask(value)) == "+7 (" + d[1..4] + ") " + d[4..7] + "-" + d[7..9] + "-" + d[9..11]
  {
    MaskWithoutErrorIsValid(value);
  }

  const BlurError := "Введите корректный номер телефона"

  /** `handlePhoneBlur`: an error exactly for a non-empty invalid phone. */
  function PhoneBlurError(phone: string): (e: string)
    ensures e == "" <==> phone == "" || ValidatePhone(phone)
  {
    if phone != "" && !ValidatePhone(phone) then BlurError else ""
  }

  /** Separators followed by digits project to those digits. */
  lemma SepDigits(sep: string, ds: string)
    requires forall k :: 0 <= k < |sep| ==> !IsDigit(sep[k])
    requires AllDigits(ds)
    ensures Digits(sep + ds) == ds
  {
    DigitsAppend(sep, ds);
    DigitsOfNonDigits(sep);
    DigitsOfDigits(ds);
  }

  /** The example the checkout's prompt gives, typed with a leading 8: it
      is accepted and its digits are sent as typed. */
  lemma {:induction false} ValidationExampleEight()
    ensures ValidatePhone("89991234567") && Digits("89991234567") == "89991234567"
  {
    DigitNumberValid("89991234567");
  }

  /** An eleven-digit string starting with 7 or 8 is valid as typed. */
  lemma DigitNumberValid(d: string)
    requires AllDigits(d) && IsRussianMobile(d)
    ensures ValidatePhone(d) && Digits(d) == d
  {
    DigitsOfDigits(d);
  }

  /** The same number typed as `+7...`: also accepted, and its digits start
      with 7, so the order payload differs from the one above. */
  lemma {:induction false} ValidationExampleSeven()
    ensures Digits("+" + "79991234567") == "79991234567"
    ensures ValidatePhone("+" + "79991234567")
  {
    PlusNumberValid("79991234567");
  }

  /** A `+` followed by an eleven-digit number starting with 7 or 8 is
      valid, with that number as its digits. */
  lemma PlusNumberValid(d: string)
    requires AllDigits(d) && IsRussianMobile(d)
    ensures ValidatePhone("+" + d) && Digits("+" + d) == d
  {
    SepDigits("+", d);
  }

  /** Five digits are not a phone number. */
  lemma {:induction false} ValidationExampleShort()
    ensures !ValidatePhone("12345")
  {
    DigitsOfDigits("12345");
  }

  /** The canonical display of the example number. */
  lemma {:induction false} FormatExample()
    ensures FormatPhone("8" + "999" + "123" + "45" + "67") == "+7 (" + "999" + ") " + "123" + "-" + "45" + "-" + "67"
  {
    FormatOfGroups("8", "999", "123", "45", "67");
  }

  /** The display of a number typed as its eleven digits, by groups. */
  lemma FormatOfGroups(x: string, y: string, z: string, u: string, v: string)
    requires x == "7" || x == "8"
    requires AllDigits(y) && AllDigits(z) && AllDigits(u) && AllDigits(v)
    requires |y| == 3 && |z| == 3 && |u| == 2 && |v| == 2
    ensures FormatPhone(x + y + z + u + v) == "+7 (" + y + ") " + z + "-" + u + "-" + v
  {
    var d := x + y + z + u + v;
    assert AllDigits(d) by {
      forall k | 0 <= k < |d| ensures IsDigit(d[k]) {
        if k == 0 { assert d[k] == x[0]; }
        else if k < 4 { assert d[k] == y[k - 1]; }
        else if k < 7 { assert d[k] == z[k - 4]; }
        else if k < 9 { assert d[k] == u[k - 7]; }
        else { assert d[k] == v[k - 9]; }
      }
    }
    DigitsOfDigits(d);
    FormatOfParts(d, x, y, z, u, v);
  }

  /** The display of any input whose digits are a leading 7 or 8 and then
      groups of three, three, two and two digits, whatever else was typed
      around them. */
  lemma FormatOfParts(p: string, x: string, y: string, z: string, u: string, v: string)
    requires x == "7" || x == "8"
    requires AllDigits(y) && AllDigits(z) && AllDigits(u) && AllDigits(v)
    requires |y| == 3 && |z| == 3 && |u| == 2 && |v| == 2
    requires p != "" && Digits(p) == x + y + z + u + v
    ensures FormatPhone(p) == "+7 (" + y + ") " + z + "-" + u + "-" + v
  {
    var d := x + y + z + u + v;
    assert d[1..4] == y && d[4..7] == z && d[7..9] == u && d[9..11] == v;
  }
}
