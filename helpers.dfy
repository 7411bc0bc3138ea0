/** The shared string helpers: truncation, the status colour lookup, the
    email and phone patterns and camel-casing. */
module Helpers {
  import opened Options
  import opened Text
  import opened Phone

  // ----- truncateText -----

  /** `truncateText(text, maxLength)`; an empty text is the falsy case. A
      negative maximum is clamped by `substring` to 0. */
  function TruncateText(text: string, maxLength: int): (r: string)
    ensures text == "" ==> r == ""
    ensures |text| <= maxLength ==> r == text
    ensures text != "" && |text| > maxLength >= 0 ==> r == text[..maxLength] + "..." && |r| == maxLength + 3
    ensures text != "" && maxLength < 0 ==> r == "..."
  {
    if text == "" then ""
    else if |text| <= maxLength then text
    else Substring(text, 0, maxLength) + "..."
  }

  /** The default maximum. */
  const DefaultMaxLength := 50

  /** A text is either shown whole or cut to its first `maxLength`
      characters followed by the ellipsis, and is never longer than the
      maximum plus the ellipsis. */
  lemma TruncateShape(text: string, maxLength: nat)
    ensures var r := TruncateText(text, maxLength);
            |r| <= maxLength + 3 &&
            (r == text || (maxLength < |text| && r == text[..maxLength] + "..."))
  {
  }

  // ----- getStatusColor -----

  /** The table of `getStatusColor`. */
  const StatusClasses: map<string, string> := map[
    "active" := "success", "inactive" := "danger", "pending" := "warning", "completed" := "info",
    "delivered" := "success", "shipped" := "primary", "cancelled" := "danger", "processing" := "warning"]

  /** What a property read on the table object gives; the object literal
      inherits `constructor` and `__proto__` from its prototype, and both
      are truthy. */
  datatype Lookup = ClassName(name: string) | PrototypeMember(key: string)

  /** The lower-case property names every object literal inherits. */
  const PrototypeKeys: set<string> := {"constructor", "__proto__"}

  /** `statuses[status?.toLowerCase()] || 'secondary'` as written: a
      missing status reads the key "undefined", which is not in the table;
      a status that lower-cases to an inherited name returns that member
      instead of a class name. */
  function StatusColorAsWritten(status: Option<string>): (r: Lookup)
    ensures r.PrototypeMember? <==> status.Some? && Lower(status.value) in PrototypeKeys
  {
    var key := if status.Some? then Lower(status.value) else "undefined";
    if key in StatusClasses then ClassName(StatusClasses[key])
    else if key in PrototypeKeys then PrototypeMember(key)
    else ClassName("secondary")
  }

  /** "Constructor" gets the inherited constructor, not a class name. */
  lemma StatusColorPrototypeLeak()
    ensures StatusColorAsWritten(Some("Constructor")) == PrototypeMember("constructor")
    ensures StatusColorAsWritten(Some("__proto__")) == PrototypeMember("__proto__")
  {
    assert Lower("Constructor") == "constructor" by {
      assert LowerChar('C') == 'c';
    }
    assert Lower("__proto__") == "__proto__";
  }

  /** The lookup as intended: the table's class for a status it knows,
      ignoring case, `secondary` for everything else. */
  function StatusColor(status: Option<string>): (r: string)
    ensures status.Some? && Lower(status.value) in StatusClasses ==> r == StatusClasses[Lower(status.value)]
    ensures status.None? || Lower(status.value) !in StatusClasses ==> r == "secondary"
  {
    var key := if status.Some? then Lower(status.value) else "undefined";
    if key in StatusClasses then StatusClasses[key] else "secondary"
  }

  /** The intended lookup ignores case, and always gives one of the six
      class names. */
  lemma StatusColorCaseInsensitive(s: string)
    ensures StatusColor(Some(s)) == StatusColor(Some(Lower(s)))
    ensures StatusColor(Some(s)) in {"success", "danger", "warning", "info", "primary", "secondary"}
  {
    LowerIdempotent(s);
  }

  /** The two lookups differ only on the inherited names. */
  lemma StatusColorAgrees(status: Option<string>)
    ensures status.None? || Lower(status.value) !in PrototypeKeys ==>
              StatusColorAsWritten(status) == ClassName(StatusColor(status))
  {
  }

  // ----- isValidEmail -----

  /** Characters `[^\s@]` matches. */
  predicate Plain(s: string) {
    forall k :: 0 <= k < |s| ==> !IsSpace(s[k]) && s[k] != '@'
  }

  /** `/^[^\s@]+@[^\s@]+\.[^\s@]+$/.test(email)`, with the two literal
      characters at `i` and `j`. */
  ghost predicate EmailPattern(e: string) {
    exists i, j :: 0 < i && i + 1 < j < |e| - 1 && e[i] == '@' && e[j] == '.' &&
                   Plain(e[..i]) && Plain(e[i + 1..j]) && Plain(e[j + 1..])
  }

  /** The test spelled out: no whitespace, exactly one '@' with text before
      it, and a '.' after it with text on both sides. */
  predicate IsValidEmail(e: string)
    ensures IsValidEmail(e) ==> |e| >= 5 && '@' in e
  {
    (forall k :: 0 <= k < |e| ==> !IsSpace(e[k])) &&
    exists i :: 0 < i < |e| && e[i] == '@' &&
                (forall k :: 0 <= k < |e| && k != i ==> e[k] != '@') &&
                (exists j :: i + 1 < j < |e| - 1 && e[j] == '.')
  }

  /** The pattern and the spelled-out test accept the same strings. */
  lemma EmailPatternAgrees(e: string)
    ensures EmailPattern(e) <==> IsValidEmail(e)
  {
    if EmailPattern(e) {
      var i, j :| 0 < i && i + 1 < j < |e| - 1 && e[i] == '@' && e[j] == '.' &&
                  Plain(e[..i]) && Plain(e[i + 1..j]) && Plain(e[j + 1..]);
      PatternIsValid(e, i, j);
    }
    if IsValidEmail(e) {
      var i :| 0 < i < |e| && e[i] == '@' &&
               (forall k :: 0 <= k < |e| && k != i ==> e[k] != '@') &&
               (exists j :: i + 1 < j < |e| - 1 && e[j] == '.');
      var j :| i + 1 < j < |e| - 1 && e[j] == '.';
      ValidIsPattern(e, i, j);
    }
  }

  /** A match with the '@' at `i` and the '.' at `j` passes the test. */
  lemma PatternIsValid(e: string, i: nat, j: nat)
    requires 0 < i && i + 1 < j < |e| - 1 && e[i] == '@' && e[j] == '.'
    requires Plain(e[..i]) && Plain(e[i + 1..j]) && Plain(e[j + 1..])
    ensures IsValidEmail(e)
  {
    forall k | 0 <= k < |e| && k != i ensures e[k] != '@' && !IsSpace(e[k]) {
      if k < i {
        PlainAt(e[..i], k);
      } else if k < j {
        PlainAt(e[i + 1..j], k - i - 1);
      } else if k > j {
        PlainAt(e[j + 1..], k - j - 1);
      }
    }
  }

  /** A string passing the test matches with any '.' after the '@'. */
  lemma ValidIsPattern(e: string, i: nat, j: nat)
    requires forall k :: 0 <= k < |e| ==> !IsSpace(e[k])
    requires 0 < i && i + 1 < j < |e| - 1 && e[i] == '@' && e[j] == '.'
    requires forall k :: 0 <= k < |e| && k != i ==> e[k] != '@'
    ensures EmailPattern(e)
  {
    PlainSlice(e, 0, i, i);
    PlainSlice(e, i + 1, j, i);
    PlainSlice(e, j + 1, |e|, i);
  }

  lemma PlainAt(s: string, k: nat)
    requires Plain(s) && k < |s|
    ensures !IsSpace(s[k]) && s[k] != '@'
  {
  }

  lemma PlainSlice(e: string, a: nat, b: nat, i: nat)
    requires a <= b <= |e| && !(a <= i < b)
    requires forall k :: 0 <= k < |e| ==> !IsSpace(e[k])
    requires forall k :: 0 <= k < |e| && k != i ==> e[k] != '@'
    ensures Plain(e[a..b])
  {
    forall k | 0 <= k < b - a ensures !IsSpace(e[a..b][k]) && e[a..b][k] != '@' {
      assert e[a..b][k] == e[a + k];
    }
  }

  lemma EmailExamples()
    ensures IsValidEmail("a@b.c")
    ensures !IsValidEmail("a@b@c.d")
    ensures !IsValidEmail("a@bc.")
  {
    var e := "a@b@c.d";
    assert e[1] == '@' && e[3] == '@';
    assert IsValidEmail("a@b.c") by {
      var s := "a@b.c";
      assert s[1] == '@' && s[3] == '.';
    }
    var f := "a@bc.";
    assert forall i :: 0 < i < |f| && f[i] == '@' ==> i == 1;
    assert forall j :: 2 < j < |f| - 1 ==> f[j] != '.';
  }

  // ----- isValidPhone -----

  /** `/^\+?[1-9]\d{1,14}$/.test(t)`. */
  predicate PhonePattern(t: string) {
    var u := if |t| > 0 && t[0] == '+' then t[1..] else t;
    2 <= |u| <= 15 && '1' <= u[0] <= '9' && AllDigits(u)
  }

  /** `isValidPhone`: the pattern applied to the digits of the input. */
  predicate IsValidPhone(phone: string)
    ensures IsValidPhone(phone) ==> |phone| >= 2
  {
    DigitsAreDigits(phone);
    PhonePattern(Digits(phone))
  }

  /** Since only digits reach the pattern, its `+` never matches: a phone
      is valid exactly when it has 2 to 15 digits and the first is not 0. */
  lemma IsValidPhoneDigits(phone: string)
    ensures IsValidPhone(phone) <==> 2 <= |Digits(phone)| <= 15 && Digits(phone)[0] != '0'
  {
    DigitsAreDigits(phone);
  }

  /** Every Russian mobile number the phone forms accept is valid here,
      but not the other way round. */
  lemma RussianPhoneIsValid(phone: string)
    ensures ValidatePhone(phone) ==> IsValidPhone(phone)
    ensures IsValidPhone("12345") && !ValidatePhone("12345")
  {
    IsValidPhoneDigits(phone);
    DigitsOfDigits("12345");
  }

  // ----- toCamelCase -----

  predicate IsSeparator(c: char) {
    c == '-' || c == '_'
  }

  predicate IsAsciiLower(c: char) {
    'a' <= c <= 'z'
  }

  /** `str.replace(/([-_][a-z])/g, ...)`: scanning from the left, each
      separator followed by a lower-case ASCII letter is replaced by that
      letter in upper case; every other character is kept. */
  function ToCamelCase(s: string): (r: string)
    ensures |r| <= |s|
    decreases |s|
  {
    if |s| >= 2 && IsSeparator(s[0]) && IsAsciiLower(s[1]) then
      [(s[1] as int - 32) as char] + ToCamelCase(s[2..])
    else if s == [] then []
    else [s[0]] + ToCamelCase(s[1..])
  }

  /** No separator directly followed by a lower-case letter. */
  predicate NoPair(s: string) {
    forall k :: 0 <= k < |s| - 1 ==> !(IsSeparator(s[k]) && IsAsciiLower(s[k + 1]))
  }

  /** A string that does not start with a lower-case letter gives a result
      that does not either. */
  lemma FirstNotLower(s: string)
    requires s != [] && !IsAsciiLower(s[0])
    ensures ToCamelCase(s) != [] && !IsAsciiLower(ToCamelCase(s)[0])
  {
  }

  /** The result has no pair left to replace. */
  lemma {:induction false} CamelHasNoPair(s: string)
    ensures NoPair(ToCamelCase(s))
    decreases |s|
  {
    var r := ToCamelCase(s);
    if |s| >= 2 && IsSeparator(s[0]) && IsAsciiLower(s[1]) {
      CamelHasNoPair(s[2..]);
      var rest := ToCamelCase(s[2..]);
      assert r == [r[0]] + rest;
      forall k | 0 <= k < |r| - 1 ensures !(IsSeparator(r[k]) && IsAsciiLower(r[k + 1])) {
        if k > 0 {
          assert r[k] == rest[k - 1] && r[k + 1] == rest[k];
        }
      }
    } else if s != [] {
      CamelHasNoPair(s[1..]);
      var rest := ToCamelCase(s[1..]);
      assert r == [s[0]] + rest;
      if IsSeparator(s[0]) && |s| >= 2 {
        FirstNotLower(s[1..]);
      }
      forall k | 0 <= k < |r| - 1 ensures !(IsSeparator(r[k]) && IsAsciiLower(r[k + 1])) {
        if k > 0 {
          assert r[k] == rest[k - 1] && r[k + 1] == rest[k];
        }
      }
    }
  }

  /** A string with no pair is left as it is. */
  lemma {:induction false} NoPairUnchanged(s: string)
    requires NoPair(s)
    ensures ToCamelCase(s) == s
    decreases |s|
  {
    if s != [] {
      assert NoPair(s[1..]) by {
        forall k | 0 <= k < |s[1..]| - 1 ensures !(IsSeparator(s[1..][k]) && IsAsciiLower(s[1..][k + 1])) {
          assert s[1..][k] == s[k + 1] && s[1..][k + 1] == s[k + 2];
        }
      }
      NoPairUnchanged(s[1..]);
    }
  }

  /** Camel-casing twice is camel-casing once. */
  lemma CamelIdempotent(s: string)
    ensures ToCamelCase(ToCamelCase(s)) == ToCamelCase(s)
  {
    CamelHasNoPair(s);
    NoPairUnchanged(ToCamelCase(s));
  }

  /** Both separators are dropped before a lower-case letter; a
      separator before anything else stays. */
  lemma CamelExample()
    ensures ToCamelCase("a_b-c") == "aBC"
    ensures ToCamelCase("a-1") == "a-1"
  {
    assert ToCamelCase("-c") == "C";
    assert ToCamelCase("_b-c") == "B" + ToCamelCase("-c") by {
      assert "_b-c"[2..] == "-c";
    }
    assert "a_b-c"[1..] == "_b-c";
    assert ToCamelCase("1") == "1";
    assert ToCamelCase("-1") == "-" + ToCamelCase("1") by {
      assert "-1"[1..] == "1";
    }
    assert "a-1"[1..] == "-1";
  }
}
