/** The employees page of the back office: the submit gate of the new
    employee form, the delete filter, the position counters and the
    experience label. Employees and positions are the back end's records,
    read through `getField`. The phone helpers of this page are the ones of
    the `Phone` module. */
module AdminEmployeesModel {
  import opened Options
  import opened Text
  import opened Js
  import opened Seqs
  import opened Phone
  import opened Fields

  /** The fields of the new employee form. */
  datatype EmployeeForm = EmployeeForm(fullName: string, positionId: string, phoneNumber: string, hireDate: string)

  /** Why `handleSubmit` refused the form. */
  datatype EmployeeRefusal = MissingFields | InvalidPhone

  /** `handleSubmit` up to the request: a blank name, no position or a
      blank phone is refused first, then a phone that fails
      `validatePhone`; an accepted form is sent with the phone reduced to
      its digits and every other field as typed. */
  function EmployeeSubmit(form: EmployeeForm): (r: Result<EmployeeForm, EmployeeRefusal>)
    ensures r.Ok? <==> Trim(form.fullName) != "" && form.positionId != "" && ValidatePhone(form.phoneNumber)
    ensures r.Err? && (Trim(form.fullName) == "" || form.positionId == "" || Trim(form.phoneNumber) == "") ==>
              r.error == MissingFields
    ensures r.Err? && Trim(form.fullName) != "" && form.positionId != "" && Trim(form.phoneNumber) != "" ==>
              r.error == InvalidPhone
    ensures r.Ok? ==> r.value.phoneNumber == Digits(form.phoneNumber) &&
                      r.value.(phoneNumber := form.phoneNumber) == form &&
                      IsRussianMobile(r.value.phoneNumber) && AllDigits(r.value.phoneNumber)
  {
    ValidPhoneNotBlank(form.phoneNumber);
    if Trim(form.fullName) == "" || form.positionId == "" || Trim(form.phoneNumber) == "" then
      Err(MissingFields)
    else if !ValidatePhone(form.phoneNumber) then
      Err(InvalidPhone)
    else
      DigitsAreDigits(form.phoneNumber);
      Ok(form.(phoneNumber := Digits(form.phoneNumber)))
  }

  /** The blank-phone test of the gate is subsumed by `validatePhone`: a
      phone with eleven digits is never blank. */
  lemma ValidPhoneNotBlank(p: string)
    ensures ValidatePhone(p) ==> Trim(p) != ""
  {
    if ValidatePhone(p) && Trim(p) == "" {
      assert forall i :: 0 <= i < |p| ==> !IsDigit(p[i]);
      DigitsOfNonDigits(p);
      assert false;
    }
  }

  // ----- delete -----

  /** The test of `prev.filter(emp => getField(emp, 'id') != id)`. */
  function KeepsEmployee(id: Value): Record -> bool {
    (e: Record) => !LooseEq(FieldOf(Some(e), "id"), id)
  }

  /** The list left after a successful delete. */
  function WithoutEmployee(employees: seq<Record>, id: Value): (r: seq<Record>)
    ensures |r| <= |employees|
    ensures forall k :: 0 <= k < |r| ==> !LooseEq(FieldOf(Some(r[k]), "id"), id)
  {
    Filter(employees, KeepsEmployee(id))
  }

  /** Exactly the employees whose id loosely differs from the deleted one
      are kept, in their order. */
  lemma WithoutEmployeeSpec(employees: seq<Record>, id: Value)
    ensures forall e :: e in WithoutEmployee(employees, id) <==>
              e in employees && !LooseEq(FieldOf(Some(e), "id"), id)
    ensures Subsequence(WithoutEmployee(employees, id), employees)
  {
    FilterMembers(employees, KeepsEmployee(id));
    FilterInOrder(employees, KeepsEmployee(id));
  }

  /** The delete button passes the row id as text; an employee whose id is
      the number `n` is still removed, because `n == String(n)` holds
      loosely. */
  lemma DeleteByRowText(employees: seq<Record>, e: Record, n: int)
    requires e in employees && FieldOf(Some(e), "id") == Num(n)
    ensures e !in WithoutEmployee(employees, Str(IntToString(n)))
  {
    NumEqualsItsText(n);
    WithoutEmployeeSpec(employees, Str(IntToString(n)));
  }

  // ----- position counters -----

  /** `positions.find(...)`: the first position whose id reads as the same
      text as the employee's position id. */
  function FindPosition(positions: seq<Record>, key: string): (r: Option<Record>)
    ensures r.Some? ==> exists j :: FirstWithId(positions, key, j) && positions[j] == r.value
    ensures r.None? <==> forall i :: 0 <= i < |positions| ==> ToText(FieldOf(Some(positions[i]), "id")) != key
  {
    if positions == [] then None
    else if ToText(FieldOf(Some(positions[0]), "id")) == key then
      assert FirstWithId(positions, key, 0);
      Some(positions[0])
    else
      var r := FindPosition(positions[1..], key);
      assert forall i :: 1 <= i < |positions| ==> positions[i] == positions[1..][i - 1];
      if r.Some? then
        ShiftFirst(positions, key, r.value);
        r
      else r
  }

  /** Position `j` is the first one whose id reads as `key`. */
  ghost predicate FirstWithId(positions: seq<Record>, key: string, j: int) {
    0 <= j < |positions| && ToText(FieldOf(Some(positions[j]), "id")) == key &&
    forall i :: 0 <= i < j ==> ToText(FieldOf(Some(positions[i]), "id")) != key
  }

  /** The first match after a non-matching head is the first match. */
  lemma ShiftFirst(positions: seq<Record>, key: string, v: Record)
    requires |positions| > 0 && ToText(FieldOf(Some(positions[0]), "id")) != key
    requires exists j :: FirstWithId(positions[1..], key, j) && positions[1..][j] == v
    ensures exists j :: FirstWithId(positions, key, j) && positions[j] == v
  {
    var j :| FirstWithId(positions[1..], key, j) && positions[1..][j] == v;
    forall i | 0 <= i < j + 1
      ensures ToText(FieldOf(Some(positions[i]), "id")) != key
    {
      if i > 0 {
        assert positions[i] == positions[1..][i - 1];
      }
    }
    assert FirstWithId(positions, key, j + 1);
  }

  /** The position name `calculateStats` resolves: `title || name ||
      positionTitle || ''` of the found position, or `''` when the employee
      has no position id or no position matches. */
  function PositionName(employee: Record, positions: seq<Record>): (name: string)
    ensures !Truthy(FieldOf(Some(employee), "positionId")) ==> name == ""
    ensures FindPosition(positions, ToText(FieldOf(Some(employee), "positionId"))).None? ==> name == ""
    ensures var found := FindPosition(positions, ToText(FieldOf(Some(employee), "positionId")));
            Truthy(FieldOf(Some(employee), "positionId")) && found.Some? ==> name == PositionTitle(found.value)
  {
    var positionId := FieldOf(Some(employee), "positionId");
    if Truthy(positionId) && |positions| > 0 then
      match FindPosition(positions, ToText(positionId))
      case None => ""
      case Some(pos) => PositionTitle(pos)
    else ""
  }

  /** `position.title || position.name || position.positionTitle || ''`,
      as text: the first truthy spelling decides. */
  function PositionTitle(pos: Record): (r: string)
    ensures var title := FieldOf(Some(pos), "title");
            Truthy(title) ==> r == ToText(title)
    ensures var title, name := FieldOf(Some(pos), "title"), FieldOf(Some(pos), "name");
            !Truthy(title) && Truthy(name) ==> r == ToText(name)
    ensures var title, name, other := FieldOf(Some(pos), "title"), FieldOf(Some(pos), "name"), FieldOf(Some(pos), "positionTitle");
            !Truthy(title) && !Truthy(name) && Truthy(other) ==> r == ToText(other)
    ensures var title, name, other := FieldOf(Some(pos), "title"), FieldOf(Some(pos), "name"), FieldOf(Some(pos), "positionTitle");
            !Truthy(title) && !Truthy(name) && !Truthy(other) ==> r == ""
  {
    ToText(Or(Or(Or(FieldOf(Some(pos), "title"), FieldOf(Some(pos), "name")),
                 FieldOf(Some(pos), "positionTitle")), Str("")))
  }

  /** The test behind one counter: the lower-cased position name contains
      the word. */
  function InBucket(positions: seq<Record>, word: string): Record -> bool {
    (e: Record) => Contains(Lower(PositionName(e, positions)), word)
  }

  /** `calculateStats` without the salary sum: one pass over the
      employees, three independent `if`s per employee. */
  method EmployeeStats(employees: seq<Record>, positions: seq<Record>)
    returns (managers: nat, cooks: nat, waiters: nat)
    ensures managers == Count(employees, InBucket(positions, "manager"))
    ensures cooks == Count(employees, InBucket(positions, "cook"))
    ensures waiters == Count(employees, InBucket(positions, "waiter"))
  {
    managers, cooks, waiters := 0, 0, 0;
    var k := 0;
    while k < |employees|
      invariant 0 <= k <= |employees|
      invariant managers == Count(employees[..k], InBucket(positions, "manager"))
      invariant cooks == Count(employees[..k], InBucket(positions, "cook"))
      invariant waiters == Count(employees[..k], InBucket(positions, "waiter"))
    {
      CountStep(employees, k, InBucket(positions, "manager"));
      CountStep(employees, k, InBucket(positions, "cook"));
      CountStep(employees, k, InBucket(positions, "waiter"));
      var name := Lower(PositionName(employees[k], positions));
      if Contains(name, "manager") {
        managers := managers + 1;
      }
      if Contains(name, "cook") {
        cooks := cooks + 1;
      }
      if Contains(name, "waiter") {
        waiters := waiters + 1;
      }
      k := k + 1;
    }
    assert employees[..k] == employees;
  }

  /** An employee without a resolvable position counts in no bucket. */
  lemma UnplacedCountsNowhere(e: Record, positions: seq<Record>, word: string)
    requires word != ""
    requires !Truthy(FieldOf(Some(e), "positionId")) ||
             FindPosition(positions, ToText(FieldOf(Some(e), "positionId"))).None?
    ensures !InBucket(positions, word)(e)
  {
    assert Lower("") == "";
  }

  /** One name can count in several buckets: a position titled
      "Cook manager" counts both as a cook and as a manager. */
  lemma SharedTitleCountsTwice(e: Record, pos: Record)
    requires FieldOf(Some(e), "positionId") == Num(3)
    requires Get(pos, "id") == Num(3) && Get(pos, "title") == Str("Cook manager")
    ensures InBucket([pos], "manager")(e) && InBucket([pos], "cook")(e)
  {
    SharedTitleName(e, pos);
    TitleLower();
    ContainsHalves("cook", " " + "manager");
    ContainsHalves("cook" + " ", "manager");
  }

  lemma SharedTitleName(e: Record, pos: Record)
    requires FieldOf(Some(e), "positionId") == Num(3)
    requires Get(pos, "id") == Num(3) && Get(pos, "title") == Str("Cook manager")
    ensures PositionName(e, [pos]) == "Cook manager"
  {
    FieldOfOrder(pos, "id");
    FieldOfOrder(pos, "title");
    assert ToText(Num(3)) == "3";
    assert FindPosition([pos], "3") == Some(pos);
  }

  lemma TitleLower()
    ensures Lower("Cook manager") == "cook" + " " + "manager"
  {
    var s := "Cook manager";
    forall i | 0 <= i < |s| ensures Lower(s)[i] == ("cook" + " " + "manager")[i] {
      if i == 0 {
        assert LowerChar('C') == 'c';
      }
    }
  }

  // ----- experience -----

  /** The experience label of a row for a whole number of years (the years
      themselves come from the clock and are a parameter; a hire date in
      the future gives a negative number). */
  function ExperienceText(years: int): (r: string)
    ensures years == 0 ==> r == "<1 года"
    ensures years != 0 ==> r == IntToString(years) + " " + ExperienceUnit(years)
  {
    if years == 0 then "<1 года"
    else if years == 1 then "1 год"
    else if years < 5 then IntToString(years) + " года"
    else IntToString(years) + " лет"
  }

  /** The unit word the label uses next to a non-zero number. */
  function ExperienceUnit(years: int): (w: string)
    ensures w in {"год", "года", "лет"}
  {
    if years == 1 then "год" else if years < 5 then "года" else "лет"
  }

  /** The unit depends only on the number, not on Russian agreement: 21
      and 101 years read "лет", and a negative number reads "года". */
  lemma ExperienceUnitRules(years: int)
    ensures years >= 5 ==> ExperienceUnit(years) == "лет"
    ensures years < 5 && years != 1 ==> ExperienceUnit(years) == "года"
    ensures ExperienceText(21) == "21 лет" && ExperienceText(-1) == "-1 года"
  {
    assert IntToString(21) == "21" by {
      assert NatToString(21) == NatToString(2) + [DigitChar(1)];
    }
    assert IntToString(-1) == "-1";
  }
}
