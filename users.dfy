/**
  The staff screen (components/UserManager.tsx): the list of doctors
  (line 15), a staff member's age in whole years (17-27) and the user record
  the registration form builds (41-54).

  `new Date()` is the parameter `today`, `Date.now()` the parameter
  `stamp` and `Math.floor(Math.random() * 900)` the parameter `k`.
 */
module Users {
  import opened Types
  import opened Seqs
  import opened Text
  import opened Dates

  function IsDoctor(): User -> bool
  {
    (u: User) => u.role == Doctor
  }

  /** `users.filter(u => u.role === DOCTOR)`. */
  function Doctors(users: seq<User>): (r: seq<User>)
    ensures |r| <= |users|
    ensures forall u :: u in r <==> u in users && u.role == Doctor
  {
    Filter(users, IsDoctor())
  }

  /** The list keeps the users' order: the doctors of two lists are those of the first, then the second. */
  lemma DoctorsConcat(a: seq<User>, b: seq<User>)
    ensures Doctors(a + b) == Doctors(a) + Doctors(b)
  {
    FilterConcat(a, b, IsDoctor());
  }

  /** What `calculateAge` shows. */
  datatype AgeResult = NotAvailable | Years(years: int) | NotANumber

  /** The year difference, one less while this year's birthday is still ahead (lines 20-25). */
  function YearsBetween(birth: CalendarDate, today: CalendarDate): int
  {
    var age := today.year - birth.year;
    var m := today.month - birth.month;
    if m < 0 || (m == 0 && today.day < birth.day) then age - 1 else age
  }

  /**
    `calculateAge`: "N/A" without a birth date (missing or empty); a date the
    parser rejects gives NaN; otherwise the age in whole years.
   */
  function CalculateAge(birthDate: Option<string>, today: CalendarDate): (r: AgeResult)
    ensures r.NotAvailable? <==> birthDate.None? || birthDate.value == ""
    ensures r.NotANumber? <==> birthDate.Some? && birthDate.value != "" && ParseIsoDate(birthDate.value).None?
    ensures r.Years? ==> r.years == YearsBetween(ParseIsoDate(birthDate.value).value, today)
  {
    if birthDate.None? || birthDate.value == "" then NotAvailable
    else
      match ParseIsoDate(birthDate.value)
      case None => NotANumber
      case Some(b) => Years(YearsBetween(b, today))
  }

  /** The `k`-th birthday. */
  function Anniversary(birth: CalendarDate, k: nat): CalendarDate
  {
    CalendarDate(birth.year + k, birth.month, birth.day)
  }

  /**
    For someone already born the age is the number of birthdays reached:
    the `n`-th birthday is on or before today and the next one is after it.
   */
  lemma YearsAreBirthdaysReached(birth: CalendarDate, today: CalendarDate)
    requires DateLe(birth, today)
    ensures var n := YearsBetween(birth, today);
      && n >= 0
      && DateLe(Anniversary(birth, n), today)
      && !DateLe(Anniversary(birth, n + 1), today)
  {
  }

  /** On the birthday itself the age is exactly the year difference (the day test is strict). */
  lemma BirthdayGivesYearDifference(birth: CalendarDate, k: nat)
    ensures YearsBetween(birth, Anniversary(birth, k)) == k
  {
  }

  /** The day before a birthday in the same month the age is still one less. */
  lemma DayBeforeBirthday(birth: CalendarDate, k: nat)
    requires birth.day > 1 && k >= 1
    ensures YearsBetween(birth, CalendarDate(birth.year + k, birth.month, birth.day - 1)) == k - 1
  {
  }

  /** The registration form's fields. */
  datatype UserForm = UserForm(
    name: string,
    email: string,
    specialty: string,
    professionalId: string,
    birthDate: string)

  /**
    The password as line 52 writes it: `'doc' + k + 100` concatenates from
    the left, so the number 100 is appended as the text "100".
   */
  function PasswordAsWritten(k: nat): string
  {
    "doc" + NatToString(k) + "100"
  }

  /** As written, the digits after "doc" read `1000 * k + 100`: never the three-digit 100..999. */
  lemma PasswordAsWrittenDigits(k: nat)
    requires k < 900
    ensures var r := PasswordAsWritten(k);
      && r[..3] == "doc" && AllDigits(r[3..])
      && DigitsValue(r[3..]) == 1000 * k + 100
      && |r| >= 7
  {
    var r := PasswordAsWritten(k);
    var digits := NatToString(k) + "100";
    assert r == "doc" + digits && r[3..] == digits;
    assert Pow10(3) == 1000;
    assert DigitsValue("100") == 100 by {
      assert "100"[1..] == "00" && "00"[1..] == "0" && "0"[1..] == "";
    }
    DigitsValueConcat(NatToString(k), "100");
  }

  /** For instance a draw of 523 gives "doc523100". */
  lemma PasswordAsWrittenExample()
    ensures PasswordAsWritten(523) == "doc523100"
  {
    assert DigitCount(523) == 3 by {
      assert 523 / 10 == 52 && 52 / 10 == 5;
    }
    assert DigitsValue("523") == 523 by {
      assert "523"[1..] == "23" && "23"[1..] == "3" && "3"[1..] == "";
      assert Pow10(2) == 100;
    }
    ValueRoundTrip("523");
  }

  /** The evidently intended password: "doc" and the three digits of `k + 100`. */
  function GeneratedPassword(k: nat): (r: string)
    requires k < 900
    ensures |r| == 6 && r[..3] == "doc" && AllDigits(r[3..])
    ensures DigitsValue(r[3..]) == k + 100 && 100 <= DigitsValue(r[3..]) <= 999
  {
    var n := k + 100;
    assert DigitCount(n) == 3 by {
      var q := n / 10;
      assert 10 <= q < 100 && q / 10 < 10;
      assert DigitCount(q / 10) == 1;
      assert DigitCount(q) == 2;
    }
    var r := "doc" + NatToString(n);
    assert r[3..] == NatToString(n);
    r
  }

  /** `newUser` (lines 43-53). */
  function NewUser(form: UserForm, stamp: nat, preview: Option<string>, k: nat): (u: User)
    requires k < 900
    ensures u.role == Doctor
  {
    User(
      "u-" + NatToString(stamp),
      form.name,
      form.email,
      Doctor,
      Some(form.specialty),
      Some(GeneratedPassword(k)),
      Some(form.professionalId),
      Some(form.birthDate),
      if preview.Some? && preview.value != "" then preview else None)
  }

  /**
    A registered user is a doctor with the id "u-" followed by the time
    stamp's digits, and shows up last in the doctors list.
   */
  lemma NewUserIsListedDoctor(users: seq<User>, form: UserForm, stamp: nat, preview: Option<string>, k: nat)
    requires k < 900
    ensures var u := NewUser(form, stamp, preview, k);
      && u.id[..2] == "u-" && AllDigits(u.id[2..]) && DigitsValue(u.id[2..]) == stamp
      && Doctors(users + [u]) == Doctors(users) + [u]
  {
    var u := NewUser(form, stamp, preview, k);
    assert u.id[2..] == NatToString(stamp);
    DoctorsConcat(users, [u]);
    assert Filter([u], IsDoctor()) == [u];
  }
}
