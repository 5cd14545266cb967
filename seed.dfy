/**
  The records a fresh installation starts with (constants.tsx:3-82) and
  what the model says about them: the seeded ledger is consistent, the
  seeded appointment is on the dashboard of its doctor the day the store is
  created, the growth analysis of the seeded patient, and what editing that
  patient does to their allergies.
 */
module Seed {
  import opened Types
  import opened Seqs
  import opened Text
  import opened Dates
  import opened Scope
  import opened Store
  import opened Growth
  import opened Finance
  import opened Users
  import opened Dashboard
  import opened Patients

  const Admin0 := User("u-admin", "Administrador General", "admin@pedicare.com", Admin,
    None, Some("admin123"), Some("ADM-001"), Some("1985-04-12"), None)

  const Rodrigo := User("u-doc-1", "Dr. Rodrigo Paz", "rodrigo@pedicare.com", Doctor,
    Some("Pediatría General"), Some("doc123"), Some("CED-882910"), Some("1978-08-22"),
    Some("https://images.unsplash.com/photo-1612349317150-e413f6a5b16d?auto=format&fit=crop&q=80&w=150"))

  const Elena := User("u-doc-2", "Dra. Elena Gómez", "elena@pedicare.com", Doctor,
    Some("Neonatología"), Some("doc123"), Some("CED-991022"), Some("1982-11-05"),
    Some("https://images.unsplash.com/photo-1594824476967-48c8b964273f?auto=format&fit=crop&q=80&w=150"))

  const SeedUsers := [Admin0, Rodrigo, Elena]

  const Mateo := Patient("1", "u-doc-1", "Mateo González", "2021-05-15", Male, "Laura Ruíz",
    "+52 555-0101", "laura@example.com", ["Penicilina"], "O+",
    [GrowthRecord("2021-05-15", 3.4, 50.0, None), GrowthRecord("2021-11-15", 7.2, 68.0, None)],
    "Desarrollo normal.", None)

  const SeedPatients := [Mateo]

  /** The seeded appointment is at nine on the day the store is created (`nowIso` is that moment). */
  function SeedAppointment(nowIso: string): Appointment
  {
    Appointment("101", "u-doc-1", "1", "Mateo González", TodayStr(nowIso) + "T09:00:00",
      "Control de crecimiento", Scheduled, 800.0, None, None, None, None, None, None)
  }

  function SeedAppointments(nowIso: string): seq<Appointment>
  {
    [SeedAppointment(nowIso)]
  }

  const SeedFee := Transaction("t1", "u-doc-1", "2024-05-01", Income, "Consulta",
    "Consulta Mateo G.", 800.0, Some("101"))

  const SeedTransactions := [SeedFee]

  /** The seeded tables satisfy the store's invariant: unique keys, and the fee backed by its appointment. */
  lemma SeedIsConsistent(nowIso: string)
    ensures Keyed(SeedUsers, SeedPatients, SeedAppointments(nowIso), SeedTransactions)
    ensures LedgerConsistent(SeedAppointments(nowIso), SeedTransactions)
  {
    assert SeedAppointment(nowIso) in SeedAppointments(nowIso);
  }

  /** Two of the three seeded users are doctors. */
  lemma SeedDoctors()
    ensures Doctors(SeedUsers) == [Rodrigo, Elena]
  {
    assert SeedUsers == [Admin0] + [Rodrigo, Elena];
    DoctorsConcat([Admin0], [Rodrigo, Elena]);
    assert [Rodrigo, Elena] == [Rodrigo] + [Elena];
    DoctorsConcat([Rodrigo], [Elena]);
  }

  /**
    On the day the store is seeded, Dr. Paz's dashboard lists the seeded
    appointment, counts the one patient and shows the seeded fee as revenue;
    Dr. Gómez's dashboard is empty.
   */
  lemma SeedDashboards(nowIso: string)
    ensures DashboardFor(Rodrigo, SeedUsers, SeedPatients, SeedAppointments(nowIso), SeedTransactions, nowIso)
      == DoctorView(SeedAppointments(nowIso), 1, 800.0)
    ensures DashboardFor(Elena, SeedUsers, SeedPatients, SeedAppointments(nowIso), SeedTransactions, nowIso)
      == DoctorView([], 0, 0.0)
  {
    var a := SeedAppointment(nowIso);
    var day := TodayStr(nowIso);
    assert a.dateTime[..|day|] == day;
    assert Filter(SeedAppointments(nowIso), StartsOn(day)) == [a];
    DoctorSeesOwn(Some(Rodrigo), SeedPatients, PatientOwner);
    DoctorSeesOwn(Some(Rodrigo), SeedAppointments(nowIso), AppointmentOwner);
    DoctorSeesOwn(Some(Rodrigo), SeedTransactions, TransactionOwner);
    DoctorSeesOwn(Some(Elena), SeedPatients, PatientOwner);
    DoctorSeesOwn(Some(Elena), SeedAppointments(nowIso), AppointmentOwner);
    DoctorSeesOwn(Some(Elena), SeedTransactions, TransactionOwner);
    assert Filter(SeedTransactions, OfKind(Income)) == SeedTransactions;
    assert Sum(SeedTransactions, Amount) == 800.0;
  }

  lemma TwoDigitsValue(s: string)
    requires |s| == 2 && AllDigits(s)
    ensures DigitsValue(s) == (s[0] as int - '0' as int) * 10 + (s[1] as int - '0' as int)
  {
    DigitsValueHead(s);
    DigitsValueHead(s[1..]);
  }

  lemma FourDigitsValue(s: string)
    requires |s| == 4 && AllDigits(s)
    ensures DigitsValue(s) == DigitsValue(s[..2]) * 100 + DigitsValue(s[2..])
  {
    assert s == s[..2] + s[2..];
    DigitsValueConcat(s[..2], s[2..]);
  }

  /** Parsing an ISO date of the year 2021. */
  lemma Parse2021(s: string)
    requires |s| == 10 && s[..5] == "2021-" && s[7] == '-'
    requires AllDigits(s[5..7]) && AllDigits(s[8..10])
    requires 1 <= DigitsValue(s[5..7]) <= 12 && 1 <= DigitsValue(s[8..10]) <= 31
    ensures ParseIsoDate(s) == Some(CalendarDate(2021, DigitsValue(s[5..7]), DigitsValue(s[8..10])))
  {
    var y := s[0..4];
    assert y == "2021";
    assert y[..2] == "20" && y[2..] == "21";
    TwoDigitsValue("20");
    TwoDigitsValue("21");
    FourDigitsValue(y);
  }

  lemma MateoBirthDate()
    ensures ParseIsoDate("2021-05-15") == Some(CalendarDate(2021, 5, 15))
  {
    var s := "2021-05-15";
    assert s[5..7] == "05" && s[8..10] == "15";
    TwoDigitsValue("05");
    TwoDigitsValue("15");
    Parse2021(s);
  }

  lemma MateoLatestDate()
    ensures ParseIsoDate("2021-11-15") == Some(CalendarDate(2021, 11, 15))
  {
    var s := "2021-11-15";
    assert s[5..7] == "11" && s[8..10] == "15";
    TwoDigitsValue("11");
    TwoDigitsValue("15");
    Parse2021(s);
  }

  /**
    Mateo's latest record (six months, 7.2 kg, 68 cm) is above the top
    weight and height bands of the placeholder medians (4.9 kg, 54.8 cm),
    and his body-mass index is in the middle band.
   */
  lemma MateoAnalysis()
    ensures CurrentAnalysis(Some(Mateo)) == Some(Analysis(97, 97, 50, Some(7.2 / (0.68 * 0.68))))
  {
    MateoBirthDate();
    MateoLatestDate();
    assert RecordAge(Mateo.birthDate, "2021-11-15") == Some(6);
    assert WhoMedian(6, Male, WeightKg) == 4.9;
    assert WhoMedian(6, Male, HeightCm) == 54.8;
    assert Deviation(7.2, 4.9) >= 20.0;
    assert Deviation(68.0, 54.8) >= 20.0;
    var bmi := 7.2 / (0.68 * 0.68);
    assert 15.5 < bmi < 15.6;
    assert -10.0 <= Deviation(bmi, 16.0) < 10.0;
  }

  /** The form Mateo's record is edited with: every field it offers, unchanged. */
  const EditMateo := PatientForm(Mateo.name, Mateo.birthDate, Mateo.gender, Mateo.parentName,
    Mateo.parentPhone, Mateo.email, Mateo.bloodType, None, None)

  /**
    Saving Mateo's record without changing anything, as the handler is
    written, loses his penicillin allergy and his notes.
   */
  lemma EditSeedPatientAsWritten(freshId: string)
    ensures var p := BuildPatientAsWritten(EditMateo, Some(Mateo), "u-doc-1", freshId, None);
      p.allergies == [] && p.notes == "" && |Mateo.allergies| == 1 && |Mateo.notes| > 0
  {
    var form := EditMateo;
    assert form.allergies.None? && form.notes.None?;
    EditClearsAllergies(form, Mateo, "u-doc-1", freshId, None);
  }

  /** The corrected builder gives Mateo's record back unchanged. */
  lemma EditSeedPatientCorrected(freshId: string)
    ensures BuildPatient(EditMateo, Some(Mateo), "u-doc-1", freshId, None) == Mateo
  {
  }
}
