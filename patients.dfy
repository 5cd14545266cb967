/**
  The patient screen (components/PatientManager.tsx) apart from its growth
  analytics: the search box (lines 62-65), the consultations listed for the
  selected patient (67-71), the patient record its form builds (125-151) and
  the consultation record with the growth-history update (153-190).

  `Number(...)` is the parameter `num`, `Date.now().toString()` the
  parameter `freshId`, and `new Date(dateTime).getTime()` the parameter `ts`.
 */
module Patients {
  import opened Types
  import opened Seqs
  import opened Text
  import opened Sorting
  import opened Dates
  import opened Appointments

  // ---------------------------------------------------------------------
  // Search (lines 62-65).

  /** The lowercased name or parent's name contains the lowercased term. */
  predicate MatchesSearch(p: Patient, term: string)
  {
    Contains(Lower(p.name), Lower(term)) || Contains(Lower(p.parentName), Lower(term))
  }

  function SearchMatcher(term: string): Patient -> bool
  {
    (p: Patient) => MatchesSearch(p, term)
  }

  /** The patients listed for a search term, in their given order. */
  function SearchPatients(ps: seq<Patient>, term: string): (r: seq<Patient>)
    ensures |r| <= |ps|
    ensures forall p :: p in r <==> p in ps && MatchesSearch(p, term)
  {
    Filter(ps, SearchMatcher(term))
  }

  /** An empty search box lists every patient, in order. */
  lemma SearchEmptyKeepsAll(ps: seq<Patient>)
    ensures SearchPatients(ps, "") == ps
  {
    assert Lower("") == "";
    forall p | p in ps
      ensures SearchMatcher("")(p)
    {
      ContainsEmpty(Lower(p.name));
    }
    FilterKeepsAll(ps, SearchMatcher(""));
  }

  /** The case of the term does not matter: lowercasing it first lists the same patients. */
  lemma SearchIgnoresCase(ps: seq<Patient>, term: string)
    ensures SearchPatients(ps, Lower(term)) == SearchPatients(ps, term)
  {
    LowerIdempotent(term);
    FilterCongruent(ps, SearchMatcher(Lower(term)), SearchMatcher(term));
  }

  /** A term found in a patient's name or parent's name, as written, keeps that patient. */
  lemma SearchFindsName(ps: seq<Patient>, p: Patient, term: string)
    requires p in ps
    requires Contains(Lower(p.name), Lower(term)) || Contains(Lower(p.parentName), Lower(term))
    ensures p in SearchPatients(ps, term)
  {
  }

  // ---------------------------------------------------------------------
  // The selected patient's consultations (lines 67-71).

  function ForPatient(id: string): Appointment -> bool
  {
    (a: Appointment) => a.patientId == id
  }

  /** The appointments of the selected patient, newest first; none without a selection. */
  function PatientAppointments(selected: Option<Patient>, apps: seq<Appointment>, ts: string -> int): seq<Appointment>
  {
    if selected.None? then [] else NewestFirst(Filter(apps, ForPatient(selected.value.id)), ts)
  }

  /**
    Without a selection the list is empty; with one it holds exactly the
    appointments of that patient, each as often as stored, newest first.
   */
  lemma PatientAppointmentsSpec(selected: Option<Patient>, apps: seq<Appointment>, ts: string -> int)
    ensures selected.None? ==> PatientAppointments(selected, apps, ts) == []
    ensures selected.Some? ==>
      var r := PatientAppointments(selected, apps, ts);
      && (forall a :: a in r <==> a in apps && a.patientId == selected.value.id)
      && multiset(r) == multiset(Filter(apps, ForPatient(selected.value.id)))
      && (forall i, j :: 0 <= i < j < |r| ==> ts(r[i].dateTime) >= ts(r[j].dateTime))
  {
    if selected.Some? {
      var own := Filter(apps, ForPatient(selected.value.id));
      NewestFirstSpec(own, ts);
      var r := NewestFirst(own, ts);
      forall a
        ensures a in r <==> a in own
      {
        assert a in r <==> a in multiset(r);
        assert a in own <==> a in multiset(own);
      }
    }
  }

  // ---------------------------------------------------------------------
  // Allergies (line 138): `(text || '').split(',').map(s => s.trim()).filter(s => s !== '')`.

  function TrimAll(ps: seq<string>): (r: seq<string>)
    ensures |r| == |ps|
    ensures forall i :: 0 <= i < |ps| ==> r[i] == Trim(ps[i])
  {
    if |ps| == 0 then [] else [Trim(ps[0])] + TrimAll(ps[1..])
  }

  function NonEmpty(): string -> bool
  {
    (s: string) => s != ""
  }

  /** The allergy list typed as comma-separated text. */
  function ParseAllergies(text: string): (r: seq<string>)
    ensures forall a :: a in r ==> a != "" && Trimmed(a) && ',' !in a
  {
    var pieces := Split(text, ',');
    var trimmed := TrimAll(pieces);
    Filter(trimmed, NonEmpty())
  }

  /** Blank text gives no allergies. */
  lemma ParseAllergiesEmpty()
    ensures ParseAllergies("") == []
  {
    assert Split("", ',') == [""];
    assert TrimAll([""]) == [""];
  }

  /**
    Writing a list of allergies (each non-empty, without surrounding white
    space or commas) separated by commas and parsing it gives the list back.
   */
  lemma ParseAllergiesJoin(allergies: seq<string>)
    requires forall i :: 0 <= i < |allergies| ==> allergies[i] != "" && Trimmed(allergies[i]) && ',' !in allergies[i]
    ensures ParseAllergies(Join(allergies, [','])) == allergies
  {
    if |allergies| == 0 {
      ParseAllergiesEmpty();
    } else {
      var text := Join(allergies, [',']);
      SplitJoin(allergies, ',');
      assert Split(text, ',') == allergies;
      TrimAllKeepsTrimmed(allergies);
      forall a | a in allergies
        ensures NonEmpty()(a)
      {
      }
      FilterKeepsAll(allergies, NonEmpty());
    }
  }

  lemma TrimAllKeepsTrimmed(ps: seq<string>)
    requires forall i :: 0 <= i < |ps| ==> Trimmed(ps[i])
    ensures TrimAll(ps) == ps
  {
    forall i | 0 <= i < |ps|
      ensures TrimAll(ps)[i] == ps[i]
    {
      TrimKeepsTrimmed(ps[i]);
    }
  }

  // ---------------------------------------------------------------------
  // The patient record (lines 125-151).

  /**
    The submitted patient form.  The form on screen (lines 366-423) has no
    allergy or notes field, so `formData.get` returns null for them: those
    two are `None` when the field is absent.
   */
  datatype PatientForm = PatientForm(
    name: string,
    birthDate: string,
    gender: Sex,
    parentName: string,
    parentPhone: string,
    email: string,
    bloodType: string,
    allergies: Option<string>,
    notes: Option<string>)

  /** `photoPreview || editingPatient?.photo`. */
  function ChosenPhoto(preview: Option<string>, editing: Option<Patient>): Option<string>
  {
    if preview.Some? && preview.value != "" then preview
    else if editing.Some? then editing.value.photo
    else None
  }

  /**
    `patientData` as lines 127-142 write it: an absent allergy field reads as
    the empty text and an absent notes field as null (here the empty string),
    whether or not a patient is being edited.
   */
  function BuildPatientAsWritten(
    form: PatientForm, editing: Option<Patient>, currentDoctorId: string,
    freshId: string, preview: Option<string>): Patient
  {
    Patient(
      if editing.Some? && editing.value.id != "" then editing.value.id else freshId,
      currentDoctorId,
      form.name, form.birthDate, form.gender, form.parentName, form.parentPhone,
      form.email,
      ParseAllergies(form.allergies.GetOr("")),
      form.bloodType,
      if editing.Some? then editing.value.growthHistory else [],
      form.notes.GetOr(""),
      ChosenPhoto(preview, editing))
  }

  /** Saving the edit form of a patient with allergies (the form has no allergy field) clears them. */
  lemma EditClearsAllergies(form: PatientForm, p: Patient, currentDoctorId: string,
                            freshId: string, preview: Option<string>)
    requires form.allergies.None? && form.notes.None?
    ensures BuildPatientAsWritten(form, Some(p), currentDoctorId, freshId, preview).allergies == []
    ensures BuildPatientAsWritten(form, Some(p), currentDoctorId, freshId, preview).notes == ""
  {
    ParseAllergiesEmpty();
  }

  /**
    The record the form evidently means to build: a field the form does not
    offer keeps the edited patient's value (nothing for a new patient).
   */
  function BuildPatient(
    form: PatientForm, editing: Option<Patient>, currentDoctorId: string,
    freshId: string, preview: Option<string>): Patient
  {
    Patient(
      if editing.Some? && editing.value.id != "" then editing.value.id else freshId,
      currentDoctorId,
      form.name, form.birthDate, form.gender, form.parentName, form.parentPhone,
      form.email,
      if form.allergies.Some? then ParseAllergies(form.allergies.value)
      else if editing.Some? then editing.value.allergies
      else [],
      form.bloodType,
      if editing.Some? then editing.value.growthHistory else [],
      if form.notes.Some? then form.notes.value
      else if editing.Some? then editing.value.notes
      else "",
      ChosenPhoto(preview, editing))
  }

  /**
    An edit keeps the patient's id, growth history, allergies and notes
    unless the form supplies new ones; a new patient gets the fresh id and an
    empty history.  Either way the record belongs to the current doctor and
    typed allergies are the trimmed non-empty comma-separated pieces.
   */
  lemma BuildPatientSpec(form: PatientForm, editing: Option<Patient>, currentDoctorId: string,
                         freshId: string, preview: Option<string>)
    ensures var p := BuildPatient(form, editing, currentDoctorId, freshId, preview);
      && p.doctorId == currentDoctorId
      && (editing.Some? && editing.value.id != "" ==> p.id == editing.value.id)
      && (editing.None? ==> p.id == freshId && p.growthHistory == [])
      && (editing.Some? ==> p.growthHistory == editing.value.growthHistory)
      && (editing.Some? && form.allergies.None? ==> p.allergies == editing.value.allergies)
      && (editing.Some? && form.notes.None? ==> p.notes == editing.value.notes)
      && (form.allergies.Some? ==> p.allergies == ParseAllergies(form.allergies.value))
      && (form.name, form.birthDate, form.gender, form.parentName, form.parentPhone, form.email, form.bloodType)
         == (p.name, p.birthDate, p.gender, p.parentName, p.parentPhone, p.email, p.bloodType)
  {
  }

  /** Where the form offers both fields the two builders agree. */
  lemma BuildersAgreeOnFullForm(form: PatientForm, editing: Option<Patient>, currentDoctorId: string,
                                freshId: string, preview: Option<string>)
    requires form.allergies.Some? && form.notes.Some?
    ensures BuildPatient(form, editing, currentDoctorId, freshId, preview)
         == BuildPatientAsWritten(form, editing, currentDoctorId, freshId, preview)
  {
  }

  /** The one callback a patient submit dispatches (lines 144-147). */
  function SubmitPatient(
    form: PatientForm, editing: Option<Patient>, currentDoctorId: string,
    freshId: string, preview: Option<string>): (c: PatientCommand)
    ensures c.UpdatePatient? <==> editing.Some?
    ensures c.patient == BuildPatient(form, editing, currentDoctorId, freshId, preview)
  {
    var p := BuildPatient(form, editing, currentDoctorId, freshId, preview);
    if editing.Some? then UpdatePatient(p) else AddPatient(p)
  }

  // ---------------------------------------------------------------------
  // Consultations (lines 153-190).

  /** The submitted consultation form, every field as the string the browser sends. */
  datatype ConsultationForm = ConsultationForm(
    dateTime: string,
    reason: string,
    cost: string,
    symptoms: string,
    physicalExam: string,
    diagnosis: string,
    treatment: string,
    weight: string,
    height: string)

  /** `appData` (lines 162-177). */
  function BuildConsultation(
    form: ConsultationForm, patient: Patient, editing: Option<Appointment>,
    currentDoctorId: string, freshId: string, num: string -> real): Appointment
  {
    Appointment(
      if editing.Some? && editing.value.id != "" then editing.value.id else freshId,
      currentDoctorId,
      patient.id,
      patient.name,
      form.dateTime,
      form.reason,
      Completed,
      num(form.cost),
      Some(form.symptoms), Some(form.physicalExam), Some(form.diagnosis), Some(form.treatment),
      Some(num(form.weight)), Some(num(form.height)))
  }

  /**
    A consultation is always recorded as completed, for the selected patient
    under their name, by the current doctor, keeping its id when edited.
   */
  lemma ConsultationSpec(form: ConsultationForm, patient: Patient, editing: Option<Appointment>,
                         currentDoctorId: string, freshId: string, num: string -> real)
    ensures var a := BuildConsultation(form, patient, editing, currentDoctorId, freshId, num);
      && a.status == Completed
      && a.patientId == patient.id && a.patientName == patient.name
      && a.doctorId == currentDoctorId
      && (editing.Some? && editing.value.id != "" ==> a.id == editing.value.id)
      && (editing.None? ==> a.id == freshId)
      && a.dateTime == form.dateTime && a.cost == num(form.cost)
      && a.weight == Some(num(form.weight)) && a.height == Some(num(form.height))
  {
  }

  /** The comparator `(a, b) => a.date.localeCompare(b.date)` read as "a may stay in front of b". */
  function DateOrder(): (GrowthRecord, GrowthRecord) -> bool
  {
    (a: GrowthRecord, b: GrowthRecord) => StrLe(a.date, b.date)
  }

  lemma DateOrderIsPreorder()
    ensures TotalPreorder(DateOrder())
  {
    forall a: GrowthRecord, b: GrowthRecord
      ensures DateOrder()(a, b) || DateOrder()(b, a)
    {
      StrLeTotal(a.date, b.date);
    }
    forall a: GrowthRecord, b: GrowthRecord, c: GrowthRecord | DateOrder()(a, b) && DateOrder()(b, c)
      ensures DateOrder()(a, c)
    {
      StrLeTransitive(a.date, b.date, c.date);
    }
  }

  /** The measurement a consultation adds: dated by the day of its date-time. */
  function ConsultationRecord(dateTime: string, weight: real, height: real): GrowthRecord
  {
    GrowthRecord(BeforeFirst(dateTime, 'T'), weight, height, None)
  }

  /** The history after adding `rec`, re-sorted by date (line 181). */
  function WithRecord(history: seq<GrowthRecord>, rec: GrowthRecord): seq<GrowthRecord>
  {
    SortBy(history + [rec], DateOrder())
  }

  /**
    Lines 179-183: with a non-zero weight and height the patient is updated
    with the consultation's measurement added to the history; otherwise the
    patient is left alone.  Nothing but the history changes.
   */
  function GrowthAfterConsultation(p: Patient, dateTime: string, weight: real, height: real): (r: Option<Patient>)
    ensures r.Some? <==> weight != 0.0 && height != 0.0
    ensures r.Some? ==> r.value.(growthHistory := p.growthHistory) == p
  {
    if weight != 0.0 && height != 0.0 then
      Some(p.(growthHistory := WithRecord(p.growthHistory, ConsultationRecord(dateTime, weight, height))))
    else None
  }

  /**
    The new history has one record more, holds the old records and the new
    one (each as often as before: nothing is de-duplicated, so re-submitting
    an edited consultation adds a second record), and is in date order.  An
    already ordered history gets the record inserted behind every record of
    the same date or earlier.
   */
  lemma WithRecordSpec(history: seq<GrowthRecord>, rec: GrowthRecord)
    ensures |WithRecord(history, rec)| == |history| + 1
    ensures multiset(WithRecord(history, rec)) == multiset(history) + multiset{rec}
    ensures SortedBy(WithRecord(history, rec), DateOrder())
    ensures SortedBy(history, DateOrder()) ==> WithRecord(history, rec) == Insert(history, rec, DateOrder())
  {
    DateOrderIsPreorder();
    SortBySorted(history + [rec], DateOrder());
    SortByPermutes(history + [rec], DateOrder());
    SortByAppend(history, rec, DateOrder());
    if SortedBy(history, DateOrder()) {
      SortByOfSorted(history, DateOrder());
    }
  }

  /** A measurement dated on or after every recorded one becomes the latest record. */
  lemma NewestRecordIsLatest(history: seq<GrowthRecord>, rec: GrowthRecord)
    requires SortedBy(history, DateOrder())
    requires forall g :: g in history ==> StrLe(g.date, rec.date)
    ensures WithRecord(history, rec) == history + [rec]
  {
    WithRecordSpec(history, rec);
    if |history| > 0 {
      assert history[|history| - 1] in history;
    }
  }

  /** Every pair of records whose dates parse is in calendar order. */
  predicate CalendarOrdered(h: seq<GrowthRecord>)
  {
    forall i, j :: 0 <= i < j < |h| && ParseIsoDate(h[i].date).Some? && ParseIsoDate(h[j].date).Some? ==>
      DateLe(ParseIsoDate(h[i].date).value, ParseIsoDate(h[j].date).value)
  }

  /** On well-formed `YYYY-MM-DD` dates the sorted history is in calendar order. */
  lemma WithRecordChronological(history: seq<GrowthRecord>, rec: GrowthRecord)
    requires forall g :: g in history + [rec] ==> |g.date| == 10 && ParseIsoDate(g.date).Some?
    ensures CalendarOrdered(WithRecord(history, rec))
  {
    WithRecordSpec(history, rec);
    var h := WithRecord(history, rec);
    forall i, j | 0 <= i < j < |h| && ParseIsoDate(h[i].date).Some? && ParseIsoDate(h[j].date).Some?
      ensures DateLe(ParseIsoDate(h[i].date).value, ParseIsoDate(h[j].date).value)
    {
      assert h[i] in multiset(history + [rec]) && h[j] in multiset(history + [rec]);
      assert DateOrder()(h[i], h[j]);
      IsoStringOrder(h[i].date, h[j].date);
    }
  }

  /**
    A blank weight or height field reads as `Number("") === 0`, so the patient
    is left untouched.
   */
  lemma BlankMeasureKeepsPatient(
    form: ConsultationForm, selected: Option<Patient>, editing: Option<Appointment>,
    currentDoctorId: string, freshId: string, num: string -> real)
    requires num("") == 0.0
    requires form.weight == "" || form.height == ""
    ensures var o := SubmitConsultation(form, selected, editing, currentDoctorId, freshId, num);
      o.Submitted? ==> o.growthUpdate.None?
  {
  }

  /** What a consultation submit does: nothing without a selected patient. */
  datatype ConsultationOutcome =
    | NoPatientSelected
    | Submitted(growthUpdate: Option<Patient>, command: AppointmentCommand)

  /** `handleConsultationSubmit`: the optional patient update, then exactly one appointment callback. */
  function SubmitConsultation(
    form: ConsultationForm, selected: Option<Patient>, editing: Option<Appointment>,
    currentDoctorId: string, freshId: string, num: string -> real): (o: ConsultationOutcome)
    ensures o.NoPatientSelected? <==> selected.None?
    ensures o.Submitted? ==>
      && (o.command.UpdateAppointment? <==> editing.Some?)
      && o.command.app == BuildConsultation(form, selected.value, editing, currentDoctorId, freshId, num)
      && (o.growthUpdate.Some? <==> num(form.weight) != 0.0 && num(form.height) != 0.0)
  {
    if selected.None? then NoPatientSelected
    else
      var app := BuildConsultation(form, selected.value, editing, currentDoctorId, freshId, num);
      Submitted(
        GrowthAfterConsultation(selected.value, form.dateTime, num(form.weight), num(form.height)),
        if editing.Some? then UpdateAppointment(app) else AddAppointment(app))
  }
}
