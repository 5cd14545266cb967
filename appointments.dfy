/**
  The agenda screen (components/AppointmentManager.tsx): the appointment
  record its form builds (lines 31-59) and the newest-first order in which
  it lists appointments (line 86), which the screen produces by sorting the
  array it was given in place.

  `Number(...)` is the parameter `num`, `Date.now().toString()` the
  parameter `freshId`, and `new Date(dateTime).getTime()` the parameter
  `ts`.
 */
module Appointments {
  import opened Types
  import opened Sorting
  import opened Seqs

  /** The submitted form: every field as the string the browser sends, `status` already decoded. */
  datatype AppointmentForm = AppointmentForm(
    patientId: string,
    dateTime: string,
    reason: string,
    status: AppointmentStatus,
    cost: string,
    symptoms: string,
    physicalExam: string,
    diagnosis: string,
    treatment: string,
    weight: string,
    height: string)

  /** `patients.find(p => p.id === id)`: the first patient with that id. */
  function FindPatient(ps: seq<Patient>, id: string): (r: Option<Patient>)
    ensures r.None? <==> forall i :: 0 <= i < |ps| ==> ps[i].id != id
    ensures r.Some? ==> exists i :: FirstWithId(ps, i, id) && ps[i] == r.value
  {
    if |ps| == 0 then None
    else if ps[0].id == id then
      assert FirstWithId(ps, 0, id);
      Some(ps[0])
    else
      var r := FindPatient(ps[1..], id);
      if r.Some? then
        var i :| FirstWithId(ps[1..], i, id) && ps[1..][i] == r.value;
        assert FirstWithId(ps, i + 1, id);
        r
      else r
  }

  /** Position `i` holds the first patient whose id is `id`. */
  predicate FirstWithId(ps: seq<Patient>, i: int, id: string)
  {
    0 <= i < |ps| && ps[i].id == id && forall j :: 0 <= j < i ==> ps[j].id != id
  }

  /** `patient?.name || 'Desconocido'`. */
  function PatientNameFor(ps: seq<Patient>, id: string): string
  {
    var p := FindPatient(ps, id);
    if p.Some? && p.value.name != "" then p.value.name else "Desconocido"
  }

  /** The record `handleSubmit` builds (lines 38-53); `editing` is the appointment being edited, if any. */
  function BuildAppointment(
    form: AppointmentForm, editing: Option<Appointment>, patients: seq<Patient>,
    currentDoctorId: string, freshId: string, num: string -> real): Appointment
  {
    Appointment(
      if editing.Some? && editing.value.id != "" then editing.value.id else freshId,
      if editing.Some? && editing.value.doctorId != "" then editing.value.doctorId else currentDoctorId,
      form.patientId,
      PatientNameFor(patients, form.patientId),
      form.dateTime,
      form.reason,
      form.status,
      num(form.cost),
      Some(form.symptoms), Some(form.physicalExam), Some(form.diagnosis), Some(form.treatment),
      if form.weight != "" then Some(num(form.weight)) else None,
      if form.height != "" then Some(num(form.height)) else None)
  }

  /** The one callback a submit dispatches (lines 55-56). */
  function SubmitAppointment(
    form: AppointmentForm, editing: Option<Appointment>, patients: seq<Patient>,
    currentDoctorId: string, freshId: string, num: string -> real): (c: AppointmentCommand)
    ensures c.UpdateAppointment? <==> editing.Some?
    ensures c.app == BuildAppointment(form, editing, patients, currentDoctorId, freshId, num)
  {
    var app := BuildAppointment(form, editing, patients, currentDoctorId, freshId, num);
    if editing.Some? then UpdateAppointment(app) else AddAppointment(app)
  }

  /**
    The patient name on the record: the name of the first patient with the
    chosen id, or "Desconocido" when there is none (or its name is empty).
   */
  lemma PatientNameSpec(form: AppointmentForm, editing: Option<Appointment>, patients: seq<Patient>,
                        currentDoctorId: string, freshId: string, num: string -> real)
    ensures var app := BuildAppointment(form, editing, patients, currentDoctorId, freshId, num);
      && ((forall i :: 0 <= i < |patients| ==> patients[i].id != form.patientId) ==> app.patientName == "Desconocido")
      && (forall i :: FirstWithId(patients, i, form.patientId) && patients[i].name != "" ==> app.patientName == patients[i].name)
  {
    var r := FindPatient(patients, form.patientId);
    forall i | FirstWithId(patients, i, form.patientId)
      ensures r == Some(patients[i])
    {
      var k :| FirstWithId(patients, k, form.patientId) && patients[k] == r.value;
    }
  }

  /** Editing keeps the record's id and owner; creating takes a fresh id and the current doctor. */
  lemma BuildIdentity(form: AppointmentForm, editing: Option<Appointment>, patients: seq<Patient>,
                      currentDoctorId: string, freshId: string, num: string -> real)
    ensures var app := BuildAppointment(form, editing, patients, currentDoctorId, freshId, num);
      && (editing.Some? && editing.value.id != "" && editing.value.doctorId != "" ==>
            app.id == editing.value.id && app.doctorId == editing.value.doctorId)
      && (editing.None? ==> app.id == freshId && app.doctorId == currentDoctorId)
      && app.patientId == form.patientId && app.status == form.status && app.cost == num(form.cost)
      && (app.weight.None? <==> form.weight == "") && (app.height.None? <==> form.height == "")
  {
  }

  // ---------------------------------------------------------------------
  // Newest first.

  /** The comparator `(a, b) => ts(b) - ts(a)` read as "a may stay in front of b". */
  function NewerOrSame(ts: string -> int): (Appointment, Appointment) -> bool
  {
    (a: Appointment, b: Appointment) => ts(a.dateTime) >= ts(b.dateTime)
  }

  lemma NewerOrSameIsPreorder(ts: string -> int)
    ensures TotalPreorder(NewerOrSame(ts))
  {
  }

  /** The list in the order the screen shows it. */
  function NewestFirst(s: seq<Appointment>, ts: string -> int): seq<Appointment>
  {
    SortBy(s, NewerOrSame(ts))
  }

  /**
    The listed appointments are the given ones, each as often as given, with
    later date-times first, and an already ordered list is left as it is.
   */
  lemma NewestFirstSpec(s: seq<Appointment>, ts: string -> int)
    ensures |NewestFirst(s, ts)| == |s| && multiset(NewestFirst(s, ts)) == multiset(s)
    ensures forall i, j :: 0 <= i < j < |s| ==> ts(NewestFirst(s, ts)[i].dateTime) >= ts(NewestFirst(s, ts)[j].dateTime)
    ensures SortedBy(s, NewerOrSame(ts)) ==> NewestFirst(s, ts) == s
  {
    NewerOrSameIsPreorder(ts);
    SortBySorted(s, NewerOrSame(ts));
    SortByPermutes(s, NewerOrSame(ts));
    var r := NewestFirst(s, ts);
    forall i, j | 0 <= i < j < |s|
      ensures ts(r[i].dateTime) >= ts(r[j].dateTime)
    {
      assert NewerOrSame(ts)(r[i], r[j]);
    }
    if SortedBy(s, NewerOrSame(ts)) {
      SortByOfSorted(s, NewerOrSame(ts));
    }
  }

  /** The appointments at the same instant as `a`. */
  function SameInstant(ts: string -> int, a: Appointment): Appointment -> bool
  {
    (b: Appointment) => ts(b.dateTime) == ts(a.dateTime)
  }

  /** Appointments at the same instant are listed in the order they were given. */
  lemma NewestFirstKeepsTies(s: seq<Appointment>, ts: string -> int, a: Appointment)
    ensures Filter(NewestFirst(s, ts), SameInstant(ts, a)) == Filter(s, SameInstant(ts, a))
  {
    var le := NewerOrSame(ts);
    NewerOrSameIsPreorder(ts);
    SortByStable(s, a, le);
    SortByPermutes(s, le);
    FilterCongruent(s, SameInstant(ts, a), TiedWith(le, a));
    forall b | b in NewestFirst(s, ts)
      ensures SameInstant(ts, a)(b) == TiedWith(le, a)(b)
    {
    }
    FilterCongruent(NewestFirst(s, ts), SameInstant(ts, a), TiedWith(le, a));
  }

  /** Line 86: `appointments.sort(...)`, which reorders the array it is given. */
  method SortNewestFirst(a: array<Appointment>, ts: string -> int)
    modifies a
    ensures a[..] == NewestFirst(old(a[..]), ts)
  {
    SortInPlace(a, NewerOrSame(ts));
  }
}
