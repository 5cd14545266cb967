/**
  The dashboard (components/Dashboard.tsx:25-39 and its cards) and what the
  application shell hands it (App.tsx:168-177): an administrator's dashboard
  gets the whole store, a doctor's only the records the doctor may see.

  `new Date().toISOString()` is the parameter `nowIso`.
 */
module Dashboard {
  import opened Types
  import opened Seqs
  import opened Text
  import opened Scope
  import opened Finance
  import opened Users

  /** `todayStr` (line 25): the date part of the current ISO time stamp. */
  function TodayStr(nowIso: string): string
  {
    BeforeFirst(nowIso, 'T')
  }

  function StartsOn(day: string): Appointment -> bool
  {
    (a: Appointment) => StartsWith(a.dateTime, day)
  }

  /** `todayAppointments` (line 26). */
  function TodayAppointments(apps: seq<Appointment>, nowIso: string): (r: seq<Appointment>)
    ensures forall a :: a in r <==> a in apps && StartsWith(a.dateTime, TodayStr(nowIso))
  {
    Filter(apps, StartsOn(TodayStr(nowIso)))
  }

  /** A `datetime-local` value: ten characters without `T`, then `T`. */
  predicate LocalStamp(dateTime: string)
  {
    |dateTime| > 10 && dateTime[10] == 'T' && 'T' !in dateTime[..10]
  }

  /**
    For a date-time written `YYYY-MM-DDTHH:MM` and a ten-character day,
    "starts with the day" means "its date part is the day", the same date
    part the ledger records for the appointment's fee.
   */
  lemma TodayIsSameDay(a: Appointment, day: string)
    requires |day| == 10 && 'T' !in day && LocalStamp(a.dateTime)
    ensures StartsWith(a.dateTime, day) <==> BeforeFirst(a.dateTime, 'T') == day
  {
    var dt := a.dateTime;
    assert dt == dt[..10] + ['T'] + dt[11..];
    BeforeFirstStops(dt[..10], 'T', dt[11..]);
  }

  /** `monthlyRevenue` (lines 27-29): the income total, whatever the dates. */
  function MonthlyRevenue(txs: seq<Transaction>): real
  {
    TotalIncome(txs)
  }

  /** An expense adds nothing to the revenue; an income adds its amount. */
  lemma RevenueCountsIncomeOnly(txs: seq<Transaction>, t: Transaction)
    ensures t.kind == Expense ==> MonthlyRevenue(txs + [t]) == MonthlyRevenue(txs)
    ensures t.kind == Income ==> MonthlyRevenue(txs + [t]) == MonthlyRevenue(txs) + t.amount
  {
    TotalsAdditive(txs, [t]);
    assert Filter([t], OfKind(Income)) == if t.kind == Income then [t] else [];
    assert Sum([t], Amount) == t.amount;
  }

  /** Despite its name there is no month filter: re-dating transactions leaves the revenue unchanged. */
  lemma {:induction false} RevenueIgnoresDates(a: seq<Transaction>, b: seq<Transaction>)
    requires |a| == |b|
    requires forall i :: 0 <= i < |a| ==> a[i].(date := b[i].date) == b[i]
    ensures MonthlyRevenue(a) == MonthlyRevenue(b)
  {
    if |a| > 0 {
      var n := |a| - 1;
      assert a == a[..n] + [a[n]] && b == b[..n] + [b[n]];
      RevenueIgnoresDates(a[..n], b[..n]);
      RevenueCountsIncomeOnly(a[..n], a[n]);
      RevenueCountsIncomeOnly(b[..n], b[n]);
    }
  }

  /** `totalDoctors` (line 32). */
  function TotalDoctors(users: seq<User>): nat
  {
    |Doctors(users)|
  }

  /** An entry of `doctorStats`. */
  datatype DoctorStat = DoctorStat(name: string, pacientes: nat, citas: nat)

  function StatOf(doc: User, ps: seq<Patient>, apps: seq<Appointment>): DoctorStat
  {
    DoctorStat(doc.name, |OwnedBy(ps, PatientOwner, doc.id)|, |OwnedBy(apps, AppointmentOwner, doc.id)|)
  }

  function StatsOf(docs: seq<User>, ps: seq<Patient>, apps: seq<Appointment>): (r: seq<DoctorStat>)
    ensures |r| == |docs|
    ensures forall i :: 0 <= i < |docs| ==> r[i] == StatOf(docs[i], ps, apps)
  {
    if |docs| == 0 then [] else [StatOf(docs[0], ps, apps)] + StatsOf(docs[1..], ps, apps)
  }

  /** `doctorStats` (lines 33-39). */
  function DoctorStats(users: seq<User>, ps: seq<Patient>, apps: seq<Appointment>): seq<DoctorStat>
  {
    StatsOf(Doctors(users), ps, apps)
  }

  /**
    One entry per doctor, in user order, named after the doctor; its counts
    are the numbers of patients and appointments that doctor sees when
    logged in.
   */
  lemma DoctorStatsSpec(users: seq<User>, ps: seq<Patient>, apps: seq<Appointment>)
    ensures |DoctorStats(users, ps, apps)| == TotalDoctors(users)
    ensures forall i :: 0 <= i < TotalDoctors(users) ==>
      var doc, s := Doctors(users)[i], DoctorStats(users, ps, apps)[i];
      && s.name == doc.name
      && s.pacientes == |VisiblePatients(Some(doc), ps)|
      && s.citas == |VisibleAppointments(Some(doc), apps)|
  {
    var docs := Doctors(users);
    forall i | 0 <= i < |docs|
      ensures |VisiblePatients(Some(docs[i]), ps)| == |OwnedBy(ps, PatientOwner, docs[i].id)|
      ensures |VisibleAppointments(Some(docs[i]), apps)| == |OwnedBy(apps, AppointmentOwner, docs[i].id)|
    {
      assert docs[i] in docs;
      DoctorSeesOwn(Some(docs[i]), ps, PatientOwner);
      DoctorSeesOwn(Some(docs[i]), apps, AppointmentOwner);
    }
  }

  /** The cards and lists of the two dashboards. */
  datatype DashboardView =
    | AdminView(doctors: nat, patients: nat, appointments: nat, stats: seq<DoctorStat>)
    | DoctorView(today: seq<Appointment>, patients: nat, revenue: real)

  /** The dashboard the logged-in user gets, with the collections App.tsx passes to it. */
  function DashboardFor(viewer: User, users: seq<User>, ps: seq<Patient>, apps: seq<Appointment>,
                        txs: seq<Transaction>, nowIso: string): DashboardView
  {
    if viewer.role == Admin then
      AdminView(TotalDoctors(users), |ps|, |apps|, DoctorStats(users, ps, apps))
    else
      var v := Some(viewer);
      DoctorView(
        TodayAppointments(VisibleAppointments(v, apps), nowIso),
        |VisiblePatients(v, ps)|,
        MonthlyRevenue(VisibleTransactions(v, txs)))
  }

  /**
    An administrator's cards count the whole store; a doctor's count only
    their own patients, list only their own appointments of the day and
    add up only their own income.
   */
  lemma DashboardScope(viewer: User, users: seq<User>, ps: seq<Patient>, apps: seq<Appointment>,
                       txs: seq<Transaction>, nowIso: string)
    ensures viewer.role == Admin ==>
      DashboardFor(viewer, users, ps, apps, txs, nowIso) ==
      AdminView(TotalDoctors(users), |ps|, |apps|, DoctorStats(users, ps, apps))
    ensures viewer.role == Doctor ==>
      var d := DashboardFor(viewer, users, ps, apps, txs, nowIso);
      && d.patients == |OwnedBy(ps, PatientOwner, viewer.id)|
      && d.revenue == TotalIncome(OwnedBy(txs, TransactionOwner, viewer.id))
      && (forall a :: a in d.today <==> a in apps && a.doctorId == viewer.id && StartsWith(a.dateTime, TodayStr(nowIso)))
  {
    if viewer.role == Doctor {
      DoctorSeesOwn(Some(viewer), ps, PatientOwner);
      DoctorSeesOwn(Some(viewer), txs, TransactionOwner);
    }
  }
}
