/**
  Record visibility in the application shell (App.tsx:61-69): an
  administrator sees every record, a doctor only the records whose
  `doctorId` is their own id, and with nobody logged in nothing is shown.
  The same rule is applied to patients, appointments and transactions, so
  it is written once over any record type with an owner field.
 */
module Scope {
  import opened Types
  import opened Seqs

  /** The filter predicate: `currentUser?.role === ADMIN ? true : r.doctorId === currentUser?.id`. */
  predicate MaySee(viewer: Option<User>, ownerId: string)
  {
    viewer.Some? && (viewer.value.role == Admin || ownerId == viewer.value.id)
  }

  /** The records of `rs` the viewer may see, in their stored order. */
  function Visible<T(!new)>(viewer: Option<User>, rs: seq<T>, owner: T -> string): (r: seq<T>)
    ensures forall x :: x in r <==> x in rs && MaySee(viewer, owner(x))
  {
    Filter(rs, x => MaySee(viewer, owner(x)))
  }

  /** The records of `rs` owned by doctor `id`, in their stored order. */
  function OwnedBy<T(!new)>(rs: seq<T>, owner: T -> string, id: string): (r: seq<T>)
    ensures forall x :: x in r <==> x in rs && owner(x) == id
  {
    Filter(rs, x => owner(x) == id)
  }

  function PatientOwner(p: Patient): string { p.doctorId }
  function AppointmentOwner(a: Appointment): string { a.doctorId }
  function TransactionOwner(t: Transaction): string { t.doctorId }

  /** The three collections App.tsx hands to the screens. */
  function VisiblePatients(viewer: Option<User>, ps: seq<Patient>): seq<Patient>
  {
    Visible(viewer, ps, PatientOwner)
  }

  function VisibleAppointments(viewer: Option<User>, apps: seq<Appointment>): seq<Appointment>
  {
    Visible(viewer, apps, AppointmentOwner)
  }

  function VisibleTransactions(viewer: Option<User>, txs: seq<Transaction>): seq<Transaction>
  {
    Visible(viewer, txs, TransactionOwner)
  }

  /** An administrator sees the whole collection, unchanged and in order. */
  lemma AdminSeesAll<T(!new)>(viewer: Option<User>, rs: seq<T>, owner: T -> string)
    requires viewer.Some? && viewer.value.role == Admin
    ensures Visible(viewer, rs, owner) == rs
  {
    FilterKeepsAll(rs, x => MaySee(viewer, owner(x)));
  }

  /** A doctor sees exactly their own records, in the stored order. */
  lemma DoctorSeesOwn<T(!new)>(viewer: Option<User>, rs: seq<T>, owner: T -> string)
    requires viewer.Some? && viewer.value.role == Doctor
    ensures Visible(viewer, rs, owner) == OwnedBy(rs, owner, viewer.value.id)
  {
    FilterCongruent(rs, x => MaySee(viewer, owner(x)), x => owner(x) == viewer.value.id);
  }

  /** With nobody logged in every visible collection is empty. */
  lemma NobodySeesNothing<T(!new)>(rs: seq<T>, owner: T -> string)
    ensures Visible(None, rs, owner) == []
  {
    FilterDropsAll(rs, x => MaySee(None, owner(x)));
  }

  /** Visibility is decided record by record, so it distributes over concatenation. */
  lemma VisibleConcat<T(!new)>(viewer: Option<User>, a: seq<T>, b: seq<T>, owner: T -> string)
    ensures Visible(viewer, a + b, owner) == Visible(viewer, a, owner) + Visible(viewer, b, owner)
  {
    FilterConcat(a, b, x => MaySee(viewer, owner(x)));
  }

  /** Under any viewer, the visible records are a sub-collection: at most as many, each one stored. */
  lemma VisibleShrinks<T(!new)>(viewer: Option<User>, rs: seq<T>, owner: T -> string)
    ensures |Visible(viewer, rs, owner)| <= |rs|
    ensures multiset(Visible(viewer, rs, owner)) <= multiset(rs)
  {
    var p := x => MaySee(viewer, owner(x));
    var q := x => !MaySee(viewer, owner(x));
    FilterPartition(rs, p, q);
  }
}
