/**
  The application's four tables (db.ts:16-21, primary key `id` on each) and
  the appointment handlers of the shell (App.tsx:118-153).  Adding an
  appointment also books its consultation fee as an income transaction;
  updating it refreshes the fee and description of the linked transaction;
  deleting it removes every transaction linked to it.  The ledger invariant
  these handlers keep is `LedgerConsistent`: no appointment has more than
  one linked transaction, and each linked transaction is backed by a stored
  appointment whose cost is the transaction's amount.
 */
module Store {
  import opened Types
  import opened Seqs
  import opened Text

  function UserKey(u: User): string { u.id }
  function PatientKey(p: Patient): string { p.id }
  function AppKey(a: Appointment): string { a.id }
  function TxKey(t: Transaction): string { t.id }

  predicate LinkedTo(t: Transaction, id: string)
  {
    t.relatedAppointmentId == Some(id)
  }

  /** The description the ledger shows for an appointment's fee. */
  function FeeDescription(app: Appointment): string
  {
    "Consulta: " + app.patientName
  }

  /** The income transaction booked for a new appointment (App.tsx:120-129). */
  function IncomeFor(app: Appointment): (t: Transaction)
    ensures LinkedTo(t, app.id) && t.amount == app.cost && t.kind == Income
    ensures StartsWith(app.dateTime, t.date) && 'T' !in t.date
    ensures |t.date| < |app.dateTime| ==> app.dateTime[|t.date|] == 'T'
    ensures t.id == "t-" + app.id && t.doctorId == app.doctorId
    ensures t.category == "Consulta" && t.description == FeeDescription(app)
  {
    Transaction(
      "t-" + app.id, app.doctorId, BeforeFirst(app.dateTime, 'T'), Income,
      "Consulta", FeeDescription(app), app.cost, Some(app.id))
  }

  /**
    `where('relatedAppointmentId').equals(id).first()`: the index of the
    linked transaction that comes first in the index, i.e. the one with the
    least primary key; `None` when no transaction is linked.
   */
  function FirstLinked(txs: seq<Transaction>, id: string): (r: Option<nat>)
    ensures r.Some? ==> r.value < |txs| && LinkedTo(txs[r.value], id)
    ensures r.Some? ==> forall j :: 0 <= j < |txs| && LinkedTo(txs[j], id) ==> StrLe(txs[r.value].id, txs[j].id)
    ensures r.None? <==> forall j :: 0 <= j < |txs| ==> !LinkedTo(txs[j], id)
  {
    if |txs| == 0 then None
    else
      var front := txs[..|txs| - 1];
      var last := txs[|txs| - 1];
      var r := FirstLinked(front, id);
      StrLeReflexive(last.id);
      if LinkedTo(last, id) && (r.None? || StrLt(last.id, front[r.value].id)) then
        if r.Some? then
          NewLeast(front, r.value, last, id);
          Some(|txs| - 1)
        else Some(|txs| - 1)
      else if LinkedTo(last, id) then
        StrLeTotal(last.id, front[r.value].id);
        Some(r.value)
      else r
  }

  /** A key below the least linked key is below every linked key. */
  lemma NewLeast(txs: seq<Transaction>, k: nat, x: Transaction, id: string)
    requires k < |txs| && StrLt(x.id, txs[k].id)
    requires forall j :: 0 <= j < |txs| && LinkedTo(txs[j], id) ==> StrLe(txs[k].id, txs[j].id)
    ensures forall j :: 0 <= j < |txs| && LinkedTo(txs[j], id) ==> StrLe(x.id, txs[j].id)
  {
    forall j | 0 <= j < |txs| && LinkedTo(txs[j], id)
      ensures StrLe(x.id, txs[j].id)
    {
      StrLeTransitive(x.id, txs[k].id, txs[j].id);
    }
  }

  /** The fields `update` rewrites on the linked transaction (App.tsx:139-142). */
  function Relinked(t: Transaction, app: Appointment): Transaction
  {
    t.(amount := app.cost, description := FeeDescription(app))
  }

  /** The ledger after an appointment update: only the first linked transaction is rewritten. */
  function SyncLinked(txs: seq<Transaction>, app: Appointment): (r: seq<Transaction>)
    ensures |r| == |txs|
    ensures forall j :: 0 <= j < |txs| ==> r[j].id == txs[j].id && r[j].relatedAppointmentId == txs[j].relatedAppointmentId
  {
    match FirstLinked(txs, app.id)
    case None => txs
    case Some(k) => txs[k := Relinked(txs[k], app)]
  }

  function NotLinked(id: string): Transaction -> bool
  {
    t => !LinkedTo(t, id)
  }

  /** `where('relatedAppointmentId').equals(id).delete()`. */
  function WithoutLinked(txs: seq<Transaction>, id: string): (r: seq<Transaction>)
    ensures forall t :: t in r <==> t in txs && !LinkedTo(t, id)
    ensures UniqueKeys(txs, TxKey) ==> UniqueKeys(r, TxKey)
  {
    if UniqueKeys(txs, TxKey) then
      FilterKeepsKeys(txs, NotLinked(id), TxKey);
      Filter(txs, NotLinked(id))
    else Filter(txs, NotLinked(id))
  }

  /** No two transactions are linked to the same appointment. */
  predicate AtMostOneLink(txs: seq<Transaction>)
  {
    forall i, j :: 0 <= i < |txs| && 0 <= j < |txs| && i != j && txs[i].relatedAppointmentId.Some? ==>
      txs[i].relatedAppointmentId != txs[j].relatedAppointmentId
  }

  /** A linked transaction is backed by a stored appointment whose cost is its amount. */
  predicate Backed(apps: seq<Appointment>, t: Transaction)
  {
    t.relatedAppointmentId.Some? ==>
      exists a :: a in apps && a.id == t.relatedAppointmentId.value && a.cost == t.amount
  }

  predicate LedgerConsistent(apps: seq<Appointment>, txs: seq<Transaction>)
  {
    AtMostOneLink(txs) && forall t :: t in txs ==> Backed(apps, t)
  }

  /** Primary keys are unique in every table. */
  predicate Keyed(us: seq<User>, ps: seq<Patient>, apps: seq<Appointment>, txs: seq<Transaction>)
  {
    UniqueKeys(us, UserKey) && UniqueKeys(ps, PatientKey) && UniqueKeys(apps, AppKey) && UniqueKeys(txs, TxKey)
  }

  /** What `add` then `add` does: the first rejection stops the handler. */
  datatype AddOutcome = Added | DuplicateAppointment | DuplicateTransaction

  function AddOutcomeOf(apps: seq<Appointment>, txs: seq<Transaction>, app: Appointment): AddOutcome
  {
    if HasKey(apps, app.id, AppKey) then DuplicateAppointment
    else if HasKey(txs, "t-" + app.id, TxKey) then DuplicateTransaction
    else Added
  }

  // ---------------------------------------------------------------------
  // The stored tables and the handlers.

  class ClinicStore {
    var users: seq<User>
    var patients: seq<Patient>
    var appointments: seq<Appointment>
    var transactions: seq<Transaction>

    ghost predicate Valid()
      reads this
    {
      Keyed(users, patients, appointments, transactions) && LedgerConsistent(appointments, transactions)
    }

    /** The tables as `db.seed` or an earlier session left them. */
    constructor (us: seq<User>, ps: seq<Patient>, apps: seq<Appointment>, txs: seq<Transaction>)
      requires Keyed(us, ps, apps, txs) && LedgerConsistent(apps, txs)
      ensures Valid()
      ensures users == us && patients == ps && appointments == apps && transactions == txs
    {
      users, patients, appointments, transactions := us, ps, apps, txs;
    }

    /** `handleAddAppointment` (App.tsx:118-132). */
    method AddAppointment(app: Appointment) returns (outcome: AddOutcome)
      requires Valid()
      modifies this
      ensures Valid()
      ensures outcome == AddOutcomeOf(old(appointments), old(transactions), app)
      ensures appointments == if outcome == DuplicateAppointment then old(appointments) else old(appointments) + [app]
      ensures transactions == if outcome == Added then old(transactions) + [IncomeFor(app)] else old(transactions)
      ensures users == old(users) && patients == old(patients)
    {
      if HasKey(appointments, app.id, AppKey) {
        return DuplicateAppointment;
      }
      AddKeepsConsistent(appointments, transactions, app);
      AppendKeepsKeys(appointments, app, AppKey);
      appointments := appointments + [app];
      var tx := IncomeFor(app);
      if HasKey(transactions, tx.id, TxKey) {
        return DuplicateTransaction;
      }
      AppendKeepsKeys(transactions, tx, TxKey);
      transactions := transactions + [tx];
      outcome := Added;
    }

    /** `handleUpdateAppointment` (App.tsx:134-145). */
    method UpdateAppointment(app: Appointment)
      requires Valid()
      modifies this
      ensures Valid()
      ensures appointments == Put(old(appointments), app, AppKey)
      ensures transactions == SyncLinked(old(transactions), app)
      ensures users == old(users) && patients == old(patients)
    {
      UpdateKeepsConsistent(appointments, transactions, app);
      SyncKeepsKeys(transactions, app);
      appointments := Put(appointments, app, AppKey);
      transactions := SyncLinked(transactions, app);
    }

    /** `handleDeleteAppointment` (App.tsx:147-153); `confirmed` is the answer to `window.confirm`. */
    method DeleteAppointment(id: string, confirmed: bool)
      requires Valid()
      modifies this
      ensures Valid()
      ensures appointments == if confirmed then DeleteKey(old(appointments), id, AppKey) else old(appointments)
      ensures transactions == if confirmed then WithoutLinked(old(transactions), id) else old(transactions)
      ensures users == old(users) && patients == old(patients)
    {
      if confirmed {
        DeleteKeepsConsistent(appointments, transactions, id);
        appointments := DeleteKey(appointments, id, AppKey);
        transactions := WithoutLinked(transactions, id);
      }
    }
  }

  // ---------------------------------------------------------------------
  // Primary keys.

  /** The ledger update leaves every primary key where it was. */
  lemma SyncKeepsKeys(txs: seq<Transaction>, app: Appointment)
    requires UniqueKeys(txs, TxKey)
    ensures UniqueKeys(SyncLinked(txs, app), TxKey)
  {
    var r := SyncLinked(txs, app);
    forall i, j | 0 <= i < |r| && 0 <= j < |r| && i != j
      ensures TxKey(r[i]) != TxKey(r[j])
    {
      assert r[i].id == txs[i].id && r[j].id == txs[j].id;
    }
  }

  // ---------------------------------------------------------------------
  // The ledger invariant.

  /** An appointment id with no stored appointment has no backed transaction linked to it. */
  lemma UnstoredUnlinked(apps: seq<Appointment>, txs: seq<Transaction>, id: string)
    requires LedgerConsistent(apps, txs) && !HasKey(apps, id, AppKey)
    ensures forall t :: t in txs ==> !LinkedTo(t, id)
  {
    forall t | t in txs
      ensures !LinkedTo(t, id)
    {
      assert Backed(apps, t);
    }
  }

  lemma {:induction false} AtMostOneFilter(txs: seq<Transaction>, p: Transaction -> bool)
    requires AtMostOneLink(txs)
    ensures AtMostOneLink(Filter(txs, p))
  {
    if |txs| > 0 {
      var t := txs[1..];
      assert AtMostOneLink(t) by {
        forall i, j | 0 <= i < |t| && 0 <= j < |t| && i != j && t[i].relatedAppointmentId.Some?
          ensures t[i].relatedAppointmentId != t[j].relatedAppointmentId
        {
          assert t[i] == txs[i + 1] && t[j] == txs[j + 1];
        }
      }
      AtMostOneFilter(t, p);
      if p(txs[0]) {
        var r := [txs[0]] + Filter(t, p);
        forall i, j | 0 <= i < |r| && 0 <= j < |r| && i != j && r[i].relatedAppointmentId.Some?
          ensures r[i].relatedAppointmentId != r[j].relatedAppointmentId
        {
          if i == 0 || j == 0 {
            var k := if i == 0 then j else i;
            assert r[k] in t;
            var m :| 0 <= m < |t| && t[m] == r[k];
            assert txs[m + 1] == r[k];
          } else {
            assert r[i] == Filter(t, p)[i - 1] && r[j] == Filter(t, p)[j - 1];
          }
        }
      }
    }
  }

  /**
    Adding an appointment with a fresh id keeps the ledger consistent, both
    when its income transaction is booked and when that second `add` fails.
   */
  lemma AddKeepsConsistent(apps: seq<Appointment>, txs: seq<Transaction>, app: Appointment)
    requires LedgerConsistent(apps, txs) && !HasKey(apps, app.id, AppKey)
    ensures LedgerConsistent(apps + [app], txs + [IncomeFor(app)])
    ensures LedgerConsistent(apps + [app], txs)
  {
    UnstoredUnlinked(apps, txs, app.id);
    var apps' := apps + [app];
    var txs' := txs + [IncomeFor(app)];
    forall t | t in txs
      ensures Backed(apps', t)
    {
      assert Backed(apps, t);
      if t.relatedAppointmentId.Some? {
        var a :| a in apps && a.id == t.relatedAppointmentId.value && a.cost == t.amount;
        assert a in apps';
      }
    }
    assert app in apps';
    assert Backed(apps', IncomeFor(app));
    forall i, j | 0 <= i < |txs'| && 0 <= j < |txs'| && i != j && txs'[i].relatedAppointmentId.Some?
      ensures txs'[i].relatedAppointmentId != txs'[j].relatedAppointmentId
    {
      if i < |txs| && j < |txs| {
        assert txs'[i] == txs[i] && txs'[j] == txs[j];
      } else if i < |txs| {
        assert txs'[i] == txs[i] && txs[i] in txs;
      } else {
        assert txs'[j] == txs[j] && txs[j] in txs;
      }
    }
  }

  /** Updating an appointment keeps the ledger consistent: its one linked fee follows the new cost. */
  lemma UpdateKeepsConsistent(apps: seq<Appointment>, txs: seq<Transaction>, app: Appointment)
    requires UniqueKeys(apps, AppKey) && LedgerConsistent(apps, txs)
    ensures LedgerConsistent(Put(apps, app, AppKey), SyncLinked(txs, app))
  {
    var apps' := Put(apps, app, AppKey);
    var txs' := SyncLinked(txs, app);
    var first := FirstLinked(txs, app.id);
    forall i | 0 <= i < |txs'|
      ensures Backed(apps', txs'[i])
    {
      var t := txs[i];
      assert t in txs && Backed(apps, t);
      if first.Some? && i == first.value {
        assert txs'[i] == Relinked(t, app);
      } else {
        assert txs'[i] == t;
        if t.relatedAppointmentId.Some? {
          var a :| a in apps && a.id == t.relatedAppointmentId.value && a.cost == t.amount;
          assert a in apps';
        }
      }
    }
    forall t | t in txs'
      ensures Backed(apps', t)
    {
      var i :| 0 <= i < |txs'| && txs'[i] == t;
    }
  }

  /** A confirmed delete keeps the ledger consistent. */
  lemma DeleteKeepsConsistent(apps: seq<Appointment>, txs: seq<Transaction>, id: string)
    requires LedgerConsistent(apps, txs)
    ensures LedgerConsistent(DeleteKey(apps, id, AppKey), WithoutLinked(txs, id))
  {
    var apps' := DeleteKey(apps, id, AppKey);
    AtMostOneFilter(txs, NotLinked(id));
    forall t | t in WithoutLinked(txs, id)
      ensures Backed(apps', t)
    {
      assert Backed(apps, t);
      if t.relatedAppointmentId.Some? {
        var a :| a in apps && a.id == t.relatedAppointmentId.value && a.cost == t.amount;
        assert a in apps';
      }
    }
  }

  /** Deleting an appointment that was just added restores both tables. */
  lemma AddThenDelete(apps: seq<Appointment>, txs: seq<Transaction>, app: Appointment)
    requires LedgerConsistent(apps, txs) && !HasKey(apps, app.id, AppKey)
    ensures DeleteKey(apps + [app], app.id, AppKey) == apps
    ensures WithoutLinked(txs + [IncomeFor(app)], app.id) == txs
  {
    DeleteKeyAppended(apps, app, AppKey);
    UnstoredUnlinked(apps, txs, app.id);
    FilterConcat(txs, [IncomeFor(app)], NotLinked(app.id));
    FilterKeepsAll(txs, NotLinked(app.id));
  }

  /** The linked transaction with the least id: the one an update rewrites. */
  predicate LeastLinked(txs: seq<Transaction>, j: int, id: string)
  {
    && 0 <= j < |txs| && LinkedTo(txs[j], id)
    && forall i :: 0 <= i < |txs| && LinkedTo(txs[i], id) ==> StrLe(txs[j].id, txs[i].id)
  }

  /**
    What an update does to a ledger with unique ids: the linked transaction
    with the least id takes the new cost and description and keeps every
    other field; all other transactions are untouched.  With no linked
    transaction the ledger is unchanged.
   */
  lemma SyncLinkedEffect(txs: seq<Transaction>, app: Appointment)
    requires UniqueKeys(txs, TxKey)
    ensures |SyncLinked(txs, app)| == |txs|
    ensures forall j :: 0 <= j < |txs| ==>
      SyncLinked(txs, app)[j] == if LeastLinked(txs, j, app.id) then Relinked(txs[j], app) else txs[j]
  {
    var first := FirstLinked(txs, app.id);
    forall j | 0 <= j < |txs|
      ensures SyncLinked(txs, app)[j] == if LeastLinked(txs, j, app.id) then Relinked(txs[j], app) else txs[j]
    {
      if first.Some? {
        var k := first.value;
        if j != k && LeastLinked(txs, j, app.id) {
          StrLeAntisymmetric(txs[j].id, txs[k].id);
          assert TxKey(txs[j]) == TxKey(txs[k]);
        }
      }
    }
  }

  /** In a consistent store a transaction linked to a stored appointment carries that appointment's cost. */
  lemma LinkedAmountIsCost(apps: seq<Appointment>, txs: seq<Transaction>, t: Transaction, a: Appointment)
    requires UniqueKeys(apps, AppKey) && LedgerConsistent(apps, txs)
    requires t in txs && a in apps && LinkedTo(t, a.id)
    ensures t.amount == a.cost
  {
    assert Backed(apps, t);
    var b :| b in apps && b.id == a.id && b.cost == t.amount;
    var i :| 0 <= i < |apps| && apps[i] == a;
    var j :| 0 <= j < |apps| && apps[j] == b;
    assert AppKey(apps[i]) == AppKey(apps[j]);
  }
}
