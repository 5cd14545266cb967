/**
  The records of the practice: users, patients with their growth history,
  appointments and ledger transactions, as declared in types.ts.  Monetary
  amounts, weights and heights are exact reals; dates and timestamps are the
  strings the application stores.
 */
module Types {

  datatype Option<+T> = None | Some(value: T) {
    function GetOr(default: T): T {
      match this
      case Some(v) => v
      case None => default
    }
  }

  /** The four lifecycle states ('Programada', 'Completada', 'Cancelada', 'En curso'). */
  datatype AppointmentStatus = Scheduled | Completed | Cancelled | InProgress

  datatype UserRole = Admin | Doctor

  datatype Sex = Male | Female

  datatype TxType = Income | Expense

  /** A staff member; clinic branding info is not part of this model. */
  datatype User = User(
    id: string,
    name: string,
    email: string,
    role: UserRole,
    specialty: Option<string>,
    password: Option<string>,
    professionalId: Option<string>,
    birthDate: Option<string>,
    photo: Option<string>)

  /** One dated measurement: weight in kg, height in cm. */
  datatype GrowthRecord = GrowthRecord(
    date: string,
    weight: real,
    height: real,
    headCircumference: Option<real>)

  datatype Patient = Patient(
    id: string,
    doctorId: string,
    name: string,
    birthDate: string,
    gender: Sex,
    parentName: string,
    parentPhone: string,
    email: string,
    allergies: seq<string>,
    bloodType: string,
    growthHistory: seq<GrowthRecord>,
    notes: string,
    photo: Option<string>)

  datatype Appointment = Appointment(
    id: string,
    doctorId: string,
    patientId: string,
    patientName: string,
    dateTime: string,
    reason: string,
    status: AppointmentStatus,
    cost: real,
    symptoms: Option<string>,
    physicalExam: Option<string>,
    diagnosis: Option<string>,
    treatment: Option<string>,
    weight: Option<real>,
    height: Option<real>)

  datatype Transaction = Transaction(
    id: string,
    doctorId: string,
    date: string,
    kind: TxType,
    category: string,
    description: string,
    amount: real,
    relatedAppointmentId: Option<string>)

  /** What a screen hands to the application shell when a form is submitted. */
  datatype AppointmentCommand = AddAppointment(app: Appointment) | UpdateAppointment(app: Appointment)

  datatype PatientCommand = AddPatient(patient: Patient) | UpdatePatient(patient: Patient)
}
