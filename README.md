# ConsulPed core, modelled in Dafny

ConsulPed is a browser application for a paediatric practice. Doctors keep
patient records with growth histories, book and record consultations, and
see a ledger of income and expenses. An administrator registers the doctors
and sees the whole practice. This project models the logic inside the
application's screens and shell, and proves properties of that model:

- **Record visibility** (`Scope`). An administrator sees every patient,
  appointment and transaction. A doctor sees only their own. With nobody
  logged in, every collection is empty.
- **Appointment cascade** (`Store`). `ClinicStore` is a class over the four
  tables. Adding an appointment books its fee as an income transaction.
  Updating it rewrites the fee and description of the first linked
  transaction. Deleting it removes every linked transaction. All three
  handlers keep the ledger invariant (`LedgerConsistent`): at most one
  transaction per appointment, and each linked amount equals its
  appointment's cost.
- **Growth analytics** (`Growth`). The placeholder median model, the
  five-band percentile classifier, the age in calendar months, the
  body-mass index of the latest record and the badge colours.
- **Patient screen** (`Patients`):
  - the search filter and the consultations listed newest first;
  - the patient record the form builds, including the allergy-text parser;
  - the consultation record, and how it adds a measurement to the growth
    history, re-sorted by date.
- **Appointment screen** (`Appointments`). The record its form builds, with
  the unknown-patient fallback. The newest-first order is an in-place sort
  of the array it is given.
- **Aggregates**:
  - the ledger's type filter and totals (`Finance`);
  - the dashboard's counts and revenue for each role (`Dashboard`);
  - the doctors list, the age in years and the registration record
    (`Users`).
- **Seed records** (`Seed`). The records a fresh installation starts with,
  used as concrete scenarios.

The generic modules are:
- `Seqs`: filter, sum, and keyed `put`/`delete`;
- `Text`: the JavaScript string operations the code relies on;
- `Dates`: ISO date strings and calendar order;
- `Sorting`: the stable insertion sort standing for JavaScript's `Array.prototype.sort`,
  as a function on sequences and as an in-place method on arrays.

Some inputs become parameters:
- values the browser supplies: `Number(...)` is `num`, and
  `new Date(s).getTime()` is `ts`;
- the current time: `new Date().toISOString()` is `nowIso` or `today`;
- generated values: `Date.now()` ids are `freshId` or `stamp`, and
  `Math.floor(Math.random() * 900)` is `k`;
- the answer to `window.confirm` is `confirmed`.

The appointment handlers raise no error for an appointment without a cost
or a patient, and none when an update finds several linked transactions.
The model does the same. An update rewrites the first transaction in the
index, and `FirstLinked` is the linked transaction with the least id.

## Model

| member | source | states |
|---|---|---|
| Scope.Visible | App.tsx:61-69 | a record is visible exactly when someone is logged in who is an administrator or the record's owner |
| Scope.VisiblePatients | App.tsx:61-63 | the patients a screen is given; Scope.AdminSeesAll, Scope.DoctorSeesOwn and Scope.NobodySeesNothing state which patients that is for each viewer |
| Scope.VisibleAppointments | App.tsx:64-66 | the appointments a screen is given; Scope.AdminSeesAll, Scope.DoctorSeesOwn and Scope.NobodySeesNothing state which appointments that is |
| Scope.VisibleTransactions | App.tsx:67-69 | the transactions a screen is given; Scope.AdminSeesAll, Scope.DoctorSeesOwn and Scope.NobodySeesNothing state which transactions that is |
| Scope.AdminSeesAll | App.tsx:61-69 | an administrator's collection is the stored one, unchanged and in order |
| Scope.DoctorSeesOwn | App.tsx:61-69 | a doctor's collection is exactly the records whose `doctorId` is the doctor's id, in stored order |
| Scope.NobodySeesNothing | App.tsx:61-69 | with nobody logged in every visible collection is empty |
| Scope.VisibleConcat | App.tsx:61-69 | visibility is decided per record, so it distributes over concatenation |
| Scope.VisibleShrinks | App.tsx:61-69 | a visible collection is a sub-multiset of the stored one |
| Scope.OwnedBy | components/Dashboard.tsx:37-38 | the records owned by a doctor are exactly those whose `doctorId` is that id |
| Store.IncomeFor | App.tsx:120-129 | the booked transaction is an income with id "t-" and the appointment's id, linked to the appointment, owned by its doctor, in category "Consulta" with the fee description, carrying the appointment's cost and dated by the part of its date-time before the first `T` |
| Store.FirstLinked | App.tsx:137 | the lookup finds a linked transaction with the least id, and finds none exactly when none is linked |
| Store.SyncLinked | App.tsx:137-143 | an update leaves every transaction's id and link in place and keeps the ledger's length |
| Store.WithoutLinked | App.tsx:150 | the bulk delete keeps exactly the transactions not linked to the id, and keeps ids unique |
| Store.ClinicStore.constructor | db.ts:16-21 | a store starts from tables with unique primary keys and a consistent ledger |
| Store.ClinicStore.AddAppointment | App.tsx:118-132 | on fresh keys the appointment and exactly one income transaction are appended; a duplicate appointment id changes nothing; a duplicate transaction id stores only the appointment; patients and users never change; the invariant holds afterwards |
| Store.ClinicStore.UpdateAppointment | App.tsx:134-145 | the appointment is put by id, the ledger is rewritten by `SyncLinked`, nothing else changes, and the invariant holds afterwards |
| Store.ClinicStore.DeleteAppointment | App.tsx:147-153 | a confirmed delete drops the appointment and every linked transaction; an unconfirmed one changes nothing; the invariant holds afterwards |
| Store.SyncKeepsKeys | App.tsx:139-142 | rewriting the linked transaction keeps transaction ids unique |
| Store.UnstoredUnlinked | App.tsx:118-130 | in a consistent store no transaction is linked to an appointment id that is not stored |
| Store.AtMostOneFilter | App.tsx:150 | removing transactions keeps "at most one transaction per appointment" |
| Store.AddKeepsConsistent | App.tsx:118-130 | adding a fresh appointment, with or without its transaction, keeps the ledger consistent |
| Store.UpdateKeepsConsistent | App.tsx:134-143 | updating an appointment and its linked transaction keeps the ledger consistent, even when the cost changes |
| Store.DeleteKeepsConsistent | App.tsx:147-151 | deleting an appointment with its linked transactions keeps the ledger consistent |
| Store.AddThenDelete | App.tsx:118-151 | adding an appointment and then deleting it restores both tables exactly |
| Store.SyncLinkedEffect | App.tsx:137-143 | an update gives the least-id linked transaction the new cost and description and keeps its other fields; every other transaction is untouched, so with no link the ledger is unchanged |
| Store.LinkedAmountIsCost | App.tsx:127 | in a consistent store a transaction linked to a stored appointment has that appointment's cost as its amount |
| Seqs.Put | App.tsx:135 | `put` replaces the record with the same key or appends it; exactly the other records remain and keys stay unique |
| Seqs.DeleteKey | App.tsx:149 | `delete` keeps exactly the records with another key and keeps keys unique |
| Seqs.DeleteKeyAppended | App.tsx:149 | deleting the key of a record just added gives the table back |
| Text.BeforeFirst | App.tsx:123 | `s.split('T')[0]` is the longest prefix of `s` without a `T`, followed in `s` by a `T` if it is shorter |
| Text.BeforeFirstStops | components/Dashboard.tsx:25 | the date part of `day + "T" + rest` is `day` when `day` has no `T` |
| Text.BeforeFirstWithout | App.tsx:123 | a string without `T` is its own date part |
| Text.Split | components/PatientManager.tsx:138 | `split(',')` gives at least one piece and no piece holds a comma |
| Text.JoinSplit | components/PatientManager.tsx:138 | joining the pieces of a split with the separator gives the string back |
| Text.SplitJoin | components/PatientManager.tsx:138 | splitting comma-free pieces joined by commas gives the pieces back |
| Text.Trim | components/PatientManager.tsx:138 | `trim()` gives the slice left after removing leading and trailing white space, and the result neither starts nor ends with white space |
| Text.TrimStart | components/PatientManager.tsx:138 | removing leading white space leaves a suffix that does not start with white space |
| Text.TrimEnd | components/PatientManager.tsx:138 | removing trailing white space leaves a prefix that does not end with white space |
| Text.TrimKeepsTrimmed | components/PatientManager.tsx:138 | trimming text without surrounding white space changes nothing |
| Text.Lower | components/PatientManager.tsx:63-64 | `toLowerCase()` keeps the length, leaves no capital letter, moves each ASCII or Latin-1 capital 32 code points down to its small letter and keeps every other character |
| Text.LowerIdempotent | components/PatientManager.tsx:63-64 | lowercasing twice is lowercasing once |
| Text.ContainsOccurs | components/PatientManager.tsx:63-64 | `includes` holds exactly when the term occurs at some position |
| Text.ContainsEmpty | components/PatientManager.tsx:63-64 | every string includes the empty term |
| Text.StrLeReflexive | components/PatientManager.tsx:181 | code-point order is reflexive |
| Text.StrLeTotal | components/PatientManager.tsx:181 | any two strings are comparable |
| Text.StrLeTransitive | components/PatientManager.tsx:181 | code-point order is transitive |
| Text.StrLeAntisymmetric | components/PatientManager.tsx:181 | strings in both orders are equal |
| Text.NatToString | components/UserManager.tsx:44 | the rendering of a number is its shortest decimal digit string, with no leading zero, and reads back as the number |
| Text.DigitsRoundTrip | components/UserManager.tsx:44 | the zero-padded digits of a number below `10^w` read back as that number |
| Text.ValueRoundTrip | components/UserManager.tsx:44 | a digit string is the zero-padded rendering of its value |
| Text.DigitsValueConcat | components/UserManager.tsx:52 | appending digit text multiplies the value by a power of ten and adds the appended text's value |
| Dates.ParseIsoDate | components/PatientManager.tsx:74-76 | a date parses exactly when it has the `YYYY-MM-DD` shape (optionally followed by `T`) and its month and day are in range |
| Dates.ParseFormat | components/PatientManager.tsx:74-76 | parsing a formatted date gives the date back |
| Dates.FormatParse | components/PatientManager.tsx:74-76 | a ten-character date the parser accepts is the formatting of its result |
| Dates.FormatOrder | components/PatientManager.tsx:181 | formatted dates compare as strings exactly as they compare on the calendar |
| Dates.IsoStringOrder | components/PatientManager.tsx:181 | on well-formed `YYYY-MM-DD` strings `localeCompare` order is calendar order |
| Dates.MonthIndexMonotone | components/PatientManager.tsx:76 | calendar order and month-index order agree up to the day |
| Sorting.Insert | components/AppointmentManager.tsx:86 | inserting one element lengthens the sequence by one |
| Sorting.InsertPermutes | components/AppointmentManager.tsx:86 | inserting adds exactly that element to the multiset |
| Sorting.InsertSorted | components/AppointmentManager.tsx:86 | inserting into a sorted sequence keeps it sorted |
| Sorting.SortBy | components/AppointmentManager.tsx:86 | the insertion sort keeps the length |
| Sorting.SortByPermutes | components/AppointmentManager.tsx:86 | the insertion sort is a permutation |
| Sorting.SortBySorted | components/AppointmentManager.tsx:86 | under a total preorder the result is sorted |
| Sorting.SortByOfSorted | components/AppointmentManager.tsx:86 | an already sorted sequence is left unchanged |
| Sorting.SortByAppend | components/PatientManager.tsx:181 | sorting a sorted sequence with one element appended inserts that element behind every element not after it |
| Sorting.SortByPrefix | components/AppointmentManager.tsx:86 | sorting one element more is inserting it into the sorted prefix |
| Sorting.InsertKeepsTies | components/AppointmentManager.tsx:86 | inserting an element keeps the order of the elements satisfying a test, and puts the new one behind them when it satisfies the test and each of them may precede it |
| Sorting.SortByStable | components/AppointmentManager.tsx:86 | the sort is stable: under a total preorder the elements tied with any `x` come out in the order they went in |
| Sorting.SortInPlace | components/AppointmentManager.tsx:86 | `Array.prototype.sort` leaves the array holding the insertion sort of its old contents |
| Sorting.InsertAt | components/AppointmentManager.tsx:86 | one pass of the in-place sort inserts the next element into the sorted prefix and leaves the rest of the array alone |
| Sorting.ShiftRight | components/AppointmentManager.tsx:86 | the elements the new one must not follow move up one place, the rest of the prefix stays, and the gap left is where insertion puts the new element |
| Growth.WhoMedian | components/PatientManager.tsx:18-29 | the placeholder median model; Growth.MedianIncreasing, Growth.MedianBySex and Growth.MedianNonZero state how it varies with age and sex and that it is never zero |
| Growth.Deviation | components/PatientManager.tsx:32 | the percentage deviation from the median; Growth.DeviationMonotone and Growth.PercentileBands state how it orders values and bands them |
| Growth.MedianIncreasing | components/PatientManager.tsx:18-29 | height and weight medians rise strictly with age for each sex; the BMI median is flat |
| Growth.MedianBySex | components/PatientManager.tsx:18-29 | girls' height and weight medians are below boys' at every age |
| Growth.MedianNonZero | components/PatientManager.tsx:18-29 | no whole number of months gives a zero median |
| Growth.Percentile | components/PatientManager.tsx:31-38 | the classifier only returns 3, 15, 50, 85 or 97; a zero median gives the IEEE outcome |
| Growth.PercentileBands | components/PatientManager.tsx:31-38 | each band is a left-closed interval of the percentage deviation, both directions |
| Growth.PercentileAtMedian | components/PatientManager.tsx:31-38 | a value on the median is in band 50 |
| Growth.DeviationMonotone | components/PatientManager.tsx:32 | for a positive median the deviation grows with the value |
| Growth.PercentileMonotone | components/PatientManager.tsx:31-38 | for a positive median a larger value never gets a lower band |
| Growth.AgeInMonths | components/PatientManager.tsx:73-77 | `getAgeInMonths`; Growth.AgeIsMonthDifference, Growth.AgeIgnoresDay and Growth.AgeNonNegative state that it is a month-index difference, blind to the day and non-negative after birth |
| Growth.RecordAge | components/PatientManager.tsx:73-82 | the age of the latest record, absent where a date does not parse; Growth.AnalysisAtAge states the age used for parseable dates and Growth.PercentileAtAge the band an unparseable one gives |
| Growth.AgeIsMonthDifference | components/PatientManager.tsx:73-77 | the age in months is the difference of the two month indices |
| Growth.AgeIgnoresDay | components/PatientManager.tsx:73-77 | two targets in the same month give the same age |
| Growth.AgeNonNegative | components/PatientManager.tsx:73-77 | a target on or after the birth date has a non-negative age |
| Growth.Bmi | components/PatientManager.tsx:84-85 | the index times the squared height in metres is the weight; there is none for a zero height |
| Growth.PercentileAtAge | components/PatientManager.tsx:83-94 | an unparseable date (NaN median) puts the weight and height in band 97 |
| Growth.CurrentAnalysis | components/PatientManager.tsx:79-97 | there is no analysis exactly when no patient is selected or the history is empty |
| Growth.AnalysisUsesLatest | components/PatientManager.tsx:79-97 | only the latest record, the birth date and the sex enter the analysis |
| Growth.AnalysisAtAge | components/PatientManager.tsx:82-95 | with parseable dates the weight and height bands are those of the medians at the latest record's age in months; with a nonzero height the BMI is that of the latest record and its band is against the flat median 16 |
| Growth.PercentileTone | components/PatientManager.tsx:192-196 | `getPercentileColor`; Growth.ToneOfBands states which bands are green, amber and red |
| Growth.ToneOfBands | components/PatientManager.tsx:192-196 | green is the middle band, amber the bands next to it, red the extremes |
| Growth.Evaluation | components/PatientManager.tsx:286 | "Normal" exactly for a BMI in band 50, "--" without an analysis |
| Patients.MatchesSearch | components/PatientManager.tsx:62-65 | the search test on one patient; Patients.SearchPatients, Patients.SearchIgnoresCase and Patients.SearchFindsName state what it keeps |
| Patients.SearchPatients | components/PatientManager.tsx:62-65 | a patient is listed exactly when it is stored and its lowercased name or parent's name contains the lowercased term |
| Patients.SearchEmptyKeepsAll | components/PatientManager.tsx:62-65 | an empty search lists every patient in order |
| Patients.SearchIgnoresCase | components/PatientManager.tsx:62-65 | lowercasing the term first lists the same patients |
| Patients.SearchFindsName | components/PatientManager.tsx:62-65 | a stored patient whose name or parent's name contains the term is listed |
| Patients.PatientAppointments | components/PatientManager.tsx:67-71 | the consultations listed for the selection; Patients.PatientAppointmentsSpec states their contents and order |
| Patients.PatientAppointmentsSpec | components/PatientManager.tsx:67-71 | without a selection the list is empty; otherwise it holds exactly the patient's appointments, each as often as stored, newest first |
| Patients.TrimAll | components/PatientManager.tsx:138 | every piece is trimmed in place |
| Patients.ParseAllergies | components/PatientManager.tsx:138 | every allergy is non-empty, has no surrounding white space and no comma |
| Patients.ParseAllergiesEmpty | components/PatientManager.tsx:138 | blank text gives no allergies |
| Patients.ParseAllergiesJoin | components/PatientManager.tsx:138 | parsing a comma-joined list of clean allergies gives the list back |
| Patients.BuildPatientAsWritten | components/PatientManager.tsx:128-141 | the record the code builds; Patients.EditClearsAllergies and Seed.EditSeedPatientAsWritten state what an edit loses, Patients.BuildersAgreeOnFullForm where it agrees with the corrected builder |
| Patients.BuildPatient | components/PatientManager.tsx:128-141 | the corrected record builder; Patients.BuildPatientSpec states the record it gives |
| Patients.EditClearsAllergies | components/PatientManager.tsx:138-139 | as written, saving a form without allergy and notes fields leaves the record with no allergies and no notes (the model's empty string for the source's `null`) |
| Patients.BuildPatientSpec | components/PatientManager.tsx:128-141 | the record belongs to the current doctor; an edit keeps the id and growth history, and the allergies and notes where the form has no such field; a new patient gets the fresh id and no history |
| Patients.BuildersAgreeOnFullForm | components/PatientManager.tsx:128-141 | where the form has both fields, the corrected builder is the builder as written |
| Patients.SubmitPatient | components/PatientManager.tsx:143-146 | an edit dispatches an update and a new patient an add, each carrying the built record (with the corrected builder) |
| Patients.BuildConsultation | components/PatientManager.tsx:162-177 | the consultation record; Patients.ConsultationSpec states its status, patient, owner and id |
| Patients.ConsultationSpec | components/PatientManager.tsx:162-177 | a consultation is completed, for the selected patient under their name, by the current doctor, and keeps its id when edited |
| Patients.DateOrderIsPreorder | components/PatientManager.tsx:181 | `localeCompare` on dates is a total preorder |
| Patients.GrowthAfterConsultation | components/PatientManager.tsx:179-183 | the patient is updated exactly when weight and height are both non-zero, and only the growth history changes |
| Patients.WithRecord | components/PatientManager.tsx:179-181 | the history with a new measurement, re-sorted by date; Patients.WithRecordSpec, Patients.NewestRecordIsLatest and Patients.WithRecordChronological state its contents and order |
| Patients.WithRecordSpec | components/PatientManager.tsx:180-181 | the new history is one longer, holds the old records plus the new one (no de-duplication) and is in date order; a sorted history gets the record inserted |
| Patients.NewestRecordIsLatest | components/PatientManager.tsx:180-181 | a record dated on or after every record already in the history becomes the last one |
| Patients.WithRecordChronological | components/PatientManager.tsx:180-181 | with well-formed dates the new history is in calendar order |
| Patients.SubmitConsultation | components/PatientManager.tsx:153-186 | nothing happens without a selected patient; otherwise there is one appointment callback (update exactly when editing) and a growth update exactly when weight and height are non-zero |
| Patients.BlankMeasureKeepsPatient | components/PatientManager.tsx:158-179 | with `Number("")` read as 0, a blank weight or height field leaves the patient untouched |
| Appointments.FindPatient | components/AppointmentManager.tsx:35 | `find` gives the first patient with the id, and nothing exactly when none has it |
| Appointments.PatientNameFor | components/AppointmentManager.tsx:34-41 | the patient name an appointment carries; Appointments.PatientNameSpec states the name and the fallback |
| Appointments.BuildAppointment | components/AppointmentManager.tsx:38-53 | the appointment record; Appointments.BuildIdentity and Appointments.PatientNameSpec state its id, owner, name and optional measurements |
| Appointments.PatientNameSpec | components/AppointmentManager.tsx:34-42 | the record carries the first matching patient's name, or "Desconocido" when no patient matches |
| Appointments.BuildIdentity | components/AppointmentManager.tsx:38-53 | an edit keeps the id and owner; a create takes the fresh id and current doctor; weight and height are absent exactly when their fields are blank |
| Appointments.SubmitAppointment | components/AppointmentManager.tsx:55-56 | an edit dispatches exactly one update and a create exactly one add |
| Appointments.NewerOrSameIsPreorder | components/AppointmentManager.tsx:86 | the comparator is a total preorder |
| Appointments.NewestFirst | components/AppointmentManager.tsx:86 | the newest-first listing; Appointments.NewestFirstSpec and Appointments.SortNewestFirst state its contents and order |
| Appointments.NewestFirstSpec | components/AppointmentManager.tsx:86 | the listing is a permutation of the appointments with later date-times first, and a listing already in that order is unchanged |
| Appointments.NewestFirstKeepsTies | components/AppointmentManager.tsx:86 | appointments at the same instant are listed in the order they were given |
| Appointments.SortNewestFirst | components/AppointmentManager.tsx:86 | sorting in place leaves the array holding the newest-first order of its old contents |
| Finance.FilteredTransactions | components/FinancialManager.tsx:12 | the listed transactions; Finance.FilterAllIsIdentity and Finance.FilterByKind state what each filter lists |
| Finance.TotalIncome | components/FinancialManager.tsx:13 | the income card; Finance.KindsPartition, Finance.TotalsAdditive and Finance.NetIsSignedSum state what it adds up |
| Finance.TotalExpense | components/FinancialManager.tsx:14 | the expense card; Finance.KindsPartition, Finance.TotalsAdditive and Finance.NetIsSignedSum state what it adds up |
| Finance.NetBalance | components/FinancialManager.tsx:21 | the net card; Finance.NetIsSignedSum and Finance.CardsIgnoreFilter state that it is the signed sum of the ledger, whatever the filter |
| Finance.FilterAllIsIdentity | components/FinancialManager.tsx:12 | the "all" filter lists the transactions unchanged |
| Finance.FilterByKind | components/FinancialManager.tsx:12 | a type filter lists exactly the transactions of that type, in order |
| Finance.KindsPartition | components/FinancialManager.tsx:12-14 | the income and expense lists partition the ledger, and the two totals add up to the sum of all amounts |
| Finance.NetIsSignedSum | components/FinancialManager.tsx:21 | the net balance is the sum of incomes minus the sum of expenses, taken over the ledger |
| Finance.TotalsAdditive | components/FinancialManager.tsx:13-14 | the totals of two ledgers together are the sums of their totals |
| Finance.CardsIgnoreFilter | components/FinancialManager.tsx:12-21 | changing the filter changes only the list; the cards are the same and net is income minus expense |
| Dashboard.TodayStr | components/Dashboard.tsx:25 | today's date part; Dashboard.TodayIsSameDay and Text.BeforeFirst state what it keeps of the time stamp |
| Dashboard.TodayAppointments | components/Dashboard.tsx:25-26 | the appointments of the day are exactly those whose date-time starts with today's date |
| Dashboard.TodayIsSameDay | components/Dashboard.tsx:25-26 | for a `YYYY-MM-DDT…` date-time, starting with the day means having that date part |
| Dashboard.MonthlyRevenue | components/Dashboard.tsx:27-29 | the revenue card; Dashboard.RevenueCountsIncomeOnly and Dashboard.RevenueIgnoresDates state what it adds up |
| Dashboard.TotalDoctors | components/Dashboard.tsx:32 | the doctors card; Users.Doctors states that the list counted holds exactly the users with role Doctor |
| Dashboard.RevenueCountsIncomeOnly | components/Dashboard.tsx:27-29 | an expense adds nothing to the revenue and an income adds its amount |
| Dashboard.RevenueIgnoresDates | components/Dashboard.tsx:27-29 | there is no month filter: re-dating transactions leaves the revenue unchanged |
| Dashboard.StatsOf | components/Dashboard.tsx:35-39 | one entry per doctor, in order, with that doctor's name and counts |
| Dashboard.DoctorStats | components/Dashboard.tsx:33-39 | the per-doctor table; Dashboard.DoctorStatsSpec and Dashboard.StatsOf state its entries |
| Dashboard.DoctorStatsSpec | components/Dashboard.tsx:32-39 | there are as many entries as doctors, and each entry's counts are what that doctor sees when logged in |
| Dashboard.DashboardFor | App.tsx:169-178 | the dashboard each role is shown; Dashboard.DashboardScope states which records its cards count |
| Dashboard.DashboardScope | App.tsx:169-178 | an administrator's cards count the whole store; a doctor's count their own patients, list their own appointments of the day and add up their own income |
| Users.Doctors | components/UserManager.tsx:15 | the doctors list holds exactly the users with role Doctor |
| Users.DoctorsConcat | components/UserManager.tsx:15 | the filter keeps user order |
| Users.CalculateAge | components/UserManager.tsx:17-27 | "N/A" exactly without a birth date, NaN exactly for an unparseable one, otherwise the age from the birthday rule |
| Users.YearsBetween | components/UserManager.tsx:21-25 | the birthday rule; Users.YearsAreBirthdaysReached, Users.BirthdayGivesYearDifference and Users.DayBeforeBirthday state the age it gives |
| Users.YearsAreBirthdaysReached | components/UserManager.tsx:21-25 | for someone born on or before today the age is the number of birthdays reached: the n-th is not after today and the next one is |
| Users.BirthdayGivesYearDifference | components/UserManager.tsx:23 | on the birthday itself the age is the year difference |
| Users.DayBeforeBirthday | components/UserManager.tsx:23-24 | the day before the birthday the age is one less |
| Users.PasswordAsWritten | components/UserManager.tsx:52 | the password as the code writes it; Users.PasswordAsWrittenDigits and Users.PasswordAsWrittenExample state what it gives |
| Users.PasswordAsWrittenDigits | components/UserManager.tsx:52 | as written, the password's digits read `1000 * k + 100`, at least four digits |
| Users.PasswordAsWrittenExample | components/UserManager.tsx:52 | as written, a draw of 523 gives "doc523100" |
| Users.GeneratedPassword | components/UserManager.tsx:52 | the intended password is "doc" and three digits reading `k + 100`, between 100 and 999 |
| Users.NewUser | components/UserManager.tsx:43-53 | every registered user is a doctor (with the corrected password) |
| Users.NewUserIsListedDoctor | components/UserManager.tsx:43-54 | a new user's id is "u-" and the time stamp's digits, and the new user joins the end of the doctors list |
| Seed.SeedIsConsistent | constants.tsx:38-82 | the seeded tables have unique keys and a consistent ledger |
| Seed.SeedDoctors | constants.tsx:3-36 | the seeded doctors are Dr. Paz and Dr. Gómez, in that order |
| Seed.SeedDashboards | constants.tsx:58-82 | on the seeding day Dr. Paz's dashboard shows the seeded appointment, one patient and 800 revenue; Dr. Gómez's is empty |
| Seed.MateoBirthDate | constants.tsx:43 | the seeded birth date parses to 15 May 2021 |
| Seed.MateoLatestDate | constants.tsx:52 | the latest seeded record's date parses to 15 November 2021 |
| Seed.MateoAnalysis | constants.tsx:43-53 | at six months with 7.2 kg and 68 cm the weight and height are in band 97 and the BMI in band 50 |
| Seed.EditSeedPatientAsWritten | constants.tsx:39-55 | as written, re-saving the seeded patient drops his one allergy and his notes |
| Seed.EditSeedPatientCorrected | constants.tsx:38-56 | the corrected builder gives the seeded patient back unchanged |

## Left out

- The login screen, session persistence, the profile editor, the AI assistant and its network service, the layout and the tab routing are not part of this model. The exception is the collections the shell hands to the dashboard (App.tsx:169-178).
- The shell's patient and user handlers (App.tsx:83-116) are single `add`/`put`/`delete` calls. They are not modelled; `Seqs.Put` and `Seqs.DeleteKey` give their effect on a table.
- `async`/`await` and the `refreshData` reload are left out. Each handler is one atomic step on the store.
- Dexie is modelled as one sequence per table in insertion order. `toArray` returns rows in key order; that order is not modelled.
- IEEE-754 arithmetic is replaced by exact reals. A zero divisor and a NaN from an unparseable date are mapped to the band the comparisons give. `toFixed(1)` on the BMI is not modelled.
- `Number(...)` and `new Date(s).getTime()` are opaque parameters, so the meaning of a malformed number or date-time is not modelled.
- JavaScript `Date` parsing is replaced by a `YYYY-MM-DD` parser. It checks the ten-character date and that a `T` follows, but accepts any text after the `T`: "2021-05-15Tfoo" parses as 15 May 2021, where `new Date` gives an invalid date. It also accepts some days the calendar lacks, such as 31 April, where `Date` rolls over into the next month. Time zones are not modelled: dates are read as UTC, like `toISOString`.
- Users.CalculateAge: `new Date(birthDate)` also accepts formats other than `YYYY-MM-DD`. The model reports NaN for every string the date parser rejects.
- `toLowerCase` is modelled for ASCII and Latin-1 capital letters only.
- `localeCompare` is modelled as code-point order (`Text.StrLe` compares Dafny characters, which are Unicode scalar values). A locale's collation is not modelled.
- Text.StrLe: IndexedDB orders keys by UTF-16 code units, which differs from code-point order when a character from U+E000 to U+FFFF meets one above U+FFFF (the latter's surrogate pair sorts first in UTF-16). `Store.FirstLinked` picks the least id in code-point order, so for ids mixing such characters it may name a different transaction than Dexie's `first()`.
- Patients.BuildPatientAsWritten: a form without a notes field gives `notes` as `null` in the source; the model stores the empty string, since nothing in the source reads `notes`.
- The PDF export, e-mail and print stubs, the fixed chart data and the constant vaccines card are left out.
- The random draw and the clock are parameters, so the model states nothing about their distribution.

## Findings

| source | as written | input that shows it | evidently intended | confidence | as-written member | corrected member |
|---|---|---|---|---|---|---|
| components/UserManager.tsx:52 | `'doc' + Math.floor(Math.random() * 900) + 100` concatenates from the left, so the number 100 is appended as the text "100" | a draw of 523 gives "doc523100" | "doc" followed by a three-digit number from 100 to 999 ("doc623") | high (not executed) | Users.PasswordAsWrittenExample | Users.GeneratedPassword |
| components/PatientManager.tsx:138-139 | the patient form (lines 366-423) has no allergy or notes input, so saving an edit stores no allergies and no notes | re-saving seed patient '1' (allergic to "Penicilina") unchanged | an edit keeps the allergies and notes the form does not show | high (not executed) | Seed.EditSeedPatientAsWritten | Patients.BuildPatientSpec |

The rest of the model uses the corrected definitions. `Patients.SubmitPatient` builds the record with `Patients.BuildPatient`. `Users.NewUser` sets the password with `Users.GeneratedPassword`.
