# Clinic booking and prescription bookkeeping, modelled in Dafny

This project models the decision logic of a small in-memory clinic system
(`src/Main.java`). There are three parts:

- **Booking.** A doctor is free at an instant iff no appointment in the
  doctor's calendar has exactly that timestamp. A staff member's booking
  (`Staff.scheduleAppointment`) and the registry's booking
  (`ClinicSystem.addAppointment`) both do the same guarded step. If the doctor
  is free, an `Appointment(date, patient, doctor)` is appended to the doctor's
  calendar and then to the patient's list. Otherwise nothing changes.
- **Prescriptions.** A doctor issues an empty prescription, which goes to the
  end of the patient's prescription list. Treatments are appended to it in
  order. The registry's `addPrescription` adds a prescription only if that same
  object is not already in the list.
- **Search.** `findPatientsByMedicineAndDoctor` walks the registered patients,
  then each patient's prescriptions issued by the given doctor (compared by
  identity), then each treatment. It reports one hit per treatment that is a
  medicine whose name matches the query ignoring case. It reports
  "No patients found." iff there were no hits.

Representation:

- Java object identity becomes explicit ids. Patients and doctors are `int`s.
  A prescription is an index into an arena of prescription records, so a newly
  constructed prescription is the next free index.
- The whole object graph is one immutable `Clinic` value. It holds maps from
  ids to lists: doctor calendars, patient appointment lists and patient
  prescription lists. It also holds the prescription arena and the
  registered-patient sequence. A patient or doctor with no map entry has an
  empty list, as a freshly constructed object does.
- Every state-changing operation is a pure function that returns the new
  clinic. The search and its two inner scans are methods that return the hits.
- `LocalDateTime` becomes an integer encoding of the instant, and only
  equality is used. The demo counts seconds.
- The search's printed lines become the returned sequence of patient ids (one
  entry per hit) plus the `found` flag.

Modules: `Treatments` (treatment kinds, case-insensitive match),
`ClinicState` (ids, records, state, invariants), `Scheduling` (availability
and guarded booking), `Prescriptions`, `ClinicSystem` (registry entry points
and the search), `Demo` (the driver routine as a scenario).

Behaviour of the code worth knowing:

- The registry is a list. Registering a patient twice makes its hits appear
  twice in every search.
- A treatment's description may be empty; nothing checks it.
- `addPrescription` compares prescriptions by identity, so two distinct
  prescriptions with equal contents are both added.
- The registry's booking writes the guarded step out again instead of calling
  the staff method. Both are modelled, and `ClinicSystem.AddAppointment` is
  proved to behave exactly like `Scheduling.ScheduleAppointment`.

## Model

| member | source | states |
|---|---|---|
| Scheduling.IsAvailable | src/Main.java:153-160 | the doctor is free at `t` iff no calendar entry has date `t` |
| Scheduling.DoctorAddAppointment | src/Main.java:162 | the doctor-side add appends the appointment to that doctor's calendar and changes nothing else |
| Scheduling.PatientAddAppointment | src/Main.java:114 | the patient-side add appends the appointment to that patient's list and changes nothing else |
| Scheduling.ScheduleAppointment | src/Main.java:134-142 | accepted iff no calendar entry is at `t`; if accepted, exactly `Appointment(t, p, d)` is appended to the end of `d`'s calendar and of `p`'s list; if refused, the clinic is unchanged; other doctors, other patients, prescriptions and the registry are unchanged either way |
| Scheduling.ScheduleKeepsNoDoubleBooking | src/Main.java:134-142 | if no doctor's calendar holds two entries at one instant before a guarded booking, none does after it |
| Scheduling.ScheduleKeepsBookingsMirrored | src/Main.java:134-142 | after a guarded booking, every calendar entry belongs to its doctor and is in its patient's list, and every patient entry belongs to its patient and is in its doctor's calendar, provided this held before |
| Scheduling.SameInstantConflicts | src/Main.java:134-142 | after any booking attempt at `t`, a second booking with the same doctor at `t` is refused and changes nothing, so the calendar grows by at most one |
| Scheduling.DistinctInstantsBothBooked | src/Main.java:134-142 | two bookings at distinct free instants are both accepted, and the calendar ends with both appointments in booking order |
| Scheduling.UnguardedAppendCanDoubleBook | src/Main.java:162 | the unguarded doctor-side add can put two entries at the same instant, so the invariant holds only for the guarded entry points |
| Prescriptions.NewPrescription | src/Main.java:69-73 | construction gives a fresh identity whose record has the issuing doctor, the patient and no treatments; no other state changes |
| Prescriptions.PatientAddPrescription | src/Main.java:113 | the patient-side add appends the prescription to that patient's list with no duplicate check and changes nothing else |
| Prescriptions.CreatePrescription | src/Main.java:165-169 | issuing gives a new prescription identity that did not exist before, naming the doctor and the patient, with no treatments; it is appended to the end of the patient's list; on a well-formed clinic no patient held it before |
| Prescriptions.AddTreatment | src/Main.java:75 | the prescription's treatments become the old ones followed by `[t]`; every other prescription and all lists are unchanged |
| Prescriptions.AddTreatmentsInOrder | src/Main.java:75 | attaching treatments one by one leaves them in insertion order after the existing ones |
| Prescriptions.AddTreatmentKeepsValid | src/Main.java:75 | attaching a treatment keeps every held prescription id a constructed prescription |
| ClinicSystem.RegisterPatient | src/Main.java:202 | registering appends the patient to the registry; nothing else changes |
| ClinicSystem.AddAppointment | src/Main.java:205-214 | the registry's booking gives the same clinic as the staff booking; it reports "set" iff that booking is accepted and "busy" iff an entry at `t` exists |
| ClinicSystem.AddPrescription | src/Main.java:233-237 | afterwards the prescription is in the patient's list; if it was already there, nothing changes; otherwise it is appended; other patients are unchanged |
| ClinicSystem.AddPrescriptionIdempotent | src/Main.java:233-237 | adding the same prescription twice gives the same state as adding it once |
| ClinicSystem.AddPrescriptionKeepsNoDuplicates | src/Main.java:233-237 | the registry-level add never puts a prescription in a list twice |
| ClinicSystem.CreatePrescriptionKeepsNoDuplicates | src/Main.java:165-169 | issuing a fresh prescription never duplicates an entry in the patient's list |
| ClinicSystem.ScanTreatments | src/Main.java:254-259 | the treatment loop yields exactly the reference hit sequence for those treatments |
| ClinicSystem.ScanPrescriptions | src/Main.java:252-261 | the prescription loop looks only into prescriptions issued by the doctor and yields exactly the reference hit sequence |
| ClinicSystem.FindPatientsByMedicineAndDoctor | src/Main.java:248-264 | the hits are exactly the in-order concatenation, over registered patients, their prescriptions by `doc` and each matching medicine, of one patient id per hit, with duplicates kept; "No patients found." happens iff there are no hits |
| ClinicSystem.TreatmentHitsMembership | src/Main.java:254-258 | the treatment scan reports only its patient, and reports it iff some treatment is a medicine with the queried name |
| ClinicSystem.PrescriptionHitsMembership | src/Main.java:252-260 | the prescription scan reports its patient iff some prescription issued by the doctor lists a matching medicine |
| ClinicSystem.PatientsHitsMembership | src/Main.java:251-262 | over any patient sequence, a patient is reported iff it is in the sequence and holds a matching prescription from the doctor |
| ClinicSystem.HitsMembership | src/Main.java:248-263 | a patient is reported iff it is registered and one of its prescriptions issued by the doctor lists a medicine with the queried name, ignoring case |
| ClinicSystem.RegisterPatientExtendsSearch | src/Main.java:202 | registering a patient appends exactly that patient's hits to every later search result |
| ClinicSystem.BookingLeavesSearchUnchanged | src/Main.java:248-264 | booking, whether accepted or not, leaves every search result unchanged |
| ClinicSystem.ScanTreatmentsUsesMedicineTest | src/Main.java:255 | a single treatment yields a hit iff it is a medicine whose description equals the query ignoring case; a plain note never does |
| Treatments.EqualsIgnoreCase | src/Main.java:255 | names match iff they have the same length and agree character by character after case folding |
| Treatments.EqualsIgnoreCaseIsFoldEquality | src/Main.java:255 | two names match iff their lower-cased forms are equal |
| Treatments.EqualsIgnoreCaseIsEquivalence | src/Main.java:255 | case-insensitive matching is reflexive, symmetric and transitive |
| Demo.DemoBookings | src/Main.java:278-288 | demo: Maja at `now` is set, Jula at `now` is busy, Jula an hour later is set; Zosia's calendar then holds exactly the two accepted appointments in order |
| Demo.DemoPrescriptions | src/Main.java:292-298 | demo: on a well-formed clinic with Maja and Jula registered and no prescriptions yet, the two issued prescriptions are held by Maja and Jula, both from Zosia, with their treatments in the order they were added |
| Demo.DemoSearchesOn | src/Main.java:302 | demo: on the demo state, the search at line 302 ("Ibuprofen" under Zosia) reports Maja then Jula, and so does the lower-case query; extra queries not run by the demo: "Calcium" reports only Jula, and another doctor's search reports nobody |
| Demo.DemoSearches | src/Main.java:278-302 | demo in its own order (register, book from `now`, prescribe, search): "Ibuprofen" under Zosia reports Maja then Jula; the extra query "Calcium" reports only Jula |

## Left out

- Console output: every `println` line and every `toString` rendering. The
  model keeps which entries are reported and in what order.
- `displayPatientAppointments`, `displayDoctorCalendar` and
  `displayPatientPrescriptions`: they only print the lists in stored order.
  In the model those lists are the `Calendar`, `AppointmentsOf` and
  `PrescriptionsOf` sequences themselves.
- `introduce`, `receiveTreatment`, `performDuties`, `checkVitals` and
  `prescribeMedicine`: they only print and hold no logic.
- The `double` dosage of a medicine: it only affects display, and floating
  point is not modelled.
- `LocalDateTime`: a timestamp is an integer encoding of the instant (at
  whatever resolution the encoding chooses), compared only for equality.
  `LocalDateTime.now()` becomes a parameter of the demo lemmas.
- Treatments.EqualsIgnoreCase: folds only ASCII letters. Java's
  `equalsIgnoreCase` also folds the rest of Unicode.
- Names, ages, roles and conditions of people, and the Nurse and Receptionist
  classes: no logic reads them. Any staff member may book, so the staff
  booking takes no staff argument.
- Null references: the model has no null ids. In `src/Main.java` a null doctor
  throws at once (`isAvailable` at lines 135 and 206, `getName` at line 249).
  A null patient booked at a free instant throws only after the doctor's
  calendar already holds the appointment, leaving a one-sided booking; booked
  at a busy instant it is refused silently. A null prescription passed to
  `addPrescription`, or a null registered patient, is accepted and throws
  later, in the search.
- The `main` driver is not modelled as code. Its steps appear only in the
  `Demo` module's functions and lemmas.
