/**
 The clinic's in-memory object graph as one immutable value.

 Object identity is made explicit: patients and doctors are integer ids, and a
 prescription is an index into an arena of prescription records, so a fresh
 prescription is the next free index. A patient or doctor that has no entry in
 a map owns an empty list, just as a freshly constructed object does.
 */
module ClinicState {
  import opened Treatments

  type PatientId = int
  type DoctorId = int
  /** A prescription's identity: its position in the clinic's arena. */
  type PrescriptionId = nat
  /** A point in time; only exact equality between timestamps is ever used. */
  type Timestamp = int

  /** A booked slot binding one timestamp, one patient and one doctor. */
  datatype Appointment = Appointment(date: Timestamp, patient: PatientId, doctor: DoctorId)

  /** A prescription: the issuing doctor, the patient it was written for and
      its treatments in the order they were added. */
  datatype Prescription = Prescription(doctor: DoctorId, patient: PatientId, treatments: seq<Treatment>)

  datatype Clinic = Clinic(
    calendars: map<DoctorId, seq<Appointment>>,          // each doctor's appointment list
    appointments: map<PatientId, seq<Appointment>>,      // each patient's appointment list
    prescriptions: map<PatientId, seq<PrescriptionId>>,  // each patient's prescription list
    scripts: seq<Prescription>,                          // every prescription ever constructed
    registered: seq<PatientId>                           // the clinic's registered patients
  )

  /** The clinic before anything has happened. */
  const EmptyClinic: Clinic := Clinic(map[], map[], map[], [], [])

  /** Doctor `d`'s calendar, in booking order. */
  function Calendar(c: Clinic, d: DoctorId): seq<Appointment>
  {
    if d in c.calendars then c.calendars[d] else []
  }

  /** Patient `p`'s appointments, in booking order. */
  function AppointmentsOf(c: Clinic, p: PatientId): seq<Appointment>
  {
    if p in c.appointments then c.appointments[p] else []
  }

  /** Patient `p`'s prescriptions, in the order they were added. */
  function PrescriptionsOf(c: Clinic, p: PatientId): seq<PrescriptionId>
  {
    if p in c.prescriptions then c.prescriptions[p] else []
  }

  /** `id` names a prescription that has been constructed. */
  predicate IsPrescription(c: Clinic, id: PrescriptionId)
  {
    id < |c.scripts|
  }

  /** Every id in `ids` names a constructed prescription. */
  predicate AllPrescriptions(c: Clinic, ids: seq<PrescriptionId>)
  {
    forall i :: 0 <= i < |ids| ==> IsPrescription(c, ids[i])
  }

  /** Well-formedness of the object graph: every prescription a patient holds
      is a constructed prescription (the model's counterpart of "references
      point at live objects"). */
  ghost predicate Valid(c: Clinic)
  {
    forall p :: AllPrescriptions(c, PrescriptionsOf(c, p))
  }

  /** No two entries of the list share a timestamp. */
  ghost predicate NoDoubleBooking(cal: seq<Appointment>)
  {
    forall i, j :: 0 <= i < j < |cal| ==> cal[i].date != cal[j].date
  }

  /** The clinic-wide no-double-booking invariant. */
  ghost predicate CalendarsDistinct(c: Clinic)
  {
    forall d :: NoDoubleBooking(Calendar(c, d))
  }

  /** Both sides of every booking agree: each appointment in a doctor's
      calendar belongs to that doctor and is in its patient's list, and each
      appointment in a patient's list belongs to that patient and is in its
      doctor's calendar. */
  ghost predicate BookingsMirrored(c: Clinic)
  {
    && (forall d, i :: 0 <= i < |Calendar(c, d)| ==>
          Calendar(c, d)[i].doctor == d && Calendar(c, d)[i] in AppointmentsOf(c, Calendar(c, d)[i].patient))
    && (forall p, i :: 0 <= i < |AppointmentsOf(c, p)| ==>
          AppointmentsOf(c, p)[i].patient == p && AppointmentsOf(c, p)[i] in Calendar(c, AppointmentsOf(c, p)[i].doctor))
  }
}
