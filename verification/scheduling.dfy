/**
 Booking: a doctor's availability check and the guarded step that records an
 appointment on both the doctor's calendar and the patient's list.

 A doctor is busy only at the exact timestamps already in the calendar; two
 appointments one second apart are both allowed.
 */
module Scheduling {
  import opened ClinicState

  /** A booking's outcome: the resulting clinic and whether it was accepted. */
  datatype Scheduled = Scheduled(clinic: Clinic, accepted: bool)

  /** The doctor whose calendar is `cal` is free at `t`: the calendar is
      scanned from the front and any entry at exactly `t` makes the answer false. */
  function IsAvailable(cal: seq<Appointment>, t: Timestamp): (r: bool)
    ensures r <==> forall i :: 0 <= i < |cal| ==> cal[i].date != t
  {
    if |cal| == 0 then true
    else if cal[0].date == t then false
    else IsAvailable(cal[1..], t)
  }

  /** The doctor-side append, which performs no availability check. */
  function DoctorAddAppointment(c: Clinic, d: DoctorId, a: Appointment): (r: Clinic)
    ensures Calendar(r, d) == Calendar(c, d) + [a]
    ensures forall e :: e != d ==> Calendar(r, e) == Calendar(c, e)
    ensures r.appointments == c.appointments && r.prescriptions == c.prescriptions
    ensures r.scripts == c.scripts && r.registered == c.registered
  {
    c.(calendars := c.calendars[d := Calendar(c, d) + [a]])
  }

  /** The patient-side append. */
  function PatientAddAppointment(c: Clinic, p: PatientId, a: Appointment): (r: Clinic)
    ensures AppointmentsOf(r, p) == AppointmentsOf(c, p) + [a]
    ensures forall q :: q != p ==> AppointmentsOf(r, q) == AppointmentsOf(c, q)
    ensures r.calendars == c.calendars && r.prescriptions == c.prescriptions
    ensures r.scripts == c.scripts && r.registered == c.registered
  {
    c.(appointments := c.appointments[p := AppointmentsOf(c, p) + [a]])
  }

  /** A staff member books patient `p` with doctor `d` at `t`. When the doctor
      is free, `Appointment(t, p, d)` is appended to the doctor's calendar and
      then to the patient's list and the booking is accepted; otherwise
      nothing changes and it is refused. */
  function ScheduleAppointment(c: Clinic, p: PatientId, d: DoctorId, t: Timestamp): (r: Scheduled)
    ensures r.accepted <==> forall i :: 0 <= i < |Calendar(c, d)| ==> Calendar(c, d)[i].date != t
    ensures r.accepted ==>
              && Calendar(r.clinic, d) == Calendar(c, d) + [Appointment(t, p, d)]
              && AppointmentsOf(r.clinic, p) == AppointmentsOf(c, p) + [Appointment(t, p, d)]
    ensures !r.accepted ==> r.clinic == c
    ensures forall e :: e != d ==> Calendar(r.clinic, e) == Calendar(c, e)
    ensures forall q :: q != p ==> AppointmentsOf(r.clinic, q) == AppointmentsOf(c, q)
    ensures r.clinic.prescriptions == c.prescriptions && r.clinic.scripts == c.scripts
    ensures r.clinic.registered == c.registered
  {
    if IsAvailable(Calendar(c, d), t) then
      var a := Appointment(t, p, d);
      Scheduled(PatientAddAppointment(DoctorAddAppointment(c, d, a), p, a), true)
    else
      Scheduled(c, false)
  }

  /** A guarded booking never double-books any doctor. */
  lemma ScheduleKeepsNoDoubleBooking(c: Clinic, p: PatientId, d: DoctorId, t: Timestamp)
    requires CalendarsDistinct(c)
    ensures CalendarsDistinct(ScheduleAppointment(c, p, d, t).clinic)
  {
  }

  /** A guarded booking keeps the two sides of every booking in agreement. */
  lemma ScheduleKeepsBookingsMirrored(c: Clinic, p: PatientId, d: DoctorId, t: Timestamp)
    requires BookingsMirrored(c)
    ensures BookingsMirrored(ScheduleAppointment(c, p, d, t).clinic)
  {
    var r := ScheduleAppointment(c, p, d, t);
    var c' := r.clinic;
    var a := Appointment(t, p, d);
    if r.accepted {
      forall e, i | 0 <= i < |Calendar(c', e)|
        ensures Calendar(c', e)[i].doctor == e && Calendar(c', e)[i] in AppointmentsOf(c', Calendar(c', e)[i].patient)
      {
        var b := Calendar(c', e)[i];
        if e == d && i == |Calendar(c, d)| {
          assert b == a;
          assert AppointmentsOf(c', p)[|AppointmentsOf(c, p)|] == a;
        } else {
          assert b == Calendar(c, e)[i];
          assert b in AppointmentsOf(c, b.patient);
          assert AppointmentsOf(c, b.patient) <= AppointmentsOf(c', b.patient);
        }
      }
      forall q, i | 0 <= i < |AppointmentsOf(c', q)|
        ensures AppointmentsOf(c', q)[i].patient == q && AppointmentsOf(c', q)[i] in Calendar(c', AppointmentsOf(c', q)[i].doctor)
      {
        var b := AppointmentsOf(c', q)[i];
        if q == p && i == |AppointmentsOf(c, p)| {
          assert b == a;
          assert Calendar(c', d)[|Calendar(c, d)|] == a;
        } else {
          assert b == AppointmentsOf(c, q)[i];
          assert b in Calendar(c, b.doctor);
          assert Calendar(c, b.doctor) <= Calendar(c', b.doctor);
        }
      }
    }
  }

  /** After any booking attempt at `t`, the doctor is no longer free at `t`:
      a second booking at the same instant is refused and changes nothing. */
  lemma {:induction false} SameInstantConflicts(c: Clinic, p1: PatientId, p2: PatientId, d: DoctorId, t: Timestamp)
    ensures var r1 := ScheduleAppointment(c, p1, d, t);
            var r2 := ScheduleAppointment(r1.clinic, p2, d, t);
            && !r2.accepted
            && r2.clinic == r1.clinic
            && |Calendar(r2.clinic, d)| == |Calendar(c, d)| + (if r1.accepted then 1 else 0)
  {
    var r1 := ScheduleAppointment(c, p1, d, t);
    if r1.accepted {
      var cal := Calendar(r1.clinic, d);
      assert cal[|cal| - 1].date == t;
    } else {
      var i :| 0 <= i < |Calendar(c, d)| && Calendar(c, d)[i].date == t;
      assert Calendar(r1.clinic, d)[i].date == t;
    }
  }

  /** Two bookings with the same doctor at distinct free instants both succeed
      and land on the calendar in booking order. */
  lemma DistinctInstantsBothBooked(c: Clinic, p1: PatientId, p2: PatientId, d: DoctorId, t1: Timestamp, t2: Timestamp)
    requires t1 != t2
    requires forall i :: 0 <= i < |Calendar(c, d)| ==> Calendar(c, d)[i].date != t1 && Calendar(c, d)[i].date != t2
    ensures var r1 := ScheduleAppointment(c, p1, d, t1);
            var r2 := ScheduleAppointment(r1.clinic, p2, d, t2);
            && r1.accepted && r2.accepted
            && Calendar(r2.clinic, d) == Calendar(c, d) + [Appointment(t1, p1, d), Appointment(t2, p2, d)]
  {
  }

  /** The unguarded doctor-side append can double-book: adding the same
      appointment twice to an empty calendar leaves two entries at one instant. */
  lemma UnguardedAppendCanDoubleBook(d: DoctorId, a: Appointment)
    ensures !NoDoubleBooking(Calendar(DoctorAddAppointment(DoctorAddAppointment(EmptyClinic, d, a), d, a), d))
  {
    var cal := Calendar(DoctorAddAppointment(DoctorAddAppointment(EmptyClinic, d, a), d, a), d);
    assert cal == [a, a];
    assert cal[0].date == cal[1].date;
  }
}
