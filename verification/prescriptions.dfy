/**
 Prescriptions: construction, attaching treatments, a doctor issuing one to a
 patient, and the patient-side append.
 */
module Prescriptions {
  import opened Treatments
  import opened ClinicState

  /** A constructed prescription together with the clinic that now holds it. */
  datatype Issued = Issued(clinic: Clinic, id: PrescriptionId)

  /** Constructing a prescription: a fresh identity whose record names the
      issuing doctor and the patient and has no treatments yet. Nothing else
      changes; in particular no patient holds it yet. */
  function NewPrescription(c: Clinic, doc: DoctorId, p: PatientId): (r: Issued)
    ensures IsPrescription(r.clinic, r.id) && !IsPrescription(c, r.id)
    ensures r.clinic.scripts[r.id] == Prescription(doc, p, [])
    ensures |r.clinic.scripts| == |c.scripts| + 1 && r.clinic.scripts[..|c.scripts|] == c.scripts
    ensures r.clinic.calendars == c.calendars && r.clinic.appointments == c.appointments
    ensures r.clinic.prescriptions == c.prescriptions && r.clinic.registered == c.registered
  {
    Issued(c.(scripts := c.scripts + [Prescription(doc, p, [])]), |c.scripts|)
  }

  /** The patient-side append of a prescription, with no duplicate check. */
  function PatientAddPrescription(c: Clinic, p: PatientId, id: PrescriptionId): (r: Clinic)
    ensures PrescriptionsOf(r, p) == PrescriptionsOf(c, p) + [id]
    ensures forall q :: q != p ==> PrescriptionsOf(r, q) == PrescriptionsOf(c, q)
    ensures r.calendars == c.calendars && r.appointments == c.appointments
    ensures r.scripts == c.scripts && r.registered == c.registered
    ensures Valid(c) && IsPrescription(c, id) ==> Valid(r)
  {
    c.(prescriptions := c.prescriptions[p := PrescriptionsOf(c, p) + [id]])
  }

  /** Doctor `doc` issues a prescription to patient `p`: a fresh, empty
      prescription naming `doc` is constructed and appended to the end of
      `p`'s prescription list, before any treatment is attached. */
  function CreatePrescription(c: Clinic, doc: DoctorId, p: PatientId): (r: Issued)
    ensures |r.clinic.scripts| == |c.scripts| + 1 && r.clinic.scripts[..|c.scripts|] == c.scripts
    ensures IsPrescription(r.clinic, r.id) && !IsPrescription(c, r.id)
    ensures r.clinic.scripts[r.id].doctor == doc && r.clinic.scripts[r.id].patient == p
    ensures r.clinic.scripts[r.id].treatments == []
    ensures PrescriptionsOf(r.clinic, p) == PrescriptionsOf(c, p) + [r.id]
    ensures forall q :: q != p ==> PrescriptionsOf(r.clinic, q) == PrescriptionsOf(c, q)
    ensures Valid(c) ==> Valid(r.clinic) && forall q :: r.id !in PrescriptionsOf(c, q)
    ensures r.clinic.calendars == c.calendars && r.clinic.appointments == c.appointments
    ensures r.clinic.registered == c.registered
  {
    var made := NewPrescription(c, doc, p);
    assert Valid(c) ==> Valid(made.clinic) by {
      if Valid(c) {
        forall q, i | 0 <= i < |PrescriptionsOf(made.clinic, q)|
          ensures IsPrescription(made.clinic, PrescriptionsOf(made.clinic, q)[i])
        {
          assert IsPrescription(c, PrescriptionsOf(c, q)[i]);
        }
      }
    }
    Issued(PatientAddPrescription(made.clinic, p, made.id), made.id)
  }

  /** Attaching treatment `t` to prescription `id`: its treatment list gains
      `t` at the end, and every other prescription and all lists stay as they were. */
  function AddTreatment(c: Clinic, id: PrescriptionId, t: Treatment): (r: Clinic)
    requires IsPrescription(c, id)
    ensures |r.scripts| == |c.scripts|
    ensures r.scripts[id].treatments == c.scripts[id].treatments + [t]
    ensures r.scripts[id].doctor == c.scripts[id].doctor && r.scripts[id].patient == c.scripts[id].patient
    ensures forall j :: 0 <= j < |c.scripts| && j != id ==> r.scripts[j] == c.scripts[j]
    ensures r.calendars == c.calendars && r.appointments == c.appointments
    ensures r.prescriptions == c.prescriptions && r.registered == c.registered
  {
    var pre := c.scripts[id];
    c.(scripts := c.scripts[id := pre.(treatments := pre.treatments + [t])])
  }

  /** Attaching several treatments one after another. */
  function AddTreatments(c: Clinic, id: PrescriptionId, ts: seq<Treatment>): Clinic
    requires IsPrescription(c, id)
    decreases |ts|
  {
    if |ts| == 0 then c
    else AddTreatments(AddTreatment(c, id, ts[0]), id, ts[1..])
  }

  /** Treatments attached in sequence keep their insertion order, and no other
      prescription changes. */
  lemma {:induction false} AddTreatmentsInOrder(c: Clinic, id: PrescriptionId, ts: seq<Treatment>)
    requires IsPrescription(c, id)
    ensures var r := AddTreatments(c, id, ts);
            && |r.scripts| == |c.scripts|
            && r.scripts[id] == c.scripts[id].(treatments := c.scripts[id].treatments + ts)
            && (forall j :: 0 <= j < |c.scripts| && j != id ==> r.scripts[j] == c.scripts[j])
            && r.prescriptions == c.prescriptions && r.registered == c.registered
    decreases |ts|
  {
    if |ts| > 0 {
      var c1 := AddTreatment(c, id, ts[0]);
      AddTreatmentsInOrder(c1, id, ts[1..]);
      assert c.scripts[id].treatments + [ts[0]] + ts[1..] == c.scripts[id].treatments + ts;
    }
  }

  /** Attaching treatments keeps the object graph well formed. */
  lemma AddTreatmentKeepsValid(c: Clinic, id: PrescriptionId, t: Treatment)
    requires Valid(c) && IsPrescription(c, id)
    ensures Valid(AddTreatment(c, id, t))
  {
    var r := AddTreatment(c, id, t);
    forall q, i | 0 <= i < |PrescriptionsOf(r, q)|
      ensures IsPrescription(r, PrescriptionsOf(r, q)[i])
    {
      assert IsPrescription(c, PrescriptionsOf(c, q)[i]);
    }
  }
}
