/**
 The clinic demo as a concrete scenario: two registered patients, one doctor,
 three booking attempts, two prescriptions and the searches run over them.
 The start time is a parameter, since the demo reads it from the clock.
 */
module Demo {
  import opened Treatments
  import opened ClinicState
  import opened Scheduling
  import opened Prescriptions
  import opened ClinicSystem

  const Maja: PatientId := 1
  const Jula: PatientId := 2
  const Zosia: DoctorId := 10
  const OtherDoctor: DoctorId := 11
  /** The demo encodes instants in seconds. */
  const OneHour: int := 3600

  /** The clinic after registering Maja and Jula and the demo's three
      booking attempts with Zosia, starting at `now`. */
  function AfterBookings(now: Timestamp): (r: Clinic)
    ensures Valid(r) && r.registered == [Maja, Jula] && r.scripts == []
    ensures PrescriptionsOf(r, Maja) == [] && PrescriptionsOf(r, Jula) == []
  {
    var c0 := RegisterPatient(RegisterPatient(EmptyClinic, Maja), Jula);
    var b1 := AddAppointment(c0, Maja, Zosia, now);
    var b2 := AddAppointment(b1.clinic, Jula, Zosia, now);
    AddAppointment(b2.clinic, Jula, Zosia, now + OneHour).clinic
  }

  /** Registration and the three bookings: Maja at `now` is set, Jula at
      `now` clashes with it, Jula an hour later is set; the calendar then
      holds exactly the two accepted appointments in booking order. */
  lemma DemoBookings(now: Timestamp)
    ensures var c0 := RegisterPatient(RegisterPatient(EmptyClinic, Maja), Jula);
            var b1 := AddAppointment(c0, Maja, Zosia, now);
            var b2 := AddAppointment(b1.clinic, Jula, Zosia, now);
            var b3 := AddAppointment(b2.clinic, Jula, Zosia, now + OneHour);
            && b1.report == AppointmentSet
            && b2.report == DoctorBusy
            && b3.report == AppointmentSet
            && b3.clinic == AfterBookings(now)
            && Calendar(b3.clinic, Zosia) == [Appointment(now, Maja, Zosia), Appointment(now + OneHour, Jula, Zosia)]
            && AppointmentsOf(b3.clinic, Jula) == [Appointment(now + OneHour, Jula, Zosia)]
  {
  }

  /** The prescribing steps of the demo, applied to any well-formed clinic:
      Maja gets Ibuprofen and bed rest from Zosia, then Jula gets Ibuprofen
      and Calcium from Zosia. */
  function Prescribe(c: Clinic): (r: Clinic)
    requires Valid(c)
    ensures Valid(r) && r.registered == c.registered
    ensures |PrescriptionsOf(r, Maja)| == |PrescriptionsOf(c, Maja)| + 1
    ensures |PrescriptionsOf(r, Jula)| == |PrescriptionsOf(c, Jula)| + 1
  {
    var p1 := CreatePrescription(c, Zosia, Maja);
    AddTreatmentKeepsValid(p1.clinic, p1.id, Medicine("Ibuprofen"));
    var c1 := AddTreatment(p1.clinic, p1.id, Medicine("Ibuprofen"));
    AddTreatmentKeepsValid(c1, p1.id, Plain("Bed rest"));
    var c2 := AddTreatment(c1, p1.id, Plain("Bed rest"));
    var p2 := CreatePrescription(c2, Zosia, Jula);
    AddTreatmentKeepsValid(p2.clinic, p2.id, Medicine("Ibuprofen"));
    var c3 := AddTreatment(p2.clinic, p2.id, Medicine("Ibuprofen"));
    AddTreatmentKeepsValid(c3, p2.id, Medicine("Calcium"));
    AddTreatment(c3, p2.id, Medicine("Calcium"))
  }

  /** What the demo's prescribing leaves behind: Maja and Jula registered in
      that order, Maja holding prescription 0 (Ibuprofen, then bed rest) and
      Jula prescription 1 (Ibuprofen, then Calcium), both issued by Zosia. */
  ghost predicate DemoShape(c: Clinic)
  {
    && c.registered == [Maja, Jula]
    && PrescriptionsOf(c, Maja) == [0]
    && PrescriptionsOf(c, Jula) == [1]
    && |c.scripts| == 2
    && c.scripts[0] == Prescription(Zosia, Maja, [Medicine("Ibuprofen"), Plain("Bed rest")])
    && c.scripts[1] == Prescription(Zosia, Jula, [Medicine("Ibuprofen"), Medicine("Calcium")])
  }

  /** Issuing the demo's prescriptions on a well-formed clinic in which
      Maja and Jula are registered and no prescription exists yet yields that
      shape: each prescription is fresh, belongs to its patient, and keeps its
      treatments in the order they were attached. */
  lemma DemoPrescriptions(c: Clinic)
    requires Valid(c) && c.registered == [Maja, Jula] && c.scripts == []
    requires PrescriptionsOf(c, Maja) == [] && PrescriptionsOf(c, Jula) == []
    ensures DemoShape(Prescribe(c))
  {
    var p1 := CreatePrescription(c, Zosia, Maja);
    assert p1.id == 0;
    var c1 := AddTreatment(p1.clinic, p1.id, Medicine("Ibuprofen"));
    assert c1.scripts[0].treatments == [] + [Medicine("Ibuprofen")];
    var c2 := AddTreatment(c1, p1.id, Plain("Bed rest"));
    assert c2.scripts[0].treatments == [Medicine("Ibuprofen")] + [Plain("Bed rest")];
    var p2 := CreatePrescription(c2, Zosia, Jula);
    assert p2.id == 1;
    var c3 := AddTreatment(p2.clinic, p2.id, Medicine("Ibuprofen"));
    assert c3.scripts[1].treatments == [] + [Medicine("Ibuprofen")];
    var r := AddTreatment(c3, p2.id, Medicine("Calcium"));
    assert r.scripts[1].treatments == [Medicine("Ibuprofen")] + [Medicine("Calcium")];
    assert r == Prescribe(c);
    assert PrescriptionsOf(r, Maja) == [] + [0];
    assert PrescriptionsOf(r, Jula) == [] + [1];
  }

  /** On the demo's shape, a search is Maja's hits followed by Jula's. */
  lemma DemoHits(c: Clinic, name: string, doc: DoctorId)
    requires Valid(c) && DemoShape(c)
    ensures Hits(c, name, doc)
         == (if doc == Zosia then TreatmentHits(c.scripts[0].treatments, name, Maja) else [])
          + (if doc == Zosia then TreatmentHits(c.scripts[1].treatments, name, Jula) else [])
  {
    assert c.registered[..1] == [Maja] && [Maja][..0] == [];
    assert [0][..0] == [] && [1][..0] == [];
    assert PrescriptionHits(c, [0], name, doc, Maja)
        == (if doc == Zosia then TreatmentHits(c.scripts[0].treatments, name, Maja) else []);
    assert PrescriptionHits(c, [1], name, doc, Jula)
        == (if doc == Zosia then TreatmentHits(c.scripts[1].treatments, name, Jula) else []);
    assert PatientsHits(c, [Maja], name, doc) == PrescriptionHits(c, [0], name, doc, Maja);
  }

  /** The treatment scans over the demo's two treatment lists. */
  lemma DemoTreatmentHits()
    ensures TreatmentHits([Medicine("Ibuprofen"), Plain("Bed rest")], "Ibuprofen", Maja) == [Maja]
    ensures TreatmentHits([Medicine("Ibuprofen"), Plain("Bed rest")], "ibuprofen", Maja) == [Maja]
    ensures TreatmentHits([Medicine("Ibuprofen"), Plain("Bed rest")], "Calcium", Maja) == []
    ensures TreatmentHits([Medicine("Ibuprofen"), Medicine("Calcium")], "Ibuprofen", Jula) == [Jula]
    ensures TreatmentHits([Medicine("Ibuprofen"), Medicine("Calcium")], "ibuprofen", Jula) == [Jula]
    ensures TreatmentHits([Medicine("Ibuprofen"), Medicine("Calcium")], "Calcium", Jula) == [Jula]
  {
  }

  /** Searching the demo's prescriptions: "Ibuprofen" under Zosia reports
      Maja then Jula (in any letter case), "Calcium" reports only Jula, and
      another doctor's search reports nobody. */
  lemma DemoSearchesOn(c: Clinic)
    requires Valid(c) && DemoShape(c)
    ensures Hits(c, "Ibuprofen", Zosia) == [Maja, Jula]
    ensures Hits(c, "ibuprofen", Zosia) == [Maja, Jula]
    ensures Hits(c, "Calcium", Zosia) == [Jula]
    ensures Hits(c, "Ibuprofen", OtherDoctor) == []
  {
    DemoTreatmentHits();
    DemoHits(c, "Ibuprofen", Zosia);
    DemoHits(c, "ibuprofen", Zosia);
    DemoHits(c, "Calcium", Zosia);
    DemoHits(c, "Ibuprofen", OtherDoctor);
  }

  /** The demo in its own order: registration and bookings from `now`,
      then the prescriptions, then the search for "Ibuprofen" under Zosia,
      which reports Maja then Jula; the further query for "Calcium" reports
      only Jula. */
  lemma DemoSearches(now: Timestamp)
    ensures var c := Prescribe(AfterBookings(now));
            && Hits(c, "Ibuprofen", Zosia) == [Maja, Jula]
            && Hits(c, "Calcium", Zosia) == [Jula]
  {
    DemoPrescriptions(AfterBookings(now));
    DemoSearchesOn(Prescribe(AfterBookings(now)));
  }
}
