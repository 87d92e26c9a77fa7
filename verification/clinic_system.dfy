/**
 The clinic registry: registering patients, the registry-level booking and
 prescription entry points, and the search for patients who received a given
 medicine from a given doctor.
 */
module ClinicSystem {
  import opened Treatments
  import opened ClinicState
  import opened Scheduling
  import opened Prescriptions

  /** The line the registry reports after a booking attempt. */
  datatype BookingReport = AppointmentSet | DoctorBusy

  datatype Booked = Booked(clinic: Clinic, report: BookingReport)

  /** Registering a patient appends it to the search universe; nothing else changes. */
  function RegisterPatient(c: Clinic, p: PatientId): (r: Clinic)
    ensures r.registered == c.registered + [p]
    ensures r.calendars == c.calendars && r.appointments == c.appointments
    ensures r.prescriptions == c.prescriptions && r.scripts == c.scripts
  {
    c.(registered := c.registered + [p])
  }

  /** The registry's own booking entry point: the same guarded step as a staff
      member's booking, reporting the outcome instead of returning it. */
  function AddAppointment(c: Clinic, p: PatientId, d: DoctorId, t: Timestamp): (r: Booked)
    ensures r.clinic == ScheduleAppointment(c, p, d, t).clinic
    ensures r.report == AppointmentSet <==> ScheduleAppointment(c, p, d, t).accepted
    ensures r.report == DoctorBusy <==> exists i :: 0 <= i < |Calendar(c, d)| && Calendar(c, d)[i].date == t
  {
    if IsAvailable(Calendar(c, d), t) then
      var a := Appointment(t, p, d);
      Booked(PatientAddAppointment(DoctorAddAppointment(c, d, a), p, a), AppointmentSet)
    else
      Booked(c, DoctorBusy)
  }

  /** Adds prescription `id` to patient `p`'s list unless that very
      prescription (by identity) is already there. */
  function AddPrescription(c: Clinic, p: PatientId, id: PrescriptionId): (r: Clinic)
    ensures id in PrescriptionsOf(r, p)
    ensures id in PrescriptionsOf(c, p) ==> r == c
    ensures id !in PrescriptionsOf(c, p) ==> PrescriptionsOf(r, p) == PrescriptionsOf(c, p) + [id]
    ensures forall q :: q != p ==> PrescriptionsOf(r, q) == PrescriptionsOf(c, q)
    ensures r.calendars == c.calendars && r.appointments == c.appointments
    ensures r.scripts == c.scripts && r.registered == c.registered
    ensures Valid(c) && IsPrescription(c, id) ==> Valid(r)
  {
    if id in PrescriptionsOf(c, p) then c else PatientAddPrescription(c, p, id)
  }

  /** Adding the same prescription twice leaves the same list as adding it once. */
  lemma AddPrescriptionIdempotent(c: Clinic, p: PatientId, id: PrescriptionId)
    ensures AddPrescription(AddPrescription(c, p, id), p, id) == AddPrescription(c, p, id)
  {
  }

  /** The list has no prescription twice. */
  ghost predicate NoDuplicates(ids: seq<PrescriptionId>)
  {
    forall i, j :: 0 <= i < j < |ids| ==> ids[i] != ids[j]
  }

  /** The registry-level add never puts a prescription in a list twice. */
  lemma AddPrescriptionKeepsNoDuplicates(c: Clinic, p: PatientId, id: PrescriptionId)
    requires NoDuplicates(PrescriptionsOf(c, p))
    ensures NoDuplicates(PrescriptionsOf(AddPrescription(c, p, id), p))
  {
  }

  /** Neither does issuing a fresh prescription, as long as the graph is well formed. */
  lemma CreatePrescriptionKeepsNoDuplicates(c: Clinic, doc: DoctorId, p: PatientId)
    requires Valid(c) && NoDuplicates(PrescriptionsOf(c, p))
    ensures NoDuplicates(PrescriptionsOf(CreatePrescription(c, doc, p).clinic, p))
  {
  }

  // ---------------------------------------------------------------------------
  // Search: the reference definition, built from the back so that each level
  // is the previous result followed by the hits of the last element.

  /** One `p` for each treatment in `ts` that is a medicine named `name`. */
  function TreatmentHits(ts: seq<Treatment>, name: string, p: PatientId): seq<PatientId>
    decreases |ts|
  {
    if |ts| == 0 then []
    else TreatmentHits(ts[..|ts| - 1], name, p) + (if IsMedicineNamed(ts[|ts| - 1], name) then [p] else [])
  }

  /** The hits contributed by the prescriptions `ids` of patient `p`: only
      those issued by `doc` are looked into. */
  function PrescriptionHits(c: Clinic, ids: seq<PrescriptionId>, name: string, doc: DoctorId, p: PatientId): seq<PatientId>
    requires AllPrescriptions(c, ids)
    decreases |ids|
  {
    if |ids| == 0 then []
    else
      var pre := c.scripts[ids[|ids| - 1]];
      PrescriptionHits(c, ids[..|ids| - 1], name, doc, p)
        + (if pre.doctor == doc then TreatmentHits(pre.treatments, name, p) else [])
  }

  /** The hits contributed by the patients `ps`, in order. */
  function PatientsHits(c: Clinic, ps: seq<PatientId>, name: string, doc: DoctorId): seq<PatientId>
    requires Valid(c)
    decreases |ps|
  {
    if |ps| == 0 then []
    else
      var p := ps[|ps| - 1];
      PatientsHits(c, ps[..|ps| - 1], name, doc) + PrescriptionHits(c, PrescriptionsOf(c, p), name, doc, p)
  }

  /** Everything the search reports for `name` and `doc`, one entry per hit. */
  function Hits(c: Clinic, name: string, doc: DoctorId): seq<PatientId>
    requires Valid(c)
  {
    PatientsHits(c, c.registered, name, doc)
  }

  /** Treatment `k` of prescription `ids[j]` was issued by `doc` and is a
      medicine named `name` ignoring case. */
  ghost predicate IssuedMatch(c: Clinic, ids: seq<PrescriptionId>, name: string, doc: DoctorId, j: int, k: int)
  {
    && 0 <= j < |ids|
    && IsPrescription(c, ids[j])
    && var pre := c.scripts[ids[j]];
       pre.doctor == doc && 0 <= k < |pre.treatments| && IsMedicineNamed(pre.treatments[k], name)
  }

  /** The per-treatment test of the search: a single treatment is a hit
      exactly when it is a medicine whose description has the query's length
      and agrees with it character by character after case folding; a plain
      care note never is. */
  lemma ScanTreatmentsUsesMedicineTest(t: Treatment, name: string, p: PatientId)
    ensures TreatmentHits([t], name, p)
         == (if t.Medicine? && |t.description| == |name|
                && (forall i :: 0 <= i < |name| ==> FoldChar(t.description[i]) == FoldChar(name[i]))
             then [p] else [])
    ensures t.Plain? ==> TreatmentHits([t], name, p) == []
  {
    assert [t][..0] == [];
  }

  /** The treatment scan reports only `p`, and reports it exactly when some
      treatment is a medicine with the queried name. */
  lemma {:induction false} TreatmentHitsMembership(ts: seq<Treatment>, name: string, p: PatientId, q: PatientId)
    ensures q in TreatmentHits(ts, name, p) <==> q == p && exists k :: 0 <= k < |ts| && IsMedicineNamed(ts[k], name)
    decreases |ts|
  {
    if |ts| > 0 {
      var init := ts[..|ts| - 1];
      TreatmentHitsMembership(init, name, p, q);
      if q == p && exists k :: 0 <= k < |ts| && IsMedicineNamed(ts[k], name) {
        var k :| 0 <= k < |ts| && IsMedicineNamed(ts[k], name);
        if k < |ts| - 1 {
          assert init[k] == ts[k];
        }
      }
      if exists k :: 0 <= k < |init| && IsMedicineNamed(init[k], name) {
        var k :| 0 <= k < |init| && IsMedicineNamed(init[k], name);
        assert ts[k] == init[k];
      }
    }
  }

  /** The prescription scan reports only `p`, and reports it exactly when
      some prescription issued by `doc` holds a matching medicine. */
  lemma {:induction false} PrescriptionHitsMembership(c: Clinic, ids: seq<PrescriptionId>, name: string, doc: DoctorId, p: PatientId, q: PatientId)
    requires AllPrescriptions(c, ids)
    ensures q in PrescriptionHits(c, ids, name, doc, p) <==> q == p && exists j, k :: IssuedMatch(c, ids, name, doc, j, k)
    decreases |ids|
  {
    if |ids| > 0 {
      var init := ids[..|ids| - 1];
      var last := |ids| - 1;
      var pre := c.scripts[ids[last]];
      PrescriptionHitsMembership(c, init, name, doc, p, q);
      TreatmentHitsMembership(pre.treatments, name, p, q);
      if q == p && exists j, k :: IssuedMatch(c, ids, name, doc, j, k) {
        var j, k :| IssuedMatch(c, ids, name, doc, j, k);
        if j < last {
          assert IssuedMatch(c, init, name, doc, j, k);
        } else {
          assert pre.treatments[k] == c.scripts[ids[j]].treatments[k];
        }
      }
      if exists j, k :: IssuedMatch(c, init, name, doc, j, k) {
        var j, k :| IssuedMatch(c, init, name, doc, j, k);
        assert IssuedMatch(c, ids, name, doc, j, k);
      }
      if q in TreatmentHits(pre.treatments, name, p) && pre.doctor == doc {
        var k :| 0 <= k < |pre.treatments| && IsMedicineNamed(pre.treatments[k], name);
        assert IssuedMatch(c, ids, name, doc, last, k);
      }
    }
  }

  /** Over a sequence of patients, a patient is reported exactly when it is
      in the sequence and holds a matching prescription from `doc`. */
  lemma {:induction false} PatientsHitsMembership(c: Clinic, ps: seq<PatientId>, name: string, doc: DoctorId, q: PatientId)
    requires Valid(c)
    ensures q in PatientsHits(c, ps, name, doc) <==>
              q in ps && exists j, k :: IssuedMatch(c, PrescriptionsOf(c, q), name, doc, j, k)
    decreases |ps|
  {
    if |ps| > 0 {
      var init := ps[..|ps| - 1];
      var p := ps[|ps| - 1];
      PatientsHitsMembership(c, init, name, doc, q);
      PrescriptionHitsMembership(c, PrescriptionsOf(c, p), name, doc, p, q);
      assert ps == init + [p];
    }
  }

  /** The search reports patient `p` exactly when `p` is registered and one of
      its prescriptions issued by `doc` lists a medicine named `name` ignoring case. */
  lemma HitsMembership(c: Clinic, name: string, doc: DoctorId, p: PatientId)
    requires Valid(c)
    ensures p in Hits(c, name, doc) <==>
              p in c.registered && exists j, k :: IssuedMatch(c, PrescriptionsOf(c, p), name, doc, j, k)
  {
    PatientsHitsMembership(c, c.registered, name, doc, p);
  }

  /** Registering a patient adds that patient's hits at the end of every search. */
  lemma RegisterPatientExtendsSearch(c: Clinic, p: PatientId, name: string, doc: DoctorId)
    requires Valid(c)
    ensures Valid(RegisterPatient(c, p))
    ensures Hits(RegisterPatient(c, p), name, doc)
         == Hits(c, name, doc) + PrescriptionHits(c, PrescriptionsOf(c, p), name, doc, p)
  {
    var r := RegisterPatient(c, p);
    assert Valid(r) by {
      forall q ensures AllPrescriptions(r, PrescriptionsOf(r, q)) {
        assert PrescriptionsOf(r, q) == PrescriptionsOf(c, q);
      }
    }
    var rs := r.registered;
    assert rs[..|rs| - 1] == c.registered && rs[|rs| - 1] == p;
    assert PatientsHits(r, rs, name, doc)
        == PatientsHits(r, c.registered, name, doc) + PrescriptionHits(r, PrescriptionsOf(r, p), name, doc, p);
    PatientsHitsFrame(c, r, c.registered, name, doc);
    PrescriptionHitsFrame(c, r, PrescriptionsOf(c, p), name, doc, p);
  }

  /** The search reads only the prescription lists and the prescriptions. */
  lemma {:induction false} PrescriptionHitsFrame(c: Clinic, c': Clinic, ids: seq<PrescriptionId>, name: string, doc: DoctorId, p: PatientId)
    requires c'.scripts == c.scripts && AllPrescriptions(c, ids)
    ensures AllPrescriptions(c', ids)
    ensures PrescriptionHits(c', ids, name, doc, p) == PrescriptionHits(c, ids, name, doc, p)
    decreases |ids|
  {
    if |ids| > 0 {
      PrescriptionHitsFrame(c, c', ids[..|ids| - 1], name, doc, p);
    }
  }

  lemma {:induction false} PatientsHitsFrame(c: Clinic, c': Clinic, ps: seq<PatientId>, name: string, doc: DoctorId)
    requires c'.scripts == c.scripts && c'.prescriptions == c.prescriptions && Valid(c) && Valid(c')
    ensures PatientsHits(c', ps, name, doc) == PatientsHits(c, ps, name, doc)
    decreases |ps|
  {
    if |ps| > 0 {
      var p := ps[|ps| - 1];
      PatientsHitsFrame(c, c', ps[..|ps| - 1], name, doc);
      PrescriptionHitsFrame(c, c', PrescriptionsOf(c, p), name, doc, p);
    }
  }

  /** Booking an appointment, accepted or not, changes no search result. */
  lemma BookingLeavesSearchUnchanged(c: Clinic, p: PatientId, d: DoctorId, t: Timestamp, name: string, doc: DoctorId)
    requires Valid(c)
    ensures Valid(ScheduleAppointment(c, p, d, t).clinic)
    ensures Hits(ScheduleAppointment(c, p, d, t).clinic, name, doc) == Hits(c, name, doc)
  {
    var r := ScheduleAppointment(c, p, d, t).clinic;
    assert Valid(r) by {
      forall q ensures AllPrescriptions(r, PrescriptionsOf(r, q)) {
        assert PrescriptionsOf(r, q) == PrescriptionsOf(c, q);
      }
    }
    PatientsHitsFrame(c, r, c.registered, name, doc);
  }

  /** The innermost scan: one `p` for each treatment that is a medicine named
      `name` ignoring case, in treatment order. */
  method ScanTreatments(ts: seq<Treatment>, name: string, p: PatientId) returns (hits: seq<PatientId>)
    ensures hits == TreatmentHits(ts, name, p)
  {
    hits := [];
    var k := 0;
    while k < |ts|
      invariant 0 <= k <= |ts|
      invariant hits == TreatmentHits(ts[..k], name, p)
    {
      if IsMedicineNamed(ts[k], name) {
        hits := hits + [p];
      }
      assert ts[..k + 1][..k] == ts[..k];
      k := k + 1;
    }
    assert ts[..k] == ts;
  }

  /** The middle scan over one patient's prescriptions: only those issued by
      `doc` (compared by identity) are looked into. */
  method ScanPrescriptions(c: Clinic, ids: seq<PrescriptionId>, name: string, doc: DoctorId, p: PatientId)
    returns (hits: seq<PatientId>)
    requires AllPrescriptions(c, ids)
    ensures hits == PrescriptionHits(c, ids, name, doc, p)
  {
    hits := [];
    var j := 0;
    while j < |ids|
      invariant 0 <= j <= |ids|
      invariant hits == PrescriptionHits(c, ids[..j], name, doc, p)
    {
      var pre := c.scripts[ids[j]];
      if pre.doctor == doc {
        var more := ScanTreatments(pre.treatments, name, p);
        hits := hits + more;
      }
      assert ids[..j + 1][..j] == ids[..j];
      j := j + 1;
    }
    assert ids[..j] == ids;
  }

  /** The search as the registry runs it: every registered patient, each of
      their prescriptions issued by `doc`, each treatment that is a medicine
      named `name` ignoring case yields one hit; `found` records whether
      anything was reported, so "No patients found." is reported exactly when
      there are no hits. */
  method FindPatientsByMedicineAndDoctor(c: Clinic, name: string, doc: DoctorId) returns (hits: seq<PatientId>, found: bool)
    requires Valid(c)
    ensures hits == Hits(c, name, doc)
    ensures !found <==> hits == []
  {
    hits := [];
    found := false;
    var i := 0;
    while i < |c.registered|
      invariant 0 <= i <= |c.registered|
      invariant hits == PatientsHits(c, c.registered[..i], name, doc)
      invariant !found <==> hits == []
    {
      var p := c.registered[i];
      var more := ScanPrescriptions(c, PrescriptionsOf(c, p), name, doc, p);
      hits := hits + more;
      found := found || more != [];
      assert c.registered[..i + 1][..i] == c.registered[..i];
      i := i + 1;
    }
    assert c.registered[..i] == c.registered;
  }
}
