/**
  Revocation over interleavings. Operations read, call Vault and only then write, so other
  operations commit in between; here every run of committed transactions counts.
 */
module DeviceRevocation {
  import opened Options
  import opened DeviceEnrollment
  import opened DeviceNames

  // ---------- Rows only age ----------

  /** A certificate row keeps its identity, and its status only falls. */
  predicate Aged(c: Cert, d: Cert) {
    && d == c.(status := d.status)
    && (d.status == ActiveCert ==> c.status == ActiveCert)
    && (c.status == RevokedCert ==> d.status == RevokedCert)
  }

  ghost predicate Later(s: Store, t: Store) {
    && (forall c {:trigger c in t.certs} :: c in s.certs ==> c in t.certs && Aged(s.certs[c], t.certs[c]))
    && (forall d {:trigger d in t.devices} :: d in s.devices ==>
          d in t.devices && t.devices[d].org == s.devices[d].org && t.devices[d].externalId == s.devices[d].externalId)
  }

  lemma {:induction false} RunLater(s: Store, es: seq<Event>)
    requires Run(s, es).Some?
    ensures Later(s, Run(s, es).value)
    decreases |es|
  {
    if |es| > 0 {
      RunLater(s, es[..|es| - 1]);
      StepLater(Run(s, es[..|es| - 1]).value, es[|es| - 1], Run(s, es).value);
    }
  }

  lemma {:induction false} LaterCert(s: Store, t: Store, c: nat)
    requires Later(s, t) && c in s.certs
    ensures c in t.certs && Aged(s.certs[c], t.certs[c])
  {
    assert c in t.certs;
  }

  lemma {:induction false} StepLater(s: Store, e: Event, t: Store)
    requires Step(s, e) == Some(t)
    ensures Later(s, t)
  {
  }

  lemma {:induction false} RunAppend(s: Store, es: seq<Event>, fs: seq<Event>)
    requires Run(s, es).Some?
    ensures Run(s, es + fs) == Run(Run(s, es).value, fs)
    decreases |fs|
  {
    if |fs| == 0 {
      assert es + fs == es;
    } else {
      RunAppend(s, es, fs[..|fs| - 1]);
      assert (es + fs)[..|es + fs| - 1] == es + fs[..|fs| - 1];
    }
  }

  // ---------- Whether a revoked device may hold an active certificate ----------

  predicate ActiveFor(s: Store, device: nat, c: nat) {
    c in s.certs && s.certs[c].device == device && s.certs[c].status == ActiveCert
  }

  /** No revoked device holds an active certificate. */
  ghost predicate Clear(s: Store) {
    forall c, d {:trigger ActiveFor(s, d, c)} ::
      d in s.devices && s.devices[d].status == RevokedDevice ==> !ActiveFor(s, d, c)
  }

  /** A renewal commits for a device that is not revoked; revocation finds nothing active. */
  ghost predicate Orderly(s: Store, e: Event) {
    && (e.RenewTx? && e.previous in s.certs && s.certs[e.previous].device in s.devices ==>
          s.devices[s.certs[e.previous].device].status != RevokedDevice)
    && (e.SetStatus? && e.status == RevokedDevice ==> forall c :: !ActiveFor(s, e.device, c))
  }

  lemma {:induction false} OrderlyKeepsClear(s: Store, e: Event, t: Store)
    requires Inv(s) && Clear(s) && Step(s, e) == Some(t) && Orderly(s, e)
    ensures Clear(t)
  {
    if e.RenewTx? { assert CertOk(s, e.previous); }
    forall c, d | d in t.devices && t.devices[d].status == RevokedDevice ensures !ActiveFor(t, d, c) {
      if c in s.certs {
        assert CertOk(s, c);
        assert ActiveFor(t, d, c) ==> ActiveFor(s, d, c);
      }
    }
  }

  /** Of all transactions exactly the disorderly ones break it. */
  lemma {:induction false} ClearStepIff(s: Store, e: Event, t: Store)
    requires Inv(s) && Clear(s) && Step(s, e) == Some(t)
    ensures Clear(t) <==> Orderly(s, e)
  {
    if Orderly(s, e) {
      OrderlyKeepsClear(s, e, t);
    } else if e.RenewTx? {
      assert CertOk(s, e.previous);
      assert ActiveFor(t, s.certs[e.previous].device, e.cert);
    } else {
      var c :| ActiveFor(s, e.device, c);
      assert ActiveFor(t, e.device, c);
    }
  }

  /** No revoked device holds an active certificate at any point of the run. */
  ghost predicate AlwaysClear(es: seq<Event>)
    requires Run(EMPTY, es).Some?
    decreases |es|
  {
    Clear(Run(EMPTY, es).value) && (|es| > 0 ==> AlwaysClear(es[..|es| - 1]))
  }

  /** Every transaction of the run is orderly where it commits. */
  ghost predicate AllOrderly(es: seq<Event>)
    requires Run(EMPTY, es).Some?
    decreases |es|
  {
    |es| > 0 ==> AllOrderly(es[..|es| - 1]) && Orderly(Run(EMPTY, es[..|es| - 1]).value, es[|es| - 1])
  }

  /**
    The exact condition over interleavings: no revoked device ever holds an active
    certificate if and only if every renewal commits before its device is revoked and every
    revocation of a device finds all its certificates already inactive.
   */
  lemma {:induction false} ClearRunIff(es: seq<Event>)
    requires Run(EMPTY, es).Some?
    ensures AlwaysClear(es) <==> AllOrderly(es)
    decreases |es|
  {
    if |es| > 0 {
      var before := es[..|es| - 1];
      ClearRunIff(before);
      RunInv(EMPTY, before);
      if AlwaysClear(before) {
        ClearStepIff(Run(EMPTY, before).value, es[|es| - 1], Run(EMPTY, es).value);
      }
    }
  }

  /** A renewal that read an active device commits after that device was revoked. */
  lemma {:induction false} RenewalOutrunsRevocation(org: Org, id: string, first: nat, second: nat) returns (es: seq<Event>, t: Store)
    requires first != second
    ensures Run(EMPTY, es) == Some(t) && !Clear(t)
    ensures exists i, j :: 0 <= i < j < |es| && es[i] == SetStatus(0, RevokedDevice) && es[j].RenewTx?
  {
    var s;
    es, s := EnrolledOnce(org, id, first);
    var revoked := s.certs[0].(status := RevokedCert);
    var s1 := s.(certs := s.certs[0 := revoked]);
    es := Extend(es, s, RevokeCert(0), s1);
    var s2 := s1.(devices := s1.devices[0 := s1.devices[0].(status := RevokedDevice)]);
    es := Extend(es, s1, SetStatus(0, RevokedDevice), s2);
    var i := |es| - 1;
    FreshSerial(s2, org, first, second);
    t := AfterRenew(s2, 0, 1, second);
    es := Extend(es, s2, RenewTx(0, 1, second), t);
    assert ActiveFor(t, 0, 1) && t.devices[0].status == RevokedDevice;
    assert es[i] == SetStatus(0, RevokedDevice) && es[i + 1].RenewTx?;
  }

  /** Device 0 registered and given the pending secret 0. */
  lemma {:induction false} PendingOnce(org: Org, id: string, hash: string) returns (es: seq<Event>, t: Store)
    ensures Run(EMPTY, es) == Some(t)
    ensures t == Store(map[0 := Device(org, id, PendingDevice)], map[0 := Secret(org, 0, hash, Pending, 0, 0)], map[])
  {
    var s1 := Store(map[0 := Device(org, id, PendingDevice)], map[], map[]);
    es := Extend([], EMPTY, Register(0, org, id), s1);
    t := s1.(secrets := map[0 := Secret(org, 0, hash, Pending, 0, 0)]);
    es := Extend(es, s1, CreateSecret(0, 0, hash, 0, 0), t);
  }

  /** The same device enrolled, with certificate 0. */
  lemma {:induction false} EnrolledOnce(org: Org, id: string, number: nat) returns (es: seq<Event>, t: Store)
    ensures Run(EMPTY, es) == Some(t)
    ensures t.devices.Keys == {0} && t.devices[0].org == org && t.certs.Keys == {0}
    ensures t.certs[0].org == org && t.certs[0].device == 0 && t.certs[0].status == ActiveCert
    ensures t.certs[0].serial == SerialText(number)
  {
    var s;
    es, s := PendingOnce(org, id, id);
    t := AfterEnroll(s, 0, 0, number);
    es := Extend(es, s, EnrollTx(0, 0, number), t);
  }

  lemma {:induction false} Extend(es: seq<Event>, s: Store, e: Event, t: Store) returns (es': seq<Event>)
    requires Run(EMPTY, es) == Some(s) && Step(s, e) == Some(t)
    ensures es' == es + [e] && Run(EMPTY, es') == Some(t)
  {
    es' := es + [e];
    assert es'[..|es|] == es;
  }

  /** Where all certificates bear one number, another number's text is free. */
  lemma {:induction false} FreshSerial(s: Store, org: Org, used: nat, number: nat)
    requires used != number && forall c :: c in s.certs ==> s.certs[c].serial == SerialText(used)
    ensures !SerialTaken(s, org, SerialText(number))
  {
    SerialTextInjective(used, number);
  }

  // ---------- What a revocation leaves ----------

  function ActiveCertsOf(s: Store, org: Org, device: nat): set<nat> {
    set c | c in s.certs && s.certs[c].org == org && s.certs[c].device == device && s.certs[c].status == ActiveCert
  }

  predicate Issues(e: Event, c: nat) {
    (e.EnrollTx? || e.RenewTx?) && e.cert == c
  }

  lemma {:induction false} NewRowIssued(s: Store, es: seq<Event>, c: nat)
    requires Run(s, es).Some? && c in Run(s, es).value.certs && c !in s.certs
    ensures exists i :: 0 <= i < |es| && Issues(es[i], c)
    decreases |es|
  {
    var n := |es| - 1;
    var before := es[..n];
    if c in Run(s, before).value.certs {
      NewRowIssued(s, before, c);
      var i :| 0 <= i < n && Issues(before[i], c);
      assert Issues(es[i], c);
    } else {
      assert Issues(es[n], c);
    }
  }

  /**
    Revocation amid other operations: once every certificate active at the start has been
    revoked, an active certificate of the device can only be one issued during the run.
   */
  lemma {:induction false} RevocationAmid(s: Store, es: seq<Event>, org: Org, device: nat)
    requires Run(s, es).Some?
    requires var t := Run(s, es).value;
             forall c :: c in ActiveCertsOf(s, org, device) && c in t.certs ==> t.certs[c].status == RevokedCert
    ensures forall c :: c in ActiveCertsOf(Run(s, es).value, org, device) ==>
              c !in s.certs && exists i :: 0 <= i < |es| && Issues(es[i], c)
  {
    RunLater(s, es);
    var t := Run(s, es).value;
    forall c | c in ActiveCertsOf(t, org, device) ensures c !in s.certs && exists i :: 0 <= i < |es| && Issues(es[i], c) {
      assert c in s.certs ==> Aged(s.certs[c], t.certs[c]) && c in ActiveCertsOf(s, org, device);
      NewRowIssued(s, es, c);
    }
  }
}
