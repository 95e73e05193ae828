/**
  Device enrollment, renewal and revocation over the devices, enrollment-secret and
  certificate tables. Each event is a committed transaction or a single write; a
  transaction that fails at any of its calls leaves no event at all.
 */
module DeviceEnrollment {
  import opened Options
  import opened DeviceNames

  type Org = string

  datatype DeviceStatus = PendingDevice | ActiveDevice | RevokedDevice | DisabledDevice

  datatype Device = Device(org: Org, externalId: string, status: DeviceStatus)

  datatype SecretStatus = Pending | Used | RevokedSecret | ExpiredSecret

  datatype Secret = Secret(org: Org, device: nat, hash: string, status: SecretStatus, expiresAt: int, createdAt: int)

  datatype CertStatus = ActiveCert | Superseded | RevokedCert

  /**
    A row of device_certificates. `number` is the certificate's serial as an integer and
    `secret` the bootstrap secret it was issued against, None for a renewal; both are history.
   */
  datatype Cert = Cert(org: Org, device: nat, serial: string, cn: string, status: CertStatus,
                       number: nat, secret: Option<nat>)

  datatype Store = Store(devices: map<nat, Device>, secrets: map<nat, Secret>, certs: map<nat, Cert>)

  datatype Event =
    | Register(id: nat, org: Org, externalId: string)
    | CreateSecret(id: nat, device: nat, hash: string, expiresAt: int, createdAt: int)
    | RevokeSecret(id: nat)
    | EnrollTx(secret: nat, cert: nat, number: nat)
    | RenewTx(previous: nat, cert: nat, number: nat)
    | RevokeCert(id: nat)
    | SetStatus(device: nat, status: DeviceStatus)

  /** UNIQUE (org_id, serial_number). */
  predicate SerialTaken(s: Store, org: Org, serial: string) {
    exists c :: c in s.certs && s.certs[c].org == org && s.certs[c].serial == serial
  }

  /** UNIQUE (org_id, device_id). */
  predicate Registered(s: Store, org: Org, externalId: string) {
    exists d :: d in s.devices && s.devices[d].org == org && s.devices[d].externalId == externalId
  }

  /** The certificate row an enrollment of this device inserts. */
  function EnrolledCert(d: Device, device: nat, number: nat, secret: nat): Cert {
    Cert(d.org, device, SerialText(number), ExpectedCN(d.externalId, d.org), ActiveCert, number, Some(secret))
  }

  function AfterEnroll(s: Store, secret: nat, cert: nat, number: nat): Store
    requires secret in s.secrets && s.secrets[secret].device in s.devices
  {
    var device := s.secrets[secret].device;
    var d := s.devices[device];
    Store(s.devices[device := d.(status := ActiveDevice)],
          s.secrets[secret := s.secrets[secret].(status := Used)],
          s.certs[cert := EnrolledCert(d, device, number, secret)])
  }

  function AfterRenew(s: Store, previous: nat, cert: nat, number: nat): Store
    requires previous in s.certs
  {
    var o := s.certs[previous];
    var superseded := if o.status == ActiveCert then o.(status := Superseded) else o;
    s.(certs := s.certs[previous := superseded]
                       [cert := Cert(o.org, o.device, SerialText(number), o.cn, ActiveCert, number, None)])
  }

  function Step(s: Store, e: Event): Option<Store> {
    match e
    case Register(id, org, externalId) =>
      if id in s.devices || Registered(s, org, externalId) then None
      else Some(s.(devices := s.devices[id := Device(org, externalId, PendingDevice)]))
    case CreateSecret(id, device, hash, expiresAt, createdAt) =>
      if id in s.secrets || device !in s.devices then None
      else Some(s.(secrets := s.secrets[id := Secret(s.devices[device].org, device, hash, Pending, expiresAt, createdAt)]))
    case RevokeSecret(id) =>
      if id !in s.secrets || s.secrets[id].status != Pending then None
      else Some(s.(secrets := s.secrets[id := s.secrets[id].(status := RevokedSecret)]))
    case EnrollTx(secret, cert, number) =>
      if secret !in s.secrets || s.secrets[secret].status != Pending || s.secrets[secret].device !in s.devices then None
      else if cert in s.certs || SerialTaken(s, s.secrets[secret].org, SerialText(number)) then None
      else Some(AfterEnroll(s, secret, cert, number))
    case RenewTx(previous, cert, number) =>
      if previous !in s.certs || cert in s.certs || SerialTaken(s, s.certs[previous].org, SerialText(number)) then None
      else Some(AfterRenew(s, previous, cert, number))
    case RevokeCert(id) =>
      if id !in s.certs || s.certs[id].status == RevokedCert then None
      else Some(s.(certs := s.certs[id := s.certs[id].(status := RevokedCert)]))
    case SetStatus(device, status) =>
      if device !in s.devices then None
      else Some(s.(devices := s.devices[device := s.devices[device].(status := status)]))
  }

  function Run(s: Store, es: seq<Event>): Option<Store>
    decreases |es|
  {
    if |es| == 0 then Some(s)
    else
      match Run(s, es[..|es| - 1])
      case None => None
      case Some(t) => Step(t, es[|es| - 1])
  }

  // ---------- The invariant ----------

  /** The row names its device's identity, and an enrolled row a used secret of that device. */
  ghost predicate CertOk(s: Store, id: nat)
    requires id in s.certs
  {
    var c := s.certs[id];
    && c.device in s.devices
    && s.devices[c.device].org == c.org
    && c.cn == ExpectedCN(s.devices[c.device].externalId, c.org)
    && c.serial == SerialText(c.number)
    && (c.secret.Some? ==>
          c.secret.value in s.secrets && s.secrets[c.secret.value].status == Used &&
          s.secrets[c.secret.value].device == c.device)
  }

  /** A secret belongs to a device of its organisation; once used it has its certificate. */
  ghost predicate SecretOk(s: Store, id: nat)
    requires id in s.secrets
  {
    && s.secrets[id].device in s.devices
    && s.devices[s.secrets[id].device].org == s.secrets[id].org
    && (s.secrets[id].status == Used ==> exists c :: c in s.certs && s.certs[c].secret == Some(id))
  }

  ghost predicate Apart(s: Store, a: nat, b: nat)
    requires a in s.certs && b in s.certs
  {
    && (s.certs[a].org == s.certs[b].org ==> s.certs[a].serial != s.certs[b].serial)
    && (s.certs[a].secret.Some? ==> s.certs[a].secret != s.certs[b].secret)
  }

  ghost predicate DevicesApart(s: Store, a: nat, b: nat)
    requires a in s.devices && b in s.devices
  {
    s.devices[a].org == s.devices[b].org ==> s.devices[a].externalId != s.devices[b].externalId
  }

  ghost predicate Inv(s: Store) {
    && (forall c {:trigger CertOk(s, c)} :: c in s.certs ==> CertOk(s, c))
    && (forall i {:trigger SecretOk(s, i)} :: i in s.secrets ==> SecretOk(s, i))
    && (forall a, b {:trigger Apart(s, a, b)} :: a in s.certs && b in s.certs && a != b ==> Apart(s, a, b))
    && (forall a, b {:trigger DevicesApart(s, a, b)} :: a in s.devices && b in s.devices && a != b ==> DevicesApart(s, a, b))
  }

  const EMPTY: Store := Store(map[], map[], map[])

  lemma {:induction false} RegisterInv(s: Store, e: Event, t: Store)
    requires Inv(s) && (e.Register? || e.SetStatus?) && Step(s, e) == Some(t)
    ensures Inv(t)
  {
    forall c | c in t.certs ensures CertOk(t, c) { assert CertOk(s, c); }
    forall i | i in t.secrets ensures SecretOk(t, i) { assert SecretOk(s, i); }
    forall a, b | a in t.certs && b in t.certs && a != b ensures Apart(t, a, b) { assert Apart(s, a, b); }
    forall a, b | a in t.devices && b in t.devices && a != b ensures DevicesApart(t, a, b) {
      if a in s.devices && b in s.devices { assert DevicesApart(s, a, b); }
    }
  }

  lemma {:induction false} SecretInv(s: Store, e: Event, t: Store)
    requires Inv(s) && (e.CreateSecret? || e.RevokeSecret?) && Step(s, e) == Some(t)
    ensures Inv(t)
  {
    forall c | c in t.certs ensures CertOk(t, c) { assert CertOk(s, c); }
    forall i | i in t.secrets ensures SecretOk(t, i) {
      if i in s.secrets { assert SecretOk(s, i); }
    }
    forall a, b | a in t.certs && b in t.certs && a != b ensures Apart(t, a, b) { assert Apart(s, a, b); }
    forall a, b | a in t.devices && b in t.devices && a != b ensures DevicesApart(t, a, b) { assert DevicesApart(s, a, b); }
  }

  lemma {:induction false} RevokeInv(s: Store, e: Event, t: Store)
    requires Inv(s) && e.RevokeCert? && Step(s, e) == Some(t)
    ensures Inv(t)
  {
    forall c | c in t.certs ensures CertOk(t, c) { assert CertOk(s, c); }
    forall i | i in t.secrets ensures SecretOk(t, i) { SecretKept(s, t, i); }
    forall a, b | a in t.certs && b in t.certs && a != b ensures Apart(t, a, b) { assert Apart(s, a, b); }
    forall a, b | a in t.devices && b in t.devices && a != b ensures DevicesApart(t, a, b) { assert DevicesApart(s, a, b); }
  }

  /** A secret stays in order while certificates only gain rows and keep their origin. */
  lemma {:induction false} SecretKept(s: Store, t: Store, i: nat)
    requires i in s.secrets && i in t.secrets && t.secrets[i] == s.secrets[i]
    requires forall x :: x in s.secrets ==> SecretOk(s, x)
    requires s.devices.Keys <= t.devices.Keys
    requires forall d :: d in s.devices ==> t.devices[d].org == s.devices[d].org
    requires forall c :: c in s.certs ==> c in t.certs && t.certs[c].secret == s.certs[c].secret
    ensures SecretOk(t, i)
  {
    assert SecretOk(s, i);
    if s.secrets[i].status == Used {
      var c :| c in s.certs && s.certs[c].secret == Some(i);
      assert c in t.certs && t.certs[c].secret == Some(i);
    }
  }

  lemma {:induction false} EnrollInv(s: Store, secret: nat, cert: nat, number: nat, t: Store)
    requires Inv(s) && Step(s, EnrollTx(secret, cert, number)) == Some(t)
    ensures Inv(t)
  {
    assert SecretOk(s, secret);
    forall c | c in t.certs ensures CertOk(t, c) {
      if c != cert { assert CertOk(s, c); }
    }
    forall i | i in t.secrets ensures SecretOk(t, i) {
      if i == secret {
        assert cert in t.certs && t.certs[cert].secret == Some(i);
      } else {
        SecretKept(s, t, i);
      }
    }
    EnrollApart(s, secret, cert, number, t);
    forall a, b | a in t.devices && b in t.devices && a != b ensures DevicesApart(t, a, b) { assert DevicesApart(s, a, b); }
  }

  lemma {:induction false} EnrollApart(s: Store, secret: nat, cert: nat, number: nat, t: Store)
    requires forall c {:trigger CertOk(s, c)} :: c in s.certs ==> CertOk(s, c)
    requires forall a, b {:trigger Apart(s, a, b)} :: a in s.certs && b in s.certs && a != b ==> Apart(s, a, b)
    requires Step(s, EnrollTx(secret, cert, number)) == Some(t) && SecretOk(s, secret)
    ensures forall a, b {:trigger Apart(t, a, b)} :: a in t.certs && b in t.certs && a != b ==> Apart(t, a, b)
  {
    forall a, b | a in t.certs && b in t.certs && a != b ensures Apart(t, a, b) {
      if a in s.certs && b in s.certs { assert Apart(s, a, b); }
      if a in s.certs { assert CertOk(s, a); }
      if b in s.certs { assert CertOk(s, b); }
    }
  }

  lemma {:induction false} RenewApart(s: Store, previous: nat, cert: nat, number: nat, t: Store)
    requires forall a, b {:trigger Apart(s, a, b)} :: a in s.certs && b in s.certs && a != b ==> Apart(s, a, b)
    requires Step(s, RenewTx(previous, cert, number)) == Some(t)
    ensures forall a, b {:trigger Apart(t, a, b)} :: a in t.certs && b in t.certs && a != b ==> Apart(t, a, b)
  {
    forall a, b | a in t.certs && b in t.certs && a != b ensures Apart(t, a, b) {
      if a in s.certs && b in s.certs { assert Apart(s, a, b); }
    }
  }

  lemma {:induction false} RenewInv(s: Store, previous: nat, cert: nat, number: nat, t: Store)
    requires Inv(s) && Step(s, RenewTx(previous, cert, number)) == Some(t)
    ensures Inv(t)
  {
    assert CertOk(s, previous);
    forall c | c in t.certs ensures CertOk(t, c) {
      if c != cert { assert CertOk(s, c); }
    }
    forall i | i in t.secrets ensures SecretOk(t, i) { SecretKept(s, t, i); }
    RenewApart(s, previous, cert, number, t);
    forall a, b | a in t.devices && b in t.devices && a != b ensures DevicesApart(t, a, b) { assert DevicesApart(s, a, b); }
  }

  lemma {:induction false} StepInv(s: Store, e: Event, t: Store)
    requires Inv(s) && Step(s, e) == Some(t)
    ensures Inv(t)
  {
    match e {
      case Register(_, _, _) => RegisterInv(s, e, t);
      case SetStatus(_, _) => RegisterInv(s, e, t);
      case CreateSecret(_, _, _, _, _) => SecretInv(s, e, t);
      case RevokeSecret(_) => SecretInv(s, e, t);
      case EnrollTx(secret, cert, number) => EnrollInv(s, secret, cert, number, t);
      case RenewTx(previous, cert, number) => RenewInv(s, previous, cert, number, t);
      case RevokeCert(_) => RevokeInv(s, e, t);
    }
  }

  lemma {:induction false} RunInv(s: Store, es: seq<Event>)
    requires Inv(s) && Run(s, es).Some?
    ensures Inv(Run(s, es).value)
    decreases |es|
  {
    if |es| > 0 {
      RunInv(s, es[..|es| - 1]);
      StepInv(Run(s, es[..|es| - 1]).value, es[|es| - 1], Run(s, es).value);
    }
  }

  // ---------- What the invariant says ----------

  function UsedSecrets(s: Store): set<nat> {
    set i | i in s.secrets && s.secrets[i].status == Used
  }

  function EnrolledCerts(s: Store): set<nat> {
    set c | c in s.certs && s.certs[c].secret.Some?
  }

  lemma {:induction false} Bijection(certs: map<nat, Cert>, cs: set<nat>, us: set<nat>)
    requires forall c :: c in cs ==> c in certs && certs[c].secret.Some? && certs[c].secret.value in us
    requires forall a, b :: a in cs && b in cs && certs[a].secret == certs[b].secret ==> a == b
    requires forall u :: u in us ==> exists c :: c in cs && certs[c].secret == Some(u)
    ensures |cs| == |us|
    decreases |cs|
  {
    if us == {} {
      if c :| c in cs { assert certs[c].secret.value in us; }
    } else {
      var u :| u in us;
      var c :| c in cs && certs[c].secret == Some(u);
      forall v | v in us - {u} ensures exists d :: d in cs - {c} && certs[d].secret == Some(v) {
        var d :| d in cs && certs[d].secret == Some(v);
        assert d in cs - {c};
      }
      Bijection(certs, cs - {c}, us - {u});
    }
  }

  /**
    In every reachable state each certificate names its own device and organisation, and
    there are exactly as many used secrets as certificates issued by enrollment.
   */
  lemma {:induction false} CertificateIdentity(es: seq<Event>, id: nat)
    requires Run(EMPTY, es).Some?
    ensures var s := Run(EMPTY, es).value;
            && |UsedSecrets(s)| == |EnrolledCerts(s)|
            && (id in s.certs ==>
                  && s.certs[id].device in s.devices
                  && s.certs[id].cn == ExpectedCN(s.devices[s.certs[id].device].externalId, s.certs[id].org))
  {
    RunInv(EMPTY, es);
    var s := Run(EMPTY, es).value;
    if id in s.certs { assert CertOk(s, id); }
    forall c | c in EnrolledCerts(s) ensures s.certs[c].secret.value in UsedSecrets(s) { assert CertOk(s, c); }
    forall a, b | a in EnrolledCerts(s) && b in EnrolledCerts(s) && s.certs[a].secret == s.certs[b].secret ensures a == b {
      assert a != b ==> Apart(s, a, b);
    }
    forall u | u in UsedSecrets(s) ensures exists c :: c in EnrolledCerts(s) && s.certs[c].secret == Some(u) {
      assert SecretOk(s, u);
      var c :| c in s.certs && s.certs[c].secret == Some(u);
      assert c in EnrolledCerts(s);
    }
    Bijection(s.certs, EnrolledCerts(s), UsedSecrets(s));
  }

  /**
    Looking a presented certificate up by the text of its serial finds the row of that
    very certificate, and no other.
   */
  lemma {:induction false} LookupFindsOwnRow(s: Store, org: Org, number: nat, id: nat)
    requires Inv(s) && id in s.certs && s.certs[id].org == org
    ensures s.certs[id].serial == SerialText(number) <==> s.certs[id].number == number
    ensures s.certs[id].number == number ==>
              forall c :: c in s.certs && s.certs[c].org == org && s.certs[c].serial == SerialText(number) ==> c == id
  {
    assert CertOk(s, id);
    SerialTextInjective(s.certs[id].number, number);
    forall c | c in s.certs && s.certs[c].org == org && s.certs[id].number == number && s.certs[c].serial == SerialText(number)
      ensures c == id
    {
      assert c != id ==> Apart(s, c, id);
    }
  }
}
