/**
  The enrollment service's operations. `faults` names the external calls and writes that
  fail; a failed call inside a transaction rolls the whole transaction back.
 */
module DeviceEnrollmentService {
  import opened Options
  import opened DeviceNames
  import opened DeviceEnrollment
  import opened DeviceRevocation

  datatype Op =
    | Token | ReadDevice | BeginTx | LockSecret | SignCsr | ParseIssued | MarkUsed | InsertCert | MarkDevice | Commit
    | ReadCert | Supersede | WriteRevoked | ListCerts | WriteStatus

  datatype Csr = Malformed | Csr(cn: string, signed: bool)

  datatype Error =
    | Failed(op: Op) | DeviceNotFound | InvalidCsr | CnMismatch | SecretNotFound | SecretExpired | SecretMismatch
    | SerialInUse | CertificateInvalid | DeviceNotActive | AlreadyRevoked

  datatype Result<+T> = Success(value: T) | Failure(error: Error)

  type Hash = string -> string

  datatype Request = Request(org: Org, externalId: string, rawSecret: string, csr: Csr, now: int)

  /** parseCSR: well formed, self-signed, and for exactly the expected common name. */
  function ParseCsr(csr: Csr, wantCN: string): Result<()> {
    match csr
    case Malformed => Failure(InvalidCsr)
    case Csr(cn, signed) =>
      if !signed then Failure(InvalidCsr) else if cn != wantCN then Failure(CnMismatch) else Success(())
  }

  predicate IsDevice(s: Store, d: nat, org: Org, externalId: string) {
    d in s.devices && s.devices[d].org == org && s.devices[d].externalId == externalId
  }

  predicate PendingFor(s: Store, i: nat, org: Org, device: nat) {
    i in s.secrets && s.secrets[i].org == org && s.secrets[i].device == device && s.secrets[i].status == Pending
  }

  /** A row LockPendingSecretForDeviceTx may return: pending, none created later. */
  predicate LatestPending(s: Store, i: nat, org: Org, device: nat) {
    && PendingFor(s, i, org, device)
    && forall j :: j in s.secrets && PendingFor(s, j, org, device) ==> s.secrets[j].createdAt <= s.secrets[i].createdAt
  }

  predicate Redeems(s: Store, i: nat, req: Request, hash: Hash)
    requires i in s.secrets
  {
    req.now <= s.secrets[i].expiresAt && hash(req.rawSecret) == s.secrets[i].hash
  }

  /**
    On the rows and the request alone: d is the device named, the CSR is signed and for
    exactly its name, and i is the latest of its pending secrets, not expired and redeemed.
   */
  ghost predicate Enrolls(s: Store, req: Request, d: nat, i: nat, hash: Hash) {
    && d in s.devices && s.devices[d].org == req.org && s.devices[d].externalId == req.externalId
    && req.csr == Csr(req.externalId + "@" + req.org, true)
    && i in s.secrets && OwnPending(s.secrets[i], req.org, d)
    && (forall j :: j in s.secrets && OwnPending(s.secrets[j], req.org, d) ==> s.secrets[j].createdAt <= s.secrets[i].createdAt)
    && req.now <= s.secrets[i].expiresAt && hash(req.rawSecret) == s.secrets[i].hash
  }

  /** The row is a pending secret of this device. */
  ghost predicate OwnPending(row: Secret, org: Org, d: nat) {
    row.org == org && row.device == d && row.status == Pending
  }

  /** The three rows a successful enrollment writes; no other is touched. */
  ghost predicate EnrolledRows(s: Store, t: Store, req: Request, i: nat, cert: nat, number: nat) {
    && i in s.secrets && s.secrets[i].device in s.devices
    && var d := s.secrets[i].device;
       && t.secrets == s.secrets[i := s.secrets[i].(status := Used)]
       && t.devices == s.devices[d := s.devices[d].(status := ActiveDevice)]
       && t.certs == s.certs[cert := Cert(req.org, d, SerialText(number), req.externalId + "@" + req.org, ActiveCert, number, Some(i))]
  }

  /** The rows a successful renewal writes: the presented certificate's, if still active, and the new one's. */
  ghost predicate RenewedRows(s: Store, t: Store, p: nat, cert: nat, number: nat) {
    && p in s.certs && t.secrets == s.secrets && t.devices == s.devices
    && var o := s.certs[p];
       var superseded := if o.status == ActiveCert then s.certs[p := o.(status := Superseded)] else s.certs;
       t.certs == superseded[cert := Cert(o.org, o.device, SerialText(number), o.cn, ActiveCert, number, None)]
  }

  /** What each error of Enroll says about the store and the request. */
  ghost predicate Explains(s: Store, req: Request, number: nat, faults: set<Op>, hash: Hash, e: Error) {
    match e
    case Failed(op) => op in faults
    case DeviceNotFound => forall d :: d in s.devices && s.devices[d].org == req.org ==> s.devices[d].externalId != req.externalId
    case InvalidCsr => req.csr.Csr? ==> !req.csr.signed
    case CnMismatch => req.csr.Csr? && req.csr.signed && req.csr.cn != req.externalId + "@" + req.org
    case SecretNotFound =>
      forall d, i :: IsDevice(s, d, req.org, req.externalId) && i in s.secrets ==> !OwnPending(s.secrets[i], req.org, d)
    case SecretExpired =>
      exists d, i :: IsDevice(s, d, req.org, req.externalId) && LatestPending(s, i, req.org, d) &&
                     req.now > s.secrets[i].expiresAt
    case SecretMismatch =>
      exists d, i :: IsDevice(s, d, req.org, req.externalId) && LatestPending(s, i, req.org, d) &&
                     hash(req.rawSecret) != s.secrets[i].hash
    case SerialInUse => SerialTaken(s, req.org, SerialText(number))
    case _ => false
  }

  /** Some latest pending secret lets the request enroll its device. */
  ghost predicate MayEnroll(s: Store, req: Request, hash: Hash) {
    exists d, i :: Enrolls(s, req, d, i, hash)
  }

  /** No two pending secrets of the device share the latest creation time. */
  ghost predicate Untied(s: Store, req: Request) {
    forall d, i, j ::
      IsDevice(s, d, req.org, req.externalId) && LatestPending(s, i, req.org, d) && LatestPending(s, j, req.org, d) ==> i == j
  }

  /** The request redeems every secret that the lookup may return. */
  ghost predicate AllRedeem(s: Store, req: Request, hash: Hash) {
    forall d, i :: IsDevice(s, d, req.org, req.externalId) && LatestPending(s, i, req.org, d) ==> Redeems(s, i, req, hash)
  }

  /** Nothing stands in the way of a request that may enroll, unless a tie is decided against it. */
  lemma {:induction false} NothingExplains(s: Store, req: Request, number: nat, hash: Hash)
    requires Inv(s)
    ensures Unhindered(s, req, number, hash) ==> forall e :: !Explains(s, req, number, {}, hash, e)
  {
    if Unhindered(s, req, number, hash) {
      var d, i :| Enrolls(s, req, d, i, hash);
      assert IsDevice(s, d, req.org, req.externalId) && OwnPending(s.secrets[i], req.org, d);
      assert LatestPending(s, i, req.org, d);
      assert forall c :: IsDevice(s, c, req.org, req.externalId) && c != d ==> DevicesApart(s, d, c);
    }
  }

  /** The request may enroll, its serial is free, and no tie can be decided against it. */
  ghost predicate Unhindered(s: Store, req: Request, number: nat, hash: Hash) {
    && MayEnroll(s, req, hash) && !SerialTaken(s, req.org, SerialText(number))
    && (Untied(s, req) || AllRedeem(s, req, hash))
  }

  /**
    Enroll. A failure at any point leaves the store as it was, so a secret is used exactly
    when its certificate exists; every error has its reason in the rows, the request or a fault.
    Without faults, and with a serial not in use, a request succeeds exactly if it may; where
    pending secrets tie, the one the database returns decides, and if all redeem none matters.
   */
  method Enroll(s: Store, req: Request, cert: nat, number: nat, faults: set<Op>, hash: Hash)
    returns (t: Store, r: Result<nat>)
    requires Inv(s) && cert !in s.certs
    ensures Inv(t)
    ensures r.Failure? ==> t == s
    ensures r.Success? ==>
              && (exists d :: Enrolls(s, req, d, r.value, hash))
              && Step(s, EnrollTx(r.value, cert, number)) == Some(t)
              && EnrolledRows(s, t, req, r.value, cert, number)
    ensures r.Success? ==> req.csr.Csr? && req.csr.signed && req.csr.cn == req.externalId + "@" + req.org
    ensures r.Failure? ==> Explains(s, req, number, faults, hash, r.error)
    ensures r.Success? ==> MayEnroll(s, req, hash)
    ensures faults == {} && !SerialTaken(s, req.org, SerialText(number)) && (Untied(s, req) || AllRedeem(s, req, hash)) ==>
              (r.Success? <==> MayEnroll(s, req, hash))
  {
    t, r := RedeemSecret(s, req, cert, number, faults, hash);
    NothingExplains(s, req, number, hash);
  }

  /** Enroll's lookups, checks and transaction. */
  method RedeemSecret(s: Store, req: Request, cert: nat, number: nat, faults: set<Op>, hash: Hash)
    returns (t: Store, r: Result<nat>)
    requires Inv(s) && cert !in s.certs
    ensures Inv(t)
    ensures r.Failure? ==> t == s && Explains(s, req, number, faults, hash, r.error)
    ensures r.Success? ==>
              && (exists d :: Enrolls(s, req, d, r.value, hash))
              && Step(s, EnrollTx(r.value, cert, number)) == Some(t)
              && EnrolledRows(s, t, req, r.value, cert, number)
  {
    if Token in faults {
      return s, Failure(Failed(Token));
    }
    if ReadDevice in faults {
      return s, Failure(Failed(ReadDevice));
    }
    if !exists d :: d in s.devices && IsDevice(s, d, req.org, req.externalId) {
      return s, Failure(DeviceNotFound);
    }
    var d :| d in s.devices && IsDevice(s, d, req.org, req.externalId);
    var wantCN := ExpectedCN(req.externalId, req.org);
    var csr := ParseCsr(req.csr, wantCN);
    if csr.Failure? {
      return s, Failure(csr.error);
    }
    if BeginTx in faults {
      return s, Failure(Failed(BeginTx));
    }
    if LockSecret in faults {
      return s, Failure(Failed(LockSecret));
    }
    if !exists i :: i in s.secrets && LatestPending(s, i, req.org, d) {
      NoneFound(s, req, d);
      return s, Failure(SecretNotFound);
    }
    var i :| i in s.secrets && LatestPending(s, i, req.org, d);
    if req.now > s.secrets[i].expiresAt {
      return s, Failure(SecretExpired);
    }
    if hash(req.rawSecret) != s.secrets[i].hash {
      return s, Failure(SecretMismatch);
    }
    if SignCsr in faults {
      return s, Failure(Failed(SignCsr));
    }
    if ParseIssued in faults {
      return s, Failure(Failed(ParseIssued));
    }
    if MarkUsed in faults {
      return s, Failure(Failed(MarkUsed));
    }
    if InsertCert in faults {
      return s, Failure(Failed(InsertCert));
    }
    if SerialTaken(s, req.org, SerialText(number)) {
      return s, Failure(SerialInUse);
    }
    if MarkDevice in faults {
      return s, Failure(Failed(MarkDevice));
    }
    if Commit in faults {
      return s, Failure(Failed(Commit));
    }
    assert Enrolls(s, req, d, i, hash);
    EnrollCommits(s, req, d, i, cert, number, hash);
    t := AfterEnroll(s, i, cert, number);
    r := Success(i);
  }

  /** What committing the transaction makes of the store. */
  lemma {:induction false} EnrollCommits(s: Store, req: Request, d: nat, i: nat, cert: nat, number: nat, hash: Hash)
    requires Inv(s) && cert !in s.certs && Enrolls(s, req, d, i, hash) && !SerialTaken(s, req.org, SerialText(number))
    ensures s.secrets[i].device in s.devices
    ensures var t := AfterEnroll(s, i, cert, number);
            && Step(s, EnrollTx(i, cert, number)) == Some(t) && Inv(t)
            && EnrolledRows(s, t, req, i, cert, number)
  {
    assert SecretOk(s, i);
    StepInv(s, EnrollTx(i, cert, number), AfterEnroll(s, i, cert, number));
  }

  /** Where no pending secret is latest, none is pending. */
  lemma {:induction false} NonePending(s: Store, org: Org, device: nat)
    requires forall i :: i in s.secrets ==> !LatestPending(s, i, org, device)
    ensures forall i :: !PendingFor(s, i, org, device)
  {
    var pending := set i | i in s.secrets && PendingFor(s, i, org, device);
    assert forall j :: PendingFor(s, j, org, device) ==> j in pending;
    if pending != {} {
      var i := LatestOf(s, pending);
      assert LatestPending(s, i, org, device);
    }
  }

  /** The device is the only one of its name, so without a latest pending secret there is none. */
  lemma {:induction false} NoneFound(s: Store, req: Request, d: nat)
    requires Inv(s) && IsDevice(s, d, req.org, req.externalId)
    requires forall i :: i in s.secrets ==> !LatestPending(s, i, req.org, d)
    ensures forall e, i :: IsDevice(s, e, req.org, req.externalId) && i in s.secrets ==> !OwnPending(s.secrets[i], req.org, e)
  {
    NonePending(s, req.org, d);
    forall e, i | IsDevice(s, e, req.org, req.externalId) && i in s.secrets ensures !OwnPending(s.secrets[i], req.org, e) {
      OnlyDevice(s, d, e, req);
      assert !PendingFor(s, i, req.org, d);
    }
  }

  /**
    On the rows and the request alone: the presented certificate p is active and of this
    name, its device is active, and the CSR is signed and for exactly that name.
   */
  ghost predicate Renews(s: Store, org: Org, serial: string, cn: string, csr: Csr, p: nat) {
    && p in s.certs && s.certs[p].org == org && s.certs[p].serial == serial
    && s.certs[p].status == ActiveCert && s.certs[p].cn == cn
    && s.certs[p].device in s.devices && s.devices[s.certs[p].device].org == org
    && s.devices[s.certs[p].device].status == ActiveDevice
    && csr == Csr(cn, true)
  }

  /**
    Renew: reads the rows in `s` and, after Vault has signed, commits in `later`, the store
    that the operations in `between` have left meanwhile. It succeeds exactly for what was
    an active certificate of an active device, supersedes it if it still is one, and issues
    one for the same device under the same name.
   */
  method Renew(s: Store, org: Org, serial: string, cn: string, csr: Csr, cert: nat, number: nat, faults: set<Op>,
               later: Store, ghost between: seq<Event>)
    returns (t: Store, r: Result<nat>)
    requires Inv(s) && Run(s, between) == Some(later) && cert !in later.certs
    ensures Inv(t)
    ensures r.Failure? ==> t == later
    ensures r.Success? ==>
              && Renews(s, org, serial, cn, csr, r.value)
              && Step(later, RenewTx(r.value, cert, number)) == Some(t)
              && RenewedRows(later, t, r.value, cert, number)
              && t.certs[cert].device == s.certs[r.value].device && t.certs[cert].cn == cn
    ensures r.Success? ==> csr.Csr? && csr.signed && csr.cn == cn
    ensures faults == {} && !SerialTaken(later, org, SerialText(number)) ==>
              (r.Success? <==> exists p :: Renews(s, org, serial, cn, csr, p))
  {
    RunInv(s, between);
    if Token in faults {
      return later, Failure(Failed(Token));
    }
    if ReadCert in faults {
      return later, Failure(Failed(ReadCert));
    }
    if !SerialTaken(s, org, serial) {
      return later, Failure(CertificateInvalid);
    }
    var p :| p in s.certs && s.certs[p].org == org && s.certs[p].serial == serial;
    assert forall q :: Renews(s, org, serial, cn, csr, q) && q != p ==> Apart(s, p, q);
    if s.certs[p].status != ActiveCert {
      return later, Failure(CertificateInvalid);
    }
    if s.certs[p].cn != cn {
      return later, Failure(CnMismatch);
    }
    if ReadDevice in faults {
      return later, Failure(Failed(ReadDevice));
    }
    assert CertOk(s, p);
    if s.devices[s.certs[p].device].status != ActiveDevice {
      return later, Failure(DeviceNotActive);
    }
    var parsed := ParseCsr(csr, cn);
    if parsed.Failure? {
      return later, Failure(parsed.error);
    }
    if SignCsr in faults {
      return later, Failure(Failed(SignCsr));
    }
    if ParseIssued in faults {
      return later, Failure(Failed(ParseIssued));
    }
    if BeginTx in faults {
      return later, Failure(Failed(BeginTx));
    }
    if Supersede in faults {
      return later, Failure(Failed(Supersede));
    }
    if InsertCert in faults {
      return later, Failure(Failed(InsertCert));
    }
    if SerialTaken(later, org, SerialText(number)) {
      return later, Failure(SerialInUse);
    }
    if MarkDevice in faults {
      return later, Failure(Failed(MarkDevice));
    }
    if Commit in faults {
      return later, Failure(Failed(Commit));
    }
    assert Renews(s, org, serial, cn, csr, p);
    RunLater(s, between);
    RenewCommits(s, p, cert, number, later);
    t := AfterRenew(later, p, cert, number);
    r := Success(p);
  }

  /** What committing the renewal makes of the later store. */
  lemma {:induction false} RenewCommits(s: Store, p: nat, cert: nat, number: nat, later: Store)
    requires Inv(later) && Later(s, later) && p in s.certs && cert !in later.certs
    requires !SerialTaken(later, s.certs[p].org, SerialText(number))
    ensures p in later.certs
    ensures var t := AfterRenew(later, p, cert, number);
            && Step(later, RenewTx(p, cert, number)) == Some(t) && Inv(t)
            && RenewedRows(later, t, p, cert, number)
            && t.certs[cert].device == s.certs[p].device && t.certs[cert].cn == s.certs[p].cn
  {
    LaterCert(s, later, p);
    StepInv(later, RenewTx(p, cert, number), AfterRenew(later, p, cert, number));
  }

  /** RevokeCertificateBySerial. */
  method RevokeCertificateBySerial(s: Store, org: Org, serial: string, faults: set<Op>)
    returns (t: Store, r: Result<nat>)
    requires Inv(s)
    ensures Inv(t)
    ensures r.Failure? ==> t == s
    ensures r.Success? ==>
              && r.value in s.certs && s.certs[r.value].org == org && s.certs[r.value].serial == serial
              && s.certs[r.value].status != RevokedCert
              && t == s.(certs := s.certs[r.value := s.certs[r.value].(status := RevokedCert)])
              && Step(s, RevokeCert(r.value)) == Some(t)
    ensures faults == {} && r.Failure? ==>
              forall c :: c in s.certs && s.certs[c].org == org && s.certs[c].serial == serial ==>
                s.certs[c].status == RevokedCert
  {
    if ReadCert in faults {
      return s, Failure(Failed(ReadCert));
    }
    if !SerialTaken(s, org, serial) {
      return s, Failure(CertificateInvalid);
    }
    var c :| c in s.certs && s.certs[c].org == org && s.certs[c].serial == serial;
    assert forall q :: q in s.certs && q != c ==> Apart(s, c, q);
    if WriteRevoked in faults {
      return s, Failure(Failed(WriteRevoked));
    }
    if s.certs[c].status == RevokedCert {
      return s, Failure(AlreadyRevoked);
    }
    t := Step(s, RevokeCert(c)).value;
    StepInv(s, RevokeCert(c), t);
    r := Success(c);
  }

  predicate RevokedRow(s: Store, t: Store, cs: set<nat>, c: nat)
    requires c in s.certs && c in t.certs
  {
    t.certs[c] == if c in cs then s.certs[c].(status := RevokedCert) else s.certs[c]
  }

  /** t is s with the certificates in cs revoked. */
  ghost predicate RevokedIn(s: Store, t: Store, cs: set<nat>) {
    && t.devices == s.devices && t.secrets == s.secrets && t.certs.Keys == s.certs.Keys
    && forall c {:trigger RevokedRow(s, t, cs, c)} :: c in s.certs ==> RevokedRow(s, t, cs, c)
  }

  lemma {:induction false} RevokeOneMore(s: Store, t: Store, u: Store, cs: set<nat>, c: nat)
    requires RevokedIn(s, t, cs) && c in t.certs && c !in cs
    requires u == t.(certs := t.certs[c := t.certs[c].(status := RevokedCert)])
    ensures RevokedIn(s, u, cs + {c})
  {
    forall d | d in s.certs ensures RevokedRow(s, u, cs + {c}, d) { assert RevokedRow(s, t, cs, d); }
  }

  /** Every active certificate of the device is revoked, and nothing else about certificates or secrets has changed. */
  ghost predicate RevokedExactly(s: Store, t: Store, org: Org, device: nat) {
    && t.secrets == s.secrets && t.certs.Keys == s.certs.Keys
    && forall c {:trigger s.certs[c]} :: c in s.certs ==>
         var row := s.certs[c];
         t.certs[c] == if row.org == org && row.device == device && row.status == ActiveCert then row.(status := RevokedCert) else row
  }

  lemma {:induction false} ExactlyActive(s: Store, t: Store, org: Org, device: nat)
    requires RevokedIn(s, t, ActiveCertsOf(s, org, device))
    ensures RevokedExactly(s, t, org, device)
  {
    forall c | c in s.certs
      ensures var row := s.certs[c];
              t.certs[c] == if row.org == org && row.device == device && row.status == ActiveCert then row.(status := RevokedCert) else row
    {
      assert RevokedRow(s, t, ActiveCertsOf(s, org, device), c);
    }
  }

  /** What other operations commit before each write of a revocation. */
  type Others = nat -> seq<Event>

  /** The store after those that are possible have been committed. */
  function Amid(s: Store, es: seq<Event>): Store {
    match Run(s, es)
    case Some(t) => t
    case None => s
  }

  ghost predicate Alone(others: Others) {
    forall k {:trigger others(k)} :: others(k) == []
  }

  lemma {:induction false} AmidRuns(s: Store, es: seq<Event>, t: Store, fs: seq<Event>) returns (gs: seq<Event>)
    requires Inv(s) && Run(s, es) == Some(t)
    ensures Run(s, gs) == Some(Amid(t, fs)) && Inv(Amid(t, fs)) && Later(t, Amid(t, fs))
    ensures fs == [] ==> Amid(t, fs) == t
  {
    RunInv(s, es);
    if Run(t, fs).Some? {
      RunAppend(s, es, fs);
      RunInv(t, fs);
      RunLater(t, fs);
      gs := es + fs;
    } else {
      RunLater(t, []);
      gs := es;
    }
  }

  predicate AllRevoked(t: Store, cs: set<nat>) {
    forall c {:trigger c in cs} :: c in cs ==> c in t.certs && t.certs[c].status == RevokedCert
  }

  lemma {:induction false} RevokedStay(s: Store, t: Store, cs: set<nat>)
    requires Later(s, t) && AllRevoked(s, cs)
    ensures AllRevoked(t, cs)
  {
    forall c | c in cs ensures c in t.certs && t.certs[c].status == RevokedCert { LaterCert(s, t, c); }
  }

  /** One round of RevokeDevice's loop: others commit, then the listed certificate is revoked. */
  method RevokeListed(ghost s: Store, now: Store, org: Org, c: nat, serial: string, faults: set<Op>, between: seq<Event>,
                      ghost done: set<nat>, ghost es: seq<Event>)
    returns (t: Store, r: Result<()>, ghost gs: seq<Event>)
    requires Inv(s) && Run(s, es) == Some(now) && AllRevoked(now, done)
    requires c in s.certs && s.certs[c].org == org && s.certs[c].serial == serial && c !in done
    ensures Run(s, gs) == Some(t) && Inv(t) && AllRevoked(t, done)
    ensures r.Success? ==> AllRevoked(t, done + {c})
    ensures between == [] && RevokedIn(s, now, done) ==> RevokedIn(s, t, if r.Success? then done + {c} else done)
    ensures between == [] && faults == {} && RevokedIn(s, now, done) && s.certs[c].status == ActiveCert ==> r.Success?
  {
    gs := AmidRuns(s, es, now, between);
    t := Amid(now, between);
    RevokedStay(now, t, done);
    RunLater(s, gs);
    LaterCert(s, t, c);
    assert RevokedIn(s, t, done) ==> RevokedRow(s, t, done, c);
    var u, revoked := RevokeCertificateBySerial(t, org, serial, faults);
    if revoked.Failure? {
      return t, Failure(revoked.error), gs;
    }
    assert revoked.value != c ==> Apart(t, c, revoked.value);
    if RevokedIn(s, t, done) { RevokeOneMore(s, t, u, done, c); }
    RunOne(t, RevokeCert(c));
    RunAppend(s, gs, [RevokeCert(c)]);
    t, r, gs := u, Success(()), gs + [RevokeCert(c)];
  }

  lemma {:induction false} RunOne(s: Store, e: Event)
    ensures Run(s, [e]) == Step(s, e)
  {
    assert [e][..0] == [];
  }

  /** RevokeDevice's loop over the certificates it listed, amid other operations. */
  method RevokeActiveCerts(s: Store, org: Org, device: nat, certFaults: map<nat, set<Op>>, others: Others)
    returns (t: Store, r: Result<()>, next: nat, ghost done: set<nat>, ghost es: seq<Event>)
    requires Inv(s)
    ensures Run(s, es) == Some(t) && Inv(t) && AllRevoked(t, done) && done <= ActiveCertsOf(s, org, device)
    ensures r.Success? ==> done == ActiveCertsOf(s, org, device)
    ensures Alone(others) ==> RevokedIn(s, t, done)
    ensures Alone(others) && certFaults == map[] ==> r.Success?
  {
    t, done, es, next := s, {}, [], 0;
    assert forall c :: c in s.certs ==> RevokedRow(s, t, done, c);
    var active := ActiveCertsOf(s, org, device);
    var todo := active;
    while todo != {}
      invariant todo <= active && done == active - todo
      invariant Run(s, es) == Some(t) && Inv(t) && AllRevoked(t, done)
      invariant Alone(others) ==> RevokedIn(s, t, done)
      decreases |todo|
    {
      var c :| c in todo;
      t, r, es := RevokeListed(s, t, org, c, s.certs[c].serial, if c in certFaults then certFaults[c] else {},
                               others(next), done, es);
      next := next + 1;
      if r.Failure? {
        return t, r, next, done, es;
      }
      todo := todo - {c};
      done := done + {c};
    }
    assert done == active;
    r := Success(());
  }

  /**
    RevokeDevice, listing the certificates in `s`. On success the device is revoked and so is
    every certificate that was active: an active one that is left was issued meanwhile by
    another operation. With no other operations, nothing else changes; in particular the
    device's enrollment secrets do not.
   */
  method RevokeDevice(s: Store, org: Org, device: nat, faults: set<Op>, certFaults: map<nat, set<Op>>, others: Others)
    returns (t: Store, r: Result<()>, ghost es: seq<Event>)
    requires Inv(s)
    ensures Run(s, es) == Some(t) && Inv(t)
    ensures r.Success? ==>
              && device in t.devices && t.devices[device].org == org && t.devices[device].status == RevokedDevice
              && forall c :: c in t.certs && t.certs[c].org == org && t.certs[c].device == device && t.certs[c].status == ActiveCert ==>
                   c !in s.certs && exists i :: 0 <= i < |es| && Issues(es[i], c)
    ensures r.Success? && Alone(others) ==>
              && device in s.devices && RevokedExactly(s, t, org, device)
              && t.devices == s.devices[device := s.devices[device].(status := RevokedDevice)]
    ensures r.Failure? && Alone(others) ==> exists cs :: cs <= ActiveCertsOf(s, org, device) && RevokedIn(s, t, cs)
    ensures faults == {} && certFaults == map[] && Alone(others) ==>
              (r.Success? <==> device in s.devices && s.devices[device].org == org)
  {
    es := [];
    if ListCerts in faults {
      t := s;
      assert forall c :: c in s.certs ==> RevokedRow(s, t, {}, c);
      assert RevokedIn(s, t, {});
      return t, Failure(Failed(ListCerts)), es;
    }
    var next;
    ghost var done;
    t, r, next, done, es := RevokeActiveCerts(s, org, device, certFaults, others);
    if r.Failure? {
      return t, r, es;
    }
    if Alone(others) { ExactlyActive(s, t, org, device); }
    ghost var before := t;
    es := AmidRuns(s, es, t, others(next));
    t := Amid(t, others(next));
    if WriteStatus in faults {
      return t, Failure(Failed(WriteStatus)), es;
    }
    if device !in t.devices || t.devices[device].org != org {
      return t, Failure(DeviceNotFound), es;
    }
    ghost var u := t;
    t := Step(t, SetStatus(device, RevokedDevice)).value;
    StepInv(u, SetStatus(device, RevokedDevice), t);
    RunOne(u, SetStatus(device, RevokedDevice));
    RunAppend(s, es, [SetStatus(device, RevokedDevice)]);
    es := es + [SetStatus(device, RevokedDevice)];
    RevokedStay(before, u, done);
    RevocationAmid(s, es, org, device);
    r := Success(());
  }

  // ---------- Revocation and outstanding secrets ----------

  /** Some request presented at this time for this device may enroll it. */
  ghost predicate CanEnroll(s: Store, device: nat, now: int, hash: Hash) {
    exists req: Request :: req.now == now && IsDevice(s, device, req.org, req.externalId) && MayEnroll(s, req, hash)
  }

  /** Some request presented at this time for this device enrolls it however ties are decided. */
  ghost predicate SureToEnroll(s: Store, device: nat, now: int, hash: Hash) {
    exists req: Request :: && req.now == now && IsDevice(s, device, req.org, req.externalId)
                           && MayEnroll(s, req, hash) && AllRedeem(s, req, hash)
  }

  lemma {:induction false} LatestOf(s: Store, ids: set<nat>) returns (i: nat)
    requires ids != {} && forall j :: j in ids ==> j in s.secrets
    ensures i in ids && forall j :: j in ids ==> s.secrets[j].createdAt <= s.secrets[i].createdAt
    decreases |ids|
  {
    i :| i in ids;
    if ids != {i} {
      var k := LatestOf(s, ids - {i});
      if s.secrets[i].createdAt < s.secrets[k].createdAt { i := k; }
    }
  }

  /** The text redeems the secret at this time. */
  predicate RedeemedBy(s: Store, i: nat, now: int, hash: Hash, raw: string)
    requires i in s.secrets
  {
    now <= s.secrets[i].expiresAt && hash(raw) == s.secrets[i].hash
  }

  /** The text redeems every secret that the lookup may return at this time. */
  ghost predicate RedeemsAll(s: Store, org: Org, device: nat, now: int, hash: Hash, raw: string) {
    forall i :: LatestPending(s, i, org, device) ==> RedeemedBy(s, i, now, hash, raw)
  }

  /** The request that presents this text for the device. */
  function RequestFor(d: Device, raw: string, now: int): Request {
    Request(d.org, d.externalId, raw, Csr(ExpectedCN(d.externalId, d.org), true), now)
  }

  /** A device has one organisation and one external ID, and no other device has both. */
  lemma {:induction false} OnlyDevice(s: Store, d: nat, c: nat, req: Request)
    requires Inv(s) && IsDevice(s, d, req.org, req.externalId) && IsDevice(s, c, req.org, req.externalId)
    ensures c == d
  {
    assert c != d ==> DevicesApart(s, d, c);
  }

  /**
    At any time a device can be enrolled exactly if a latest pending secret of it has not
    expired, whatever its status; an older secret that has not expired does not help.
   */
  lemma {:induction false} EnrollableIffPending(s: Store, device: nat, now: int, hash: Hash)
    requires Inv(s) && device in s.devices
    ensures CanEnroll(s, device, now, hash) <==>
              exists i, raw :: LatestPending(s, i, s.devices[device].org, device) && RedeemedBy(s, i, now, hash, raw)
  {
    var d := s.devices[device];
    if CanEnroll(s, device, now, hash) {
      var req: Request :| req.now == now && IsDevice(s, device, req.org, req.externalId) && MayEnroll(s, req, hash);
      var c, i :| Enrolls(s, req, c, i, hash);
      OnlyDevice(s, device, c, req);
      assert LatestPending(s, i, d.org, device) && RedeemedBy(s, i, now, hash, req.rawSecret);
    }
    if i, raw :| LatestPending(s, i, d.org, device) && RedeemedBy(s, i, now, hash, raw) {
      assert Enrolls(s, RequestFor(d, raw, now), device, i, hash);
    }
  }

  /** It is sure to be enrolled exactly if one text redeems every latest pending secret, and there is one. */
  lemma {:induction false} SureIffAllRedeem(s: Store, device: nat, now: int, hash: Hash)
    requires Inv(s) && device in s.devices
    ensures var org := s.devices[device].org;
            SureToEnroll(s, device, now, hash) <==>
              (exists i :: LatestPending(s, i, org, device)) && (exists raw :: RedeemsAll(s, org, device, now, hash, raw))
  {
    var d := s.devices[device];
    if SureToEnroll(s, device, now, hash) {
      var req: Request :| && req.now == now && IsDevice(s, device, req.org, req.externalId)
                          && MayEnroll(s, req, hash) && AllRedeem(s, req, hash);
      var c, i :| Enrolls(s, req, c, i, hash);
      OnlyDevice(s, device, c, req);
      assert LatestPending(s, i, d.org, device);
      forall j | LatestPending(s, j, d.org, device) ensures RedeemedBy(s, j, now, hash, req.rawSecret) {
        assert Redeems(s, j, req, hash);
      }
      assert RedeemsAll(s, d.org, device, now, hash, req.rawSecret);
    }
    if (exists i :: LatestPending(s, i, d.org, device)) && (exists raw :: RedeemsAll(s, d.org, device, now, hash, raw)) {
      var i :| LatestPending(s, i, d.org, device);
      var raw :| RedeemsAll(s, d.org, device, now, hash, raw);
      var req := RequestFor(d, raw, now);
      assert Enrolls(s, req, device, i, hash);
      forall c, j | IsDevice(s, c, req.org, req.externalId) && LatestPending(s, j, req.org, c) ensures Redeems(s, j, req, hash) {
        OnlyDevice(s, device, c, req);
        assert RedeemedBy(s, j, now, hash, raw);
      }
    }
  }

  /** Changing a device's status changes nothing for its secrets. */
  lemma {:induction false} StatusIrrelevant(s: Store, t: Store, device: nat, req: Request, hash: Hash)
    requires Inv(s) && Inv(t) && device in s.devices && t.secrets == s.secrets
    requires t.devices == s.devices[device := s.devices[device].(status := RevokedDevice)]
    ensures MayEnroll(t, req, hash) <==> MayEnroll(s, req, hash)
    ensures Untied(t, req) <==> Untied(s, req)
    ensures AllRedeem(t, req, hash) <==> AllRedeem(s, req, hash)
  {
    assert forall d :: IsDevice(t, d, req.org, req.externalId) <==> IsDevice(s, d, req.org, req.externalId);
    assert forall d, i :: PendingFor(t, i, req.org, d) <==> PendingFor(s, i, req.org, d);
    assert forall d, i :: LatestPending(t, i, req.org, d) <==> LatestPending(s, i, req.org, d);
    assert forall d, i :: Enrolls(t, req, d, i, hash) <==> Enrolls(s, req, d, i, hash);
  }

  /**
    Revoking a device and then enrolling it: the revocation makes no difference to whether
    the request succeeds, and success makes the device active again.
   */
  method EnrollAfterRevocation(s: Store, org: Org, device: nat, req: Request, cert: nat, number: nat, hash: Hash)
    returns (t: Store, r: Result<nat>)
    requires Inv(s) && IsDevice(s, device, req.org, req.externalId) && req.org == org && cert !in s.certs
    requires !SerialTaken(s, req.org, SerialText(number)) && (Untied(s, req) || AllRedeem(s, req, hash))
    ensures r.Success? <==> MayEnroll(s, req, hash)
    ensures r.Success? ==> device in t.devices && t.devices[device].status == ActiveDevice
    ensures r.Failure? ==> device in t.devices && t.devices[device].status == RevokedDevice
  {
    var revoked;
    ghost var es;
    t, revoked, es := RevokeDevice(s, org, device, {}, map[], k => []);
    assert revoked.Success?;
    StatusIrrelevant(s, t, device, req, hash);
    SerialStaysFree(s, t, org, device, SerialText(number));
    ghost var before := t;
    t, r := Enroll(t, req, cert, number, {}, hash);
    if r.Success? {
      ghost var d :| Enrolls(before, req, d, r.value, hash);
      OnlyDevice(before, device, d, req);
    }
  }

  /** Revoking certificates frees no serial and takes none. */
  lemma {:induction false} SerialStaysFree(s: Store, t: Store, org: Org, device: nat, serial: string)
    requires RevokedExactly(s, t, org, device)
    ensures SerialTaken(t, org, serial) <==> SerialTaken(s, org, serial)
  {
    assert forall c :: c in s.certs ==> t.certs[c].serial == s.certs[c].serial && t.certs[c].org == s.certs[c].org;
  }

  /** A device revoked before it redeems its secret: enrollment makes it active. */
  lemma {:induction false} RevokedDeviceEnrolls(org: Org, id: string, hash: string, number: nat) returns (es: seq<Event>, t: Store)
    ensures Run(EMPTY, es) == Some(t) && 0 in t.devices && t.devices[0].status == ActiveDevice && ActiveFor(t, 0, 0)
    ensures |es| >= 2 && es[|es| - 2] == SetStatus(0, RevokedDevice) && es[|es| - 1] == EnrollTx(0, 0, number)
  {
    var s;
    es, s := PendingOnce(org, id, hash);
    var s1 := s.(devices := map[0 := Device(org, id, RevokedDevice)]);
    assert s.devices[0 := s.devices[0].(status := RevokedDevice)] == s1.devices;
    es := Extend(es, s, SetStatus(0, RevokedDevice), s1);
    t := AfterEnroll(s1, 0, 0, number);
    es := Extend(es, s1, EnrollTx(0, 0, number), t);
  }

  /** Enrollment makes even a revoked device active again. */
  lemma {:induction false} EnrollReactivates(s: Store, i: nat, cert: nat, number: nat)
    requires Inv(s) && Step(s, EnrollTx(i, cert, number)).Some?
    ensures Step(s, EnrollTx(i, cert, number)).value.devices[s.secrets[i].device].status == ActiveDevice
    ensures forall status :: Step(s.(devices := s.devices[s.secrets[i].device := s.devices[s.secrets[i].device].(status := status)]),
                                  EnrollTx(i, cert, number)) == Step(s, EnrollTx(i, cert, number))
  {
    forall status
      ensures Step(s.(devices := s.devices[s.secrets[i].device := s.devices[s.secrets[i].device].(status := status)]),
                   EnrollTx(i, cert, number)) == Step(s, EnrollTx(i, cert, number))
    {
      var device := s.secrets[i].device;
      var u := s.(devices := s.devices[device := s.devices[device].(status := status)]);
      assert SerialTaken(u, s.secrets[i].org, SerialText(number)) == SerialTaken(s, s.secrets[i].org, SerialText(number));
      assert AfterEnroll(u, i, cert, number).devices == AfterEnroll(s, i, cert, number).devices;
    }
  }
}
