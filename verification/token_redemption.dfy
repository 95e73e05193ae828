/**
  Redemption of analytics tokens. Each report verifies its token, looks it up in the table
  of spent tokens, inserts it, and adds to its organisation's counter: three database calls,
  interleaved here with those of any number of other reports and with the table's purge.
 */
module TokenRedemption {
  import opened Options
  import opened Codec
  import opened BlindToken

  type Org = string

  datatype Env = Env(keys: Org -> PublicKey, sha: Hash)

  datatype Report = Report(org: Org, msgHex: string, sigHex: string)

  /**
    Looked: found unspent, not yet inserted. Marked: inserted, not yet counted. Recorded and
    Lost: counted, or not because the counter could not be written. Refused: the insert failed.
   */
  datatype Stage = Looked | Marked | Recorded | Lost | Refused

  datatype Call = Call(report: Report, hash: string, stage: Stage)

  /** `spent` is the table, whose primary key is the hash; `purged` is history. */
  datatype State = State(calls: seq<Call>, spent: map<string, Org>, counters: map<Org, nat>, purged: multiset<string>)

  const INITIAL: State := State([], map[], map[], multiset{})

  datatype Event =
    | Look(report: Report)
    | Mark(call: nat)
    | MarkFails(call: nat)
    | Count(call: nat, written: bool)
    | Purge(hash: string)

  predicate Genuine(env: Env, r: Report) {
    env.keys(r.org).n > 0 && Verify(r.msgHex, r.sigHex, env.keys(r.org), env.sha)
  }

  function Counter(s: State, org: Org): nat {
    if org in s.counters then s.counters[org] else 0
  }

  function SetStage(s: State, i: nat, stage: Stage): State
    requires i < |s.calls|
  {
    s.(calls := s.calls[i := s.calls[i].(stage := stage)])
  }

  predicate At(s: State, i: nat, stage: Stage) {
    i < |s.calls| && s.calls[i].stage == stage
  }

  /** One database call; a report that is refused at once leaves no trace. */
  function Step(env: Env, s: State, e: Event): Option<State> {
    match e
    case Look(r) =>
      if !Genuine(env, r) then Some(s)
      else
        var h := TokenHash(r.msgHex, env.sha).value;
        if h in s.spent && s.spent[h] == r.org then Some(s)
        else Some(s.(calls := s.calls + [Call(r, h, Looked)]))
    case Mark(i) =>
      if !At(s, i, Looked) then None
      else if s.calls[i].hash in s.spent then Some(SetStage(s, i, Refused))
      else Some(SetStage(s, i, Marked).(spent := s.spent[s.calls[i].hash := s.calls[i].report.org]))
    case MarkFails(i) =>
      if !At(s, i, Looked) then None else Some(SetStage(s, i, Refused))
    case Count(i, written) =>
      if !At(s, i, Marked) then None
      else if !written then Some(SetStage(s, i, Lost))
      else
        var org := s.calls[i].report.org;
        Some(SetStage(s, i, Recorded).(counters := s.counters[org := Counter(s, org) + 1]))
    case Purge(h) =>
      if h !in s.spent then None
      else Some(s.(spent := s.spent - {h}, purged := s.purged + multiset{h}))
  }

  function Run(env: Env, s: State, es: seq<Event>): Option<State>
    decreases |es|
  {
    if |es| == 0 then Some(s)
    else
      match Run(env, s, es[..|es| - 1])
      case None => None
      case Some(t) => Step(env, t, es[|es| - 1])
  }

  // ---------- Conservation ----------

  predicate Holds(c: Call, h: string) {
    c.hash == h && c.stage in {Marked, Recorded, Lost}
  }

  /** How many reports have inserted this hash. */
  function Held(calls: seq<Call>, h: string): nat {
    if |calls| == 0 then 0 else Held(calls[..|calls| - 1], h) + (if Holds(calls[|calls| - 1], h) then 1 else 0)
  }

  predicate CountsFor(c: Call, org: Org) {
    c.report.org == org && c.stage == Recorded
  }

  function RecordedFor(calls: seq<Call>, org: Org): nat {
    if |calls| == 0 then 0
    else RecordedFor(calls[..|calls| - 1], org) + (if CountsFor(calls[|calls| - 1], org) then 1 else 0)
  }

  lemma {:induction false} HeldUpdate(calls: seq<Call>, i: nat, c: Call, h: string)
    requires i < |calls|
    ensures Held(calls[i := c], h) == Held(calls, h) - (if Holds(calls[i], h) then 1 else 0) + (if Holds(c, h) then 1 else 0)
    decreases |calls|
  {
    var n := |calls| - 1;
    if i < n {
      assert calls[i := c][..n] == calls[..n][i := c];
      HeldUpdate(calls[..n], i, c, h);
    } else {
      assert calls[i := c][..n] == calls[..n];
    }
  }

  lemma {:induction false} RecordedUpdate(calls: seq<Call>, i: nat, c: Call, org: Org)
    requires i < |calls|
    ensures RecordedFor(calls[i := c], org) ==
            RecordedFor(calls, org) - (if CountsFor(calls[i], org) then 1 else 0) + (if CountsFor(c, org) then 1 else 0)
    decreases |calls|
  {
    var n := |calls| - 1;
    if i < n {
      assert calls[i := c][..n] == calls[..n][i := c];
      RecordedUpdate(calls[..n], i, c, org);
    } else {
      assert calls[i := c][..n] == calls[..n];
    }
  }

  predicate CallOk(env: Env, c: Call) {
    Genuine(env, c.report) && TokenHash(c.report.msgHex, env.sha) == Some(c.hash)
  }

  /** A hash was inserted as often as it was purged, and once more while it is in the table. */
  ghost predicate HashOk(s: State, h: string) {
    Held(s.calls, h) == s.purged[h] + (if h in s.spent then 1 else 0)
  }

  ghost predicate CounterOk(s: State, org: Org) {
    Counter(s, org) == RecordedFor(s.calls, org)
  }

  ghost predicate Inv(env: Env, s: State) {
    && (forall i {:trigger s.calls[i]} :: 0 <= i < |s.calls| ==> CallOk(env, s.calls[i]))
    && (forall h {:trigger HashOk(s, h)} :: HashOk(s, h))
    && (forall o {:trigger CounterOk(s, o)} :: CounterOk(s, o))
  }

  lemma {:induction false} LookInv(env: Env, s: State, r: Report, t: State)
    requires Inv(env, s) && Step(env, s, Look(r)) == Some(t)
    ensures Inv(env, t)
  {
    if t != s {
      assert t.calls[..|s.calls|] == s.calls;
      forall h ensures HashOk(t, h) { assert HashOk(s, h); }
      forall o ensures CounterOk(t, o) { assert CounterOk(s, o); }
    }
  }

  lemma {:induction false} StageInv(env: Env, s: State, i: nat, stage: Stage, t: State)
    requires Inv(env, s) && i < |s.calls| && t.calls == s.calls[i := s.calls[i].(stage := stage)] && t.purged == s.purged
    requires forall h :: h != s.calls[i].hash ==> (h in t.spent <==> h in s.spent)
    requires var h := s.calls[i].hash;
             (if h in t.spent then 1 else 0) - (if h in s.spent then 1 else 0) ==
             (if Holds(t.calls[i], h) then 1 else 0) - (if Holds(s.calls[i], h) then 1 else 0)
    requires forall o :: Counter(t, o) - Counter(s, o) ==
               (if CountsFor(t.calls[i], o) then 1 else 0) - (if CountsFor(s.calls[i], o) then 1 else 0)
    ensures Inv(env, t)
  {
    forall j | 0 <= j < |t.calls| ensures CallOk(env, t.calls[j]) {
      assert CallOk(env, s.calls[j]);
    }
    forall h ensures HashOk(t, h) {
      assert HashOk(s, h);
      HeldUpdate(s.calls, i, t.calls[i], h);
    }
    forall o ensures CounterOk(t, o) {
      assert CounterOk(s, o);
      RecordedUpdate(s.calls, i, t.calls[i], o);
    }
  }

  lemma {:induction false} MarkInv(env: Env, s: State, i: nat, t: State)
    requires Inv(env, s) && Step(env, s, Mark(i)) == Some(t)
    ensures Inv(env, t)
  {
    StageInv(env, s, i, t.calls[i].stage, t);
  }

  lemma {:induction false} CountInv(env: Env, s: State, i: nat, written: bool, t: State)
    requires Inv(env, s) && Step(env, s, Count(i, written)) == Some(t)
    ensures Inv(env, t)
  {
    StageInv(env, s, i, t.calls[i].stage, t);
  }

  lemma {:induction false} StepInv(env: Env, s: State, e: Event, t: State)
    requires Inv(env, s) && Step(env, s, e) == Some(t)
    ensures Inv(env, t)
  {
    match e {
      case Look(r) => LookInv(env, s, r, t);
      case Mark(i) => MarkInv(env, s, i, t);
      case MarkFails(i) => StageInv(env, s, i, Refused, t);
      case Count(i, written) => CountInv(env, s, i, written, t);
      case Purge(hash) =>
        forall h ensures HashOk(t, h) { assert HashOk(s, h); }
        forall o ensures CounterOk(t, o) { assert CounterOk(s, o); }
    }
  }

  lemma {:induction false} RunInv(env: Env, es: seq<Event>)
    requires Run(env, INITIAL, es).Some?
    ensures Inv(env, Run(env, INITIAL, es).value)
    decreases |es|
  {
    if |es| > 0 {
      RunInv(env, es[..|es| - 1]);
      StepInv(env, Run(env, INITIAL, es[..|es| - 1]).value, es[|es| - 1], Run(env, INITIAL, es).value);
    }
  }

  /**
    Over every interleaving an organisation's counter is the number of its recorded reports,
    each of which carried a genuine token, and a hash is inserted once for each time it was
    purged and once more while it stands in the table.
   */
  lemma {:induction false} RedeemConserves(env: Env, es: seq<Event>, org: Org, h: string, i: nat)
    requires Run(env, INITIAL, es).Some?
    ensures var s := Run(env, INITIAL, es).value;
            && Counter(s, org) == RecordedFor(s.calls, org)
            && Held(s.calls, h) == s.purged[h] + (if h in s.spent then 1 else 0)
            && (i < |s.calls| ==> Genuine(env, s.calls[i].report))
  {
    RunInv(env, es);
    var s := Run(env, INITIAL, es).value;
    assert HashOk(s, h) && CounterOk(s, org);
    assert i < |s.calls| ==> CallOk(env, s.calls[i]);
  }

  /** The state after the first n events of a run. */
  ghost function After(env: Env, es: seq<Event>, n: nat): State
    requires n <= |es| && Run(env, INITIAL, es[..n]).Some?
  {
    Run(env, INITIAL, es[..n]).value
  }

  /** Event x of the run puts the hash into the table for report i. */
  ghost predicate Inserts(env: Env, es: seq<Event>, x: nat, i: nat, h: string) {
    && x < |es| && es[x] == Mark(i)
    && Run(env, INITIAL, es[..x]).Some? && Run(env, INITIAL, es[..x + 1]).Some?
    && h !in After(env, es, x).spent && h in After(env, es, x + 1).spent
  }

  /** Every report that holds a hash has inserted it. */
  lemma {:induction false} HolderInserted(env: Env, es: seq<Event>, i: nat, h: string) returns (x: nat)
    requires Run(env, INITIAL, es).Some?
    requires var s := Run(env, INITIAL, es).value;
             i < |s.calls| && Holds(s.calls[i], h)
    ensures Inserts(env, es, x, i, h)
    decreases |es|
  {
    var n := |es| - 1;
    var before := es[..n];
    var s := Run(env, INITIAL, before).value;
    if i < |s.calls| && Holds(s.calls[i], h) {
      x := HolderInserted(env, before, i, h);
      assert before[..x] == es[..x] && before[..x + 1] == es[..x + 1];
    } else {
      x := n;
      assert es[..n + 1] == es;
      HoldsBegins(env, s, es[n], Run(env, INITIAL, es).value, i, h);
    }
  }

  /** A report comes to hold its hash only by inserting it. */
  lemma {:induction false} HoldsBegins(env: Env, s: State, e: Event, t: State, i: nat, h: string)
    requires Step(env, s, e) == Some(t) && i < |t.calls| && Holds(t.calls[i], h)
    requires !(i < |s.calls| && Holds(s.calls[i], h))
    ensures e == Mark(i) && h !in s.spent && h in t.spent
  {
  }

  /** A hash that was in the table and is no longer has been purged. */
  lemma {:induction false} GonePurged(env: Env, es: seq<Event>, h: string, a: nat, b: nat) returns (y: nat)
    requires a <= b <= |es| && Run(env, INITIAL, es[..a]).Some? && Run(env, INITIAL, es[..b]).Some?
    requires h in After(env, es, a).spent && h !in After(env, es, b).spent
    ensures a <= y < b && es[y] == Purge(h)
    decreases b
  {
    assert es[..b][..b - 1] == es[..b - 1];
    if h in After(env, es, b - 1).spent {
      y := b - 1;
    } else {
      y := GonePurged(env, es, h, a, b - 1);
    }
  }

  /**
    Single use: two reports of one message, however its digits are spelled, whichever
    organisations they go to and however their calls interleave, are both recorded only if
    the token was purged after one of them had inserted it and before the other did.
   */
  lemma {:induction false} SingleUse(env: Env, es: seq<Event>, i: nat, j: nat) returns (x: nat, y: nat, z: nat)
    requires Run(env, INITIAL, es).Some?
    requires var s := Run(env, INITIAL, es).value;
             At(s, i, Recorded) && At(s, j, Recorded) && i != j &&
             LowerHex(s.calls[i].report.msgHex) == LowerHex(s.calls[j].report.msgHex)
    ensures var h := Run(env, INITIAL, es).value.calls[i].hash;
            && x < y < z < |es| && es[y] == Purge(h)
            && ((Inserts(env, es, x, i, h) && Inserts(env, es, z, j, h)) ||
                (Inserts(env, es, x, j, h) && Inserts(env, es, z, i, h)))
  {
    var s := Run(env, INITIAL, es).value;
    var h := s.calls[i].hash;
    SameHash(env, es, i, j);
    x := HolderInserted(env, es, i, h);
    z := HolderInserted(env, es, j, h);
    if x < z {
      y := PurgeBetween(env, es, x, i, z, j, h);
    } else {
      y := PurgeBetween(env, es, z, j, x, i, h);
      x, z := z, x;
    }
  }

  /** Between two inserts of one hash lies a purge. */
  lemma {:induction false} PurgeBetween(env: Env, es: seq<Event>, x: nat, i: nat, z: nat, j: nat, h: string) returns (y: nat)
    requires Inserts(env, es, x, i, h) && Inserts(env, es, z, j, h) && x < z
    ensures x < y < z && es[y] == Purge(h)
  {
    y := GonePurged(env, es, h, x + 1, z);
  }

  lemma {:induction false} SameHash(env: Env, es: seq<Event>, i: nat, j: nat)
    requires Run(env, INITIAL, es).Some?
    requires var s := Run(env, INITIAL, es).value;
             i < |s.calls| && j < |s.calls| && LowerHex(s.calls[i].report.msgHex) == LowerHex(s.calls[j].report.msgHex)
    ensures var s := Run(env, INITIAL, es).value;
            s.calls[i].hash == s.calls[j].hash
  {
    RunInv(env, es);
    var s := Run(env, INITIAL, es).value;
    assert CallOk(env, s.calls[i]) && CallOk(env, s.calls[j]);
    SameSpelling(s.calls[i].report.msgHex, s.calls[j].report.msgHex);
  }

  /** Wherever a token is unspent, two reports may both find it so: the table's key admits one. */
  lemma {:induction false} RaceMarksOnce(env: Env, s: State, r: Report, h: string) returns (t: State)
    requires Genuine(env, r) && TokenHash(r.msgHex, env.sha) == Some(h) && h !in s.spent
    ensures Run(env, s, [Look(r), Look(r), Mark(|s.calls|), Mark(|s.calls| + 1)]) == Some(t)
    ensures At(t, |s.calls|, Marked) && At(t, |s.calls| + 1, Refused)
  {
    var n := |s.calls|;
    var looked := Call(r, h, Looked);
    var s1 := s.(calls := s.calls + [looked]);
    LookStep(env, s, r, h);
    var s2 := s.(calls := s1.calls + [looked]);
    LookStep(env, s1, r, h);
    var s3 := SetStage(s2, n, Marked).(spent := s.spent[h := r.org]);
    t := SetStage(s3, n + 1, Refused);
    RunFour(env, s, Look(r), s1, Look(r), s2, Mark(n), s3, Mark(n + 1), t);
  }

  lemma {:induction false} LookStep(env: Env, s: State, r: Report, h: string)
    requires Genuine(env, r) && TokenHash(r.msgHex, env.sha) == Some(h) && h !in s.spent
    ensures Step(env, s, Look(r)) == Some(s.(calls := s.calls + [Call(r, h, Looked)]))
  {
  }

  lemma {:induction false} RunFour(env: Env, s: State, e1: Event, s1: State, e2: Event, s2: State,
                                   e3: Event, s3: State, e4: Event, s4: State)
    requires Step(env, s, e1) == Some(s1) && Step(env, s1, e2) == Some(s2)
    requires Step(env, s2, e3) == Some(s3) && Step(env, s3, e4) == Some(s4)
    ensures Run(env, s, [e1, e2, e3, e4]) == Some(s4)
  {
    assert [e1][..0] == [] && Run(env, s, [e1]) == Some(s1);
    assert [e1, e2][..1] == [e1] && Run(env, s, [e1, e2]) == Some(s2);
    assert [e1, e2, e3][..2] == [e1, e2] && Run(env, s, [e1, e2, e3]) == Some(s3);
    assert [e1, e2, e3, e4][..3] == [e1, e2, e3];
  }

  /** After a purge the same token is recorded again. */
  lemma {:induction false} PurgedTokenReturns(env: Env, before: seq<Event>, s: State, r: Report, h: string)
    returns (es: seq<Event>, t: State)
    requires Genuine(env, r) && TokenHash(r.msgHex, env.sha) == Some(h)
    requires Run(env, INITIAL, before) == Some(s) && h !in s.spent
    ensures Run(env, INITIAL, es) == Some(t)
    ensures At(t, |s.calls|, Recorded) && At(t, |s.calls| + 1, Recorded)
    ensures t.calls[|s.calls|].report == t.calls[|s.calls| + 1].report == r && Counter(t, r.org) == Counter(s, r.org) + 2
  {
    var u;
    es, u := RedeemOnce(env, before, s, r, h);
    var v := u.(spent := u.spent - {h}, purged := u.purged + multiset{h});
    es := Extend(env, es, u, Purge(h), v);
    es, t := RedeemOnce(env, es, v, r, h);
  }

  /** One report of a token that is not in the table, carried through. */
  lemma {:induction false} RedeemOnce(env: Env, es: seq<Event>, s: State, r: Report, h: string)
    returns (es': seq<Event>, t: State)
    requires Genuine(env, r) && TokenHash(r.msgHex, env.sha) == Some(h)
    requires Run(env, INITIAL, es) == Some(s) && h !in s.spent
    ensures es' == es + [Look(r), Mark(|s.calls|), Count(|s.calls|, true)] && Run(env, INITIAL, es') == Some(t)
    ensures t == State(s.calls + [Call(r, h, Recorded)], s.spent[h := r.org],
                       s.counters[r.org := Counter(s, r.org) + 1], s.purged)
  {
    var n := |s.calls|;
    var s1 := s.(calls := s.calls + [Call(r, h, Looked)]);
    LookStep(env, s, r, h);
    es' := Extend(env, es, s, Look(r), s1);
    var s2 := SetStage(s1, n, Marked).(spent := s.spent[h := r.org]);
    es' := Extend(env, es', s1, Mark(n), s2);
    t := SetStage(s2, n, Recorded).(counters := s.counters[r.org := Counter(s, r.org) + 1]);
    es' := Extend(env, es', s2, Count(n, true), t);
    assert t.calls == s.calls + [Call(r, h, Recorded)];
  }

  lemma {:induction false} Extend(env: Env, es: seq<Event>, s: State, e: Event, t: State) returns (es': seq<Event>)
    requires Run(env, INITIAL, es) == Some(s) && Step(env, s, e) == Some(t)
    ensures es' == es + [e] && Run(env, INITIAL, es') == Some(t)
  {
    es' := es + [e];
    assert es'[..|es|] == es;
  }

  // ---------- A token is stopped by its own digest only ----------

  /** The report's message decodes to that digest. */
  predicate Carries(env: Env, r: Report, digest: seq<Byte>) {
    DecodeHex(r.msgHex).Some? && DigestOf(r.msgHex, env.sha) == digest
  }

  predicate Holding(env: Env, c: Call, digest: seq<Byte>) {
    Carries(env, c.report, digest) && c.stage in {Marked, Recorded, Lost}
  }

  /** How many reports have inserted a token of this digest. */
  function Holders(env: Env, calls: seq<Call>, digest: seq<Byte>): nat {
    if |calls| == 0 then 0
    else Holders(env, calls[..|calls| - 1], digest) + (if Holding(env, calls[|calls| - 1], digest) then 1 else 0)
  }

  /** Counting by hash is counting by digest. */
  lemma {:induction false} HoldersHeld(env: Env, calls: seq<Call>, r: Report, digest: seq<Byte>, h: string)
    requires forall i {:trigger calls[i]} :: 0 <= i < |calls| ==> CallOk(env, calls[i])
    requires Carries(env, r, digest) && TokenHash(r.msgHex, env.sha) == Some(h)
    ensures Holders(env, calls, digest) == Held(calls, h)
    decreases |calls|
  {
    if |calls| > 0 {
      var last := calls[|calls| - 1];
      HoldersHeld(env, calls[..|calls| - 1], r, digest, h);
      assert CallOk(env, last);
      TokenHashDistinguishes(last.report.msgHex, r.msgHex, env.sha);
    }
  }

  /** The digest's row has been purged as often as it was inserted. */
  ghost predicate Free(env: Env, s: State, r: Report, digest: seq<Byte>) {
    exists h :: TokenHash(r.msgHex, env.sha) == Some(h) && Holders(env, s.calls, digest) == s.purged[h]
  }

  lemma {:induction false} FreeIff(env: Env, es: seq<Event>, s: State, r: Report, digest: seq<Byte>, h: string)
    requires Run(env, INITIAL, es) == Some(s)
    requires Carries(env, r, digest) && TokenHash(r.msgHex, env.sha) == Some(h)
    ensures Free(env, s, r, digest) <==> h !in s.spent
  {
    RunInv(env, es);
    HoldersHeld(env, s.calls, r, digest, h);
    assert HashOk(s, h);
  }

  /** A report whose digest no other has inserted is free. */
  lemma {:induction false} UnsharedFree(env: Env, es: seq<Event>, s: State, r: Report, digest: seq<Byte>)
    requires Run(env, INITIAL, es) == Some(s) && Carries(env, r, digest)
    requires forall i :: 0 <= i < |s.calls| ==> !Holding(env, s.calls[i], digest)
    ensures Free(env, s, r, digest)
  {
    var h := TokenHash(r.msgHex, env.sha).value;
    NoHolders(env, s.calls, digest);
    RunInv(env, es);
    HoldersHeld(env, s.calls, r, digest, h);
    assert HashOk(s, h);
  }

  lemma {:induction false} NoHolders(env: Env, calls: seq<Call>, digest: seq<Byte>)
    requires forall i :: 0 <= i < |calls| ==> !Holding(env, calls[i], digest)
    ensures Holders(env, calls, digest) == 0
    decreases |calls|
  {
    if |calls| > 0 { NoHolders(env, calls[..|calls| - 1], digest); }
  }

  /**
    In every reachable state a genuine report is looked up if its digest is free, and the
    insert that follows succeeds if and only if it still is; no other token can stand in
    its way.
   */
  lemma {:induction false} FreeTokenPasses(env: Env, es: seq<Event>, s: State, r: Report, digest: seq<Byte>, i: nat)
    requires Run(env, INITIAL, es) == Some(s) && Carries(env, r, digest)
    ensures Genuine(env, r) && Free(env, s, r, digest) ==>
              exists t, h :: Step(env, s, Look(r)) == Some(t) && t.calls == s.calls + [Call(r, h, Looked)]
    ensures At(s, i, Looked) && s.calls[i].report == r ==>
              && Step(env, s, Mark(i)).Some?
              && (At(Step(env, s, Mark(i)).value, i, Marked) <==> Free(env, s, r, digest))
    ensures At(s, i, Marked) && s.calls[i].report == r ==>
              && Step(env, s, Count(i, true)).Some?
              && At(Step(env, s, Count(i, true)).value, i, Recorded)
              && Counter(Step(env, s, Count(i, true)).value, r.org) == Counter(s, r.org) + 1
  {
    RunInv(env, es);
    var h := TokenHash(r.msgHex, env.sha).value;
    FreeIff(env, es, s, r, digest, h);
    if Genuine(env, r) && h !in s.spent {
      LookStep(env, s, r, h);
      assert Step(env, s, Look(r)) == Some(s.(calls := s.calls + [Call(r, h, Looked)]));
    }
    if i < |s.calls| && s.calls[i].report == r {
      assert CallOk(env, s.calls[i]);
    }
  }

  /** So after any run a genuine token whose digest is free can be carried through to the counter. */
  lemma {:induction false} FreeTokenRecorded(env: Env, es: seq<Event>, s: State, r: Report, digest: seq<Byte>)
    returns (es': seq<Event>, t: State)
    requires Run(env, INITIAL, es) == Some(s)
    requires Genuine(env, r) && Carries(env, r, digest) && Free(env, s, r, digest)
    ensures es' == es + [Look(r), Mark(|s.calls|), Count(|s.calls|, true)] && Run(env, INITIAL, es') == Some(t)
    ensures At(t, |s.calls|, Recorded) && t.calls[|s.calls|].report == r
    ensures Counter(t, r.org) == Counter(s, r.org) + 1
  {
    var h := TokenHash(r.msgHex, env.sha).value;
    FreeIff(env, es, s, r, digest, h);
    es', t := RedeemOnce(env, es, s, r, h);
  }
}
