/**
  The rotation service's operations, each called on its own. Every external call may fail;
  `faults` names the calls that do. Each operation is a run of the rotation state machine,
  so its effect under interleaving is covered there.
 */
module DeviceRotationService {
  import opened Options
  import opened DeviceNames
  import opened DeviceRotation

  datatype Op =
    | Token | Capability | EnableMount | GenerateRoot | ConfigureRole | Fingerprint | InsertRow | Teardown
    | ReadRow | FetchCertificate | WriteComplete | WritePromote | WriteAbort | MarkRow

  datatype Outcome = Done | NotFound | Refused(op: Op) | ActiveExists | InvalidTransition

  lemma {:induction false} RunAppend(s: State, es: seq<Event>, fs: seq<Event>)
    requires Run(s, es).Some?
    ensures Run(s, es + fs) == Run(Run(s, es).value, fs)
    decreases |fs|
  {
    if |fs| == 0 {
      assert es + fs == es;
    } else {
      var n := |fs| - 1;
      RunAppend(s, es, fs[..n]);
      assert (es + fs)[..|es| + n] == es + fs[..n];
    }
  }

  lemma {:induction false} RunOne(s: State, e: Event)
    ensures Run(s, [e]) == Step(s, e)
  {
    assert [e][..0] == [];
  }

  /** One more event. */
  lemma {:induction false} RunMore(s: State, es: seq<Event>, t: State, e: Event)
    requires Run(s, es) == Some(t)
    ensures Run(s, es + [e]) == Step(t, e)
  {
    RunAppend(s, es, [e]);
    RunOne(t, e);
  }

  /** DefaultGracePeriod: how long the old mount outlives the completion. */
  const GRACE_SECONDS: int := 72 * 3600

  predicate FailsToStart(faults: set<Op>) {
    || Token in faults || Capability in faults || EnableMount in faults || GenerateRoot in faults
    || ConfigureRole in faults || Fingerprint in faults || InsertRow in faults
  }

  /** A rotation of the organisation is under way. */
  ghost predicate Rotates(s: State, org: Org) {
    exists id :: id in s.rotations && s.rotations[id].org == org && s.rotations[id].phase in {Rotating, CutoverReady}
  }

  /** StartRotation: on any failure the rows and primary mounts are as before. */
  method StartRotation(s: State, org: Org, suffix: string, call: nat, id: nat, faults: set<Op>)
    returns (t: State, r: Outcome, ghost es: seq<Event>)
    requires call !in s.starts && id !in s.rotations
    requires org in s.primary ==> NextMount(s.primary[org], suffix) !in s.usedBy
    ensures Run(s, es) == Some(t) && t.primary == s.primary && t.starts == s.starts && t.log == s.log
    ensures Inv(s) ==> Inv(t)
    ensures r == Done ==>
              && org in s.primary && !Rotates(s, org)
              && var name := NextMount(s.primary[org], suffix);
                 && t.enabled == s.enabled + {name}
                 && t.rotations == s.rotations[id := Rotation(org, Rotating, s.primary[org], name, s.log.clock, 0, false)]
    ensures r != Done ==> t.rotations == s.rotations
    ensures r != Done && Teardown !in faults && org in s.primary ==>
              s.enabled - {NextMount(s.primary[org], suffix)} <= t.enabled <= s.enabled
    ensures r == ActiveExists <==> org in s.primary && Rotates(s, org) && !FailsToStart(faults)
    ensures r == Done <==> org in s.primary && !Rotates(s, org) && !FailsToStart(faults)
  {
    es := [];
    if org !in s.primary || Token in faults {
      return s, Refused(Token), es;
    }
    var name := NextMount(s.primary[org], suffix);
    if Capability in faults {
      return s, Refused(Capability), es;
    }
    if EnableMount in faults {
      t, es := UnmountedStart(s, org, name, call);
      return t, Refused(EnableMount), es;
    }
    var reason := Done;
    if GenerateRoot in faults {
      reason := Refused(GenerateRoot);
    } else if ConfigureRole in faults {
      reason := Refused(ConfigureRole);
    } else if Fingerprint in faults {
      reason := Refused(Fingerprint);
    } else if InsertRow in faults {
      reason := Refused(InsertRow);
    } else if HasActive(s, org) {
      reason := ActiveExists;
    }
    if reason != Done {
      t, es := MountedFailure(s, org, name, call, Teardown !in faults);
      return t, reason, es;
    }
    t, es := CreatedRotation(s, org, name, call, id);
    r := Done;
  }

  /** A start whose calls all succeed. */
  method CreatedRotation(s: State, org: Org, name: Mount, call: nat, id: nat)
    returns (t: State, ghost es: seq<Event>)
    requires org in s.primary && call !in s.starts && id !in s.rotations && name !in s.usedBy && !HasActive(s, org)
    ensures Run(s, es) == Some(t)
    ensures t == s.(enabled := s.enabled + {name}, usedBy := s.usedBy[name := ByRow(id)],
                    rotations := s.rotations[id := Rotation(org, Rotating, s.primary[org], name, s.log.clock, 0, false)])
    ensures Inv(s) ==> Inv(t)
  {
    var begin, create := BeginStart(call, org, name), CreateRow(call, id);
    var s1 := Step(s, begin).value;
    var s2 := Step(s1, Enable(call)).value;
    assert HasActive(s2, org) == HasActive(s, org);
    t := Step(s2, create).value;
    RunOne(s, begin);
    RunMore(s, [begin], s1, Enable(call));
    es := [begin] + [Enable(call)];
    RunMore(s, es, s2, create);
    es := es + [create];
    if Inv(s) {
      StepInv(s, begin, s1);
      StepInv(s1, Enable(call), s2);
      StepInv(s2, create, t);
    }
    assert t.starts == s.starts;
  }

  /** A start that fails before its mount is enabled. */
  method UnmountedStart(s: State, org: Org, name: Mount, call: nat) returns (t: State, ghost es: seq<Event>)
    requires org in s.primary && call !in s.starts && name !in s.usedBy
    ensures Run(s, es) == Some(t)
    ensures t == s.(usedBy := s.usedBy[name := ByCall(call)])
    ensures Inv(s) ==> Inv(t)
  {
    var begin, fail := BeginStart(call, org, name), FailStart(call, false);
    var s1 := Step(s, begin).value;
    RunOne(s, begin);
    t := Step(s1, fail).value;
    RunMore(s, [begin], s1, fail);
    es := [begin] + [fail];
    if Inv(s) {
      StepInv(s, begin, s1);
      StepInv(s1, fail, t);
    }
    assert t.starts == s.starts;
  }

  /** A start that fails after its mount is enabled, and tears it down or fails to. */
  method MountedFailure(s: State, org: Org, name: Mount, call: nat, torn: bool)
    returns (t: State, ghost es: seq<Event>)
    requires org in s.primary && call !in s.starts && name !in s.usedBy
    ensures Run(s, es) == Some(t)
    ensures t == s.(usedBy := s.usedBy[name := ByCall(call)],
                    enabled := if torn then s.enabled - {name} else s.enabled + {name})
    ensures Inv(s) ==> Inv(t)
  {
    var begin, fail := BeginStart(call, org, name), FailStart(call, torn);
    var s1 := Step(s, begin).value;
    var s2 := Step(s1, Enable(call)).value;
    RunOne(s, begin);
    RunMore(s, [begin], s1, Enable(call));
    es := [begin] + [Enable(call)];
    t := Step(s2, fail).value;
    RunMore(s, es, s2, fail);
    es := es + [fail];
    if Inv(s) {
      StepInv(s, begin, s1);
      StepInv(s1, Enable(call), s2);
      StepInv(s2, fail, t);
    }
    assert t.starts == s.starts;
    assert s.enabled + {name} - {name} == s.enabled - {name};
  }

  /**
    CompleteRotation: only from cutover_ready, and only for the organisation's own row.
    When the second write fails the row is terminal but nothing has been promoted.
   */
  method CompleteRotation(s: State, org: Org, id: nat, now: int, faults: set<Op>)
    returns (t: State, r: Outcome, ghost es: seq<Event>)
    requires Inv(s)
    ensures Run(s, es) == Some(t) && Inv(t) && t.enabled == s.enabled
    ensures var ready := && org in s.primary && id in s.rotations && s.rotations[id].org == org
                         && s.rotations[id].phase == CutoverReady
                         && faults !! {Token, ReadRow, FetchCertificate, WriteComplete};
            && (r == Done <==> ready && WritePromote !in faults)
            && (r == Refused(WritePromote) <==> ready && WritePromote in faults)
    ensures r == Done ==>
              && t.primary == s.primary[org := s.rotations[id].newMount]
              && t.rotations == s.rotations[id := s.rotations[id].(phase := Idle, grace := now + 259200)]
              && Promoted(t, id)
    ensures r == Refused(WritePromote) ==>
              && t.primary == s.primary
              && t.rotations == s.rotations[id := s.rotations[id].(phase := Idle, grace := now + 259200)]
              && !Promoted(t, id)
    ensures r != Done && r != Refused(WritePromote) ==> t == s
  {
    es := [];
    if org !in s.primary || Token in faults {
      return s, Refused(Token), es;
    }
    if ReadRow in faults {
      return s, Refused(ReadRow), es;
    }
    if id !in s.rotations || s.rotations[id].org != org {
      return s, NotFound, es;
    }
    if FetchCertificate in faults {
      return s, Refused(FetchCertificate), es;
    }
    if WriteComplete in faults {
      return s, Refused(WriteComplete), es;
    }
    if s.rotations[id].phase != CutoverReady {
      return s, InvalidTransition, es;
    }
    assert RowOk(s, id);
    var grace := now + GRACE_SECONDS;
    var s1 := Step(s, CompleteRow(id, grace)).value;
    StepInv(s, CompleteRow(id, grace), s1);
    RunOne(s, CompleteRow(id, grace));
    es := [CompleteRow(id, grace)];
    if WritePromote in faults {
      return s1, Refused(WritePromote), es;
    }
    t := Step(s1, Promote(id)).value;
    StepInv(s1, Promote(id), t);
    RunMore(s, es, s1, Promote(id));
    es := es + [Promote(id)];
    r := Done;
  }

  /** AbortRotation: rolls the row back and discards the new mount; primaries are untouched. */
  method AbortRotation(s: State, org: Org, id: nat, faults: set<Op>)
    returns (t: State, r: Outcome, ghost es: seq<Event>)
    requires Inv(s)
    ensures Run(s, es) == Some(t) && Inv(t) && t.primary == s.primary
    ensures r == Done <==>
              && id in s.rotations && s.rotations[id].org == org && s.rotations[id].phase in {Rotating, CutoverReady}
              && ReadRow !in faults && WriteAbort !in faults
    ensures r == Done ==>
              && t.rotations == s.rotations[id := s.rotations[id].(phase := Rollback)]
              && (Token in faults || Teardown in faults || t.enabled == s.enabled - {s.rotations[id].newMount})
              && s.enabled - {s.rotations[id].newMount} <= t.enabled
    ensures r != Done ==> t == s
  {
    es := [];
    if ReadRow in faults {
      return s, Refused(ReadRow), es;
    }
    if id !in s.rotations || s.rotations[id].org != org {
      return s, NotFound, es;
    }
    if WriteAbort in faults {
      return s, Refused(WriteAbort), es;
    }
    if !Active(s.rotations[id]) {
      return s, InvalidTransition, es;
    }
    t := Step(s, AbortRow(id)).value;
    StepInv(s, AbortRow(id), t);
    RunOne(s, AbortRow(id));
    es := [AbortRow(id)];
    if Token !in faults && Teardown !in faults {
      var s1 := t;
      t := Step(s1, DisableNew(id)).value;
      StepInv(s1, DisableNew(id), t);
      RunMore(s, es, s1, DisableNew(id));
      es := es + [DisableNew(id)];
    }
    r := Done;
  }

  /** The rows a cleanup pass looks at. */
  function DueRows(s: State, now: int): set<nat> {
    set id | id in s.rotations && Due(s.rotations[id], now)
  }

  function DueMounts(s: State, now: int): set<Mount> {
    set id | id in DueRows(s, now) :: s.rotations[id].oldMount
  }

  /** How a cleanup pass may have changed a row: not at all, or marked removed with its mount gone. */
  predicate CleanedRow(s: State, t: State, now: int, id: nat)
    requires id in s.rotations && id in t.rotations
  {
    || t.rotations[id] == s.rotations[id]
    || (&& t.rotations[id] == s.rotations[id].(oldRemoved := true)
        && s.rotations[id].phase == Idle && s.rotations[id].grace <= now && s.rotations[id].oldMount !in t.enabled)
  }

  ghost predicate Cleaned(s: State, t: State, now: int) {
    && t.primary == s.primary && t.log == s.log && t.starts == s.starts
    && t.rotations.Keys == s.rotations.Keys && t.enabled <= s.enabled <= t.enabled + DueMounts(s, now)
    && forall id {:trigger CleanedRow(s, t, now, id)} :: id in s.rotations ==> CleanedRow(s, t, now, id)
  }

  /** Of the completed rotations away from the mount, all that are not done with are within their grace window. */
  ghost predicate InGrace(s: State, m: Mount, now: int) {
    forall id :: id in s.rotations && s.rotations[id].oldMount == m && s.rotations[id].phase == Idle ==>
      s.rotations[id].oldRemoved || s.rotations[id].grace > now
  }

  /** Every completed rotation past its grace window is marked removed, but for those named. */
  ghost predicate ElapsedRemoved(s: State, t: State, now: int, but: set<nat>) {
    forall id {:trigger id in s.rotations} ::
      id in s.rotations && id !in but && s.rotations[id].phase == Idle && s.rotations[id].grace <= now ==>
        id in t.rotations && t.rotations[id].oldRemoved
  }

  /** What a finished pass means for the rows past their grace window and the mounts within theirs. */
  lemma {:induction false} PassMeans(s: State, t: State, now: int, faults: map<nat, set<Op>>)
    requires Cleaned(s, t, now)
    requires forall id :: id in DueRows(s, now) && id !in faults ==> t.rotations[id].oldRemoved
    ensures ElapsedRemoved(s, t, now, faults.Keys)
    ensures forall m {:trigger InGrace(s, m, now)} :: m in s.enabled && InGrace(s, m, now) ==> m in t.enabled
  {
    forall id | id in s.rotations && id !in faults.Keys && s.rotations[id].phase == Idle && s.rotations[id].grace <= now
      ensures id in t.rotations && t.rotations[id].oldRemoved
    {
      assert CleanedRow(s, t, now, id);
      assert !s.rotations[id].oldRemoved ==> id in DueRows(s, now);
    }
    forall m | m in s.enabled && InGrace(s, m, now) ensures m in t.enabled {
      assert m !in DueMounts(s, now);
    }
  }

  /** Cleanup of one due row. */
  method CleanupRow(s: State, now: int, id: nat, failing: set<Op>) returns (t: State, ghost es: seq<Event>)
    requires id in s.rotations && Due(s.rotations[id], now)
    ensures Run(s, es) == Some(t) && Cleaned(s, t, now)
    ensures forall i :: i in s.rotations && i != id ==> t.rotations[i] == s.rotations[i]
    ensures failing == {} ==> t.rotations[id].oldRemoved
    ensures Inv(s) && Retirable(s, id) ==> Inv(t)
  {
    if Token in failing || Capability in failing || Teardown in failing {
      return s, [];
    }
    t := Step(s, Retire(id, now)).value;
    RunOne(s, Retire(id, now));
    es := [Retire(id, now)];
    if Inv(s) && Retirable(s, id) { StepInv(s, Retire(id, now), t); }
    if MarkRow in failing {
      return t, es;
    }
    ghost var s1 := t;
    t := Step(t, MarkRemoved(id)).value;
    RunMore(s, es, s1, MarkRemoved(id));
    if Inv(s) && Retirable(s, id) { StepInv(s1, MarkRemoved(id), t); }
    es := es + [MarkRemoved(id)];
  }

  lemma {:induction false} CleanedTwice(s: State, t: State, u: State, now: int, id: nat)
    requires Cleaned(s, t, now) && Cleaned(t, u, now)
    requires id in s.rotations && t.rotations[id] == s.rotations[id]
    requires forall i :: i in t.rotations && i != id ==> u.rotations[i] == t.rotations[i]
    ensures Cleaned(s, u, now)
  {
    forall i | i in s.rotations ensures CleanedRow(s, u, now, i) {
      assert CleanedRow(s, t, now, i) && CleanedRow(t, u, now, i);
    }
  }

  /** One round of the cleanup loop, for a row not yet looked at. */
  method CleanupNext(s: State, t: State, ghost es: seq<Event>, now: int, id: nat, failing: set<Op>)
    returns (u: State, ghost fs: seq<Event>)
    requires Run(s, es) == Some(t) && Cleaned(s, t, now)
    requires id in s.rotations && Due(s.rotations[id], now) && t.rotations[id] == s.rotations[id]
    ensures Run(s, fs) == Some(u) && Cleaned(s, u, now)
    ensures forall i :: i in t.rotations && i != id ==> u.rotations[i] == t.rotations[i]
    ensures failing == {} ==> u.rotations[id].oldRemoved
    ensures Inv(t) && Retirable(s, id) ==> Inv(u)
  {
    ghost var more;
    u, more := CleanupRow(t, now, id, failing);
    RunAppend(s, es, more);
    fs := es + more;
    CleanedTwice(s, t, u, now, id);
  }

  /**
    CleanupExpiredGrace: each due row meets its own faults. Only old mounts of due rows are
    disabled, a row is marked removed only once its old mount is gone, and every due row
    without a fault is. When the configurations have left all due mounts behind, the
    invariant, and so every primary mount, survives.
   */
  method CleanupExpiredGrace(s: State, now: int, faults: map<nat, set<Op>>)
    returns (t: State, ghost es: seq<Event>)
    ensures Run(s, es) == Some(t) && Cleaned(s, t, now)
    ensures ElapsedRemoved(s, t, now, faults.Keys)
    ensures forall m {:trigger InGrace(s, m, now)} :: m in s.enabled && InGrace(s, m, now) ==> m in t.enabled
    ensures Inv(s) && (forall id :: id in DueRows(s, now) ==> Retirable(s, id)) ==> Inv(t)
  {
    t, es := s, [];
    var due := DueRows(s, now);
    ghost var kept := Inv(s) && forall id :: id in due ==> Retirable(s, id);
    var rows := due;
    while rows != {}
      invariant rows <= due
      invariant Run(s, es) == Some(t) && Cleaned(s, t, now)
      invariant forall id :: id in rows ==> t.rotations[id] == s.rotations[id]
      invariant forall id :: id in due && id !in rows && id !in faults ==> t.rotations[id].oldRemoved
      invariant kept ==> Inv(t)
      decreases |rows|
    {
      var id :| id in rows;
      rows := rows - {id};
      t, es := CleanupNext(s, t, es, now, id, if id in faults then faults[id] else {});
    }
    PassMeans(s, t, now, faults);
  }
}
