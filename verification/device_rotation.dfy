/**
  Staged rotation of the device CA as a state machine over Vault mounts, CA configurations
  and rotation rows. Each event is one external call or one database write, so a run is an
  interleaving of any number of concurrent starts, completions, aborts and cleanups, each
  of which may stop after any of its calls.
 */
module DeviceRotation {
  import opened Options
  import opened DeviceNames

  type Org = string
  type Mount = string

  datatype Phase = Rotating | CutoverReady | Idle | Rollback

  /** A row of device_ca_rotations. `readAt` is history: when the old mount was read. */
  datatype Rotation = Rotation(org: Org, phase: Phase, oldMount: Mount, newMount: Mount,
                               readAt: nat, grace: int, oldRemoved: bool)

  /** A StartRotation call that has read the configuration and not yet returned. */
  datatype Start = Start(org: Org, oldMount: Mount, newMount: Mount, readAt: nat, mounted: bool)

  datatype User = Original | ByCall(call: nat) | ByRow(id: nat)

  /** History: when and for whom each mount became primary, and the number of promotions. */
  datatype History = History(promotedAt: map<Mount, nat>, owner: map<Mount, Org>, clock: nat)

  /**
    `primary` is the vault_mount of each configuration. `usedBy` is history: who took each
    mount name generated so far.
   */
  datatype State = State(
    enabled: set<Mount>,
    primary: map<Org, Mount>,
    rotations: map<nat, Rotation>,
    starts: map<nat, Start>,
    usedBy: map<Mount, User>,
    log: History)

  datatype Event =
    | BeginStart(call: nat, org: Org, name: Mount)
    | Enable(call: nat)
    | FailStart(call: nat, torn: bool)
    | CreateRow(call: nat, id: nat)
    | MarkReady(id: nat)
    | CompleteRow(id: nat, grace: int)
    | Promote(id: nat)
    | AbortRow(id: nat)
    | DisableNew(id: nat)
    | Retire(id: nat, now: int)
    | MarkRemoved(id: nat)

  predicate Active(r: Rotation) {
    r.phase in {Rotating, CutoverReady}
  }

  /** The unique index that allows one active rotation per organisation. */
  predicate HasActive(s: State, org: Org) {
    exists id :: id in s.rotations && s.rotations[id].org == org && Active(s.rotations[id])
  }

  function DoBegin(s: State, call: nat, org: Org, name: Mount): Option<State> {
    if org !in s.primary || call in s.starts || name in s.usedBy then None
    else Some(s.(starts := s.starts[call := Start(org, s.primary[org], name, s.log.clock, false)],
                 usedBy := s.usedBy[name := ByCall(call)]))
  }

  function DoEnable(s: State, call: nat): Option<State> {
    if call !in s.starts || s.starts[call].mounted then None
    else Some(s.(enabled := s.enabled + {s.starts[call].newMount},
                 starts := s.starts[call := s.starts[call].(mounted := true)]))
  }

  function DoFail(s: State, call: nat, torn: bool): Option<State> {
    if call !in s.starts then None
    else Some(s.(enabled := if torn then s.enabled - {s.starts[call].newMount} else s.enabled,
                 starts := s.starts - {call}))
  }

  function DoCreate(s: State, call: nat, id: nat): Option<State> {
    if call !in s.starts || !s.starts[call].mounted || id in s.rotations || HasActive(s, s.starts[call].org) then None
    else
      var st := s.starts[call];
      Some(s.(starts := s.starts - {call},
              rotations := s.rotations[id := Rotation(st.org, Rotating, st.oldMount, st.newMount, st.readAt, 0, false)],
              usedBy := s.usedBy[st.newMount := ByRow(id)]))
  }

  /** A write to one rotation row. */
  function SetRow(s: State, id: nat, r: Rotation): State {
    s.(rotations := s.rotations[id := r])
  }

  function Promotion(h: History, org: Org, m: Mount): History {
    History(h.promotedAt[m := h.clock + 1], h.owner[m := org], h.clock + 1)
  }

  function DoPromote(s: State, id: nat): Option<State> {
    if id !in s.rotations || s.rotations[id].phase != Idle || s.rotations[id].newMount in s.log.promotedAt then None
    else
      var r := s.rotations[id];
      Some(s.(primary := s.primary[r.org := r.newMount], log := Promotion(s.log, r.org, r.newMount)))
  }

  /** One event, or None where its guard (a WHERE clause or a unique index) refuses it. */
  function Step(s: State, e: Event): Option<State> {
    match e
    case BeginStart(call, org, name) => DoBegin(s, call, org, name)
    case Enable(call) => DoEnable(s, call)
    case FailStart(call, torn) => DoFail(s, call, torn)
    case CreateRow(call, id) => DoCreate(s, call, id)
    case Promote(id) => DoPromote(s, id)
    case MarkReady(id) =>
      if id !in s.rotations || s.rotations[id].phase != Rotating then None
      else Some(SetRow(s, id, s.rotations[id].(phase := CutoverReady)))
    case CompleteRow(id, grace) =>
      if id !in s.rotations || s.rotations[id].phase != CutoverReady then None
      else Some(SetRow(s, id, s.rotations[id].(phase := Idle, grace := grace)))
    case AbortRow(id) =>
      if id !in s.rotations || !Active(s.rotations[id]) then None
      else Some(SetRow(s, id, s.rotations[id].(phase := Rollback)))
    case MarkRemoved(id) =>
      if id !in s.rotations || s.rotations[id].phase != Idle then None
      else Some(SetRow(s, id, s.rotations[id].(oldRemoved := true)))
    case DisableNew(id) =>
      if id !in s.rotations || s.rotations[id].phase != Rollback then None
      else Some(s.(enabled := s.enabled - {s.rotations[id].newMount}))
    case Retire(id, now) =>
      if id !in s.rotations || !PastGrace(s.rotations[id], now) then None
      else Some(s.(enabled := s.enabled - {s.rotations[id].oldMount}))
  }

  /** Completed, with the grace window over: what a cleanup pass has seen of the rows it listed. */
  predicate PastGrace(r: Rotation, now: int) {
    r.phase == Idle && r.grace <= now
  }

  /** ListDeviceCARotationsForGraceCleanup. A pass may act on a row that another has since marked. */
  predicate Due(r: Rotation, now: int) {
    PastGrace(r, now) && !r.oldRemoved
  }

  function Run(s: State, es: seq<Event>): Option<State>
    decreases |es|
  {
    if |es| == 0 then Some(s)
    else
      match Run(s, es[..|es| - 1])
      case None => None
      case Some(t) => Step(t, es[|es| - 1])
  }

  /** Organisations start with separate enabled mounts and no rotation. */
  ghost predicate Init(s: State) {
    && (forall o :: o in s.primary ==> s.primary[o] in s.enabled)
    && s.rotations == map[] && s.starts == map[]
    && s.usedBy.Keys == s.log.owner.Keys == s.log.promotedAt.Keys
    && (forall o :: o in s.primary ==> s.primary[o] in s.log.owner && s.log.owner[s.primary[o]] == o)
    && (forall m :: m in s.log.owner ==>
          s.log.owner[m] in s.primary && s.primary[s.log.owner[m]] == m && s.log.promotedAt[m] == 0)
    && s.log.clock == 0
  }

  /** No organisation has two rotations under way. */
  ghost predicate OneEach(s: State) {
    forall a, b :: UnderWay(s, a) && UnderWay(s, b) && s.rotations[a].org == s.rotations[b].org ==> a == b
  }

  ghost predicate UnderWay(s: State, id: nat) {
    id in s.rotations && s.rotations[id].phase in {Rotating, CutoverReady}
  }

  lemma {:induction false} StepOneEach(s: State, e: Event, t: State)
    requires OneEach(s) && Step(s, e) == Some(t)
    ensures OneEach(t)
  {
    if e.CreateRow? {
      assert forall a :: a in s.rotations && s.rotations[a].org == s.starts[e.call].org ==> !Active(s.rotations[a]);
    }
  }

  /** Over every run, each organisation has at most one rotation under way. */
  lemma {:induction false} OneRotationEach(s: State, es: seq<Event>)
    requires Init(s) && Run(s, es).Some?
    ensures OneEach(Run(s, es).value)
    decreases |es|
  {
    if |es| > 0 {
      var before := es[..|es| - 1];
      OneRotationEach(s, before);
      StepOneEach(Run(s, before).value, es[|es| - 1], Run(s, es).value);
    }
  }

  /** Every organisation's primary mount is enabled. */
  ghost predicate Safe(s: State) {
    forall o :: o in s.primary ==> s.primary[o] in s.enabled
  }

  // ---------- The invariant ----------

  ghost predicate HistoryOk(h: History) {
    && h.promotedAt.Keys == h.owner.Keys
    && forall m :: m in h.promotedAt ==> h.promotedAt[m] <= h.clock
  }

  /** The mount's owner has it, or one promoted later, as its primary mount. */
  ghost predicate Outlived(primary: map<Org, Mount>, h: History, m: Mount)
    requires HistoryOk(h) && m in h.owner
  {
    && h.owner[m] in primary
    && var p := primary[h.owner[m]];
       p in h.owner && (m == p || h.promotedAt[m] < h.promotedAt[p])
  }

  /** The primary mount of each organisation is the one promoted for it last. */
  ghost predicate PrimaryLatest(primary: map<Org, Mount>, h: History)
    requires HistoryOk(h)
  {
    && (forall o :: o in primary ==> primary[o] in h.owner && h.owner[primary[o]] == o)
    && (forall m {:trigger Outlived(primary, h, m)} :: m in h.owner ==> Outlived(primary, h, m))
  }

  /** `mount` was the primary mount of `org` when the clock showed `readAt`. */
  ghost predicate WasPrimary(h: History, org: Org, mount: Mount, readAt: nat)
    requires HistoryOk(h)
  {
    && mount in h.owner && h.owner[mount] == org && h.promotedAt[mount] <= readAt <= h.clock
    && (forall m {:trigger Before(h, m, mount, readAt)} :: m in h.owner && h.owner[m] == org ==> Before(h, m, mount, readAt))
  }

  ghost predicate Before(h: History, m: Mount, mount: Mount, readAt: nat)
    requires HistoryOk(h) && m in h.owner && mount in h.owner
  {
    m == mount || h.promotedAt[m] > readAt || h.promotedAt[m] < h.promotedAt[mount]
  }

  ghost predicate StartOk(s: State, call: nat)
    requires HistoryOk(s.log) && call in s.starts
  {
    var st := s.starts[call];
    && WasPrimary(s.log, st.org, st.oldMount, st.readAt)
    && st.newMount in s.usedBy && s.usedBy[st.newMount] == ByCall(call)
    && st.newMount !in s.log.promotedAt
    && (st.mounted ==> st.newMount in s.enabled)
  }

  /** A mount under rotation is promoted only by completion, and enabled until then. */
  ghost predicate RowOk(s: State, id: nat)
    requires HistoryOk(s.log) && id in s.rotations
  {
    var r := s.rotations[id];
    && WasPrimary(s.log, r.org, r.oldMount, r.readAt)
    && r.newMount in s.usedBy && s.usedBy[r.newMount] == ByRow(id)
    && (if r.newMount in s.log.promotedAt
        then r.phase == Idle && s.log.owner[r.newMount] == r.org && s.log.promotedAt[r.newMount] > r.readAt
        else r.phase != Rollback ==> r.newMount in s.enabled)
  }

  ghost predicate Inv(s: State) {
    && Safe(s)
    && HistoryOk(s.log)
    && PrimaryLatest(s.primary, s.log)
    && s.log.owner.Keys <= s.usedBy.Keys
    && (forall c {:trigger StartOk(s, c)} :: c in s.starts ==> StartOk(s, c))
    && (forall id {:trigger RowOk(s, id)} :: id in s.rotations ==> RowOk(s, id))
  }

  /** Both writes of the rotation's completion have happened. */
  predicate Promoted(s: State, id: nat) {
    id in s.rotations && s.rotations[id].newMount in s.log.promotedAt
  }

  /** The configuration of the rotation's organisation no longer names its old mount. */
  predicate Retirable(s: State, id: nat) {
    && id in s.rotations && s.rotations[id].org in s.primary
    && s.primary[s.rotations[id].org] != s.rotations[id].oldMount
  }

  /** Cleanup retires only mounts that the configuration has left behind. */
  predicate Guarded(s: State, e: Event) {
    e.Retire? ==> Retirable(s, e.id)
  }

  lemma {:induction false} InitInv(s: State)
    requires Init(s)
    ensures Inv(s)
  {
  }

  /** Once both writes of its completion have happened, a rotation's old mount is left behind. */
  lemma {:induction false} PromotedRetirable(s: State, id: nat)
    requires Inv(s) && Promoted(s, id)
    ensures Retirable(s, id)
  {
    assert RowOk(s, id);
    assert Outlived(s.primary, s.log, s.rotations[id].newMount);
  }

  // Every start and row a step leaves alone stays in order, provided its mount stays enabled.

  lemma {:induction false} StartKept(s: State, t: State, c: nat)
    requires HistoryOk(s.log) && t.log == s.log
    requires c in s.starts && c in t.starts && t.starts[c] == s.starts[c] && StartOk(s, c)
    requires s.starts[c].newMount in t.usedBy && t.usedBy[s.starts[c].newMount] == ByCall(c)
    requires s.starts[c].newMount in s.enabled ==> s.starts[c].newMount in t.enabled
    ensures StartOk(t, c)
  {
  }

  lemma {:induction false} RowKept(s: State, t: State, id: nat)
    requires HistoryOk(s.log) && t.log == s.log
    requires id in s.rotations && id in t.rotations && t.rotations[id] == s.rotations[id] && RowOk(s, id)
    requires s.rotations[id].newMount in t.usedBy && t.usedBy[s.rotations[id].newMount] == ByRow(id)
    requires s.rotations[id].newMount in s.log.promotedAt || s.rotations[id].phase == Rollback ||
             s.rotations[id].newMount in t.enabled
    ensures RowOk(t, id)
  {
  }

  lemma {:induction false} BeginInv(s: State, call: nat, org: Org, name: Mount, t: State)
    requires Inv(s) && DoBegin(s, call, org, name) == Some(t)
    ensures Inv(t)
  {
    forall m | m in s.log.owner && s.log.owner[m] == org ensures Before(s.log, m, s.primary[org], s.log.clock) {
      assert Outlived(s.primary, s.log, m);
    }
    forall c | c in t.starts ensures StartOk(t, c) {
      if c != call {
        assert StartOk(s, c);
        StartKept(s, t, c);
      }
    }
    forall id | id in t.rotations ensures RowOk(t, id) {
      assert RowOk(s, id);
      RowKept(s, t, id);
    }
  }

  lemma {:induction false} EnableInv(s: State, call: nat, t: State)
    requires Inv(s) && DoEnable(s, call) == Some(t)
    ensures Inv(t)
  {
    forall c | c in t.starts ensures StartOk(t, c) {
      assert StartOk(s, c);
      if c != call { StartKept(s, t, c); }
    }
    forall id | id in t.rotations ensures RowOk(t, id) {
      assert RowOk(s, id);
      RowKept(s, t, id);
    }
  }

  /** A mount taken by one start or row is not the new mount of any other. */
  lemma {:induction false} OtherMount(s: State, user: User, m: Mount)
    requires Inv(s) && m in s.usedBy && s.usedBy[m] == user
    ensures forall c :: c in s.starts && user != ByCall(c) ==> s.starts[c].newMount != m
    ensures forall id :: id in s.rotations && user != ByRow(id) ==> s.rotations[id].newMount != m
  {
    forall c | c in s.starts && user != ByCall(c) ensures s.starts[c].newMount != m {
      assert StartOk(s, c);
    }
    forall id | id in s.rotations && user != ByRow(id) ensures s.rotations[id].newMount != m {
      assert RowOk(s, id);
    }
  }

  lemma {:induction false} FailInv(s: State, call: nat, torn: bool, t: State)
    requires Inv(s) && DoFail(s, call, torn) == Some(t)
    ensures Inv(t)
  {
    assert StartOk(s, call);
    OtherMount(s, ByCall(call), s.starts[call].newMount);
    forall c | c in t.starts ensures StartOk(t, c) {
      assert StartOk(s, c);
      StartKept(s, t, c);
    }
    forall id | id in t.rotations ensures RowOk(t, id) {
      assert RowOk(s, id);
      RowKept(s, t, id);
    }
  }

  lemma {:induction false} CreateInv(s: State, call: nat, id: nat, t: State)
    requires Inv(s) && DoCreate(s, call, id) == Some(t)
    ensures Inv(t)
  {
    assert StartOk(s, call);
    OtherMount(s, ByCall(call), s.starts[call].newMount);
    forall c | c in t.starts ensures StartOk(t, c) {
      assert StartOk(s, c);
      StartKept(s, t, c);
    }
    assert RowOk(t, id);
    forall i | i in t.rotations ensures RowOk(t, i) {
      if i != id {
        assert RowOk(s, i);
        RowKept(s, t, i);
      }
    }
  }

  lemma {:induction false} SetRowInv(s: State, id: nat, r: Rotation)
    requires Inv(s) && id in s.rotations
    requires var q := s.rotations[id];
             r.org == q.org && r.oldMount == q.oldMount && r.newMount == q.newMount && r.readAt == q.readAt &&
             (r.phase == q.phase || (Active(q) && r.phase != Rotating))
    ensures Inv(SetRow(s, id, r))
  {
    var t := SetRow(s, id, r);
    forall c | c in t.starts ensures StartOk(t, c) {
      assert StartOk(s, c);
      StartKept(s, t, c);
    }
    forall i | i in t.rotations ensures RowOk(t, i) {
      assert RowOk(s, i);
      if i != id { RowKept(s, t, i); }
    }
  }

  lemma {:induction false} PromotionOk(primary: map<Org, Mount>, h: History, org: Org, m: Mount)
    requires HistoryOk(h) && PrimaryLatest(primary, h) && m !in h.owner && org in primary
    ensures HistoryOk(Promotion(h, org, m))
    ensures PrimaryLatest(primary[org := m], Promotion(h, org, m))
  {
    var primary', h' := primary[org := m], Promotion(h, org, m);
    forall x | x in h'.owner ensures Outlived(primary', h', x) {
      if x != m {
        assert Outlived(primary, h, x);
        StillOutlived(primary, h, org, m, x);
      }
    }
    PrimaryOwned(primary, h, org, m);
  }

  lemma {:induction false} PrimaryOwned(primary: map<Org, Mount>, h: History, org: Org, m: Mount)
    requires m !in h.owner && forall o :: o in primary ==> primary[o] in h.owner && h.owner[primary[o]] == o
    ensures var primary', owner' := primary[org := m], Promotion(h, org, m).owner;
            forall o :: o in primary' ==> primary'[o] in owner' && owner'[primary'[o]] == o
  {
  }

  lemma {:induction false} StillOutlived(primary: map<Org, Mount>, h: History, org: Org, m: Mount, x: Mount)
    requires HistoryOk(h) && HistoryOk(Promotion(h, org, m)) && m !in h.owner
    requires x in h.owner && Outlived(primary, h, x)
    ensures Outlived(primary[org := m], Promotion(h, org, m), x)
  {
    var h' := Promotion(h, org, m);
    assert h'.owner[x] == h.owner[x] && h'.promotedAt[x] == h.promotedAt[x] <= h.clock;
    var p := primary[h.owner[x]];
    assert p != m && h'.promotedAt[p] == h.promotedAt[p];
  }

  /** What was primary at a past reading of the clock stays so when a new mount is promoted. */
  lemma {:induction false} PromotionKeepsPast(h: History, org: Org, was: Mount, readAt: nat, o: Org, m: Mount)
    requires HistoryOk(h) && HistoryOk(Promotion(h, o, m)) && WasPrimary(h, org, was, readAt) && m !in h.owner
    ensures WasPrimary(Promotion(h, o, m), org, was, readAt)
  {
    var h' := Promotion(h, o, m);
    forall x | x in h'.owner && h'.owner[x] == org ensures Before(h', x, was, readAt) {
      if x != m { assert Before(h, x, was, readAt); }
    }
  }

  lemma {:induction false} PromoteInv(s: State, id: nat, t: State)
    requires Inv(s) && DoPromote(s, id) == Some(t)
    ensures Inv(t)
  {
    var r := s.rotations[id];
    assert RowOk(s, id);
    assert Outlived(s.primary, s.log, r.oldMount);
    PromotionOk(s.primary, s.log, r.org, r.newMount);
    OtherMount(s, ByRow(id), r.newMount);
    forall c | c in t.starts ensures StartOk(t, c) {
      assert StartOk(s, c);
      PromotionKeepsPast(s.log, s.starts[c].org, s.starts[c].oldMount, s.starts[c].readAt, r.org, r.newMount);
    }
    forall i | i in t.rotations ensures RowOk(t, i) {
      assert RowOk(s, i);
      RowPromoted(s, i, r.org, r.newMount, t);
    }
  }

  lemma {:induction false} RowPromoted(s: State, id: nat, o: Org, m: Mount, t: State)
    requires HistoryOk(s.log) && HistoryOk(Promotion(s.log, o, m)) && id in s.rotations && RowOk(s, id)
    requires m !in s.log.owner
    requires t == s.(primary := s.primary[o := m], log := Promotion(s.log, o, m))
    requires s.rotations[id].newMount == m ==> s.rotations[id].phase == Idle && s.rotations[id].org == o
    ensures RowOk(t, id)
  {
    var r := s.rotations[id];
    PromotionKeepsPast(s.log, r.org, r.oldMount, r.readAt, o, m);
  }

  /** Disabling a mount that is neither primary nor awaiting promotion is harmless. */
  lemma {:induction false} DisableInv(s: State, m: Mount)
    requires Inv(s)
    requires forall o :: o in s.primary ==> s.primary[o] != m
    requires forall c :: c in s.starts ==> s.starts[c].newMount != m
    requires forall id :: id in s.rotations && s.rotations[id].newMount == m ==>
               m in s.log.promotedAt || s.rotations[id].phase == Rollback
    ensures Inv(s.(enabled := s.enabled - {m}))
  {
    var t := s.(enabled := s.enabled - {m});
    forall c | c in t.starts ensures StartOk(t, c) {
      assert StartOk(s, c);
      StartKept(s, t, c);
    }
    forall id | id in t.rotations ensures RowOk(t, id) {
      assert RowOk(s, id);
      RowKept(s, t, id);
    }
  }

  lemma {:induction false} RetireInv(s: State, id: nat)
    requires Inv(s) && Retirable(s, id)
    ensures Inv(s.(enabled := s.enabled - {s.rotations[id].oldMount}))
  {
    var m := s.rotations[id].oldMount;
    assert RowOk(s, id);
    forall o | o in s.primary ensures s.primary[o] != m { assert s.log.owner[s.primary[o]] == o; }
    forall c | c in s.starts ensures s.starts[c].newMount != m { assert StartOk(s, c); }
    DisableInv(s, m);
  }

  lemma {:induction false} StepInv(s: State, e: Event, t: State)
    requires Inv(s) && Step(s, e) == Some(t) && Guarded(s, e)
    ensures Inv(t)
  {
    match e {
      case BeginStart(call, org, name) => BeginInv(s, call, org, name, t);
      case Enable(call) => EnableInv(s, call, t);
      case FailStart(call, torn) => FailInv(s, call, torn, t);
      case CreateRow(call, id) => CreateInv(s, call, id, t);
      case Promote(id) => PromoteInv(s, id, t);
      case DisableNew(id) =>
        assert RowOk(s, id);
        OtherMount(s, ByRow(id), s.rotations[id].newMount);
        DisableInv(s, s.rotations[id].newMount);
      case Retire(id, _) => RetireInv(s, id);
      case MarkReady(id) => SetRowInv(s, id, t.rotations[id]);
      case CompleteRow(id, _) => SetRowInv(s, id, t.rotations[id]);
      case AbortRow(id) => SetRowInv(s, id, t.rotations[id]);
      case MarkRemoved(id) => SetRowInv(s, id, t.rotations[id]);
    }
  }

  /**
    The exact condition: retiring a rotation's old mount keeps the primary mounts enabled
    if and only if the organisation's configuration no longer names that mount, which is
    to say that the organisation has seen a promotion since the mount was read.
   */
  lemma {:induction false} RetireSafeIff(s: State, id: nat, now: int)
    requires Inv(s) && Step(s, Retire(id, now)).Some?
    ensures s.rotations[id].org in s.primary && s.primary[s.rotations[id].org] in s.log.promotedAt
    ensures Safe(Step(s, Retire(id, now)).value) <==> s.primary[s.rotations[id].org] != s.rotations[id].oldMount
    ensures Safe(Step(s, Retire(id, now)).value) <==>
              s.log.promotedAt[s.primary[s.rotations[id].org]] > s.rotations[id].readAt
  {
    var r := s.rotations[id];
    assert RowOk(s, id);
    assert Outlived(s.primary, s.log, r.oldMount);
    assert Before(s.log, s.primary[r.org], r.oldMount, r.readAt);
    forall o | o in s.primary && o != r.org ensures s.primary[o] != r.oldMount {
      assert s.log.owner[s.primary[o]] == o;
    }
  }

  /** Every primary mount is enabled at every point of the run. */
  ghost predicate AlwaysSafe(s: State, es: seq<Event>)
    requires Run(s, es).Some?
    decreases |es|
  {
    Safe(Run(s, es).value) && (|es| > 0 ==> AlwaysSafe(s, es[..|es| - 1]))
  }

  /** Every cleanup of the run finds the mount it retires left behind. */
  ghost predicate AllGuarded(s: State, es: seq<Event>)
    requires Run(s, es).Some?
    decreases |es|
  {
    |es| > 0 ==> AllGuarded(s, es[..|es| - 1]) && Guarded(Run(s, es[..|es| - 1]).value, es[|es| - 1])
  }

  /** Every cleanup of the run meets a rotation whose completion made both its writes. */
  ghost predicate AllPromoted(s: State, es: seq<Event>)
    requires Run(s, es).Some?
    decreases |es|
  {
    |es| > 0 ==>
      && AllPromoted(s, es[..|es| - 1])
      && var e := es[|es| - 1];
         e.Retire? ==> Promoted(Run(s, es[..|es| - 1]).value, e.id)
  }

  lemma {:induction false} RunInv(s: State, es: seq<Event>)
    requires Inv(s) && Run(s, es).Some? && AllGuarded(s, es)
    ensures Inv(Run(s, es).value)
    decreases |es|
  {
    if |es| > 0 {
      RunInv(s, es[..|es| - 1]);
      StepInv(Run(s, es[..|es| - 1]).value, es[|es| - 1], Run(s, es).value);
    }
  }

  lemma {:induction false} StepSafeIff(s: State, e: Event, t: State)
    requires Inv(s) && Step(s, e) == Some(t)
    ensures Safe(t) <==> Guarded(s, e)
  {
    if Guarded(s, e) {
      StepInv(s, e, t);
    } else {
      RetireSafeIff(s, e.id, e.now);
    }
  }

  /**
    Rotation safety, exactly: whatever the interleaving and wherever calls fail, every
    primary mount stays enabled throughout a run if and only if every cleanup finds that the
    configuration no longer names the mount it retires.
   */
  lemma {:induction false} RotationSafety(s: State, es: seq<Event>)
    requires Init(s) && Run(s, es).Some?
    ensures AlwaysSafe(s, es) <==> AllGuarded(s, es)
    decreases |es|
  {
    InitInv(s);
    if |es| > 0 {
      var before := es[..|es| - 1];
      RotationSafety(s, before);
      if AllGuarded(s, before) {
        RunInv(s, before);
        StepSafeIff(Run(s, before).value, es[|es| - 1], Run(s, es).value);
      }
    }
  }

  /** So runs are safe in which cleanup meets only rotations that completed with both writes. */
  lemma {:induction false} CompletedRotationsSafe(s: State, es: seq<Event>)
    requires Init(s) && Run(s, es).Some? && AllPromoted(s, es)
    ensures AlwaysSafe(s, es)
  {
    InitInv(s);
    PromotedGuarded(s, es);
    RotationSafety(s, es);
  }

  lemma {:induction false} PromotedGuarded(s: State, es: seq<Event>)
    requires Inv(s) && Run(s, es).Some? && AllPromoted(s, es)
    ensures AllGuarded(s, es)
    decreases |es|
  {
    if |es| > 0 {
      var before, e := es[..|es| - 1], es[|es| - 1];
      PromotedGuarded(s, before);
      RunInv(s, before);
      if e.Retire? { PromotedRetirable(Run(s, before).value, e.id); }
    }
  }

  /** Without the second write of completion, cleanup can disable the primary mount. */
  lemma {:induction false} UnpromotedCleanupUnsafe() returns (s: State, es: seq<Event>)
    ensures Init(s) && Run(s, es).Some? && !Safe(Run(s, es).value)
  {
    var org, mount, next := "org", "pki", "pki-rot-1";
    assert |next| != |mount|;
    s := State({mount}, map[org := mount], map[], map[], map[mount := Original],
               History(map[mount := 0], map[mount := org], 0));
    var row := Rotation(org, Rotating, mount, next, 0, 0, false);
    var s3 := s.(enabled := {mount, next}, rotations := map[0 := row], usedBy := s.usedBy[next := ByRow(0)]);
    es := StartTrace(s, org, mount, next, s3);
    var s4 := SetRow(s3, 0, row.(phase := CutoverReady));
    es := Extend(s, es, MarkReady(0), s4);
    var s5 := SetRow(s4, 0, row.(phase := Idle));
    es := Extend(s, es, CompleteRow(0, 0), s5);
    var s6 := s5.(enabled := s5.enabled - {mount});
    es := Extend(s, es, Retire(0, 0), s6);
    assert org in s6.primary && s6.primary[org] !in s6.enabled;
  }

  /** The three events of a start that creates row 0. */
  lemma {:induction false} StartTrace(s: State, org: Org, mount: Mount, next: Mount, t: State) returns (es: seq<Event>)
    requires org in s.primary && s.primary[org] == mount && next !in s.usedBy
    requires s.starts == map[] && s.rotations == map[] && s.enabled == {mount} && s.log.clock == 0
    requires t == s.(enabled := {mount, next}, usedBy := s.usedBy[next := ByRow(0)],
                     rotations := map[0 := Rotation(org, Rotating, mount, next, 0, 0, false)])
    ensures Run(s, es) == Some(t)
  {
    var call := Start(org, mount, next, 0, false);
    var s1 := s.(starts := map[0 := call], usedBy := s.usedBy[next := ByCall(0)]);
    es := Extend(s, [], BeginStart(0, org, next), s1);
    var s2 := s1.(enabled := {mount, next}, starts := map[0 := call.(mounted := true)]);
    assert s1.enabled + {next} == s2.enabled && s1.starts[0 := s2.starts[0]] == s2.starts;
    es := Extend(s, es, Enable(0), s2);
    assert s2.starts - {0} == s.starts && s2.usedBy[next := ByRow(0)] == t.usedBy;
    es := Extend(s, es, CreateRow(0, 0), t);
  }

  lemma {:induction false} Extend(s: State, es: seq<Event>, e: Event, t: State) returns (es': seq<Event>)
    requires Run(s, es).Some? && Step(Run(s, es).value, e) == Some(t)
    ensures es' == es + [e] && Run(s, es') == Some(t)
  {
    es' := es + [e];
    assert es'[..|es|] == es;
  }
}
