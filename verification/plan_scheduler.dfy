/**
  Bounded plan concurrency: which resources a conformance plan needs, the gate that admits
  plans, and all runs of a set of plans through the gate, with the sleeping and waking of
  asyncio's condition variable.
 */
module PlanScheduler {
  import opened Options
  import opened Text

  // ---------- Resources of a plan ----------

  datatype Field = Field(key: string, value: Json)

  datatype Json =
    | JNull
    | JBool(b: bool)
    | JNumber(n: int)
    | JString(s: string)
    | JList(items: seq<Json>)
    | JObject(fields: seq<Field>)

  /** dict.get: the value under a key, JNull when absent. */
  function Get(fields: seq<Field>, key: string): Json {
    if |fields| == 0 then JNull
    else if fields[0].key == key then fields[0].value
    else Get(fields[1..], key)
  }

  lemma {:induction false} GetFirst(fields: seq<Field>, key: string, i: nat)
    requires i <= |fields| && forall j :: 0 <= j < i ==> fields[j].key != key
    ensures i == |fields| ==> Get(fields, key) == JNull
    ensures i < |fields| && fields[i].key == key ==> Get(fields, key) == fields[i].value
    decreases |fields|
  {
    if i > 0 { GetFirst(fields[1..], key, i - 1); }
  }

  /** Some object in the tree, at any depth, has this non-empty client_id. */
  ghost predicate Mentions(v: Json, client: string) {
    match v
    case JObject(fields) =>
      || (client != "" && Get(fields, "client_id") == JString(client))
      || (exists i :: 0 <= i < |fields| && Mentions(fields[i].value, client))
    case JList(items) => exists i :: 0 <= i < |items| && Mentions(items[i], client)
    case _ => false
  }

  const CLIENT: string := "client:"
  const ALIAS: string := "alias:"

  /** plan_resources' walk, adding what it finds to the set collected so far. */
  method Walk(v: Json, clients: set<string>) returns (r: set<string>)
    ensures forall x :: x in r <==> x in clients || exists c :: x == CLIENT + c && Mentions(v, c)
    decreases v
  {
    r := clients;
    match v {
      case JObject(fields) =>
        var client := Get(fields, "client_id");
        if client.JString? && client.s != "" {
          r := r + {CLIENT + client.s};
        }
        ghost var found := r;
        for i := 0 to |fields|
          invariant forall x :: x in r <==>
            x in found || exists c, j :: x == CLIENT + c && 0 <= j < i && Mentions(fields[j].value, c)
        {
          r := Walk(fields[i].value, r);
        }
      case JList(items) =>
        for i := 0 to |items|
          invariant forall x :: x in r <==>
            x in clients || exists c, j :: x == CLIENT + c && 0 <= j < i && Mentions(items[j], c)
        {
          r := Walk(items[i], r);
        }
      case _ =>
    }
  }

  /** A plan record; a missing field is JNull. */
  datatype Plan = Plan(config: seq<Field>, moduleNames: seq<string>, alias: Json, planId: Json, id: Json)

  /** Python's str, on values other than strings. */
  type Show = Json -> string

  function Str(v: Json, show: Show): string {
    if v.JString? then v.s else show(v)
  }

  /** What `or` passes over. */
  predicate Truthy(v: Json) {
    match v
    case JNull => false
    case JBool(b) => b
    case JNumber(n) => n != 0
    case JString(s) => s != ""
    case JList(items) => items != []
    case JObject(fields) => fields != []
  }

  predicate Sensitive(name: string) {
    Contains(name, "logout") || Contains(name, "federation") || Contains(name, "ciba")
  }

  function AliasOf(p: Plan, show: Show): string {
    var configured := Get(p.config, "alias");
    Str(if Truthy(configured) then configured
        else if Truthy(p.alias) then p.alias
        else if Truthy(p.planId) then p.planId
        else p.id, show)
  }

  /** No client is configured, or some module touches state shared by all plans. */
  ghost predicate Exclusive(p: Plan) {
    || (forall c :: !Mentions(JObject(p.config), c))
    || (exists i :: 0 <= i < |p.moduleNames| && SharesState(p.moduleNames[i]))
  }

  ghost predicate SharesState(name: string) {
    Contains(name, "logout") || Contains(name, "federation") || Contains(name, "ciba")
  }

  /** The alias is the configuration's, or else the plan's, or else its plan ID or ID. */
  lemma {:induction false} AliasChoice(p: Plan, show: Show, v: Json)
    requires !Blank(v)
    ensures var a, configured := if v.JString? then v.s else show(v), Get(p.config, "alias");
            && (configured == v ==> AliasOf(p, show) == a)
            && (Blank(configured) && p.alias == v ==> AliasOf(p, show) == a)
            && (Blank(configured) && Blank(p.alias) && p.planId == v ==> AliasOf(p, show) == a)
            && (Blank(configured) && Blank(p.alias) && Blank(p.planId) && p.id == v ==> AliasOf(p, show) == a)
  {
  }

  /** What counts as no alias. */
  ghost predicate Blank(v: Json) {
    v in {JNull, JBool(false), JNumber(0), JString(""), JList([]), JObject([])}
  }

  /** plan_resources. */
  method PlanResources(p: Plan, show: Show) returns (r: set<string>)
    ensures ResourcesOf(p, show, r)
    ensures Exclusive(p) <==> "*" in r
    ensures Exclusive(p) ==> r == {"*"}
    ensures !Exclusive(p) ==>
              forall x :: x in r <==> x == "alias:" + AliasOf(p, show) || exists c :: x == "client:" + c && Mentions(JObject(p.config), c)
  {
    var clients := Walk(JObject(p.config), {});
    ghost var config := JObject(p.config);
    if exists c :: Mentions(config, c) {
      ghost var c :| Mentions(config, c);
      assert CLIENT + c in clients;
    }
    assert forall c :: (CLIENT + c)[0] != '*';
    assert (ALIAS + AliasOf(p, show))[0] != '*';
    if clients == {} || exists i :: 0 <= i < |p.moduleNames| && Sensitive(p.moduleNames[i]) {
      return {"*"};
    }
    r := clients + {ALIAS + AliasOf(p, show)};
  }

  /** What a correct resource set of a plan is, as PlanResources establishes it. */
  ghost predicate ResourcesOf(p: Plan, show: Show, r: set<string>) {
    && r != {}
    && (if Exclusive(p) then r == {"*"}
        else "*" !in r && forall x :: x in r <==> Named(p, show, x))
  }

  /** x names the plan's alias or one of its clients. */
  ghost predicate Named(p: Plan, show: Show, x: string) {
    x == ALIAS + AliasOf(p, show) || exists c :: x == CLIENT + c && Mentions(JObject(p.config), c)
  }

  /** The plans must not run side by side. */
  ghost predicate Conflict(p: Plan, q: Plan, show: Show) {
    || Exclusive(p) || Exclusive(q) || AliasOf(p, show) == AliasOf(q, show)
    || exists c :: Mentions(JObject(p.config), c) && Mentions(JObject(q.config), c)
  }

  lemma {:induction false} PrefixCancels(a: string, b: string, prefix: string)
    requires prefix + a == prefix + b
    ensures a == b
  {
    assert (prefix + a)[|prefix|..] == a && (prefix + b)[|prefix|..] == b;
  }

  /** Resource sets are compatible exactly if their plans do not conflict. */
  lemma {:induction false} CompatibleIff(p: Plan, a: set<string>, q: Plan, b: set<string>, show: Show)
    requires ResourcesOf(p, show, a) && ResourcesOf(q, show, b)
    ensures Compatible(a, b) <==> !Conflict(p, q, show)
  {
    if !Exclusive(p) && !Exclusive(q) {
      if x :| x in a && x in b { SharedConflicts(p, a, q, b, show, x); }
      if Conflict(p, q, show) {
        var x := ConflictShared(p, q, show);
        assert x in a && x in b;
      }
    }
  }

  lemma {:induction false} SharedConflicts(p: Plan, a: set<string>, q: Plan, b: set<string>, show: Show, x: string)
    requires ResourcesOf(p, show, a) && ResourcesOf(q, show, b) && !Exclusive(p) && !Exclusive(q) && x in a && x in b
    ensures Conflict(p, q, show)
  {
    if x[0] == 'a' {
      PrefixCancels(AliasOf(p, show), AliasOf(q, show), ALIAS);
    } else {
      var c :| x == CLIENT + c && Mentions(JObject(p.config), c);
      var d :| x == CLIENT + d && Mentions(JObject(q.config), d);
      PrefixCancels(c, d, CLIENT);
    }
  }

  lemma {:induction false} ConflictShared(p: Plan, q: Plan, show: Show) returns (x: string)
    requires Conflict(p, q, show) && !Exclusive(p) && !Exclusive(q)
    ensures Named(p, show, x) && Named(q, show, x)
  {
    if AliasOf(p, show) == AliasOf(q, show) {
      x := ALIAS + AliasOf(p, show);
    } else {
      var c :| Mentions(JObject(p.config), c) && Mentions(JObject(q.config), c);
      x := CLIENT + c;
    }
  }

  // ---------- The gate ----------

  predicate Compatible(a: set<string>, b: set<string>) {
    "*" !in a && "*" !in b && a !! b
  }

  predicate AvailableIn(jobs: int, active: seq<set<string>>, r: set<string>) {
    |active| < jobs && forall i :: 0 <= i < |active| ==> Compatible(r, active[i])
  }

  /** Non-empty resource sets of plans that may run side by side, at most `jobs` of them. */
  predicate Peaceful(jobs: int, active: seq<set<string>>) {
    && (active == [] || |active| <= jobs)
    && (forall i :: 0 <= i < |active| ==> active[i] != {})
    && (forall i, j :: 0 <= i < j < |active| ==> Compatible(active[i], active[j]))
  }

  /** The position of the first equal element, the one list.remove drops. */
  function FirstIndex(active: seq<set<string>>, r: set<string>): (i: nat)
    requires r in active
    ensures i < |active| && active[i] == r && r !in active[..i]
  {
    if active[0] == r then 0 else 1 + FirstIndex(active[1..], r)
  }

  function RemoveAt<T>(s: seq<T>, i: nat): seq<T>
    requires i < |s|
  {
    s[..i] + s[i + 1..]
  }

  /** Among peaceful plans, removal by equality hits exactly the releasing plan's entry. */
  lemma {:induction false} FirstIndexIsOwn(jobs: int, active: seq<set<string>>, k: nat)
    requires Peaceful(jobs, active) && k < |active|
    ensures active[k] in active && FirstIndex(active, active[k]) == k
  {
    var i := FirstIndex(active, active[k]);
    assert i < k ==> Compatible(active[i], active[k]);
  }

  class PlanGate {
    const jobs: int
    var active: seq<set<string>>

    constructor (jobs: int)
      ensures this.jobs == jobs && active == [] && Peaceful(jobs, active)
    {
      this.jobs := jobs;
      active := [];
    }

    /** The condition reserve waits for. */
    predicate Available(r: set<string>)
      reads this
    {
      AvailableIn(jobs, active, r)
    }

    /** Entry to the reservation, once wait_for has seen the condition hold. */
    method Admit(r: set<string>)
      requires Peaceful(jobs, active) && r != {} && Available(r)
      modifies this
      ensures active == old(active) + [r] && Peaceful(jobs, active)
    {
      active := active + [r];
    }

    /** Exit from the reservation by the plan admitted k-th among those active. */
    method Release(r: set<string>, ghost k: nat)
      requires Peaceful(jobs, active) && k < |active| && active[k] == r
      modifies this
      ensures active == old(active)[..k] + old(active)[k + 1..] && Peaceful(jobs, active)
    {
      FirstIndexIsOwn(jobs, active, k);
      active := RemoveAt(active, FirstIndex(active, r));
    }
  }

  // ---------- Runs ----------

  datatype Status = Awake | Asleep | Running | Finished

  datatype Task = Task(resources: set<string>, status: Status)

  /** An entry of the active list with, as history, the task that appended it. */
  datatype Entry = Entry(owner: nat, resources: set<string>)

  datatype State = State(jobs: int, tasks: seq<Task>, active: seq<Entry>)

  /** Check: a waiting task evaluates the condition. Cancel: it is cancelled while waiting. */
  datatype Event = Check(i: nat) | Finish(i: nat) | Cancel(i: nat)

  function Sets(active: seq<Entry>): seq<set<string>> {
    seq(|active|, i requires 0 <= i < |active| => active[i].resources)
  }

  predicate Admissible(s: State, i: nat)
    requires i < |s.tasks|
  {
    AvailableIn(s.jobs, Sets(s.active), s.tasks[i].resources)
  }

  /** notify_all. */
  function WakeAll(tasks: seq<Task>): (r: seq<Task>)
    ensures |r| == |tasks|
  {
    seq(|tasks|, i requires 0 <= i < |tasks| =>
      if tasks[i].status == Asleep then tasks[i].(status := Awake) else tasks[i])
  }

  /** list.remove by equality of resources, on entries. */
  function RemoveEntry(active: seq<Entry>, r: set<string>): seq<Entry> {
    if r in Sets(active) then RemoveAt(active, FirstIndex(Sets(active), r)) else active
  }

  function SetStatus(tasks: seq<Task>, i: nat, status: Status): seq<Task>
    requires i < |tasks|
  {
    tasks[i := tasks[i].(status := status)]
  }

  function Step(s: State, e: Event): Option<State> {
    if e.i >= |s.tasks| then None
    else
      var task := s.tasks[e.i];
      match e
      case Check(i) =>
        if task.status != Awake then None
        else if Admissible(s, i) then
          Some(s.(tasks := SetStatus(s.tasks, i, Running), active := s.active + [Entry(i, task.resources)]))
        else Some(s.(tasks := SetStatus(s.tasks, i, Asleep)))
      case Finish(i) =>
        if task.status != Running then None
        else Some(s.(tasks := WakeAll(SetStatus(s.tasks, i, Finished)), active := RemoveEntry(s.active, task.resources)))
      case Cancel(i) =>
        if task.status !in {Awake, Asleep} then None
        else Some(s.(tasks := SetStatus(s.tasks, i, Finished)))
  }

  function Run(s: State, es: seq<Event>): Option<State>
    decreases |es|
  {
    if |es| == 0 then Some(s)
    else
      match Run(s, es[..|es| - 1])
      case None => None
      case Some(t) => Step(t, es[|es| - 1])
  }

  /** All plans waiting, none active. */
  ghost predicate Init(s: State) {
    && s.active == []
    && forall i :: 0 <= i < |s.tasks| ==> s.tasks[i].status == Awake && s.tasks[i].resources != {}
  }

  ghost predicate EntryOk(s: State, k: nat)
    requires k < |s.active|
  {
    var e := s.active[k];
    && e.owner < |s.tasks| && s.tasks[e.owner].status == Running && e.resources == s.tasks[e.owner].resources
    && forall j :: 0 <= j < |s.active| && j != k ==> s.active[j].owner != e.owner
  }

  ghost predicate TaskOk(s: State, i: nat)
    requires i < |s.tasks|
  {
    && s.tasks[i].resources != {}
    && (s.tasks[i].status == Running ==> exists k :: 0 <= k < |s.active| && s.active[k].owner == i)
    && (s.tasks[i].status == Asleep ==> !Admissible(s, i))
  }

  ghost predicate Inv(s: State) {
    && Peaceful(s.jobs, Sets(s.active))
    && (forall k {:trigger EntryOk(s, k)} :: 0 <= k < |s.active| ==> EntryOk(s, k))
    && (forall i {:trigger TaskOk(s, i)} :: 0 <= i < |s.tasks| ==> TaskOk(s, i))
  }

  lemma {:induction false} PeacefulDrop(jobs: int, active: seq<set<string>>, k: nat)
    requires Peaceful(jobs, active) && k < |active|
    ensures Peaceful(jobs, active[..k] + active[k + 1..])
  {
  }

  lemma {:induction false} AdmitInv(s: State, i: nat, t: State)
    requires Inv(s) && Step(s, Check(i)) == Some(t) && Admissible(s, i)
    ensures Inv(t)
  {
    assert TaskOk(s, i);
    assert Sets(t.active) == Sets(s.active) + [s.tasks[i].resources];
    forall k | 0 <= k < |t.active| ensures EntryOk(t, k) {
      if k < |s.active| {
        assert EntryOk(s, k);
      } else {
        forall j | 0 <= j < |s.active| ensures s.active[j].owner != i { assert EntryOk(s, j); }
      }
    }
    forall j | 0 <= j < |t.tasks| ensures TaskOk(t, j) {
      assert TaskOk(s, j);
      if j == i {
        assert t.active[|s.active|].owner == i;
      } else if s.tasks[j].status == Running {
        var k :| 0 <= k < |s.active| && s.active[k].owner == j;
        assert t.active[k].owner == j;
      } else if s.tasks[j].status == Asleep {
        StaysBlocked(s, t, j);
      }
    }
  }

  /** Appending to the active list admits nobody who was blocked. */
  lemma {:induction false} StaysBlocked(s: State, t: State, j: nat)
    requires j < |s.tasks| == |t.tasks| && t.jobs == s.jobs
    requires t.tasks[j].resources == s.tasks[j].resources
    requires s.active <= t.active
    requires !Admissible(s, j)
    ensures !Admissible(t, j)
  {
    assert forall k :: 0 <= k < |s.active| ==> Sets(t.active)[k] == Sets(s.active)[k];
  }

  lemma {:induction false} QuietInv(s: State, e: Event, t: State)
    requires Inv(s) && Step(s, e) == Some(t) && (e.Cancel? || (e.Check? && !Admissible(s, e.i)))
    ensures Inv(t)
  {
    forall k | 0 <= k < |t.active| ensures EntryOk(t, k) { assert EntryOk(s, k); }
    forall j | 0 <= j < |t.tasks| ensures TaskOk(t, j) {
      assert TaskOk(s, j);
      assert Admissible(t, j) == Admissible(s, j);
    }
  }

  lemma {:induction false} FinishInv(s: State, i: nat, t: State)
    requires Inv(s) && Step(s, Finish(i)) == Some(t)
    ensures Inv(t)
    ensures exists k :: 0 <= k < |s.active| && s.active[k].owner == i && t.active == s.active[..k] + s.active[k + 1..]
  {
    assert TaskOk(s, i);
    var k :| 0 <= k < |s.active| && s.active[k].owner == i;
    assert EntryOk(s, k);
    FirstIndexIsOwn(s.jobs, Sets(s.active), k);
    assert Sets(t.active) == Sets(s.active)[..k] + Sets(s.active)[k + 1..];
    PeacefulDrop(s.jobs, Sets(s.active), k);
    forall j | 0 <= j < |t.active| ensures EntryOk(t, j) {
      EntryShifts(s, k, t, j);
    }
    forall j | 0 <= j < |t.tasks| ensures TaskOk(t, j) {
      TaskShifts(s, k, t, j);
    }
  }

  lemma {:induction false} TaskShifts(s: State, k: nat, t: State, j: nat)
    requires k < |s.active| && t.active == s.active[..k] + s.active[k + 1..] && j < |s.tasks| && TaskOk(s, j)
    requires s.active[k].owner < |s.tasks| && t.tasks == WakeAll(SetStatus(s.tasks, s.active[k].owner, Finished))
    ensures TaskOk(t, j)
  {
    if t.tasks[j].status == Running {
      var l :| 0 <= l < |s.active| && s.active[l].owner == j;
      assert t.active[if l < k then l else l - 1].owner == j;
    }
  }

  lemma {:induction false} EntryShifts(s: State, k: nat, t: State, j: nat)
    requires k < |s.active| && t.active == s.active[..k] + s.active[k + 1..] && j < |t.active|
    requires forall l {:trigger EntryOk(s, l)} :: 0 <= l < |s.active| ==> EntryOk(s, l)
    requires s.active[k].owner < |s.tasks| && t.tasks == WakeAll(SetStatus(s.tasks, s.active[k].owner, Finished))
    ensures EntryOk(t, j)
  {
    var l := if j < k then j else j + 1;
    assert EntryOk(s, l);
    forall m | 0 <= m < |t.active| && m != j ensures t.active[m].owner != t.active[j].owner {
      assert t.active[m] == s.active[if m < k then m else m + 1];
    }
  }

  lemma {:induction false} StepInv(s: State, e: Event, t: State)
    requires Inv(s) && Step(s, e) == Some(t)
    ensures Inv(t)
  {
    if e.Finish? {
      FinishInv(s, e.i, t);
    } else if e.Check? && Admissible(s, e.i) {
      AdmitInv(s, e.i, t);
    } else {
      QuietInv(s, e, t);
    }
  }

  lemma {:induction false} RunInv(s: State, es: seq<Event>)
    requires Inv(s) && Run(s, es).Some?
    ensures Inv(Run(s, es).value)
    ensures Run(s, es).value.jobs == s.jobs && |Run(s, es).value.tasks| == |s.tasks|
    ensures forall i :: 0 <= i < |s.tasks| ==> Run(s, es).value.tasks[i].resources == s.tasks[i].resources
    decreases |es|
  {
    if |es| > 0 {
      RunInv(s, es[..|es| - 1]);
      StepInv(Run(s, es[..|es| - 1]).value, es[|es| - 1], Run(s, es).value);
    }
  }

  lemma {:induction false} InitInv(s: State)
    requires Init(s)
    ensures Inv(s)
  {
  }

  /**
    Scheduler safety: in every reachable state at most `jobs` plans run, an exclusive plan
    runs alone, and no two running plans share a client of their configurations or an alias.
   */
  lemma {:induction false} SchedulerSafety(plans: seq<Plan>, show: Show, s: State, es: seq<Event>, i: nat, j: nat)
    requires Init(s) && |plans| == |s.tasks| && Run(s, es).Some?
    requires forall k :: 0 <= k < |plans| ==> ResourcesOf(plans[k], show, s.tasks[k].resources)
    requires i < |plans| && j < |plans| && i != j
    ensures var t := Run(s, es).value;
            && (t.active == [] || |t.active| <= s.jobs)
            && |t.tasks| == |plans|
            && (t.tasks[i].status == Running && t.tasks[j].status == Running ==>
                  && !Exclusive(plans[i]) && !Exclusive(plans[j])
                  && AliasOf(plans[i], show) != AliasOf(plans[j], show)
                  && forall c :: !(Mentions(JObject(plans[i].config), c) && Mentions(JObject(plans[j].config), c)))
  {
    InitInv(s);
    RunInv(s, es);
    var t := Run(s, es).value;
    assert TaskOk(t, i) && TaskOk(t, j);
    if t.tasks[i].status == Running && t.tasks[j].status == Running {
      var k :| 0 <= k < |t.active| && t.active[k].owner == i;
      var l :| 0 <= l < |t.active| && t.active[l].owner == j;
      assert EntryOk(t, k) && EntryOk(t, l);
      var sets := Sets(t.active);
      assert if k < l then Compatible(sets[k], sets[l]) else Compatible(sets[l], sets[k]);
      assert ResourcesOf(plans[i], show, s.tasks[i].resources) && ResourcesOf(plans[j], show, s.tasks[j].resources);
      CompatibleIff(plans[i], s.tasks[i].resources, plans[j], s.tasks[j].resources, show);
    }
  }

  /**
    The gate is no stricter than it must be: in every reachable state, a waiting plan that
    looks is admitted if and only if fewer than `jobs` plans are running and it conflicts
    with none of them.
   */
  lemma {:induction false} AdmittedIff(plans: seq<Plan>, show: Show, s: State, es: seq<Event>, i: nat)
    requires Init(s) && |plans| == |s.tasks| && Run(s, es).Some? && i < |plans|
    requires forall k :: 0 <= k < |plans| ==> ResourcesOf(plans[k], show, s.tasks[k].resources)
    ensures var t := Run(s, es).value;
            && |t.tasks| == |plans|
            && (t.tasks[i].status == Awake ==>
                  && Step(t, Check(i)).Some?
                  && (Step(t, Check(i)).value.tasks[i].status == Running <==>
                        |t.active| < s.jobs && forall j :: 0 <= j < |plans| && t.tasks[j].status == Running ==> !Conflict(plans[i], plans[j], show)))
  {
    InitInv(s);
    RunInv(s, es);
    var t := Run(s, es).value;
    forall j | 0 <= j < |plans| ensures Compatible(t.tasks[i].resources, t.tasks[j].resources) <==> !Conflict(plans[i], plans[j], show) {
      assert ResourcesOf(plans[i], show, s.tasks[i].resources) && ResourcesOf(plans[j], show, s.tasks[j].resources);
      CompatibleIff(plans[i], t.tasks[i].resources, plans[j], t.tasks[j].resources, show);
    }
    FreeOfRunning(t, t.tasks[i].resources);
  }

  /** Being compatible with every active entry is being compatible with every running task. */
  lemma {:induction false} FreeOfRunning(t: State, r: set<string>)
    requires Inv(t)
    ensures var sets := Sets(t.active);
            (forall k :: 0 <= k < |sets| ==> Compatible(r, sets[k])) <==>
            (forall j :: 0 <= j < |t.tasks| && t.tasks[j].status == Running ==> Compatible(r, t.tasks[j].resources))
  {
    var sets := Sets(t.active);
    if forall k :: 0 <= k < |sets| ==> Compatible(r, sets[k]) {
      forall j | 0 <= j < |t.tasks| && t.tasks[j].status == Running ensures Compatible(r, t.tasks[j].resources) {
        assert TaskOk(t, j);
        var k :| 0 <= k < |t.active| && t.active[k].owner == j;
        assert EntryOk(t, k) && sets[k] == t.active[k].resources;
      }
    }
    if forall j :: 0 <= j < |t.tasks| && t.tasks[j].status == Running ==> Compatible(r, t.tasks[j].resources) {
      forall k | 0 <= k < |sets| ensures Compatible(r, sets[k]) {
        assert EntryOk(t, k) && sets[k] == t.active[k].resources;
      }
    }
  }

  /** A waiting plan can be cancelled, awake or asleep, and leaves the others as they are. */
  lemma {:induction false} CancelLeavesOthers(s: State, i: nat, j: nat)
    requires i < |s.tasks| && j < |s.tasks| && (s.tasks[i].status == Awake || s.tasks[i].status == Asleep)
    ensures Step(s, Cancel(i)).Some?
    ensures var t := Step(s, Cancel(i)).value;
            t.active == s.active && |t.tasks| == |s.tasks| && t.tasks[i].status == Finished && (j != i ==> t.tasks[j] == s.tasks[j])
  {
  }

  /** A blocked plan can become admissible only by another plan's finishing. */
  lemma {:induction false} OnlyReleaseUnblocks(s: State, e: Event, t: State, i: nat)
    requires Step(s, e) == Some(t) && !e.Finish? && i < |s.tasks| && !Admissible(s, i)
    ensures |t.tasks| == |s.tasks| && !Admissible(t, i)
  {
    StaysBlocked(s, t, i);
  }

  /** With jobs >= 1 some event is possible until every plan has finished. */
  lemma {:induction false} NeverStuck(s: State) returns (e: Event)
    requires Inv(s) && s.jobs >= 1
    requires exists i :: 0 <= i < |s.tasks| && s.tasks[i].status != Finished
    ensures !e.Cancel? && Step(s, e).Some?
  {
    var i :| 0 <= i < |s.tasks| && s.tasks[i].status != Finished;
    assert TaskOk(s, i);
    match s.tasks[i].status {
      case Awake => e := Check(i);
      case Running => e := Finish(i);
      case Asleep =>
        assert s.active != [];
        assert EntryOk(s, 0);
        e := Finish(s.active[0].owner);
    }
  }

  // ---------- Termination ----------

  function Weight(status: Status, w: nat): nat {
    match status
    case Awake => 2 * w + 1
    case Asleep => 2 * w
    case Running => w
    case Finished => 0
  }

  function Total(tasks: seq<Task>, w: nat): nat {
    if |tasks| == 0 then 0 else Weight(tasks[0].status, w) + Total(tasks[1..], w)
  }

  /** A bound on the events still to come. */
  function Measure(s: State): nat {
    Total(s.tasks, |s.tasks| + 1)
  }

  lemma {:induction false} TotalUpdate(tasks: seq<Task>, i: nat, task: Task, w: nat)
    requires i < |tasks|
    ensures Total(tasks[i := task], w) == Total(tasks, w) - Weight(tasks[i].status, w) + Weight(task.status, w)
    decreases i
  {
    if i == 0 {
      assert tasks[i := task][1..] == tasks[1..];
    } else {
      assert tasks[i := task][1..] == tasks[1..][i - 1 := task];
      TotalUpdate(tasks[1..], i - 1, task, w);
    }
  }

  lemma {:induction false} TotalWake(tasks: seq<Task>, w: nat)
    ensures Total(WakeAll(tasks), w) <= Total(tasks, w) + |tasks|
    decreases |tasks|
  {
    if |tasks| > 0 {
      assert WakeAll(tasks)[1..] == WakeAll(tasks[1..]);
      TotalWake(tasks[1..], w);
    }
  }

  lemma {:induction false} StepDecreases(s: State, e: Event, t: State)
    requires Step(s, e) == Some(t)
    ensures Measure(t) < Measure(s) && |t.tasks| == |s.tasks|
  {
    var w := |s.tasks| + 1;
    var status := match e
      case Check(i) => if Admissible(s, i) then Running else Asleep
      case _ => Finished;
    TotalUpdate(s.tasks, e.i, s.tasks[e.i].(status := status), w);
    TotalWake(SetStatus(s.tasks, e.i, status), w);
  }

  /** No run is longer than the initial measure. */
  lemma {:induction false} RunBounded(s: State, es: seq<Event>)
    requires Run(s, es).Some?
    ensures |es| + Measure(Run(s, es).value) <= Measure(s)
    decreases |es|
  {
    if |es| > 0 {
      RunBounded(s, es[..|es| - 1]);
      StepDecreases(Run(s, es[..|es| - 1]).value, es[|es| - 1], Run(s, es).value);
    }
  }

  /**
    Scheduler progress: every run is finite, and one that cannot be continued has finished
    every plan and left the active list empty.
   */
  lemma {:induction false} SchedulerProgress(s: State, es: seq<Event>)
    requires Init(s) && s.jobs >= 1 && Run(s, es).Some?
    ensures |es| <= Measure(s)
    ensures var t := Run(s, es).value;
            (forall e: Event :: !e.Cancel? ==> Step(t, e).None?) <==>
              (forall i :: 0 <= i < |t.tasks| ==> t.tasks[i].status == Finished)
    ensures var t := Run(s, es).value;
            (forall i :: 0 <= i < |t.tasks| ==> t.tasks[i].status == Finished) ==> t.active == []
  {
    InitInv(s);
    RunInv(s, es);
    RunBounded(s, es);
    var t := Run(s, es).value;
    if exists i :: 0 <= i < |t.tasks| && t.tasks[i].status != Finished {
      var e := NeverStuck(t);
    }
    assert t.active != [] ==> EntryOk(t, 0);
  }
}
