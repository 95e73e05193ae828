/**
  Declarative organisation configuration: the plan that turns live state into the desired
  one, and what applying it, with any of its requests failing, leaves to be planned.
 */
module OrgReconcile {
  import opened Options

  datatype Resource =
    | PasswordPolicy | LockoutPolicy | RateLimits | EmailPolicy
    | FeatureFlag | AuthPolicy | Client | Role | Group | Webhook | IdentityProvider

  /** A resource: its stable key, its other fields, and the server's ID where it has one. */
  datatype Item = Item(key: string, body: string, id: string)

  datatype OrgSpec = OrgSpec(
    passwordPolicy: Option<string>,
    lockoutPolicy: Option<string>,
    rateLimits: Option<string>,
    emailPolicy: Option<string>,
    featureFlags: seq<Item>,
    authPolicies: seq<Item>,
    clients: seq<Item>,
    roles: seq<Item>,
    groups: seq<Item>,
    webhooks: seq<Item>,
    identityProviders: seq<Item>)

  datatype ChangeKind = Create | Update

  datatype Change = Change(kind: ChangeKind, resource: Resource, payload: Item)

  datatype Entry = Entry(resource: Resource, item: Item)

  /** Where an item lives, and a view of what lives where. */
  type Slot = (Resource, string)
  type Live = Slot -> Option<Item>

  function SlotOf(e: Entry): Slot {
    (e.resource, e.item.key)
  }

  /** Existing items of these kinds are never updated from the file. */
  predicate PresenceOnly(r: Resource) {
    r in {Role, Group, IdentityProvider}
  }

  predicate Singleton(r: Resource) {
    r in {PasswordPolicy, LockoutPolicy, RateLimits, EmailPolicy}
  }

  function Document(doc: Option<string>): seq<Item> {
    if doc.Some? then [Item("singleton", doc.value, "")] else []
  }

  function Items(s: OrgSpec, r: Resource): seq<Item> {
    match r
    case PasswordPolicy => Document(s.passwordPolicy)
    case LockoutPolicy => Document(s.lockoutPolicy)
    case RateLimits => Document(s.rateLimits)
    case EmailPolicy => Document(s.emailPolicy)
    case FeatureFlag => s.featureFlags
    case AuthPolicy => s.authPolicies
    case Client => s.clients
    case Role => s.roles
    case Group => s.groups
    case Webhook => s.webhooks
    case IdentityProvider => s.identityProviders
  }

  function Section(s: OrgSpec, r: Resource): seq<Entry> {
    seq(|Items(s, r)|, i requires 0 <= i < |Items(s, r)| => Entry(r, Items(s, r)[i]))
  }

  function Policies(s: OrgSpec): seq<Entry> {
    Section(s, PasswordPolicy) + Section(s, LockoutPolicy) + Section(s, RateLimits) + Section(s, EmailPolicy)
  }

  /** The whole specification, in the order computeChanges visits it. */
  function Entries(s: OrgSpec): seq<Entry> {
    Policies(s) + Section(s, FeatureFlag) + Section(s, AuthPolicy) + Section(s, Client) + Section(s, Role) + Section(s, Group) +
    Section(s, Webhook) + Section(s, IdentityProvider)
  }

  /** The last item under each key, as repeated map assignment leaves it. */
  function Index(items: seq<Item>): map<string, Item> {
    if |items| == 0 then map[] else Index(items[..|items| - 1])[items[|items| - 1].key := items[|items| - 1]]
  }

  /** Live state as a fetched specification shows it. */
  function LiveOf(s: OrgSpec): Live {
    (slot: Slot) =>
      var index := Index(Items(s, slot.0));
      if slot.1 in index then Some(index[slot.1]) else None
  }

  // ---------- Planning ----------

  /** What one desired entry calls for, given what is live in its slot. */
  function ChangeFor(live: Option<Item>, e: Entry): Option<Change> {
    if live.None? then
      Some(Change(if Singleton(e.resource) then Update else Create, e.resource, e.item))
    else if PresenceOnly(e.resource) || live.value == e.item then None
    else Some(Change(Update, e.resource, e.item))
  }

  function Plan(live: Live, es: seq<Entry>): seq<Change> {
    if |es| == 0 then []
    else
      var rest := Plan(live, es[1..]);
      match ChangeFor(live(SlotOf(es[0])), es[0])
      case None => rest
      case Some(c) => [c] + rest
  }

  lemma {:induction false} PlanAppend(live: Live, a: seq<Entry>, b: seq<Entry>)
    ensures Plan(live, a + b) == Plan(live, a) + Plan(live, b)
    decreases |a|
  {
    if |a| == 0 {
      assert a + b == b;
    } else {
      assert (a + b)[1..] == a[1..] + b;
      PlanAppend(live, a[1..], b);
    }
  }

  /** The plan depends only on the slots its entries name. */
  lemma {:induction false} PlanAgree(a: Live, b: Live, es: seq<Entry>)
    requires forall i :: 0 <= i < |es| ==> a(SlotOf(es[i])) == b(SlotOf(es[i]))
    ensures Plan(a, es) == Plan(b, es)
    decreases |es|
  {
    if |es| > 0 { PlanAgree(a, b, es[1..]); }
  }

  /** indexBy. */
  method IndexBy(items: seq<Item>) returns (m: map<string, Item>)
    ensures m == Index(items)
  {
    m := map[];
    for i := 0 to |items|
      invariant m == Index(items[..i])
    {
      assert items[..i + 1][..i] == items[..i];
      m := m[items[i].key := items[i]];
    }
    assert items[..|items|] == items;
  }

  /** One of computeChanges' loops, appending to the changes found so far. */
  method DiffTable(ghost live: OrgSpec, ghost desired: OrgSpec, r: Resource, liveItems: seq<Item>, items: seq<Item>,
                   changes: seq<Change>, ghost before: seq<Entry>)
    returns (all: seq<Change>)
    requires !Singleton(r) && changes == Plan(LiveOf(live), before)
    requires Items(live, r) == liveItems && Items(desired, r) == items
    ensures all == Plan(LiveOf(live), before + Section(desired, r))
  {
    var index := IndexBy(liveItems);
    ghost var section := Section(desired, r);
    all := changes;
    for i := 0 to |items|
      invariant all == changes + Plan(LiveOf(live), section[..i])
    {
      PlanNext(LiveOf(live), section, i);
      var d := items[i];
      assert SlotOf(section[i]) == (r, d.key);
      if d.key !in index {
        all := all + [Change(Create, r, d)];
      } else if !PresenceOnly(r) && index[d.key] != d {
        all := all + [Change(Update, r, d)];
      }
    }
    assert section[..|items|] == section;
    PlanAppend(LiveOf(live), before, section);
  }

  lemma {:induction false} PlanNext(live: Live, es: seq<Entry>, i: nat)
    requires i < |es|
    ensures Plan(live, es[..i + 1]) ==
            Plan(live, es[..i]) + match ChangeFor(live(SlotOf(es[i])), es[i]) case None => [] case Some(c) => [c]
  {
    assert es[..i + 1] == es[..i] + [es[i]];
    PlanAppend(live, es[..i], [es[i]]);
    PlanOne(live, es[i]);
  }

  lemma {:induction false} PlanOne(live: Live, e: Entry)
    ensures Plan(live, [e]) == match ChangeFor(live(SlotOf(e)), e) case None => [] case Some(c) => [c]
  {
    assert [e][1..] == [];
  }

  /** computeChanges on one of the singleton policies. */
  method DiffDocument(ghost live: OrgSpec, ghost desired: OrgSpec, r: Resource, liveDoc: Option<string>, doc: Option<string>,
                      changes: seq<Change>, ghost before: seq<Entry>)
    returns (all: seq<Change>)
    requires Singleton(r) && changes == Plan(LiveOf(live), before)
    requires Items(live, r) == Document(liveDoc) && Items(desired, r) == Document(doc)
    ensures all == Plan(LiveOf(live), before + Section(desired, r))
  {
    ghost var section := Section(desired, r);
    PlanAppend(LiveOf(live), before, section);
    all := changes;
    if doc.Some? {
      assert section == [Entry(r, Item("singleton", doc.value, ""))];
      PlanOne(LiveOf(live), section[0]);
      assert liveDoc.Some? ==> Document(liveDoc)[..0] == [];
      if liveDoc != doc {
        all := all + [Change(Update, r, Item("singleton", doc.value, ""))];
      }
    } else {
      assert section == [];
    }
  }

  /**
    Whether an item of the file calls for a change, given what is live under its key. It does
    if nothing is, or if something else is and the kind is one that is updated.
   */
  ghost predicate Wanted(r: Resource, live: Option<Item>, d: Item) {
    match r
    case Role => live.None?
    case Group => live.None?
    case IdentityProvider => live.None?
    case _ => live != Some(d)
  }

  /** A change creates if nothing is live under its key, but policies of the whole organisation are only updated. */
  ghost predicate RightKind(c: Change, live: Option<Item>) {
    match c.resource
    case PasswordPolicy => c.kind == Update
    case LockoutPolicy => c.kind == Update
    case RateLimits => c.kind == Update
    case EmailPolicy => c.kind == Update
    case _ => c.kind == Create <==> live.None?
  }

  lemma {:induction false} ChangeForIff(live: Option<Item>, e: Entry, c: Change)
    ensures ChangeFor(live, e) == Some(c) <==>
              c.resource == e.resource && c.payload == e.item && Wanted(e.resource, live, e.item) && RightKind(c, live)
  {
  }

  /** Exactly the wanted changes are planned. */
  lemma {:induction false} PlannedIff(live: Live, es: seq<Entry>, c: Change)
    ensures var e := Entry(c.resource, c.payload);
            c in Plan(live, es) <==> e in es && Wanted(c.resource, live(SlotOf(e)), c.payload) && RightKind(c, live(SlotOf(e)))
    decreases |es|
  {
    if |es| > 0 {
      PlannedIff(live, es[1..], c);
      ChangeForIff(live(SlotOf(es[0])), es[0], c);
      assert forall e :: e in es <==> e == es[0] || e in es[1..];
    }
  }

  /** computeChanges on the singleton policies. */
  method DiffPolicies(live: OrgSpec, desired: OrgSpec) returns (changes: seq<Change>)
    ensures changes == Plan(LiveOf(live), Policies(desired))
  {
    ghost var es := [];
    changes := DiffDocument(live, desired, PasswordPolicy, live.passwordPolicy, desired.passwordPolicy, [], es);
    es := Section(desired, PasswordPolicy);
    assert [] + es == es;
    changes := DiffDocument(live, desired, LockoutPolicy, live.lockoutPolicy, desired.lockoutPolicy, changes, es);
    es := es + Section(desired, LockoutPolicy);
    changes := DiffDocument(live, desired, RateLimits, live.rateLimits, desired.rateLimits, changes, es);
    es := es + Section(desired, RateLimits);
    changes := DiffDocument(live, desired, EmailPolicy, live.emailPolicy, desired.emailPolicy, changes, es);
  }

  /** computeChanges on the collections. */
  method DiffTables(live: OrgSpec, desired: OrgSpec, changes: seq<Change>) returns (all: seq<Change>)
    requires changes == Plan(LiveOf(live), Policies(desired))
    ensures all == Plan(LiveOf(live), Entries(desired))
  {
    ghost var es := Policies(desired);
    all := changes;
    all := DiffTable(live, desired, FeatureFlag, live.featureFlags, desired.featureFlags, all, es);
    es := es + Section(desired, FeatureFlag);
    all := DiffTable(live, desired, AuthPolicy, live.authPolicies, desired.authPolicies, all, es);
    es := es + Section(desired, AuthPolicy);
    all := DiffTable(live, desired, Client, live.clients, desired.clients, all, es);
    es := es + Section(desired, Client);
    all := DiffTable(live, desired, Role, live.roles, desired.roles, all, es);
    es := es + Section(desired, Role);
    all := DiffTable(live, desired, Group, live.groups, desired.groups, all, es);
    es := es + Section(desired, Group);
    all := DiffTable(live, desired, Webhook, live.webhooks, desired.webhooks, all, es);
    es := es + Section(desired, Webhook);
    all := DiffTable(live, desired, IdentityProvider, live.identityProviders, desired.identityProviders, all, es);
  }

  /** The change carries an item of the file that is wanted, in the right way. */
  ghost predicate Due(live: OrgSpec, desired: OrgSpec, c: Change) {
    var there := LiveOf(live)((c.resource, c.payload.key));
    c.payload in Items(desired, c.resource) && Wanted(c.resource, there, c.payload) && RightKind(c, there)
  }

  lemma {:induction false} PlanIsDue(live: OrgSpec, desired: OrgSpec)
    ensures var plan := Plan(LiveOf(live), Entries(desired));
            forall c {:trigger Due(live, desired, c)} :: c in plan <==> Due(live, desired, c)
  {
    forall c ensures c in Plan(LiveOf(live), Entries(desired)) <==> Due(live, desired, c) {
      PlannedIff(LiveOf(live), Entries(desired), c);
      EntriesMember(desired, Entry(c.resource, c.payload));
    }
  }

  /** computeChanges. */
  method ComputeChanges(live: OrgSpec, desired: OrgSpec) returns (changes: seq<Change>)
    ensures changes == Plan(LiveOf(live), Entries(desired))
    ensures forall c {:trigger Due(live, desired, c)} :: c in changes <==> Due(live, desired, c)
  {
    changes := DiffPolicies(live, desired);
    changes := DiffTables(live, desired, changes);
    PlanIsDue(live, desired);
  }

  // ---------- Applying ----------

  /**
    The server keeps what it is sent under its key, except that the ID of an
    authentication policy is its own: kept on update, assigned on creation.
   */
  function Stored(live: Option<Item>, c: Change, newId: string): Item {
    if c.resource == AuthPolicy then c.payload.(id := if live.Some? then live.value.id else newId)
    else c.payload
  }

  function ApplyOne(live: Live, c: Change, assign: string -> string): Live {
    var slot := (c.resource, c.payload.key);
    var item := Stored(live(slot), c, assign(c.payload.key));
    (s: Slot) => if s == slot then Some(item) else live(s)
  }

  /** The changes in order; those marked failed have no effect. */
  function ApplyAll(live: Live, cs: seq<Change>, failed: seq<bool>, assign: string -> string): Live
    requires |cs| == |failed|
    decreases |cs|
  {
    if |cs| == 0 then live
    else ApplyAll(if failed[0] then live else ApplyOne(live, cs[0], assign), cs[1..], failed[1..], assign)
  }

  /** The apply loop's counts; the command reports an error exactly when some change failed. */
  method ApplyChanges(cs: seq<Change>, failed: seq<bool>) returns (applied: nat, failures: nat, ok: bool)
    requires |cs| == |failed|
    ensures applied + failures == |cs|
    ensures failures == |Failures(cs, failed)|
    ensures ok <==> forall i :: 0 <= i < |failed| ==> !failed[i]
  {
    applied, failures := 0, 0;
    for i := 0 to |cs|
      invariant applied + failures == i
      invariant failures == |Failures(cs[..i], failed[..i])|
      invariant failures == 0 <==> forall j :: 0 <= j < i ==> !failed[j]
    {
      assert cs[..i + 1] == cs[..i] + [cs[i]] && failed[..i + 1] == failed[..i] + [failed[i]];
      FailuresAppend(cs[..i], failed[..i], cs[i], failed[i]);
      if failed[i] {
        failures := failures + 1;
      } else {
        applied := applied + 1;
      }
    }
    assert cs[..|cs|] == cs && failed[..|cs|] == failed;
    ok := failures == 0;
  }

  /** The changes that failed, in order. */
  function Failures(cs: seq<Change>, failed: seq<bool>): seq<Change>
    requires |cs| == |failed|
  {
    if |cs| == 0 then [] else (if failed[0] then [cs[0]] else []) + Failures(cs[1..], failed[1..])
  }

  lemma {:induction false} FailuresAppend(cs: seq<Change>, failed: seq<bool>, c: Change, f: bool)
    requires |cs| == |failed|
    ensures Failures(cs + [c], failed + [f]) == Failures(cs, failed) + (if f then [c] else [])
    decreases |cs|
  {
    if |cs| == 0 {
      assert cs + [c] == [c] && failed + [f] == [f];
      assert Failures([c][1..], [f][1..]) == [];
    } else {
      assert (cs + [c])[1..] == cs[1..] + [c] && (failed + [f])[1..] == failed[1..] + [f];
      FailuresAppend(cs[1..], failed[1..], c, f);
    }
  }

  predicate DistinctSlots(es: seq<Entry>) {
    forall i, j :: 0 <= i < j < |es| ==> SlotOf(es[i]) != SlotOf(es[j])
  }

  /** An authentication policy in the file carries the ID the server has, or will assign. */
  predicate IdAgrees(live: Live, e: Entry, assign: string -> string) {
    e.resource == AuthPolicy ==>
      e.item.id == match live(SlotOf(e)) case Some(item) => item.id case None => assign(e.item.key)
  }

  /** Applying a plan changes no slot that its entries do not name. */
  lemma {:induction false} ApplyElsewhere(live: Live, before: Live, es: seq<Entry>, failed: seq<bool>,
                                          assign: string -> string, slot: Slot)
    requires |failed| == |Plan(before, es)|
    requires forall i :: 0 <= i < |es| ==> SlotOf(es[i]) != slot
    ensures ApplyAll(live, Plan(before, es), failed, assign)(slot) == live(slot)
    decreases |es|
  {
    if |es| > 0 {
      var cs := Plan(before, es);
      match ChangeFor(before(SlotOf(es[0])), es[0]) {
        case None => ApplyElsewhere(live, before, es[1..], failed, assign, slot);
        case Some(c) =>
          assert cs[1..] == Plan(before, es[1..]);
          ApplyElsewhere(if failed[0] then live else ApplyOne(live, c, assign), before, es[1..], failed[1..], assign, slot);
      }
    }
  }

  /**
    Reconciliation converges: after applying a plan for distinct keys, whichever of its
    requests failed, planning again yields exactly the failed changes. With no failure the
    second plan is empty.
   */
  lemma {:induction false} ReplanIsFailures(live: Live, es: seq<Entry>, failed: seq<bool>, assign: string -> string)
    requires DistinctSlots(es) && |failed| == |Plan(live, es)|
    requires forall i :: 0 <= i < |es| ==> IdAgrees(live, es[i], assign)
    ensures Plan(ApplyAll(live, Plan(live, es), failed, assign), es) == Failures(Plan(live, es), failed)
    decreases |es|
  {
    if |es| > 0 {
      var e, rest, cs := es[0], es[1..], Plan(live, es);
      assert IdAgrees(live, e, assign);
      match ChangeFor(live(SlotOf(e)), e) {
        case None =>
          ReplanIsFailures(live, rest, failed, assign);
          ApplyElsewhere(live, live, rest, failed, assign, SlotOf(e));
        case Some(c) =>
          assert cs[1..] == Plan(live, rest);
          var mid := if failed[0] then live else ApplyOne(live, c, assign);
          PlanAgree(live, mid, rest);
          forall i | 0 <= i < |rest| ensures IdAgrees(mid, rest[i], assign) {
            assert IdAgrees(live, es[i + 1], assign);
          }
          ReplanIsFailures(mid, rest, failed[1..], assign);
          ApplyElsewhere(mid, live, rest, failed[1..], assign, SlotOf(e));
      }
    }
  }

  /** After a plan is applied without failure, a changed slot holds what the server stored. */
  lemma {:induction false} ApplyHere(live: Live, before: Live, es: seq<Entry>, failed: seq<bool>,
                                     assign: string -> string, k: nat)
    requires DistinctSlots(es) && k < |es| && |failed| == |Plan(before, es)|
    requires forall i :: 0 <= i < |failed| ==> !failed[i]
    requires live(SlotOf(es[k])) == before(SlotOf(es[k]))
    requires ChangeFor(before(SlotOf(es[k])), es[k]).Some?
    ensures ApplyAll(live, Plan(before, es), failed, assign)(SlotOf(es[k])) ==
              Some(Stored(before(SlotOf(es[k])), ChangeFor(before(SlotOf(es[k])), es[k]).value, assign(es[k].item.key)))
    decreases |es|
  {
    var e, rest, cs := es[0], es[1..], Plan(before, es);
    match ChangeFor(before(SlotOf(e)), e) {
      case None => ApplyHere(live, before, rest, failed, assign, k - 1);
      case Some(c) =>
        assert cs[1..] == Plan(before, rest);
        var mid := ApplyOne(live, c, assign);
        if k == 0 {
          ApplyElsewhere(mid, before, rest, failed[1..], assign, SlotOf(e));
        } else {
          assert SlotOf(es[k]) != SlotOf(e) && rest[k - 1] == es[k];
          ApplyHere(mid, before, rest, failed[1..], assign, k - 1);
        }
    }
  }

  /** What the file says of this kind and key is live; of an authentication policy all but its ID. */
  ghost predicate Holds(r: Resource, before: Option<Item>, after: Option<Item>, d: Item) {
    match r
    case AuthPolicy => after.Some? && after.value.key == d.key && after.value.body == d.body
    case Role => after == if before.Some? then before else Some(d)
    case Group => after == if before.Some? then before else Some(d)
    case IdentityProvider => after == if before.Some? then before else Some(d)
    case _ => after == Some(d)
  }

  /**
    Applying the plan without a failure brings about the file: every policy of the
    organisation, feature flag, client and webhook is as the file has it, an authentication
    policy is up to its ID, and roles, groups and identity providers that were there stay.
   */
  lemma {:induction false} AppliedHolds(live: Live, es: seq<Entry>, failed: seq<bool>, assign: string -> string, k: nat)
    requires DistinctSlots(es) && k < |es| && |failed| == |Plan(live, es)|
    requires forall i :: 0 <= i < |failed| ==> !failed[i]
    ensures var slot := SlotOf(es[k]);
            Holds(es[k].resource, live(slot), ApplyAll(live, Plan(live, es), failed, assign)(slot), es[k].item)
  {
    var e := es[k];
    if ChangeFor(live(SlotOf(e)), e).Some? {
      ApplyHere(live, live, es, failed, assign, k);
    } else {
      ApplyUnchanged(live, live, es, failed, assign, k);
    }
  }

  lemma {:induction false} ApplyUnchanged(live: Live, before: Live, es: seq<Entry>, failed: seq<bool>,
                                          assign: string -> string, k: nat)
    requires DistinctSlots(es) && k < |es| && |failed| == |Plan(before, es)|
    requires ChangeFor(before(SlotOf(es[k])), es[k]).None?
    ensures ApplyAll(live, Plan(before, es), failed, assign)(SlotOf(es[k])) == live(SlotOf(es[k]))
    decreases |es|
  {
    var e, rest, cs := es[0], es[1..], Plan(before, es);
    match ChangeFor(before(SlotOf(e)), e) {
      case None =>
        if k == 0 {
          ApplyElsewhere(live, before, rest, failed, assign, SlotOf(e));
        } else {
          ApplyUnchanged(live, before, rest, failed, assign, k - 1);
        }
      case Some(c) =>
        assert cs[1..] == Plan(before, rest) && rest[k - 1] == es[k];
        ApplyUnchanged(if failed[0] then live else ApplyOne(live, c, assign), before, rest, failed[1..], assign, k - 1);
    }
  }

  lemma {:induction false} NoFailures(cs: seq<Change>, failed: seq<bool>)
    requires |cs| == |failed| && forall i :: 0 <= i < |failed| ==> !failed[i]
    ensures Failures(cs, failed) == []
    decreases |cs|
  {
    if |cs| > 0 { NoFailures(cs[1..], failed[1..]); }
  }

  /**
    When every request succeeds, the second plan is empty if and only if each
    authentication policy of the file carries the ID the server has or assigns: the ID
    takes part in the comparison although the server ignores it.
   */
  lemma {:induction false} ConvergesIff(live: Live, es: seq<Entry>, failed: seq<bool>, assign: string -> string)
    requires DistinctSlots(es) && |failed| == |Plan(live, es)|
    requires forall i :: 0 <= i < |failed| ==> !failed[i]
    ensures Plan(ApplyAll(live, Plan(live, es), failed, assign), es) == [] <==>
              forall i :: 0 <= i < |es| ==> IdAgrees(live, es[i], assign)
  {
    var after := ApplyAll(live, Plan(live, es), failed, assign);
    if forall i :: 0 <= i < |es| ==> IdAgrees(live, es[i], assign) {
      ReplanIsFailures(live, es, failed, assign);
      NoFailures(Plan(live, es), failed);
    } else {
      var i :| 0 <= i < |es| && !IdAgrees(live, es[i], assign);
      ApplyHere(live, live, es, failed, assign, i);
      assert ChangeFor(after(SlotOf(es[i])), es[i]).Some?;
      PlanEmptyIff(after, es);
    }
  }

  function NoneFailed(n: nat): (r: seq<bool>)
    ensures |r| == n && forall i :: 0 <= i < n ==> !r[i]
  {
    seq(n, _ => false)
  }

  /** Live state after applying the file n times over without a failure. */
  function Rounds(live: Live, es: seq<Entry>, assign: string -> string, n: nat): Live {
    if n == 0 then live
    else
      var before := Rounds(live, es, assign, n - 1);
      ApplyAll(before, Plan(before, es), NoneFailed(|Plan(before, es)|), assign)
  }

  /** The server's ID for the entry's policy, if it has one, is not the file's. */
  predicate IdDiffers(live: Live, e: Entry) {
    live(SlotOf(e)).Some? ==> live(SlotOf(e)).value.id != e.item.id
  }

  lemma {:induction false} RoundsKeepId(live: Live, es: seq<Entry>, assign: string -> string, n: nat, k: nat)
    requires DistinctSlots(es) && k < |es| && es[k].resource == AuthPolicy && IdDiffers(live, es[k])
    requires forall key :: assign(key) != es[k].item.id
    ensures IdDiffers(Rounds(live, es, assign, n), es[k])
    decreases n
  {
    if n > 0 {
      var before := Rounds(live, es, assign, n - 1);
      RoundsKeepId(live, es, assign, n - 1, k);
      ApplyHere(before, before, es, NoneFailed(|Plan(before, es)|), assign, k);
    }
  }

  /**
    A file that gives an authentication policy an ID the server neither has nor assigns,
    such as none at all, never converges: however often it is applied there is another plan.
   */
  lemma {:induction false} ForeignIdNeverConverges(live: Live, es: seq<Entry>, assign: string -> string, n: nat, k: nat)
    requires DistinctSlots(es) && k < |es| && es[k].resource == AuthPolicy && IdDiffers(live, es[k])
    requires forall key :: assign(key) != es[k].item.id
    ensures Plan(Rounds(live, es, assign, n), es) != []
  {
    RoundsKeepId(live, es, assign, n, k);
    PlanEmptyIff(Rounds(live, es, assign, n), es);
  }

  // ---------- Planning a specification against itself ----------

  /** Entries that can be updated and share a slot are equal. */
  ghost predicate Consistent(es: seq<Entry>) {
    forall a, b :: a in es && b in es && SlotOf(a) == SlotOf(b) && !PresenceOnly(a.resource) ==> a == b
  }

  lemma {:induction false} IndexLast(items: seq<Item>, i: nat)
    requires i < |items|
    ensures items[i].key in Index(items)
    ensures exists j :: i <= j < |items| && items[j].key == items[i].key && Index(items)[items[i].key] == items[j]
    decreases |items|
  {
    var n := |items| - 1;
    if items[n].key == items[i].key {
      assert Index(items)[items[i].key] == items[n];
    } else {
      IndexLast(items[..n], i);
    }
  }

  lemma {:induction false} PlanEmptyIff(live: Live, es: seq<Entry>)
    ensures Plan(live, es) == [] <==> forall i :: 0 <= i < |es| ==> ChangeFor(live(SlotOf(es[i])), es[i]).None?
    decreases |es|
  {
    if |es| > 0 {
      PlanEmptyIff(live, es[1..]);
      assert forall i :: 1 <= i < |es| ==> es[i] == es[1..][i - 1];
    }
  }

  lemma {:induction false} SectionMember(s: OrgSpec, r: Resource, e: Entry)
    ensures e in Section(s, r) <==> e.resource == r && e.item in Items(s, r)
  {
    if e.resource == r && e.item in Items(s, r) {
      var i :| 0 <= i < |Items(s, r)| && Items(s, r)[i] == e.item;
      assert Section(s, r)[i] == e;
    }
  }

  lemma {:induction false} EntriesMember(s: OrgSpec, e: Entry)
    ensures e in Entries(s) <==> e.item in Items(s, e.resource)
  {
    SectionMember(s, PasswordPolicy, e);
    SectionMember(s, LockoutPolicy, e);
    SectionMember(s, RateLimits, e);
    SectionMember(s, EmailPolicy, e);
    SectionMember(s, FeatureFlag, e);
    SectionMember(s, AuthPolicy, e);
    SectionMember(s, Client, e);
    SectionMember(s, Role, e);
    SectionMember(s, Group, e);
    SectionMember(s, Webhook, e);
    SectionMember(s, IdentityProvider, e);
  }

  /** What is live in an entry's slot is an entry of the specification. */
  lemma {:induction false} LiveIsEntry(s: OrgSpec, e: Entry)
    requires e in Entries(s)
    ensures LiveOf(s)(SlotOf(e)).Some?
    ensures Entry(e.resource, LiveOf(s)(SlotOf(e)).value) in Entries(s)
    ensures LiveOf(s)(SlotOf(e)).value.key == e.item.key
  {
    EntriesMember(s, e);
    var items := Items(s, e.resource);
    var i :| 0 <= i < |items| && items[i] == e.item;
    IndexLast(items, i);
    EntriesMember(s, Entry(e.resource, LiveOf(s)(SlotOf(e)).value));
  }

  /**
    Diffing an exported specification against itself reports nothing exactly when it is
    consistent; distinct keys are enough.
   */
  lemma {:induction false} SelfPlanEmptyIff(s: OrgSpec)
    ensures Plan(LiveOf(s), Entries(s)) == [] <==> Consistent(Entries(s))
  {
    var es, live := Entries(s), LiveOf(s);
    PlanEmptyIff(live, es);
    if Plan(live, es) == [] {
      forall a, b | a in es && b in es && SlotOf(a) == SlotOf(b) && !PresenceOnly(a.resource) ensures a == b {
        LiveIsEntry(s, a);
        assert ChangeFor(live(SlotOf(a)), a).None? && ChangeFor(live(SlotOf(b)), b).None?;
      }
    } else {
      var i :| 0 <= i < |es| && ChangeFor(live(SlotOf(es[i])), es[i]).Some?;
      LiveIsEntry(s, es[i]);
      var other := Entry(es[i].resource, live(SlotOf(es[i])).value);
      assert es[i] in es && other in es && SlotOf(es[i]) == SlotOf(other) && es[i] != other;
    }
  }
}
