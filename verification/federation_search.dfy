/**
  The federation as the resolver sees it, and the upward search for a trust anchor.

  Fetches are deterministic. A request context is modelled by the number of fetches it
  still allows: once that budget is spent every further fetch fails, as it does on a
  cancelled context. The search therefore ends on every hint graph, cyclic or not.
 */
module FederationSearch {
  import opened Options
  import opened Text

  type EntityId = string
  type Raw = string

  datatype Policy = Policy(scope: seq<string>, grantTypes: seq<string>, responseTypes: seq<string>)

  datatype RpMetadata = RpMetadata(
    redirectUris: seq<string>,
    postLogoutRedirectUris: seq<string>,
    grantTypes: seq<string>,
    responseTypes: seq<string>,
    scope: string,
    clientName: string,
    logoUri: string,
    contacts: seq<string>,
    jwksUri: string,
    jwks: string,
    tokenEndpointAuthMethod: string)

  datatype Claims = Claims(
    iss: EntityId,
    sub: EntityId,
    exp: int,
    jwks: string,
    hints: seq<EntityId>,
    metadata: Option<RpMetadata>,
    policy: Option<Policy>)

  /** What the network answers, and the JOSE library's verdicts. */
  datatype World = World(
    configAt: EntityId -> Option<Raw>,
    statementAt: (EntityId, EntityId) -> Option<Raw>,
    parse: Raw -> Option<Claims>,
    keysParse: string -> bool,
    verifies: (Raw, string) -> bool,
    now: int)

  function FetchConfig(w: World, id: EntityId): Option<Claims> {
    match w.configAt(TrimSlash(id))
    case None => None
    case Some(raw) => w.parse(raw)
  }

  // ---------- Routes in the published hints ----------

  predicate Hinted(hints: seq<EntityId>, h: EntityId) {
    exists i :: 0 <= i < |hints| && TrimSlash(hints[i]) == h
  }

  /** h is another entity and serves a statement about e. */
  predicate Vouches(w: World, h: EntityId, e: EntityId) {
    h != e && w.statementAt(h, e).Some?
  }

  /** e publishes h among its hints, and h vouches for it. */
  predicate Link(w: World, e: EntityId, h: EntityId) {
    FetchConfig(w, e).Some? && Hinted(FetchConfig(w, e).value.hints, h) && Vouches(w, h, e)
  }

  /** Links all the way up to an anchor. */
  ghost predicate Route(w: World, anchors: set<EntityId>, es: seq<EntityId>) {
    && |es| >= 2 && es[|es| - 1] in anchors
    && forall i {:trigger LinkAt(w, es, i)} :: 0 <= i < |es| - 1 ==> LinkAt(w, es, i)
  }

  predicate LinkAt(w: World, es: seq<EntityId>, i: nat) {
    i + 1 < |es| && Link(w, es[i], es[i + 1])
  }

  ghost predicate HasRoute(w: World, anchors: set<EntityId>, e: EntityId) {
    exists es :: Route(w, anchors, es) && es[0] == e
  }

  /** h vouches for e and is an anchor or has a route to one. */
  ghost predicate Leads(w: World, anchors: set<EntityId>, e: EntityId, h: EntityId) {
    Vouches(w, h, e) && (h in anchors || HasRoute(w, anchors, h))
  }

  /** Some hint leads to an anchor. */
  ghost predicate Promising(w: World, anchors: set<EntityId>, e: EntityId, hints: seq<EntityId>) {
    exists i :: 0 <= i < |hints| && Leads(w, anchors, e, TrimSlash(hints[i]))
  }

  /** A route exists exactly where a published hint leads to an anchor. */
  lemma {:induction false} RouteIff(w: World, anchors: set<EntityId>, e: EntityId)
    ensures HasRoute(w, anchors, e) <==>
              FetchConfig(w, e).Some? && Promising(w, anchors, e, FetchConfig(w, e).value.hints)
  {
    if HasRoute(w, anchors, e) {
      var es :| Route(w, anchors, es) && es[0] == e;
      RouteLeads(w, anchors, es);
    }
    if FetchConfig(w, e).Some? && Promising(w, anchors, e, FetchConfig(w, e).value.hints) {
      var hints := FetchConfig(w, e).value.hints;
      var i :| 0 <= i < |hints| && Leads(w, anchors, e, TrimSlash(hints[i]));
      LeadRoutes(w, anchors, e, TrimSlash(hints[i]));
    }
  }

  lemma {:induction false} RouteLeads(w: World, anchors: set<EntityId>, es: seq<EntityId>)
    requires Route(w, anchors, es)
    ensures FetchConfig(w, es[0]).Some? && Promising(w, anchors, es[0], FetchConfig(w, es[0]).value.hints)
  {
    var e, h := es[0], es[1];
    assert LinkAt(w, es, 0);
    if |es| > 2 {
      var rest := es[1..];
      forall i | 0 <= i < |rest| - 1 ensures LinkAt(w, rest, i) {
        assert LinkAt(w, es, i + 1);
      }
      assert Route(w, anchors, rest) && rest[0] == h;
    }
    assert Leads(w, anchors, e, h);
  }

  lemma {:induction false} LeadRoutes(w: World, anchors: set<EntityId>, e: EntityId, h: EntityId)
    requires Link(w, e, h) && Leads(w, anchors, e, h)
    ensures HasRoute(w, anchors, e)
  {
    if h in anchors {
      assert Route(w, anchors, [e, h]);
    } else {
      var es :| Route(w, anchors, es) && es[0] == h;
      var more := [e] + es;
      forall i | 0 <= i < |more| - 1 ensures LinkAt(w, more, i) {
        assert i > 0 ==> LinkAt(w, es, i - 1);
      }
      assert Route(w, anchors, more);
    }
  }

  // ---------- The search ----------

  /** The answer of a search: the chain, if any, and the fetches left. */
  datatype Found = Found(chain: Option<seq<Raw>>, left: nat)

  /** The search over `hints`, with the loop's local state as arguments. */
  function Search(w: World, anchors: set<EntityId>, entity: EntityId, hints: seq<EntityId>,
                  visited: set<EntityId>, chain: seq<Raw>, budget: nat): (f: Found)
    ensures f.left <= budget
    decreases budget, |hints|
  {
    if |hints| == 0 then Found(None, budget)
    else
      var hint := TrimSlash(hints[0]);
      if hint in visited then Search(w, anchors, entity, hints[1..], visited, chain, budget)
      else if budget == 0 then Search(w, anchors, entity, hints[1..], visited + {hint}, chain, 0)
      else
        match w.statementAt(hint, entity)
        case None => Search(w, anchors, entity, hints[1..], visited + {hint}, chain, budget - 1)
        case Some(raw) =>
          if hint in anchors then Found(Some(chain + [raw]), budget - 1)
          else if budget == 1 then Search(w, anchors, entity, hints[1..], visited + {hint}, chain + [raw], 0)
          else
            match FetchConfig(w, hint)
            case None => Search(w, anchors, entity, hints[1..], visited + {hint}, chain + [raw], budget - 2)
            case Some(config) =>
              var up := Search(w, anchors, hint, config.hints, {hint}, [], budget - 2);
              match up.chain
              case Some(rest) => Found(Some(chain + [raw] + rest), up.left)
              case None => Search(w, anchors, entity, hints[1..], visited + {hint}, chain + [raw], up.left)
  }

  /** Whether a search ended by itself rather than for want of fetches. */
  predicate Ended(f: Found) {
    f.chain.Some? || f.left > 0
  }

  /** Unless it was cut short, the search finds a chain if and only if some hint leads to an anchor. */
  ghost predicate Truthful(w: World, anchors: set<EntityId>, entity: EntityId, hints: seq<EntityId>, f: Found) {
    Ended(f) ==> (f.chain.Some? <==> Promising(w, anchors, entity, hints))
  }

  /**
    resolveChain. The visited set belongs to one call, as in the source; recursion is
    bounded by the context alone.
   */
  method ResolveChain(w: World, anchors: set<EntityId>, entity: EntityId, hints: seq<EntityId>, budget: nat)
    returns (f: Found)
    ensures f == Search(w, anchors, entity, hints, {entity}, [], budget)
    ensures Truthful(w, anchors, entity, hints, f)
    decreases budget
  {
    SearchAnswers(w, anchors, entity, hints, {entity}, [], budget);
    var chain, visited := [], {entity};
    var left: nat := budget;
    for i := 0 to |hints|
      invariant left <= budget
      invariant Search(w, anchors, entity, hints, {entity}, [], budget)
             == Search(w, anchors, entity, hints[i..], visited, chain, left)
    {
      assert hints[i..][1..] == hints[i + 1..];
      var hint := TrimSlash(hints[i]);
      if hint in visited {
        continue;
      }
      visited := visited + {hint};
      if left == 0 {
        continue;
      }
      left := left - 1;
      var fetched := w.statementAt(hint, entity);
      if fetched.None? {
        continue;
      }
      chain := chain + [fetched.value];
      if hint in anchors {
        return Found(Some(chain), left);
      }
      if left == 0 {
        continue;
      }
      left := left - 1;
      var config := FetchConfig(w, hint);
      if config.None? {
        continue;
      }
      var up := ResolveChain(w, anchors, hint, config.value.hints, left);
      left := up.left;
      if up.chain.None? {
        continue;
      }
      return Found(Some(chain + up.chain.value), left);
    }
    f := Found(None, left);
  }

  // ---------- The answer does not depend on the budget ----------

  lemma {:induction false} SearchExhausted(w: World, anchors: set<EntityId>, entity: EntityId,
                                           hints: seq<EntityId>, visited: set<EntityId>, chain: seq<Raw>)
    ensures Search(w, anchors, entity, hints, visited, chain, 0) == Found(None, 0)
    decreases |hints|
  {
    if |hints| > 0 {
      var hint := TrimSlash(hints[0]);
      SearchExhausted(w, anchors, entity, hints[1..], if hint in visited then visited else visited + {hint}, chain);
    }
  }

  /** The search is truthful, if those visited before lead nowhere. */
  lemma {:induction false} SearchAnswers(w: World, anchors: set<EntityId>, entity: EntityId, hints: seq<EntityId>,
                                         visited: set<EntityId>, chain: seq<Raw>, budget: nat)
    requires entity in visited && forall v :: v in visited ==> !Leads(w, anchors, entity, v)
    ensures Truthful(w, anchors, entity, hints, Search(w, anchors, entity, hints, visited, chain, budget))
    decreases budget, |hints|
  {
    if |hints| == 0 { return; }
    var hint := TrimSlash(hints[0]);
    var tail := hints[1..];
    PromisingTail(w, anchors, entity, hints);
    if hint in visited {
      SearchAnswers(w, anchors, entity, tail, visited, chain, budget);
      return;
    }
    var seen := visited + {hint};
    SearchExhausted(w, anchors, entity, tail, seen, chain);
    if budget == 0 { return; }
    match w.statementAt(hint, entity) {
      case None => SearchAnswers(w, anchors, entity, tail, seen, chain, budget - 1);
      case Some(raw) =>
        SearchExhausted(w, anchors, entity, tail, seen, chain + [raw]);
        if hint in anchors || budget == 1 { return; }
        RouteIff(w, anchors, hint);
        match FetchConfig(w, hint) {
          case None => SearchAnswers(w, anchors, entity, tail, seen, chain + [raw], budget - 2);
          case Some(config) =>
            var up := Search(w, anchors, hint, config.hints, {hint}, [], budget - 2);
            SearchAnswers(w, anchors, hint, config.hints, {hint}, [], budget - 2);
            if up.chain.None? && up.left > 0 {
              SearchAnswers(w, anchors, entity, tail, seen, chain + [raw], up.left);
            }
        }
    }
  }

  lemma {:induction false} PromisingTail(w: World, anchors: set<EntityId>, e: EntityId, hints: seq<EntityId>)
    requires |hints| > 0
    ensures Promising(w, anchors, e, hints) <==>
              Leads(w, anchors, e, TrimSlash(hints[0])) || Promising(w, anchors, e, hints[1..])
  {
    var tail := hints[1..];
    if Promising(w, anchors, e, tail) {
      var i :| 0 <= i < |tail| && Leads(w, anchors, e, TrimSlash(tail[i]));
      assert hints[i + 1] == tail[i];
    }
    if Promising(w, anchors, e, hints) {
      var i :| 0 <= i < |hints| && Leads(w, anchors, e, TrimSlash(hints[i]));
      assert i > 0 ==> hints[i] == tail[i - 1];
    }
  }

  /** The same answer at the same cost with that many fetches more. */
  ghost predicate StableAt(w: World, anchors: set<EntityId>, entity: EntityId, hints: seq<EntityId>,
                           visited: set<EntityId>, chain: seq<Raw>, budget: nat, extra: nat)
  {
    var f := Search(w, anchors, entity, hints, visited, chain, budget);
    Ended(f) ==> Search(w, anchors, entity, hints, visited, chain, budget + extra) == Found(f.chain, f.left + extra)
  }

  /** The step of the proof below at a hint that is climbed on. */
  lemma {:induction false} StableUp(w: World, anchors: set<EntityId>, entity: EntityId, hints: seq<EntityId>,
                                    visited: set<EntityId>, chain: seq<Raw>, budget: nat, extra: nat,
                                    hint: EntityId, raw: Raw, config: Claims, left: nat)
    requires |hints| > 0 && hint == TrimSlash(hints[0]) && hint !in visited && hint !in anchors && budget >= 2
    requires w.statementAt(hint, entity) == Some(raw) && FetchConfig(w, hint) == Some(config)
    requires left == Search(w, anchors, hint, config.hints, {hint}, [], budget - 2).left
    requires StableAt(w, anchors, hint, config.hints, {hint}, [], budget - 2, extra)
    requires StableAt(w, anchors, entity, hints[1..], visited + {hint}, chain + [raw], left, extra)
    requires Search(w, anchors, entity, hints[1..], visited + {hint}, chain + [raw], 0) == Found(None, 0)
    ensures StableAt(w, anchors, entity, hints, visited, chain, budget, extra)
  {
  }

  /**
    Unless it ran out of fetches, a search gives the same answer at the same cost under
    any larger budget.
   */
  lemma {:induction false} SearchStable(w: World, anchors: set<EntityId>, entity: EntityId, hints: seq<EntityId>,
                                        visited: set<EntityId>, chain: seq<Raw>, budget: nat, extra: nat)
    ensures StableAt(w, anchors, entity, hints, visited, chain, budget, extra)
    decreases budget, |hints|
  {
    if |hints| == 0 { return; }
    var hint := TrimSlash(hints[0]);
    var tail := hints[1..];
    if hint in visited {
      SearchStable(w, anchors, entity, tail, visited, chain, budget, extra);
      return;
    }
    var seen := visited + {hint};
    SearchExhausted(w, anchors, entity, tail, seen, chain);
    if budget == 0 { return; }
    match w.statementAt(hint, entity) {
      case None => SearchStable(w, anchors, entity, tail, seen, chain, budget - 1, extra);
      case Some(raw) =>
        SearchExhausted(w, anchors, entity, tail, seen, chain + [raw]);
        if hint in anchors || budget == 1 { return; }
        match FetchConfig(w, hint) {
          case None => SearchStable(w, anchors, entity, tail, seen, chain + [raw], budget - 2, extra);
          case Some(config) =>
            var up := Search(w, anchors, hint, config.hints, {hint}, [], budget - 2);
            SearchStable(w, anchors, hint, config.hints, {hint}, [], budget - 2, extra);
            SearchStable(w, anchors, entity, tail, seen, chain + [raw], up.left, extra);
            StableUp(w, anchors, entity, hints, visited, chain, budget, extra, hint, raw, config, up.left);
        }
    }
  }

  /** The search from an entity with its own published hints. */
  ghost function SearchFrom(w: World, anchors: set<EntityId>, entity: EntityId, budget: nat): Found
    requires FetchConfig(w, entity).Some?
  {
    Search(w, anchors, entity, FetchConfig(w, entity).value.hints, {entity}, [], budget)
  }

  /** Some budget lets the search from this entity reach an anchor. */
  ghost predicate Alive(w: World, anchors: set<EntityId>, entity: EntityId) {
    && FetchConfig(w, entity).Some?
    && exists b: nat :: SearchFrom(w, anchors, entity, b).chain.Some?
  }

  /** The chain a live entity resolves to. */
  ghost function ChainOf(w: World, anchors: set<EntityId>, entity: EntityId): seq<Raw>
    requires Alive(w, anchors, entity)
  {
    var b: nat :| SearchFrom(w, anchors, entity, b).chain.Some?;
    SearchFrom(w, anchors, entity, b).chain.value
  }

  /** Every successful search from an entity finds the same chain. */
  lemma {:induction false} ChainUnique(w: World, anchors: set<EntityId>, entity: EntityId, b: nat)
    requires FetchConfig(w, entity).Some? && SearchFrom(w, anchors, entity, b).chain.Some?
    ensures Alive(w, anchors, entity)
    ensures SearchFrom(w, anchors, entity, b).chain.value == ChainOf(w, anchors, entity)
  {
    var c: nat :| SearchFrom(w, anchors, entity, c).chain.Some?
               && SearchFrom(w, anchors, entity, c).chain.value == ChainOf(w, anchors, entity);
    var hints := FetchConfig(w, entity).value.hints;
    if b <= c {
      SearchStable(w, anchors, entity, hints, {entity}, [], b, c - b);
    } else {
      SearchStable(w, anchors, entity, hints, {entity}, [], c, b - c);
    }
  }

  /** A search that fails with fetches to spare fails under every budget. */
  lemma {:induction false} DeadEnd(w: World, anchors: set<EntityId>, entity: EntityId, b: nat)
    requires FetchConfig(w, entity).Some?
    requires SearchFrom(w, anchors, entity, b).chain.None? && SearchFrom(w, anchors, entity, b).left > 0
    ensures !Alive(w, anchors, entity)
  {
    var hints := FetchConfig(w, entity).value.hints;
    forall c: nat ensures SearchFrom(w, anchors, entity, c).chain.None? {
      if b <= c {
        SearchStable(w, anchors, entity, hints, {entity}, [], b, c - b);
      } else {
        SearchStable(w, anchors, entity, hints, {entity}, [], c, b - c);
      }
    }
  }

  // ---------- The shape of a chain found ----------

  /** raw is the statement of iss about sub. */
  predicate States(w: World, raw: Raw, iss: EntityId, sub: EntityId) {
    w.statementAt(iss, sub) == Some(raw)
  }

  /** A statement whose issuer is no anchor and can reach none. */
  ghost predicate DeadStatement(w: World, anchors: set<EntityId>, raw: Raw) {
    exists iss, sub :: States(w, raw, iss, sub) && iss !in anchors && !Alive(w, anchors, iss)
  }

  /**
    How a chain was found: at each entity the statements of dead ends tried first, then
    the statement that led upward, either from an anchor or from an entity climbed on.
   */
  datatype Climb =
    | Top(entity: EntityId, dead: seq<Raw>, rung: Raw, anchor: EntityId)
    | Step(entity: EntityId, dead: seq<Raw>, rung: Raw, up: Climb)

  ghost predicate Legal(w: World, anchors: set<EntityId>, c: Climb) {
    && (forall raw :: raw in c.dead ==> DeadStatement(w, anchors, raw))
    && match c
       case Top(entity, _, rung, anchor) =>
         anchor in anchors && anchor != entity && States(w, rung, anchor, entity)
       case Step(entity, _, rung, up) =>
         && up.entity !in anchors && up.entity != entity && States(w, rung, up.entity, entity)
         && Alive(w, anchors, up.entity) && ChainOf(w, anchors, up.entity) == Flatten(up)
         && Legal(w, anchors, up)
  }

  /** The chain resolveChain returns for this climb. */
  function Flatten(c: Climb): seq<Raw> {
    match c
    case Top(_, dead, rung, _) => dead + [rung]
    case Step(_, dead, rung, up) => dead + [rung] + Flatten(up)
  }

  /** The entities climbed through, from the start to the anchor. */
  function Entities(c: Climb): (vs: seq<EntityId>)
    ensures |vs| == |Rungs(c)| + 1
  {
    match c
    case Top(entity, _, _, anchor) => [entity, anchor]
    case Step(entity, _, _, up) => [entity] + Entities(up)
  }

  function Rungs(c: Climb): seq<Raw> {
    match c
    case Top(_, _, rung, _) => [rung]
    case Step(_, _, rung, up) => [rung] + Rungs(up)
  }

  /** Every successful search is a climb; the statements it keeps besides are dead. */
  lemma {:induction false} SearchClimbs(w: World, anchors: set<EntityId>, entity: EntityId, hints: seq<EntityId>,
                                        visited: set<EntityId>, chain: seq<Raw>, budget: nat)
    returns (c: Climb)
    requires Search(w, anchors, entity, hints, visited, chain, budget).chain.Some?
    requires entity in visited
    requires forall raw :: raw in chain ==> DeadStatement(w, anchors, raw)
    ensures Legal(w, anchors, c) && c.entity == entity
    ensures Search(w, anchors, entity, hints, visited, chain, budget).chain == Some(Flatten(c))
    decreases budget, |hints|
  {
    var hint := TrimSlash(hints[0]);
    var tail := hints[1..];
    if hint in visited {
      c := SearchClimbs(w, anchors, entity, tail, visited, chain, budget);
      return;
    }
    var seen := visited + {hint};
    SearchExhausted(w, anchors, entity, tail, seen, chain);
    match w.statementAt(hint, entity) {
      case None => c := SearchClimbs(w, anchors, entity, tail, seen, chain, budget - 1);
      case Some(raw) =>
        assert States(w, raw, hint, entity);
        SearchExhausted(w, anchors, entity, tail, seen, chain + [raw]);
        if hint in anchors {
          c := Top(entity, chain, raw, hint);
          return;
        }
        match FetchConfig(w, hint) {
          case None =>
            c := SearchClimbs(w, anchors, entity, tail, seen, chain + [raw], budget - 2);
          case Some(config) =>
            var up := SearchFrom(w, anchors, hint, budget - 2);
            if up.chain.Some? {
              var above := SearchClimbs(w, anchors, hint, config.hints, {hint}, [], budget - 2);
              ChainUnique(w, anchors, hint, budget - 2);
              c := Step(entity, chain, raw, above);
            } else {
              DeadEnd(w, anchors, hint, budget - 2);
              c := SearchClimbs(w, anchors, entity, tail, seen, chain + [raw], up.left);
            }
        }
    }
  }

  /** Only the last entity of a climb is an anchor; those between resolve to shorter chains. */
  lemma {:induction false} ClimbEntity(w: World, anchors: set<EntityId>, c: Climb, i: nat)
    requires Legal(w, anchors, c) && 0 < i < |Entities(c)|
    ensures Entities(c)[i] in anchors <==> i == |Entities(c)| - 1
    ensures i < |Entities(c)| - 1 ==>
              Alive(w, anchors, Entities(c)[i]) && |ChainOf(w, anchors, Entities(c)[i])| < |Flatten(c)|
    decreases c
  {
    if c.Step? && i > 1 { ClimbEntity(w, anchors, c.up, i - 1); }
  }

  /** A climb from an entity that is no anchor passes no entity twice. */
  lemma {:induction false} ClimbSimple(w: World, anchors: set<EntityId>, c: Climb, i: nat, j: nat)
    requires Legal(w, anchors, c) && c.entity !in anchors
    requires Alive(w, anchors, c.entity) && ChainOf(w, anchors, c.entity) == Flatten(c)
    requires i < j < |Entities(c)|
    ensures Entities(c)[i] != Entities(c)[j]
    decreases c
  {
    if i == 0 {
      ClimbEntity(w, anchors, c, j);
    } else {
      ClimbSimple(w, anchors, c.up, i - 1, j - 1);
    }
  }

  lemma {:induction false} ClimbRung(w: World, anchors: set<EntityId>, c: Climb, i: nat)
    requires Legal(w, anchors, c) && i < |Rungs(c)|
    ensures Rungs(c)[i] in Flatten(c)
    ensures States(w, Rungs(c)[i], Entities(c)[i + 1], Entities(c)[i])
    decreases c
  {
    if c.Step? && i > 0 { ClimbRung(w, anchors, c.up, i - 1); }
  }

  lemma {:induction false} ClimbContents(w: World, anchors: set<EntityId>, c: Climb, raw: Raw)
    requires Legal(w, anchors, c) && raw in Flatten(c)
    ensures DeadStatement(w, anchors, raw) || raw in Rungs(c)
    decreases c
  {
    if c.Step? && raw in Flatten(c.up) { ClimbContents(w, anchors, c.up, raw); }
  }
}
