/**
  When the upward search finds an anchor, told from the published hints alone: there must
  be a route, and the entities tried before it must not lead round in a circle, for the
  visited set of the source does not outlive one call.
 */
module FederationRoutes {
  import opened Options
  import opened Text
  import opened FederationSearch

  /** h vouches for e and is climbed on: no anchor itself, but with hints of its own. */
  predicate Expands(w: World, anchors: set<EntityId>, e: EntityId, h: EntityId) {
    Vouches(w, h, e) && h !in anchors && FetchConfig(w, h).Some?
  }

  /** The hint at i is climbed on, and none before it leads to an anchor. */
  ghost predicate TriesAt(w: World, anchors: set<EntityId>, e: EntityId, hints: seq<EntityId>, h: EntityId, i: nat) {
    && i < |hints| && TrimSlash(hints[i]) == h && Expands(w, anchors, e, h)
    && forall j :: 0 <= j < i ==> !Leads(w, anchors, e, TrimSlash(hints[j]))
  }

  /** The search from e has to climb on h. */
  ghost predicate Tries(w: World, anchors: set<EntityId>, e: EntityId, h: EntityId) {
    FetchConfig(w, e).Some? && exists i: nat :: TriesAt(w, anchors, e, FetchConfig(w, e).value.hints, h, i)
  }

  type Rank = EntityId -> nat

  /** Of the entities of positive rank, each has to climb only on entities of a smaller one. */
  ghost predicate Descends(w: World, anchors: set<EntityId>, rank: Rank) {
    forall e, h {:trigger Tries(w, anchors, e, h)} :: rank(e) > 0 && Tries(w, anchors, e, h) ==> 0 < rank(h) < rank(e)
  }

  /** What has to be climbed on from e never comes round. */
  ghost predicate Unlooped(w: World, anchors: set<EntityId>, e: EntityId) {
    exists rank: Rank :: rank(e) > 0 && Descends(w, anchors, rank)
  }

  // ---------- A search that never comes round ends ----------

  lemma {:induction false} StillEnds(w: World, anchors: set<EntityId>, entity: EntityId, hints: seq<EntityId>,
                                     visited: set<EntityId>, chain: seq<Raw>, budget: nat, extra: nat)
    requires Ended(Search(w, anchors, entity, hints, visited, chain, budget))
    ensures Ended(Search(w, anchors, entity, hints, visited, chain, budget + extra))
  {
    SearchStable(w, anchors, entity, hints, visited, chain, budget, extra);
  }

  /** The budget within which the search from e ends, by the rank of what it climbs on. */
  lemma {:induction false} Ends(w: World, anchors: set<EntityId>, rank: Rank, e: EntityId) returns (b: nat)
    requires FetchConfig(w, e).Some? && rank(e) > 0 && Descends(w, anchors, rank)
    ensures Ended(SearchFrom(w, anchors, e, b))
    decreases rank(e), 1, 0
  {
    b := EndsFrom(w, anchors, rank, e, 0, {e}, []);
  }

  lemma {:induction false} EndsFrom(w: World, anchors: set<EntityId>, rank: Rank, e: EntityId, i: nat,
                                    visited: set<EntityId>, chain: seq<Raw>) returns (b: nat)
    requires FetchConfig(w, e).Some? && rank(e) > 0 && Descends(w, anchors, rank)
    requires var hints := FetchConfig(w, e).value.hints;
             i <= |hints| && forall j :: 0 <= j < i ==> !Leads(w, anchors, e, TrimSlash(hints[j]))
    requires e in visited && forall v :: v in visited ==> !Leads(w, anchors, e, v)
    ensures Ended(Search(w, anchors, e, FetchConfig(w, e).value.hints[i..], visited, chain, b))
    decreases rank(e), 0, |FetchConfig(w, e).value.hints| - i
  {
    var hints := FetchConfig(w, e).value.hints;
    if i == |hints| { return 1; }
    var hint := TrimSlash(hints[i]);
    var seen := visited + {hint};
    assert hints[i..][0] == hints[i] && hints[i..][1..] == hints[i + 1..];
    if hint in visited {
      b := EndsFrom(w, anchors, rank, e, i + 1, visited, chain);
      return;
    }
    match w.statementAt(hint, e) {
      case None =>
        b := EndsFrom(w, anchors, rank, e, i + 1, seen, chain);
        b := b + 1;
      case Some(raw) =>
        RouteIff(w, anchors, hint);
        if hint in anchors { return 1; }
        if FetchConfig(w, hint).None? {
          b := EndsFrom(w, anchors, rank, e, i + 1, seen, chain + [raw]);
          b := b + 2;
          return;
        }
        assert TriesAt(w, anchors, e, hints, hint, i);
        assert Tries(w, anchors, e, hint);
        var up := Ends(w, anchors, rank, hint);
        if SearchFrom(w, anchors, hint, up).chain.Some? { return up + 2; }
        SearchAnswers(w, anchors, hint, FetchConfig(w, hint).value.hints, {hint}, [], up);
        var rest := EndsFrom(w, anchors, rank, e, i + 1, seen, chain + [raw]);
        b := EndsPast(w, anchors, e, hints[i..], visited, chain, hint, raw, up, rest);
    }
  }

  /** Past a hint that was climbed on in vain. */
  lemma {:induction false} EndsPast(w: World, anchors: set<EntityId>, e: EntityId, hints: seq<EntityId>,
                                    visited: set<EntityId>, chain: seq<Raw>, hint: EntityId, raw: Raw, up: nat, rest: nat)
    returns (b: nat)
    requires |hints| > 0 && hint == TrimSlash(hints[0]) && hint !in visited && hint !in anchors
    requires w.statementAt(hint, e) == Some(raw) && FetchConfig(w, hint).Some?
    requires Ended(SearchFrom(w, anchors, hint, up)) && SearchFrom(w, anchors, hint, up).chain.None?
    requires Ended(Search(w, anchors, e, hints[1..], visited + {hint}, chain + [raw], rest))
    ensures Ended(Search(w, anchors, e, hints, visited, chain, b))
  {
    SearchStable(w, anchors, hint, FetchConfig(w, hint).value.hints, {hint}, [], up, rest);
    StillEnds(w, anchors, e, hints[1..], visited + {hint}, chain + [raw], rest, SearchFrom(w, anchors, hint, up).left);
    b := up + rest + 2;
  }

  // ---------- A search that ends never comes round ----------

  /** What a search that ended had to climb on has ended, too, within a smaller budget. */
  lemma {:induction false} TriedEnds(w: World, anchors: set<EntityId>, e: EntityId, hints: seq<EntityId>,
                                     visited: set<EntityId>, chain: seq<Raw>, budget: nat, h: EntityId, i: nat)
    returns (b: nat)
    requires Ended(Search(w, anchors, e, hints, visited, chain, budget))
    requires TriesAt(w, anchors, e, hints, h, i) && h !in visited && e in visited
    ensures b < budget && Ended(SearchFrom(w, anchors, h, b))
    decreases budget, |hints|
  {
    var hint := TrimSlash(hints[0]);
    var tail := hints[1..];
    var seen := visited + {hint};
    SearchExhausted(w, anchors, e, tail, seen, chain);
    if hint == h {
      SearchExhausted(w, anchors, e, tail, seen, chain + [w.statementAt(h, e).value]);
      return budget - 2;
    }
    assert TriesAt(w, anchors, e, tail, h, i - 1) by {
      assert forall j :: 0 <= j < i - 1 ==> tail[j] == hints[j + 1];
    }
    if hint in visited {
      b := TriedEnds(w, anchors, e, tail, visited, chain, budget, h, i - 1);
      return;
    }
    match w.statementAt(hint, e) {
      case None => b := TriedEnds(w, anchors, e, tail, seen, chain, budget - 1, h, i - 1);
      case Some(raw) =>
        SearchExhausted(w, anchors, e, tail, seen, chain + [raw]);
        assert !Leads(w, anchors, e, hint);
        match FetchConfig(w, hint) {
          case None => b := TriedEnds(w, anchors, e, tail, seen, chain + [raw], budget - 2, h, i - 1);
          case Some(config) =>
            RouteIff(w, anchors, hint);
            SearchAnswers(w, anchors, hint, config.hints, {hint}, [], budget - 2);
            var left := SearchFrom(w, anchors, hint, budget - 2).left;
            b := TriedEnds(w, anchors, e, tail, seen, chain + [raw], left, h, i - 1);
        }
    }
  }

  /** Some budget is enough for the search from e to end by itself. */
  ghost predicate Settles(w: World, anchors: set<EntityId>, e: EntityId) {
    FetchConfig(w, e).Some? && exists b: nat :: Ended(SearchFrom(w, anchors, e, b))
  }

  ghost predicate Enough(w: World, anchors: set<EntityId>, e: EntityId, b: nat)
    requires FetchConfig(w, e).Some?
  {
    Ended(SearchFrom(w, anchors, e, b))
  }

  /** The least budget that is enough. */
  ghost function Least(w: World, anchors: set<EntityId>, e: EntityId, b: nat): (n: nat)
    requires FetchConfig(w, e).Some? && Enough(w, anchors, e, b)
    ensures Enough(w, anchors, e, n) && n <= b
    ensures forall m: nat :: Enough(w, anchors, e, m) ==> n <= m
  {
    if exists m: nat :: m < b && Enough(w, anchors, e, m) then
      var m: nat :| m < b && Enough(w, anchors, e, m);
      Least(w, anchors, e, m)
    else b
  }

  /** One more than the least budget that is enough, and 0 if none is. */
  ghost function Cost(w: World, anchors: set<EntityId>, e: EntityId): (n: nat)
    ensures n > 0 <==> Settles(w, anchors, e)
    ensures n > 0 ==> Enough(w, anchors, e, n - 1)
    ensures FetchConfig(w, e).Some? ==> forall b: nat :: Enough(w, anchors, e, b) ==> 0 < n <= b + 1
  {
    if Settles(w, anchors, e) then
      var b: nat :| Ended(SearchFrom(w, anchors, e, b));
      Least(w, anchors, e, b) + 1
    else 0
  }

  lemma {:induction false} CostDescends(w: World, anchors: set<EntityId>)
    ensures Descends(w, anchors, e => Cost(w, anchors, e))
  {
    forall e, h | Cost(w, anchors, e) > 0 && Tries(w, anchors, e, h)
      ensures 0 < Cost(w, anchors, h) < Cost(w, anchors, e)
    {
      var hints := FetchConfig(w, e).value.hints;
      var i: nat :| TriesAt(w, anchors, e, hints, h, i);
      var b := TriedEnds(w, anchors, e, hints, {e}, [], Cost(w, anchors, e) - 1, h, i);
      assert Enough(w, anchors, h, b);
    }
  }

  // ---------- When the search succeeds ----------

  /**
    With enough fetches the search from an entity succeeds if and only if there is a route
    to an anchor and what has to be climbed on before it never comes round.
   */
  lemma {:induction false} FindsIff(w: World, anchors: set<EntityId>, e: EntityId)
    ensures Alive(w, anchors, e) <==> HasRoute(w, anchors, e) && Unlooped(w, anchors, e)
  {
    RouteIff(w, anchors, e);
    if Alive(w, anchors, e) {
      var b: nat :| SearchFrom(w, anchors, e, b).chain.Some?;
      SearchAnswers(w, anchors, e, FetchConfig(w, e).value.hints, {e}, [], b);
      CostDescends(w, anchors);
      var rank: Rank := x => Cost(w, anchors, x);
      assert Enough(w, anchors, e, b);
      assert rank(e) > 0 && Descends(w, anchors, rank);
    }
    if HasRoute(w, anchors, e) && Unlooped(w, anchors, e) {
      var rank: Rank :| rank(e) > 0 && Descends(w, anchors, rank);
      var b := Ends(w, anchors, rank, e);
      SearchAnswers(w, anchors, e, FetchConfig(w, e).value.hints, {e}, [], b);
    }
  }

  /** Every link that can be climbed on goes down in rank. */
  ghost predicate Ranked(w: World, anchors: set<EntityId>, rank: Rank) {
    forall e, h {:trigger Link(w, e, h)} :: Link(w, e, h) && Expands(w, anchors, e, h) ==> rank(h) < rank(e)
  }

  /** On hints without a circle the search succeeds if and only if there is a route. */
  lemma {:induction false} RankedFindsIff(w: World, anchors: set<EntityId>, rank: Rank, e: EntityId)
    requires Ranked(w, anchors, rank)
    ensures Alive(w, anchors, e) <==> HasRoute(w, anchors, e)
  {
    var above: Rank := x => rank(x) + 1;
    forall x, h | above(x) > 0 && Tries(w, anchors, x, h) ensures 0 < above(h) < above(x) {
      var hints := FetchConfig(w, x).value.hints;
      var i: nat :| TriesAt(w, anchors, x, hints, h, i);
      assert Link(w, x, h);
    }
    assert above(e) > 0 && Descends(w, anchors, above);
    FindsIff(w, anchors, e);
  }

  // ---------- A route that is not found ----------

  /** x and y are each other's first hint and vouch for each other, and neither is an anchor. */
  predicate Circle(w: World, anchors: set<EntityId>, x: EntityId, y: EntityId) {
    && HintAt(w, x, 0, y) && HintAt(w, y, 0, x)
    && Vouches(w, y, x) && Vouches(w, x, y) && x !in anchors && y !in anchors
  }

  predicate HintAt(w: World, e: EntityId, i: nat, h: EntityId) {
    var config := FetchConfig(w, e);
    config.Some? && i < |config.value.hints| && TrimSlash(config.value.hints[i]) == h
  }

  /** In a circle every budget is spent without an answer. */
  lemma {:induction false} CircleStarves(w: World, anchors: set<EntityId>, x: EntityId, y: EntityId, budget: nat)
    requires Circle(w, anchors, x, y)
    ensures SearchFrom(w, anchors, x, budget) == Found(None, 0)
    decreases budget
  {
    var hints := FetchConfig(w, x).value.hints;
    SearchExhausted(w, anchors, x, hints, {x}, []);
    SearchExhausted(w, anchors, x, hints[1..], {x, y}, [w.statementAt(y, x).value]);
    assert {x} + {y} == {x, y} && [] + [w.statementAt(y, x).value] == [w.statementAt(y, x).value];
    if budget >= 2 { CircleStarves(w, anchors, y, x, budget - 2); }
  }

  /** Where the hint after a circle is an anchor that vouches, there is a route, and no budget finds it. */
  lemma {:induction false} RouteNotFound(w: World, anchors: set<EntityId>, x: EntityId, y: EntityId, top: EntityId)
    requires Circle(w, anchors, x, y) && HintAt(w, x, 1, top) && Vouches(w, top, x) && top in anchors
    ensures HasRoute(w, anchors, x) && !Alive(w, anchors, x)
  {
    assert LinkAt(w, [x, top], 0);
    assert Route(w, anchors, [x, top]);
    forall b: nat ensures SearchFrom(w, anchors, x, b).chain.None? { CircleStarves(w, anchors, x, y, b); }
  }

  function Hints(hints: seq<EntityId>): Claims {
    Claims("", "", 0, "", hints, None, None)
  }

  /** Two entities that name each other first, one of them an anchor next. */
  const CIRCLE: World := World(
    (id: EntityId) => Some(id),
    (h: EntityId, e: EntityId) => Some(h),
    (raw: Raw) => if raw == "x" then Some(Hints(["y", "top"])) else if raw == "y" then Some(Hints(["x"])) else None,
    (keys: string) => true,
    (raw: Raw, keys: string) => true,
    0)

  lemma {:induction false} CircleFails()
    ensures HasRoute(CIRCLE, {"top"}, "x") && !Alive(CIRCLE, {"top"}, "x")
  {
    assert TrimSlash("x") == "x" && TrimSlash("y") == "y" && TrimSlash("top") == "top";
    RouteNotFound(CIRCLE, {"top"}, "x", "y", "top");
  }

  // ---------- The chain that is found ----------

  /** The statements about e that hints not visited before serve, each once, in order. */
  function Statements(w: World, e: EntityId, hints: seq<EntityId>, visited: set<EntityId>): seq<Raw> {
    if |hints| == 0 then []
    else
      var hint := TrimSlash(hints[0]);
      if hint in visited then Statements(w, e, hints[1..], visited)
      else
        var rest := Statements(w, e, hints[1..], visited + {hint});
        match w.statementAt(hint, e)
        case None => rest
        case Some(raw) => [raw] + rest
  }

  /** What follows the statement of h: nothing above an anchor, else the chain h resolves to. */
  ghost predicate Follows(w: World, anchors: set<EntityId>, h: EntityId, rest: seq<Raw>) {
    if h in anchors then rest == [] else Alive(w, anchors, h) && rest == ChainOf(w, anchors, h)
  }

  /** `chain`, the statements of the hints before i, that of hint i, and the rest. */
  function ChainBy(w: World, e: EntityId, hints: seq<EntityId>, visited: set<EntityId>, chain: seq<Raw>, i: nat, rest: seq<Raw>): seq<Raw>
    requires i < |hints| && w.statementAt(TrimSlash(hints[i]), e).Some?
  {
    chain + Statements(w, e, hints[..i], visited) + [w.statementAt(TrimSlash(hints[i]), e).value] + rest
  }

  /** The first hint's statement counted with the chain so far, or with those that come. */
  lemma {:induction false} ChainByNext(w: World, e: EntityId, hints: seq<EntityId>, visited: set<EntityId>,
                                       chain: seq<Raw>, i: nat, rest: seq<Raw>)
    requires i + 1 < |hints| && w.statementAt(TrimSlash(hints[i + 1]), e).Some?
    ensures var hint, tail := TrimSlash(hints[0]), hints[1..];
            ChainBy(w, e, hints, visited, chain, i + 1, rest) ==
            if hint in visited then ChainBy(w, e, tail, visited, chain, i, rest)
            else ChainBy(w, e, tail, visited + {hint}, Joined(chain, w.statementAt(hint, e)), i, rest)
  {
    assert hints[..i + 1][1..] == hints[1..][..i];
    assert hints[1..][i] == hints[i + 1];
  }

  function Joined(chain: seq<Raw>, statement: Option<Raw>): seq<Raw> {
    match statement
    case None => chain
    case Some(raw) => chain + [raw]
  }

  /**
    The chain found goes by the first hint that leads to an anchor: the statements of the
    hints before it, its own, and what follows that.
   */
  lemma {:induction false} ChainFound(w: World, anchors: set<EntityId>, e: EntityId, hints: seq<EntityId>,
                                      visited: set<EntityId>, chain: seq<Raw>, budget: nat)
    returns (i: nat, rest: seq<Raw>)
    requires Search(w, anchors, e, hints, visited, chain, budget).chain.Some?
    requires e in visited && forall v :: v in visited ==> !Leads(w, anchors, e, v)
    ensures i < |hints| && Leads(w, anchors, e, TrimSlash(hints[i]))
    ensures forall j :: 0 <= j < i ==> !Leads(w, anchors, e, TrimSlash(hints[j]))
    ensures Follows(w, anchors, TrimSlash(hints[i]), rest)
    ensures Search(w, anchors, e, hints, visited, chain, budget).chain ==
              Some(ChainBy(w, e, hints, visited, chain, i, rest))
    decreases budget, |hints|
  {
    var hint, tail := TrimSlash(hints[0]), hints[1..];
    if hint in visited {
      i, rest := ChainFound(w, anchors, e, tail, visited, chain, budget);
      ChainByNext(w, e, hints, visited, chain, i, rest);
      return i + 1, rest;
    }
    if Leads(w, anchors, e, hint) {
      rest := ChainHere(w, anchors, e, hints, visited, chain, budget);
      return 0, rest;
    }
    var left := SearchPast(w, anchors, e, hints, visited, chain, budget);
    i, rest := ChainFound(w, anchors, e, tail, visited + {hint}, Joined(chain, w.statementAt(hint, e)), left);
    ChainByNext(w, e, hints, visited, chain, i, rest);
    i := i + 1;
  }

  /** A hint that leads to an anchor ends the search. */
  lemma {:induction false} ChainHere(w: World, anchors: set<EntityId>, e: EntityId, hints: seq<EntityId>,
                                     visited: set<EntityId>, chain: seq<Raw>, budget: nat) returns (rest: seq<Raw>)
    requires |hints| > 0 && TrimSlash(hints[0]) !in visited && Leads(w, anchors, e, TrimSlash(hints[0]))
    requires Search(w, anchors, e, hints, visited, chain, budget).chain.Some?
    ensures Follows(w, anchors, TrimSlash(hints[0]), rest)
    ensures Search(w, anchors, e, hints, visited, chain, budget).chain ==
              Some(ChainBy(w, e, hints, visited, chain, 0, rest))
  {
    var hint, tail := TrimSlash(hints[0]), hints[1..];
    var raw := w.statementAt(hint, e).value;
    SearchExhausted(w, anchors, e, tail, visited + {hint}, chain);
    SearchExhausted(w, anchors, e, tail, visited + {hint}, chain + [raw]);
    assert chain + Statements(w, e, hints[..0], visited) == chain;
    if hint in anchors {
      assert chain + [raw] + [] == chain + [raw];
      return [];
    }
    RouteIff(w, anchors, hint);
    SearchAnswers(w, anchors, hint, FetchConfig(w, hint).value.hints, {hint}, [], budget - 2);
    ChainUnique(w, anchors, hint, budget - 2);
    rest := SearchFrom(w, anchors, hint, budget - 2).chain.value;
  }

  /** Past a hint that leads nowhere. */
  lemma {:induction false} SearchPast(w: World, anchors: set<EntityId>, e: EntityId, hints: seq<EntityId>,
                                      visited: set<EntityId>, chain: seq<Raw>, budget: nat) returns (left: nat)
    requires |hints| > 0 && TrimSlash(hints[0]) !in visited && !Leads(w, anchors, e, TrimSlash(hints[0]))
    requires e in visited && Search(w, anchors, e, hints, visited, chain, budget).chain.Some?
    ensures left <= budget
    ensures var hint := TrimSlash(hints[0]);
            Search(w, anchors, e, hints, visited, chain, budget) ==
            Search(w, anchors, e, hints[1..], visited + {hint}, Joined(chain, w.statementAt(hint, e)), left)
  {
    var hint, tail := TrimSlash(hints[0]), hints[1..];
    SearchExhausted(w, anchors, e, tail, visited + {hint}, chain);
    match w.statementAt(hint, e) {
      case None => left := budget - 1;
      case Some(raw) =>
        SearchExhausted(w, anchors, e, tail, visited + {hint}, chain + [raw]);
        RouteIff(w, anchors, hint);
        if FetchConfig(w, hint).None? { return budget - 2; }
        SearchAnswers(w, anchors, hint, FetchConfig(w, hint).value.hints, {hint}, [], budget - 2);
        left := SearchFrom(w, anchors, hint, budget - 2).left;
    }
  }
}
