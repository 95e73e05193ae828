/**
  Validation of a trust chain by a walk from an anchor down to the relying party, and
  automatic registration, which searches for a chain and then validates it.
 */
module FederationValidation {
  import opened Options
  import opened FederationSearch
  import opened FederationPolicy
  import opened FederationWalks

  datatype ChainError =
    | EmptyChain
    | UnparsableStatement
    | NoAnchorStatement
    | NoStatementFrom(id: EntityId)
    | NoConfig(id: EntityId)
    | ContextEnded(id: EntityId)
    | BadKeys(id: EntityId)
    | BadSignature(iss: EntityId, sub: EntityId)
    | StatementExpired(iss: EntityId, sub: EntityId)

  datatype Result<+T, +E> = Success(value: T) | Failure(error: E)

  type Key = (EntityId, EntityId)

  predicate Expired(w: World, exp: int) {
    exp > 0 && w.now > exp
  }

  /** A parsed statement that verifies under its issuer's published keys and is current. */
  predicate Trusted(w: World, raw: Raw) {
    && w.parse(raw).Some?
    && var c := w.parse(raw).value;
       var config := FetchConfig(w, c.iss);
       && config.Some?
       && w.keysParse(config.value.jwks)
       && w.verifies(raw, config.value.jwks)
       && (c.exp <= 0 || w.now <= c.exp)
  }

  /** A downward path of trusted statements of the chain from start to end. */
  ghost predicate Path(w: World, chain: seq<Raw>, start: EntityId, path: seq<Raw>, end: EntityId)
    decreases |path|
  {
    if |path| == 0 then start == end
    else
      var raw := path[|path| - 1];
      && raw in chain && Trusted(w, raw)
      && var c := w.parse(raw).value;
         c.sub == end && c.iss != end && Path(w, chain, start, path[..|path| - 1], c.iss)
  }

  /** The policies carried by the statements of a path, in the path's order. */
  function PoliciesOf(w: World, path: seq<Raw>): seq<Policy>
    decreases |path|
  {
    if |path| == 0 then []
    else
      PoliciesOf(w, path[..|path| - 1]) +
      (match w.parse(path[|path| - 1])
       case Some(c) => (match c.policy case Some(p) => [p] case None => [])
       case None => [])
  }

  /** An anchor that issued a statement of the chain, and a path from it to the relying party. */
  ghost predicate AnchoredPath(w: World, anchors: set<EntityId>, chain: seq<Raw>, rp: EntityId,
                               anchor: EntityId, path: seq<Raw>)
  {
    && anchor in anchors
    && (exists raw :: raw in chain && w.parse(raw).Some? && w.parse(raw).value.iss == anchor)
    && Path(w, chain, anchor, path, rp)
    && (path == [] <==> anchor == rp)
  }

  /**
    A chain that leaves the walk no choice: vs leads from the relying party up to the only
    anchor issuing anything, and rungs[i] is all that vs[i + 1] states.
   */
  ghost predicate Ladder(w: World, anchors: set<EntityId>, rp: EntityId, chain: seq<Raw>,
                         vs: seq<EntityId>, rungs: seq<Raw>)
  {
    && |vs| == |rungs| + 1 >= 2
    && vs[0] == rp
    && vs[|rungs|] in anchors && vs[|rungs|] != ""
    && (forall i, j :: 0 <= i < j < |vs| ==> vs[i] != vs[j])
    && (forall raw :: raw in chain ==> w.parse(raw).Some?)
    && (forall raw :: raw in chain && w.parse(raw).value.iss in anchors ==> w.parse(raw).value.iss == vs[|rungs|])
    && (forall i :: 0 <= i < |rungs| ==>
          && rungs[i] in chain && Trusted(w, rungs[i])
          && w.parse(rungs[i]).value.iss == vs[i + 1]
          && w.parse(rungs[i]).value.sub == vs[i])
    && (forall raw, i :: raw in chain && 0 <= i < |rungs| && w.parse(raw).value.iss == vs[i + 1] ==> raw == rungs[i])
  }

  function Reversed(s: seq<Raw>): seq<Raw> {
    seq(|s|, i requires 0 <= i < |s| => s[|s| - 1 - i])
  }

  lemma {:induction false} ReversedNext(s: seq<Raw>, n: nat)
    requires n < |s|
    ensures Reversed(s)[..n + 1] == Reversed(s)[..n] + [s[|s| - 1 - n]]
  {
  }

  /** The maps of statements keyed by issuer and subject. */
  ghost predicate Indexes(w: World, chain: seq<Raw>, stmts: map<Key, Claims>, raws: map<Key, Raw>) {
    && stmts.Keys == raws.Keys
    && (forall k :: k in stmts ==>
          raws[k] in chain && w.parse(raws[k]) == Some(stmts[k]) && k == (stmts[k].iss, stmts[k].sub))
    && (forall raw :: raw in chain ==>
          w.parse(raw).Some? && (w.parse(raw).value.iss, w.parse(raw).value.sub) in stmts)
  }

  /** The chain's statements by issuer and subject, the last one of each pair. */
  function RawsOf(w: World, chain: seq<Raw>): map<Key, Raw> {
    if |chain| == 0 then map[]
    else
      var raw := chain[|chain| - 1];
      var before := RawsOf(w, chain[..|chain| - 1]);
      match w.parse(raw)
      case Some(c) => before[(c.iss, c.sub) := raw]
      case None => before
  }

  /** Who may follow whom in the walk: trusted statements about others. */
  ghost function Followed(w: World, chain: seq<Raw>): set<Edge> {
    set k | k in RawsOf(w, chain) && k.0 != k.1 && Trusted(w, RawsOf(w, chain)[k])
  }

  method IndexStatements(w: World, chain: seq<Raw>)
    returns (ok: bool, stmts: map<Key, Claims>, raws: map<Key, Raw>)
    ensures ok <==> forall raw :: raw in chain ==> w.parse(raw).Some?
    ensures ok ==> Indexes(w, chain, stmts, raws) && raws == RawsOf(w, chain)
  {
    stmts, raws := map[], map[];
    for i := 0 to |chain|
      invariant Indexes(w, chain[..i], stmts, raws) && raws == RawsOf(w, chain[..i])
    {
      var claims := w.parse(chain[i]);
      if claims.None? {
        assert chain[i] in chain;
        return false, stmts, raws;
      }
      IndexNext(w, chain, i, stmts, raws);
      var k := (claims.value.iss, claims.value.sub);
      stmts := stmts[k := claims.value];
      raws := raws[k := chain[i]];
    }
    assert chain[..|chain|] == chain;
    ok := true;
  }

  lemma {:induction false} IndexNext(w: World, chain: seq<Raw>, i: nat, stmts: map<Key, Claims>, raws: map<Key, Raw>)
    requires i < |chain| && w.parse(chain[i]).Some?
    requires Indexes(w, chain[..i], stmts, raws) && raws == RawsOf(w, chain[..i])
    ensures var c := w.parse(chain[i]).value;
            && Indexes(w, chain[..i + 1], stmts[(c.iss, c.sub) := c], raws[(c.iss, c.sub) := chain[i]])
            && RawsOf(w, chain[..i + 1]) == raws[(c.iss, c.sub) := chain[i]]
  {
    var next := chain[..i + 1];
    assert next == chain[..i] + [chain[i]] && next[..i] == chain[..i];
  }

  /** What a ladder means for the walk: each entity but the lowest has one way down. */
  ghost predicate Forced(w: World, rp: EntityId, stmts: map<Key, Claims>, raws: map<Key, Raw>,
                         vs: seq<EntityId>, rungs: seq<Raw>)
    requires stmts.Keys == raws.Keys
  {
    && |vs| == |rungs| + 1
    && vs[0] == rp
    && forall i :: 0 < i < |vs| ==> OneWayDown(w, rp, stmts, raws, vs[i], vs[i - 1], rungs[i - 1])
  }

  ghost predicate OneWayDown(w: World, rp: EntityId, stmts: map<Key, Claims>, raws: map<Key, Raw>,
                             upper: EntityId, lower: EntityId, rung: Raw)
    requires stmts.Keys == raws.Keys
  {
    && upper != rp && upper != lower
    && (upper, lower) in stmts && raws[(upper, lower)] == rung && Trusted(w, rung)
    && forall k :: k in stmts && k.0 == upper ==> k.1 == lower
  }

  lemma {:induction false} LadderForced(w: World, anchors: set<EntityId>, rp: EntityId, chain: seq<Raw>,
                     vs: seq<EntityId>, rungs: seq<Raw>, stmts: map<Key, Claims>, raws: map<Key, Raw>)
    requires Ladder(w, anchors, rp, chain, vs, rungs) && Indexes(w, chain, stmts, raws)
    ensures Forced(w, rp, stmts, raws, vs, rungs)
    ensures exists k :: k in stmts && k.0 in anchors
    ensures forall k :: k in stmts && k.0 in anchors ==> k.0 == vs[|rungs|]
  {
    forall i | 0 < i < |vs|
      ensures OneWayDown(w, rp, stmts, raws, vs[i], vs[i - 1], rungs[i - 1])
      ensures (vs[i], vs[i - 1]) in stmts
    {
      LadderRung(w, anchors, rp, chain, vs, rungs, stmts, raws, i - 1);
    }
    forall k | k in stmts && k.0 in anchors ensures k.0 == vs[|rungs|] {
      assert raws[k] in chain;
    }
    assert (vs[|rungs|], vs[|rungs| - 1]) in stmts;
  }

  lemma {:induction false} LadderRung(w: World, anchors: set<EntityId>, rp: EntityId, chain: seq<Raw>, vs: seq<EntityId>,
                   rungs: seq<Raw>, stmts: map<Key, Claims>, raws: map<Key, Raw>, i: nat)
    requires Ladder(w, anchors, rp, chain, vs, rungs) && Indexes(w, chain, stmts, raws) && i < |rungs|
    ensures OneWayDown(w, rp, stmts, raws, vs[i + 1], vs[i], rungs[i])
  {
    var rung := rungs[i];
    assert (w.parse(rung).value.iss, w.parse(rung).value.sub) in stmts;
    forall k | k in stmts && k.0 == vs[i + 1] ensures raws[k] == rung && k.1 == vs[i] {
      assert raws[k] in chain && w.parse(raws[k]).value.iss == vs[i + 1];
    }
  }

  /** The entity states something about another, and whatever it states is trusted. */
  ghost predicate Compelled(w: World, raws: map<Key, Raw>, v: EntityId) {
    && (exists k :: k in raws && k.0 == v && k.1 != v)
    && (forall k :: k in raws && k.0 == v && k.1 != v ==> Trusted(w, raws[k]))
  }

  /** Entities from which every statement that may be followed leads back among them. */
  ghost predicate Trap(w: World, rp: EntityId, raws: map<Key, Raw>, trap: set<EntityId>) {
    && rp !in trap
    && (forall v {:trigger Compelled(w, raws, v)} :: v in trap ==> Compelled(w, raws, v))
    && (forall k :: k in raws && k.0 in trap && k.0 != k.1 ==> k.1 in trap)
  }

  /**
    One round of validateChain's loop: some statement of the current entity about another,
    whichever the map iteration yields first, checked against the entity's own keys.
   */
  method StepDown(w: World, rp: EntityId, stmts: map<Key, Claims>, raws: map<Key, Raw>, current: EntityId, left: nat,
                  ghost chain: seq<Raw>, ghost lower: EntityId, ghost rung: Raw, ghost trap: set<EntityId>)
    returns (r: Result<Key, ChainError>)
    requires Indexes(w, chain, stmts, raws) && raws == RawsOf(w, chain)
    ensures r.Success? ==>
              && r.value in stmts && r.value.0 == current && r.value.1 != current && left > 0
              && raws[r.value] in chain && Trusted(w, raws[r.value])
              && w.parse(raws[r.value]) == Some(stmts[r.value])
              && r.value == (stmts[r.value].iss, stmts[r.value].sub) && r.value in Followed(w, chain)
    ensures OneWayDown(w, rp, stmts, raws, current, lower, rung) && left > 0 ==> r == Success((current, lower))
    ensures r.Failure? && r.error.ContextEnded? ==> left == 0
    ensures Trap(w, rp, raws, trap) && current in trap ==>
              if left > 0 then r.Success? && r.value.1 in trap else r == Failure(ContextEnded(current))
  {
    assert OneWayDown(w, rp, stmts, raws, current, lower, rung) ==> (current, lower) in stmts;
    assert Trap(w, rp, raws, trap) && current in trap ==> Compelled(w, raws, current);
    if !exists k :: k in stmts && k.0 == current && k.1 != current {
      return Failure(NoStatementFrom(current));
    }
    var k :| k in stmts && k.0 == current && k.1 != current;
    if left == 0 {
      return Failure(ContextEnded(current));
    }
    var config := FetchConfig(w, current);
    if config.None? {
      return Failure(NoConfig(current));
    }
    if !w.keysParse(config.value.jwks) {
      return Failure(BadKeys(current));
    }
    if !w.verifies(raws[k], config.value.jwks) {
      return Failure(BadSignature(current, k.1));
    }
    if Expired(w, stmts[k].exp) {
      return Failure(StatementExpired(current, k.1));
    }
    r := Success(k);
  }

  /** The walk so far: a trusted path from the anchor, and the entities it went through. */
  ghost predicate Underway(w: World, rp: EntityId, chain: seq<Raw>, anchor: EntityId, path: seq<Raw>,
                           walk: seq<EntityId>, current: EntityId)
  {
    && Path(w, chain, anchor, path, current)
    && (path == [] ==> current == anchor) && (path != [] ==> anchor != rp)
    && Walk(Followed(w, chain), rp, walk)
    && |walk| == |path| + 1 && walk[0] == anchor && walk[|path|] == current
  }

  lemma {:induction false} MoveOn(w: World, rp: EntityId, chain: seq<Raw>, anchor: EntityId, path: seq<Raw>,
                                  walk: seq<EntityId>, current: EntityId, raw: Raw)
    requires Underway(w, rp, chain, anchor, path, walk, current) && current != rp
    requires raw in chain && Trusted(w, raw)
    requires w.parse(raw).value.iss == current && w.parse(raw).value.sub != current
    requires (current, w.parse(raw).value.sub) in Followed(w, chain)
    ensures Underway(w, rp, chain, anchor, path + [raw], walk + [w.parse(raw).value.sub], w.parse(raw).value.sub)
    ensures var p := w.parse(raw).value.policy;
            PoliciesOf(w, path + [raw]) == PoliciesOf(w, path) + (if p.Some? then [p.value] else [])
  {
    assert (path + [raw])[..|path|] == path;
  }

  /** The walk has followed the ladder from its top. */
  ghost predicate OnLadder(vs: seq<EntityId>, rungs: seq<Raw>, path: seq<Raw>, current: EntityId) {
    && |vs| == |rungs| + 1 && |path| <= |rungs|
    && current == vs[|rungs| - |path|] && path == Reversed(rungs)[..|path|]
  }

  lemma {:induction false} RungDown(w: World, rp: EntityId, stmts: map<Key, Claims>, raws: map<Key, Raw>,
                                    vs: seq<EntityId>, rungs: seq<Raw>, path: seq<Raw>, current: EntityId)
    requires stmts.Keys == raws.Keys && Forced(w, rp, stmts, raws, vs, rungs)
    requires OnLadder(vs, rungs, path, current) && current != rp
    ensures |path| < |rungs|
    ensures var down := |rungs| - |path|;
            && OneWayDown(w, rp, stmts, raws, current, vs[down - 1], rungs[down - 1])
            && OnLadder(vs, rungs, path + [rungs[down - 1]], vs[down - 1])
  {
    ReversedNext(rungs, |path|);
  }

  lemma {:induction false} LadderDone(w: World, rp: EntityId, stmts: map<Key, Claims>, raws: map<Key, Raw>,
                                      vs: seq<EntityId>, rungs: seq<Raw>, path: seq<Raw>)
    requires stmts.Keys == raws.Keys && Forced(w, rp, stmts, raws, vs, rungs) && OnLadder(vs, rungs, path, rp)
    ensures path == Reversed(rungs)
  {
    OnlyLowestIsGoal(w, rp, stmts, raws, vs, rungs);
    assert vs[|rungs| - |path|] == rp;
  }

  lemma {:induction false} OnlyLowestIsGoal(w: World, rp: EntityId, stmts: map<Key, Claims>, raws: map<Key, Raw>,
                                            vs: seq<EntityId>, rungs: seq<Raw>)
    requires stmts.Keys == raws.Keys && Forced(w, rp, stmts, raws, vs, rungs)
    ensures forall i :: 0 < i < |vs| ==> vs[i] != rp
  {
    forall i | 0 < i < |vs| ensures vs[i] != rp {
      assert OneWayDown(w, rp, stmts, raws, vs[i], vs[i - 1], rungs[i - 1]);
    }
  }

  /** The loop of validateChain. */
  method WalkDown(w: World, rp: EntityId, stmts: map<Key, Claims>, raws: map<Key, Raw>, anchor: EntityId, budget: nat,
                  ghost chain: seq<Raw>, ghost vs: seq<EntityId>, ghost rungs: seq<Raw>, ghost trap: set<EntityId>)
    returns (r: Result<seq<Policy>, ChainError>, ghost path: seq<Raw>, ghost walk: seq<EntityId>)
    requires Indexes(w, chain, stmts, raws) && raws == RawsOf(w, chain)
    ensures Walk(Followed(w, chain), rp, walk) && walk[0] == anchor
    ensures r.Failure? && r.error.ContextEnded? ==> |walk| - 1 == budget
    ensures Trap(w, rp, raws, trap) && anchor in trap ==> r.Failure? && r.error.ContextEnded?
    ensures r.Success? ==>
              Path(w, chain, anchor, path, rp) && (path == [] <==> anchor == rp) && r.value == PoliciesOf(w, path)
    ensures Forced(w, rp, stmts, raws, vs, rungs) && anchor == vs[|rungs|] && |rungs| <= budget ==>
              r == Success(PoliciesOf(w, Reversed(rungs)))
  {
    ghost var forced := Forced(w, rp, stmts, raws, vs, rungs) && anchor == vs[|rungs|] && |rungs| <= budget;
    var policies := [];
    var current := anchor;
    var left: nat := budget;
    path, walk := [], [anchor];
    while current != rp
      invariant Underway(w, rp, chain, anchor, path, walk, current)
      invariant policies == PoliciesOf(w, path)
      invariant left + |path| == budget
      invariant forced ==> OnLadder(vs, rungs, path, current)
      invariant Trap(w, rp, raws, trap) && anchor in trap ==> current in trap
      decreases left
    {
      ghost var down := |rungs| - |path|;
      ghost var lower, rung := "", "";
      if forced {
        RungDown(w, rp, stmts, raws, vs, rungs, path, current);
        lower, rung := vs[down - 1], rungs[down - 1];
      }
      var step := StepDown(w, rp, stmts, raws, current, left, chain, lower, rung, trap);
      if step.Failure? {
        return Failure(step.error), path, walk;
      }
      left := left - 1;
      var k := step.value;
      MoveOn(w, rp, chain, anchor, path, walk, current, raws[k]);
      if stmts[k].policy.Some? {
        policies := policies + [stmts[k].policy.value];
      }
      path, walk := path + [raws[k]], walk + [k.1];
      current := k.1;
    }
    if forced {
      LadderDone(w, rp, stmts, raws, vs, rungs, path);
    }
    r := Success(policies);
  }

  /**
    validateChain. The contract holds for every map iteration order: what is accepted
    comes from an anchored path of trusted statements, and a ladder is always accepted,
    with its policies, when the context allows one fetch a rung. On a chain without loops the
    context has no say once it allows more fetches than there are statements; on a chain that
    leads every anchor into a trap nothing but the context ends the walk.
   */
  method ValidateChain(w: World, anchors: set<EntityId>, rp: EntityId, chain: seq<Raw>, budget: nat,
                       ghost vs: seq<EntityId>, ghost rungs: seq<Raw>, ghost trap: set<EntityId>)
    returns (r: Result<seq<Policy>, ChainError>)
    ensures r.Success? ==> exists anchor, path ::
              AnchoredPath(w, anchors, chain, rp, anchor, path) && r.value == PoliciesOf(w, path)
    ensures Ladder(w, anchors, rp, chain, vs, rungs) && |rungs| <= budget ==>
              r == Success(PoliciesOf(w, Reversed(rungs)))
    ensures |chain| < budget && LoopFree(w, anchors, rp, chain) ==> !(r.Failure? && r.error.ContextEnded?)
    ensures Trapped(w, anchors, rp, chain, trap) ==> r.Failure? && r.error.ContextEnded?
  {
    if |chain| == 0 {
      return Failure(EmptyChain);
    }
    var ok, stmts, raws := IndexStatements(w, chain);
    if !ok {
      return Failure(UnparsableStatement);
    }
    if Ladder(w, anchors, rp, chain, vs, rungs) {
      LadderForced(w, anchors, rp, chain, vs, rungs, stmts, raws);
    }
    if Trapped(w, anchors, rp, chain, trap) {
      var a :| Issues(w, anchors, chain, a);
      assert exists k :: k in stmts && k.0 in anchors;
    }
    var anchor := "";
    if exists k :: k in stmts && k.0 in anchors {
      var k :| k in stmts && k.0 in anchors;
      anchor := k.0;
      assert raws[k] in chain && w.parse(raws[k]).value.iss == anchor;
    }
    if anchor == "" {
      return Failure(NoAnchorStatement);
    }
    ghost var path, walk;
    r, path, walk := WalkDown(w, rp, stmts, raws, anchor, budget, chain, vs, rungs, trap);
    if r.Success? {
      assert AnchoredPath(w, anchors, chain, rp, anchor, path);
    }
    if LoopFree(w, anchors, rp, chain) {
      assert Issues(w, anchors, chain, anchor);
      LoopFreeEnds(Followed(w, chain), rp, anchor);
      FollowedFit(w, chain);
    }
  }

  /** The walk may start from this anchor: it issued a statement of a chain that parses. */
  ghost predicate Issues(w: World, anchors: set<EntityId>, chain: seq<Raw>, anchor: EntityId) {
    && (forall raw :: raw in chain ==> w.parse(raw).Some?)
    && anchor in anchors && anchor != "" && exists k :: k in RawsOf(w, chain) && k.0 == anchor
  }

  /** No anchor leads into a loop of statements that the walk may follow. */
  ghost predicate LoopFree(w: World, anchors: set<EntityId>, rp: EntityId, chain: seq<Raw>) {
    forall a :: Issues(w, anchors, chain, a) ==> !Loops(Followed(w, chain), rp, a)
  }

  /** Every walk, from whichever anchor and whatever is followed first, takes at most n statements. */
  ghost predicate AllEndWithin(w: World, anchors: set<EntityId>, rp: EntityId, chain: seq<Raw>, n: nat) {
    forall a :: Issues(w, anchors, chain, a) ==> EndsWithin(Followed(w, chain), rp, a, n)
  }

  /**
    Validation of a chain ends by itself, for every map iteration order, if and only if it
    does not parse or no anchor leads into a loop; then each statement is followed at most once.
   */
  lemma {:induction false} TerminatesIff(w: World, anchors: set<EntityId>, rp: EntityId, chain: seq<Raw>)
    ensures (exists n :: AllEndWithin(w, anchors, rp, chain, n)) <==> LoopFree(w, anchors, rp, chain)
    ensures LoopFree(w, anchors, rp, chain) ==> AllEndWithin(w, anchors, rp, chain, |chain|)
  {
    if LoopFree(w, anchors, rp, chain) {
      FollowedFit(w, chain);
      forall a | Issues(w, anchors, chain, a) ensures EndsWithin(Followed(w, chain), rp, a, |chain|) {
        LoopFreeEnds(Followed(w, chain), rp, a);
      }
      assert AllEndWithin(w, anchors, rp, chain, |chain|);
    } else {
      var a :| Issues(w, anchors, chain, a) && Loops(Followed(w, chain), rp, a);
      EndsIffLoopFree(Followed(w, chain), rp, a);
    }
  }

  /** The same statements about others. */
  ghost predicate SameAboutOthers(a: map<Key, Raw>, b: map<Key, Raw>) {
    forall k: Key {:trigger k in a} {:trigger k in b} :: k.0 != k.1 ==> (k in a <==> k in b) && (k in a ==> a[k] == b[k])
  }

  lemma {:induction false} SelfStatementAside(w: World, a: seq<Raw>, raw: Raw, b: seq<Raw>)
    requires w.parse(raw).Some? && w.parse(raw).value.iss == w.parse(raw).value.sub
    ensures SameAboutOthers(RawsOf(w, a + [raw] + b), RawsOf(w, a + b))
    decreases |b|
  {
    if |b| == 0 {
      assert a + [raw] + b == a + [raw] && a + b == a && (a + [raw])[..|a|] == a;
    } else {
      var n := |b| - 1;
      SelfStatementAside(w, a, raw, b[..n]);
      assert (a + [raw] + b)[..|a| + 1 + n] == a + [raw] + b[..n];
      assert (a + b)[..|a| + n] == a + b[..n];
    }
  }

  /**
    An entity's statement about itself, such as an anchor's own configuration, adds nothing
    that is followed, wherever in the chain it stands.
   */
  lemma {:induction false} SelfStatementIgnored(w: World, a: seq<Raw>, raw: Raw, b: seq<Raw>)
    requires w.parse(raw).Some? && w.parse(raw).value.iss == w.parse(raw).value.sub
    ensures Followed(w, a + [raw] + b) == Followed(w, a + b)
  {
    SelfStatementAside(w, a, raw, b);
  }

  lemma {:induction false} FollowedFit(w: World, chain: seq<Raw>)
    ensures |Followed(w, chain)| <= |chain|
  {
    KeysFit(w, chain);
    SubsetFits(Followed(w, chain), RawsOf(w, chain).Keys);
  }

  lemma {:induction false} SubsetFits<T>(a: set<T>, b: set<T>)
    requires a <= b
    ensures |a| <= |b|
  {
    assert b == a + (b - a);
  }

  lemma {:induction false} KeysFit(w: World, chain: seq<Raw>)
    ensures |RawsOf(w, chain).Keys| <= |chain|
    decreases |chain|
  {
    if |chain| > 0 {
      var raw, before := chain[|chain| - 1], RawsOf(w, chain[..|chain| - 1]);
      KeysFit(w, chain[..|chain| - 1]);
      if w.parse(raw).Some? {
        var k := (w.parse(raw).value.iss, w.parse(raw).value.sub);
        assert RawsOf(w, chain).Keys == before.Keys + {k};
      }
    }
  }

  /** A chain whose anchors all lead into a trap. */
  ghost predicate Trapped(w: World, anchors: set<EntityId>, rp: EntityId, chain: seq<Raw>, trap: set<EntityId>) {
    && (exists a :: Issues(w, anchors, chain, a))
    && (forall k :: k in RawsOf(w, chain) && k.0 in anchors ==> k.0 in trap && k.0 != "")
    && Trap(w, rp, RawsOf(w, chain), trap)
  }

  function Statement(iss: EntityId, sub: EntityId): Claims {
    Claims(iss, sub, 0, "", [], None, None)
  }

  /** A world in which everything verifies, x is a's statement about b, and y is b's about a. */
  function Circular(a: EntityId, b: EntityId, x: Raw, y: Raw): World {
    World((id: EntityId) => Some(id),
          (iss: EntityId, sub: EntityId) => None,
          (raw: Raw) => Some(if raw == x then Statement(a, b) else if raw == y then Statement(b, a) else Statement(raw, raw)),
          (keys: string) => true, (raw: Raw, keys: string) => true, 0)
  }

  /** Two trusted statements, of a about b and of b about a. */
  ghost predicate VouchForEachOther(w: World, a: EntityId, b: EntityId, x: Raw, y: Raw) {
    && w.parse(x) == Some(Statement(a, b)) && w.parse(y) == Some(Statement(b, a))
    && Trusted(w, x) && Trusted(w, y)
  }

  lemma {:induction false} TwoRaws(w: World, a: EntityId, b: EntityId, x: Raw, y: Raw)
    requires VouchForEachOther(w, a, b, x, y)
    ensures RawsOf(w, [x, y]) == map[(a, b) := x][(b, a) := y]
  {
    assert [x, y][..1] == [x] && [x][..0] == [];
    assert RawsOf(w, [x]) == map[(a, b) := x];
  }

  lemma {:induction false} TwoTrap(w: World, a: EntityId, b: EntityId, x: Raw, y: Raw, rp: EntityId, raws: map<Key, Raw>)
    requires VouchForEachOther(w, a, b, x, y) && a != b && a != rp && b != rp
    requires raws == map[(a, b) := x][(b, a) := y]
    ensures Trap(w, rp, raws, {a, b})
  {
    assert (a, b) in raws && (b, a) in raws;
    assert Compelled(w, raws, a) && Compelled(w, raws, b);
  }

  lemma {:induction false} TwoLoop(w: World, a: EntityId, b: EntityId, x: Raw, y: Raw, rp: EntityId)
    requires VouchForEachOther(w, a, b, x, y) && a != b && a != rp && b != rp
    ensures Loops(Followed(w, [x, y]), rp, a)
  {
    TwoRaws(w, a, b, x, y);
    var vs := [a, b, a];
    assert (a, b) in Followed(w, [x, y]) && (b, a) in Followed(w, [x, y]);
    assert Walk(Followed(w, [x, y]), rp, vs) && vs[0] == vs[2] && !Distinct(vs);
  }

  lemma {:induction false} CircularTraps(a: EntityId, b: EntityId, x: Raw, y: Raw, rp: EntityId)
    requires a != b && a != rp && b != rp && x != y && a != ""
    ensures Trapped(Circular(a, b, x, y), {a}, rp, [x, y], {a, b})
    ensures !LoopFree(Circular(a, b, x, y), {a}, rp, [x, y])
  {
    var w, chain := Circular(a, b, x, y), [x, y];
    assert VouchForEachOther(w, a, b, x, y);
    TwoRaws(w, a, b, x, y);
    TwoTrap(w, a, b, x, y, rp, RawsOf(w, chain));
    TwoLoop(w, a, b, x, y, rp);
    assert (a, b) in RawsOf(w, chain) && Issues(w, {a}, chain, a);
  }

  /** Two entities that vouch for each other: validation uses up whatever the context allows. */
  method CircularChain(a: EntityId, b: EntityId, x: Raw, y: Raw, rp: EntityId, budget: nat)
    returns (r: Result<seq<Policy>, ChainError>)
    requires a != b && a != rp && b != rp && x != y && a != ""
    ensures r.Failure? && r.error.ContextEnded?
  {
    CircularTraps(a, b, x, y, rp);
    r := ValidateChain(Circular(a, b, x, y), {a}, rp, [x, y], budget, [], [], {a, b});
  }

  // ---------- The search and the walk fit together ----------

  /** Issuers answer for themselves, about whom they were asked, with trusted statements. */
  ghost predicate Honest(w: World) {
    forall raw, iss, sub :: States(w, raw, iss, sub) ==>
      Trusted(w, raw) && w.parse(raw).value.iss == iss && w.parse(raw).value.sub == sub
  }

  /** In an honest federation every chain the search finds is a ladder. */
  lemma {:induction false} SearchGivesLadder(w: World, anchors: set<EntityId>, rp: EntityId, budget: nat) returns (c: Climb)
    requires Honest(w) && "" !in anchors && rp !in anchors
    requires FetchConfig(w, rp).Some? && SearchFrom(w, anchors, rp, budget).chain.Some?
    ensures Legal(w, anchors, c) && c.entity == rp
    ensures SearchFrom(w, anchors, rp, budget).chain == Some(Flatten(c))
    ensures Ladder(w, anchors, rp, Flatten(c), Entities(c), Rungs(c)) && |Rungs(c)| <= |Flatten(c)|
  {
    c := SearchClimbs(w, anchors, rp, FetchConfig(w, rp).value.hints, {rp}, [], budget);
    ChainUnique(w, anchors, rp, budget);
    ClimbIsLadder(w, anchors, c);
  }

  lemma {:induction false} ClimbIsLadder(w: World, anchors: set<EntityId>, c: Climb)
    requires Honest(w) && "" !in anchors && c.entity !in anchors && Legal(w, anchors, c)
    requires Alive(w, anchors, c.entity) && ChainOf(w, anchors, c.entity) == Flatten(c)
    ensures Ladder(w, anchors, c.entity, Flatten(c), Entities(c), Rungs(c))
    ensures |Rungs(c)| <= |Flatten(c)|
  {
    var chain, vs, rungs := Flatten(c), Entities(c), Rungs(c);
    ClimbSizes(c);
    ClimbEntity(w, anchors, c, |rungs|);
    forall i, j | 0 <= i < j < |vs| ensures vs[i] != vs[j] {
      ClimbSimple(w, anchors, c, i, j);
    }
    forall i | 0 <= i < |rungs|
      ensures rungs[i] in chain && Trusted(w, rungs[i])
      ensures w.parse(rungs[i]).value.iss == vs[i + 1] && w.parse(rungs[i]).value.sub == vs[i]
    {
      ClimbRung(w, anchors, c, i);
    }
    forall raw | raw in chain
      ensures w.parse(raw).Some?
      ensures w.parse(raw).value.iss in anchors ==> w.parse(raw).value.iss == vs[|rungs|]
    {
      var j := ClimbIssuer(w, anchors, c, raw);
      if j >= 0 { ClimbEntity(w, anchors, c, j + 1); }
    }
    forall raw, i | raw in chain && 0 <= i < |rungs| && w.parse(raw).value.iss == vs[i + 1]
      ensures raw == rungs[i]
    {
      var j := ClimbIssuer(w, anchors, c, raw);
      ClimbEntity(w, anchors, c, i + 1);
      assert vs[j + 1] == vs[i + 1];
    }
  }

  /** A statement found is dead (j < 0), or it is the rung of its issuer. */
  lemma {:induction false} ClimbIssuer(w: World, anchors: set<EntityId>, c: Climb, raw: Raw) returns (j: int)
    requires Honest(w) && Legal(w, anchors, c) && raw in Flatten(c)
    ensures w.parse(raw).Some? && j < |Rungs(c)|
    ensures var iss := w.parse(raw).value.iss;
            if j < 0 then iss !in anchors && !Alive(w, anchors, iss)
            else raw == Rungs(c)[j] && iss == Entities(c)[j + 1]
  {
    ClimbContents(w, anchors, c, raw);
    if raw in Rungs(c) {
      j :| 0 <= j < |Rungs(c)| && raw == Rungs(c)[j];
      ClimbRung(w, anchors, c, j);
    } else {
      j := -1;
    }
  }

  lemma {:induction false} ClimbSizes(c: Climb)
    ensures 1 <= |Rungs(c)| <= |Flatten(c)|
    ensures Entities(c)[0] == c.entity
    decreases c
  {
    if c.Step? { ClimbSizes(c.up); }
  }

  // ---------- Automatic registration ----------

  datatype RegistrationError =
    | NoAnchors
    | NoEntityConfig
    | NotSelfIssued
    | ConfigExpired
    | NoMetadata
    | NoRedirectUris
    | NoChain
    | InvalidChain(reason: ChainError)

  /** The checks on the relying party's own configuration, before any chain is sought. */
  ghost predicate Presentable(w: World, id: EntityId) {
    && FetchConfig(w, id).Some?
    && var c := FetchConfig(w, id).value;
       && c.iss == id && c.sub == id && (c.exp <= 0 || w.now <= c.exp)
       && c.metadata.Some? && c.metadata.value.redirectUris != []
  }

  /** What each error says about the anchors, the configuration and the hints. */
  ghost predicate Refused(w: World, anchors: set<EntityId>, id: EntityId, budget: nat, e: RegistrationError) {
    var config := FetchConfig(w, id);
    match e
    case NoAnchors => anchors == {}
    case NoEntityConfig => budget == 0 || config.None?
    case NotSelfIssued => config.Some? && (config.value.iss != id || config.value.sub != id)
    case ConfigExpired => config.Some? && 0 < config.value.exp < w.now
    case NoMetadata => config.Some? && config.value.metadata.None?
    case NoRedirectUris => config.Some? && config.value.metadata.Some? && config.value.metadata.value.redirectUris == []
    case NoChain =>
      Presentable(w, id) && budget > 0 && (HasRoute(w, anchors, id) ==> SearchFrom(w, anchors, id, budget - 1).left == 0)
    case InvalidChain(_) => Presentable(w, id) && HasRoute(w, anchors, id)
  }

  /** ValidateByEntityID's first two steps. */
  method CheckConfig(w: World, anchors: set<EntityId>, id: EntityId, budget: nat) returns (r: Result<Claims, RegistrationError>)
    ensures r.Success? <==> anchors != {} && budget > 0 && Presentable(w, id)
    ensures r.Success? ==> FetchConfig(w, id) == Some(r.value)
    ensures r.Failure? ==> !r.error.NoChain? && !r.error.InvalidChain? && Refused(w, anchors, id, budget, r.error)
  {
    if |anchors| == 0 {
      return Failure(NoAnchors);
    }
    if budget == 0 {
      return Failure(NoEntityConfig);
    }
    var fetched := FetchConfig(w, id);
    if fetched.None? {
      return Failure(NoEntityConfig);
    }
    var config := fetched.value;
    if config.iss != id || config.sub != id {
      return Failure(NotSelfIssued);
    }
    if Expired(w, config.exp) {
      return Failure(ConfigExpired);
    }
    if config.metadata.None? {
      return Failure(NoMetadata);
    }
    if |config.metadata.value.redirectUris| == 0 {
      return Failure(NoRedirectUris);
    }
    r := Success(config);
  }

  /**
    ValidateByEntityID. A registration always rests on an anchored path. In an honest
    federation, when the search finds a chain and leaves as many fetches as the chain is
    long, the relying party is registered under the policies of the climb it found.
   */
  method ValidateByEntityId(w: World, anchors: set<EntityId>, id: EntityId, budget: nat)
    returns (r: Result<Registration, RegistrationError>)
    ensures r.Failure? ==> Refused(w, anchors, id, budget, r.error)
    ensures r.Success? ==> Presentable(w, id) && HasRoute(w, anchors, id)
    ensures r.Success? ==> Presentable(w, id) && exists chain, anchor, path ::
              && AnchoredPath(w, anchors, chain, id, anchor, path)
              && r.value == Registered(id, FetchConfig(w, id).value.metadata.value,
                                       FetchConfig(w, id).value.jwks, PoliciesOf(w, path))
    ensures Honest(w) && "" !in anchors && anchors != {} && id !in anchors && Presentable(w, id) && budget > 0 ==>
              var f := SearchFrom(w, anchors, id, budget - 1);
              if f.chain.None? then r == Failure(NoChain)
              else if |f.chain.value| <= f.left then
                exists c :: && Legal(w, anchors, c) && c.entity == id && Flatten(c) == f.chain.value
                            && r == Success(Registered(id, FetchConfig(w, id).value.metadata.value,
                                                       FetchConfig(w, id).value.jwks,
                                                       PoliciesOf(w, Reversed(Rungs(c)))))
              else r.Failure? ==> r.error.InvalidChain?
  {
    var checked := CheckConfig(w, anchors, id, budget);
    if checked.Failure? {
      return Failure(checked.error);
    }
    var config := checked.value;
    var rp := config.metadata.value;
    var found := ResolveChain(w, anchors, id, config.hints, budget - 1);
    assert found == SearchFrom(w, anchors, id, budget - 1);
    RouteIff(w, anchors, id);
    if found.chain.None? {
      return Failure(NoChain);
    }
    var chain := found.chain.value;
    ghost var c: Climb := Top("", [], "", "");
    if Honest(w) && "" !in anchors && id !in anchors {
      c := SearchGivesLadder(w, anchors, id, budget - 1);
    }
    var validated := ValidateChain(w, anchors, id, chain, found.left, Entities(c), Rungs(c), {});
    if validated.Failure? {
      return Failure(InvalidChain(validated.error));
    }
    var data := BuildRegistrationData(id, rp, config.jwks, validated.value);
    r := Success(data);
  }
}
