/**
  Walks along trusted statements. Validation follows one statement after another until it
  reaches the relying party; on a chain supplied from outside nothing but the request's
  context keeps it from going round in circles.
 */
module FederationWalks {

  type Edge = (string, string)

  /** Entities visited one after the other, none but the last being the goal. */
  predicate Walk(edges: set<Edge>, goal: string, vs: seq<string>) {
    vs != [] && forall i :: 0 <= i < |vs| - 1 ==> vs[i] != goal && (vs[i], vs[i + 1]) in edges
  }

  predicate Distinct<T(==)>(s: seq<T>) {
    forall i, j :: 0 <= i < j < |s| ==> s[i] != s[j]
  }

  /** Some walk from the start comes back to where it has been. */
  ghost predicate Loops(edges: set<Edge>, goal: string, start: string) {
    exists vs :: Walk(edges, goal, vs) && vs[0] == start && !Distinct(vs)
  }

  /** No walk from the start takes more than n statements. */
  ghost predicate EndsWithin(edges: set<Edge>, goal: string, start: string, n: nat) {
    forall vs :: Walk(edges, goal, vs) && vs[0] == start ==> |vs| - 1 <= n
  }

  lemma {:induction false} DistinctFits<T>(s: seq<T>, all: set<T>)
    requires Distinct(s) && forall i :: 0 <= i < |s| ==> s[i] in all
    ensures |s| <= |all|
    decreases |s|
  {
    if |s| > 0 {
      DistinctFits(s[1..], all - {s[0]});
    }
  }

  /** Without a loop a walk uses each statement at most once. */
  lemma {:induction false} LoopFreeEnds(edges: set<Edge>, goal: string, start: string)
    requires !Loops(edges, goal, start)
    ensures EndsWithin(edges, goal, start, |edges|)
  {
    forall vs | Walk(edges, goal, vs) && vs[0] == start ensures |vs| - 1 <= |edges| {
      assert Distinct(vs);
      var steps := seq(|vs| - 1, i requires 0 <= i < |vs| - 1 => (vs[i], vs[i + 1]));
      assert forall i, j :: 0 <= i < j < |steps| ==> steps[i].0 != steps[j].0;
      DistinctFits(steps, edges);
    }
  }

  /** Going round the loop once more makes a walk as long as one likes. */
  lemma {:induction false} GoRound(edges: set<Edge>, goal: string, vs: seq<string>, i: nat, j: nat, n: nat)
    returns (ws: seq<string>)
    requires Walk(edges, goal, vs) && i < j < |vs| && vs[i] == vs[j]
    ensures Walk(edges, goal, ws) && ws[0] == vs[0] && ws[|ws| - 1] == vs[i] && |ws| > n
    decreases n
  {
    if n == 0 {
      ws := vs[..i + 1];
    } else {
      var us := GoRound(edges, goal, vs, i, j, n - 1);
      ws := us + vs[i + 1..j + 1];
      forall k | 0 <= k < |ws| - 1 ensures ws[k] != goal && (ws[k], ws[k + 1]) in edges {
        if k >= |us| - 1 {
          var m := i + (k - (|us| - 1));
          assert ws[k] == vs[m] && ws[k + 1] == vs[m + 1];
        }
      }
    }
  }

  /**
    Walking ends whatever statement is followed first, and without help from the context,
    if and only if no loop of trusted statements can be reached before the goal.
   */
  lemma {:induction false} EndsIffLoopFree(edges: set<Edge>, goal: string, start: string)
    ensures (exists n :: EndsWithin(edges, goal, start, n)) <==> !Loops(edges, goal, start)
  {
    if Loops(edges, goal, start) {
      var vs :| Walk(edges, goal, vs) && vs[0] == start && !Distinct(vs);
      var i, j :| 0 <= i < j < |vs| && vs[i] == vs[j];
      forall n: nat ensures !EndsWithin(edges, goal, start, n) {
        var ws := GoRound(edges, goal, vs, i, j, n + 1);
      }
    } else {
      LoopFreeEnds(edges, goal, start);
    }
  }
}
