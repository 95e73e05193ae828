/**
  Metadata policies: how the subset policies collected along a trust chain filter what a
  relying party asked for.
 */
module FederationPolicy {
  import opened FederationSearch

  datatype Registration = Registration(
    entityId: EntityId,
    name: string,
    redirectUris: seq<string>,
    postLogoutRedirectUris: seq<string>,
    grantTypes: seq<string>,
    responseTypes: seq<string>,
    scopes: seq<string>,
    contacts: seq<string>,
    logoUri: string,
    jwksUri: string,
    jwks: string,
    tokenEndpointAuthMethod: string)

  // ---------- parseScopes ----------

  /** unicode.IsSpace. */
  predicate IsSpace(c: char) {
    || c in {' ', '\t', '\n', '\r', '\U{0B}', '\U{0C}', '\U{85}', '\U{A0}', '\U{1680}'}
    || '\U{2000}' <= c <= '\U{200A}'
    || c in {'\U{2028}', '\U{2029}', '\U{202F}', '\U{205F}', '\U{3000}'}
  }

  predicate Word(s: string) {
    s != "" && forall i :: 0 <= i < |s| ==> !IsSpace(s[i])
  }

  /** The length of the leading run of non-space characters. */
  function WordLength(s: string): (n: nat)
    ensures n <= |s|
    ensures forall i :: 0 <= i < n ==> !IsSpace(s[i])
    ensures n < |s| ==> IsSpace(s[n])
  {
    if s == "" || IsSpace(s[0]) then 0 else 1 + WordLength(s[1..])
  }

  /** strings.Fields. */
  function Fields(s: string): (words: seq<string>)
    ensures forall i :: 0 <= i < |words| ==> Word(words[i])
    decreases |s|
  {
    if s == "" then []
    else if IsSpace(s[0]) then Fields(s[1..])
    else
      var n := WordLength(s);
      [s[..n]] + Fields(s[n..])
  }

  function Spaced(words: seq<string>): string {
    if |words| == 0 then "" else if |words| == 1 then words[0] else words[0] + " " + Spaced(words[1..])
  }

  /** Splitting a space-separated list of words gives the words back. */
  lemma {:induction false} FieldsSpaced(words: seq<string>)
    requires forall i :: 0 <= i < |words| ==> Word(words[i])
    ensures Fields(Spaced(words)) == words
    decreases |words|
  {
    if |words| > 0 {
      var s, n := Spaced(words), WordLength(Spaced(words));
      assert s[..|words[0]|] == words[0];
      assert |words| > 1 ==> IsSpace(s[|words[0]|]);
      assert forall i :: 0 <= i < |words[0]| ==> s[i] == words[0][i];
      assert n == |words[0]|;
      if |words| > 1 {
        assert s[n..] == " " + Spaced(words[1..]);
        assert s[n..][1..] == Spaced(words[1..]);
        FieldsSpaced(words[1..]);
        assert Fields(s[n..]) == Fields(s[n..][1..]);
      } else {
        assert s[n..] == "";
      }
    }
  }

  // ---------- Subset policies ----------

  /** Every policy that restricts anything lists v. */
  predicate Allowed(v: string, subsets: seq<seq<string>>) {
    forall i :: 0 <= i < |subsets| ==> subsets[i] == [] || v in subsets[i]
  }

  /** The values every policy allows, in the order asked for. */
  function Keep(values: seq<string>, subsets: seq<seq<string>>): seq<string> {
    if |values| == 0 then []
    else (if Allowed(values[0], subsets) then [values[0]] else []) + Keep(values[1..], subsets)
  }

  lemma {:induction false} KeepAppend(a: seq<string>, b: seq<string>, subsets: seq<seq<string>>)
    ensures Keep(a + b, subsets) == Keep(a, subsets) + Keep(b, subsets)
    decreases |a|
  {
    if |a| == 0 {
      assert a + b == b;
    } else {
      assert (a + b)[1..] == a[1..] + b;
      KeepAppend(a[1..], b, subsets);
    }
  }

  /** Applying policies one after the other keeps what all of them allow. */
  lemma {:induction false} KeepTwice(values: seq<string>, first: seq<seq<string>>, second: seq<seq<string>>)
    ensures Keep(Keep(values, first), second) == Keep(values, first + second)
    decreases |values|
  {
    if |values| > 0 {
      var v := values[0];
      KeepTwice(values[1..], first, second);
      AllowedAppend(v, first, second);
      if Allowed(v, first) {
        assert Keep(values, first)[1..] == Keep(values[1..], first);
      } else {
        assert Keep(values, first) == Keep(values[1..], first);
      }
    }
  }

  lemma {:induction false} AllowedAppend(v: string, a: seq<seq<string>>, b: seq<seq<string>>)
    ensures Allowed(v, a + b) <==> Allowed(v, a) && Allowed(v, b)
  {
    if Allowed(v, a + b) {
      assert forall i :: 0 <= i < |a| ==> a[i] == (a + b)[i];
      assert forall i :: 0 <= i < |b| ==> b[i] == (a + b)[|a| + i];
    }
  }

  /** Each value survives with its full multiplicity or not at all. */
  lemma {:induction false} KeepCounts(values: seq<string>, subsets: seq<seq<string>>, v: string)
    ensures multiset(Keep(values, subsets))[v] == if Allowed(v, subsets) then multiset(values)[v] else 0
    decreases |values|
  {
    if |values| > 0 {
      KeepCounts(values[1..], subsets, v);
      assert values == [values[0]] + values[1..];
    }
  }

  /** Order and repetition of the policies do not matter. */
  lemma {:induction false} KeepOrderIndependent(values: seq<string>, a: seq<seq<string>>, b: seq<seq<string>>)
    requires forall s :: s in a <==> s in b
    ensures Keep(values, a) == Keep(values, b)
    decreases |values|
  {
    if |values| > 0 {
      AllowedSame(values[0], a, b);
      KeepOrderIndependent(values[1..], a, b);
    }
  }

  lemma {:induction false} AllowedSame(v: string, a: seq<seq<string>>, b: seq<seq<string>>)
    requires forall s :: s in a <==> s in b
    ensures Allowed(v, a) <==> Allowed(v, b)
  {
    if Allowed(v, a) {
      forall i | 0 <= i < |b| ensures b[i] == [] || v in b[i] { assert b[i] in a; }
    }
    if Allowed(v, b) {
      forall i | 0 <= i < |a| ensures a[i] == [] || v in a[i] { assert a[i] in b; }
    }
  }

  /** A further policy only removes values from the result. */
  lemma {:induction false} KeepNarrows(values: seq<string>, subsets: seq<seq<string>>, more: seq<string>)
    ensures Keep(values, subsets + [more]) == Keep(Keep(values, subsets), [more])
    ensures multiset(Keep(values, subsets + [more])) <= multiset(Keep(values, subsets))
  {
    KeepTwice(values, subsets, [more]);
    forall v ensures multiset(Keep(values, subsets + [more]))[v] <= multiset(Keep(values, subsets))[v] {
      KeepCounts(Keep(values, subsets), [more], v);
    }
  }

  lemma {:induction false} AllowedOne(v: string, subset: seq<string>)
    ensures Allowed(v, [subset]) <==> subset == [] || v in subset
  {
    assert [subset][0] == subset;
  }

  /** applySubsetPolicy. */
  method ApplySubsetPolicy(values: seq<string>, subset: seq<string>) returns (out: seq<string>)
    ensures out == Keep(values, [subset])
  {
    if |subset| == 0 {
      KeepAll(values, [subset]);
      return values;
    }
    var allowed := {};
    for i := 0 to |subset|
      invariant allowed == set s | s in subset[..i]
    {
      allowed := allowed + {subset[i]};
      assert subset[..i + 1] == subset[..i] + [subset[i]];
    }
    assert subset[..|subset|] == subset;
    out := [];
    for i := 0 to |values|
      invariant out == Keep(values[..i], [subset])
    {
      assert values[..i + 1] == values[..i] + [values[i]];
      KeepAppend(values[..i], [values[i]], [subset]);
      AllowedOne(values[i], subset);
      assert [values[i]][1..] == [];
      if values[i] in allowed {
        out := out + [values[i]];
      }
    }
    assert values[..|values|] == values;
  }

  lemma {:induction false} KeepAll(values: seq<string>, subsets: seq<seq<string>>)
    requires forall v :: v in values ==> Allowed(v, subsets)
    ensures Keep(values, subsets) == values
    decreases |values|
  {
    if |values| > 0 {
      assert values[0] in values;
      KeepAll(values[1..], subsets);
    }
  }

  /** One of buildRegistrationData's loops over the policies. */
  method FilterByPolicies(values: seq<string>, subsets: seq<seq<string>>) returns (out: seq<string>)
    ensures out == Keep(values, subsets)
  {
    out := values;
    KeepAll(values, []);
    for i := 0 to |subsets|
      invariant out == Keep(values, subsets[..i])
    {
      KeepTwice(values, subsets[..i], [subsets[i]]);
      assert subsets[..i + 1] == subsets[..i] + [subsets[i]];
      out := ApplySubsetPolicy(out, subsets[i]);
    }
    assert subsets[..|subsets|] == subsets;
  }

  // ---------- buildRegistrationData ----------

  function Scopes(ps: seq<Policy>): seq<seq<string>> {
    seq(|ps|, i requires 0 <= i < |ps| => ps[i].scope)
  }

  function GrantTypes(ps: seq<Policy>): seq<seq<string>> {
    seq(|ps|, i requires 0 <= i < |ps| => ps[i].grantTypes)
  }

  function ResponseTypes(ps: seq<Policy>): seq<seq<string>> {
    seq(|ps|, i requires 0 <= i < |ps| => ps[i].responseTypes)
  }

  function OrDefault(values: seq<string>, default: string): seq<string> {
    if values == [] then [default] else values
  }

  /** The registration a request and its policies determine. */
  function Registered(id: EntityId, rp: RpMetadata, configJwks: string, ps: seq<Policy>): Registration {
    Registration(
      id,
      if rp.clientName == "" then id else rp.clientName,
      rp.redirectUris,
      rp.postLogoutRedirectUris,
      Keep(OrDefault(rp.grantTypes, "authorization_code"), GrantTypes(ps)),
      Keep(OrDefault(rp.responseTypes, "code"), ResponseTypes(ps)),
      OrDefault(Keep(Fields(rp.scope), Scopes(ps)), "openid"),
      rp.contacts,
      rp.logoUri,
      rp.jwksUri,
      if rp.jwks == "" && rp.jwksUri == "" then configJwks else rp.jwks,
      if rp.tokenEndpointAuthMethod in {"", "none"} then "private_key_jwt" else rp.tokenEndpointAuthMethod)
  }

  /** buildRegistrationData, policy by policy. */
  method BuildRegistrationData(id: EntityId, rp: RpMetadata, configJwks: string, policies: seq<Policy>)
    returns (data: Registration)
    ensures data == Registered(id, rp, configJwks, policies)
    ensures data.entityId == id && data.name == (if rp.clientName != "" then rp.clientName else id)
    ensures data.redirectUris == rp.redirectUris && data.postLogoutRedirectUris == rp.postLogoutRedirectUris
    ensures data.contacts == rp.contacts && data.logoUri == rp.logoUri && data.jwksUri == rp.jwksUri
    ensures rp.jwks != "" || rp.jwksUri != "" ==> data.jwks == rp.jwks
    ensures rp.jwks == "" && rp.jwksUri == "" ==> data.jwks == configJwks
    ensures rp.tokenEndpointAuthMethod in {"", "none"} ==> data.tokenEndpointAuthMethod == "private_key_jwt"
    ensures rp.tokenEndpointAuthMethod !in {"", "none"} ==> data.tokenEndpointAuthMethod == rp.tokenEndpointAuthMethod
  {
    var scopes := FilterByPolicies(Fields(rp.scope), Scopes(policies));
    if |scopes| == 0 {
      scopes := ["openid"];
    }

    var grantTypes := rp.grantTypes;
    if |grantTypes| == 0 {
      grantTypes := ["authorization_code"];
    }
    grantTypes := FilterByPolicies(grantTypes, GrantTypes(policies));

    var responseTypes := rp.responseTypes;
    if |responseTypes| == 0 {
      responseTypes := ["code"];
    }
    responseTypes := FilterByPolicies(responseTypes, ResponseTypes(policies));

    var jwks := rp.jwks;
    if |jwks| == 0 && rp.jwksUri == "" {
      jwks := configJwks;
    }
    var authMethod := rp.tokenEndpointAuthMethod;
    if authMethod == "" || authMethod == "private_key_jwt" || authMethod == "none" {
      authMethod := "private_key_jwt";
    }
    var name := rp.clientName;
    if name == "" {
      name := id;
    }
    data := Registration(id, name, rp.redirectUris, rp.postLogoutRedirectUris, grantTypes, responseTypes,
                         scopes, rp.contacts, rp.logoUri, rp.jwksUri, jwks, authMethod);
  }

  lemma {:induction false} KeptIff(values: seq<string>, subsets: seq<seq<string>>, v: string)
    ensures v in Keep(values, subsets) <==> v in values && Allowed(v, subsets)
  {
    KeepCounts(values, subsets, v);
    assert v in Keep(values, subsets) <==> multiset(Keep(values, subsets))[v] > 0;
    assert v in values <==> multiset(values)[v] > 0;
  }

  ghost predicate GrantAllowed(ps: seq<Policy>, v: string) {
    forall i :: 0 <= i < |ps| ==> ps[i].grantTypes == [] || v in ps[i].grantTypes
  }

  ghost predicate ResponseAllowed(ps: seq<Policy>, v: string) {
    forall i :: 0 <= i < |ps| ==> ps[i].responseTypes == [] || v in ps[i].responseTypes
  }

  ghost predicate ScopeAllowed(ps: seq<Policy>, v: string) {
    forall i :: 0 <= i < |ps| ==> ps[i].scope == [] || v in ps[i].scope
  }

  lemma {:induction false} GrantAllowedIff(ps: seq<Policy>, v: string)
    ensures GrantAllowed(ps, v) <==> Allowed(v, GrantTypes(ps))
  {
    assert forall i :: 0 <= i < |ps| ==> GrantTypes(ps)[i] == ps[i].grantTypes;
  }

  lemma {:induction false} ResponseAllowedIff(ps: seq<Policy>, v: string)
    ensures ResponseAllowed(ps, v) <==> Allowed(v, ResponseTypes(ps))
  {
    assert forall i :: 0 <= i < |ps| ==> ResponseTypes(ps)[i] == ps[i].responseTypes;
  }

  lemma {:induction false} ScopeAllowedIff(ps: seq<Policy>, v: string)
    ensures ScopeAllowed(ps, v) <==> Allowed(v, Scopes(ps))
  {
    assert forall i :: 0 <= i < |ps| ==> Scopes(ps)[i] == ps[i].scope;
  }

  /**
    Granted grant and response types were asked for (or defaulted) and are allowed by
    every policy of the chain.
   */
  lemma {:induction false} GrantsWithinPolicy(id: EntityId, rp: RpMetadata, jwks: string, ps: seq<Policy>, v: string)
    ensures v in Registered(id, rp, jwks, ps).grantTypes <==>
              (v in rp.grantTypes || (rp.grantTypes == [] && v == "authorization_code")) && GrantAllowed(ps, v)
    ensures v in Registered(id, rp, jwks, ps).responseTypes <==>
              (v in rp.responseTypes || (rp.responseTypes == [] && v == "code")) && ResponseAllowed(ps, v)
  {
    KeptIff(OrDefault(rp.grantTypes, "authorization_code"), GrantTypes(ps), v);
    KeptIff(OrDefault(rp.responseTypes, "code"), ResponseTypes(ps), v);
    GrantAllowedIff(ps, v);
    ResponseAllowedIff(ps, v);
  }

  /**
    The scopes granted all lie within policy exactly when some requested scope does or
    the fallback scope does: the fallback itself is not filtered.
   */
  lemma {:induction false} ScopesWithinPolicy(id: EntityId, rp: RpMetadata, jwks: string, ps: seq<Policy>)
    ensures (forall v :: v in Registered(id, rp, jwks, ps).scopes ==> Allowed(v, Scopes(ps))) <==>
              (exists v :: v in Fields(rp.scope) && Allowed(v, Scopes(ps))) || Allowed("openid", Scopes(ps))
  {
    var asked, granted := Fields(rp.scope), Registered(id, rp, jwks, ps).scopes;
    var kept := Keep(asked, Scopes(ps));
    forall v ensures v in kept <==> v in asked && Allowed(v, Scopes(ps)) {
      KeptIff(asked, Scopes(ps), v);
    }
    if kept == [] {
      assert granted == ["openid"] && "openid" in granted;
    } else {
      assert kept[0] in kept;
    }
  }

  /** A scope is granted exactly if it was asked for and every policy has it, or as the fallback where none was. */
  lemma {:induction false} ScopesGranted(id: EntityId, rp: RpMetadata, jwks: string, ps: seq<Policy>, v: string)
    ensures v in Registered(id, rp, jwks, ps).scopes <==>
              || (v in Fields(rp.scope) && ScopeAllowed(ps, v))
              || (v == "openid" && forall u :: u in Fields(rp.scope) ==> !ScopeAllowed(ps, u))
  {
    var asked, kept := Fields(rp.scope), Keep(Fields(rp.scope), Scopes(ps));
    forall u ensures u in kept <==> u in asked && ScopeAllowed(ps, u) {
      KeptIff(asked, Scopes(ps), u);
      ScopeAllowedIff(ps, u);
    }
    if kept != [] { assert kept[0] in kept; }
  }

  /** A relying party that asks for no scope, under a policy without openid, still gets openid. */
  lemma {:induction false} FallbackOutsidePolicy(id: EntityId, rp: RpMetadata, jwks: string, policy: Policy)
    requires rp.scope == "" && policy.scope != [] && "openid" !in policy.scope
    ensures Registered(id, rp, jwks, [policy]).scopes == ["openid"]
    ensures !Allowed("openid", Scopes([policy]))
  {
    assert Scopes([policy])[0] == policy.scope;
  }
}
