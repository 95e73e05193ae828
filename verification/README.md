# Clavex: verified models of its protocols and reconcilers

This project models the parts of Clavex whose correctness is not visible in any single
function: protocols with several parties or several failure points, searches that must
agree with later checks, and programs that undo or reconcile one another. Each module
states what the code promises for every input, every run or every reachable state.

| Module | What it models |
|---|---|
| `NumberTheory`, `Codec` | the arithmetic and hexadecimal encodings behind blind signatures |
| `BlindToken`, `TokenRedemption` | blind RSA tokens: the server, the wallet's side of the protocol, and concurrent redemption |
| `FederationSearch`, `FederationRoutes`, `FederationWalks`, `FederationValidation`, `FederationPolicy` | OpenID Federation: chain search, chain validation, policy folding, automatic registration |
| `DeviceNames` | certificate serial text, common names, Vault mount names |
| `DeviceRotation`, `DeviceRotationService` | staged rotation of a device CA over Vault mounts and database rows |
| `DeviceEnrollment`, `DeviceRevocation`, `DeviceEnrollmentService` | device enrollment, renewal and revocation, with other operations committing in between |
| `PlanScheduler` | the bounded, resource-aware scheduler of conformance plans |
| `OrgReconcile` | the declarative organisation plan and apply loop |
| `Text`, `ConformanceReport`, `ConformancePage`, `ConformanceEscaping`, `ConformanceRoundTrip`, `ConformanceDocument`, `ConformancePublished` | the conformance report's printer with its section of local reviews, its parser, and their round trip |
| `AuditDispatcher` | the audit event queue, its workers, shutdown, and delivery with retries |
| `DeviceLogin` | the device-flow polling loop of the command line client |
| `ManualReview` | evidence snapshots and the review registry |

## How the code is represented

- Code that loops or updates in place is a method with loop invariants, or a class, proved
  against a specification function; code made of expressions is a function.
- Concurrency is a state machine over atomic steps: one external call, one database write
  or one wake-up each. Theorems quantify over every sequence of steps. The service
  methods are proved to take steps of the machine, in most cases by returning the run they
  made, so the theorems about runs apply to them.
- Where an operation reads, waits and only then writes, what other operations commit
  meanwhile is a parameter (`between` in `Renew`, `others` in `RevokeDevice`).
- A call into Vault, the database or the network that may fail is a member of a `faults`
  set. Every combination of faults is covered.
- SHA-256, JWT verification, HTTP responders, clocks and the server's replies are function
  parameters. Nothing is assumed of them beyond what a theorem's `requires` says.
- A Go context that may expire is a budget of fetches. `SearchStable` shows that an answer
  does not change under a larger budget.

## Where the code differs from its description

- `RevokeDevice` is documented as revoking a device's pending secrets. The code revokes
  certificates only, and `Enroll` does not look at the device's status.
  `EnrollableIffPending` says exactly when a device can be enrolled at a given time, and
  `EnrollAfterRevocation` that enrolling after a revocation succeeds exactly if it would
  have before it. `RevokedDeviceEnrolls` is a run in which a revoked device becomes active.
- A revoked device is meant to hold no active certificate. A renewal that read the device
  before it was revoked may commit afterwards: `RenewalOutrunsRevocation` is such a run,
  and `ClearRunIff` the exact condition over all interleavings.
- `Dispatcher.Stop` is documented as safe to call several times. A run panics if and only
  if a Stop or a Publish follows a Stop (`PanicsIff`), so a second call never is safe
  (`StopTwicePanics`). It is documented as draining the channel, which it does if and only
  if the dispatcher was started or nothing was accepted (`StopDrainsIff`;
  `UnstartedStopKeepsQueue` is the failing run).
- Tokens are single use. The repository can purge old rows of the table of spent tokens,
  after which a token can be redeemed again: `SingleUse` shows that a second record takes a
  purge between the two inserts, and `PurgedTokenReturns` is such a run.
- The device-flow loop checks the code's lifetime before it waits, so its last poll may be
  made after the code has expired (`LatePoll`); `Overshoot` says exactly when and by how much.
- `resolveChain` keeps its visited set for one call only. With enough fetches it finds a
  route that the published hints offer if and only if what it has to climb on before never
  comes round in a circle (`FindsIff`); where it does, no context is long enough
  (`CircleStarves`; `CircleFails` is a failing input).
- `validateChain` follows an inline chain without remembering where it has been. The walk
  ends without the help of the request's context if and only if a statement does not parse
  or no anchor leads into a loop of trusted statements about others (`TerminatesIff`); on
  the chain of `CircularChain` it uses up whatever the context allows.
- `CompleteRotation` makes two separate writes. If the second is lost, grace cleanup can
  disable the primary mount: `UnpromotedCleanupUnsafe` is such a run, `RetireSafeIff` the
  exact condition on the stored columns, `RotationSafety` the same over whole runs, and
  `CompletedRotationsSafe` the guarantee for runs in which both are made.
- `baseMount` bounds the length of mount names exactly for names other than the empty one
  and `-rot` that do not begin with `-rot-` (`MountNamesBounded`).
- Requested scopes obey the policies like grant types, except that an empty result becomes
  `openid` whether or not the policies allow it (`ScopesWithinPolicy`;
  `FallbackOutsidePolicy` is a failing input).
- An authentication policy's server-side ID takes part in the comparison of the
  organisation plan, so a second plan is empty exactly when the file carries the ID the
  server uses (`ConvergesIff`). A file with an ID the server never uses does not converge
  however often it is applied (`ForeignIdNeverConverges`).
- The report's parser needs at least one character after `clavex-` in an alias, so a plan
  whose slug is exactly `clavex-` gets no badge (`Badged`, in `SummaryRecovers`).
- `FormatSerial` prints the magnitude of a serial number, so it is injective on
  non-negative serials and on no pair of opposite ones
  (`SerialTextInjective`).

## Model

| member | source | states |
|---|---|---|
| `NumberTheory.RsaIdentity` | internal/analytics/blindtoken.go:17-30 | for distinct primes p and q and an exponent congruent to 1 modulo p-1 and modulo q-1, x raised to it is congruent to x modulo pq, for every x, coprime or not |
| `NumberTheory.InverseCorrect` | internal/analytics/blindtoken.go:22-22 | the modular inverse used for unblinding times its argument is 1 modulo n, for every coprime argument |
| `Codec.DecodeEncode` | internal/analytics/blindtoken.go:55-61 | decoding the hexadecimal text of any byte string gives the bytes back |
| `Codec.EncodeDecode` | internal/analytics/blindtoken.go:66-73 | encoding what was decoded gives the text back up to the case of its digits |
| `Codec.DecodesIff` | internal/analytics/blindtoken.go:66-73 | exactly the even runs of hexadecimal digits, in either case, decode |
| `Codec.WidthFits` | internal/analytics/blindtoken.go:55-61 | a residue always fits the byte width of its modulus |
| `Codec.WidthTight` | internal/analytics/blindtoken.go:55-61 | no smaller width holds the modulus |
| `BlindToken.KeyInverts` | internal/analytics/blindtoken.go:17-30 | for a valid key, raising to e then d, or d then e, is the identity modulo n |
| `BlindToken.SignBlindAcceptance` | internal/analytics/blindtoken.go:46-61 | SignBlind accepts exactly what ValidateBlinded accepts, and rejects with the same error |
| `BlindToken.SignBlindEncoding` | internal/analytics/blindtoken.go:46-61 | the fixed-width fill never panics; the answer has two digits per modulus byte and decodes to the blinded value raised to d modulo n |
| `BlindToken.BlindZero` | internal/analytics/blindtoken.go:46-54 | a blinded value is zero, and so rejected, exactly when the representative is zero |
| `BlindToken.UnblindIsSignature` | internal/analytics/blindtoken.go:17-23 | unblinding the signed blinded value leaves the plain RSA signature of the representative |
| `BlindToken.VerifyMeaning` | internal/analytics/blindtoken.go:65-91 | Verify accepts exactly the well-formed texts of a non-zero residue whose e-th power is congruent to the message hash |
| `BlindToken.BlindRoundTrip` | internal/analytics/blindtoken.go:15-30 | for every key, message, unit r and spelling of the blinded value, the server signs if and only if the representative is non-zero, and then every spelling of the unblinded answer verifies |
| `BlindToken.SignatureUnique` | internal/analytics/blindtoken.go:65-91 | a non-zero representative has exactly one signature below n, and zero has none |
| `BlindToken.VerifyUnique` | internal/analytics/blindtoken.go:65-91 | two texts that verify for one message denote one integer |
| `BlindToken.PerfectBlinding` | internal/analytics/blindtoken.go:6-13 | for any units m and b exactly one r below n blinds m to b, and it is a unit, so a blinded value is compatible with every message |
| `BlindToken.TokenHashDistinguishes` | internal/analytics/blindtoken.go:93-102 | a text has a token hash exactly if it decodes, and two token hashes agree if and only if the digests of the messages do |
| `TokenRedemption.RedeemConserves` | internal/handler/credential_analytics.go:164-195 | over every interleaving of reports and purges an organisation's counter is the number of its recorded reports, each with a genuine token, and a hash was inserted once per purge and once more while it stands in the table |
| `TokenRedemption.SingleUse` | internal/handler/credential_analytics.go:169-186 | two reports of one message, however spelled, interleaved or addressed, are both recorded only if the token was purged after one had inserted it and before the other did |
| `TokenRedemption.RaceMarksOnce` | internal/handler/credential_analytics.go:175-185 | of two reports that both found a token unspent the table's key admits one |
| `TokenRedemption.PurgedTokenReturns` | internal/repository/credential_analytics.go:114-123 | a run in which a token is recorded, purged and recorded again |
| `TokenRedemption.FreeTokenPasses` | internal/handler/credential_analytics.go:164-195 | in every reachable state a genuine report is looked up if its digest is free, its insert succeeds if and only if the digest still is, and a report that has inserted can be counted; no token of another digest stands in the way |
| `TokenRedemption.UnsharedFree` | internal/handler/credential_analytics.go:169-186 | a digest that no report has inserted is free |
| `TokenRedemption.FreeTokenRecorded` | internal/handler/credential_analytics.go:164-195 | after every run a genuine report of a free digest can be carried through to the counter |
| `FederationSearch.ResolveChain` | internal/federation/registration.go:303-340 | the loop with its own visited set and chain computes the recursive search, and unless it ran out of fetches it finds a chain if and only if some hint leads to an anchor by published links |
| `FederationSearch.SearchStable` | internal/federation/registration.go:303-340 | unless it ran out of fetches, a search gives the same chain at the same cost under any larger budget |
| `FederationSearch.SearchClimbs` | internal/federation/registration.go:303-340 | every chain found is a climb from the entity to an anchor, one statement per rung, interspersed only with statements of issuers from which no anchor is reachable |
| `FederationSearch.ClimbSimple` | internal/federation/registration.go:303-340 | a climb never visits an entity twice |
| `FederationSearch.SearchAnswers` | internal/federation/registration.go:303-340 | a search that was not cut short finds a chain if and only if some hint is an anchor that vouches for the entity, or vouches for it and has a route of published links to an anchor |
| `FederationRoutes.FindsIff` | internal/federation/registration.go:303-340 | some budget lets the search from an entity succeed if and only if there is a route to an anchor and what has to be climbed on before it descends in some rank |
| `FederationRoutes.RankedFindsIff` | internal/federation/registration.go:303-340 | on hints without a circle some budget lets the search succeed if and only if there is a route |
| `FederationRoutes.ChainFound` | internal/federation/registration.go:303-340 | the chain goes by the first hint that leads to an anchor: the statements the hints before it serve, each once, then its own, then the chain it resolves to itself |
| `FederationRoutes.CircleStarves` | internal/federation/registration.go:303-340 | two entities that name each other first use up every budget |
| `FederationRoutes.RouteNotFound` | internal/federation/registration.go:303-340 | a route by the hint after such a circle is not found under any budget |
| `FederationRoutes.CircleFails` | internal/federation/registration.go:303-340 | a federation of three in which a route exists and no budget finds it |
| `FederationValidation.IndexStatements` | internal/federation/registration.go:353-365 | the maps hold exactly the chain's statements by issuer and subject, or some statement does not parse |
| `FederationValidation.StepDown` | internal/federation/registration.go:384-422 | a round accepts only a current statement of the entity about another one that verifies under the entity's published keys; with one statement to choose from it takes that one |
| `FederationValidation.WalkDown` | internal/federation/registration.go:379-424 | the walk's statements form a trusted path, empty only at the relying party itself, and its policies are the path's in order; a forced walk always arrives |
| `FederationWalks.EndsIffLoopFree` | internal/federation/registration.go:379-424 | walking along given statements ends, whichever is followed first, if and only if no loop of them can be reached before the goal |
| `FederationWalks.LoopFreeEnds` | internal/federation/registration.go:379-424 | without a loop a walk follows each statement at most once |
| `FederationValidation.ValidateChain` | internal/federation/registration.go:348-425 | for every map iteration order: acceptance implies an anchored path of trusted statements with exactly the returned policies, a ladder is always accepted with its own policies, on a chain without loops the context decides nothing once it allows more fetches than there are statements, and on a chain that traps every anchor nothing else ends it |
| `FederationValidation.TerminatesIff` | internal/federation/registration.go:353-424 | validation ends by itself, for every map iteration order, if and only if some statement does not parse or no anchor leads into a loop of trusted statements about others, the last one of each issuer and subject counting; then it follows each statement at most once |
| `FederationValidation.SelfStatementIgnored` | internal/federation/registration.go:388-388 | an entity's statement about itself, such as an anchor's own configuration in an inline chain, adds nothing that is followed, wherever in the chain it stands |
| `FederationValidation.CircularChain` | internal/federation/registration.go:379-424 | two entities that vouch for each other: validation uses up every budget |
| `FederationValidation.SearchGivesLadder` | internal/federation/registration.go:303-425 | in an honest federation every chain the search finds leaves validation no choice, although dead-end statements remain in it |
| `FederationValidation.CheckConfig` | internal/federation/registration.go:252-280 | passes exactly a self-issued, unexpired configuration with relying-party metadata and a redirect address, and names the first check that fails |
| `FederationValidation.ValidateByEntityId` | internal/federation/registration.go:252-296 | a registration rests on an anchored path, a route in the published hints and the relying party's own checks, and every error has its reason in them, a missing chain only without a route or without fetches; in an honest federation the relying party is registered, under the climb's policies, whenever the search succeeds and the context allows the walk |
| `FederationPolicy.FieldsSpaced` | internal/federation/registration.go:588-593 | splitting words joined by spaces gives the words back |
| `FederationPolicy.ApplySubsetPolicy` | internal/federation/registration.go:596-611 | the in-order filter keeps a value exactly if the policy is empty or lists it |
| `FederationPolicy.FilterByPolicies` | internal/federation/registration.go:525-546 | folding the policies one by one keeps exactly the values allowed by all of them |
| `FederationPolicy.KeepCounts` | internal/federation/registration.go:596-611 | each value is kept as often as requested if every non-empty policy lists it, and otherwise not at all |
| `FederationPolicy.KeepOrderIndependent` | internal/federation/registration.go:525-546 | the result depends on the set of policies only, not on their order or repetition |
| `FederationPolicy.KeepNarrows` | internal/federation/registration.go:525-546 | adding a policy never adds a value |
| `FederationPolicy.BuildRegistrationData` | internal/federation/registration.go:523-585 | the registration built step by step is the specified one; the entity's federation keys are used exactly if the metadata has neither keys nor a key address, the authentication method is never none, and the other fields are copied |
| `FederationPolicy.GrantsWithinPolicy` | internal/federation/registration.go:532-546 | a grant or response type is registered exactly if it was requested, or is the default for an empty request, and every policy allows it |
| `FederationPolicy.ScopesGranted` | internal/federation/registration.go:524-530 | a scope is registered exactly if it was requested and every policy allows it, or it is openid and no requested scope is allowed |
| `FederationPolicy.ScopesWithinPolicy` | internal/federation/registration.go:524-530 | all registered scopes lie within the policies if and only if some requested scope does or openid does, because the fallback itself is not filtered |
| `FederationPolicy.FallbackOutsidePolicy` | internal/federation/registration.go:524-530 | a request without scopes, under a policy that excludes openid, is registered with openid |
| `DeviceNames.FormatSerial` | internal/devicepki/certutil.go:17-27 | the array loop produces the colon-separated hexadecimal text |
| `DeviceNames.SerialTextInjective` | internal/devicepki/certutil.go:17-27 | two serials have the same text exactly when they have the same magnitude |
| `DeviceNames.SerialTextSpells` | internal/devicepki/certutil.go:17-27 | the text is the serial's bytes in order, two hexadecimal digits each, with colons between |
| `DeviceNames.ParseExpectedCN` | internal/devicepki/certutil.go:32-34 | a common name parses back into device and organisation exactly when the device ID has no at sign |
| `DeviceNames.MountNamesBounded` | internal/devicepki/rotation.go:17-22 | after any number of rotations a name is at most 13 characters longer than the original, if and only if the original does not start marked |
| `DeviceNames.MountGrows` | internal/devicepki/rotation.go:17-22 | a name that starts marked grows by 13 characters with every rotation |
| `DeviceNames.OrdinaryNamesUnmarked` | internal/devicepki/rotation.go:17-22 | every non-empty name not beginning with a hyphen is bounded |
| `DeviceNames.MountKeepsBase` | internal/devicepki/rotation.go:17-42 | a name in which the suffix is not found before its end is, after any rotations, the original with the last suffix |
| `DeviceRotation.StepInv` | internal/devicepki/rotation.go:29-191 | every call and write of every operation, in any interleaving, keeps the rotation invariant, provided a mount that is retired is no longer named by the configuration |
| `DeviceRotation.RotationSafety` | internal/devicepki/rotation.go:29-191 | over every interleaving of starts, completions, aborts and cleanups, each failing anywhere, every primary mount is enabled throughout if and only if every cleanup finds that the configuration no longer names the mount it retires |
| `DeviceRotation.CompletedRotationsSafe` | internal/devicepki/rotation.go:29-191 | so every primary mount is enabled throughout when cleanup meets only rotations whose completion made both writes |
| `DeviceRotation.RetireSafeIff` | internal/devicepki/rotation.go:157-191 | retiring an old mount keeps every primary mount enabled if and only if the organisation's configuration no longer names it, that is, if and only if a promotion followed its reading |
| `DeviceRotation.UnpromotedCleanupUnsafe` | internal/devicepki/rotation.go:104-132 | a run in which the second completion write is lost and cleanup disables the primary mount |
| `DeviceRotation.OneRotationEach` | internal/devicepki/rotation.go:29-100 | over every interleaving an organisation has at most one rotation under way |
| `DeviceRotationService.StartRotation` | internal/devicepki/rotation.go:29-100 | succeeds exactly without faults and without an active rotation; on failure rows, primaries and all other mounts are as before |
| `DeviceRotationService.CompleteRotation` | internal/devicepki/rotation.go:104-132 | succeeds exactly from cutover_ready for the organisation's own row, sets a grace of 72 hours and promotes its mount; a lost second write leaves the row terminal and unpromoted |
| `DeviceRotationService.AbortRotation` | internal/devicepki/rotation.go:136-154 | succeeds exactly for an active row, rolls it back and disables at most its new mount; no primary changes |
| `DeviceRotationService.CleanupExpiredGrace` | internal/devicepki/rotation.go:157-191 | disables only old mounts of due rows and none within the grace of its rows, marks a row only once its mount is gone, marks every row past its grace that meets no fault, and keeps the invariant when the configurations have left all due mounts behind |
| `DeviceEnrollment.StepInv` | internal/devicepki/service.go:113-429 | every transaction keeps names, serials and secret use in order |
| `DeviceEnrollment.CertificateIdentity` | internal/devicepki/service.go:76-78 | in every reachable state each certificate names its own device and organisation, and used secrets are exactly as many as certificates issued by enrollment |
| `DeviceEnrollment.LookupFindsOwnRow` | internal/devicepki/service.go:302-320 | looking up the text of a presented serial finds the row of that very certificate and no other |
| `DeviceEnrollmentService.Enroll` | internal/devicepki/service.go:113-194 | a failure at any point leaves the store unchanged and has its reason in the request, the rows or a fault; success takes a signed CSR for exactly the device's name, redeems its latest pending secret and writes three rows; without faults it succeeds exactly if the request names a device, proves its identity and redeems its latest secret, whichever of tied secrets that is |
| `DeviceEnrollmentService.Renew` | internal/devicepki/service.go:302-376 | whatever other operations commit between its reads and its transaction, it succeeds exactly for what was the active certificate of an active device and a signed CSR in its name, supersedes it if it still is active, and issues one for the same device and name |
| `DeviceEnrollmentService.RevokeCertificateBySerial` | internal/devicepki/service.go:381-412 | revokes exactly the named row; without faults it fails only if no such row is left to revoke |
| `DeviceEnrollmentService.RevokeDevice` | internal/devicepki/service.go:418-429 | amid any other operations, on success the device is revoked and an active certificate that is left was issued meanwhile; alone, exactly the device's active certificates are revoked, nothing else changes, and a failure leaves only revocations of the device's own certificates |
| `DeviceEnrollmentService.EnrollableIffPending` | internal/devicepki/service.go:113-194 | at any given time some request may enroll a device exactly if a latest pending secret of it has not expired and some text hashes to what is stored for it, whatever its status |
| `DeviceEnrollmentService.SureIffAllRedeem` | internal/devicepki/service.go:113-194 | some request is sure to enroll it, however ties are decided, exactly if one text redeems all its latest pending secrets |
| `DeviceEnrollmentService.EnrollAfterRevocation` | internal/devicepki/service.go:414-429 | a request presented after the device was revoked succeeds exactly if it would have before, and makes the device active |
| `DeviceEnrollmentService.StatusIrrelevant` | internal/devicepki/service.go:113-194 | the status of a device has no influence on which requests may enroll it |
| `DeviceEnrollmentService.RevokedDeviceEnrolls` | internal/devicepki/service.go:414-429 | a run in which a device is revoked, redeems its secret and becomes active |
| `DeviceEnrollmentService.EnrollReactivates` | internal/devicepki/service.go:113-194 | enrollment makes the device active and its outcome does not depend on the previous status |
| `DeviceRevocation.ClearStepIff` | internal/devicepki/service.go:302-429 | of all transactions exactly a renewal for a revoked device, and a revocation that finds an active certificate, leave a revoked device with an active certificate |
| `DeviceRevocation.ClearRunIff` | internal/devicepki/service.go:302-429 | over a whole run no revoked device ever holds an active certificate if and only if every transaction is orderly where it commits |
| `DeviceRevocation.RenewalOutrunsRevocation` | internal/devicepki/service.go:319-365 | a run in which a renewal commits after its device was revoked |
| `DeviceRevocation.RevocationAmid` | internal/devicepki/service.go:418-429 | once the certificates active at the start are revoked, an active one can only have been issued during the run |
| `PlanScheduler.Walk` | conformance/plan_scheduler.py:8-17 | collects exactly the non-empty client IDs found at any depth |
| `PlanScheduler.GetFirst` | conformance/plan_scheduler.py:8-17 | a lookup gives the value under the key, or nothing where the key is absent |
| `PlanScheduler.PlanResources` | conformance/plan_scheduler.py:6-26 | exactly the exclusive plans get the star alone; the others get exactly their alias and their clients |
| `PlanScheduler.AliasChoice` | conformance/plan_scheduler.py:24-25 | the alias is the configuration's, else the plan's, else its plan ID, else its ID |
| `PlanScheduler.FirstIndexIsOwn` | conformance/plan_scheduler.py:48-51 | among compatible plans, the first entry equal to the releasing plan's set is its own, so removal by equality removes it |
| `PlanScheduler.PlanGate.Admit` | conformance/plan_scheduler.py:38-45 | admission appends the plan and keeps the active plans compatible and within the limit |
| `PlanScheduler.PlanGate.Release` | conformance/plan_scheduler.py:46-51 | release removes exactly the plan's own entry |
| `PlanScheduler.SchedulerSafety` | conformance/plan_scheduler.py:29-51 | in every reachable state at most `jobs` plans run, an exclusive plan runs alone, and running plans share no client and no alias |
| `PlanScheduler.AdmittedIff` | conformance/plan_scheduler.py:29-45 | in every reachable state a waiting plan that looks is admitted if and only if fewer than `jobs` plans are active and it conflicts with no running one |
| `PlanScheduler.CancelLeavesOthers` | conformance/plan_scheduler.py:36-51 | a waiting plan can be cancelled and leaves the active list and the other plans as they are |
| `PlanScheduler.OnlyReleaseUnblocks` | conformance/plan_scheduler.py:38-51 | a blocked plan can become admissible only through another plan's release, so notifying on release loses no wake-up |
| `PlanScheduler.NeverStuck` | conformance/plan_scheduler.py:36-51 | with at least one job some plan can move until all have finished |
| `PlanScheduler.SchedulerProgress` | conformance/run-tests.py:890-894 | every run is finite, and a run that cannot continue has finished every plan and emptied the active list |
| `OrgReconcile.IndexBy` | cmd/clavexctl/iac.go:803-809 | the map holds the last item under each key |
| `OrgReconcile.DiffTable` | cmd/clavexctl/iac.go:619-742 | each table's loop appends exactly the changes its entries call for |
| `OrgReconcile.ComputeChanges` | cmd/clavexctl/iac.go:566-745 | the changes are those the desired entries call for against the live state, in order: exactly the items that are not live, or live otherwise and of a kind that is updated, each created exactly if nothing is live and it is no organisation-wide policy |
| `OrgReconcile.ApplyChanges` | cmd/clavexctl/iac.go:382-397 | every change is counted once as applied or failed, and the command succeeds exactly if none failed |
| `OrgReconcile.ReplanIsFailures` | cmd/clavexctl/iac.go:566-745 | after applying a plan, whichever requests failed, planning again yields exactly the failed changes, in order |
| `OrgReconcile.ApplyElsewhere` | cmd/clavexctl/iac.go:382-397 | applying a plan changes nothing the file does not name |
| `OrgReconcile.PlannedIff` | cmd/clavexctl/iac.go:566-745 | a change is planned if and only if it carries an entry of the file that is wanted there, and is of the right kind |
| `OrgReconcile.AppliedHolds` | cmd/clavexctl/iac.go:382-397 | after applying a plan without failure every policy of the organisation, feature flag, client and webhook of the file is live as the file has it, an authentication policy up to its ID, and existing roles, groups and identity providers are unchanged |
| `OrgReconcile.ConvergesIff` | cmd/clavexctl/iac.go:619-745 | when all requests succeed the second plan is empty if and only if each authentication policy carries the ID the server has or assigns |
| `OrgReconcile.ForeignIdNeverConverges` | cmd/clavexctl/iac.go:619-745 | a file that gives an authentication policy an ID the server neither has nor assigns has another plan after any number of applications |
| `OrgReconcile.SelfPlanEmptyIff` | cmd/clavexctl/iac.go:566-745 | a specification planned against itself calls for nothing exactly when updatable entries sharing a key are equal |
| `ConformancePage.RenderReviews` | conformance/manual_review.py:129-144 | the loop produces the specified section, escaped cell by cell, or raises exactly when an instance ID is malformed |
| `ConformancePage.TallyIsOccurrences` | conformance/manual_review.py:134-134 | each tally is the number of rows in that state |
| `ConformanceEscaping.SafeCellEscapes` | conformance/manual_review.py:130-131 | the six replacements in a row escape each character once |
| `ConformanceEscaping.SafeCellShows` | conformance/manual_review.py:130-131 | resolving the entities of an escaped cell gives the text back, with line breaks as spaces |
| `ConformancePage.RenderMd` | conformance/update-conformance-md.py:168-247 | the loops over results produce the specified page from its title to its stamp, or raise exactly when the review section does |
| `ConformanceReport.ParseConformanceMd` | conformance/update-badges-from-md.py:41-66 | the loop over lines is the fold of the line parser, and raises exactly when the fold does |
| `ConformanceReport.CountIsOccurrences` | conformance/update-conformance-md.py:208-212 | a printed count is the number of modules with that result |
| `ConformanceReport.RunBecomesDash` | conformance/update-conformance-md.py:215-215 | in a slug a run of other characters becomes one dash |
| `ConformanceReport.ParsedSound` | conformance/update-badges-from-md.py:41-66 | whatever the document says, counts read from it are non-negative, passed and skipped do not exceed the total, and the alias may have a badge |
| `ConformanceRoundTrip.RowCells` | conformance/update-badges-from-md.py:46-47 | splitting a printed row gives its cells back |
| `ConformanceRoundTrip.RowParses` | conformance/update-badges-from-md.py:48-65 | a printed summary row is parsed into that plan's counts under its slug, or skipped if its slug is not badged, and never raises |
| `ConformanceRoundTrip.TitleReadIff` | conformance/update-badges-from-md.py:52-56 | under a title every plan's alias is read back if and only if no link to a badged alias opens in the title; brackets as such do no harm |
| `ConformanceRoundTrip.LinkTitleMisread` | conformance/update-badges-from-md.py:52-56 | a title that is itself such a link is read as that link, whatever the plan |
| `ConformanceDocument.ReportRoundTrip` | conformance/update-conformance-md.py:200-236 | parsing the rendered document recovers exactly the counts of every badged plan, whatever text surrounds the tables that the parser passes over line by line |
| `ConformancePublished.SafeCellPlain` | conformance/manual_review.py:130-131 | an escaped cell holds no bar and no line break, whatever its text |
| `ConformancePublished.ReviewsInert` | conformance/manual_review.py:129-144 | the review section disturbs the parser for no list of rows, whatever reviewers and notes say |
| `ConformancePublished.PublishedRoundTrip` | conformance/update-conformance-md.py:168-247 | parsing the published page, with its actual wording and its review section, recovers exactly the counts of every badged plan |
| `ConformancePublished.UpdateReport` | conformance/update-conformance-md.py:270-288 | writing the page and reading it back never raises and hands the badges the counts of the results |
| `ConformanceDocument.SummaryRecovers` | conformance/update-badges-from-md.py:41-66 | with distinct slugs a plan is recovered exactly if it is badged, with its own passed, skipped and total counts |
| `ConformanceDocument.AliasesRecovered` | conformance/update-badges-from-md.py:41-66 | distinct aliases made of slug characters are recovered under their own names |
| `ConformanceDocument.BadgeMatchesTable` | conformance/update-badges-from-md.py:69-86 | a badge begins with the rate printed in the table and adds to it only when modules were skipped |
| `AuditDispatcher.EventConservation` | internal/audit/dispatcher.go:105-169 | in every reachable state published events are dropped, queued, in flight or done, exactly once; the queue fits its buffer and is first in, first out; every delivery begun is pending or has its one outcome |
| `AuditDispatcher.EverySinkServed` | internal/audit/dispatcher.go:140-169 | over every run, deliveries of an event to a sink are begun exactly as often as the event was taken, once for each time the sink matches; when Stop returns each has its outcome, and after Start all accepted events were taken |
| `AuditDispatcher.DropsOnlyFull` | internal/audit/dispatcher.go:103-114 | an event is dropped only while 2048 are waiting, and otherwise queued |
| `AuditDispatcher.StopDrainsIff` | internal/audit/dispatcher.go:126-138 | when Stop returns every begun delivery has its outcome, and every accepted event was fanned out if and only if the dispatcher was started or nothing was accepted |
| `AuditDispatcher.UnstartedStopKeepsQueue` | internal/audit/dispatcher.go:126-131 | a run in which Stop returns with an accepted event still queued |
| `AuditDispatcher.PanicsIff` | internal/audit/dispatcher.go:105-131 | a run panics if and only if some Stop or Publish comes after an earlier Stop |
| `AuditDispatcher.StopTwicePanics` | internal/audit/dispatcher.go:126-131 | a second Stop panics, and so does publishing after Stop |
| `AuditDispatcher.WorkerProgress` | internal/audit/dispatcher.go:133-169 | whichever sinks match, every step of a worker uses up exactly one of the steps ahead |
| `AuditDispatcher.StopEnds` | internal/audit/dispatcher.go:126-138 | whichever sinks match, after the close every run of the workers is bounded, and one that cannot go on is one in which Stop returns |
| `AuditDispatcher.DeliverWithRetry` | internal/audit/dispatcher.go:171-212 | exactly one outcome is recorded, after at most three sends; it is a success exactly if the last send succeeded; no send exactly if the sink could not be built; back-off grows with the square of the attempt; cancellation is recorded as failure |
| `DeviceLogin.PollForToken` | cmd/clavexctl/login.go:179-248 | each poll is preceded by the prescribed wait, which begins within the code's lifetime; the first wait is the one requested or five seconds, each slow_down adds five; the outcome is that of the first decisive reply, cancellation or expiry, whichever comes first |
| `DeviceLogin.WaitsNeverShrink` | cmd/clavexctl/login.go:230-233 | the wait before a poll never gets shorter |
| `DeviceLogin.WaitedAtLeast` | cmd/clavexctl/login.go:187-233 | k requests to slow down cost at least k i + 5 k (k - 1) / 2 seconds, and n polls at least n i |
| `DeviceLogin.PollBound` | cmd/clavexctl/login.go:187-204 | there are at most lifetime / interval + 1 polls, and the slow-downs before the last one fit the lifetime |
| `DeviceLogin.Overshoot` | cmd/clavexctl/login.go:187-209 | all polls are made within the lifetime if and only if the last wait still fits it, and the last poll is late by no more than that wait |
| `DeviceLogin.EarlierInTime` | cmd/clavexctl/login.go:187-209 | every poll but the last is over within the lifetime |
| `DeviceLogin.LatePoll` | cmd/clavexctl/login.go:195-209 | the loop polls once for a code that lives one second, five seconds after it began |
| `ManualReview.EvidenceSnapshot` | conformance/manual_review.py:44-54 | the loop collects and sorts placeholders and image digests, or fails exactly when an image is unreadable |
| `ManualReview.SortedUnique` | conformance/manual_review.py:44-54 | a multiset of evidence has one sorted order |
| `ManualReview.SnapshotOrderIndependent` | conformance/manual_review.py:44-54 | a snapshot does not depend on the order in which the suite lists its entries |
| `ManualReview.LatestIsLast` | conformance/manual_review.py:102-106 | the search from the end finds the matching record that no matching record follows |
| `ManualReview.ApprovalTiedToEvidence` | conformance/manual_review.py:70-106 | over every registry, an instance reads as approved exactly if its images are readable and its latest decision approves the evidence it has now, and then it has an image, no empty placeholder, a stopped or waiting status and neither a FAILED or SKIPPED result nor a SKIPPED status |
| `ManualReview.RecordedIff` | conformance/manual_review.py:70-99 | a review is recorded, as it was made, exactly if it is signed and noted, its images are readable, its instance is named and stopped or complete and waiting, and an approval has complete evidence and no failed or skipped verdict |
| `ManualReview.SnapshotIdentifies` | conformance/manual_review.py:44-54 | two snapshots agree only if module, plan and verdicts do and the same images, by ID and digest, and placeholders are there; with distinct image IDs also if they do |
| `ManualReview.ApprovedAsReviewed` | conformance/manual_review.py:70-106 | an instance that reads as approved was approved, with a reviewer and a note, on the verdicts, images and placeholders it has now |
| `ManualReview.UnreadableUnverified` | conformance/manual_review.py:102-122 | a reviewed instance is unverified exactly if one of its images cannot be read |
| `ManualReview.StateOrderIndependent` | conformance/manual_review.py:102-106 | the state read does not depend on the order of the entries |

## Left out

- RSA keys: two distinct primes are modelled; multi-prime keys and key generation are not.
- The report endpoint's trimming of its inputs and its required fields.
- The federation entry point that takes an inline trust chain instead of searching for one.
- Entity IDs in a federation are compared as strings; `Honest` asks responders to answer under the ID they were asked by.
- Rotation rows always carry both mount names, as StartRotation writes them; rows with missing names are not modelled.
- Changing an organisation's mount through the configuration endpoint, outside a rotation.
- Vault's own revocation after a certificate is revoked, which is best effort and changes no row.
- X.509 parsing, key usage and the verification of presented certificates against the organisation's CA.
- Registration of devices and creation of secrets are steps of the enrollment machine, not services with error paths.
- Python's `str` of an alias that is not a string is a parameter.
- OrgReconcile.ReplanIsFailures: the server's handling of each request is the stated one (it keeps what it is sent, except an authentication policy's ID); validation by the server shows up only as a failed request.
- ConformanceDocument.ReportRoundTrip: titles in which a link to a badged alias opens are excluded, as they are misread (`TitleReadIff`), and so are cells of the result tables with a bar or a line break, which the printer does not escape.
- ConformancePublished.PublishedRoundTrip: the same, and links of review rows are taken to hold neither bar nor line break, as they are the links of the results.
- `str.lower` on letters outside ASCII.
- Python's universal newlines and the underscores its `int` accepts.
- The colours of the badges of single plans and the overall badge; the page's own badge compares exact fractions where the code compares floating-point numbers.
- Live-stream subscribers of the dispatcher, which receive events without any guarantee of delivery.
- The dispatcher's timeouts for loading sinks and for one send, which appear as failures.
- ManualReview.EvidenceSnapshot: decoding of image data and SHA-256 are one uninterpreted digest.
- The syntax check of suite URLs, which raises; only the removal of trailing slashes is modelled.
- HTTP clients, sinks, identity providers, the front end, and the wiring of commands: input and output without an invariant of their own.
