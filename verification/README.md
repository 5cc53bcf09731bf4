# LegacyLock: a verified model

LegacyLock keeps a vault whose key its owner splits into shares for
beneficiaries, and releases the vault to them if the owner triggers it or stops
checking in. This project models the three parts on which that promise rests,
and two smaller pieces of state:

- **Key splitting** (`Field`, `Polynomial`, `Crc`, `Base64`, `Shares`,
  `Mistyped`, `Shamir`): GF(256) from its tables, k-of-n splitting and Lagrange
  reconstruction of a 32-byte key, and the printed share with its CRC-32.
- **Vault, switch and recovery evidence** (`Tables`, `Ceremonies`, `Readiness`,
  `Beneficiaries`, `Heartbeat`, `Requests`): the rows of one vault and every
  transaction that changes them. `RowInvariants`, `Evidence`, `RecoveryRuns`,
  `ReleaseRuns` and `Recoverable` hold what is true of single requests, of
  whole runs, and of the shares behind a vault that is ready for release.
- **Outbox, sessions and the whole system** (`Delivery`, `Sessions`, `Release`,
  `Worlds`): delivery jobs under leased claims, refresh-token families and
  sign-in links, and all committed transactions together as one state machine.
  `BoxInvariants`, `OutboxRuns`, `BoxLinks`, `WorldInvariants`, `WorldRuns`,
  `Guarantees`, `Attempts` and `Warned` hold its invariants and what follows
  from them; `Rehearsal` has the runs that show they are not about nothing.
- **What each operation is granted for and does** (`ShareSets`, `CeremonyRules`,
  `PeopleRules`, `ReadyRules`, `SwitchRules`, `DeliveryRules`, `AnnounceRules`,
  `SignRules`, `KeyRules`, `Refusals`), said of the state before and after
  without the functions that compute it; `Provenance` says what that makes of
  whole runs, and `Vectors` checks the constants against published values.
- **The routes in place** (`Transactions`, `CeremonyRoutes`,
  `BeneficiaryRoutes`, `HeartbeatRoutes`, `OutboxWorker`, `SessionStore`,
  `Server`): methods that change a database session's rows step by step and
  commit or roll back, each proved to do what the functions above say;
  `Server.Serve` and `Server.ServeSession` join them: a served request is one
  step of the system.
- **The rate limiter** (`RateLimiter`) and **the browser's key holder**
  (`KeyLock`), each as a function on values, theorems over its runs, and a class
  that updates its fields in place.

`Wrappers` and `Collections` hold what several of these share.

## Reading the model

- One vault is modelled. Every query of the code filters by vault or by a key
  that belongs to one, so other vaults' rows stay apart; what they share (the
  worker's batches, the e-mail cooldown) appears as arbitrary choices.
- A transaction that commits is one step; one that raises leaves everything as
  it was. The vault's status row is the lock that makes each route atomic.
- `deliver_one` is two steps with anything between them. The part before the
  provider is called is taken as one atomic step, although the code reads the
  job there without a row lock; the write-back does lock it.
- Time is a natural number (real in the limiter, an integer of milliseconds in
  the browser), read once a request except in the limiter, whose three readings
  are kept apart. Tokens and keys of new rows are fresh numbers. Random
  coefficients, jitter, provider answers, holds and settings are inputs.
- SHA-256 is injective: an assignment signature is modelled by what it covers,
  so a change that is exactly undone makes an old drill current again.
- `Outbox.issued`, `Outbox.log` and `Refresh.parent` are history; no operation
  reads them.

## What the code does not give

- A share's checksum does not catch every change of four bytes in a row: adding
  61 D8 F4 EE to bytes 50 to 53 turns any share into another that parses
  (`Shares.CorruptionAccepted`). `Shares.CorruptionRejected` says that nothing
  else of that length gets through. Of the printed characters, a
  change of six neighbours can (`Mistyped.MistypedAccepted`), of four it never
  does (`Mistyped.MistypedRejected`).
- The attempt counter has no bound: `OutboxRuns.AttemptsUnbounded`, and
  `Rehearsal.AttemptsReachable` in whole runs of the system. It passes
  eight only if a claim lapsed or a hold sent one back, by as many as did:
  `Attempts.AttemptsExact`, `Attempts.AttemptsBeyondLosses`. Results written
  back are at most 8, of which 7 retries.
- `cancel` takes any ceremony that is not finalized, cancelled and superseded
  ones too, and on an unwrapped vault then reports the setup as uninitialized
  even if another draft is live: `ReleaseRuns.CancelTruthful` says exactly when
  the report is right, `ReleaseRuns.CancelMisreports` is a run where it is not.
- The life cycle in `backend/services/lifecycle.py` has no edge from active to
  triggered; `ReleaseRuns.LifeCycle` says, by what is known before the request,
  exactly which requests take one.
- A closed 60-second window can hold more than the limit when the clock moves
  between the limiter's readings: `RateLimiter.WindowLimit` gives the length
  for which the limit holds; `RateLimiter.MinuteTight` and `RateLimiter.HourTight`
  show that no longer one will do. An hourly limit above sixty times the limit a
  minute governs nothing within sixty minutes less their drifts:
  `RateLimiter.MinutesLimit`, `RateLimiter.MinutesTight`. With a maximum of zero
  keys one key is still stored at rest.
- The browser's epoch counts locks, not adoptions: an operation can return
  while another key is held (`KeyLock.SwappedKey`), exactly if another was
  adopted last meanwhile (`KeyLock.ReturnsUnderHeldKey`). A rewrap compares keys
  afterwards and would notice; encryption does not.
- A key adopted while the page is hidden starts the five minutes anew
  (`KeyLock.AdoptionExtends`); `KeyLock.KeyGivenExactly` has the exact rule.
- Beneficiaries may still be enrolled, changed, invited and removed, and drills
  reported, after a release; what is fixed is what `ReleaseRuns.Fixed` lists.

## Model

| member | source | states |
|---|---|---|
| Field.InitTables | frontend/lib/shamir.ts:27-35 | the table-building loop over generator 3 leaves exactly the exponential table of powers and the logarithm table that inverts it, doubled past 255 |
| Field.PowersCover | frontend/lib/shamir.ts:27-35 | every non-zero byte is a power of the generator, so every logarithm is defined |
| Field.PowersDistinct | frontend/lib/shamir.ts:27-35 | the 255 powers are distinct, so the logarithm is unambiguous |
| Field.GfMulIsProduct | frontend/lib/shamir.ts:24-44 | table multiplication is the polynomial product modulo x^8+x^4+x^3+x+1 of section 4.2 of FIPS 197, on all bytes |
| Field.MulCommutes | frontend/lib/shamir.ts:41-44 | multiplication commutes |
| Field.MulAssociates | frontend/lib/shamir.ts:41-44 | multiplication is associative |
| Field.MulDistributes | frontend/lib/shamir.ts:37-44 | multiplication distributes over exclusive or |
| Field.MulOne | frontend/lib/shamir.ts:41-44 | 1 is neutral |
| Field.MulNonzero | frontend/lib/shamir.ts:41-44 | a product is zero only if a factor is |
| Field.DivInverts | frontend/lib/shamir.ts:46-50 | a quotient by a non-zero byte times that byte is the dividend |
| Field.PowStep | frontend/lib/shamir.ts:52-56 | the power function is the e-fold product for every e from 0 on |
| Polynomial.EvalSnoc | frontend/lib/shamir.ts:192-197 | adding a coefficient c times x^m, as the inner loop does, evaluates the longer polynomial |
| Polynomial.RootBound | frontend/lib/shamir.ts:192-197 | a polynomial with as many distinct roots as coefficients is zero |
| Polynomial.Unique | frontend/lib/shamir.ts:192-197 | two polynomials of at most n coefficients that agree on n distinct points are equal |
| Polynomial.LagrangeRecovers | frontend/lib/shamir.ts:252-262 | interpolation at zero through as many points as coefficients gives the constant coefficient |
| Polynomial.InterpolationExists | frontend/lib/shamir.ts:186-198 | through any points at distinct places goes one polynomial of that many coefficients, and only one |
| Crc.InitCrc | frontend/lib/shamir.ts:72-79 | the nested loops fill the table with eight bitwise steps of each byte |
| Crc.ComputeCrc32 | frontend/lib/shamir.ts:80-84 | the table-driven loop computes the CRC function |
| Crc.TableIsExact | frontend/lib/shamir.ts:72-84 | the table-driven CRC equals the bit-by-bit reflected CRC of section 8 of RFC 1952 on every byte string |
| Crc.BurstDetected | frontend/lib/shamir.ts:80-84 | strings that differ only inside one window of at most four bytes have different CRCs |
| Crc.CrcDifference | frontend/lib/shamir.ts:80-84 | how the CRC differs between strings that end differently depends on the difference of the ends alone |
| Base64.B64Encode | frontend/lib/crypto.ts:37-46 | the chunked loop encodes the whole byte string as base64 (section 4 of RFC 4648) |
| Base64.B64Decode | frontend/lib/crypto.ts:48-53 | the loop over character codes returns the decoded bytes, or fails where atob does |
| Base64.DecodeInverts | frontend/lib/crypto.ts:37-53 | decoding undoes encoding on every byte string |
| Base64.ComputeUrlEncode | frontend/lib/shamir.ts:86-89 | the URL-safe form with its padding stripped |
| Base64.ComputeUrlDecode | frontend/lib/shamir.ts:90-94 | the padding loop restores what the decoder needs |
| Base64.UrlDecodeInverts | frontend/lib/shamir.ts:86-94 | URL-safe decoding undoes encoding on every byte string of any length (section 5 of RFC 4648) |
| Shares.HexRoundTrip | frontend/lib/shamir.ts:101-107 | printing a parsed generation gives its lower-case form back |
| Shares.ParsedLength | frontend/lib/shamir.ts:120-152 | every share that parses holds 32 bytes |
| Shares.ParseInvertsPrint | frontend/lib/shamir.ts:120-152 | parsing a printed envelope returns exactly its generation, k, n, index and bytes |
| Shares.CorruptionRejected | frontend/lib/shamir.ts:135-140 | changing up to four consecutive bytes anywhere in the 56 of a share body that parses, checksum included, makes it fail to parse, with exactly one exception: 61 D8 F4 EE added to bytes 50 to 53 |
| Shares.CorruptionAccepted | frontend/lib/shamir.ts:135-152 | every share that parses has that exception: the changed body parses as a share of the same index with other bytes |
| Shares.PrintedParses | frontend/lib/shamir.ts:120-152 | parsing what is printed of any bytes reads exactly those bytes, so the two results above are about printed shares |
| Mistyped.MistypedRejected | frontend/lib/shamir.ts:120-152 | whatever characters replace up to four neighbouring ones in the body of a printed share, spaces included, it parses if and only if it still decodes to the same bytes: mistyping never yields another share |
| Mistyped.MistypedAccepted | frontend/lib/shamir.ts:120-152 | every printed share has another that differs from it in characters 66 to 71 of the body alone and parses to the same index with another value |
| ShareSets.ParsesExactly | frontend/lib/shamir.ts:126-152 | a body parses if and only if it is what is printed for its own fields, with a policy k-of-n and an index within it |
| ShareSets.PayloadErrors | frontend/lib/shamir.ts:126-142 | which error a body of 56 bytes or another length gets, in the order of the checks |
| ShareSets.BodyErrors | frontend/lib/shamir.ts:120-131 | a body is read as it decodes, and refused for its encoding exactly if it does not |
| ShareSets.OldFormParses | frontend/lib/shamir.ts:153-173 | shares of the older form parse to the index and the bytes they hold |
| ShareSets.SpaceIgnored | frontend/lib/shamir.ts:120-122 | blanks and line breaks around a share change nothing |
| Vectors.FieldProducts | frontend/lib/shamir.ts:24-44 | the products of section 4.2 of FIPS 197 |
| Vectors.LetterCrc | frontend/lib/shamir.ts:67-84 | the published CRC-32 of one letter |
| Vectors.Alphabet | frontend/lib/shamir.ts:86-94 | the alphabets of tables 1 and 2 of RFC 4648 |
| Vectors.EncodedWord | frontend/lib/crypto.ts:37-46 | a test vector of section 10 of RFC 4648 |
| Vectors.PrintedPrefix | frontend/lib/shamir.ts:199-214 | every printed share starts with LLS1- |
| Shamir.SplitIsEval | frontend/lib/shamir.ts:192-197 | the inner loop evaluates the polynomial whose constant coefficient is the secret byte |
| Shamir.SplitThenReconstruct | frontend/lib/shamir.ts:175-266 | for every key, 1 <= k <= n <= 255, coefficients and any k shares in any order, reconstruction returns exactly the key |
| ShareSets.SplitsExactly | frontend/lib/shamir.ts:175-189 | exactly which keys, policies and generations can be split, and that the shares are n under the generation given or drawn |
| ShareSets.SplitPrints | frontend/lib/shamir.ts:190-216 | every share a split returns is printed under its generation |
| ShareSets.SplitShares | frontend/lib/shamir.ts:190-216 | the i-th share parses to this set, this policy, the index i and the values there of the polynomials with the key as constant terms |
| ShareSets.ReconstructsExactly | frontend/lib/shamir.ts:219-248 | reconstruction succeeds if and only if there are k >= 1 shares, all parse, all or none are of the old form (none if a generation is expected), the others are of one generation (the expected one), one total and this threshold, and no two have one index |
| ShareSets.ReconstructsConstant | frontend/lib/shamir.ts:249-265 | its answer is, byte by byte, the constant coefficient of every polynomial with k coefficients through the shares |
| ShareSets.MixedRefused | frontend/lib/shamir.ts:234-239 | shares printed by two splits under different generations, or not of the expected one, are always refused |
| ShareSets.FirstRejected | frontend/lib/shamir.ts:228 | the first share that does not parse decides the error |
| ShareSets.ErrorExactly | frontend/lib/shamir.ts:225-228 | the errors about the threshold, the number and the shares, each exactly when |
| ShareSets.SetErrorExactly | frontend/lib/shamir.ts:229-248 | the errors about the set, each exactly when |
| Shamir.FitIsUnique | frontend/lib/shamir.ts:186-198 | for any k-1 points and any secret byte one choice of coefficients fits, and only one |
| Shamir.FewerSharesFitEveryKey | frontend/lib/shamir.ts:186-198 | k-1 shares are consistent with every key: each key is split into them by exactly one choice of coefficients |
| Shamir.ComputeShareBytes | frontend/lib/shamir.ts:190-198 | the two inner loops compute the share bytes function |
| Shamir.PrintPayload | frontend/lib/shamir.ts:199-211 | writing the 56-byte payload field by field prints the envelope |
| Shamir.SplitVMK | frontend/lib/shamir.ts:175-216 | the splitting routine returns the split function, errors included |
| Shamir.InterpolateByte | frontend/lib/shamir.ts:250-263 | the double loop computes the Lagrange sum for one byte |
| Shamir.ComputeInterpolation | frontend/lib/shamir.ts:249-265 | all 32 bytes are interpolated |
| Shamir.ReconstructVMK | frontend/lib/shamir.ts:219-266 | the reconstruction routine returns the reconstruction function, each error in the code's order |
| RowInvariants.DraftKeeps | backend/services/ceremony.py:14-71 | a new draft keeps the invariant: at most one draft, one finalized row, distinct generations, pending material only on an unwrapped vault's draft |
| RowInvariants.FinalizeKeeps | backend/services/ceremony.py:74-117 | finalizing keeps it: the finalized row's k, n and generation are the vault's, and every assigned index still fits |
| RowInvariants.CancelKeeps | backend/services/ceremony.py:120-141 | cancelling keeps it |
| RowInvariants.RewrapKeeps | backend/routers/vault.py:508-522 | a new passphrase keeps it |
| RowInvariants.DrillKeeps | backend/routers/readiness.py:31-58 | recording a drill keeps it |
| RowInvariants.AddKeeps | backend/routers/beneficiaries.py:113-165 | enrolment keeps indices distinct and in 1..n and addresses distinct |
| RowInvariants.InviteKeeps | backend/routers/beneficiaries.py:200-250 | inviting keeps the invariant |
| RowInvariants.UpdateKeeps | backend/routers/beneficiaries.py:253-314 | any combination of changes keeps indices and addresses distinct and in range |
| RowInvariants.AssignKeeps | backend/routers/beneficiaries.py:321-365 | assignment keeps indices distinct and in 1..n, bound to the current generation |
| RowInvariants.DeleteKeeps | backend/routers/beneficiaries.py:368-385 | deletion keeps the invariant |
| RowInvariants.AcceptKeeps | backend/routers/access.py:140-221 | acceptance and expiry keep the invariant |
| RowInvariants.AcceptExact | backend/routers/access.py:140-214 | an invitation is accepted exactly by its current token, while it stands as sent, within seven days |
| RowInvariants.SaveKeeps | backend/routers/heartbeat.py:95-121 | settings keep it: armed implies a recorded check-in, grace implies armed and started at the deadline |
| RowInvariants.CheckInKeeps | backend/routers/heartbeat.py:124-153 | a check-in keeps it |
| RowInvariants.GraceKeeps | backend/services/trigger_service.py:108-123 | entering grace keeps it |
| RowInvariants.TriggerKeeps | backend/services/trigger_service.py:50-105 | triggering keeps it |
| RowInvariants.CheckKeeps | backend/services/heartbeat_checker.py:56-82 | a round of the checker keeps it |
| RowInvariants.ReachableValid | backend/services/ceremony.py:14-141 | the invariant holds after every run of requests from a fresh vault |
| Evidence.OnlyRewrapReplacesKey | backend/services/ceremony.py:103-106 | a stored wrapped key is replaced by a rewrap and by nothing else, so finalizing never overwrites one |
| Evidence.FinalizeUnready | backend/services/ceremony.py:107-114 | finalizing leaves nobody holding a current share and the vault not ready |
| Evidence.RewrapStales | backend/routers/vault.py:170-176 | a rewrap makes every finalized ceremony older than the material |
| Evidence.StaleUnready | backend/services/recovery_readiness.py:50-60 | with only such ceremonies a vault is not ready |
| Evidence.StaleKept | backend/services/recovery_readiness.py:40-60 | nothing but a new finalization ends that |
| Evidence.DrillOrigin | backend/routers/readiness.py:36-55 | every recorded drill was there before or was accepted just now against the evidence of that moment |
| RecoveryRuns.ReadyAfterFinalize | backend/services/recovery_readiness.py:82-96 | after the last finalization, ready again means: everyone the quorum counts was, by an accepted request since, made a holder under the final generation, and a drill was reported since whose binding, revision and generation equal the final ones |
| RecoveryRuns.ReadyAfterRewrap | backend/services/recovery_readiness.py:40-96 | after a rewrap, ready again means a later finalization, and after the last such reassignment that took effect and such a drill, over every run |
| RecoveryRuns.ReadyFromFresh | backend/services/recovery_readiness.py:82-96 | the same from registration on |
| Recoverable.ReadyCeremony | backend/services/recovery_readiness.py:30-37 | a ready vault's only finalized ceremony has its policy and generation |
| Recoverable.EligibleInRange | backend/services/recovery_readiness.py:13-27 | a ready vault has at least k distinct eligible indices, all in 1..n |
| Recoverable.QuorumExists | backend/services/recovery_readiness.py:82-96 | a ready vault has k distinct accepted people who hold current shares |
| Recoverable.ReadyMeansRecoverable | backend/services/recovery_readiness.py:82-96 | in a ready vault the shares any quorum holds, as the ceremony split them, reconstruct the key |
| ReadyRules.ReadyExactly | backend/services/recovery_readiness.py:82-96 | in every reachable state a vault is ready if and only if as many distinct accepted people as the threshold hold shares of the generation in force, and its finalized ceremony is of the revision in force with a drill of that revision and generation bound to everybody as they are now |
| ReadyRules.DrillExactly | backend/routers/readiness.py:31-58 | a drill is accepted if and only if it was made against what stands now, and then only goes on record for the ceremony in force |
| ReadyRules.DrillMakesReady | backend/services/recovery_readiness.py:40-96 | whoever else is enrolled, with enough such holders an accepted drill makes the vault ready |
| CeremonyRules.DraftExactly | backend/services/ceremony.py:14-71 | exactly which drafts are taken, and what each changes |
| CeremonyRules.FinalizeExactly | backend/services/ceremony.py:74-102 | exactly which ceremonies can be made final |
| CeremonyRules.FinalizeEffect | backend/services/ceremony.py:103-117 | whose policy, generation and first wrapped key are then in force, at the next revision, with everybody unassigned |
| CeremonyRules.CancelExactly | backend/services/ceremony.py:120-141 | exactly which can be cancelled, and what that changes |
| CeremonyRules.RewrapExactly | backend/routers/vault.py:508-522 | exactly when a new passphrase is taken, and that it replaces the wrapped key alone |
| PeopleRules.EnrolExactly | backend/routers/beneficiaries.py:113-165 | exactly who can be enrolled, and as what |
| PeopleRules.InviteExactly | backend/routers/beneficiaries.py:200-239 | exactly who can be invited, and that the new token replaces the old |
| PeopleRules.UpdateExactly | backend/routers/beneficiaries.py:253-314 | exactly which changes are taken, and that a new address takes the invitation back |
| PeopleRules.AssignExactly | backend/routers/beneficiaries.py:321-365 | exactly which indices can be given, and that this index is, bound to the set in force |
| PeopleRules.DeleteExactly | backend/routers/beneficiaries.py:368-385 | one person goes, the others stay |
| PeopleRules.AcceptExactly | backend/routers/access.py:140-214 | what presenting a token does: acceptance, expiry after seven days, or nothing |
| Refusals.RefusalsExactly | backend/routers/beneficiaries.py:113-385 | which refused request is answered as not found, invalid or gone, all others being conflicts, and that none changes anything |
| Refusals.RenewalRefusals | backend/services/sessions.py:65-116 | a token spent within ten seconds meets a conflict, every other that is not exchanged is unauthorized |
| Provenance.MaterialInForce | backend/services/ceremony.py:103-117 | in every run the policy and generation are those of the draft made final last, the wrapped key that of the last new passphrase |
| Provenance.ShareInForce | backend/routers/beneficiaries.py:321-365 | in every run the index somebody has is the one they were last given |
| Provenance.SwitchInForce | backend/routers/heartbeat.py:95-153 | in every run interval, grace, last check-in and arming are those of the last accepted requests that set them |
| SwitchRules.CheckExactly | backend/services/heartbeat_checker.py:19-76 | a check acts if and only if there is no hold, the vault is armed, ready and not released, and its check-in due: past interval and grace it releases, before it leaves it in grace |
| SwitchRules.CheckStates | backend/services/heartbeat_checker.py:56-76 | said of the states: when a check releases, and when the vault is in grace after one and under which episode |
| SwitchRules.CheckInExactly | backend/routers/heartbeat.py:124-153 | exactly when a check-in is taken, and that it arms, ends grace and restarts the interval |
| SwitchRules.SettingsExactly | backend/routers/heartbeat.py:95-121 | exactly which settings are taken, that they are stored as given, and that arming counts as the first check-in |
| SwitchRules.GraceExactly | backend/services/trigger_service.py:108-123 | exactly when grace starts by request |
| SwitchRules.TriggerExactly | backend/services/trigger_service.py:50-105 | exactly when a trigger releases, is refused or does nothing |
| ReleaseRuns.ReleaseNeeds | backend/services/trigger_service.py:50-56 | a release needs a trigger or a check, no hold, and readiness at that moment |
| ReleaseRuns.AutomaticReleaseTime | backend/services/heartbeat_checker.py:19-71 | an automatic release comes at the last check-in plus interval plus grace or later, on an armed vault |
| ReleaseRuns.AutomaticReleaseFromGrace | backend/services/heartbeat_checker.py:64-71 | automatic release leaves from grace, entered before or in the same transaction under a new episode |
| ReleaseRuns.NoReleaseBeforeDeadline | backend/services/heartbeat_checker.py:56-76 | in every run with an ordered clock, automatic release comes interval and grace after every earlier check-in or later |
| ReleaseRuns.ReleasedForever | backend/routers/vault.py:179-187 | state, wrapped material, revision, policy, generation and settings of a released vault never change again |
| ReleaseRuns.EpisodeStep | backend/services/heartbeat_checker.py:64-66 | grace is entered only under the next episode, and the episode changes no other way |
| ReleaseRuns.LifeCycle | backend/services/lifecycle.py:36-40 | a request follows the drawn life cycle if and only if it is not, on an active and ready vault, the owner's trigger without a hold, or a check without a hold at or past interval plus grace |
| ReleaseRuns.LateCheckEntersGrace | backend/services/heartbeat_checker.py:63-71 | such a check goes through grace in its one transaction: a new episode, started at the deadline, and released |
| ReleaseRuns.CancelTruthful | backend/services/ceremony.py:134-138 | after a cancel the setup status is right if and only if the vault is wrapped, the row was the draft, or no draft was there |
| ReleaseRuns.CancelMisreports | backend/services/ceremony.py:134-138 | a run in which it is wrong: two drafts, then a cancel of the first |
| BoxInvariants.ClaimKeeps | backend/services/outbox.py:148-164 | a claim keeps tokens, attempts and results consistent |
| BoxInvariants.PreSendKeeps | backend/services/outbox.py:172-224 | every outcome of the first phase of a send keeps them |
| BoxInvariants.PostSendKeeps | backend/services/outbox.py:230-267 | every outcome of the write-back keeps them |
| BoxInvariants.CancelKeeps | backend/services/outbox.py:109-126 | cancelling any set of live jobs keeps them |
| BoxInvariants.CleanKeeps | backend/services/outbox.py:296-299 | cleaning a job up keeps them |
| BoxInvariants.AnnounceKeeps | backend/services/outbox.py:73-106 | an event with its jobs keeps them |
| BoxInvariants.WorkKeeps | backend/services/outbox.py:129-300 | every transaction of the worker keeps them |
| OutboxRuns.WorkGrows | backend/services/outbox.py:129-300 | accepted, dead and cancelled are absorbing, identities never change, history is only appended to |
| OutboxRuns.ResultByHolder | backend/services/outbox.py:236-267 | a result is written back only by the token that holds the job then, one result at a time |
| OutboxRuns.ResultsBounded | backend/services/outbox.py:249-267 | at most 8 results and 7 retries for a job; attempts is the number of tokens issued; a token is set exactly while claimed; accepted and cancelled jobs keep no payload |
| OutboxRuns.SendsBounded | backend/services/outbox.py:223-224 | a job has no more send rows than attempts |
| OutboxRuns.AttemptsUnbounded | backend/services/outbox.py:129-158 | lapsed leases alone drive the attempt counter past every bound |
| Attempts.AttemptsExact | backend/services/outbox.py:129-267 | after every run of the system a job's attempts are its results written back, its claims that lapsed, were sent back by a hold or were dropped (at most one, which settles it), and the claim now out |
| Attempts.AttemptsBeyondLosses | backend/services/outbox.py:129-267 | beyond the claims lost to a lapse or a hold there are at most eight attempts, in every run |
| Attempts.NinthNeedsLoss | backend/services/outbox.py:129-267 | more than eight attempts mean that at some step of the run a claim of the job lapsed or was sent back by a hold |
| Attempts.LossesMean | backend/services/outbox.py:147-192 | a claim lapses only by being claimed again when its lease has run out, and is sent back only by the first phase of a send under a release hold |
| OutboxRuns.BatchClaimed | backend/services/outbox.py:147-166 | a batch is claimed job by job under distinct tokens for ninety seconds, and no other job changes |
| OutboxRuns.RetryDelayBounds | backend/services/outbox.py:262-266 | a retry waits as long as the provider asks, at least a minute, doubling up to an hour and the jitter |
| OutboxRuns.OnceAfterWork | backend/services/outbox.py:236-267 | no claim ever has two results written back |
| DeliveryRules.AnswerExactly | backend/services/outbox.py:225-267 | an answer that comes while its token holds the job: accepted with the payload gone, dead if it cannot be retried or after eight attempts, waiting otherwise; one that comes later only completes its send |
| DeliveryRules.AcceptedWasAnswered | backend/services/outbox.py:249-256 | in every run a job is accepted only because an accepting answer was written back under the claim it was out under |
| DeliveryRules.StartExactly | backend/services/outbox.py:169-224 | the first phase of a send: put off by a hold, given up past 23 hours, dropped as obsolete, given up as unreadable, or begun, in this order |
| DeliveryRules.BatchExactly | backend/services/outbox.py:129-147 | a pass takes ripe, unlocked jobs that no hold keeps back, at most twenty, each once, and leaves none that was due before one it takes |
| DeliveryRules.ClaimExactly | backend/services/outbox.py:148-166 | what claiming makes of each job |
| DeliveryRules.ExpirableExactly | backend/services/outbox.py:272-296 | which jobs are cleaned up |
| DeliveryRules.CleanExactly | backend/services/outbox.py:296-300 | what cleaning up leaves of a job |
| DeliveryRules.CleanupExactly | backend/services/outbox.py:272-296 | a pass cleans up a hundred at most, each once |
| DeliveryRules.PassExactly | backend/services/outbox.py:129-300 | a pass of either kind does this and nothing else to the system |
| BoxLinks.OnwardLinked | backend/services/outbox.py:109-126 | whatever the worker does, live jobs stay bound to current contacts and the current grace period |
| BoxLinks.NoticesExact | backend/services/trigger_service.py:59-84 | the listed notices are exactly one e-mail for each accepted person, and a text message for those with a phone if enabled |
| BoxLinks.NoticesDistinct | backend/services/trigger_service.py:59-84 | no person is listed twice on a channel |
| WorldInvariants.RouteLinked | backend/services/trigger_service.py:50-168 | every request keeps the outbox linked to the vault's people, episode and state |
| WorldInvariants.ReleaseRoute | backend/services/trigger_service.py:56-93 | a release cancels warnings and announces itself in the same transaction |
| WorldInvariants.ResetRoute | backend/routers/heartbeat.py:111-118 | settings and check-ins leave grace and no live warning behind |
| WorldInvariants.InviteRoute | backend/routers/beneficiaries.py:221-239 | an invitation replaces the recipient's earlier messages by one of its own |
| WorldInvariants.DropRoute | backend/services/sessions.py:128-136 | a changed or deleted contact takes its live messages with it |
| WorldInvariants.WarnAllLinked | backend/services/trigger_service.py:126-168 | staged warnings are new for the episode and go to current contacts |
| AnnounceRules.StopsExactly | backend/services/outbox.py:109-126 | exactly which live messages a granted request stops: those to somebody invited again, moved or removed, and the warnings when grace ends or the vault is released |
| AnnounceRules.InvitationExactly | backend/routers/beneficiaries.py:221-239 | an invitation adds one event and one e-mail, due at once and good for seven days |
| AnnounceRules.ReleaseTells | backend/services/trigger_service.py:59-84 | whom a release is announced to, how and how often |
| AnnounceRules.WarningsExactly | backend/services/trigger_service.py:126-168 | a check in grace announces exactly the warnings that are due and new in the episode (at once, after three days of a longer grace, a day before the end), each once to the owner and to everybody who accepted |
| AnnounceRules.OthersAnnounceNothing | backend/services/trigger_service.py:50-168 | no other request announces anything |
| AnnounceRules.SignsExactly | backend/services/sessions.py:128-136 | who is signed in or barred by a granted request |
| AnnounceRules.LinkMessageExactly | backend/routers/beneficiary_login.py:77-107 | the one e-mail of a sign-in link |
| AnnounceRules.EverywhereStops | backend/services/outbox.py:109-116 | signing out everywhere stops the live messages to that person alone |
| WorldInvariants.SignedKeeps | backend/services/sessions.py:128-136 | every request leaves unrevoked families and unused links only to accepted beneficiaries at the same contact revision |
| WorldRuns.ReachableWorld | backend/services/outbox.py:129-300 | all invariants of rows, outbox and sessions hold in every reachable state of the whole system |
| Guarantees.ReleaseNotices | backend/services/trigger_service.py:56-84 | a release adds one event and for it exactly one e-mail for each then-accepted beneficiary, exactly one text message for each with a phone if enabled, and nothing else |
| Guarantees.ReleasedOnceForAll | backend/services/trigger_service.py:50-93 | from then on, in every run, the vault stays released on the same material, policy and settings, with that one event and exactly those notices |
| Guarantees.ReleasedIffAnnounced | backend/services/trigger_service.py:50-58 | in every reachable state the vault is released exactly when one and only one release event exists |
| Guarantees.LiveJobsCurrent | backend/services/outbox.py:118-126 | a live warning belongs to the grace period the vault is in, a live message to a contact that is still current |
| Guarantees.NoDuplicates | backend/models/remediation.py:55-83 | no (kind, revision) event occurs twice and no event has two jobs for one recipient and channel: the unique constraints never fire |
| Guarantees.DeliveryBounds | backend/services/outbox.py:129-267 | the delivery bounds in every reachable state of the whole system |
| Guarantees.SettledForever | backend/services/outbox.py:109-126 | a settled job never changes again, except that its payload may be erased |
| Guarantees.ObsoleteOnlyByExpiry | backend/services/outbox.py:199-209 | of the three reasons to drop a claimed job before sending only an expired credential can occur; cancellation has seen to the others |
| Guarantees.SessionsCurrent | backend/services/sessions.py:93-102 | unrevoked beneficiary families and unused links belong to accepted beneficiaries at the same contact revision |
| Guarantees.RotatesNewestOnly | backend/services/sessions.py:65-116 | in every reachable state a token is exchanged exactly if it is the newest of an unrevoked, unexpired family of that role and epoch |
| Guarantees.LinkUsedOnce | backend/routers/beneficiary_login.py:139-148 | a redeemed sign-in link never works again |
| Guarantees.LinkCooldown | backend/routers/beneficiary_login.py:44-77 | the links of one beneficiary are at least a minute apart |
| Guarantees.RevokedForever | backend/services/sessions.py:119-131 | a revoked family stays revoked |
| Guarantees.ReuseEndsFamilyForever | backend/services/sessions.py:103-108 | after a spent token is presented past its grace period no token of its family is honoured again |
| Guarantees.ReachableReady | backend/services/recovery_readiness.py:82-96 | in every reachable ready state there is a quorum |
| Guarantees.ReachableRecovers | backend/services/recovery_readiness.py:82-96 | and the shares of any quorum rebuild the key: readiness, routes and key splitting joined end to end |
| Guarantees.AutomaticReleaseDue | backend/services/heartbeat_checker.py:56-76 | in every reachable state the clock alone releases only an armed, ready vault whose deadline has passed |
| Warned.WarnedBeforeRelease | backend/services/trigger_service.py:126-146 | while the checker alone starts grace, a vault released out of grace had its first warning of that episode announced |
| Rehearsal.ReadyReachable | backend/services/recovery_readiness.py:82-96 | for every policy 1 <= k <= n <= 10 a run of the system from registration makes the vault ready: draft, finalization, k people enrolled, invited and accepting, a drill |
| Rehearsal.OwnerCanRelease | backend/services/trigger_service.py:96-105 | and from there the owner's trigger releases it, at any time |
| Rehearsal.ClockCanRelease | backend/services/heartbeat_checker.py:56-76 | or, after a check-in, a check of the clock once the default interval and grace have passed |
| Rehearsal.GraceLeadsToRelease | backend/services/heartbeat_checker.py:56-76 | the ordinary course: a missed check-in, a check that puts the vault in grace, and one at the end of grace that releases it |
| Rehearsal.AttemptsReachable | backend/services/outbox.py:129-166 | for every n a run of the system from registration in which crashing workers drive an invitation's delivery job to n attempts |
| Sessions.IssueKeeps | backend/services/sessions.py:15-51 | a new family has one token and keeps the chains |
| Sessions.RotateKeeps | backend/services/sessions.py:65-116 | rotation keeps each family one chain whose newest token alone is unconsumed |
| Sessions.OneUnconsumed | backend/services/sessions.py:109-116 | every family has exactly one unconsumed token |
| Sessions.OneSuccessor | backend/services/sessions.py:109-116 | a token is exchanged within its family and for one token at most |
| Sessions.ConsumedHasSuccessor | backend/services/sessions.py:109-116 | a token is consumed exactly when it has been exchanged |
| Sessions.ReuseEndsFamily | backend/services/sessions.py:103-108 | reuse past the grace period ends the family |
| SignRules.SignInExactly | backend/services/sessions.py:15-51 | an owner's sign-in opens one family of thirty days with one unspent token |
| SignRules.SignOutExactly | backend/services/sessions.py:119-125 | signing out revokes the family of the presented token, if it is of that role, and changes nothing else |
| SignRules.SignOutEnds | backend/services/sessions.py:54-102 | in every later state no token of that family is honoured |
| SignRules.EverywhereExactly | backend/services/sessions.py:128-136 | every family and link of the beneficiary ends, everybody else's stays |
| SignRules.EverywhereEnds | backend/services/sessions.py:54-102 | and in every later state no token of those families is honoured |
| SignRules.RenewExactly | backend/services/sessions.py:65-116 | an unspent token of a standing family is exchanged, one spent within ten seconds harms nobody, an older one ends the family, and no other token does anything |
| SignRules.LinkExactly | backend/routers/beneficiary_login.py:59-90 | exactly when a link is made, good for a quarter of an hour |
| SignRules.RedeemExactly | backend/routers/beneficiary_login.py:110-153 | exactly when a link is redeemed, once, and the session of seven days it opens |
| Worlds.RowsRun | backend/services/trigger_service.py:15-47 | the rows of every run of the system are those of a run of requests |
| CeremonyRoutes.CreateDraftRoute | backend/services/ceremony.py:14-71 | the route, working on rows in place, commits or raises exactly as the drafting function says |
| CeremonyRoutes.FinalizeRoute | backend/services/ceremony.py:74-117 | the same for finalizing |
| CeremonyRoutes.CancelRoute | backend/services/ceremony.py:120-141 | the same for cancelling |
| CeremonyRoutes.SaveCryptoMaterial | backend/routers/vault.py:508-522 | the same for a rewrap |
| CeremonyRoutes.ReportDrillRoute | backend/routers/readiness.py:31-58 | the same for a drill report |
| BeneficiaryRoutes.AddRoute | backend/routers/beneficiaries.py:113-165 | the same for enrolment |
| BeneficiaryRoutes.InviteRoute | backend/routers/beneficiaries.py:200-250 | the same for an invitation, with revocation, event and job |
| BeneficiaryRoutes.ChangeContact | backend/routers/beneficiaries.py:274-281 | a new address revokes what the old one was given |
| BeneficiaryRoutes.UpdateRoute | backend/routers/beneficiaries.py:253-314 | the same for an update |
| BeneficiaryRoutes.AssignRoute | backend/routers/beneficiaries.py:321-365 | the same for an assignment |
| BeneficiaryRoutes.DeleteRoute | backend/routers/beneficiaries.py:368-385 | the same for a deletion |
| BeneficiaryRoutes.AcceptRoute | backend/routers/access.py:140-221 | the same for an acceptance; an invitation past seven days is marked expired and committed |
| HeartbeatRoutes.SaveRoute | backend/routers/heartbeat.py:95-121 | the same for settings |
| HeartbeatRoutes.CheckInRoute | backend/routers/heartbeat.py:124-153 | the same for a check-in |
| HeartbeatRoutes.GraceRoute | backend/services/trigger_service.py:108-123 | the same for entering grace |
| HeartbeatRoutes.NotifyAll | backend/services/trigger_service.py:59-84 | the loop queues a job for each notice, in the order the database lists people |
| HeartbeatRoutes.ReleaseVault | backend/services/trigger_service.py:50-93 | the same for a release under the lock |
| HeartbeatRoutes.TriggerRoute | backend/services/trigger_service.py:96-105 | the same for a trigger |
| HeartbeatRoutes.WarnRoute | backend/services/trigger_service.py:139-168 | one warning, unless its event exists |
| HeartbeatRoutes.StageRoute | backend/services/trigger_service.py:126-168 | the loop stages every warning that is due |
| HeartbeatRoutes.CheckRoute | backend/services/heartbeat_checker.py:56-82 | one vault's round of the checker |
| OutboxWorker.ClaimJobs | backend/services/outbox.py:147-166 | the claiming loop claims each returned job under a token of its own |
| OutboxWorker.StartSend | backend/services/outbox.py:172-224 | the first phase of a send |
| OutboxWorker.FinishSend | backend/services/outbox.py:230-267 | the write-back |
| OutboxWorker.CleanUpJobs | backend/services/outbox.py:296-300 | the cleanup loop |
| SessionStore.IssueSession | backend/services/sessions.py:15-34 | a new family and its first token |
| SessionStore.RotateToken | backend/services/sessions.py:65-116 | the exchange of a token, with what is committed in each case |
| SessionStore.Revoke | backend/services/sessions.py:119-125 | signing one family out |
| SessionStore.RevokeEverything | backend/services/sessions.py:128-136 | signing a beneficiary out everywhere |
| SessionStore.SendLink | backend/routers/beneficiary_login.py:59-107 | one candidate the unlocked query found: looked at again under the lock, sent a link if it still qualifies, and otherwise only the lock's version is committed |
| SessionStore.UseLink | backend/routers/beneficiary_login.py:110-153 | redeeming a link |
| SessionStore.RefreshRoute | backend/routers/access.py:264-290 | renewing a session, from begin to commit or rollback, is one step of the system model, and succeeds exactly if the token is exchanged |
| SessionStore.RequestLinkRoute | backend/routers/beneficiary_login.py:35-107 | asking for a link is one step, whatever the unlocked query answered: it sends a link, only takes the lock, or does nothing |
| SessionStore.RedeemRoute | backend/routers/beneficiary_login.py:110-153 | redeeming a link is one step, and succeeds exactly for an unused, unexpired link of this epoch and a current accepted beneficiary |
| Server.Serve | backend/services/trigger_service.py:15-47 | each modelled vault route, from begin to commit or rollback, is one step of the system model |
| Server.ServeSession | backend/services/sessions.py:15-136 | each session endpoint (signing in, renewing, signing out here and everywhere, asking for a link, redeeming it) is one step of the system model |
| Server.WorkOnce | backend/services/outbox.py:272-302 | cleanup and claims are two steps of the system model |
| Server.StartDelivery | backend/services/outbox.py:169-224 | the first transaction of a send is one step |
| Server.FinishDelivery | backend/services/outbox.py:225-267 | the second is one step, under the token of the first |
| RateLimiter.ExpireFilters | backend/middleware/rate_limiter.py:91-95 | on a sorted bucket popping from the head is filtering |
| RateLimiter.PreparedKeys | backend/middleware/rate_limiter.py:97-102 | while a request is handled the minute dictionary, and with it the hour dictionary, whose keys are among its keys, stores at most one key more than the maximum |
| RateLimiter.StoredKeys | backend/middleware/rate_limiter.py:97-102 | at rest neither dictionary stores more keys than the maximum, or one if the maximum is zero |
| RateLimiter.EvictsOldest | backend/middleware/rate_limiter.py:97-102 | eviction forgets exactly the keys stored first and leaves the other buckets alone |
| RateLimiter.RunKeeps | backend/middleware/rate_limiter.py:122-147 | over every run the buckets of a key that is never evicted are the end of its admitted stamps, which are spaced by the window less the drift |
| RateLimiter.WindowLimit | backend/middleware/rate_limiter.py:122-147 | no closed window shorter than a minute (an hour) by the drift between clock readings holds more admitted requests than the limit, over every run |
| RateLimiter.AdmittedExactly | backend/middleware/rate_limiter.py:122-147 | over every run a request of a key that is never evicted is admitted if and only if its perMinute-th last admitted stamp is more than a minute old and its perHour-th last more than an hour |
| RateLimiter.MinutesLimit | backend/middleware/rate_limiter.py:122-147 | no closed window of k minutes less k drifts holds more than k times the limit a minute: with a limit an hour above sixty times that it is the limit a minute that governs the hour |
| RateLimiter.MinuteTight | backend/middleware/rate_limiter.py:91-128 | for every limit a minute below the limit an hour, every closed window longer than that can hold one admitted request more |
| RateLimiter.MinutesTight | backend/middleware/rate_limiter.py:91-128 | for every k with k times the limit a minute below the limit an hour, every closed window longer than k minutes less k drifts can hold one more than k times the limit, if a batch of requests takes less time than batches are apart |
| RateLimiter.HourTight | backend/middleware/rate_limiter.py:91-147 | for every limit an hour of at most sixty times the limit a minute, every closed window longer than the hour less the drift can hold one more, if the drift leaves time to spread the requests, which up to 59 times it always does |
| RateLimiter.CleanUpOldEntries | backend/middleware/rate_limiter.py:91-95 | the popping loop |
| RateLimiter.Limiter.EvictIfNeeded | backend/middleware/rate_limiter.py:97-102 | the evicting loop |
| RateLimiter.Limiter.Dispatch | backend/middleware/rate_limiter.py:122-147 | one request, updating the dictionaries in place |
| KeyLock.EpochStep | frontend/lib/crypto-session.ts:67-75 | every lock and nothing else starts an epoch, and a locked vault keeps no key |
| KeyRules.LocksExactly | frontend/lib/crypto-session.ts:36-106 | the vault is locked on request, for another binding, or when five minutes hidden or fifteen idle are found to have passed, and never otherwise |
| KeyRules.KeyExactly | frontend/lib/crypto-session.ts:67-115 | the key held after each event, and the epoch |
| KeyRules.RecordExactly | frontend/lib/crypto-session.ts:84-115 | what is on record for the deadlines after each event |
| KeyRules.BindingExactly | frontend/lib/crypto-session.ts:36-75 | identity, revision and generation after each event |
| KeyRules.PendingExactly | frontend/lib/crypto-session.ts:118-169 | which operations are pending after each event, and with what they began |
| KeyRules.ReturnsExactly | frontend/lib/crypto-session.ts:118-169 | in every run a pending operation returns if and only if nothing has locked the vault since it began |
| KeyLock.ReturnsUnlocked | frontend/lib/crypto-session.ts:118-169 | in every interleaving an operation returns, or adopts its key, only if no lock happened since it began |
| KeyLock.IdleDeadline | frontend/lib/crypto-session.ts:77-115 | the key is given out only within fifteen minutes of an adoption or of activity on a visible page |
| KeyLock.HiddenDeadline | frontend/lib/crypto-session.ts:77-115 | from when the page is hidden, or a key is adopted on a hidden page, until it is shown or another key adopted, the key is given out for less than five minutes |
| KeyLock.KeyGivenExactly | frontend/lib/crypto-session.ts:77-115 | in every run a held key is given out exactly within fifteen minutes of the last sign of presence and, if the page counts as hidden, within five minutes of when it began to |
| KeyLock.AdoptionExtends | frontend/lib/crypto-session.ts:108-115 | a second adoption on a hidden page starts the five minutes anew: the key is given out eight minutes after hiding |
| KeyLock.ReturnsUnderHeldKey | frontend/lib/crypto-session.ts:108-169 | in every run, when an operation returns, the key held is the one it was given if and only if no key was adopted since it began or the last one adopted is the same |
| KeyLock.SwappedKey | frontend/lib/crypto-session.ts:108-150 | a run in which it is another: adopting a key over one that is held starts no epoch |
| KeyLock.ZeroMemory | frontend/lib/crypto.ts:62-64 | the buffer is all zeros |
| KeyLock.KeySession.LockVault | frontend/lib/crypto-session.ts:67-75 | locking in place, with the key's buffer wiped |
| KeyLock.KeySession.BindVault | frontend/lib/crypto-session.ts:36-41 | binding in place |
| KeyLock.KeySession.EnforceLockDeadline | frontend/lib/crypto-session.ts:77-82 | the deadlines |
| KeyLock.KeySession.NoteVaultActivity | frontend/lib/crypto-session.ts:84-87 | activity |
| KeyLock.KeySession.NoteVaultVisibility | frontend/lib/crypto-session.ts:89-92 | visibility |
| KeyLock.KeySession.RequireKey | frontend/lib/crypto-session.ts:102-106 | the key, unless a deadline has passed |
| KeyLock.KeySession.AdoptKey | frontend/lib/crypto-session.ts:108-115 | adoption copies the key and wipes both other buffers |
| KeyLock.KeySession.EndUnlockOperation | frontend/lib/crypto-session.ts:123-142 | an unlock whose epoch has passed wipes its key and adopts nothing |
| KeyLock.KeySession.AssertEpoch | frontend/lib/crypto-session.ts:42-45 | the epoch check after the deadlines |

## Left out

- Passphrase derivation, key wrapping, message encryption, password hashing and
  access tokens: foreign primitives. A payload is present or absent, readable or
  not.
- Several vaults at once, and the checker's loop over them with its batch limit,
  its failure count and its list of actions: one vault's round is modelled.
- The development-only status reset and time-travelling check, the restore
  quarantine, and legacy evidence, tokens and shares beyond rejecting sets that
  mix formats.
- Owner verification mail, registration, message storage, audit rows, e-mail
  texts, cookies, HTTP status codes and pages.
- Names, and the validation of e-mail addresses: an address is the stripped,
  lower-case string the routes compare.
- Non-integer thresholds and text outside the basic plane: numbers given to the
  share functions are integers, a string is a sequence of characters, and
  lower-casing is that of ASCII.
- The wiping of coefficient and share buffers after splitting.
- The choice of a bucket and its limits from a request path: the key and its
  limits are inputs of the limiter.
- Listener notification and the fetch transport of the browser's key holder, and
  a wrapping that fails its comparison: a refused result is not told apart there.
- OutboxWorker.StartSend: the phase before the provider call is one atomic step,
  so two writers that interleave inside it are not modelled.
- SessionStore.SendLink: the loop over the vaults that know one address, and the
  query's cooldown by address and its limit of ten: one vault's candidate is
  modelled, and what the query answered is an input.
- Mistyped.MistypedRejected: characters of the `LLS1-` prefix itself, and shares
  typed with characters missing or added.
- RateLimiter.HourTight: for limits an hour between 59 and 60 times the limit a
  minute it asks that the drift times the limit a minute be at most 59 minutes.
- RateLimiter.MinutesTight: asks likewise that the drift times the limit a minute
  and one be at most a minute; otherwise the clock readings of one batch would
  overlap the next.
- RateLimiter.WindowLimit: speaks of keys that are never evicted; an evicted
  key's history is gone, and the code then admits anew.
- Recoverable.ReadyMeansRecoverable: takes the shares from the ceremony's own
  split; that people kept the shares they were given is not the server's to know.
