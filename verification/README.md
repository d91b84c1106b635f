# Delegation chains, forwarding and shared state: a Dafny model

This project models how svpchain-research-agent verifies, narrows and forwards chains of SVP-DT
credentials, and the shared state of the service that runs them. It has three parts.

**The chain calculus.** `Caveats` orders grants by "grants no more than" and gives the order a
meaning (which requests a grant permits) and a meet. `Svpdt` holds the credential library's rules as
this repository states them, over arbitrary encoding, hashing and signature functions.
`Verification`, `Resolver`, `Narrowing`, `Settlement` and `Intermediary` are the service's own code:
`verifyProof`, key resolution, `narrow`, `ExecuteRecordSpend` and `Forward`. `Chains` and `Forwards`
prove what every accepted chain, of any length and with hand-built tokens, guarantees, and what
becomes of the chain `Forward` sends. `EmergencyStop` joins chains to revocation, and `Instances` holds
the inputs on which the code differs from its comments. `Base64`, `Decimal`, `Text` and `CoinText` are the text forms.

**Concurrent step machines.** `RootStateMachine`, `WalletParamsMachine` and `SequenceMachine` run any
number of calls with program counters, a clock that never goes back and a chain that changes its mind,
one critical section or remote call at a time. `RootQueries` says exactly when one root's queries keep
their distance. `RootStates`, `WalletParams` and `Operator` hold the code those steps come from.

**The tenant table.** `ReadTenants` is the bounded, swept table of proof-derived tenants and a
never-swept reference for it; `Reads` pins a read's arguments and ties both to the credential.

## Assumptions

- Encoding a token and decoding it gives it back (`RoundTrips`), no two encodings share a sha256
  (`CollisionFree`), and the library's set and coin constructors build what they are given
  (`BuildsWhatItIsGiven`). Each lemma lists the ones it uses.
- Clocks do not go back, and a sampled answer is stamped within the stated latency.
- For the sequence theorem: an accepted transaction is visible to the next account read, nobody else
  uses the operator account, the chain accepts a fee-paying transaction only at its own sequence, a
  gas-free one consumes no sequence, and a broadcast whose reply is lost has landed, if it ever does,
  before its caller gives the lock back.
- `WiredAsOne` is the wiring of `cmd/svpchain-research-agent/main.go:77-98`: one id, one key, one
  service as verifier and recorder.
- Whether `VerifyChain` itself refuses to extend a token that is not re-delegable is not stated
  anywhere in the repository; the flag `refusesUnredelegable` covers both, and every result holds either way.
- A ceiling of zero seconds means none: `internal/intermediary/intermediary_test.go:103-108` verifies
  without one.

## Where the code says less, or other, than its comments

- `internal/delegated/service.go:104` calls the cache lifetime the bound on revocation. The bound is the
  lifetime plus one query latency, and no less: `RevocationBound`, `RevocationBoundIsTight`.
- `internal/delegated/reads.go:86-87` says the lifetime bounds how often the chain is asked. For one root it
  does while no two calls are past a miss on that root together (`QuerySpacing`), and that condition is
  exact: the first such overlap of any run can go wrong within the second (`SpacingExactly`,
  `OverlapBreaksSpacing`; `OverlapAsksTwice` is the smallest instance).
- A lifetime so long that now + ttl wraps around gives a child that is already expired, though never one
  that outlives its parent: `ExpiryExact`, `LongestLifetimeIsNone`.
- A run of `Forward` is not all-or-nothing. The fee is recorded before the narrowing is checked, so it
  stays recorded when the child cannot be signed: `FeeKeptWithoutSending`,
  `ChargesThenSendsOrKeepsTheFee`.
- The target check sees the downstream's name as spelled and the child's audience is trimmed, so an
  explicit target list has to allow both forms: `SendsExactlyWhen`, `BlankEndedTargetIsChargedOnly`.
- A printed coin whose denomination has outer blanks reads back as another coin: `ViewRoundTrip`,
  `BlankEndedCoinIsLost`.
- The literal `null` as a read's whole argument is neither refused nor pinned: it decodes to a nil map, and
  writing the owner to that is a run-time panic (`internal/delegated/reads.go:120-140`): `PinArgsToPrincipal`.

## Model

| member | source | states |
|---|---|---|
| Caveats.CoinsWithinMeans | internal/intermediary/intermediary.go:224-245 | The comparison of listed coins is the pointwise one over every denomination, an absent one being zero. |
| Caveats.AtMostTransitive | internal/intermediary/intermediary.go:223-225 | "Grants no more than" composes along a chain. |
| Caveats.MeetIsGreatestLowerBound | internal/intermediary/intermediary.go:266-268 | For grants on one account and one order, a grant is under the meet exactly when it is under both. |
| Caveats.AtMostPermitsLess | internal/intermediary/intermediary.go:8-11 | A grant lower in the order permits no request (account, order, action, subaccount, amounts, moment) the higher one refuses. |
| Caveats.PermitsLessBounds | internal/intermediary/intermediary.go:8-11 | Conversely, permitting less on every request bounds every spendable field of a usable grant. |
| Caveats.AtMostMeans | internal/intermediary/intermediary.go:223-225 | The order, field by field and element by element, in both directions. |
| Base64.RoundTrip | internal/intermediary/intermediary.go:250 | Decoding an encoded byte string gives it back. |
| Base64.DecodeThenEncode | internal/delegated/service.go:155-162 | Of the texts the decoder accepts, exactly those without line breaks and spare bits are the encoder's own. |
| Base64.AlphabetByIndex | internal/intermediary/intermediary.go:250 | Character v stands for v, in the table of section 4 of RFC 4648. |
| Base64.EncodesByPlace | internal/intermediary/intermediary.go:250 | Every group of three bytes is written in its place, six bits a character, highest first; a shorter last group is filled with zero bits and padded. |
| Base64.DecodesExactlyWellFormed | internal/delegated/service.go:155-162 | Exactly groups of four letters decode, the last of which may end in one or two pads, whatever the spare bits. |
| Base64.NewlinesSkipped | internal/delegated/service.go:155-162 | CR and LF are skipped wherever they stand. |
| Decimal.RoundTrip | internal/intermediary/coins.go:42 | Every unbounded integer prints to text that parses back to it. |
| Decimal.ParsesExactlyDigits | internal/intermediary/coins.go:29-32 | An unsigned amount parses exactly when it is one digit or more and nothing else. |
| Decimal.PrintsCanonical | internal/intermediary/coins.go:29-42 | Parsing then printing any accepted text drops its plus sign, leading zeros and a zero's minus. |
| Decimal.DigitsByPlace | internal/intermediary/coins.go:36-45 | The k-th printed digit from the right counts the powers 10^k. |
| Decimal.SignsMean | internal/intermediary/coins.go:28-34 | A leading plus says nothing, a leading minus negates, and neither stands without digits. |
| Text.TrimSpaceSplits | internal/intermediary/intermediary.go:177 | Trimming removes outer blanks only and leaves none. |
| Text.TrimSpaceFixedPoint | internal/intermediary/intermediary.go:238 | Trimming changes nothing exactly for text without outer blanks. |
| Text.SpacesAreWhiteSpace | internal/intermediary/intermediary.go:177 | The blanks are the characters of Unicode's White_Space property. |
| CoinText.CoinsView | internal/intermediary/coins.go:36-45 | The printing loop yields one wire coin per coin, in order. |
| CoinText.ViewRoundTrip | internal/intermediary/coins.go:28-45 | A printed positive coin reads back as the same coin if and only if its denomination has no outer blanks. |
| CoinText.ViewsNameEachCoin | internal/intermediary/coins.go:36-45 | The i-th printed coin has the i-th coin's denomination and an amount that reads back as its own. |
| CoinText.ReadPrintsCanonical | internal/intermediary/coins.go:28-45 | A read coin carries one denomination, and its amount prints as the canonical form of the trimmed text. |
| Verification.CheckRedelegationTargets | internal/delegated/service.go:192-203 | The loop finds the first token addressed outside its parent's targets, or none exactly when every audience is allowed. |
| Verification.VerifyProof | internal/delegated/service.go:151-184 | Accepts exactly when the ceilings are known, every text decodes, the library accepts the chain and every audience is allowed; otherwise names the first reason. |
| Verification.VerdictMeans | internal/delegated/service.go:151-184 | An accepted proof reports exactly its decoded bytes and their summary. |
| Verification.AcceptsExactlyWhen | internal/delegated/service.go:151-203 | A proof that decodes to tokens is accepted if and only if there are some and no more than the chain's depth ceiling, each has its chain, position, window, lifetime ceiling, signature and link, and the last is addressed to this agent. |
| Verification.AcceptedKeepsCeilings | internal/delegated/service.go:164-183 | Every token of an accepted proof keeps both ceilings and is alive, and what is reported is the last token's own. |
| Resolver.PublicKeysMeans | internal/delegated/resolver.go:67-84 | Resolution answers the one key that speaks for an id, the registered one first, else the account's own key of a known kind that hashes to the account, or nothing. |
| Resolver.RegisteredKeyComesFirst | internal/delegated/resolver.go:67-71 | A registered key is the only answer whatever the account store holds; an empty one counts as none. |
| Resolver.AcceptedSignersSpeakForThemselves | internal/delegated/resolver.go:32-42 | In an accepted chain each token is signed by the unique key that speaks for its issuer; no account key stands in for a registered one. |
| Chains.NeverWidens | internal/delegated/service.go:170-203 | In a chain of any length a later token grants no more than any earlier one. |
| Chains.AcceptedChainIsAuthorized | internal/delegated/service.go:186-203 | The effective grant permits nothing any ancestor refuses; account, order, root and epoch are shared; each hop was allowed by its parent and issued by its parent's addressee. |
| Chains.BindingIsShared | internal/delegated/service.go:170-183 | The reported account and order are every token's own. |
| Chains.PassingOnNeverWidens | internal/delegated/service.go:186-203 | Whoever a later token may be passed to, every earlier one could have been; the right to pass on and the depth only shrink. |
| Chains.StaysAcceptedUntilLeafExpires | internal/delegated/read_tenants.go:14-18 | Once accepted, a chain stays acceptable under the same ceilings and keys exactly until its leaf expires. |
| Chains.AcceptedChainIsTimely | internal/delegated/service.go:170-176 | An accepted chain is for this chain, within every depth, alive, and has at most the ceiling's lifetime left. |
| Chains.EffectiveIsMeet | internal/delegated/service.go:170-183 | Folding the meet over every token's caveats gives the leaf's. |
| Chains.LeafFixesChain | internal/delegated/reads_test.go:303-314 | Two acceptable chains that end in the same bytes are the same chain, whoever verifies them and when. |
| Chains.AcceptsExtension | internal/delegated/service.go:170-203 | Exactly when one more token keeps a chain acceptable. |
| Chains.MintedAcceptedExactly | internal/intermediary/intermediary.go:230-250 | A minted child is accepted under its parent by its addressee only, exactly while the parent chain is acceptable to the holder, depth is left and the child is alive. |
| Chains.NothingFollowsAClosedToken | internal/intermediary/intermediary.go:272-286 | A token whose targets are constrained to nothing is last in every accepted chain. |
| Chains.LibraryAloneMissesTargets | internal/delegated/reads_test.go:378-398 | A chain the library rules accept and the service refuses. |
| Svpdt.AttenuatesExactlyWhen | internal/intermediary/downstream_test.go:205-240 | A child is signed if and only if the parent's targets name its audience, its own targets are constrained and nothing is wider than the parent's; it then sits right under the parent's bytes. |
| Narrowing.Narrow | internal/intermediary/intermediary.go:269-318 | The step-by-step overwrite holds exactly what was named where something was and the parent's own elsewhere, and fails on the first field that cannot be built. |
| Narrowing.NamedIsHeld | internal/intermediary/intermediary.go:286-317 | A named field replaces the parent's: exactly the named actions and subaccounts, the parsed amount and no other denomination, and the earlier of the parent's expiry and the one asked for. |
| Narrowing.ExpiryExact | internal/intermediary/intermediary.go:312-316 | In wrapping int64 a child never outlives its parent; under a live parent it gets the expiry asked for, and is alive, if and only if the addition does not wrap. |
| Narrowing.NarrowedWithin | internal/intermediary/intermediary.go:121-124 | The narrowed caveats are under the parent's if and only if every named field is a subset of the parent's. |
| Narrowing.UnnamedIsInherited | internal/intermediary/intermediary.go:266-270 | Account, order, depth, start and everything unnamed are the parent's own; only the right to pass on is spent. |
| Settlement.ExecuteRecordSpend | internal/delegated/settlement.go:54-103 | Success means an accepted credential that grants the action on subaccount 0 and is bound to the order, and the one message that follows from it; otherwise the first reason to refuse. |
| Settlement.RecordsExactlyWhen | internal/delegated/settlement.go:54-103 | A message goes out if and only if the proof is accepted, grants the action on subaccount 0, is bound to an order that any named id equals, and the message is that order's. |
| Settlement.RecordsOnlyTheBoundOrder | internal/delegated/settlement.go:65-98 | Every token of the chain names the order and the account charged; the credited agent is this one. |
| Settlement.RecordsOnlyWhatIsGranted | internal/delegated/settlement.go:59-63 | Every token of the chain grants settlement.record_spend on subaccount 0 whenever a spend is recorded. |
| Intermediary.Service.Forward | internal/intermediary/intermediary.go:176-194 | Effects on the outside and the answer of a whole run, through the inbound verdict. |
| Intermediary.Service.PassOn | internal/intermediary/intermediary.go:195-263 | The rest of the run: right to pass on, fee, child, send, in that order. |
| Forwards.ReportIsWhatDownstreamFinds | internal/intermediary/intermediary.go:143-162 | The account, length and grant a successful run reports are what every verifier that accepts the sent chain finds in it; a fee is reported exactly when one was recorded, and the reply is the downstream's own. |
| Forwards.SendsExactlyWhen | internal/intermediary/intermediary.go:176-252 | A run sends if and only if the request is complete, the credential accepted and re-delegable, the target allowed as spelled and as trimmed, any fee recorded without error, a nonce drawn and nothing named too wide. |
| Forwards.FirstReasonNotToCharge | internal/intermediary/intermediary.go:176-211 | Which guard a run that had no effect stopped at: the first that applies, each with its condition. |
| Forwards.EffectOrder | internal/intermediary/intermediary.go:176-263 | At most one record then at most one send, under the given proof; success exactly when something was sent and answered. |
| Forwards.FeeKeptWithoutSending | internal/intermediary/intermediary.go:205-245 | The fee stays recorded with nothing sent exactly when it was recorded and the child is not signable. |
| Forwards.SentChild | internal/intermediary/intermediary.go:223-250 | What is sent is the inbound proof followed by a child of its leaf with the narrowed caveats. |
| Forwards.TransportKeepsBytes | internal/intermediary/intermediary.go:246-250 | Decoding what is sent gives the inbound token bytes unchanged, then the child's. |
| Forwards.ForwardedAcceptedExactly | internal/intermediary/downstream_test.go:115-176 | An agent accepts what was sent if and only if it is the trimmed downstream, the inbound chain is still acceptable here, there is depth for one more and the child has not expired; the grant is then the narrowed one on the same account. |
| Forwards.DownstreamHoldsWhatWasNamed | internal/intermediary/intermediary.go:269-318 | What every verifier that accepts the sent chain finds granted is exactly what was named, and the accepted credential's own elsewhere. |
| Forwards.NothingExtendsASentChild | internal/intermediary/intermediary.go:272-286 | No proof carrying a sent child anywhere but last is accepted by anyone, whatever follows it. |
| Forwards.FeeAndChildShareTheOrder | internal/intermediary/intermediary.go:205-226 | The fee's message names the order and account the forwarded child carries, credits this agent and is for the fee asked; it went out under the same proof, accepted again and granting it. |
| Instances.ChargesThenSendsOrKeepsTheFee | internal/intermediary/intermediary.go:205-252 | Over every library that loses nothing, a run that charges and sends under all the hypotheses used above; without a nonce the same run keeps the fee and sends nothing. |
| Instances.BlankEndedTargetIsChargedOnly | internal/intermediary/intermediary.go:200-242 | A target listed and spelled with a blank at its end is charged for and never sent to. |
| Instances.LongestLifetimeIsNone | internal/intermediary/intermediary.go:312-316 | The longest lifetime wraps around to an expiry in the distant past. |
| Instances.BlankEndedCoinIsLost | internal/intermediary/coins.go:28-45 | A coin whose denomination ends in a blank reads back as none of it. |
| EmergencyStop.StopReachesEveryChain | internal/intermediary/intermediary.go:6-11 | Once the user's root is stopped, no check of any accepted chain beginning with the user's token passes, at any agent, past lifetime plus latency. |
| EmergencyStop.StopReachesForwarded | internal/intermediary/intermediary.go:6-11 | Stopping the root of a received chain stops the chain that was sent on, at whoever accepts it. |
| RootStates.EpochCache.Lookup | internal/delegated/reads.go:89-92 | The first critical section finds the root's entry if it is fresh. |
| RootStates.EpochCache.Put | internal/delegated/reads.go:100-102 | The second critical section replaces one root's entry and no other. |
| RootStates.EpochCache.CheckRootState | internal/delegated/reads.go:88-114 | One call on its own: its verdict and the cache it leaves. |
| RootStateMachine.RevocationBound | internal/delegated/reads.go:88-114 | Over every interleaving, once a root stops granting an epoch no call starting a lifetime plus one latency later passes with it. |
| RootStateMachine.RevocationBoundIsTight | internal/delegated/reads.go:88-114 | For every latency, root and epoch a run in which a call starting one second before that bound passes. |
| RootStateMachine.VerdictWasTrue | internal/delegated/reads.go:88-114 | Over every interleaving each verdict (live at this epoch, paused, at another epoch) was the chain's own at some moment, less than ten seconds plus one latency before the call began or later. |
| RootStateMachine.MissAnswersAsTheChainSays | internal/delegated/reads.go:94-114 | An undisturbed call past a miss passes for a live root at its own epoch, and answers paused or another epoch otherwise. |
| RootStateMachine.UndisturbedIsCheckRootState | internal/delegated/reads.go:88-114 | The machine's steps of one call, taken without interruption, give the method's verdict and cache. |
| RootQueries.QuerySpacing | internal/delegated/reads.go:83-103 | While at most one call at a time is past a miss on a root, its answered queries are a lifetime apart, so a window holds at most width / lifetime + 1; other roots do not matter. |
| RootQueries.SpacingExactly | internal/delegated/reads.go:83-103 | Calls past a miss on a root never overlap in a run if and only if every way to go on, from any moment of it, that lets in one more at a time keeps the root's queries a lifetime apart. |
| RootQueries.TwoPendingAskTwice | internal/delegated/reads.go:88-103 | Every run whose last state has two calls past a miss on one root, both yet to stamp, whatever else is under way, goes on to two queries in one second. |
| RootQueries.OverlapBreaksSpacing | internal/delegated/reads.go:88-103 | Every run whose last state has exactly two calls past a miss on one root, one of them yet to stamp, goes on, with no second passing, to two queries inside one lifetime. |
| RootQueries.OverlapAsksTwice | internal/delegated/reads.go:88-103 | The smallest such run: two overlapping calls both ask in one second. |
| WalletParams.ParamsCache.WalletParams | internal/delegated/service.go:134-147 | One call under the lock: the answer and the cache it leaves. |
| WalletParamsMachine.UndisturbedIsWalletParams | internal/delegated/service.go:134-147 | The machine's steps of one call, taken without interruption, give the method's answer and cache and return the lock. |
| WalletParamsMachine.FetchSpacing | internal/delegated/service.go:91-98 | Over every interleaving successful fetches are a lifetime apart, so n of them span n - 1 lifetimes. |
| WalletParamsMachine.LockFreeWhenNobodyInside | internal/delegated/service.go:135-136 | At most one call is inside, and the lock is free exactly when none is. |
| WalletParamsMachine.CeilingAge | internal/delegated/service.go:164-176 | Every returned ceiling was the chain's own less than a lifetime plus one latency before it was read. |
| Operator.GasFreeFor | internal/operator/txsign.go:109-119 | The route is decided on the unwrapped messages; a lone wrapper is judged by its inner one. |
| Operator.SignTx | internal/operator/txsign.go:38-107 | Signing succeeds exactly when there are messages, all of them pack and marshal, the fee parses where one is due, the key packs and the rest assembles; off the gas-free route the fee is the one configured coin, or none when it is zero, and on it none. |
| SequenceMachine.FeePayingNeverRace | internal/delegated/service.go:249-269 | Over every interleaving each fee-paying transaction arrives with the chain's own sequence, under the lock and with its fee; accepted ones use consecutive sequences whatever gas-free ones do. |
| SequenceMachine.SequencesRise | internal/delegated/service.go:249-269 | No two accepted fee-paying transactions share a sequence: each uses one above all before it. |
| SequenceMachine.LockHeldExactlyInside | internal/delegated/service.go:548-560 | The lock is held exactly while a fee-paying call is inside; every way out gives it back. |
| SequenceMachine.GasFreeMayBeStale | internal/delegated/service.go:86-89 | A run in which a gas-free transaction arrives with a sequence already left behind. |
| ReadTenants.TenantIDShared | internal/delegated/read_tenants.go:47-51 | Two credentials share a tenant exactly when their chain hashes share eight bytes; every id has the prefix. |
| ReadTenants.HexByPlace | internal/delegated/read_tenants.go:51 | Each byte is written as its two hexadecimal digits, high half first. |
| ReadTenants.ReadTenantSource.SweepLocked | internal/delegated/read_tenants.go:90-97 | The deleting loop keeps exactly the entries that are still alive. |
| ReadTenants.ReadTenantSource.Admit | internal/delegated/read_tenants.go:50-75 | The table is swept, then grown or updated unless it is full of other live ids; an admitted tenant is for the credential's account, just its subaccounts, and its leaf's expiry. |
| ReadTenants.ReadTenantSource.LookupTenantPolicy | internal/delegated/read_tenants.go:78-86 | A lookup answers the policy of a live entry and nothing else. |
| ReadTenants.SweepingIsInvisible | internal/delegated/read_tenants.go:50-97 | Over every run with a monotone clock all lookups answer as in a never-swept table that refuses exactly when the id is not live and 4096 ids are. |
| ReadTenants.SweepingShowsWhenTheClockGoesBack | internal/delegated/read_tenants.go:88-97 | A run with a clock that goes back in which they differ. |
| ReadTenants.TableStaysBounded | internal/delegated/read_tenants.go:33-37 | The table never exceeds 4096 entries. |
| ReadTenants.AdmissionGrowth | internal/delegated/read_tenants.go:20-21 | Re-admitting a live id never grows the table. |
| ReadTenants.TenantAnswersUntilExpiry | internal/delegated/read_tenants.go:58-86 | An admitted tenant answers with its latest policy exactly until that admission's expiry, whatever happens to other ids. |
| Reads.PinArgsToPrincipal | internal/delegated/reads.go:120-164 | Pins exactly when the arguments are empty or an object, the named owner is absent, empty or the principal, and any subaccount is granted; only the owner field changes. The literal null is the one input that panics. |
| Reads.PinnedIsStable | internal/delegated/reads.go:116-164 | Pinned arguments name the principal, keep every other field, pin again to themselves and ask about no ungranted subaccount. |
| Reads.ReadService.AuthorizeRead | internal/delegated/reads.go:60-81 | A read is authorized if and only if the tool is covered, the proof accepted, the action granted, the root's state passes and the arguments pin. |
| Reads.ReadsExactlyWhen | internal/delegated/reads.go:34-81 | A read is authorized if and only if it is for one of the nine tools, on an accepted credential granting query.account, under a root live now or less than ten seconds ago, asking in the tool's own argument for no other account and no ungranted subaccount. |
| Reads.EveryTokenGrantsTheRead | internal/delegated/reads.go:60-164 | Every token of the chain grants what an authorized read asks for, and the pinned owner is the account they all are for. |
| Reads.ReadAgreesWithTenant | internal/delegated/read_tenants.go:14-18 | The tenant admitted from an authorized read has the owner its arguments name and allows the subaccount they ask about, until the leaf expires. |
| Reads.TenantServesJustTheGrant | internal/delegated/read_tenants.go:50-86 | Until leaf expiry an admitted tenant has its own id, the credential's account and exactly its subaccounts, each of which every token of the chain grants. |
| Reads.TenantLivesAsLongAsCredential | internal/delegated/read_tenants.go:14-18 | From its admission on, at or after verification, a tenant answers at a time if and only if the same proof would still be accepted then. |

## Left out

- The credential library beyond the rules named above: token encoding, nonce replay, issuing roots, and any further check of `Attenuate`; VerifyChain and Attenuate are not part of this repository.
- Cryptography, protobuf packing and sign bytes; they are arbitrary functions.
- The order, cancel and deposit builders, per-transaction limits and markets: external libraries behind the same verification and the same `execute`.
- Registration, update, claim, identity and settlement views: single guarded calls that end in `signAndBroadcastOwn` or a query.
- Network clients, the A2A server, wiring, configuration and the tool bridge.
- Error texts: errors are named by their branch.
- JSON: arguments are an exact-key map; case-insensitive keys are not modelled.
- Integer widths other than the expiry addition: times in the step machines and epochs are unbounded, and the conversion of the lifetime ceiling to int64 is not modelled.
- Backward clock jumps, except to show that the tenant table depends on their absence.
- Chain-side enforcement of budgets, escrow caps and authorization.
- The token list's coins are a list with at most one meaningful entry per denomination; how the library treats duplicates is not modelled.
- Operator.SignTx: marshalling AuthInfo, the sign bytes, the signature and marshalling the result fail together, as one condition.
- Operator.GasFreeFor: which messages ride the short-term route is the chain client's decision, taken as a function.
- Intermediary.Service.Forward: the constructor of the empty target set is taken to succeed, and the nonce is an input.
- Settlement.ExecuteRecordSpend: whether the wrapped transaction was executed is an input; its path is the one `SequenceMachine` models.
