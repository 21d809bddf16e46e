# Two-Walls: a verified model

The system sells prepaid electricity. A coordinator takes a merchant's request,
obtains a debit signed by the bank (wall 1), publishes the request on a ledger
where consortium members post approvals, runs a FROST threshold ceremony with the
members so that one token is signed (wall 2), writes a multisigned receipt and
delivers the token to a meter. This project models that system in Dafny and proves
what it is built to guarantee. `dafny verify dfyconfig.toml` checks all of it.

## What is modelled

**Threshold signing** (`Modular`, `Codec`, `Finite`, `Lists`, `Lagrange`, `Frost`,
`FrostTheorems`, `FrostEquations`). `Frost` follows `server/src/frost/frost.ts` function
by function, for an arbitrary prime L. A group element is its discrete logarithm; its
32-byte encoding, the decoder and SHA-512 are parameters (`Suite`), and `SuiteExists`
shows that every prime that fits 32 bytes has such a suite. The loops (`modPow`, share
evaluation, coefficients, group commitment, aggregation, scalar encoding) are methods
proved against functions. The theorems are those of sections 4.2, 4.4, 4.5, 5.2 and 5.3
of RFC 9591 and the verification equation of section 5.1.7 of RFC 8032: interpolation
over the prime field, "t shares sign", "t - 1 shares do not", exact share verification,
order independence and injectivity of the hashed encoding. `FrostEquations` spells the
hashes out: what a signature and a binding factor commit to, and exactly when round 2
signs.

**One ceremony and the spares** (`Ceremony`). The two collection loops of `runCeremony`
and the refusal loop around it, with every reply of every member as input. The outcome
is a function of the replies; AGGREGATION_FAILED and AGGREGATE_SIGNATURE_INVALID are
unreachable whatever the members send, and at most |online| - t + 1 ceremonies run.

**Canonical JSON** (`Canonical`, `Printer`, `CanonicalText`). Sorting, escaping and
printing; two values print alike exactly when they are equal up to member order at every
depth, and the text of a token and of a request is given character by character. A
number is the exact integer multiple of 2^-1074 it stands for, and how it prints is any
injective function into digits (`DecimalIsNumberPrinter` gives one).

**The services** (`Types`, `Verify`, `Bank`, `BankTheorems`, `Meter`, `MeterTheorems`,
`Approvals`, `ApprovalTheorems`, `Attestation`, `Signer`, `SignerTheorems`,
`RateLimit`). Signatures are symbolic: a signature string is the signature of one
payload or worthless. Each handler is a function of the service's state, and each
stateful service is also a class whose methods change fields in place and are proved
equal to those functions; what the functions mean is proved field by field. In `Signer`
and `Attestation` the awaits are split out, so that overlapping calls can be talked
about; `Signer.Serve` and `Attestation.Live` run the objects through any events and
carry the theorems over to them. A posting whose call threw may still reach the ledger,
and an approval memo whose data is null makes the read that meets it throw.

**An arbitrary sender** (`OpenWorld`, `OpenWorldTheorems`, `HonestRuns`). The
coordinator is replaced by anyone who may send anything to anyone in any order; up to
threshold - 1 members may be corrupt. The honest members and the meter alone keep one
debit to one token, and from every reachable world they can give a new request its units
(`HonestRuns`).

**The coordinator among the members** (`JointWorld`). The two machines run together: the
coordinator's events and the members' and the ledger's interleave in any order. Every
such run is a run of the pipeline and a run of the open world over the same bank, ledger
and meter (`JointRun`), so both sets of theorems hold of it, and behind every delivered
token stands an honest member's released share of its very message
(`DeliveredByHonest`); with fewer corrupt members than the quorum, what was dispensed is
exactly what was requested, paid for at its price (`DeliveredAsRequested`). A
coordinator that asks a member for a share only after that ceremony's own commitment
makes calls that do not overlap (`Signer.PairedDoNotOverlap`).

**The real coordinator** (`Pipeline`, `PipelineInvariant`, `PipelineSteps`,
`PipelineRuns`, `PipelineTheorems`, `PipelineEvidence`, `PipelineReceipts`,
`PipelineSpares`, `PipelineWitnesses`, `PipelineFrame`, `PipelineOutcomes`,
`Reconciliation`). `Pipeline` is a machine over the awaits of `runPipeline`: each event
resumes one run at the call it awaits, so any number of runs interleave in any order and
each call may succeed, fail, throw or lose its reply. The bank's log and the ledger are
part of the state: the approvals a run counts are read off the ledger, its ceremonies
are computed from what the members sent, and the bank may handle a call whose reply
never comes back. `PipelineEvidence` proves what stands behind a delivered token and
when a rejected request has lost its money; `PipelineReceipts` when a receipt is
audited, one that reaches the ledger only after its call ended included;
`PipelineSpares` that the refusal loop and the machine's ceremony events are the same;
`PipelineOutcomes` what each branch comes to in fields, from the debit that is asked for
to the reversal and the receipt.

**The processes** (`Coordinator`, `Deployment`). `Coordinator` holds the segments
between the awaits as methods of a class that mutates `PipelineRecord` objects, each
proved to be the machine's step for its event. `Deployment` puts that store, the bank
service and the ledger together: playing events on the objects ends in the machine's
state, so the theorems above hold of the objects, the divergence monitor's report among
them.

**The dashboard mirror** (`Mirror`, `MirrorTheorems`). The broadcasting store and the
client's reducer; `Broadcast` plays any operations on the store object with a client
that connects in the middle.

## Hypotheses, stated where they are used

- A request id that was evicted from the 200 retained records is not requested again
  (`Pipeline.Allows`). The route's own check sees only the retained ones:
  a delivered request that is asked for again changes nothing if and only if it is still
  retained (`AskedAgainIff`), and `RerunUndoesDelivery` shows what a second run would do.
- Debit references are fresh; the digests of the nonce prefix with the references in play
  differ within their first 32 characters (`Verify.NoncesApart`); ledger hashes are
  distinct.
- Bank and group signatures are not forged (`BankUnforged`, `GroupUnforged`); request
  hashing is injective (`Verify.CollisionFree`).
- The bank handles a run's debit call only after it was made; a confirmed reversal was
  made at the bank, a confirmed receipt was submitted. At most one receipt of a
  run reaches the ledger, and only once the run holds its token; it may do so before or
  after its call ended, or never (`Pipeline.ReceiptDue`).
- In `JointWorld`, a ceremony signs only if each of its honest members released a share
  of the message (`SharesReleased`): shares are not forged.
- The limiter's clock does not go back. Calls on one signing session do not overlap
  (`Signer.NonOverlapping`); the condition is shown to be exact, and calls whose every
  round 2 follows a round 1 of its own (`Signer.Paired`) meet it.

## Where the code and its own words differ

- `lagrangeCoefficient` (server/src/frost/frost.ts:245) reports duplicate identifiers,
  but repeated own identifiers are skipped (`OwnSkipped`, `RepeatedOwnPasses`); it fails
  exactly when another listed identifier is congruent to its own modulo L.
- The scan for approvals skips memos it cannot parse (server/src/common/chain.ts:146-159),
  but one approval memo of a member whose data is null parses and then makes
  `readApprovals` throw, for every request, until 200 newer transactions push it out of
  the window (`OneNullStopsReads`). A quorum that posts its approvals last is counted,
  and its debit delivered, if and only if none of the other transactions in the window
  carries one (`PostedApprovalsCount`, `DebitToDelivery`).
- Round 2 of a signer says a presented session is always consumed
  (server/src/signer/index.ts:311-314). When the ledger read throws, it stays
  (`ThrownReadKeepsSession`); it is gone if and only if the read answered or the pair
  was removed meanwhile (`ConsumedIff`).
- The bank accepts negative units (server/src/bank/index.ts:69-86), so "dispensed never
  exceeds confirmed" holds if and only if it is only asked for non-negative ones.
- A member is said never to post two attestations for one request
  (server/src/signer/index.ts:191); overlapping calls, retries after a lost reply and
  retries while the transaction of a call that threw is still in flight do
  (`DisorderlyPostsTwice`). A call that starts a posting can lead to a second one if and
  only if its request is on the ledger or in flight from any earlier call, answered or
  thrown (`SecondPostingIff`).
- A pre-debit rejection is said to mean that no funds moved
  (server/src/coordinator/pipeline.ts:49). When the bank confirmed and its answer did
  not come back as it was sent, they did (`LostReplyRejects`), and only then
  (`RejectedWithDebitIff`).
- A receipt whose confirmation is lost stays on the ledger, or still gets there, for a
  request that is abandoned, so the ledger may hold receipts that the audit trail does
  not (`ReceiptAuditedIff`).

## Model

| member | source | states |
|---|---|---|
| Modular.Mod | server/src/frost/frost.ts:48 | two truncated remainders give the representative in 0..m-1 |
| Modular.ModPow | server/src/frost/frost.ts:72-82 | the square-and-multiply loop computes base^exp mod m for every exponent from 0 and 1 for negative ones |
| Modular.Fermat | server/src/frost/frost.ts:84 | a^(p-1) is 1 mod p for every prime p and a that p does not divide |
| Modular.Invert | server/src/frost/frost.ts:84 | the loop gives the inverse function's value |
| Modular.InverseCorrect | server/src/frost/frost.ts:84 | the inverse times a is 1 mod L for every a the prime L does not divide |
| Codec.HexRoundTrip | server/src/common/canonical.ts:40-49 | decoding an encoding gives the bytes back |
| Codec.HexDecodeEncode | server/src/common/canonical.ts:40-49 | encoding a decoding gives the string back in lower case |
| Codec.HexDigitsOf | server/src/common/canonical.ts:40-42 | a byte is two lower-case digits, the high one first |
| Codec.BytesToNumberLE | server/src/frost/frost.ts:50-54 | the loop computes the little-endian value |
| Codec.ByteWeighs | server/src/frost/frost.ts:50-54 | byte i weighs 256^i |
| Codec.ScalarToBytes | server/src/frost/frost.ts:56-64 | the loop writes the 32 little-endian bytes of s mod L |
| Codec.ScalarRoundTrip | server/src/frost/frost.ts:56-70 | scalarFromHex(scalarToHex(s)) is s mod L for every integer s |
| Lagrange.InterpolationRecovers | server/src/frost/frost.ts:160-173 | the coefficients of any set of at least as many distinct identifiers as the polynomial has coefficients interpolate its value at 0 |
| Lagrange.InterpolationGap | server/src/frost/frost.ts:160-173 | with one identifier too few the error is the top coefficient times plus or minus the product of the identifiers |
| Lagrange.OneShortMisses | server/src/frost/frost.ts:86-92 | the top coefficient being nonzero, one identifier too few never interpolates |
| Lagrange.LambdasSumToOne | server/src/frost/frost.ts:235-247 | the coefficients of any identifier set sum to 1 |
| Frost.TrustedDealerKeygen | server/src/frost/frost.ts:153-178 | refuses a bad threshold, fails exactly when a share is zero, and otherwise deals the polynomial's values with their verification shares |
| Frost.EvaluateShare | server/src/frost/frost.ts:160-173 | the accumulator loop evaluates the dealer's polynomial |
| Frost.LagrangeCoefficient | server/src/frost/frost.ts:235-247 | the num/den loop computes the coefficient or its error |
| FrostTheorems.CoefficientIsLambda | server/src/frost/frost.ts:235-247 | for distinct identifiers below L the loop's result is the Lagrange coefficient of the set |
| FrostTheorems.CoefficientRefuses | server/src/frost/frost.ts:245 | the coefficient fails exactly when another identifier is congruent to its own |
| FrostTheorems.OwnSkipped | server/src/frost/frost.ts:239-244 | however often the own identifier is repeated in the list, the coefficient is that of the list without it |
| Frost.ComputeGroupCommitment | server/src/frost/frost.ts:222-228 | the loop adds every hiding point and scaled binding point of the sorted list, or fails on one that does not decode |
| FrostTheorems.GroupCommitmentSum | server/src/frost/frost.ts:222-228 | the group commitment is the sum of the signers' nonce terms |
| FrostTheorems.DerivedR | server/src/frost/frost.ts:211-233 | decodable commitments of distinct participants always derive a transcript whose R is that sum |
| Frost.Aggregate | server/src/frost/frost.ts:320-333 | the summing loop gives R and the sum of the shares, or the error of a duplicate, a wrong count or an undecodable point |
| FrostTheorems.ShareAcceptedIffHonest | server/src/frost/frost.ts:262-317 | a share is accepted if and only if it equals, mod L, what round2Sign gives |
| FrostTheorems.AcceptedIffExpected | server/src/frost/frost.ts:295-317 | share verification decides exactly the congruence with the expected partial, for anyone's decodable commitments |
| FrostTheorems.AggregateVerifiesIff | server/src/frost/frost.ts:320-342 | an aggregate verifies if and only if the shares sum to R plus the group secret times the hash of R, key and message |
| FrostEquations.VerificationEquation | server/src/frost/frost.ts:336-342 | a signature verifies if and only if its z is reduced and equals R plus the key times the hash of R, key and message |
| FrostEquations.SignatureBindsMessage | server/src/frost/frost.ts:114 | under a key that is not the identity, a signature that verifies for one message verifies for another if and only if the hashes of the two with R and the key agree modulo L |
| FrostEquations.FactorSpelledOut | server/src/frost/frost.ts:211-220 | a binding factor is the hash, under its own context, of the key, the message, the whole list and the identifier |
| FrostEquations.SignsIff | server/src/frost/frost.ts:262-283 | round 2 signs if and only if the identifiers differ, the own entry matches the own nonzero nonces, every point decodes and no other identifier clashes with the own |
| FrostTheorems.AcceptedAggregateVerifies | server/src/frost/frost.ts:295-342 | t or more accepted shares aggregate to a signature that verifies |
| FrostTheorems.HonestCeremonyVerifies | server/src/frost/frost.ts:153-342 | any t or more honest signers of a dealt group, any nonces, any message: the signature verifies |
| FrostTheorems.OneShortVerifiesIffChallengeZero | server/src/frost/frost.ts:86-92 | t - 1 honest signers: the aggregate verifies only if the hash of R, key and message is 0 modulo L |
| FrostTheorems.OrderIrrelevant | server/src/frost/frost.ts:204-333 | permuting the commitment list changes no binding factor, commitment, challenge, partial or aggregate |
| FrostTheorems.EncodingInjective | server/src/frost/frost.ts:211-220 | the encoding hashed into the binding factors is injective on lists with 32-byte fields |
| FrostTheorems.SuiteExists | server/src/frost/frost.ts:48-70 | every prime that fits 32 bytes has a group encoding as the model assumes |
| Ceremony.RunCeremony | server/src/coordinator/pipeline.ts:133-197 | ends at the first member without a commitment, then at the first reply that is not an accepted share, else with the aggregate |
| Ceremony.FirstReplyDecides | server/src/coordinator/pipeline.ts:155-184 | the first reply that is not an accepted share decides and names its sender: no answer or an error status fails round 2, a refusal refuses, a rejected share is a bad partial, one that cannot be checked throws |
| Ceremony.AcceptedCeremonySigns | server/src/coordinator/pipeline.ts:167-196 | accepted shares of t distinct members always sign, with no assumption on the commitments |
| Ceremony.AggregationNeverFails | server/src/coordinator/pipeline.ts:186-196 | AGGREGATION_FAILED and AGGREGATE_SIGNATURE_INVALID are unreachable; a token is signed if and only if every reply was an accepted share; refusals and bad partials name the member that sent them |
| Ceremony.PoolShrinks | server/src/coordinator/pipeline.ts:474-489 | a refusal removes exactly one member from the pool |
| Ceremony.ChosenAreFirst | server/src/coordinator/pipeline.ts:474-489 | a ceremony takes exactly the first t members, in the order they were found online, that have not refused |
| Ceremony.SignWithSpares | server/src/coordinator/pipeline.ts:471-515 | the refusal loop: each ceremony runs with the first t members that have not refused, at most online - t + 1 ceremonies run, and it ends with the first outcome that is no refusal or with too few members |
| Ceremony.RefuserWasChosen | server/src/coordinator/pipeline.ts:168-173 | a refusal comes from a member of the ceremony |
| Canonical.ComputeSortValue | server/src/common/canonical.ts:10-21 | the recursive loop over sorted keys computes the sorted value |
| Canonical.SortIdentifies | server/src/common/canonical.ts:10-21 | two values sort to the same value exactly when they are equal up to member order at every depth |
| CanonicalText.SortedIsTheOne | server/src/common/canonical.ts:10-21 | the sorted value is the one value whose keys ascend at every depth and that equals the given one up to member order |
| CanonicalText.LessIff | server/src/common/canonical.ts:14-17 | keys are ordered by their first differing UTF-16 unit, a proper prefix first |
| Printer.PrintInjective | server/src/common/canonical.ts:23-25 | different sorted values print differently, whatever follows them |
| Printer.CanonicalJsonIdentifies | server/src/common/canonical.ts:10-25 | canonicalJson(a) = canonicalJson(b) if and only if a and b are equal up to member order at every depth |
| CanonicalText.PlainPrints | server/src/common/canonical.ts:23-25 | text without quotes, backslashes, controls and surrogates prints as itself between quotes |
| CanonicalText.EscapedPrints | server/src/common/canonical.ts:23-25 | what JSON.stringify prints for every other unit: the short escapes, controls and lone surrogates in four lower-case digits, pairs as they are |
| CanonicalText.ValueText | server/src/common/canonical.ts:23-25 | every value as text: the three words, numbers, quoted text, and arrays and objects with single commas and no white space |
| CanonicalText.MessageText | server/src/common/canonical.ts:27-30 | the message signed for a token, character by character: units, reference, meter and nonce under their names in this order |
| CanonicalText.HashedText | server/src/common/canonical.ts:36-38 | a request hash is the digest of this text: units, merchant, meter, id and time under their names in this order |
| Printer.DecimalIsNumberPrinter | server/src/common/canonical.ts:23-25 | the hypothesis on number printing can be met |
| RateLimit.AcceptsIffFewRecent | server/src/coordinator/index.ts:30-45 | a call is accepted if and only if fewer than 20 calls of that merchant were accepted at times t with now - 10000 < t <= now, although the list is pruned |
| RateLimit.WindowNeverExceeded | server/src/coordinator/index.ts:30-45 | no window of that length ever holds more than 20 accepted calls |
| RateLimit.Limiter.RateLimitOk | server/src/coordinator/index.ts:34-45 | accepts exactly when fewer than 20 accepted calls lie in the last 10000 ms, and records the call then |
| Verify.MessageInjective | server/src/common/token.ts:24-36 | different token payloads are different signed messages |
| Verify.HashRequestInjective | server/src/common/canonical.ts:36-38 | different requests have different hashes |
| Verify.DebitPassesIff | server/src/signer/verify.ts:52-87 | a debit passes for a request if and only if the bank signed it for this request, meter and units at the member's own price and currency |
| Verify.BodyPassesIff | server/src/signer/verify.ts:93-128 | a round-2 body passes if and only if its debit does, its token is the debit's meter, units, reference and the first 32 characters of the digest of prefix and reference, and its message is the canonical JSON of that token |
| Verify.NoncesApartIff | server/src/common/token.ts:24-36 | two debits get different nonces if and only if the digests of the prefix with their references differ within 32 characters |
| Verify.OneMessagePerDebit | server/src/signer/verify.ts:93-128 | two bodies that pass the checks carry the same message exactly when their debits agree in reference, meter and units |
| Bank.DebitKeepsInvariant | server/src/bank/index.ts:69-142 | one entry per request and per reference; only confirmed entries carry the bank's signature |
| Bank.ReverseKeepsInvariant | server/src/bank/index.ts:145-158 | the reversal log lists the reversed entries, once each |
| Bank.EntriesComeFromRequests | server/src/bank/index.ts:105-138 | every logged debit carries exactly the request, meter, units, amount and currency of the call that made it |
| Bank.ReplayReturnsSameDebit | server/src/bank/index.ts:88-95 | after a confirmation every later call for the request returns the same debit, whatever happened in between |
| BankTheorems.LogGrowsIff | server/src/bank/index.ts:69-142 | a debit call changes the bank if and only if it names a request and a meter, the request is new and the mode takes money; declined, timed out, replayed and malformed calls leave everything as it was |
| BankTheorems.TakenAsAsked | server/src/bank/index.ts:105-142 | a debit that is taken carries the request, meter, units, amount and currency of the call, and the bank's signature unless the mode omits it |
| BankTheorems.AnswerIff | server/src/bank/index.ts:69-107 | what a caller hears in each mode: a known request is answered with its own debit in every one of them |
| BankTheorems.ReversesIff | server/src/bank/index.ts:145-158 | a reversal is acknowledged if and only if the reference is logged; then that entry and no other is reversed and the reversal log lists it exactly once |
| Bank.BankService.PostDebit | server/src/bank/index.ts:69-142 | the handler over the two indexes and the log does what a scan of the log would |
| Bank.BankService.PostReverse | server/src/bank/index.ts:145-158 | marks the shared entry in place and logs the reversal once |
| Meter.DeliverKeepsInvariant | server/src/coordinator/meter.ts:22-47 | whatever tokens are presented, at most one dispense per reference |
| Meter.MeterService.Check | server/src/coordinator/meter.ts:22-36 | the non-mutating check |
| Meter.MeterService.Deliver | server/src/coordinator/meter.ts:40-47 | dispenses an accepted token once; every balance is the sum of what was dispensed to it |
| MeterTheorems.AcceptedIffFirst | server/src/coordinator/meter.ts:22-47 | over everything ever presented, a token is accepted if and only if the group signed its payload and no token accepted before shares its nonce or reference |
| MeterTheorems.DispensedAreTaken | server/src/coordinator/meter.ts:40-47 | what was dispensed is the units of the accepted tokens to their meters, in order |
| MeterTheorems.OtherDebitAccepted | server/src/coordinator/meter.ts:22-47 | however many tokens of other debits a meter took, it accepts the token of one whose reference and reference digest differ |
| Approvals.ReadApprovals | server/src/common/chain.ts:238-264 | the map-filling scan throws if and only if a member's transaction in the window carries a null approval, and otherwise returns each member's newest verdict in the window and no other |
| Approvals.ScanMemos | server/src/common/chain.ts:251-261 | the first matching memo of a transaction counts, and only for a member not yet seen; a null approval throws wherever it stands, also for a member already seen |
| Approvals.WindowAgrees | server/src/common/chain.ts:243-264 | the bounded scan says of every member the window mentions what the full scan says, so its quorum is a quorum of the whole ledger |
| Approvals.WindowApproverOnLedger | server/src/common/chain.ts:243-264 | an approver seen in any window, stale or not, has an approving transaction on the ledger |
| Approvals.CountedOnLedger | server/src/signer/index.ts:226-234 | a quorum counted in any window, stale or not, is on the ledger |
| Approvals.PostedApprovalsCount | server/src/common/chain.ts:243-264 | approvals of different members posted last are all counted, whatever the ledger said of those members before; the scan that counts them answers if and only if no other member's transaction in its window carries a null approval |
| Approvals.OneNullStopsReads | server/src/common/chain.ts:243-264 | the input at which every read throws: one null approval of a member with fewer than 200 transactions after it, whatever they are |
| Approvals.OnChainApproveCount | server/src/signer/index.ts:226-234 | up to four reads; a quorum is reported if and only if some read saw it before any threw, and the call throws if and only if a read threw before a quorum was seen |
| ApprovalTheorems.CountedIff | server/src/common/chain.ts:238-264 | a member counts as approving if and only if the newest of the last 200 transactions from its accounts that speaks of the request approves it |
| ApprovalTheorems.NewestDecides | server/src/common/chain.ts:245-261 | a member's verdict, hash and account are those of its newest transaction that speaks of the request |
| ApprovalTheorems.FirstMemoDecides | server/src/common/chain.ts:251-261 | a transaction says of a request what its first memo about it says |
| Attestation.Attester.HandleValidate | server/src/signer/index.ts:189-215 | returns the recorded verdict or starts one posting |
| Attestation.Attester.ResumeValidate | server/src/signer/index.ts:215-222 | records the verdict when the posting answered; after a throw nothing is recorded and the transaction stays in flight |
| Attestation.SecondPostingIff | server/src/signer/index.ts:191-216 | after any run, a call that starts a posting can be followed, without another call for its request, by a second attestation on the ledger if and only if the request was on the ledger already or in flight from any earlier call, answered or thrown |
| Attestation.OneAttestationPerRequest | server/src/signer/index.ts:191-216 | one attestation per request when every call that starts a posting finds the request neither on the ledger nor in flight from any earlier call, answered or thrown |
| Attestation.ApprovesIff | server/src/signer/index.ts:198-215 | a member approves if and only if it is willing, the request has the on-chain hash and the bank signed a debit for its id, meter and units at the member's price |
| Attestation.RecordedWasCalled | server/src/signer/index.ts:191-222 | in every run, what a member records, posts or has in flight for a request is the verdict of a call for that request |
| Attestation.Live | server/src/signer/index.ts:169-222 | a member object that lives through any calls, replies and ledger events ends as the machine does, and attests each request once when the calls were orderly |
| Signer.SignerService.SweepExpiredSessions | server/src/signer/index.ts:87-95 | the deleting loop keeps exactly the sessions that have not expired |
| Signer.SignerService.HandleRound1 | server/src/signer/index.ts:143-163 | a fresh nonce pair replaces whatever the session held |
| Signer.SignerService.HandleRound2 | server/src/signer/index.ts:267-321 | round 2 up to the awaited ledger read, with every refusal and failed check |
| Signer.SignerService.ResumeRound2 | server/src/signer/index.ts:327-357 | round 2 after the ledger read |
| SignerTheorems.AdmittedIff | server/src/signer/index.ts:267-321 | a round-2 call waits if and only if the member is online, willing and has its keys, the session is at most five minutes old and the body passes; it waits with that session's nonces |
| SignerTheorems.SignsIffQuorum | server/src/signer/index.ts:323-357 | after its read a call signs if and only if a quorum was counted, once, with the nonces and body it waited with |
| SignerTheorems.CommitsIff | server/src/signer/index.ts:143-163 | round 1 holds a pair that nothing used before, for five minutes, if and only if the member is online with its share and the session is named |
| Signer.NoncesSignOnce | server/src/signer/index.ts:267-357 | without overlapping calls on one session every nonce pair enters round2Sign at most once, across refusals, failed checks, retries, sweeps and failed reads |
| Signer.ReuseIffOverlap | server/src/signer/index.ts:289-356 | when a call is admitted, some continuation reuses a nonce pair if and only if the call overlaps another |
| Signer.OverlapReusesNonce | server/src/signer/index.ts:289-356 | two overlapping calls sign twice with one nonce pair |
| Signer.ConsumedIff | server/src/signer/index.ts:311-356 | in every run, a nonce pair whose call passed the checks is gone when the call ends if and only if the ledger read answered or the pair was replaced, swept or deleted meanwhile |
| Signer.FailedCheckConsumes | server/src/signer/index.ts:277-321 | a pair presented to a refusing member, or with a body that fails the checks, is gone at once |
| Signer.ThrownReadKeepsSession | server/src/signer/index.ts:327-329 | the input at which a presented session is not consumed: its read throws, and it can be presented again |
| Signer.Serve | server/src/signer/index.ts:143-357 | a member object that meets any events ends as the machine does, and signs at most once with every nonce pair when no calls overlapped |
| Signer.PairedDoNotOverlap | server/src/coordinator/pipeline.ts:143-176 | calls whose every round 2 follows a round 1 of its own never overlap, whatever times out, throws or expires in between |
| Signer.PairedSignOnce | server/src/coordinator/pipeline.ts:143-176 | such calls sign at most once with every nonce pair |
| OpenWorld.StepKeeps | server/src/signer/index.ts:169-357 | every step of an arbitrary sender keeps the invariant |
| OpenWorld.AcceptedIsConfirmed | server/src/coordinator/meter.ts:22-47 | a token the meter accepts is for a confirmed debit's reference, meter and units |
| OpenWorldTheorems.OneDispensePerDebit | server/src/coordinator/meter.ts:22-47 | in every run each confirmed debit is dispensed at most once, to the attested meter, for the attested units |
| OpenWorldTheorems.ThresholdIsExact | server/src/signer/index.ts:267-357 | dispenses are always of confirmed debits if and only if fewer than threshold members are corrupt |
| OpenWorldTheorems.UnitsConserved | server/src/bank/index.ts:105-138 | for any choice of meters, confirmed units are the dispensed ones plus those of debits not dispensed, gross of reversals |
| OpenWorldTheorems.WithinConfirmedIff | server/src/bank/index.ts:69-86 | dispensed units never exceed confirmed units if and only if the bank is only asked for non-negative units |
| OpenWorldTheorems.PartialsHaveQuorum | server/src/signer/index.ts:323-345 | behind every signing stand approvals of at least quorum members for the hash of exactly that request, the bank's signature on a confirmed debit for its id, meter and units at the consortium's price, and the one message of that debit; with an honest approver the request is paid for |
| OpenWorldTheorems.HonestApprovalIsValidated | server/src/signer/index.ts:198-215 | in every run, an honest member's approval of a hash on the ledger is of the one request with that hash, and the bank signed and confirmed a debit for its id, meter and units at the consortium's price |
| HonestRuns.HonestMembersSuffice | server/src/signer/index.ts:143-357 | from every reachable world, a confirming bank, a quorum of honest members and the members' shares give a new request exactly its units, under a debit at their price |
| PipelineTheorems.UnansweredStays | server/src/coordinator/pipeline.ts:268-562 | an event that answers no call of a run leaves its record alone and the run where it waits, whatever it does to other runs, the bank and the ledger |
| PipelineSteps.UnclaimedDebit | server/src/coordinator/store.ts:155-160 | a verified debit of a request that holds none is unclaimed |
| PipelineSteps.TokenStillAccepted | server/src/coordinator/meter.ts:22-36 | the token of a run that has not delivered is acceptable at every moment |
| PipelineRuns.StepKeeps | server/src/coordinator/pipeline.ts:268-562 | every event at every await keeps the invariant |
| PipelineTheorems.HistoryGrammar | server/src/coordinator/pipeline.ts:268-562 | histories are PENDING, a prefix of the five stages and one terminal status: DELIVERED after all five, REJECTED straight after PENDING, REJECTED_ABANDONED after DEBIT_CONFIRMED |
| PipelineEvidence.DeliveredHasEvidence | server/src/coordinator/pipeline.ts:399-552 | for a delivered request the ledger holds approvals of at least quorum members for its hash, and its token is the one its debit authorises, signed with an accepted share of each of exactly threshold different members and verified under the group key |
| PipelineEvidence.RejectedIffUnconfirmed | server/src/coordinator/pipeline.ts:333-398 | a run whose debit call ended is REJECTED if and only if what came back was not a verified debit for its request |
| PipelineEvidence.RejectedWithDebitIff | server/src/coordinator/pipeline.ts:49-53 | a run that made its call is REJECTED with a confirmed debit in the bank's log if and only if the bank confirmed one and what came back was not that debit |
| PipelineTheorems.CeremoniesBounded | server/src/coordinator/pipeline.ts:471-515 | at most online - t + 1 ceremonies are started |
| PipelineTheorems.ReplyAdvances | server/src/coordinator/pipeline.ts:268-562 | every reply, throw included, brings a run nearer to its end |
| PipelineTheorems.EveryRunTerminates | server/src/coordinator/pipeline.ts:268-562 | a run ends after at most 11 replies and has ended exactly when its status is terminal |
| PipelineTheorems.ThrowsEnd | server/src/coordinator/pipeline.ts:553-561 | wherever a run is suspended, two throws bring it to a complete history |
| PipelineTheorems.OneDispensePerDebit | server/src/coordinator/meter.ts:40-47 | under any interleaving each debit is dispensed at most once, as attested, for the run that claimed it |
| PipelineTheorems.ClaimSucceeds | server/src/coordinator/pipeline.ts:386-398 | DEBIT_ALREADY_CONSUMED is unreachable |
| PipelineTheorems.ReceiptThenDelivery | server/src/coordinator/pipeline.ts:520-552 | a token that passed the pre-check is still accepted after the receipt, so a confirmed receipt is followed by DELIVERED |
| PipelineTheorems.AuditIsDelivered | server/src/coordinator/store.ts:375-377 | the audit trail is exactly the receipts of delivered runs, each once |
| PipelineTheorems.DeliveredNotReversed | server/src/coordinator/pipeline.ts:56-67 | the coordinator never asks to reverse a debit whose token was delivered |
| PipelineTheorems.DebitOutcomes | server/src/coordinator/pipeline.ts:56-82 | a debit ends delivered and unasked, or reversed in the bank's log, or abandoned without a confirmed reversal |
| PipelineWitnesses.DebitToDelivery | server/src/coordinator/pipeline.ts:401-552 | from any reachable state with a confirmed debit, a quorum posting approvals and enough online members with signing replies bring it to DELIVERED if and only if no other member's transaction in the read window carries a null approval, and otherwise to asking for the reversal |
| PipelineWitnesses.LostReplyRejects | server/src/coordinator/pipeline.ts:335-347 | from any reachable state, a debit call the bank confirms and whose reply is lost ends REJECTED with the price of the requested units taken, for the request and its meter, and no reversal asked for |
| PipelineReceipts.ReceiptAuditedIff | server/src/coordinator/pipeline.ts:535-552 | whatever follows the end of a receipt's call, a receipt that reached the ledger stays there, and every receipt of the run there, on time or late, is audited and its token delivered if and only if the reply came back confirmed |
| PipelineWitnesses.AskedAgainIff | server/src/coordinator/index.ts:70-90 | asked again for a delivered request, the route changes nothing if and only if the id is still retained |
| PipelineWitnesses.RerunUndoesDelivery | server/src/coordinator/store.ts:130-133 | once its id is evicted, a delivered request asked for again ends in asking the bank to reverse the delivered debit, without any call failing |
| PipelineSpares.LoopIsEvents | server/src/coordinator/pipeline.ts:471-515 | what the refusal loop returns is where the machine ends after the same replies as ceremony events |
| PipelineOutcomes.DebitAsRequested | server/src/coordinator/pipeline.ts:322-399 | from any reachable state a run's debit call takes the price of its units for its request and meter, every willing member approves that debit, and its answer takes the run to publication |
| PipelineOutcomes.DeliveredOnOwnDebit | server/src/coordinator/pipeline.ts:322-552 | whatever follows a handled debit call, if the run is delivered, the requested units went to the requested meter under that one debit |
| PipelineOutcomes.StartsIff | server/src/coordinator/index.ts:67-90 | a request starts a run if and only if its id is not retained and the limiter admits it |
| PipelineOutcomes.RetainsNewest200 | server/src/coordinator/store.ts:122-137 | after every run the retained requests are the newest 200 that started |
| PipelineOutcomes.UnknownMerchantRejected | server/src/coordinator/pipeline.ts:273-295 | a request of an unknown or revoked merchant is REJECTED for ever and no debit call of it is ever handled |
| PipelineOutcomes.PreflightDecides | server/src/coordinator/pipeline.ts:304-320 | with fewer than threshold members online before the debit, the request is REJECTED for ever and no debit call of it is ever handled; otherwise the call is next |
| PipelineOutcomes.PollsDecide | server/src/coordinator/pipeline.ts:409-470 | with the debit taken, a poll with fewer than threshold members asks for the reversal of exactly that debit, and any other goes on |
| PipelineOutcomes.ApprovalsDecide | server/src/coordinator/pipeline.ts:421-443 | a read of the ledger goes on if and only if it answers and shows a quorum for this very request; every other read gives the run up |
| PipelineOutcomes.CeremonyDecides | server/src/coordinator/pipeline.ts:471-528 | a ceremony that signs goes on to the receipt, a refusal that leaves enough members to another ceremony without the refuser, and everything else to the reversal |
| PipelineOutcomes.ReversalCompletes | server/src/coordinator/pipeline.ts:56-82 | from any reachable state a reversal that is waited for can be made, ends the run with it on record, and reverses that entry and no other |
| PipelineOutcomes.ReceiptFields | server/src/coordinator/pipeline.ts:530-552 | a delivered request's receipt holds the hash of its own request and the digest of its own debit's reference, and its token the debit's meter, units and reference |
| PipelineOutcomes.DeliveredSignature | server/src/coordinator/pipeline.ts:471-528 | what a delivered request's ceremony signed is the UTF-8 text of its own token, with an accepted share of that text from each of exactly threshold different members |
| PipelineOutcomes.PrecheckGuards | server/src/coordinator/pipeline.ts:520-528 | in any state at all, a token goes on to its receipt if and only if the meter would accept it |
| PipelineOutcomes.ClaimGuards | server/src/coordinator/pipeline.ts:386-398 | in any state at all, a debit that another request claimed is rejected before publication |
| Reconciliation.DeltaIsStuck | server/src/coordinator/store.ts:390-419 | in every reachable state the divergence is the number of retained requests with a taken debit, no delivery and no confirmed reversal; it is 0 exactly when every reversal succeeded |
| Coordinator.Store.ComputeReconciliation | server/src/coordinator/store.ts:390-419 | the set-filling loop computes the specification, in any iteration order |
| Coordinator.Store.CreateRecord | server/src/coordinator/store.ts:122-137 | the newest record first, the oldest evicted beyond 200 |
| Coordinator.Store.ClaimDebitRef | server/src/coordinator/store.ts:155-160 | refuses exactly a reference another request claimed |
| Coordinator.Store.PostRequest | server/src/coordinator/index.ts:67-90 | answers 200 for a retained id before the limiter, 429 or 202 for any other, an evicted one included, and is the machine's step |
| Coordinator.Store.OnDebitReply | server/src/coordinator/pipeline.ts:333-399 | the segment after the bank's reply, with its four rejections |
| Coordinator.Store.OnPublishReply | server/src/coordinator/pipeline.ts:401-408 | the segment after publication |
| Coordinator.Store.OnApprovals | server/src/coordinator/pipeline.ts:421-443 | scans the window, counts the approvals and goes on or abandons, as the machine's step |
| Coordinator.Store.OnCeremonyEnd | server/src/coordinator/pipeline.ts:474-528 | runs the ceremony on the first members of the pool, then spare, abandon, or token and pre-check, as the machine's step |
| Coordinator.Store.OnReceiptReply | server/src/coordinator/pipeline.ts:535-552 | the segment after the receipt: audit, delivery, terminal state |
| Coordinator.Store.AbandonRun | server/src/coordinator/pipeline.ts:56-67 | asks for the reversal of the held debit and waits |
| Coordinator.Store.EndAbandoned | server/src/coordinator/pipeline.ts:66-82 | records whether the reversal was confirmed and ends the run |
| Coordinator.Store.OnThrow | server/src/coordinator/pipeline.ts:553-561 | the backstop: no exception leaves a run open |
| Deployment.Services.Handle | server/src/coordinator/pipeline.ts:268-562 | every allowed event, handled by the objects in place, is the machine's step |
| Deployment.Play | server/src/coordinator/pipeline.ts:268-562 | playing any allowed events on new objects ends in the machine's state |
| Deployment.Services.Monitor | server/src/coordinator/store.ts:390-419 | in every state the objects can get to, the report is the delivered requests, those plus the stuck ones, the delivered ones, and the number stuck |
| JointWorld.JointRun | server/src/coordinator/pipeline.ts:268-562 | however the coordinator's events and the members' interleave, one side is a run of the pipeline machine and the other a run of the open world, and both see the same bank, ledger and meter |
| JointWorld.DeliveredByHonest | server/src/signer/index.ts:267-357 | with fewer than threshold corrupt members, behind every delivered token stands an honest member that released a share of its very message, after checking the bank's signature on a confirmed debit for the request, its meter and units at its price, with approvals of that request by a quorum on the ledger |
| JointWorld.DeliveredAsRequested | server/src/coordinator/pipeline.ts:268-562 | with fewer than quorum corrupt members, a delivered request was dispensed exactly its own units to its own meter, under a debit the bank confirmed for it at the price of those units |
| Mirror.MoveMirrorsIff | dashboard/src/store.ts:28-34 | a broadcast transition is mirrored if and only if its record is still retained |
| Mirror.DoMirrors | server/src/coordinator/store.ts:122-363 | each store operation and its events keep client and server equal |
| Mirror.ClientMirrorsServer | dashboard/src/store.ts:53-101 | whenever a client connects, hello and all later events leave it with the server's alerts, meters, members, merchants, governance log, bank and consortium status, and the same requests in order with status and history |
| Mirror.Broadcast | dashboard/src/store.ts:53-101 | a store object that performs any operations, with a client connecting in the middle, leaves the client with what the store then holds |
| Mirror.BroadcastStore.ChangeMember | server/src/coordinator/store.ts:238-245 | the log entry is broadcast before the consortium status |
| Mirror.BroadcastStore.DebitAttempted | server/src/coordinator/store.ts:278-283 | the outcome window and the emit-if-changed rule |
| Mirror.BroadcastStore.Credit | server/src/coordinator/store.ts:352-363 | an unknown meter is added last, then credited |
| MirrorTheorems.OutcomesAreLast20 | server/src/coordinator/store.ts:278-283 | after any operations the outcome window is the last 20 debit attempts |
| MirrorTheorems.RateIsRounded | server/src/coordinator/store.ts:257-261 | the confirmation rate is the percentage in the window rounded to the nearest integer, 100 without attempts |
| MirrorTheorems.QuorumIff | server/src/coordinator/store.ts:306-335 | a quorum is reachable if and only if at least threshold of the polled members are online and active |
| MirrorTheorems.AlertsAreNewest100 | server/src/coordinator/store.ts:168-175 | after any operations the alerts are the newest 100 |
| MirrorTheorems.BalancesAreCredits | server/src/coordinator/store.ts:352-363 | after any operations a meter's balance is what it had plus what was credited to it and to no other, and its dispenses grew by the number of those credits |
| MirrorTheorems.RevokedAsDecided | server/src/coordinator/store.ts:230-236 | after any operations a registered merchant is revoked if and only if the last decision about it revoked it |
| MirrorTheorems.ActiveAsDecided | server/src/coordinator/store.ts:238-245 | after any operations a member is active if and only if the last decision about it made it so |
| MirrorTheorems.LogIsNewest200 | server/src/coordinator/store.ts:205-228 | after any operations the governance log is the newest 200 entries, of decisions about registered parties only |
| MirrorTheorems.ConfirmedLast | server/src/coordinator/store.ts:278-283 | after any operations the last confirmation is that of the last confirmed attempt |
| MirrorTheorems.ShownAsPolled | server/src/coordinator/store.ts:272-276 | after any operations the bank and the members are shown as last polled |
| MirrorTheorems.RowIsOwn | server/src/coordinator/store.ts:122-153 | a request's row is made by the operations on it alone: PENDING when created, every move appended to its history |
| MirrorTheorems.ClientShowsLastReport | dashboard/src/store.ts:53-101 | a client shows the divergence report of its hello or the last one broadcast since |

## Left out

- Primality of the concrete L, curve arithmetic, cofactor and torsion: the group has prime order, and points are byte strings; hex case in commitment comparison is not modelled.
- Randomness: nonces, dealer coefficients, debit references and uuids are inputs; round 1's derivation of nonces from the share is not modelled.
- The ledger client, wallets, encryption of the published request, multisign assembly and its signature quorum: the ledger is an append-only list of transactions, and a receipt is one submission, on time, late or lost, with or without a reply.
- Several awaits of one step (preparing, fragments and submission of a receipt; the member polls; the two rounds of a ceremony) are one await whose outcome is any of theirs.
- Coordinator.Store.PostRequest: when an evicted id whose older run is still suspended is requested again, the model forgets the older run, and the code lets both go on.
- Alerts, reasons, attributions and log lines of the pipeline; alert ids matter only in the mirror.
- Rounding of prices and balances: the price is one shared function, balances are exact sums.
- Keys that JavaScript treats specially (integer-like names, `__proto__`) in canonical JSON, and strings outside UTF-16 well-formedness.
- Shape checks of HTTP bodies beyond what decides a branch.
- The client's demo fields, toasts, reconnection and polling.
- A member's readings of the on-chain request before its map lookup are not separate events, because they change nothing.
- OpenWorld.StepKeeps: a member's online switch does not gate its attestations, so the model allows more runs than the code.
- Coordinator.Store.ComputeReconciliation: the chart series and the divergence alert are not modelled.
- Mirror.ClientMirrorsServer: fields of a request other than status and history may lag, as the server sets some of them before the next broadcast.
- The members' co-signing of receipt fragments and its own approval count (server/src/signer/index.ts:237-264).
- Demo scenarios, health timers and the mock server.
