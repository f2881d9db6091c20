# Verification of the pactmark core

A Dafny model of six connected parts of the repository, with proofs of the properties they are for. Each part
keeps the form of its source: classes for objects that update fields, loops where the source loops, functions and
lemmas elsewhere. Methods are proved equal to specification functions, and the lemmas say what those functions
guarantee over all inputs or over all runs.

1. **Canonical JSON** (`Utf16`, `Decimal`, `JsonValue`, `JsonStrings`, `JsonGrammar`, `JsonReader`,
   `StrictParser`, `JsonPrinter`, `JsonRoundTrip`, `JsonTexts`, `JsonEscapes`, `JsonCanonicalForm`, `JsonTokens`,
   `Sha256`, `Sha256Standard`, `Digests`, `CodePoints`, `CanonicalDigests`). Concrete JSON texts are trees that record every choice of a writer. The printer and the parser
   are related through them, not through each other: the parser accepts exactly the renderings of valid trees, and the
   printer writes exactly the one that the canonical rules allow. Round trips, the normal form and injectivity follow.
   SHA-256 follows FIPS 180-4 sections 4.1.2, 4.2.2, 5.1.1, 5.3.3 and 6.2.2, constants included; strings, numbers and sorting follow RFC 8785 sections 3.2.2.2, 3.2.2.3 and 3.2.3 and RFC 8259
   sections 2, 6 and 7.
2. **Run state machine** (`RunEvents`, `RunAcceptance`, `RunLogs`, `RunFields`, `EventShapes`, `RunProgress`, `Artifacts`,
   `Replay`). The guarded
   reducer, its fold over logs, the events that continue a log, and the read-only replay with its hash chain.
3. **Fenced lease queue and delegated authority** (`Keys`, `LeaseQueue`, `LeaseRuns`, `LeaseClaims`, `LeaseActs`,
   `WorkerAuthority`, `WorkerFencing`). Each transaction is one atomic step over two tables; runs are arbitrary interleavings of steps and
   the passing of time.
4. **Authorization reservations and admission quota** (`Reservations`, `ReservationStores`, `Admission`,
   `AdmissionRuns`, `AdmissionLimits`, `AdmissionRounding`).
5. **Evidence builder** (`Ordering`, `Evidence`, `EvidenceBuilder`, `EvidenceOrder`, `EvidenceVouches`, `EvidenceInputs`,
   `EvidenceGate`, `GateMismatch`).
6. **Redaction, export and safe rendering** (`Redaction`, `MutableJson`, `RedactionInPlace`, `Exports`, `SafeText`,
   `SafeLexing`, `SafeMultiline`, `SafeRendering`).

`dafny verify dfyconfig.toml` checks the whole project.

## Conventions

- Strings are sequences of UTF-16 code units (`Utf16.Text`). Objects are finite maps. Numbers are reals with the
  engine's conversions `Number(token)` and `JSON.stringify(number)` as a parameter; `JsonValue.Faithful` lists what is
  assumed of them, and `IntegerEngineFaithful` shows that the assumptions can be met.
- Map keys that the source builds with `canonicalJsonStringify([...])` are tuples in the model;
  `TupleKeysInjective` is the reason this loses nothing.
- `digestCanonicalJson` is a parameter outside part 1. Freedom from collisions is never assumed of all values: results
  either name the two colliding items as the alternative, or require it of the listed items only. Lease ids are the
  exception: `LeaseRuns.CollisionFree` is assumed of the digest that names them.
- The addition of doubles is a parameter of the admission controller (`Admission.Adder`). Each result names what it
  assumes of it; `AdmissionRounding.CoarseAddFaithful` shows that the assumptions can be met together.
- Times are integers in milliseconds, passed to each operation. A thrown error is an `Err` with its code; messages,
  paths and offsets in errors are not modelled.
- A field named `rest` stands for the remaining fields of a record, which the modelled code only copies, compares or
  digests.

## Where the code does less than its description

- `safeCanonicalJson` is described as writing JSON escapes, but above U+FFFF it writes `\u{...}`, which no JSON parser
  accepts. `SafeTextParsesExactly` gives the exact condition.
- `EffectAbandoned` has a projection update, but no status admits the event (`LogShape`).
- Leaving a wait by `PlanningStarted` or `ExecutionStarted` keeps the id of what was waited for (`StaleDecision`,
  `StaleRequest`); `LeftBehindExactly` says when, and `ExactPointers` which id.
- The reducer does not compare the event that ends a suspension with the resume target: any work may be started
  (`Resumes`), and an answer or an approval is admitted too (`AcceptedExactly`) and keeps the target
  (`ResumeTargetExactly`).
- `claim` looks only at the lease. If a lease lapses between recovery and claim, a second wakeup of the run can overtake
  the first, which then stays claimed for ever and makes every later `recoverStale` of its tenant fail
  (`ClaimKeepsAgreementExactly`, `OvertakenBlocksRecovery`, `RecoveryCanBeBlocked`).
- A repeated `reserve` of a reservation that was consumed meanwhile is refused as a mismatch, because the stored state
  differs (`ReplayAnswersOnce`, `RepeatAfterConsumeIsRefused`).
- The admission limit is compared with a rounded sum. Ten reservations of 0.1 are admitted under a limit of 1
  (`TenTenthsBreakQuota`), and whole amounts keep a limit exactly when it is below 2^53 (`WholeQuotaExactly`).
  `QuotaKeptExactly` gives the condition for any set of amounts, and `QuotaWithinRounding` bounds the excess for all.
- `verifyDelegated` reports a delegation that is not valid yet as one of another issuer (`VerifyDelegated`).
- The evidence gate matches a required verifier by id or by registration digest, the reducer by id only, so accepted
  evidence can belong to a run that may not complete (`GatesCanDiffer`). `GatesAgreeExactly` gives the exact condition,
  `NamedEvidenceCompletes` one that can be read off the evidence, and `EvidenceGateRefinesReducerGate` the case of the
  local registry, which uses the digest as id.

## Model

| member | source | states |
|---|---|---|
| Utf16.SortedKeysSorts | packages/core/src/serialization.ts:176-176 | sorting the keys of an object gives all of them once, in strictly ascending code-unit order |
| Utf16.AscendingUnique | packages/core/src/serialization.ts:176-176 | the sorted key list depends on the key set alone, so canonical member order is unique |
| Utf16.LessAtFirstDifference | packages/core/src/serialization.ts:176-176 | the order of keys is that of the first code unit where they differ, and a proper prefix comes first |
| Decimal.MatchNumberSound | packages/core/src/serialization.ts:311-316 | the matched prefix is a well-formed number token and nothing of the input is lost |
| Decimal.MatchNumberComplete | packages/core/src/serialization.ts:311-316 | every number token of RFC 8259 section 6 that is delimited is matched whole |
| Decimal.IdentityReduced | packages/core/src/serialization.ts:85-104 | the identity stands for the reduced decimal of exactly the value of the token |
| Decimal.IdentityComplete | packages/core/src/serialization.ts:85-104 | two spellings get one identity string exactly when their exact decimal values are equal |
| Decimal.TokenIdentityComplete | packages/core/src/serialization.ts:85-120 | the same for any two tokens of the loose grammar, at any length and exponent |
| Decimal.SpellingIdentity | packages/core/src/serialization.ts:91-103 | the digit-stripping loops compute that identity |
| Decimal.NormalizedDecimalIdentity | packages/core/src/serialization.ts:85-104 | the method answers exactly the tokens of the loose grammar, with their identity |
| JsonValue.IntegerEngineFaithful | packages/core/src/serialization.ts:71-83 | the assumptions on the number conversions can be met: an engine of safe integers meets them |
| JsonValue.AcceptedIntegerIsExact | packages/core/src/serialization.ts:106-120 | a token read as an integer is accepted only if it denotes exactly the digits written back |
| JsonValue.SafeIntegerTokens | packages/core/src/serialization.ts:106-120 | a token that reads as a safe integer is accepted if and only if it denotes that integer |
| JsonValue.OwnDigitsAccepted | packages/core/src/serialization.ts:317-320 | what the printer writes for a number is accepted and read back as that number |
| JsonValue.TokensAccepted | packages/core/src/serialization.ts:71-120 | a number token is accepted exactly if it reads as finite and, read as an integer, denotes exactly what is written back, in plain digits only up to 2^53 - 1 |
| JsonStrings.AssertValidUnicode | packages/core/src/serialization.ts:43-64 | the loop accepts exactly the texts whose surrogates are paired |
| JsonStrings.CanonicalSpellingDenotes | packages/core/src/serialization.ts:66-69 | the printed escapes are valid and denote the string they spell; `JsonEscapes` says which they are |
| JsonStrings.SpellingIsRead | packages/core/src/serialization.ts:284-309 | any escape spelling is scanned to its closing quote and decoded to what it denotes |
| JsonStrings.DecodeSound | packages/core/src/serialization.ts:284-309 | every decoded literal has a valid spelling that denotes the result |
| JsonStrings.ReadStringComplete | packages/core/src/serialization.ts:284-309 | reading a string succeeds on every valid spelling of a well-formed string |
| JsonStrings.ReadStringSound | packages/core/src/serialization.ts:284-309 | reading a string succeeds only on such a spelling |
| JsonEscapes.ShortestSpelling | packages/core/src/serialization.ts:66-69 | the printed spelling is the shortest of all spellings of the string, and the only one so short with lower-case digits |
| JsonEscapes.QuoteIsShortest | packages/core/src/serialization.ts:66-69 | a printed string is a valid literal of its text, no longer than any other, with its digits in lower case |
| JsonGrammar.MemberMapHolds | packages/core/src/serialization.ts:236-260 | an object maps each spelled key to the value spelled with it, and no other key |
| JsonGrammar.MemberOrderIrrelevant | packages/core/src/serialization.ts:227-261 | member lists that are permutations of each other denote the same object |
| JsonReader.ReadTree | packages/core/src/serialization.ts:215-321 | the parser reads every valid concrete text back to the value it denotes and leaves the rest |
| JsonReader.TreeOf | packages/core/src/serialization.ts:215-321 | whatever the parser accepts is a valid concrete text that denotes the result |
| JsonReader.ParseExact | packages/core/src/serialization.ts:203-213 | parsing returns a value exactly on the texts that spell it, under any blanks, escapes, order and number spelling |
| StrictParser.StrictJsonParser.Whitespace | packages/core/src/serialization.ts:323-327 | the offset moves over exactly the leading blanks |
| StrictParser.StrictJsonParser.Consume | packages/core/src/serialization.ts:329-333 | a word is consumed exactly when the unread text starts with it |
| StrictParser.StrictJsonParser.ScanString | packages/core/src/serialization.ts:287-308 | the scanning loop stops past the first unescaped quote, and fails exactly when there is none before a control character |
| StrictParser.StrictJsonParser.ReadString | packages/core/src/serialization.ts:284-309 | value, error and new offset of the string reader |
| StrictParser.StrictJsonParser.ReadNumber | packages/core/src/serialization.ts:311-321 | value, error and new offset of the number reader |
| StrictParser.StrictJsonParser.ReadValue | packages/core/src/serialization.ts:215-225 | value, error and new offset of the value reader |
| StrictParser.StrictJsonParser.ReadMember | packages/core/src/serialization.ts:237-251 | one member: a new key, a colon and a value, with the duplicate-key check between |
| StrictParser.StrictJsonParser.ReadObject | packages/core/src/serialization.ts:227-261 | value, error and new offset of the object reader |
| StrictParser.StrictJsonParser.ReadMembers | packages/core/src/serialization.ts:236-260 | the member loop builds the object of its members or stops at the first error |
| StrictParser.StrictJsonParser.ReadArray | packages/core/src/serialization.ts:263-282 | value, error and new offset of the array loop |
| StrictParser.StrictJsonParser.Parse | packages/core/src/serialization.ts:208-213 | the whole source is one value and blanks |
| StrictParser.ParseJsonStrict | packages/core/src/serialization.ts:343-346 | the object with its moving offset returns a value exactly on the texts that spell it |
| JsonPrinter.Canonicalize | packages/core/src/serialization.ts:122-201 | the recursive printer with its lists returns the canonical text or the first error |
| JsonPrinter.CanonicalizeItems | packages/core/src/serialization.ts:144-157 | the array loop collects the texts of the items in order |
| JsonPrinter.CanonicalizeMembers | packages/core/src/serialization.ts:175-192 | the member loop collects the members in key order |
| JsonPrinter.CanonicalizeMember | packages/core/src/serialization.ts:188-190 | one member is the quoted key, a colon and the value |
| JsonPrinter.PrintAcceptsPrintable | packages/core/src/serialization.ts:122-201 | printing succeeds exactly on values with well-formed strings and keys and printable numbers |
| JsonPrinter.PrintIsCanonical | packages/core/src/serialization.ts:122-201 | the printed text is the rendering of a valid concrete text that denotes the value |
| JsonCanonicalForm.RulesPrint | packages/core/src/serialization.ts:122-201 | any text that spells a value without blanks, with shortest escapes, own digits and ascending keys is the printed text of that value |
| JsonCanonicalForm.CanonicalFormExactly | packages/core/src/serialization.ts:122-201 | a text is the printed text of a value if and only if it spells the value by those rules |
| JsonTokens.PrintedForms | packages/core/src/serialization.ts:122-192 | the words, brackets, commas and colons of the printed text |
| JsonTokens.QuoteWrites | packages/core/src/serialization.ts:66-69 | a string is printed between quotes, each code unit by itself or by the escape that RFC 8785 section 3.2.2.2 names |
| JsonTokens.EscapesRead | packages/core/src/serialization.ts:284-309 | what each escape of two characters is read as, and that no other is read |
| JsonTokens.BlanksExactly | packages/core/src/serialization.ts:323-327 | the four blanks, and no other character, may stand before any text without changing what is read |
| JsonTokens.UnpairedIsNamed | packages/core/src/serialization.ts:284-309 | a literal with an unpaired surrogate is refused as invalid Unicode |
| JsonTokens.NumberIsNamed | packages/core/src/serialization.ts:311-321 | a number token is read or refused as no number of I-JSON |
| JsonTokens.RepeatedKeyIsNamed | packages/core/src/serialization.ts:237-246 | a key that an earlier member has spelled, however it is spelled, is refused as a duplicate |
| JsonRoundTrip.ParseOfPrint | packages/core/src/serialization.ts:198-201 | whatever prints is parsed back to the same value |
| JsonRoundTrip.PrintInjective | packages/core/src/serialization.ts:198-201 | different values have different canonical texts |
| JsonRoundTrip.SafeValuesPrint | packages/core/src/serialization.ts:198-346 | values with well-formed strings and safe integers always print, and parse back |
| JsonRoundTrip.PrintOfParse | packages/core/src/serialization.ts:203-346 | every parsed value has well-formed strings and keys, prints, and parses back to itself |
| JsonRoundTrip.NormalForm | packages/core/src/serialization.ts:203-346 | two accepted texts print identically exactly when one value is spelled by both |
| JsonRoundTrip.TupleKeysInjective | packages/policy/src/authorization-reservations.ts:32-34 | map keys built as canonical texts of string tuples coincide only for equal tuples |
| JsonTexts.RenderInduction | packages/core/src/serialization.ts:122-201 | a property of the tokens that concatenation keeps holds of every rendered JSON text |
| JsonTexts.PrintIsWellFormed | packages/core/src/serialization.ts:122-201 | the canonical text is well-formed UTF-16 |
| Sha256.PadIsPadding | packages/core/src/serialization.ts:371-378 | the padded length is the minimal multiple of 64 of FIPS 180-4 section 5.1.1 |
| Sha256.PaddingUnique | packages/core/src/serialization.ts:371-378 | the padding of FIPS 180-4 section 5.1.1 is unique, so the copied bytes must be it |
| Sha256.BigEndianSplit | packages/core/src/serialization.ts:377-378 | two 32-bit words hold the 64-bit bit length |
| Sha256.SetUint32 | packages/core/src/serialization.ts:377-378 | four bytes are written big-endian and the rest kept |
| Sha256.CopyInto | packages/core/src/serialization.ts:373-374 | the zero-filled array starts with the input |
| Sha256.PadArray | packages/core/src/serialization.ts:371-378 | the typed-array padding is the padding of the standard |
| Sha256.FillSchedule | packages/core/src/serialization.ts:385-394 | the reused 64-word array holds the message schedule of the block |
| Sha256.Compress | packages/core/src/serialization.ts:395-419 | the eight working variables run the 64 rounds of section 6.2.2 |
| Sha256.HashBlock | packages/core/src/serialization.ts:384-428 | one pass of the loop turns the intermediate hash of n blocks into that of n + 1 |
| Sha256.Sha256 | packages/core/src/serialization.ts:370-435 | the looped computation equals the recursive specification of FIPS 180-4 for inputs below 2^50 bytes |
| Sha256.WriteWords | packages/core/src/serialization.ts:429-434 | the words are written big-endian, in order |
| Sha256Standard.RoundConstants | packages/core/src/serialization.ts:358-367 | the 64 constants are the fractional parts of the cube roots of the first 64 primes |
| Sha256Standard.InitialHash | packages/core/src/serialization.ts:380-382 | the initial hash is the fractional parts of the square roots of the first eight primes |
| Sha256Standard.BigSigma0Bits | packages/core/src/serialization.ts:408-408 | bit by bit, the exclusive or of the word rotated by 2, 13 and 22 |
| Sha256Standard.BigSigma1Bits | packages/core/src/serialization.ts:404-404 | bit by bit, the exclusive or of the word rotated by 6, 11 and 25 |
| Sha256Standard.SmallSigma0Bits | packages/core/src/serialization.ts:390-390 | bit by bit, the exclusive or of the word rotated by 7 and 18 and shifted by 3 |
| Sha256Standard.SmallSigma1Bits | packages/core/src/serialization.ts:391-391 | bit by bit, the exclusive or of the word rotated by 17 and 19 and shifted by 10 |
| Sha256Standard.ChoiceBits | packages/core/src/serialization.ts:405-409 | bit by bit, the choice between two words and the majority of three |
| Sha256Standard.ScheduleRecurrence | packages/core/src/serialization.ts:385-394 | sixteen words of the block, big-endian, then a sum over the words 2, 7, 15 and 16 places before |
| Sha256Standard.RoundRecurrence | packages/core/src/serialization.ts:403-419 | the states are two sequences of words, each following from the four before it |
| Sha256Standard.DigestWords | packages/core/src/serialization.ts:429-434 | the digest read back as eight big-endian words is the last hash |
| Digests.DigestBytesIsDigest | packages/core/src/serialization.ts:437-440 | every digest string has the form that the digest schema asks for |
| Digests.SameDigestBytes | packages/core/src/serialization.ts:437-440 | equal digest strings mean equal bytes or a collision of SHA-256 itself |
| Digests.DigestSpellsHash | packages/core/src/serialization.ts:437-440 | after the prefix the digest string spells the 32 bytes of the hash, the high four bits of each first |
| CodePoints.PointsRoundTrip | packages/cli/src/render.ts:17-18 | splitting a string into code points loses nothing |
| CodePoints.WellFormedExactly | packages/core/src/serialization.ts:43-64 | a text is well-formed exactly when splitting it leaves no surrogate |
| CodePoints.ScalarsRoundTrip | packages/cli/src/render.ts:17-18 | splitting a text made of scalar values gives them back |
| CodePoints.Utf8OfScalar | packages/core/src/serialization.ts:442-444 | each scalar value is encoded in the shortest form of RFC 3629 section 3 |
| CodePoints.EncodingInjective | packages/core/src/serialization.ts:442-444 | UTF-8 encoding of well-formed texts is injective |
| CanonicalDigests.DigestIdentifiesValue | packages/core/src/serialization.ts:442-444 | values with equal canonical digests are equal, or their canonical bytes are a SHA-256 collision |
| RunEvents.ReduceRunEvent | packages/core/src/events.ts:444-564 | checks in order with early exits: the refusal or the projection after the event, field by field |
| RunEvents.AssignStep | packages/core/src/events.ts:494-509 | the events that name the current step, and no others, set it |
| RunEvents.Assign | packages/core/src/events.ts:487-564 | the fresh record takes exactly the fields that the event speaks of |
| RunAcceptance.AcceptedExactly | packages/core/src/events.ts:365-475 | an event is accepted if and only if it is the next one bound to the run and its kind is admitted in the status, listed kind by kind |
| RunAcceptance.RefusedExactly | packages/core/src/events.ts:447-485 | the error of each refusal |
| RunAcceptance.Suspends | packages/core/src/events.ts:526-529 | from planning, running and verifying a run is parked with the target and effect of the event |
| RunAcceptance.Resumes | packages/core/src/events.ts:530-534 | a suspended run starts any work that its kind does, and forgets the target |
| RunAcceptance.SuspendAndResume | packages/core/src/events.ts:526-534 | suspending and starting the work of the target comes back to the status left, with all work kept |
| RunAcceptance.AskAndAnswer | packages/core/src/events.ts:513-518 | an agent asks while it works and goes back to planning with the answer |
| RunAcceptance.AsksForDecision | packages/core/src/events.ts:519-521 | every run asks for a decision before or during its work |
| RunAcceptance.Decides | packages/core/src/events.ts:522-525 | a decision sends the waiting run where it says, except a compensation run to planning |
| RunFields.ActiveEffectExactly | packages/core/src/events.ts:526-541 | an effect is active exactly from the event that prepares or parks it to the next that prepares, parks or acknowledges one |
| RunFields.ResumeTargetExactly | packages/core/src/events.ts:526-534 | a resume target stands exactly from its suspension until work is started or the run parked again |
| RunFields.CurrentStepExactly | packages/core/src/events.ts:493-508 | the current step is the one that the latest change of status with a step named |
| RunFields.ErrorCodeExactly | packages/core/src/events.ts:557-559 | an error code stands exactly after a failure, and is that of its event |
| RunFields.ClearedExactly | packages/core/src/events.ts:545-556 | a verifier has passed or is excepted exactly by an event that records so |
| RunFields.Recorded | packages/core/src/events.ts:542-546 | artifact and verification ids are appended by the events that record them, and by no other |
| RunLogs.ExactPosition | packages/core/src/events.ts:487-493 | run, sequence, last event and time of a replayed projection are those of the log |
| RunLogs.ExactPointers | packages/core/src/events.ts:494-564 | step, resume target, waiting ids, active effect and error code are what the latest event about them says |
| RunLogs.ExactLists | packages/core/src/events.ts:510-564 | artifact, verification, pass and exception lists are exactly those of the log, and the required list that of the acceptance |
| RunLogs.LogShape | packages/core/src/events.ts:444-475 | an accepted log is numbered from one, bound to its run, opened by its only acceptance or an ending failure, never abandons an effect, and nothing follows its terminal event |
| RunLogs.TerminalAtEnd | packages/core/src/run.ts:32-67 | a run is terminal exactly when its last event ends it, and completed exactly at RunCompleted |
| RunLogs.CompletionSafety | packages/core/src/events.ts:477-484 | a completed log has at least two events, starts with the acceptance, and clears every required verifier before its end |
| RunLogs.WaitingFor | packages/core/src/events.ts:514-529 | a run waits exactly while its last event is a request, and then carries the id that event asked for; a suspended run has a resume target |
| RunLogs.LeftBehindExactly | packages/core/src/events.ts:514-539 | a run keeps a decision or request id it does not wait for exactly when the latest event about it is a request that is no longer the last event |
| RunProgress.StaleDecision | packages/core/src/events.ts:523-539 | a concrete well-shaped log leaves the wait for a decision without an answer and keeps its id |
| RunProgress.StaleRequest | packages/core/src/events.ts:514-522 | a concrete well-shaped log leaves the wait for an input without an answer and keeps its id |
| RunLogs.CompensationNeverPlans | packages/core/src/events.ts:417-442 | a compensation run is never planning or waiting for input |
| RunLogs.RebuildAppend | packages/core/src/events.ts:566-574 | replaying a log in two parts is replaying it whole |
| EventShapes.WrittenIsShaped | packages/core/src/events.ts:17-361 | the events of a writer that fills in non-empty ids, dates and digests are accepted by the event schema |
| RunProgress.Progress | packages/core/src/run.ts:32-67 | completion is out of reach of all events exactly when a projection is terminal or a compensation run waiting for input; otherwise events of the schema reach it |
| RunProgress.EveryOpenRunCanComplete | packages/core/src/events.ts:417-564 | after every accepted log of well-shaped events, the run has ended or well-shaped events continue it to RunCompleted |
| Replay.CheckChain | packages/cli/src/cli.ts:182-199 | the index loop reports the first sequence or hash-chain fault |
| Replay.CheckArtifacts | packages/cli/src/cli.ts:222-247 | the artifact loop reports the first missing or altered artifact, or one line for each |
| Replay.CountLinks | packages/cli/src/cli.ts:259-259 | the number of declared links |
| Replay.CommandReplay | packages/cli/src/cli.ts:149-272 | the first failing check, or the report of a fully verified replay |
| Replay.AcceptedReplay | packages/cli/src/cli.ts:149-272 | the replay accepts exactly the terminal runs whose log is identified, chained, replayable, digest-equal and has genuine artifacts |
| Replay.AcceptedByFields | packages/cli/src/cli.ts:149-247 | the same in the fields of the stored projection, the events and the artifacts |
| Replay.LinksOfChain | packages/cli/src/cli.ts:248-262 | an accepted log has fewer links than events, and the chain is verified exactly when only the first event has none |
| Replay.ReportIsTrue | packages/cli/src/cli.ts:248-272 | the report counts events and links, gives the one digest of both projections, and for each artifact in order the digests that its content and material have |
| Replay.ChainIntegrity | packages/cli/src/cli.ts:182-199 | two fully verified logs with the same last event are equal, or two of their events collide |
| Replay.VerifiedReplaysAgree | packages/cli/src/cli.ts:182-266 | two accepted replays with verified chains and one last event replayed the same log |
| Replay.ReplayedCompletionIsSafe | packages/cli/src/cli.ts:213-247 | a stored run that replays as completed has every required verifier cleared and every artifact genuine |
| LeaseQueue.RecoverNext | packages/driver-postgres-worker/src/postgres-queue.ts:129-158 | recovering one more stale row extends the recovered tables, whatever the order |
| LeaseQueue.WorkerQueue.SelectStale | packages/driver-postgres-worker/src/postgres-queue.ts:120-128 | the rows of the stale query, each once |
| LeaseQueue.WorkerQueue.RecoverStale | packages/driver-postgres-worker/src/postgres-queue.ts:117-162 | every overdue claim is returned to pending and its lease expired, or a conflict changes nothing |
| LeaseQueue.WorkerQueue.SelectCandidates | packages/driver-postgres-worker/src/postgres-queue.ts:169-199 | the eligible rows that are available earliest, each once, up to the limit and none left out below it |
| LeaseQueue.WorkerQueue.ClaimWakeups | packages/driver-postgres-worker/src/postgres-queue.ts:164-251 | the selected candidates are claimed in turn, or the transaction is rolled back; `ClaimTransaction` says what that hands out |
| LeaseQueue.WorkerQueue.Renew | packages/driver-postgres-worker/src/postgres-queue.ts:253-280 | both rows get the new deadline, or nothing changes |
| LeaseQueue.WorkerQueue.ReleaseExactLease | packages/driver-postgres-worker/src/postgres-queue.ts:416-435 | only the lease that carries exactly the claim is released |
| LeaseQueue.WorkerQueue.Complete | packages/driver-postgres-worker/src/postgres-queue.ts:282-307 | the wakeup is completed and its lease released, or nothing changes |
| LeaseQueue.WorkerQueue.Release | packages/driver-postgres-worker/src/postgres-queue.ts:309-334 | the wakeup is pending again and its lease released, or nothing changes |
| LeaseClaims.ClaimTransaction | packages/driver-postgres-worker/src/postgres-queue.ts:164-251 | a committed claim hands out one claim for each run among the selected rows, each of a pending, available row without live lease, with the next token, writes both its rows and nothing else |
| LeaseClaims.ClaimCommits | packages/driver-postgres-worker/src/postgres-queue.ts:164-251 | a claim within the bounds of its input commits on any selection of intact rows |
| LeaseClaims.NotClaimedBeforeItsTime | packages/driver-postgres-worker/src/postgres-queue.ts:182-182 | in every run, nobody is handed a claim on a pending wakeup before it is available |
| LeaseClaims.RetryWaits | packages/driver-postgres-worker/src/postgres-queue.ts:309-334 | after a release no run claims the wakeup before the time of the retry |
| LeaseActs.RenewsExactly | packages/driver-postgres-worker/src/postgres-queue.ts:253-280 | renewal succeeds exactly while the lease is live and both rows carry the claim with its deadline, and moves both deadlines alone |
| LeaseActs.CompletesExactly | packages/driver-postgres-worker/src/postgres-queue.ts:282-307 | completion succeeds exactly if both rows carry the claim, and changes those two rows alone |
| LeaseActs.ReleasesExactly | packages/driver-postgres-worker/src/postgres-queue.ts:309-334 | release succeeds under the same condition, and makes the wakeup available at the time asked for |
| LeaseActs.RecoversExactly | packages/driver-postgres-worker/src/postgres-queue.ts:117-162 | recovery succeeds exactly if the lease of each overdue claim still carries it unreleased, and returns exactly those rows |
| LeaseRuns.ClaimsAreFenced | packages/driver-postgres-worker/src/postgres-queue.ts:201-251 | in every run, the claims of one run carry strictly growing tokens and fresh lease ids |
| LeaseRuns.ActingNeedsBoth | packages/driver-postgres-worker/src/postgres-queue.ts:253-334 | renewal, completion and release succeed only for a claim that both tables carry |
| LeaseRuns.OnlyTheNewestActs | packages/driver-postgres-worker/src/postgres-queue.ts:253-334 | a claim that can act was handed out and is the newest of its run |
| LeaseRuns.AtMostOneActs | packages/driver-postgres-worker/src/postgres-queue.ts:253-334 | at most one claim of a run can act at any moment |
| LeaseRuns.TokensNeverFall | packages/driver-postgres-worker/src/postgres-queue.ts:207-219 | the fencing token of a run never decreases |
| LeaseRuns.OvertakenForever | packages/driver-postgres-worker/src/postgres-queue.ts:253-334 | a claim overtaken by a newer one of its run can never act again |
| LeaseRuns.CompletedAtMostOnce | packages/driver-postgres-worker/src/postgres-queue.ts:282-307 | each wakeup commits completion at most once in every run |
| LeaseRuns.BoundRecovers | packages/driver-postgres-worker/src/postgres-queue.ts:117-162 | where the tables agree, recovery succeeds, keeps the agreement and leaves no overdue claim |
| LeaseRuns.StepStaysBound | packages/driver-postgres-worker/src/postgres-queue.ts:117-334 | every transaction keeps the agreement, claims under the stated discipline |
| LeaseRuns.DisciplinedRunsAgree | packages/driver-postgres-worker/src/postgres-queue.ts:117-334 | if claims select no run with an overdue claim, each claimed wakeup always matches its lease row alone, and recovery never conflicts |
| LeaseRuns.RecoverThenClaimIsDisciplined | packages/driver-postgres-worker/src/index.ts:246-255 | the recover-then-claim pairing at one instant meets the discipline |
| LeaseRuns.ClaimKeepsAgreementExactly | packages/driver-postgres-worker/src/postgres-queue.ts:164-251 | a claim keeps the agreement if and only if it selects no run with an overdue claim |
| LeaseRuns.OvertakenBlocksRecovery | packages/driver-postgres-worker/src/postgres-queue.ts:117-162 | an overtaken wakeup stays claimed for ever, and from its deadline on recovery fails for its tenant |
| LeaseRuns.RecoveryCanBeBlocked | packages/driver-postgres-worker/src/postgres-queue.ts:164-251 | a run of five valid transactions reaches such a state, for any identifiers |
| LeaseRuns.NoWakeupIsStuck | packages/driver-postgres-worker/src/postgres-queue.ts:117-251 | from every agreeing state each unfinished wakeup can be recovered and claimed by any holder with a claim that can act |
| LeaseRuns.SettlingFreesRun | packages/driver-postgres-worker/src/postgres-queue.ts:282-334 | completing or releasing frees the run and ends every claim on it |
| LeaseRuns.RenewalExtends | packages/driver-postgres-worker/src/postgres-queue.ts:253-280 | the renewed claim can act, and holds the run exactly until its new deadline |
| WorkerAuthority.AuthorityIssuer.ObserveLease | packages/driver-postgres-worker/src/index.ts:59-67 | a lease with a smaller token is refused; any other becomes the fence of its run |
| WorkerAuthority.AuthorityIssuer.InvalidateSchedulerReceipt | packages/driver-postgres-worker/src/index.ts:68-70 | the receipt joins the invalid ones |
| WorkerAuthority.AuthorityIssuer.IssueDelegated | packages/driver-postgres-worker/src/index.ts:71-101 | a delegation is issued only on the observed fence and a valid receipt |
| WorkerAuthority.AuthorityIssuer.VerifyDelegated | packages/driver-postgres-worker/src/index.ts:102-126 | exactly the valid delegations verify, and each rejection names the first failing check |
| WorkerAuthority.RunsMoveForward | packages/driver-postgres-worker/src/index.ts:59-101 | fences only rise, receipts stay invalid and delegations keep their descriptors |
| WorkerAuthority.ObservesExactly | packages/driver-postgres-worker/src/index.ts:59-67 | a lease is observed unless a larger token is known, and becomes the fence of its run alone |
| WorkerAuthority.IssuesExactly | packages/driver-postgres-worker/src/index.ts:71-101 | a delegation is issued exactly on the fence last observed and a receipt that still stands |
| WorkerAuthority.ValidExactly | packages/driver-postgres-worker/src/index.ts:102-126 | a delegation is valid from its issue until before its expiry, on a standing receipt and the fence of its run |
| WorkerAuthority.ValidDelegationsAgree | packages/driver-postgres-worker/src/index.ts:102-126 | delegations of a run that are valid at once share lease id and token |
| WorkerAuthority.RevokedForever | packages/driver-postgres-worker/src/index.ts:59-126 | once a larger fence is observed or the receipt invalidated, the delegation is rejected in every continuation |
| WorkerAuthority.RevocationIsPermanent | packages/driver-postgres-worker/src/index.ts:59-126 | those two events are exactly what ends every valid future of a delegation |
| WorkerAuthority.FreshDelegationIsValid | packages/driver-postgres-worker/src/index.ts:71-126 | an issued delegation is valid at once and disturbs no other |
| WorkerFencing.NewerClaimRevokes | packages/driver-postgres-worker/src/index.ts:59-126 | observing the lease of a newer claim revokes the delegations of older claims of the run for ever |
| WorkerFencing.OneClaimIsDelegated | packages/driver-postgres-worker/src/index.ts:71-126 | delegations valid at one moment for claims of a run are all for the same claim |
| Reservations.AddedUser | packages/policy/src/authorization-reservations.ts:137-208 | a new reservation adds one user to each subject it names, counted once |
| Reservations.LimitsHold | packages/policy/src/authorization-reservations.ts:97-234 | in every run from the empty store no grant, approval or secret is used beyond its maximum, and ids stay unique in a tenant |
| Reservations.ReserveExactly | packages/policy/src/authorization-reservations.ts:97-212 | a reservation in time is taken exactly if it is the one stored, or is new and its grant, approval and each secret have a use left |
| Reservations.ReserveRefusedExactly | packages/policy/src/authorization-reservations.ts:97-173 | the error of each refused reservation, which changes nothing |
| Reservations.ConsumedOnceInTime | packages/policy/src/authorization-reservations.ts:216-234 | what was reserved is consumed until it expires and refused from then on, and once consumed is answered as it was, in every run |
| Reservations.TenantsAreIsolated | packages/policy/src/authorization-reservations.ts:97-234 | a tenant's reservations depend on that tenant's operations only |
| Reservations.ReservationsPersist | packages/policy/src/authorization-reservations.ts:216-234 | a stored reservation only ever becomes consumed and keeps everything else |
| Reservations.ReplayAnswersOnce | packages/policy/src/authorization-reservations.ts:108-117 | repeating a reserve answers the stored reservation, expiry, or a mismatch once it was consumed, and never charges again |
| Reservations.RepeatAfterConsumeIsRefused | packages/policy/src/authorization-reservations.ts:108-117 | a reservation consumed in time stays consumed in every run, and the reserve that made it is refused as a mismatch |
| ReservationStores.EnteredOnce | packages/policy/src/authorization-reservations.ts:40-62 | entering a list of subjects, repeated or not, claims each once and touches no other |
| ReservationStores.ClaimsAreUsers | packages/policy/src/authorization-reservations.ts:50-62 | the size of an index entry is the number of reservations that use the subject |
| ReservationStores.StillProjects | packages/policy/src/authorization-reservations.ts:175-208 | after the commit phase each index is again the projection of the stored reservations |
| ReservationStores.ClaimIndex.ReserveClaim | packages/policy/src/authorization-reservations.ts:40-62 | one claim is entered, replayed or refused |
| ReservationStores.ClaimIndex.AssertClaimAvailable | packages/policy/src/authorization-reservations.ts:64-80 | the same refusals, without entering |
| ReservationStores.ReservationStore.CheckClaims | packages/policy/src/authorization-reservations.ts:126-173 | the check phase passes exactly when every named subject has a known limit with room |
| ReservationStores.ReservationStore.CheckSecrets | packages/policy/src/authorization-reservations.ts:162-173 | each named secret has room |
| ReservationStores.ReservationStore.CommitSecrets | packages/policy/src/authorization-reservations.ts:195-207 | after the checks the secret claims cannot fail, even for a secret named twice |
| ReservationStores.ReservationStore.CommitClaims | packages/policy/src/authorization-reservations.ts:175-207 | after the checks the commit phase cannot fail |
| ReservationStores.ReservationStore.Reserve | packages/policy/src/authorization-reservations.ts:97-212 | the answer and the stored reservations; a failure leaves reservations and indexes as they were |
| ReservationStores.ReservationStore.Consume | packages/policy/src/authorization-reservations.ts:216-234 | the reservation becomes consumed, or the error and no change; the indexes stay projections |
| Admission.CreateAdmissionController | packages/policy/src/admission.ts:43-61 | limits must be positive with a positive retry; the last entry of a category wins |
| Admission.LimitsAreLast | packages/policy/src/admission.ts:43-61 | the limit of a category is that of its last entry |
| Admission.AdmissionController.ActiveAmount | packages/policy/src/admission.ts:94-102 | the unexpired reserved amounts of the scope, added up from zero in order with the rounding addition of the engine |
| Admission.AdmissionController.ReserveQuota | packages/policy/src/admission.ts:63-142 | replay, limit and admission in order, with the new state |
| Admission.AdmissionController.ReleaseQuota | packages/policy/src/admission.ts:143-166 | the exact reservation is released once, or the binding is refused |
| Admission.AdmissionController.ReconcileList | packages/policy/src/admission.ts:171-184 | the lapsed entries of one tenant are rewritten in place and counted |
| Admission.AdmissionController.ReconcileExpired | packages/policy/src/admission.ts:167-189 | the lapsed entries of all tenants are rewritten and counted |
| AdmissionLimits.QuotaWithinRounding | packages/policy/src/admission.ts:63-189 | for all amounts, after every run and at every later instant, the exact sum of a scope exceeds its limit by no more than the losses of as many rounded additions as the tenant has entries |
| AdmissionLimits.QuotaKeptExactly | packages/policy/src/admission.ts:94-110 | the limit is kept in every run if and only if no list of amounts is added up to at most the limit that its exact sum exceeds |
| AdmissionRounding.QuotaHolds | packages/policy/src/admission.ts:63-189 | with whole amounts and a limit below 2^53, the unexpired reserved amount of the scope is within the limit after every run, at every later instant |
| AdmissionRounding.WholeQuotaExactly | packages/policy/src/admission.ts:94-110 | with whole amounts and the addition of doubles, a limit is kept in every run if and only if it is below 2^53 |
| AdmissionRounding.TenTenthsBreakQuota | packages/policy/src/admission.ts:94-110 | ten amounts of the double 0.1 are admitted under a limit of 1 that their exact sum exceeds |
| AdmissionRuns.ReplayChargesOnce | packages/policy/src/admission.ts:74-93 | a replayed command answers the same reservation id for ever with no second charge, and another request under it is refused |
| AdmissionRuns.ReplayIsNeverCorrupt | packages/policy/src/admission.ts:79-81 | the corrupt-replay error cannot occur in any run |
| AdmissionRuns.ReserveDecides | packages/policy/src/admission.ts:63-142 | which request is admitted, denied, limited with a wait of at most an hour, or refused |
| AdmissionRuns.ReleaseDecides | packages/policy/src/admission.ts:143-166 | in every run, a release is bound exactly by id and token, and changes only that reservation if it is reserved |
| AdmissionRuns.ReconcileDecides | packages/policy/src/admission.ts:167-189 | exactly the reserved entries that have run out expire, and their number is the count |
| AdmissionRuns.AdmissionCharges | packages/policy/src/admission.ts:94-140 | an admission charges its scope by exactly its amount for exactly its lease |
| AdmissionRuns.ReleaseRefunds | packages/policy/src/admission.ts:143-166 | a release gives an active amount back once |
| AdmissionRuns.ReconcileIsTransparent | packages/policy/src/admission.ts:167-189 | reconciliation changes no amount that is still active |
| Ordering.SortSame | packages/evidence/src/records.ts:278-341 | sorting by unique keys gives the same sequence from any ordering |
| EvidenceBuilder.AllDistinct | packages/evidence/src/records.ts:64-78 | the set-size comparison detects exactly the repeated values |
| EvidenceBuilder.CheckUniqueIds | packages/evidence/src/records.ts:64-78 | ids are unique in every list, and event sequence numbers too |
| EvidenceBuilder.CheckEvents | packages/evidence/src/records.ts:79-94 | every event belongs to the run, its definition and its work order |
| EvidenceBuilder.CheckArtifacts | packages/evidence/src/records.ts:101-125 | every artifact is digest-true, bound to the run and produced by a listed event |
| EvidenceBuilder.CheckApprovals | packages/evidence/src/records.ts:126-152 | every approval is bound, in its window and recorded by a listed event |
| EvidenceBuilder.CheckVerifications | packages/evidence/src/records.ts:153-188 | every verification is of a listed artifact by a listed verifier and recorded, with the keys they use |
| EvidenceBuilder.CheckExceptions | packages/evidence/src/records.ts:189-238 | every exception is bound, in its window, declared, recorded and overrides no verification |
| EvidenceBuilder.FilterAccepted | packages/evidence/src/records.ts:242-246 | the acceptance events among the events |
| EvidenceBuilder.CheckRequired | packages/evidence/src/records.ts:247-267 | the loops decide as `EvidenceVouches.AcceptedExactly` says over the record |
| EvidenceBuilder.CheckReferences | packages/evidence/src/records.ts:56-246 | all reference checks together |
| EvidenceBuilder.BuildEvidenceRecord | packages/evidence/src/records.ts:55-341 | the record with its digest, or the first kind of error: references before verification |
| EvidenceOrder.FindIsUnambiguous | packages/evidence/src/records.ts:155-157 | finding an artifact by digest gives the same artifact from any ordering |
| EvidenceOrder.OrderIndependent | packages/evidence/src/records.ts:55-341 | reordering artifacts, events, approvals, verifications or exceptions changes neither success, error, record nor digest |
| EvidenceOrder.RecordIsClosed | packages/evidence/src/records.ts:154-238 | what a verification or exception of a record is about is listed in it, and no exception overrides a verification |
| EvidenceInputs.ReferencesExactly | packages/evidence/src/records.ts:55-246 | the reference checks pass exactly if every input item fits the run, its event and the items it names, over their own fields |
| EvidenceInputs.BuiltExactly | packages/evidence/src/records.ts:55-341 | a record is built if and only if the inputs are coherent and its own references vouch for all that its one acceptance requires |
| EvidenceVouches.AcceptedExactly | packages/evidence/src/records.ts:247-277 | with its references in order, a record is accepted exactly if no reference fails a required verifier, one passes or excepts each, and high risk has a pass by more than a model |
| EvidenceVouches.RecordIsGrounded | packages/evidence/src/records.ts:79-341 | every reference of a record comes from an input item bound to its run, in its window and recorded by a listed event |
| EvidenceVouches.RecordIsComplete | packages/evidence/src/records.ts:278-341 | every input item has its reference in the record, and each list ascends by id or sequence number |
| EvidenceGate.ClearedInProjection | packages/core/src/events.ts:545-556 | a verifier is passed or excepted in a replayed projection exactly when an event clears it |
| EvidenceGate.GatesAgreeExactly | packages/evidence/src/records.ts:154-261 | accepted evidence of a replayed log satisfies the completion check of the reducer if and only if a listed event clears each required verifier under its own id |
| EvidenceGate.NamedEvidenceCompletes | packages/evidence/src/records.ts:154-261 | it does where each required id is the verifier id of a listed passing verification or of a listed exception |
| EvidenceGate.EvidenceGateRefinesReducerGate | packages/evidence/src/records.ts:154-261 | it does where verifier ids are registration digests |
| GateMismatch.GatesCanDiffer | packages/evidence/src/records.ts:247-261 | for every run, every host with well-formed digests and every verifier id other than the registration digest, a well-shaped accepted input leaves the required verifier uncleared |
| MutableJson.Clone | packages/evidence/src/redaction.ts:11-17 | the copy is a tree of new nodes, one for each array and object, that stands for the same value, however the input shares its nodes |
| MutableJson.CloneItems | packages/evidence/src/redaction.ts:12-12 | the items are copied in order |
| MutableJson.CloneMembers | packages/evidence/src/redaction.ts:13-15 | every member is copied under its key |
| RedactionInPlace.ReplaceAtLeaf | packages/evidence/src/redaction.ts:23-51 | a cursor that finds a step missing means the path is missing; one that reaches the parent of the leaf determines the replacement |
| RedactionInPlace.EditedTree | packages/evidence/src/redaction.ts:38-47 | overwriting one slot of one node turns the tree of a value into the tree of the value edited there, and no other position changes |
| RedactionInPlace.ApplyRule | packages/evidence/src/redaction.ts:21-51 | one rule overwrites the slot of its leaf, or writes nothing and reports its error |
| RedactionInPlace.RedactTypedFields | packages/evidence/src/redaction.ts:19-54 | the result is a tree of new nodes for the redacted value, or the first error, and no node of the input is written |
| Redaction.ReplaceOverlay | packages/evidence/src/redaction.ts:23-51 | one rule edits exactly its position of an already redacted tree, or finds its path missing |
| Redaction.ResolveExactly | packages/evidence/src/redaction.ts:24-47 | a path denotes the position whose steps its segments select: numbers items of arrays, any segment the key of an object |
| Redaction.RedactionIsOverlay | packages/evidence/src/redaction.ts:19-54 | redaction succeeds exactly when every path resolves and none lies under an earlier rule, and gives the overlay of the edits |
| Redaction.ReplacementsAppear | packages/evidence/src/redaction.ts:19-54 | for prefix-free rules each replacement is at its path |
| Redaction.RestIsUntouched | packages/evidence/src/redaction.ts:19-54 | every position no rule is at, above or below keeps its subtree |
| Redaction.RuleOrderIrrelevant | packages/evidence/src/redaction.ts:19-54 | the order of prefix-free rules does not matter |
| Exports.CreateEvidenceExport | packages/evidence/src/exports.ts:37-63 | the checks in order and the export with its digests |
| Exports.AllowedRulesApply | packages/evidence/src/exports.ts:25-35 | allowed rules fail only for a path that is not there |
| Exports.ExportKeepsReferences | packages/evidence/src/exports.ts:37-63 | an export keeps every field outside the allow-list, so all reference lists, and its evidence digest verifies |
| Exports.ExportKeepsOtherFields | packages/evidence/src/exports.ts:25-35 | inside the redactable objects only the listed fields can change |
| Exports.ExportIsOfSource | packages/evidence/src/exports.ts:37-63 | when an export is made, that it names the digest of its source and every redacted path in order, and what its own digest covers |
| Exports.RedactableIsAllowed | packages/evidence/src/exports.ts:25-35 | every redactable field and array item can be named by an allowed path |
| Exports.AllowedFields | packages/evidence/src/exports.ts:21-35 | the allowed fields and the text of a path by name |
| SafeText.SafeTextParses | packages/cli/src/render.ts:23-26 | with nothing unsafe beyond U+FFFF the rendered canonical text parses back to the value |
| SafeText.EscapeNames | packages/cli/src/render.ts:8-13 | the notation of a character is its number in lower-case hexadecimal, four digits or braces |
| SafeRendering.SafeTextIsVisible | packages/cli/src/render.ts:15-26 | safe canonical JSON is the canonical text with each unsafe character named and no other touched |
| SafeLexing.AcceptedReturns | packages/core/src/serialization.ts:203-346 | every accepted text closes its strings and has only valid escapes |
| SafeLexing.EscapedLex | packages/cli/src/render.ts:8-13 | a four-digit escape keeps a string open and valid; a braced escape breaks it |
| SafeLexing.SafeTextParsesExactly | packages/cli/src/render.ts:23-26 | the rendered text parses back to the value if and only if no unsafe character lies beyond U+FFFF; otherwise it is not JSON |
| SafeMultiline.SafeMultiline | packages/cli/src/render.ts:28-43 | at most 32768 UTF-8 bytes, nothing unsafe but newlines, and the whole rendering or its longest fitting prefix with the suffix |
| SafeMultiline.RenderedLines | packages/cli/src/render.ts:28-33 | the rendering has one line for each input line, up to two hundred |
| SafeRendering.EscapedInPlace | packages/cli/src/render.ts:15-21 | each character stands where it stood, an unsafe one by its notation and any other by itself |
| SafeRendering.RenderedLineByLine | packages/cli/src/render.ts:28-33 | the lines of the rendering are the visible forms of the first two hundred lines |
| SafeRendering.VisibleLine | packages/cli/src/render.ts:15-21 | a line keeps its first 512 characters, escaped, and the suffix says when there were more |
| SafeRendering.SafeTextIsUnchanged | packages/cli/src/render.ts:28-33 | text with nothing unsafe but newlines and within the bounds is shown as it is |

## Left out

- Shortest formatting and rounding of non-integer doubles, and the sign of zero: engine behaviour, a parameter of the model.
- Unsupported and cyclic values, sparse arrays, accessors, prototypes and symbol keys: values are finite trees, so these errors cannot arise.
- Schema parsing of inputs and outputs (lengths, formats, date syntax, the conflict-of-interest rules): records have the parsed shape. `EventShapes` and `GateMismatch` state what the schemas ask of the fields kept, with dates and free formats as predicates; `Exports` takes the schema as a predicate.
- ReduceRunEvent: payload fields that no modelled code reads are one text, so their schemas are not represented.
- RedactTypedFields: fractional array indices and names inherited from prototypes are left out, as is the parsing of the input by `JsonValueSchema`.
- CreateEvidenceExport: works on the values that the redacted copy and the records stand for, not on their nodes.
- VerifyDelegated: capability objects are numbers in order of issue, so object identity of foreign objects is only the case of a number not issued; the claims of the base issuer are reduced to their lifetime.
- ClaimWakeups: the joined work-order columns are one flag that the stored request and definition are intact; the selection takes the earliest rows with ties in any order, and the laws hold of any selection of eligible rows, which covers rows locked by others.
- RecoverStale: takes every overdue row; rows locked by other transactions, which are skipped, are not represented.
- Claims whose lease names another run than their request, which `parseClaim` never builds, are not represented.
- PostgreSQL: locking, isolation, connections, sub-millisecond timestamps and several readings of the clock in one transaction; each transaction is one atomic step at one instant. Rollback is the absence of effect.
- Other writers of the lease table (`packages/store-postgres/src/lease-store.ts`), deduplication and cancellation of wakeups.
- Renewal timers, abort signals, polling and dispatch of the worker: only the state of its authority issuer is modelled.
- ReserveQuota: the addition of doubles is a parameter; infinite sums are not represented, and the generated id is an argument.
- Sha256: inputs of 2^50 bytes and more, beyond the exact integers of the bit length.
- SafeMultiline: works on code points, into which `Array.from` splits a string; the character class is a parameter that agrees with Unicode on ASCII, controls, surrogates and the ellipsis.
- Evidence Markdown, text redaction by regular expressions, and the remaining commands of the command line: output formatting without state.
- Effect and pattern transition tables, readiness checks and registries: they neither read nor write the state of the six parts.
- Cryptographic strength of SHA-256.
