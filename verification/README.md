# The Sigma signing protocol, verified

A Dafny model of the optimistic contract signing protocol of SXP, of the cryptography under it, of its ciphers and byte
codecs, and of the header and uncle rules in the patched geth sources. `dafny verify dfyconfig.toml` checks everything.

## What is modelled

**The protocol.** N parties first agree on a trusted third party (`ChooseTrent`), then exchange promises in rounds
1 to N+1 and clear signatures in round N+2 (`SignStep`, `SignProtocol`). A party that gives up sends Trent the last
complete row of promises, or the word ABORT; Trent decides (`TrentService`, `TrentSolver`, `Trent`) and answers all.
One notification is one atomic step. Messages of honest parties arrive late, in any order, and any number of times;
a dishonest party, and in `SignProtocol` also Trent, may say anything at any time. The theorems hold after every
sequence of events, for every N and every set of honest parties. `SignProtocol` takes the cryptography as functions
with stated properties; `EndToEnd` supplies the real ones, proves those properties, and follows a claim from the honest
party that sends it through Trent to every honest party that hears the answer: for every set of honest parties, and as
corollaries for runs in which everybody runs the code. `Completion` is about the runs that need no Trent,
`ChooseTrentRuns` about when the choice of Trent leads on to signing, and `TrentGate` about what Trent's checks are
worth. `SignRuns` and `Arrival` are about what reaches a party in a run and what it may change, `Genuine` about what
must have been signed before anybody takes notice of it, `TrentCases` and `TrentMemory` about what Trent keeps for each
contract, and `ChooseTrentSteps` about lists that differ. `Answers` is about what a party makes of an answer, and
`MixedRuns` about runs with a dishonest party's entry.
`Worlds` shows that the assumptions can be met: keys for any number of parties, and a run that leads to an answer.

A broadcast also reaches its sender: in advertisement mode the local listeners are notified
(`SXP/src/main/java/network/impl/jxta/JxtaEstablisherService.java:105-109`), and in message mode the sender's own key is
among the receivers (`SXP/src/test/java/protocol/impl/SigmaEstablisherTest.java:145-148`). The results about progress
assume that it came back only where they say so (`ChooseTrentRuns.SignsWithChoices`, `SignProtocol.LonePartyExactly`).

**The cryptography.** `Sigma`, `Pcs`, `SigmaSigner`, `Trent`: Schnorr, CCE and CCD responses, their composition by
conjunction and by exclusive or, the simulated branches, decryption by Trent. Challenges are signed numbers and
exponents may be negative; v is not reduced mod p, so v/M is an exact truncating division. `NumberTheory`, `ModPower`
and `SignedXor` prove the laws used: inverses, integer powers of units, Fermat's little theorem, exclusive or on signed
integers as a group. `ElGamalEngine` and `ElGamalSignature` are the plain ElGamal cipher and signature.

**Codecs and ciphers.** `SerpentCbc` is cipher block chaining (section 6.2 of NIST SP 800-38A) with a trailing pad
count. `ByteUtil`, `Bytes` and `Identity` are counters, byte orders and decimal identifications.

**Miner and validator.** `GasLimit` and `Uncles` prove the miner's rules against the validator's, which are written
separately (section 4.3.4 of the Ethereum Yellow Paper).

`None` in an `Option` stands for a Java call that throws. Random numbers are arguments: of the range the code enforces
where a loop enforces one, and arbitrary otherwise.

## Where the code does not do what it promises

Each of these is a theorem with the exact condition, and where it helps a concrete case.

- `resolveT` says that a first claim with promises wins. Its first loop reads the empty list from round 2 on and
  throws, so only claims of round 1 are ever resolved (`TrentSolver.FirstClaim`, `EndToEnd.FirstClaimVerdict`). With
  two or more parties, once somebody has released clear signatures nobody else can get Trent's help
  (`EndToEnd.NoHelpAfterClear`).
- A claim of round 1 clears `optimistic` before its row is read. If the row is too short the call throws, and the
  contract can never be aborted any more (`TrentGate.ShortRowEndsAborts`, `TrentSolver.AbortedExactly`).
- Trent checks the promises of a claim only for positive rounds. Once a contract was resolved, a request of round 0 or
  below is answered with whatever entries it holds, so exactly for rounds from 1 on every signature Trent gives out
  holds a promise it has checked (`TrentGate.GenuineExactly`, `TrentGate.UnprovenAnswered`).
- A resolved answer leaves the resolving step expecting the last party as signer. Until the party claims again it then
  takes no message from Trent, unless that party's identification is Trent's (`EndToEnd.EveryoneFinalizes`, `DeafStep`,
  `DeafAfterResolved`, `LaterAnswers`).
- A party tests a promise on contract and round, but not whose it is. So an honest claim can hold an entry that is not
  its party's. Trent lets it in exactly if it can decrypt an identification in every such entry
  (`EndToEnd.ClaimAdmittedExactly`, `MixedRuns.UnnamedRefused`), and the answer finalizes an honest party exactly under
  the condition of `EndToEnd.HonestOutcome`. It takes no made-up entry: a party that gets its own promise back takes it
  for the other one's, and after its resolved claim it is not finalized (`MixedRuns.SentBackUnfinished`).
- `isFinalized` is true long before every party has signed (`SignProtocol.FinalizedExactly`). A party sends its clear
  signatures exactly when it reaches the last round and its user does not refuse that one
  (`SignProtocol.ClearExactly`); who is finalized earlier never does (`FinalizedSilent`, `FinalizedInRoundOne`).
- The filtering of candidates is an intersection only under the condition of `ChooseTrent.FilterExactly`
  (`ChooseTrent.FilterNotIntersection`).
- After two choices differ a party makes its arrays anew without the slot that marks them as complete, and never gets
  any further (`ChooseTrentSteps.StartedOverForGood`).
- `sign` throws for a key whose identification number is not below Trent's modulus (`SigmaSigner.SignThenVerify`), and
  `receiverK` of a verifier is in fact the expected signer, of whose key only the first 125 digits are compared.
- The ElGamal engine loses leading zero bytes (`ElGamalEngine.RoundTripBytes`). The plain signature's loop tests the
  exponent against p instead of p-1, so `sign` throws exactly for those that divide p-1
  (`ElGamalSignature.PrimeDrawExactly`).
- The comment on the gas limit promises an unchanged one at two thirds usage; it grows (`GasLimit.GrowsAtTwoThirds`,
  with the exact bounds in `GasLimit.UsageExactly`).
- Below five steps of 1/1024 a full block can get a child that the validator rejects (`GasLimit.GasLimitExact`,
  `GasLimit.FiveStepsNeeded`), and the miner may choose siblings of the new block as uncles
  (`Uncles.MinedUnclesExact`, `Uncles.SiblingRejected`).

## Model

| member | source | states |
|---|---|---|
| ChooseTrent.ChooseStep.SendMessage | SXP/src/main/java/protocol/impl/sigma/steps/ProtocolChooseTrent.java:167-178 | the candidate list goes out once and the sender counts as heard in round 0 |
| ChooseTrent.ChooseStep.FilterList | SXP/src/main/java/protocol/impl/sigma/steps/ProtocolChooseTrent.java:195-206 | filtering with one shared iterator: compares windows position by position, drops the last user of a window without a match, throws on a short window and leaves what was removed before |
| ChooseTrent.ChooseStep.ReceiveCandidates | SXP/src/main/java/protocol/impl/sigma/steps/ProtocolChooseTrent.java:194-222 | a throwing call loses only the users removed so far; the call that completes round 0 closes the row, sorts the list and sends the party's number |
| ChooseTrent.ChooseStep.ReceiveNumber | SXP/src/main/java/protocol/impl/sigma/steps/ProtocolChooseTrent.java:224-258 | a number is added the first time only; the call that completes round 1 picks the third party |
| ChooseTrent.ChooseStep.PickTrent | SXP/src/main/java/protocol/impl/sigma/steps/ProtocolChooseTrent.java:233-255 | the key at the sum of the numbers modulo the length; a key set earlier is kept, and a mismatch starts over |
| ChooseTrent.ChooseStep.ReceiveChoice | SXP/src/main/java/protocol/impl/sigma/steps/ProtocolChooseTrent.java:259-277 | the first choice sets the key without looking whether the row is full; later equal ones may complete round 2; a different one starts over |
| ChooseTrent.ChooseStep.Listen | SXP/src/main/java/protocol/impl/sigma/steps/ProtocolChooseTrent.java:189-279 | an unknown sender makes it throw; otherwise dispatch by round: new state and messages as the specification says |
| ChooseTrent.FilterSameLength | SXP/src/main/java/protocol/impl/sigma/steps/ProtocolChooseTrent.java:195-206 | against a list of the same length at most the last user is lost, exactly when no position agrees |
| ChooseTrent.FilterIsWindowed | SXP/src/main/java/protocol/impl/sigma/steps/ProtocolChooseTrent.java:195-206 | against a list of any length: every window of that length is kept whole if it agrees somewhere and loses its last user if not, and the call returns exactly when the windows cover the list |
| ChooseTrent.FilterExactly | SXP/src/main/java/protocol/impl/sigma/steps/ProtocolChooseTrent.java:195-206 | the filter returns if and only if the other list's length divides the list's, and it returns the intersection if and only if besides every window agrees somewhere and lies in the other list, or agrees nowhere and lies in it but for its last user |
| ChooseTrent.SameLengthExactly | SXP/src/main/java/protocol/impl/sigma/steps/ProtocolChooseTrent.java:195-206 | for lists of the same length: the intersection if and only if some position agrees and every user is on the other list, or none agrees and every user is but the last |
| ChooseTrent.SortByKeySorts | SXP/src/main/java/protocol/impl/sigma/steps/ProtocolChooseTrent.java:210-215 | the sorted list is sorted and a permutation |
| ChooseTrent.NextKeeps | SXP/src/main/java/protocol/impl/sigma/steps/ProtocolChooseTrent.java:189-279 | every start and every delivery, in any order and repeated, keeps the invariant of all n parties |
| ChooseTrent.RunKeeps | SXP/src/main/java/protocol/impl/sigma/steps/ProtocolChooseTrent.java:189-279 | the invariant holds after every sequence of events, for every number of parties |
| ChooseTrent.SameTrent | SXP/src/main/java/protocol/impl/sigma/steps/ProtocolChooseTrent.java:224-248 | two parties that finished round 1 hold the sum of all numbers, each counted once, the same sorted list and the same candidate as third party |
| ChooseTrent.NeverStartsOver | SXP/src/main/java/protocol/impl/sigma/steps/ProtocolChooseTrent.java:248-254 | neither branch that resets the arrays is ever taken |
| ChooseTrent.SigningMeansAgreed | SXP/src/main/java/protocol/impl/sigma/steps/ProtocolChooseTrent.java:266-271 | a party starts signing only when every party has finished with the same third party |
| ChooseTrentRuns.RunHeeds | SXP/src/main/java/protocol/impl/sigma/steps/ProtocolChooseTrent.java:189-279 | in every run a party has marked whatever reached it, and has noticed that a round is complete once its own message of that round came back |
| ChooseTrentRuns.SignsWithChoices | SXP/src/main/java/protocol/impl/sigma/steps/ProtocolChooseTrent.java:259-272 | a party that every choice reached, its own included, goes on to signing, in whatever order they came |
| ChooseTrentRuns.EveryoneSigns | SXP/src/main/java/protocol/impl/sigma/steps/ProtocolChooseTrent.java:189-272 | when all parties have started and everything sent reached everybody, everybody goes on to signing, for every number of parties |
| ChooseTrentRuns.SigningExactly | SXP/src/main/java/protocol/impl/sigma/steps/ProtocolChooseTrent.java:259-272 | in every run, also when messages are lost or do not come back to their sender: a party goes on to signing if and only if some choice came to it when it had all numbers and, with this one, all the others' choices |
| ChooseTrentSteps.CandidatesExactly | SXP/src/main/java/protocol/impl/sigma/steps/ProtocolChooseTrent.java:194-222 | for any two lists: the call returns if and only if the other list's length divides the party's; it then keeps the list window by window, counts the sender, and sorts the list and sends the number exactly with the last list; when it throws nobody is counted |
| ChooseTrentSteps.ChoiceStartsOver | SXP/src/main/java/protocol/impl/sigma/steps/ProtocolChooseTrent.java:259-277 | a choice makes a party start over if and only if it still waits for choices and knows another third party |
| ChooseTrentSteps.PickStartsOver | SXP/src/main/java/protocol/impl/sigma/steps/ProtocolChooseTrent.java:233-255 | the last number does if and only if the party was told of another third party than the one it picks |
| ChooseTrentSteps.StartOverExactly | SXP/src/main/java/protocol/impl/sigma/steps/ProtocolChooseTrent.java:248-254 | starting over forgets whom the party heard and its third party, keeps list and sum, and sends the list again |
| ChooseTrentSteps.StartedOverForGood | SXP/src/main/java/protocol/impl/sigma/steps/ProtocolChooseTrent.java:248-254 | the arrays made anew have no slot that marks them as complete: whatever a party hears after starting over, it never sends a number or a choice again and never goes on to signing |
| SignStep.Contract.IsFinalized | SXP/src/main/java/protocol/impl/sigma/SigmaContract.java:160-186 | without Trent's key never; otherwise the two loops with their early returns compute the recursive specification, exceptions included |
| SignStep.Contract.Add | SXP/src/main/java/protocol/impl/sigma/SigmaContract.java:189-198 | the signature is stored even if the test behind it throws; the status becomes FINALIZED only when the test says so |
| SignStep.Participant.ClaimNow | SXP/src/main/java/protocol/impl/sigma/steps/ProtocolResolve.java:111-153 | stops listening, sets RESOLVING and sends ABORT or the row of the round before, for whatever state it is called in |
| SignStep.Participant.Send | SXP/src/main/java/protocol/impl/sigma/steps/ProtocolSign.java:110-160 | refusing user: a claim; last round: own clear signature stored, then all sent; otherwise own promise stored in the matrix and one promise sent to each party |
| SignStep.Participant.Begin | SXP/src/main/java/protocol/impl/SigmaEstablisher.java:112-126 | status SIGNING, both steps set up, round 1 sent |
| SignStep.Participant.StoreClearSignature | SXP/src/main/java/protocol/impl/sigma/steps/ProtocolSign.java:230-249 | a clear signature is stored only if it verifies; the listener goes only when the contract is finalized |
| SignStep.Participant.StoreMessage | SXP/src/main/java/protocol/impl/sigma/steps/ProtocolSign.java:212-259 | unknown sender, bad round and unreadable content throw without effect; own and repeated messages are ignored; a promise is stored only if it verifies for its own round |
| SignStep.Participant.IsClaimFormed | SXP/src/main/java/protocol/impl/sigma/steps/ProtocolSign.java:174-178 | true exactly when no entry of the current row of the matrix is missing, or the last round is reached |
| SignStep.Participant.GoOn | SXP/src/main/java/protocol/impl/sigma/steps/ProtocolSign.java:183-190 | the loop that sends several rounds when their promises were already there equals the recursive specification, stop on exception included |
| SignStep.Participant.Listen | SXP/src/main/java/protocol/impl/sigma/steps/ProtocolSign.java:169-191 | one notification, as a whole: new state, everything sent, and whether it returned |
| SignStep.Participant.TakeSignatures | SXP/src/main/java/protocol/impl/sigma/steps/ProtocolResolve.java:205-211 | the loop over Trent's signatures; the signer is left expecting the last party |
| SignStep.Participant.HearTrent | SXP/src/main/java/protocol/impl/sigma/steps/ProtocolResolve.java:163-224 | no effect for a dishonesty notice or a bad seal; CANCELLED, or signatures taken and perhaps FINALIZED; that a notice has no effect in any run is `SignRuns.NoticesIgnored` |
| SignProtocol.SendKeeps | SXP/src/main/java/protocol/impl/sigma/steps/ProtocolSign.java:110-160 | sending a round never throws, keeps the party in order, and sends exactly that round's message or, if the user refuses, the right claim |
| SignProtocol.AdvanceKeeps | SXP/src/main/java/protocol/impl/sigma/steps/ProtocolSign.java:183-190 | whatever number of rounds the loop sends, all of them are sent and it stops only for a missing promise or a changed status |
| SignProtocol.StoreKeeps | SXP/src/main/java/protocol/impl/sigma/steps/ProtocolSign.java:212-259 | a message, also of a dishonest party, adds at most one promise, verified for its round, and never changes the round |
| SignProtocol.AnswerKeeps | SXP/src/main/java/protocol/impl/sigma/steps/ProtocolResolve.java:163-224 | no answer of Trent moves a party to another round, changes its promises, or makes it listen or sign again |
| SignProtocol.NextKeeps | SXP/src/main/java/protocol/impl/sigma/steps/ProtocolSign.java:169-191 | every event keeps the invariant of all honest parties, of the messages sent and of the claims |
| SignProtocol.RunKeeps | SXP/src/main/java/protocol/impl/sigma/steps/ProtocolSign.java:169-191 | the invariant holds after every sequence of events, for every number of parties and every set of honest ones |
| SignProtocol.RoundsClose | SXP/src/main/java/protocol/impl/sigma/steps/ProtocolSign.java:173-190 | in every run the rounds of two started honest parties differ by at most one |
| SignProtocol.RowsFull | SXP/src/main/java/protocol/impl/sigma/steps/ProtocolSign.java:173-190 | every row before the current round is full and verifies, and holds each honest party's own promise for this receiver |
| SignProtocol.ClaimsFull | SXP/src/main/java/protocol/impl/sigma/steps/ProtocolResolve.java:133-141 | every claim is ABORT for round 0 or a full verified row of a round from 1 to n+1, on the refusing path too |
| SignProtocol.ResolverFrozen | SXP/src/main/java/protocol/impl/sigma/steps/ProtocolResolve.java:111-119 | after its claim a party stays in its round for ever, does not listen, and never claims anything else |
| SignProtocol.ThreeRoundsSuffice | SXP/src/main/java/protocol/impl/sigma/steps/ProtocolResolve.java:201-208 | at any later time the three rounds each honest party tests include the round of the claim |
| SignProtocol.NoAbortAfterClear | SXP/src/main/java/protocol/impl/sigma/steps/ProtocolSign.java:128-133 | once clear signatures of an honest party are out, every honest claim is a row of round n or n+1, never an abort |
| SignProtocol.NobodyStuck | SXP/src/main/java/protocol/impl/sigma/steps/ProtocolSign.java:180-190 | honest parties that are all signing and have received every promise sent have all reached the last round; from two parties on without condition, and for one when some message of its own came back |
| SignProtocol.LonePartyExactly | SXP/src/main/java/protocol/impl/sigma/steps/ProtocolSign.java:173-190 | a party alone that is still signing is in the last round if a message of its own came back, and in the first if not |
| SignProtocol.RunLooks | SXP/src/main/java/protocol/impl/sigma/steps/ProtocolSign.java:169-191 | in every run a party is in round 1 until a message is handled, and after that never waits with a complete row |
| SignProtocol.HonestCallsReturn | SXP/src/main/java/protocol/impl/sigma/steps/ProtocolSign.java:169-191 | no call throws that an honest party makes by itself or on an honest party's message |
| SignProtocol.FinalizedExactly | SXP/src/main/java/protocol/impl/sigma/SigmaContract.java:160-186 | a contract counts as finalized if and only if one clear signature verifies whose predecessors are present, or all are present and one verifies for a round |
| SignProtocol.OneSignatureFinalizes | SXP/src/main/java/protocol/impl/sigma/SigmaContract.java:174-175 | the first party's clear signature alone is enough although others are missing |
| SignProtocol.StoppedSilent | SXP/src/main/java/protocol/impl/sigma/steps/ProtocolSign.java:193-200 | whoever has stopped listening never sends the others anything again, in any later run |
| SignProtocol.ClearExactly | SXP/src/main/java/protocol/impl/sigma/steps/ProtocolSign.java:128-160 | in every run an honest party has sent its clear signatures if and only if it is in the last round and its user did not refuse that round |
| SignProtocol.SentExactly | SXP/src/main/java/protocol/impl/sigma/steps/ProtocolSign.java:110-160 | in every run an honest party has sent a round if and only if the round is at most its own and its user did not refuse it |
| SignProtocol.ClaimedExactly | SXP/src/main/java/protocol/impl/sigma/steps/ProtocolSign.java:113-117 | in every run Trent hears from an honest party if and only if it gave up waiting or its user refused the round it is in |
| SignRuns.NoticeIgnored | SXP/src/main/java/protocol/impl/sigma/steps/ProtocolResolve.java:168-170 | hearing that a sender was dishonest changes nobody and sends nothing, in any state and with any seals |
| SignRuns.NoticesIgnored | SXP/src/main/java/protocol/impl/sigma/steps/ProtocolResolve.java:168-170 | every run is the same as without such notices, whoever hears them and when |
| SignRuns.AnswerNeedsSeal | SXP/src/main/java/protocol/impl/sigma/steps/ProtocolResolve.java:163-224 | an answer, resolved or not, sends nothing and changes at most the party that hears it, and that only if it is no such notice and its seal is accepted |
| SignRuns.AnswerUnread | SXP/src/main/java/protocol/impl/sigma/steps/ProtocolResolve.java:168-183 | such an answer leaves the party as it is, and hearing it throws exactly when the seal is missing or its test throws |
| SignRuns.CancelledBySeal | SXP/src/main/java/protocol/impl/sigma/steps/ProtocolResolve.java:185-191 | in every run a cancelled party has heard an answer that is no resolution, with a seal that it accepted |
| SignRuns.HeldVouched | SXP/src/main/java/protocol/impl/sigma/steps/ProtocolSign.java:228-249 | in every run every signature an honest party holds was accepted as one on the contract, or verifies as its party's in some round |
| SignRuns.PromiseStoredExactly | SXP/src/main/java/protocol/impl/sigma/steps/ProtocolSign.java:250-257 | a delivered promise is stored if and only if it is the first of its sender for its round and verifies; a stored one is never replaced |
| SignRuns.StoreClearExactly | SXP/src/main/java/protocol/impl/sigma/steps/ProtocolSign.java:230-249 | a clear signature that is not accepted changes nothing; any other is held afterwards, and the party is finalized and stops listening exactly when the contract then counts as finalized |
| SignRuns.ClearStoredExactly | SXP/src/main/java/protocol/impl/sigma/steps/ProtocolSign.java:228-249 | after a delivery of clear signatures the one for this party is held if it is accepted, and nothing has changed for its sender otherwise |
| SignRuns.StoreReturnsExactly | SXP/src/main/java/protocol/impl/sigma/steps/ProtocolSign.java:212-259 | handling a message throws if and only if its sender is unknown or something is read that cannot be; own and repeated messages are not read |
| SignRuns.DeliveredKept | SXP/src/main/java/protocol/impl/sigma/steps/ProtocolSign.java:212-259 | in every run: what an honest party sent and another one was given while it listened, that one has for ever |
| SignRuns.EveryoneSends | SXP/src/main/java/protocol/impl/sigma/steps/ProtocolSign.java:169-191 | honest parties that are all still signing and were delivered everything have sent every round and their clear signatures |
| SignProtocol.FinalizedInRoundOne | SXP/src/main/java/protocol/impl/sigma/steps/ProtocolSign.java:228-249 | with a first party that does not wait this happens in round 1 |
| Completion.FirstDecides | SXP/src/main/java/protocol/impl/sigma/SigmaContract.java:160-186 | while all signatures held are clear ones, the first party's alone decides whether the contract counts as finalized |
| Completion.CalmAdvance | SXP/src/main/java/protocol/impl/sigma/steps/ProtocolSign.java:183-190 | in a run without Trent the loop sends every round up to the one it stops in, unless the user refuses |
| Completion.CalmStore | SXP/src/main/java/protocol/impl/sigma/steps/ProtocolSign.java:228-249 | a party stores a clear signature only from somebody who sent it, and is finalized exactly when it has the first party's |
| Completion.CalmRun | SXP/src/main/java/protocol/impl/sigma/steps/ProtocolSign.java:169-191 | this holds after every sequence of events without Trent's answers |
| Completion.EveryoneCompletes | SXP/src/main/java/protocol/impl/sigma/steps/ProtocolSign.java:169-191 | the optimistic promise: nobody refuses or gives up, whoever is still signing has received everything (a single party: also something of its own): then all are FINALIZED with the first party's clear signature, which verifies |
| Arrival.DeliveryCompletes | SXP/src/main/java/protocol/impl/sigma/steps/ProtocolSign.java:169-191 | the same in terms of events alone: everybody is started, nobody's user refuses, nobody gives up, and everything sent is delivered to whoever is still signing; then all are FINALIZED with the first party's clear signature |
| EndToEnd.WorldCompletes | SXP/src/main/java/protocol/impl/sigma/steps/ProtocolSign.java:169-191 | the same with the real signatures |
| EndToEnd.VerifyReturns | SXP/src/main/java/crypt/impl/signatures/SigmaSigner.java:61-83 | a signature that verified once never makes a verification throw, whatever the message and the expected signer |
| EndToEnd.WorldValid | SXP/src/main/java/protocol/impl/sigma/steps/ProtocolSign.java:110-160 | the real promises and signatures of whoever is honest meet every assumption the protocol theorems make |
| Genuine.HeldProven | SXP/src/main/java/protocol/impl/sigma/steps/ProtocolSign.java:228-249 | with the real signatures, whatever dishonest parties and Trent send: every signature an honest party ever holds is opened under Trent's public number, and its promise verifies on the contract, or on the contract and a round in its party's name |
| Genuine.UnopenedNotStored | SXP/src/main/java/protocol/impl/sigma/steps/ProtocolSign.java:230-249 | a promise whose opening fails is never stored as a clear signature |
| Genuine.UnopenedNotTaken | SXP/src/main/java/protocol/impl/sigma/steps/ProtocolResolve.java:199-211 | nor is it taken from Trent's answer: what was held for that party stays |
| Genuine.PromiseIsNoSignature | SXP/src/main/java/crypt/impl/signatures/SigmaSigner.java:61-83 | a promise with zeros in place of its opening is accepted by nobody for anything |
| Genuine.SealByAnyone | SXP/src/main/java/protocol/impl/sigma/steps/ProtocolResolve.java:172-183 | a seal that somebody made is accepted if and only if the party expects nobody in particular or somebody with this identification |
| Genuine.SealAcceptedExactly | SXP/src/main/java/protocol/impl/sigma/steps/ProtocolResolve.java:172-183 | whoever made it: an accepted seal is an opened signature on the answer, in the name of the key expected, under Trent's public number |
| EndToEnd.ClaimIsHonestRow | SXP/src/main/java/protocol/impl/sigma/steps/ProtocolResolve.java:136-141 | when everybody runs the code, each claim with promises holds, for each party, a promise made by it for the claimer on contract and round |
| EndToEnd.ClaimAdmittedExactly | SXP/src/main/java/protocol/impl/sigma/Trent.java:124-137 | for any set of honest parties: the letter of an honest claim is let in if and only if Trent can decrypt an identification in every entry of a dishonest party, which the claimer does not test |
| EndToEnd.ClaimAdmitted | SXP/src/main/java/protocol/impl/sigma/Trent.java:124-137 | when everybody runs the code, every claim is let in: row, identifications and sender's signature |
| EndToEnd.ClaimResolvable | SXP/src/main/java/protocol/impl/sigma/TrentSolver.java:114-136 | when everybody runs the code, Trent can build from every claim one signature per party, accepted as that party's on contract and round |
| EndToEnd.HonestTokenSigned | SXP/src/main/java/protocol/impl/sigma/TrentSolver.java:114-136 | whoever else is dishonest, the signature built around an honest party's entry is accepted as that party's on contract and round |
| EndToEnd.SealVerdict | SXP/src/main/java/protocol/impl/sigma/steps/ProtocolResolve.java:178-184 | Trent's seal is accepted if and only if the party expects nobody, Trent, or somebody with Trent's identification |
| Answers.ThreeRoundsExactly | SXP/src/main/java/protocol/impl/sigma/steps/ProtocolResolve.java:201-208 | a signature that can be tested passes if and only if it is the party's for the current round or one of the two before |
| Answers.AnswerExactly | SXP/src/main/java/protocol/impl/sigma/steps/ProtocolResolve.java:194-219 | any party and any resolved answer with a seal it takes for genuine: the call returns if and only if every signature can be tested; then the party holds those that pass as their party's own and what it held otherwise, and is FINALIZED if and only if these count as finalized, or did while they were stored, or it was before; it expects the last party next |
| Answers.EmptyHandedExactly | SXP/src/main/java/protocol/impl/sigma/steps/ProtocolResolve.java:194-219 | a party that held nothing is FINALIZED by an answer without clear signatures if and only if every signature passes as its party's own |
| EndToEnd.FirstClaimExactly | SXP/src/main/java/protocol/impl/sigma/Trent.java:97-173 | for any set of honest parties: of the first claim of an honest one nothing comes, and nothing is remembered, if and only if a dishonest entry names nobody Trent can decrypt; otherwise it is aborted for round 0, resolved for round 1, and lost in an exception later |
| EndToEnd.FirstClaimVerdict | SXP/src/main/java/protocol/impl/sigma/Trent.java:97-173 | when everybody runs the code, the first claim is aborted for round 0, resolved for round 1, and lost in an exception for every later round |
| EndToEnd.HonestOutcome | SXP/src/main/java/protocol/impl/sigma/steps/ProtocolResolve.java:194-219 | for any set of honest parties, from an honest claim of round 1 that is let in to an honest party that trusts the seal, at whatever later time: the answer holds the entries of the claim; all honest ones pass; the call returns if and only if the dishonest ones can be tested; and then the party is FINALIZED exactly under the condition of Answers.AnswerExactly |
| EndToEnd.EveryoneFinalizes | SXP/src/main/java/protocol/impl/sigma/steps/ProtocolResolve.java:194-219 | when everybody runs the code, from a claim of round 1 to the end: each party that trusts the seal holds a verified signature of every party, is FINALIZED, and expects the last party's signature on the next answer, at whatever later time it hears the answer |
| EndToEnd.DeafStep | SXP/src/main/java/protocol/impl/sigma/steps/ProtocolResolve.java:163-184 | a party that has stopped listening and expects a signer with another identification than Trent's is changed by no delivery and no answer of Trent, and by exactly one event: its own next claim, after which it expects Trent |
| EndToEnd.DeafAfterResolved | SXP/src/main/java/protocol/impl/sigma/steps/ProtocolResolve.java:163-224 | who has taken a resolved answer and does not listen any more stays exactly as it is in every later run in which it does not claim again, if the last party's identification is not Trent's |
| EndToEnd.LaterAnswers | SXP/src/main/java/protocol/impl/sigma/steps/ProtocolResolve.java:178-191 | after a resolved answer an abort that Trent sealed counts if and only if the last party has Trent's identification |
| EndToEnd.EveryoneCancels | SXP/src/main/java/protocol/impl/sigma/steps/ProtocolResolve.java:185-191 | for any set of honest parties, from an honest claim of round 0 to the end: each party that trusts the seal is CANCELLED and nothing else changes |
| EndToEnd.LateLettersFail | SXP/src/main/java/protocol/impl/sigma/TrentSolver.java:43-60 | no claim of round 2 or later is ever answered with signatures, whatever was asked before |
| EndToEnd.NoHelpAfterClear | SXP/src/main/java/protocol/impl/sigma/TrentSolver.java:43-60 | for any set of honest parties, two or more in all: after clear signatures of an honest one are out no other honest claim is an abort, and none is resolved |
| MixedRuns.EntryDecides | SXP/src/main/java/protocol/impl/sigma/steps/ProtocolSign.java:250-257 | two parties, of which the second one is honest and takes any entry that verifies on contract and round for the first one's promise: nothing comes of its claim if and only if the entry names nobody Trent can decrypt |
| MixedRuns.UnnamedRefused | SXP/src/main/java/protocol/impl/sigma/Trent.java:124-137 | there is such an entry: a signature around any number below p that is nobody's identification; the honest claim with it is not let in |
| MixedRuns.SentBackUnfinished | SXP/src/main/java/protocol/impl/sigma/steps/ProtocolResolve.java:199-219 | the honest party's own promise, sent back, is such an entry that is let in and resolved: the claimer takes the answer, holds only its own signature, and stays RESOLVING |
| TrentService.Service.Admits | SXP/src/main/java/protocol/impl/sigma/Trent.java:118-137 | row test for rounds from 1 on, then the sender's signature; exceptions as in the source; what is let in is `Genuine.AdmittedExactly` |
| Genuine.AdmittedExactly | SXP/src/main/java/protocol/impl/sigma/Trent.java:118-137 | a request is let in if and only if it carries an opened signature on itself in its sender's name under Trent's number, and for rounds from 1 on is a row whose entries all verify and name somebody |
| Genuine.ForgedKeptOut | SXP/src/main/java/protocol/impl/sigma/Trent.java:121-137 | for every desk, solvers and delivery: a letter signed around another identification than its sender's is not let in, leaves all solvers as they are, and nothing or an exception comes of it |
| Genuine.SignedByAnother | SXP/src/main/java/protocol/impl/sigma/Trent.java:121-137 | everything that the signing code makes for somebody with another identification is such a letter, whatever message, keys and random numbers |
| Genuine.ForgedIgnored | SXP/src/main/java/protocol/impl/sigma/Trent.java:97-173 | over all sequences of requests the solvers are what they would be without such letters |
| TrentService.RoundTextExactly | SXP/src/main/java/protocol/impl/sigma/steps/ProtocolSign.java:134-137 | what is signed for one round is signed for no other round, and is not the contract itself |
| TrentService.Service.SealAll | SXP/src/main/java/protocol/impl/sigma/Trent.java:153-158 | one signature of Trent for each party's key, or an exception |
| TrentService.Service.SolverFor | SXP/src/main/java/protocol/impl/sigma/Trent.java:138-144 | one solver per contract text, made on demand with that request's number of parties |
| TrentService.Service.Ask | SXP/src/main/java/protocol/impl/sigma/Trent.java:145 | only the solver of this contract changes |
| TrentService.Service.ResolveLetter | SXP/src/main/java/protocol/impl/sigma/Trent.java:97-173 | a request as a whole: the solvers afterwards, and silence, exception or a sealed answer |
| TrentService.HandleKeeps | SXP/src/main/java/protocol/impl/sigma/Trent.java:97-173 | one request keeps all solvers in order and no answer given before, about any contract, is contradicted |
| TrentService.OneVerdict | SXP/src/main/java/protocol/impl/sigma/TrentSolver.java:93-110 | over any sequence of requests about any contracts, no contract is answered both with signatures and with anything else |
| TrentService.PessimisticForGood | SXP/src/main/java/protocol/impl/sigma/TrentSolver.java:93-110 | once the solver of a contract is no longer optimistic, every answer about the contract is a resolved one |
| TrentCases.ServiceMirrors | SXP/src/main/java/protocol/impl/sigma/Trent.java:138-145 | over all sequences of requests the solver of a contract is where a solver of its own gets by the calls for the letters let in about it, in their order |
| TrentCases.SizeStays | SXP/src/main/java/protocol/impl/sigma/Trent.java:138-144 | its number of parties is that of the first letter let in, whatever later letters say |
| TrentCases.OutcomeExactly | SXP/src/main/java/protocol/impl/sigma/Trent.java:138-173 | what comes of a letter that is let in is what that solver answers, sealed for the letter's own parties |
| TrentCases.CollectExactly | SXP/src/main/java/protocol/impl/sigma/Trent.java:153-158 | there is one seal for each public number among the parties and no other; parties that share one get the last one's; all are made or none |
| TrentCases.SendExactly | SXP/src/main/java/protocol/impl/sigma/Trent.java:146-173 | an answer goes out if and only if there is one and every party can be sealed for; only the notice to a dishonest sender goes out without seals, and always |
| TrentCases.SendersDiffer | SXP/src/main/java/protocol/impl/sigma/Trent.java:145 | two letters are the same party's for the solver if and only if they name the same sender |
| TrentGate.AnsweredExactly | SXP/src/main/java/protocol/impl/sigma/Trent.java:118-173 | a request is answered with signatures if and only if it is let in, nothing is stored, its round is at most 1 and positive unless something was resolved before, and signatures and seals can be made |
| TrentGate.GenuineExactly | SXP/src/main/java/protocol/impl/sigma/Trent.java:124-137 | resolved answers to requests of round r hold, for every party, a promise on the contract and the round that verifies, with a signer Trent could identify, under Trent's key, whatever was asked before: if and only if r is at least 1 |
| TrentGate.UnprovenAnswered | SXP/src/main/java/protocol/impl/sigma/Trent.java:124-137 | after an honest claim of round 1 the same party's request of round 0 or below is answered with entries nobody ever signed |
| TrentGate.ShortRowEndsAborts | SXP/src/main/java/protocol/impl/sigma/TrentSolver.java:93-136 | a first claim of round 1 with too few entries, all of which verify, is let in and not answered, and no later request about the contract is answered as aborted |
| TrentSolver.Solver.ShowEarlier | SXP/src/main/java/protocol/impl/sigma/TrentSolver.java:43-60 | first loop: throws on a short list, or answers with the honesty token and moves one stored claim |
| TrentSolver.Solver.ShowOwn | SXP/src/main/java/protocol/impl/sigma/TrentSolver.java:63-71 | second loop: the sender's own claim of another round |
| TrentSolver.Solver.ShowLater | SXP/src/main/java/protocol/impl/sigma/TrentSolver.java:74-90 | third loop: somebody's later claim; rounds outside the list are skipped |
| TrentSolver.Solver.DecideNow | SXP/src/main/java/protocol/impl/sigma/TrentSolver.java:93-110 | resolves or stores and aborts; `optimistic` is cleared before the token may throw; that what is stored stays is `TrentMemory.AbortRemembered` |
| TrentSolver.Solver.ResolveT | SXP/src/main/java/protocol/impl/sigma/TrentSolver.java:40-111 | the three loops and the decision, with the exact state after each exit |
| TrentSolver.StepKeeps | SXP/src/main/java/protocol/impl/sigma/TrentSolver.java:40-111 | one call: optimism once lost stays lost, the list never shrinks, each answer fits the state it leaves |
| TrentSolver.RunInvariant | SXP/src/main/java/protocol/impl/sigma/TrentSolver.java:40-111 | over any sequence of calls, resolved answers and other answers leave traces that exclude each other |
| TrentSolver.FirstAnswerDecides | SXP/src/main/java/protocol/impl/sigma/TrentSolver.java:93-110 | any two answers of one solver agree on being resolved or not |
| TrentSolver.FirstAnswer | SXP/src/main/java/protocol/impl/sigma/TrentSolver.java:93-110 | the first answer is resolved or aborted |
| TrentSolver.ResolvedExactly | SXP/src/main/java/protocol/impl/sigma/TrentSolver.java:43-99 | a call resolves if and only if nothing is stored, its round is at most 1 and positive unless something was resolved before, and the token can be built |
| TrentSolver.FirstClaim | SXP/src/main/java/protocol/impl/sigma/TrentSolver.java:43-99 | a first claim with promises is resolved exactly for round 1; any later round throws and changes nothing |
| TrentSolver.FirstAbort | SXP/src/main/java/protocol/impl/sigma/TrentSolver.java:101-110 | a first request of round 0 is stored and answered as aborted |
| TrentSolver.LateClaimsNeverResolved | SXP/src/main/java/protocol/impl/sigma/TrentSolver.java:43-60 | after any sequence of calls a request of round 2 or later is never resolved |
| TrentSolver.AbortedExactly | SXP/src/main/java/protocol/impl/sigma/TrentSolver.java:40-110 | a call is answered as aborted if and only if the solver is optimistic, the round is at most the number of stored requests, nobody else is stored for a round before the last or after this one, and the sender for no other |
| TrentSolver.PessimisticExactly | SXP/src/main/java/protocol/impl/sigma/TrentSolver.java:93-99 | over any sequence of calls, the solver has stopped being optimistic if and only if some call of round 1 came when nothing was stored |
| TrentSolver.NoAbortAfterFirst | SXP/src/main/java/protocol/impl/sigma/TrentSolver.java:93-110 | from then on, also if that call itself threw because of a short row, every answer is a resolved one |
| TrentMemory.CallEffect | SXP/src/main/java/protocol/impl/sigma/TrentSolver.java:40-111 | for every state, what each answer does: an aborted request becomes an entry of its own at the index of its round; a dishonest party loses the first entry that shows it and is kept with both requests, in the order of the source; any other answer changes nothing |
| TrentMemory.HonestyTokenExactly | SXP/src/main/java/protocol/impl/sigma/TrentSolver.java:43-60 | the honesty token is answered if and only if the list reaches an entry before the last round that holds somebody else |
| TrentMemory.SenderDishonestExactly | SXP/src/main/java/protocol/impl/sigma/TrentSolver.java:62-90 | the sender is called dishonest if and only if nobody is found in an earlier round, and it has a request in an entry of another round or somebody else has one in a later entry |
| TrentMemory.CallLosesNothing | SXP/src/main/java/protocol/impl/sigma/TrentSolver.java:40-111 | no call loses a stored request but for one that it moves to the dishonest ones together with the request that exposed it |
| TrentMemory.StoredStays | SXP/src/main/java/protocol/impl/sigma/TrentSolver.java:40-111 | over any sequence of calls what is stored stays, or a later call exposed its sender with it |
| TrentMemory.AbortRemembered | SXP/src/main/java/protocol/impl/sigma/TrentSolver.java:101-110 | over any sequence of calls each request answered as aborted is stored with its sender at the index of its round, between the earlier and the later ones, and stays unless its sender is exposed with it |
| Trent.TrentServer.SendMasks | SXP/src/main/java/protocol/impl/sigma/Trent.java:180-194 | both masks as powers of the drawn exponent, which is remembered |
| Trent.TrentServer.SendResponse | SXP/src/main/java/protocol/impl/sigma/Trent.java:204-261 | masks, the digest of the first mask as challenge, and x*challenge + s with the remembered exponent |
| Trent.TrentServer.BuildToken | SXP/src/main/java/protocol/impl/sigma/TrentSolver.java:114-136 | one signature per party from the entries of the row, or an exception on a short or empty entry |
| Trent.TrentServer.CheckIdentification | SXP/src/main/java/protocol/impl/sigma/Trent.java:263-272 | some clause decrypts to the identification of the key behind its first response |
| Trent.TrentServer.CheckClaim | SXP/src/main/java/protocol/impl/sigma/Trent.java:124-136 | every promise of the row verifies and is identified; the first one that does not decides |
| Trent.DecryptionCorrect | SXP/src/main/java/protocol/impl/sigma/Trent.java:285-291 | decryption gives the encrypted number mod p for every exponent, although v is not reduced |
| Trent.EncryptThenDecrypt | SXP/src/main/java/protocol/impl/sigma/ElGamal.java:127-138 | what `encryptForContract` returns decrypts to the number of the data mod p |
| Trent.FreshPcsIdentified | SXP/src/main/java/protocol/impl/sigma/Trent.java:263-272 | every freshly made promise passes the identification test |
| Trent.TokenSignatureAccepted | SXP/src/main/java/protocol/impl/sigma/TrentSolver.java:126-134 | Trent's signature around a fresh promise verifies for the promise's signer on the same message |
| Trent.HonestRowAccepted | SXP/src/main/java/protocol/impl/sigma/Trent.java:124-136 | a row of honestly made promises passes the gate |
| Trent.AcceptedExactly | SXP/src/main/java/protocol/impl/sigma/Trent.java:124-134 | a row passes the gate if and only if each of its entries does by itself |
| Trent.NamesExactly | SXP/src/main/java/protocol/impl/sigma/Trent.java:263-272 | the identification test passes if and only if every clause can be read and some clause decrypts to the identification of the key behind its first response |
| Trent.TokenTranscript | SXP/src/main/java/protocol/impl/sigma/TrentSolver.java:126-134 | whoever made the entry: Trent's signature is the entry with an opening of its first clause that verifies, made with the random numbers drawn for this party |
| Trent.CcdTranscript | SXP/src/main/java/protocol/impl/sigma/Trent.java:180-261 | Trent's response answers the digest of its first mask with the secret key, and its second mask has the same exponent to the ciphertext |
| Trent.TokenExactly | SXP/src/main/java/protocol/impl/sigma/TrentSolver.java:114-136 | a token for n parties can be built if and only if the row has n entries with a first clause |
| Trent.HonestRowResolved | SXP/src/main/java/protocol/impl/sigma/TrentSolver.java:114-136 | from such a row a signature for every party is built, and each verifies for its party |
| SigmaSigner.Signer.MakeSignature | SXP/src/main/java/crypt/impl/signatures/SigmaSigner.java:38-55 | the sender and builder objects together produce the signature of the specification, or throw when a key is missing or the engine refuses |
| SigmaSigner.GenuineVerdict | SXP/src/main/java/crypt/impl/signatures/SigmaSigner.java:61-83 | a signature made around an identification gets exactly the verdict: expected signer has that identification, and the same Trent; what any accepted signature is, is `SigmaSigner.VerifyExactly` |
| SigmaSigner.VerifyExactly | SXP/src/main/java/crypt/impl/signatures/SigmaSigner.java:61-83 | for every signature and all keys: accepted if and only if its opening verifies, its promise verifies on the message, it names the expected signer, and its Trent has the expected number |
| SigmaSigner.OpeningExtracted | SXP/src/main/java/crypt/impl/signatures/SigmaSigner.java:77 | two signatures accepted around the same ciphertext, whose openings answer different challenges for the same masks, reveal the opener's secret relation |
| SigmaSigner.SignTranscript | SXP/src/main/java/crypt/impl/signatures/SigmaSigner.java:38-55 | a signature is a promise to the receiver and an opening around one ciphertext of the signer's identification; the opening answers the digest of message and mask with the exponent of that ciphertext |
| SigmaSigner.ShortKeyThrows | SXP/src/main/java/crypt/impl/signatures/SigmaSigner.java:66-71 | for a key too short for an identification the test throws, whatever the signature |
| SigmaSigner.SignThenVerify | SXP/src/main/java/crypt/impl/signatures/SigmaSigner.java:38-83 | `sign` returns if and only if the identification exists and is below p, and `verify` then accepts exactly for the signer's identification and the same Trent |
| SigmaSigner.OtherSignerRefused | SXP/src/main/java/crypt/impl/signatures/SigmaSigner.java:61-83 | a signature around one identification is never taken for one of somebody with another |
| SigmaSigner.SignerAccepted | SXP/src/main/java/crypt/impl/signatures/SigmaSigner.java:38-83 | in particular the signer's own key is accepted |
| Pcs.Sender.Encrypt | SXP/src/main/java/protocol/impl/sigma/Sender.java:214-220 | the ciphertext and its exponent are remembered, or nothing changes when the engine throws |
| Pcs.Sender.SendMasksSchnorr | SXP/src/main/java/protocol/impl/sigma/Sender.java:67-77 | the mask and its exponent enter the table |
| Pcs.Sender.SendResponseCCE | SXP/src/main/java/protocol/impl/sigma/Sender.java:158-165 | masks under Trent's key, digest as challenge, k*challenge + s as response |
| Pcs.PcsBuilder.GetPcs | SXP/src/main/java/protocol/impl/sigma/PCS.java:51-62 | a fresh or the remembered ciphertext, then one signature around it |
| Pcs.PcsBuilder.Create | SXP/src/main/java/protocol/impl/sigma/PCS.java:99-133 | the four responses made with stateful objects are those of the specification, and the closing challenge is the exclusive or of digest and the other three |
| Pcs.FabricSchnorrComplete | SXP/src/main/java/protocol/impl/sigma/Fabric.java:65-85 | a simulated Schnorr response verifies for every signed challenge and response |
| Pcs.FabricCceComplete | SXP/src/main/java/protocol/impl/sigma/Fabric.java:95-122 | a simulated CCE response verifies around every genuine ciphertext |
| Pcs.FabricSchnorrHonest | SXP/src/main/java/protocol/impl/sigma/Fabric.java:65-85 | the simulation is perfect: from a challenge and an honest prover's response it makes that prover's own mask |
| Pcs.FabricCceHonest | SXP/src/main/java/protocol/impl/sigma/Fabric.java:95-122 | so does the other one, with both masks |
| Pcs.PcsTranscript | SXP/src/main/java/protocol/impl/sigma/PCS.java:99-133 | which branch is simulated with which random numbers, and with which secrets and masks the honest branch answers |
| Pcs.PcsComplete | SXP/src/main/java/protocol/impl/sigma/PCS.java:99-133 | every signature built exists and satisfies `Or.Verifies`, for all well-formed keys and all random numbers |
| Pcs.EncryptionGenuine | SXP/src/main/java/protocol/impl/sigma/ElGamal.java:127-138 | an identification is encrypted if and only if its number is below p, and the ciphertext is a genuine one |
| Pcs.FreshPcsComplete | SXP/src/main/java/protocol/impl/sigma/PCS.java:51-62 | `getPcs` returns if and only if the identification exists and is below p, and the result verifies |
| Sigma.CheckAnd | SXP/src/main/java/model/entity/sigma/And.java:104-126 | every response verifies under its key; the first that does not, or throws, decides |
| Sigma.CheckChallenges | SXP/src/main/java/protocol/impl/sigma/Receiver.java:127-150 | the loop's exclusive or equals the digest |
| Sigma.CheckOr | SXP/src/main/java/model/entity/sigma/Or.java:75-97 | every clause verifies and the challenges of all clauses in order add up to the digest |
| Sigma.OrExactly | SXP/src/main/java/model/entity/sigma/Or.java:75-97 | whoever made it: a promise is accepted if and only if every response of every clause has a key and verifies under it, and the challenges add up to the digest |
| Sigma.SchnorrComplete | SXP/src/main/java/model/entity/sigma/ResponsesSchnorr.java:53-55 | the honest response verifies, for every signed challenge and exponent |
| Sigma.CceComplete | SXP/src/main/java/model/entity/sigma/ResponsesCCE.java:56-82 | the honest response verifies on a genuine ciphertext; the integer division is exact |
| Sigma.QuotientTruncates | SXP/src/main/java/model/entity/sigma/ResponsesCCE.java:56-82 | the division truncates towards zero, for signed numbers |
| Sigma.CcdComplete | SXP/src/main/java/model/entity/sigma/ResponsesCCD.java:53-65 | Trent's response verifies on a genuine ciphertext |
| Sigma.Extraction | SXP/src/main/java/model/entity/sigma/ResponsesCCE.java:56-82 | two accepted transcripts with equal masks satisfy the extraction equations of their kind, for all signed numbers and zero masks too |
| Sigma.SchnorrWitness | SXP/src/main/java/model/entity/sigma/ResponsesSchnorr.java:53-55 | when the challenge difference is invertible the secret key follows |
| Sigma.CceWitness | SXP/src/main/java/model/entity/sigma/ResponsesCCE.java:56-82 | when it is invertible one exponent explains both halves of the ciphertext |
| Sigma.OrExtraction | SXP/src/main/java/model/entity/sigma/Or.java:75-97 | two accepted disjunctions with the same masks and different digests reveal a relation in some branch |
| SignedXor.XorBit | SXP/src/main/java/protocol/impl/sigma/Receiver.java:145-147 | bit i of the result is the sum of the bits, for negative numbers too |
| SignedXor.XorAssociates | SXP/src/main/java/protocol/impl/sigma/Receiver.java:145-147 | grouping does not matter, for signed numbers |
| SignedXor.XorFoldCloses | SXP/src/main/java/protocol/impl/sigma/PCS.java:109 | the fold of the four challenges is the digest once the first one closes it |
| ModPower.ExpAdd | SXP/src/main/java/protocol/impl/sigma/Fabric.java:67-69 | exponents of either sign add up |
| ModPower.ExpMul | SXP/src/main/java/protocol/impl/sigma/Sender.java:83-87 | a power of a power, for exponents of either sign |
| ModPower.Fermat | SXP/src/main/java/protocol/impl/sigma/Trent.java:287 | a^(p-1) = 1 modulo a prime p, for a not divisible by p |
| Identity.IdentificationPositive | SXP/src/main/java/protocol/impl/sigma/Sender.java:240-243 | the number of an identification is positive, signed and unsigned |
| Identity.IdentificationExactly | SXP/src/main/java/protocol/impl/sigma/Sender.java:240-243 | a key has an identification if and only if it has 125 digits, and two keys have the same one if and only if their leading 125 digits are the same number |
| Identity.DecimalReads | SXP/src/main/java/protocol/impl/sigma/Sender.java:240-243 | the decimal digits are those of the number |
| Identity.ToStringInjective | SXP/src/main/java/protocol/impl/sigma/Sender.java:240-243 | different numbers are written differently, negative ones too |
| ElGamalEngine.Engine.DrawExponent | SXP/src/main/java/crypt/ElGamalEngineK.java:195-200 | the drawing loop stops at the first exponent from 1 to p-2 |
| ElGamalEngine.Engine.ProcessBlock | SXP/src/main/java/crypt/ElGamalEngineK.java:130-230 | both directions on arrays, with the length and range exceptions and the remembered exponent |
| ElGamalEngine.SharedSecretCancels | SXP/src/main/java/crypt/ElGamalEngineK.java:166 | u^(p-1-x) is the inverse of y^k for every exponent |
| ElGamalEngine.PlaceHalf | SXP/src/main/java/crypt/ElGamalEngineK.java:210-226 | a half is right aligned whether or not it carries a sign byte |
| ElGamalEngine.RoundTrip | SXP/src/main/java/crypt/ElGamalEngineK.java:130-229 | decrypting the packed block gives the number of the plaintext back, without leading zeros |
| ElGamalEngine.RoundTripBytes | SXP/src/main/java/crypt/ElGamalEngineK.java:130-229 | the same bytes come back if and only if the plaintext is empty or does not start with a zero byte |
| ElGamalEngine.HalfSizeLeast | SXP/src/main/java/crypt/ElGamalEngineK.java:92-111 | half a block is the least number of bytes that holds the modulus |
| ElGamalEngine.AcceptsExactly | SXP/src/main/java/crypt/ElGamalEngineK.java:142-160 | a number is let through if and only if it is below the modulus, and has fewer bits when the modulus has one more than a multiple of eight; bytes beyond half a block never are |
| ElGamalEngine.BlockHalves | SXP/src/main/java/crypt/ElGamalEngineK.java:188-229 | the two halves hold g^k and m*y^k mod p, for whatever number m is let through |
| ElGamalEngine.DecryptReturns | SXP/src/main/java/crypt/ElGamalEngineK.java:142-184 | for a secret below p decryption returns if and only if the block is not too long, and ignores an odd last byte |
| ElGamalSignature.Sign | SXP/src/main/java/crypt/impl/signatures/ElGamalSigner.java:27-36 | draws until the exponent is suitable, then signs with it |
| ElGamalSignature.SignatureComplete | SXP/src/main/java/crypt/impl/signatures/ElGamalSigner.java:19-53 | `sign` returns if and only if k is invertible mod p-1; the result is accepted exactly for digests with the same power of g, negative ones included |
| ElGamalSignature.SignatureAccepted | SXP/src/main/java/protocol/impl/sigma/ElGamal.java:64-115 | what is signed is accepted |
| ElGamalSignature.AcceptedEquation | SXP/src/main/java/crypt/impl/signatures/ElGamalSigner.java:39-53 | whoever made them: two accepted signatures with the same r satisfy one equation between digests and exponents |
| ElGamalSignature.SuitableExactly | SXP/src/main/java/crypt/impl/signatures/ElGamalSigner.java:27-30 | for a prime modulus the loop stops at the first exponent above 1 that is no multiple of it |
| ElGamalSignature.PrimeDrawExactly | SXP/src/main/java/crypt/impl/signatures/ElGamalSigner.java:27-34 | for a prime exponent the loop, which tests p and not p-1, stops unless it is p, and `sign` then returns if and only if it does not divide p-1 |
| SerpentCbc.SerpentEncrypter.GetBlock | SXP/src/main/java/crypt/impl/encryption/SerpentEncrypter.java:25-34 | block n, filled up with zeros |
| SerpentCbc.SerpentEncrypter.EncryptBlock | SXP/src/main/java/crypt/impl/encryption/SerpentEncrypter.java:55-61 | exclusive or with the previous block, then the block function |
| SerpentCbc.SerpentEncrypter.DecryptBlock | SXP/src/main/java/crypt/impl/encryption/SerpentEncrypter.java:63-69 | the block function backwards, then the exclusive or |
| SerpentCbc.SerpentEncrypter.EncryptBytes | SXP/src/main/java/crypt/impl/encryption/SerpentEncrypter.java:72-93 | vector, chained blocks and pad count in one array |
| SerpentCbc.SerpentEncrypter.DecryptBytes | SXP/src/main/java/crypt/impl/encryption/SerpentEncrypter.java:96-111 | for every input, also malformed: the bytes, zeros beyond the last block, or an exception for a negative size |
| SerpentCbc.RoundTrip | SXP/src/main/java/crypt/impl/encryption/SerpentEncrypter.java:72-111 | decrypt(encrypt(m)) = m for every invertible block function, vector and length, 0 included |
| SerpentCbc.EncryptedFormat | SXP/src/main/java/crypt/impl/encryption/SerpentEncrypter.java:72-93 | vector first, then each block as the block function of the plain block to which the block before was added bit by bit; last the pad count |
| SerpentCbc.DecryptedExactly | SXP/src/main/java/crypt/impl/encryption/SerpentEncrypter.java:96-111 | for any bytes: when decryption returns and how long the result is, and each byte of it: opened with the block before, or zero beyond the last block |
| SerpentCbc.XorByteBit | SXP/src/main/java/crypt/impl/encryption/SerpentEncrypter.java:55-69 | bit i of an exclusive or of bytes is the sum of the bits |
| ByteUtil.Increment | SXP/src/main/java/protocol/impl/blockChain/ByteUtil.java:368-378 | adds one modulo 256^n and returns false exactly when it wraps around |
| ByteUtil.SuccessorValue | SXP/src/main/java/protocol/impl/blockChain/ByteUtil.java:368-378 | the value of the next array |
| ByteUtil.CounterVisits | SXP/src/main/java/protocol/impl/blockChain/ByteUtil.java:368-378 | counting from zeros visits every array exactly once before the wrap |
| ByteUtil.BigIntegerRoundTrip | SXP/src/main/java/protocol/impl/blockChain/ByteUtil.java:57-66 | the number comes back if and only if it is not negative and fits |
| ByteUtil.BigIntegerExactly | SXP/src/main/java/protocol/impl/blockChain/ByteUtil.java:57-66 | for every number, negative or too large ones too: the two's complement bytes behind zeros; of one byte too many the first is lost, of more the last |
| ByteUtil.IntToBytesNoLeadZeroes | SXP/src/main/java/protocol/impl/blockChain/ByteUtil.java:169-192 | the minimal bytes of the 32-bit pattern, empty for zero |
| ByteUtil.IntRoundTrip | SXP/src/main/java/protocol/impl/blockChain/ByteUtil.java:217-221 | the int comes back, negative ones too, and no shorter array does |
| ByteUtil.WriteInts | SXP/src/main/java/protocol/impl/blockChain/ByteUtil.java:559-579 | both loops write the bytes of every int in the chosen order |
| ByteUtil.ReadInts | SXP/src/main/java/protocol/impl/blockChain/ByteUtil.java:537-557 | both loops assemble every int with the sign of its high byte |
| ByteUtil.IntsRoundTrip | SXP/src/main/java/protocol/impl/blockChain/ByteUtil.java:525-535 | ints to bytes and back, both orders, any length |
| ByteUtil.BytesRoundTrip | SXP/src/main/java/protocol/impl/blockChain/ByteUtil.java:525-535 | bytes to ints and back if and only if the length is a multiple of four |
| ByteUtil.BytesOfPattern | SXP/src/main/java/protocol/impl/blockChain/ByteUtil.java:559-579 | the bytes of an int are the base 256 digits of its 32-bit pattern, the first one the highest in big-endian order and the lowest in the other |
| ByteUtil.AssembledPattern | SXP/src/main/java/protocol/impl/blockChain/ByteUtil.java:537-557 | the pattern of an assembled int is the number with these base 256 digits |
| GasLimit.GasLimitExact | DemoWeb3j/docker_geth/block_validator.go:229-236 | with a positive step the mined limit is valid if and only if the contribution is at most twice the step minus two, or the target takes over |
| GasLimit.LargestBelowTarget | DemoWeb3j/docker_geth/block_validator.go:376-380 | when the strategy is below the target, the mined limit is the largest one not above the target that the validator accepts |
| GasLimit.ReachesTarget | DemoWeb3j/docker_geth/block_validator.go:376-380 | under one fixed target the limits of a mined chain grow by at least four in each block until they reach it, and never fall below it again |
| GasLimit.UsageExactly | DemoWeb3j/docker_geth/block_validator.go:354-374 | above the target: in terms of the usage, when exactly the limit grows and when exactly it shrinks |
| GasLimit.GrowsAtTwoThirds | DemoWeb3j/docker_geth/block_validator.go:364-370 | at exactly two thirds the limit does not stay the same but grows |
| GasLimit.NoStepNeverValid | DemoWeb3j/docker_geth/block_validator.go:229-236 | without a positive step no mined limit is valid |
| GasLimit.FiveStepsSuffice | DemoWeb3j/docker_geth/block_validator.go:354-382 | five steps are enough for every usage up to the limit and every target |
| GasLimit.FiveStepsNeeded | DemoWeb3j/docker_geth/block_validator.go:354-382 | one gas below there is a full block whose child is rejected |
| GasLimit.MinedHeader | DemoWeb3j/docker_geth/worker.go:420-446 | the mined header passes the checks if and only if the clock has reached its time stamp, given a valid gas limit |
| GasLimit.ValidExactly | DemoWeb3j/docker_geth/block_validator.go:206-242 | a header is valid if and only if its time, difficulty, number and gas limit are within these bounds |
| GasLimit.StampEarliest | DemoWeb3j/docker_geth/worker.go:420-425 | the time stamp is the earliest that is later than the parent's and not before the clock |
| GasLimit.BoundsKept | DemoWeb3j/docker_geth/block_validator.go:354-382 | the two bounds carry over from parent to child |
| GasLimit.ChainValid | DemoWeb3j/docker_geth/block_validator.go:206-242 | every block of a mined chain of any length is valid on its parent |
| Uncles.VerifyUncles | DemoWeb3j/docker_geth/block_validator.go:141-186 | the loop with its growing set computes the verdict of the specification |
| Uncles.Family | DemoWeb3j/docker_geth/worker.go:382-388 | the two nested loops collect the hashes of recent blocks and of their uncles |
| Uncles.Work.constructor | DemoWeb3j/docker_geth/worker.go:370-388 | the sets of a mining cycle |
| Uncles.Work.CommitUncle | DemoWeb3j/docker_geth/worker.go:525-538 | accepts exactly what the three sets allow, and records it |
| Uncles.Worker.ChooseUncles | DemoWeb3j/docker_geth/worker.go:484-503 | for every iteration order of the map: at most two, distinct, outside the family, on a known parent; everything looked at is chosen or bad, and all is looked at unless two are chosen |
| Uncles.Worker.AssembleUncles | DemoWeb3j/docker_geth/worker.go:484-506 | only bad candidates are forgotten, and only those |
| Uncles.VerifyFromRules | DemoWeb3j/docker_geth/block_validator.go:159-183 | the loop accepts if and only if the rules hold, stated at once |
| Uncles.MinedUnclesExact | DemoWeb3j/docker_geth/block_validator.go:141-186 | the miner's uncles are valid if and only if none is the block itself, none is a child of the block's parent, and their headers are valid |
| Uncles.NoneTurnedAway | DemoWeb3j/docker_geth/worker.go:525-538 | the miner's sets turn away no uncle of a valid block, in the order they are committed, but for children of the block itself |
| Uncles.FirstOffender | DemoWeb3j/docker_geth/block_validator.go:159-183 | the verdict is that of the first uncle that breaks a rule, by the first rule that it breaks |
| Uncles.SiblingRejected | DemoWeb3j/docker_geth/worker.go:484-538 | when the only candidate is an acceptable sibling of the new block, the miner's loop ends with exactly this uncle, and the validator rejects every block with it |

## Left out

- ChooseTrent.SameTrent: all parties start from the same candidate list in the same order and press the button once; a second press could send a sorted list. What lists that differ do to one party is `ChooseTrentSteps.CandidatesExactly`.
- SignProtocol.NobodyStuck: says nothing about parties that claimed, heard Trent or were finalized early; what becomes of the last is `SignProtocol.FinalizedSilent`.
- ChooseTrentRuns.EveryoneSigns: a message that comes back to its sender is a notification of its own, handled after the one that sent it; that the source runs it inside the sending call in advertisement mode is not modelled.
- Completion.EveryoneCompletes: about runs in which Trent says nothing; what is received, and when, is up to the network, so it says what holds once everything sent has been received.
- SignProtocol.ThreeRoundsSuffice: is about claims of honest parties; a dishonest party may claim any row it can show to Trent, and what its entries are worth to the others is `Answers.AnswerExactly`.
- EndToEnd.HonestOutcome: Trent hears of the contract for the first time; all keys are well formed and long enough for an identification, and those of Trent and of honest parties fit below Trent's modulus.
- EndToEnd.NoHelpAfterClear: about the claim as Trent gets it, whoever delivers it.
- Trent.TrentServer.SendResponse: besides the mask the source hashes the identity of an array instead of its content, which `verify` does not check; the digest is therefore an arbitrary function of the mask.
- Sigma.CheckOr: the list of challenges is a local variable, while the source keeps it in a field that it clears at each call.
- ElGamalEngine.Engine.ProcessBlock: `asUnsignedByteArray` is a library call; zero is taken to give the empty array, and draws are a given list that contains a suitable one.
- ElGamalSignature.Sign: draws are a given list that contains a suitable one; the source draws probable primes of 1023 bits; what that means for a prime is `PrimeDrawExactly`.
- SerpentCbc.RoundTrip: the Serpent block function is any function with an inverse.
- GasLimit.MinedHeader: extra data, proof of work, the fork hashes and the short cut for known headers are not modelled; the clock of the validator is an argument; 64-bit overflow of time stamps is not modelled; parameters other than the constants in the source are arguments.
- Uncles.VerifyUncles: the header check of an uncle is an arbitrary function, and the seven recent blocks are a given list.
- Uncles.Worker.ChooseUncles: state, rewards, transactions, locks and agents of the miner are left out.
- SigmaSigner.GenuineVerdict: the digest is an arbitrary function of message and mask; SHA-256 is not part of this model.
- Identical party keys: a party is its position in the sorted list of keys, so all keys are taken as different.
- The transport: JSON, the ElGamal-Serpent envelope of messages and claims, and the network services; delivery is faithful, and unreadable content is a case of its own.
- The restore constructors and `restore` methods, which run with unset fields.
- Who is blamed by Trent: whose stored claim the loops meet first is arbitrary, since the source compares string objects by reference.
- `BlockChainContract`, `TradeSignatureVerifier`, the Ethereum contracts, REST controllers, database managers and all user interfaces.
- The other codecs of `ByteUtil`, which would only add easy members.
