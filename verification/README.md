# White Radar: a verified model of its core

White Radar turns the raw evidence of an EVM chain (call traces, receipts, address histories,
state differences) into bounded, explainable cases. This project models the algorithms under that
engine in Dafny and proves what they promise.

| file | component |
|---|---|
| `CallTrace`, `CallPaths` | explicit-stack flattening of a call tree; path texts against tree positions |
| `NativeFlow` | revert classification, the flat transfer ledger and the nested evaluator it preserves |
| `TraceSummary` | the second, counting traversal of the same tree |
| `PythonInt`, `Fips202`, `Keccak`, `KeccakSponge` | Python's unbounded bit operators, the bit-level standard, the in-place permutation, the sponge |
| `AbiWords`, `AbiEvents`, `TokenLogs` | ABI words, event decoding against the ABI encoding, token transfers from receipt logs |
| `History`, `Selection`, `HistoryWindow` | de-duplicating selection, the history window and its chunks |
| `Candidates`, `Linking`, `Reconstruction` | scoring and hub bounding, linked addresses, the cross-transaction expansion |
| `ReconstructionInvariant`, `ReconstructionSteps`, `ReconstructionRun`, `ReconstructionSafety` | its invariant, what every step keeps, whole runs, the guarantees of a finished run |
| `ReconstructionCoverage`, `ReconstructionTrials`, `ReconstructionEvidence`, `ReconstructionWitness` | what a run leaves unexplored, its investigations one by one and what the address flag says of them, what candidates, contexts and counts rest on, and concrete runs |
| `StateDiff`, `TokenAmount`, `Decimal` | budgeted state differences, exact decimal rendering |
| `IdentityGraph`, `Incidents`, `Scanner`, `InvariantMonitor` | the store's graph search and incident workflow, the block scanner, the invariant edge detector |
| `Basics`, `Sorting`, `Keys`, `PythonText` | small shared types, stable sorting, lexicographic keys, Python's white space and hexadecimal integers |

Loops of the program are methods with loops, proved equal to a specification; the promises are then
lemmas about that specification. Code that updates an object (the store, the scanner, the monitor)
is a class whose methods state the whole new state. Services the engine calls (RPC, address history,
transaction investigation) are arbitrary functions given as parameters, so every theorem about a run
holds whatever they answer.

Modelling choices:

- Addresses, transaction hashes, slots and row ids are natural numbers: as fixed-width lower-case
  hexadecimal text they sort like numbers. Call paths are real strings, since the rollback test is a
  string-prefix test.
- Keccak lanes are Python integers, unbounded and negative after `~`; that they stay below 2^64 is
  proved, not assumed.
- An expansion asks about each address once and investigates each transaction at most once, so each
  service is a function of its question, and `None` is a failure. An investigation is taken to answer
  for the transaction it was asked about (`Reconstruction.Faithful`).
- `Reconstruction.State` and `Scanner.State` carry history variables (the order of investigations, the
  links followed, the records naming the seed; the log ranges queried and blocks completed) so that
  run properties can be stated. The program does not store them.

Findings, where the code differs from what one would expect:

- Foreign keys are declared, but the pragma that enforces them is only issued on the connection that
  creates the schema. An identity edge can therefore name a node without a row, and
  `identity_neighborhood` then reports the edge without that endpoint
  (`IdentityGraph.EndpointsReportedWhenStored`, `IdentityGraph.DanglingEdgeReported`). The program's
  own writers never leave such an edge (`IdentityGraph.DisciplinedEdgesHaveEndpoints`).
- An alarm is announced when a check changes state, but recorded only once per kind, block, status and
  value. When an invariant fails, recovers and fails again at one block, the second alarm repeats the
  first and no event is recorded for it, so two recorded recoveries follow one another
  (`InvariantMonitor.UnansweredRecovery`). `InvariantMonitor.EmissionRecordsExactly` says exactly which
  emissions are recorded; when no two checks of an invariant share a block, its events are its
  emissions, and each recorded recovery directly follows a recorded alarm
  (`InvariantMonitor.RecordedAreEmissions`, `InvariantMonitor.RecordedRecoveriesAnswered`).
- A repeated error check emits again, because a stored null value is compared as the text "None"; a
  repeated ok or violated check does not (`InvariantMonitor.RepeatEmitsOnlyErrors`). At the block of
  the check before it only the transition counter moves; a new event is recorded only at another
  block (`InvariantMonitor.RepeatedErrorRecordsOncePerBlock`). An unavailable check hides the recovery
  that follows it (`InvariantMonitor.RecoveryHiddenByUnavailable`).
- A run whose transaction budget is filled stops even when its last round discovered new addresses,
  and then neither limit flag need be set (`ReconstructionWitness.SilentlyUnasked`);
  `ReconstructionCoverage.UnaskedExactly` says exactly when addresses are left unasked.
- The transaction flag can be a false alarm: it is also set when the budget is full and the only
  candidates not reconstructed are failures. It is one exactly when the coverage reports as many
  failures as candidates not reconstructed (`ReconstructionSafety.FlaggedButAllTried`,
  `ReconstructionWitness.FalseAlarm`). The address flag never is
  (`ReconstructionTrials.AddressFlagExactly`).
- A history lookup gives no warning when the caller's limit drops records; records are lost exactly
  when more distinct identities were found than the limit (`HistoryWindow.LookupLosesExactly`).
- The seed frontier is not capped: the frontier exceeds its limit exactly when the seed frontier
  does (`ReconstructionSafety.FrontierLimitExactly`, `ReconstructionWitness.FrontierBeyondLimit`).
- A selection limit below 1 still lets one record through (`History.LimitKeptExactly`,
  `History.OneRecordDespiteZero`).
- Without global upgrade monitoring, which is off by default, and without a watched address, the
  scanner completes blocks whose logs it never queries (`Scanner.MonitoredExactly`,
  `Scanner.UnmonitoredBlock`).

## Model

| member | source | states |
|---|---|---|
| CallTrace.FlattenTrace | src/white_radar/investigation.py:307-383 | the explicit stack lists the first 2,000 frames of the recursive pre-order, and the flag is set exactly when the tree has more |
| CallTrace.PushChildren | src/white_radar/investigation.py:379-382 | pushing the children in reverse leaves exactly their pre-order, with their numbered paths, ahead of what was pending |
| CallPaths.PathCoversIsAncestry | src/white_radar/investigation.py:396-401 | the string test holds exactly for the node itself and its ancestors, for all indices, 1 against 10 included |
| CallPaths.PathTextInjective | src/white_radar/investigation.py:380-382 | two positions never share a path text |
| CallPaths.PreorderStructure | src/white_radar/investigation.py:307-383 | the list holds exactly the object nodes of the tree, each with its own depth and path, in lexicographic order of position |
| CallPaths.FrameFields | src/white_radar/investigation.py:349-378 | a listed frame has its node's type in upper case or CALL, parties, value and the two kinds of failure apart |
| CallPaths.PathsDistinct | src/white_radar/investigation.py:307-383 | path strings are pairwise distinct |
| NativeFlow.ClassifyCallEffects | src/white_radar/investigation.py:386-412 | the loops classify each frame by its failed ancestors among the listed frames |
| NativeFlow.ClassificationMeaning | src/white_radar/investigation.py:386-412 | each retained frame's effect is that of its position in the whole tree: rolled back exactly when it or an ancestor failed |
| NativeFlow.EffectExactly | src/white_radar/investigation.py:386-412 | each retained frame is attempted and reverted exactly when the transaction reverted or the frame or one around it has an error or a revert reason; otherwise it is committed or unknown as the transaction succeeded or its status is unknown |
| NativeFlow.CapKeepsEffects | src/white_radar/investigation.py:311-317 | classifying the capped list is capping the classified list |
| NativeFlow.NativeTransfers | src/white_radar/investigation.py:610-678 | the loop collects the value-moving frames in order, or the transaction's own transfer when no frame was traced |
| NativeFlow.CommittedIsLedger | src/white_radar/investigation.py:610-678 | the committed transfers of the flat list are exactly the moves that survive rollback, in execution order |
| NativeFlow.FlatLedgerIsExecution | src/white_radar/investigation.py:610-678 | for every tree, status and balances, replaying the committed transfers equals running the nested tree with rollback |
| NativeFlow.SingleFrame | src/white_radar/investigation.py:660-677 | a tree of one frame moves exactly its value, from sender to recipient, if and only if the transaction succeeded, the frame did not fail, both parties are known, the value is positive and the type is CALL or absent, CREATE, CREATE2 or SELFDESTRUCT |
| NativeFlow.LowerCaseTypes | src/white_radar/investigation.py:351 | the seven call types are recognised in lower case |
| NativeFlow.UpperCaseTypes | src/white_radar/investigation.py:351 | and in upper case |
| NativeFlow.QuotedValuesDoNotMove | src/white_radar/investigation.py:660-662 | changing the values of DELEGATECALL, CALLCODE and STATICCALL frames, anywhere in the tree, changes neither the execution nor the transfers |
| NativeFlow.OwnTransfer | src/white_radar/investigation.py:635-660 | without a trace the transaction's own value is the one transfer, with the effect of its status, and moves exactly on success |
| NativeFlow.TransferIdsDiffer | src/white_radar/investigation.py:663-677 | the transfers of a trace have pairwise different ids |
| NativeFlow.CappedLedgerIsPrefix | src/white_radar/investigation.py:311-317 | a capped list commits a prefix of what the whole tree commits |
| NativeFlow.ReplayConserves | src/white_radar/investigation.py:610-678 | applying transfers conserves the total balance |
| NativeFlow.ReconstructNativeFlow | src/white_radar/investigation.py:1182-1194 | flattening, classifying and reading transfers together, an empty object counting as no trace: exact execution when untruncated, a prefix of it when truncated, and conservation always |
| TraceSummary.SummarizeCallTrace | src/white_radar/simulation.py:103-149 | the counters fold over the first 512 frames of the pre-order; the 64 least touched addresses in order; the flag is set exactly when a frame or address was dropped |
| TraceSummary.TallyOfTree | src/white_radar/simulation.py:118-144 | the fold over the flat pre-order equals one recursion over the tree |
| TraceSummary.CountersMean | src/white_radar/simulation.py:118-134 | each counter is the number of frames of the types, with a value or with a failure that it names |
| TraceSummary.ExtentMeans | src/white_radar/simulation.py:125-140 | the depth is that of the deepest frame and the touched addresses are exactly the recipients |
| TraceSummary.UntruncatedSummaryIsExact | src/white_radar/simulation.py:145-149 | without the flag the summary is the whole tree's; with it something counted is missing |
| PythonInt.RotateBit | src/white_radar/abi.py:55-58 | each bit of a rotated word comes from the rotated position, for unbounded integers masked to the width |
| Keccak.ThetaRefines | src/white_radar/abi.py:63-70 | the column loop computes theta of FIPS 202 section 3.2.1 |
| Keccak.OffsetsAreRho | src/white_radar/abi.py:19-25 | the rotation table is the walk of FIPS 202 section 3.2.2, modulo the lane length |
| Keccak.ScatterIsGather | src/white_radar/abi.py:72-79 | writing lane (x, y) to its target is reading each lane from its source, as section 3.2.3 does |
| Keccak.RhoPiHolds | src/white_radar/abi.py:72-79 | the copied lanes are pi after rho |
| Keccak.ChiRefines | src/white_radar/abi.py:80-84 | the complement-and-mask loop computes chi of section 3.2.4 and leaves every lane below 2^64 without a mask |
| Keccak.ConstantHolds | src/white_radar/abi.py:26-51 | each round constant is what the shift register of section 3.2.5 generates |
| Keccak.KeccakF1600 | src/white_radar/abi.py:61-85 | the in-place permutation refines the 24 rounds of the standard |
| KeccakSponge.PadMessage | src/white_radar/abi.py:91-95 | the padded message is non-empty whole blocks of 136 bytes that start with the message |
| KeccakSponge.PaddingIsPad10Star1 | src/white_radar/abi.py:91-95 | the byte padding is pad10*1 of section 5.1, the single byte 0x81 included |
| KeccakSponge.PaddedInjective | src/white_radar/abi.py:91-95 | two messages never share a padded form |
| KeccakSponge.AbsorbBlock | src/white_radar/abi.py:97-101 | xoring 17 little-endian words is xoring the block into the state's bit string |
| KeccakSponge.Keccak256 | src/white_radar/abi.py:88-108 | for every message the digest is KECCAK[512](M, 256) |
| AbiWords.FromToBigSigned | src/white_radar/abi.py:220-221 | reading a word with the sign of its first bit inverts two's complement |
| AbiEvents.WordRoundTrip | src/white_radar/abi.py:213-228 | decoding a word inverts encoding it, for address, bool, uintN, intN and bytesN |
| AbiEvents.FixedBytesDecode | src/white_radar/abi.py:222-227 | for every N from 1 to 32 and every N bytes, a bytesN word, topic or head slot decodes to those N bytes |
| AbiEvents.WordNames | src/white_radar/abi.py:213-221 | uint and int with any suffix read as numbers, unsigned and signed; an address is the last 20 bytes of its word |
| AbiEvents.OffsetNames | src/white_radar/abi.py:277-278 | strings, bytes, arrays and tuples lie at an offset; addresses, bools and numbers do not |
| AbiEvents.MalformedValues | src/white_radar/abi.py:281-342 | a missing or malformed topic, head slot or offset, and a type whose content is not decoded, is marked as such |
| AbiEvents.CutShort | src/white_radar/abi.py:289-297 | a length beyond the data gives what there is, flagged |
| AbiEvents.ParameterNames | src/white_radar/abi.py:316 | a parameter without a name is known by its place among all entries |
| AbiEvents.DynamicRoundTrip | src/white_radar/abi.py:281-297 | a string or bytes value found through its offset decodes to its first 4,096 bytes, flagged when longer |
| AbiEvents.DecodeEventArguments | src/white_radar/abi.py:300-342 | the loop with its two running indices gives each parameter among the first 64 entries its own topic or head slot and skips entries that are not objects |
| AbiEvents.EncodeAt | src/white_radar/abi.py:332-341 | in a head and tail encoding, argument j's head slot and tail lie where the decoder looks |
| AbiEvents.DecodingInvertsEncoding | src/white_radar/abi.py:300-342 | for distinct names, decoding the topics and data of the ABI encoding returns every value, and nothing else |
| AbiEvents.ValuesThatFit | src/white_radar/abi.py:213-228 | the values the round trips cover: every number in range, both bools, every address, N bytes for bytesN, any text or bytes |
| PythonText.HexRoundTrip | src/white_radar/rpc.py:34-39 | reading a printed hexadecimal integer gives it back, whatever its sign and number of digits |
| PythonText.OtherSpellings | src/white_radar/rpc.py:34-39 | a number is read alike in either case of its prefix and digits, with a sign, an underscore after the prefix or white space around it; no text is 0, and a bare prefix or blank text is no number |
| PythonText.UnderscoreBetween | src/white_radar/rpc.py:34-39 | one underscore between two digits changes nothing |
| PythonText.SpacesExactly | src/white_radar/storage.py:566-567 | the white space that stripping removes is these 29 characters and no other |
| TokenLogs.ArrayRoundTrip | src/white_radar/investigation.py:86-97 | an encoded uint256 array decodes to itself when it has at most 256 items and to nothing otherwise |
| TokenLogs.ArraysRead | src/white_radar/investigation.py:86-97 | an array is read exactly when its offset is a whole number of words inside the data and its at most 256 numbers are all present, and then number by number |
| TokenLogs.TransfersFromLogs | src/white_radar/investigation.py:415-532 | the transfers are the first 20,000 of all logs' transfers, every log that starts below the cap raises its notice, and the cap is announced exactly when a transfer is dropped or a log left unread |
| TokenLogs.RaisesExactly | src/white_radar/investigation.py:435-441 | the logs excluded are exactly those the program raises on: an ERC-721 transfer between readable parties whose fourth topic is no number |
| TokenLogs.CapAnnouncedExactly | src/white_radar/investigation.py:424-526 | the cap is announced exactly when there are more than 20,000 transfers or a log comes after the first 20,000 |
| TokenLogs.AppendBatchLog | src/white_radar/investigation.py:497-531 | a batch log adds its items one by one up to the cap, or its notice |
| TokenLogs.LogRoundTrip | src/white_radar/investigation.py:435-531 | the log of an ERC-20, ERC-721 or ERC-1155 transfer event reads back as the transfers it stands for, without notices |
| TokenLogs.UnreadableLogs | src/white_radar/investigation.py:432-531 | what each kind of unreadable log contributes: nothing, or only its notice |
| TokenLogs.TransferIds | src/white_radar/investigation.py:442-515 | an id names its log and its place in it, and no two places share one |
| TokenLogs.ReceiptRoundTrip | src/white_radar/investigation.py:415-532 | a whole receipt reads back as its events' transfers, in order |
| History.BoundedUnique | src/white_radar/history.py:94-124 | the loop takes the first record of each identity in key order, up to the limit, and one record for a limit below 1 |
| History.SameIdentity | src/white_radar/history.py:109-117 | records are duplicates exactly when transaction, type, sender, recipient, asset, value and token agree |
| History.BestUniqueShape | src/white_radar/history.py:94-124 | min(limit, distinct identities) records, sorted, all given, one per identity |
| History.BestUniqueOptimal | src/white_radar/history.py:94-124 | each is the least of its identity and nothing left out is better |
| History.KeyOrder | src/white_radar/history.py:99-108 | the order is nearness to the anchor, then block, index with missing ones last, hash and type |
| History.NearestAreKept | src/white_radar/history.py:99-121 | a record whose identity was left out is no nearer to the anchor than any record kept |
| History.LimitKeptExactly | src/white_radar/history.py:119-124 | the limit is kept exactly when it is at least 1 or there is no record |
| History.OneRecordDespiteZero | src/white_radar/history.py:119-124 | a limit of 0 selects the one record given |
| HistoryWindow.WindowIsBestCentered | src/white_radar/history.py:127-140 | a capped window has exactly the allowed size, lies in the range, holds the anchor, and none stays closer to it |
| HistoryWindow.EmptyRange | src/white_radar/history.py:130-131 | a range that ends before it starts stays empty and uncapped |
| HistoryWindow.LogRecords | src/white_radar/history.py:365-400 | every filter over every chunk until the cap, and the best distinct records of what was read |
| HistoryWindow.ReadFilter | src/white_radar/history.py:379-399 | the chunk loop of one filter reads up to the cap and reports every failed query made before it |
| HistoryWindow.ReportedExactly | src/white_radar/history.py:381-391 | only failed queries are reported unavailable, and before the cap every failed one |
| HistoryWindow.ChunksTile | src/white_radar/history.py:379-380 | every block of the window is in exactly one chunk, and no other block in any |
| History.NothingLostExactly | src/white_radar/history.py:94-124 | a selection represents every record given exactly when there are no more distinct identities than its limit |
| HistoryWindow.RecordsForAddress | src/white_radar/history.py:453-485 | the lookup narrows the window, reads the address's transactions and logs in it, and selects the best distinct records up to the caller's limit |
| HistoryWindow.TouchingMeaning | src/white_radar/history.py:475-479 | the scanned transactions taken are exactly those the address sent or received, as often as scanned |
| HistoryWindow.LookupLosesExactly | src/white_radar/history.py:481-483 | a record found is lost exactly when more distinct identities were found than the limit; a selection shorter than the limit lost nothing |
| HistoryWindow.NothingLostToTheCaller | src/white_radar/history.py:453-485 | for every block and filter: the cap was announced, the chunk was reported unavailable, more identities were found than the limit, or each readable log is represented in what the caller receives |
| HistoryWindow.NothingMissedSilently | src/white_radar/history.py:378-400 | for every block and filter: the cap was announced, or the chunk of the block was reported unavailable, or each readable log of its answer is represented in the selection |
| Candidates.NearerScoresHigher | src/white_radar/reconstruction.py:260-275 | on one side of the seed a record scores one more per block nearer, within 48 blocks |
| Candidates.DirectionScores | src/white_radar/reconstruction.py:260-275 | funds received before the seed or sent after it score 30 more than the other way round |
| Candidates.TypeScores | src/white_radar/reconstruction.py:261-267 | the score of each record type alone |
| Candidates.ValueScores | src/white_radar/reconstruction.py:268-275 | a value that is neither empty nor zero adds 18, the seed's own block 48 |
| Candidates.NoDirectionAtSeed | src/white_radar/reconstruction.py:270-274 | in the seed's own block the direction adds nothing |
| Candidates.RecordCounterparties | src/white_radar/reconstruction.py:284-291 | the loop collects the set that `CounterpartiesMeaning` characterises |
| Candidates.CounterpartiesMeaning | src/white_radar/reconstruction.py:284-291 | the counterparties are exactly the non-zero other parties of the address's own records |
| Candidates.BoundedHubRecords | src/white_radar/reconstruction.py:294-322 | all records of the selected transactions, and kept + suppressed = input |
| Candidates.ScoreIsBest | src/white_radar/reconstruction.py:303-307 | a transaction's score is the best of its records |
| Candidates.BlockIsFirst | src/white_radar/reconstruction.py:308 | a transaction's block is its first record's |
| Candidates.KeptRecords | src/white_radar/reconstruction.py:321-322 | a kept transaction keeps every record of it, a dropped one none |
| Candidates.KeptInOrder | src/white_radar/reconstruction.py:321 | kept records stay in input order |
| Candidates.HubKeepsAsManyAsAllowed | src/white_radar/reconstruction.py:309-320 | min(k, distinct transactions) transactions are kept |
| Candidates.HubKeepsTheBest | src/white_radar/reconstruction.py:309-320 | no dropped transaction ranks before a kept one |
| Candidates.HubKeepsHigherScores | src/white_radar/reconstruction.py:309-320 | the same in numbers: higher score, then nearer to the seed, then earlier block, then smaller hash |
| Linking.LinkedAddresses | src/white_radar/reconstruction.py:682-693 | the loops compute the one-pass growth from the records' addresses and counterparties |
| Linking.NamedMeaning | src/white_radar/reconstruction.py:252-257 | a record names its address and, unless it is zero, the recipient of what the address sent or else the sender of what it received |
| Linking.GrowIsReachability | src/white_radar/reconstruction.py:687-693 | the growth finds exactly the addresses reachable along committed transfers at non-decreasing list positions, in either direction, never through the zero address |
| Linking.ZeroNeverLinked | src/white_radar/reconstruction.py:690-693 | the zero address is never added |
| Linking.GrowMonotone | src/white_radar/reconstruction.py:687-693 | more evidence never links fewer addresses |
| Reconstruction.CollectSeedFrontier | src/white_radar/reconstruction.py:234-249 | the dictionary filled is the seed frontier, at distance 0 |
| ReconstructionRun.SeedFrontierMeaning | src/white_radar/reconstruction.py:234-249 | the frontier is exactly the non-zero parties of the seed and of its committed transfers |
| Reconstruction.RecordEvidence | src/white_radar/reconstruction.py:609-628 | the record loop updates the candidates record by record |
| Reconstruction.QueryFrontier | src/white_radar/reconstruction.py:573-628 | the address loop, with its limit, its failures and its hub bounding |
| Reconstruction.ExtendFrontier | src/white_radar/reconstruction.py:694-702 | linked addresses enter the next layer until the limit |
| Reconstruction.InvestigateAvailable | src/white_radar/reconstruction.py:645-702 | the candidate loop, with its limit and its failures |
| Reconstruction.ReconstructAttackCase | src/white_radar/reconstruction.py:557-747 | the whole nested search ends in the state of `Run`, and the coverage counts are that state's |
| ReconstructionInvariant.RecordAllKeeps | src/white_radar/reconstruction.py:609-628 | recording evidence keeps the invariant and accounts for every record |
| ReconstructionSteps.QueryAllKeeps | src/white_radar/reconstruction.py:568-630 | querying a layer keeps the invariant and the accounts, and touches no case |
| ReconstructionSteps.InvestigateKeeps | src/white_radar/reconstruction.py:645-702 | one investigation tries a candidate once, keeps the invariant, and links every address the expansion reaches unless the limit is flagged |
| ReconstructionRun.RoundTriesBestFirst | src/white_radar/reconstruction.py:632-647 | what the budget leaves untried in a hop ranks no better than anything tried |
| ReconstructionRun.RunFinishes | src/white_radar/reconstruction.py:567-704 | every run keeps the invariant and balances its records, and leaves a candidate untried only at the address limit or a full transaction budget |
| ReconstructionSafety.ChainExists | src/white_radar/reconstruction.py:567-704 | every candidate has an evidence chain to the seed frontier as long as its hop |
| ReconstructionSafety.ChainIsNotShorter | src/white_radar/reconstruction.py:567-704 | no evidence chain is shorter than the hop |
| ReconstructionSafety.HopsAreShortestChains | src/white_radar/reconstruction.py:557-704 | every reconstructed transaction's hop is between 1 and the limit and is the length of a shortest evidence chain in the explored graph |
| ReconstructionSafety.CoreIsOneEvidenceHop | src/white_radar/reconstruction.py:383-402 | besides the seed, the core is exactly the transactions one piece of evidence ties to the seed frontier |
| ReconstructionSafety.RunBalances | src/white_radar/reconstruction.py:567-747 | reconstructed + not reconstructed = candidates + 1; each candidate is tried at most once; considered = used + naming the seed + suppressed |
| ReconstructionEvidence.RunIsGrounded | src/white_radar/reconstruction.py:573-628 | over every run: a candidate's block, score, reasons and sources are those of its records and its records are of the histories asked; every selected record of an address asked is with its candidate; the hubs are exactly the addresses asked that answered as hubs; the records considered are all those answered |
| ReconstructionEvidence.ContextsAreTold | src/white_radar/reconstruction.py:668-676 | over every run: each reconstructed transaction's context has the block and phase of the case returned, and the hop, points and reasons its candidate had when taken; the seed keeps its own |
| ReconstructionEvidence.CoverageMeans | src/white_radar/reconstruction.py:716-746 | each figure of the coverage record counts what its name says |
| ReconstructionSafety.RunStaysWithinBudgets | src/white_radar/reconstruction.py:573-702 | the transaction and queried-address budgets hold, and the frontier never exceeds the larger of its limit and the seed frontier |
| ReconstructionSafety.FrontierLimitExactly | src/white_radar/reconstruction.py:234-249 | the frontier stays within its limit exactly when the seed frontier does, and a larger seed frontier is never extended |
| ReconstructionWitness.FrontierBeyondLimit | src/white_radar/reconstruction.py:557-702 | a seed between two parties exceeds a limit of one address |
| ReconstructionSafety.NoLimitMeansOnlyFailures | src/white_radar/reconstruction.py:716-746 | with neither limit flag set, the candidates not reconstructed are exactly the failures |
| ReconstructionSafety.FlaggedButAllTried | src/white_radar/reconstruction.py:716-722 | the candidates not reconstructed are the failures and those never tried, so every candidate was tried exactly when the two reported counts agree, whatever the flag says; and a candidate left untried is always flagged |
| ReconstructionWitness.FalseAlarm | src/white_radar/reconstruction.py:716-718 | a concrete run sets the transaction flag although it tried every candidate |
| ReconstructionTrials.TrialsTakeBestFirst | src/white_radar/reconstruction.py:632-647 | over whole runs: the i-th investigation takes a candidate that no candidate known and untried at that moment ranks before, so what a run leaves untried ranks no better than anything it tried while knowing it |
| ReconstructionTrials.TrialsTakeMostPoints | src/white_radar/reconstruction.py:278-281 | over whole runs and in the candidates' own fields: every investigation takes a candidate with the most points among all known and untried, seven per reason up to eight and 55 off for hubs alone, ties by nearness to the seed, block and hash |
| ReconstructionTrials.BestInPlainTerms | src/white_radar/reconstruction.py:637-645 | with equally many reasons and the same hub status the one taken has no smaller score, and on a tie is no farther from the seed; one named by hubs alone goes first only for 55 points more |
| ReconstructionTrials.AddressFlagExactly | src/white_radar/reconstruction.py:573-702 | the address flag is set exactly when an expansion reached an address the run does not know, or an address of a layer it began is left unasked |
| ReconstructionTrials.AddressFlagMeans | src/white_radar/reconstruction.py:573-702 | a set flag always means an address dropped or left unasked, and an unflagged run knows every non-zero address that each expansion reached when it was made |
| ReconstructionCoverage.UnaskedExactly | src/white_radar/reconstruction.py:629-704 | when the address limit is not flagged, discovered addresses are left unasked exactly when the transaction budget was filled by a round that entered a new address |
| ReconstructionCoverage.BelowBudgetAllAsked | src/white_radar/reconstruction.py:567-704 | below the transaction budget and without the address flag, every discovered address within reach was asked about |
| ReconstructionWitness.SilentlyUnasked | src/white_radar/reconstruction.py:703-722 | a concrete run fills its budget in the round that discovers an address, ends with neither flag set, and never asks about it |
| StateDiff.StorageDiff | src/white_radar/state_diff.py:89-109 | the loop takes a prefix of the full sorted difference and flags exactly a dropped change |
| StateDiff.ChangesMeaning | src/white_radar/state_diff.py:97-108 | the full difference lists exactly the slots whose value differs, once, in order, with both values |
| StateDiff.FullDiffPatches | src/white_radar/state_diff.py:89-109 | patching the storage before gives the storage after, and unpatching gives it back |
| StateDiff.ParseStateDiff | src/white_radar/state_diff.py:112-180 | kept accounts are the first in address order; the changes kept over them are a prefix of their full difference, counted exactly; the flag is set exactly when an account or changed slot was dropped |
| StateDiff.ReportMeaning | src/white_radar/state_diff.py:129-172 | entries come in address order, at most 512 and 8,192 changes; an account is removed, created or modified as the sides list it, with the fields of both |
| StateDiff.UntruncatedDiffPatches | src/white_radar/state_diff.py:112-180 | in an unflagged report every account's changes carry its storage forward and back |
| TokenAmount.FormatRoundTrip | src/white_radar/token_metadata.py:68-82 | reading the printed text at its scale recovers the raw amount |
| TokenAmount.FormatIsTidy | src/white_radar/token_metadata.py:68-82 | no bare point, no trailing fractional zero, no leading zero |
| TokenAmount.FormatInjective | src/white_radar/token_metadata.py:68-82 | for fixed decimals two amounts print alike only when they are equal |
| TokenAmount.FormatIsCanonical | src/white_radar/token_metadata.py:68-82 | at any two scales, two amounts print alike exactly when they are the same number |
| TokenAmount.PrintedExactly | src/white_radar/token_metadata.py:68-74 | an amount is printed exactly when it is known and its decimals lie from 0 to 255 |
| IdentityGraph.IdentityNeighborhood | src/white_radar/storage.py:1090-1144 | the layered search returns the stored nodes of the ball, sorted, and its incident edges, sorted |
| IdentityGraph.BallIsDistance | src/white_radar/storage.py:1099-1125 | the ball is exactly the nodes within the clamped undirected distance of a seed |
| IdentityGraph.ReportedExactly | src/white_radar/storage.py:1090-1131 | nodes on walks from a node of the chain with the value, of at most the depth moved into 0 to 4 edges, and the chain's edges with an end on a walk one edge shorter |
| IdentityGraph.NodeOrder | src/white_radar/storage.py:1142 | reported nodes come in order of kind, then value, as texts |
| IdentityGraph.EdgesAreIncident | src/white_radar/storage.py:1106-1120 | the edges are exactly the chain's edges incident to a node at smaller distance |
| IdentityGraph.EndpointsReportedWhenStored | src/white_radar/storage.py:1126-1131 | a reported edge has both endpoints reported exactly when both have rows |
| IdentityGraph.DanglingEdgeReported | src/white_radar/storage.py:1056-1088 | a concrete edge to a node without a row, reported without it |
| IdentityGraph.IdentityStore.UpsertIdentityNode | src/white_radar/storage.py:1022-1054 | a node is stored under the id computed from its chain, kind and value, kept when already stored, and refused when another row has its id |
| IdentityGraph.IdentityStore.UpsertIdentityEdge | src/white_radar/storage.py:1056-1088 | an edge is stored under the id computed from it, without looking its endpoints up |
| IdentityGraph.StoreHoldsWhatWasWritten | src/white_radar/storage.py:1022-1088 | over every run of writes the tables hold only rows that were written, under their own ids; every node written is stored or its id is taken, and every edge written has its id stored |
| IdentityGraph.DisciplinedEdgesHaveEndpoints | src/white_radar/monitor.py:613-635 | in a store whose edges only join ids returned by earlier node upserts, every reported edge has both endpoints reported |
| Incidents.RadarStore.OpenIncident | src/white_radar/storage.py:466-528 | opening inserts an incident and its first history row, or nothing below the threshold or when the event already has one |
| Incidents.RadarStore.TransitionIncident | src/white_radar/storage.py:558-633 | a transition updates one row and appends one history row, or fails with the error of the first check that rejects it and changes nothing |
| Incidents.WorkflowShape | src/white_radar/storage.py:213-245 | which statuses can be entered and left, and that work only moves forward except from monitoring back to investigating |
| Incidents.BlankOnly | src/white_radar/storage.py:566-569 | an actor is missing exactly when every character of it is one Python splits at |
| Incidents.JoinedWordsJoins | src/white_radar/storage.py:566-567 | normalizing a text joins its maximal runs of characters that are not white space by single spaces |
| Incidents.RunSound | src/white_radar/storage.py:466-633 | whatever commands follow, a sound store stays sound |
| Incidents.EveryRunSound | src/white_radar/storage.py:466-633 | over every run from the empty store each history starts with null to NEW, links each row to the status before it along an allowed edge, and explains its incident's row |
| Incidents.EveryIncidentWasOpened | src/white_radar/storage.py:466-528 | over every run from the empty store each incident was opened by a command whose event reached the threshold, with that event's id, severity and time, the command's protocol, and a deadline of its minutes, at least one, later |
| Incidents.QualifyingEventHasIncident | src/white_radar/storage.py:476-487 | an event that reaches the threshold has its incident afterwards, a new one with the program's own first history row; any other event changes nothing |
| Incidents.TransitionExactly | src/white_radar/storage.py:558-633 | which of actor, incident and status is reported missing, and the one history row an accepted transition adds |
| Incidents.IncidentFacts | src/white_radar/storage.py:580-600 | closed exactly when terminal, acknowledged in hand and when resolved, owned exactly when no longer new, one incident per event |
| Incidents.RunLater | src/white_radar/storage.py:558-633 | whatever follows, a terminal incident never changes, acknowledgement time and owner never change once set, and history is only appended |
| Scanner.ChainScanner.Scan | src/white_radar/monitor.py:89-125 | one cycle monitors its range if it is configured to, advances the cursor block by block up to the first failure, and reports its range and block count |
| Scanner.CycleKeeps | src/white_radar/monitor.py:89-125 | whatever fails, at most the allowed blocks complete and the cursor moves only forward, except to block 0 only to a block with its confirmations |
| Scanner.RunKeeps | src/white_radar/monitor.py:96-121 | whatever cycles follow, soundness is kept, the trace only grows and the cursor never moves back or passes the largest head less the confirmations |
| Scanner.EveryRunIsSound | src/white_radar/monitor.py:96-121 | over any heads and failures from a fresh cursor the completed blocks are one gap-free interval ending at the cursor, which never passes the largest head less the confirmations, and when logs are queried each block lies in a range queried earlier |
| Scanner.CompletedBlocksAreConfirmed | src/white_radar/monitor.py:96-97 | over every run from a fresh cursor each completed block was completed in some attempt, and any attempt that completes it has a head at least `confirmations` beyond it, block 0 excepted |
| Scanner.QuietCycleCompletes | src/white_radar/monitor.py:98-121 | a failure-free cycle completes consecutive confirmed blocks after the cursor, or from a fresh cursor those that begin the last `initialLookbackBlocks`, up to `maxBlocksPerCycle` |
| Scanner.GenesisIsUnconfirmed | src/white_radar/monitor.py:97 | with a head below the confirmations a fresh cursor still completes block 0 |
| Scanner.MonitoredExactly | src/white_radar/monitor.py:683-692 | when any block was completed, each was inside a range queried earlier exactly when the configuration monitors globally or watches an address |
| Scanner.UnmonitoredBlock | src/white_radar/monitor.py:683-686 | a quiet cycle of the default configuration without watched addresses completes a block that no log query covered |
| Scanner.CaughtUpExactly | src/white_radar/monitor.py:99-121 | a fixed head is caught up by exactly ceil(lag / blocks per cycle) failure-free cycles |
| Scanner.CatchesUpToConfirmed | src/white_radar/monitor.py:97-121 | after n failure-free cycles at a fixed head the cursor is n times `maxBlocksPerCycle` farther, and at most, and finally, at head − confirmations |
| Scanner.LogFailures | src/white_radar/monitor.py:683-692 | a failing log query stops a cycle before any block when logs are queried, and changes nothing when they are not |
| InvariantMonitor.InvariantMonitor.RecordTransition | src/white_radar/monitor.py:191-276 | a check replaces the stored state and emits an alarm, a recovery or nothing, its event recorded once |
| InvariantMonitor.InvariantMonitor.RecordState | src/white_radar/storage.py:765-814 | the stored check is replaced and the state before it returned |
| InvariantMonitor.RecoveryAnswersAlarm | src/white_radar/monitor.py:207-215 | of the decisions to emit, recorded or not: each recovery emitted comes after an alarm emitted, with no other recovery emitted between them |
| InvariantMonitor.RecoveriesNeverOutnumberAlarms | src/white_radar/monitor.py:207-215 | of the decisions to emit, recorded or not: recoveries emitted never outnumber alarms emitted, and lag behind while the invariant fails |
| InvariantMonitor.EmissionRecordsExactly | src/white_radar/monitor.py:803-805 | an emission records an event exactly when no earlier emission has the same kind, invariant, block, status and value, and leaves the recorded events alone otherwise |
| InvariantMonitor.RecordedAreEmissions | src/white_radar/storage.py:339-362 | in any interleaving, an invariant's recorded events are its emissions in order exactly when no emission repeats another, and so whenever no two of its checks share a block |
| InvariantMonitor.RecordedRecoveriesAnswered | docs/ARCHITECTURE.md:196-202 | when no two checks of an invariant share a block, the event recorded for it just before a recorded recovery is an alarm |
| InvariantMonitor.UnansweredRecovery | src/white_radar/monitor.py:803-805 | four checks, three of them at one block, that record one alarm and then two recoveries |
| InvariantMonitor.RepeatEmitsOnlyErrors | src/white_radar/monitor.py:207-212 | repeating an identical check emits exactly when it is an error |
| InvariantMonitor.EmissionExactly | src/white_radar/monitor.py:207-215 | of genuine checks, an alarm is emitted exactly for an error, or a violation that is first or has another status or value than the check before; a recovery exactly for an ok right after a violation or an error |
| InvariantMonitor.InterleavedEmission | src/white_radar/monitor.py:191-215 | the same in any interleaving, by the last check of the same invariant |
| InvariantMonitor.RepeatedErrorRecordsOncePerBlock | src/white_radar/monitor.py:236-245 | a repeated error always emits, but records a new event exactly when none is recorded for its block yet |
| InvariantMonitor.RecoveryHiddenByUnavailable | src/white_radar/monitor.py:207-215 | after a failure, an ok is announced exactly when no unavailable check came between |
| InvariantMonitor.RunEmitsAsAlone | src/white_radar/storage.py:780-791 | invariants do not disturb one another: in any interleaving each emits what it would alone |
| InvariantMonitor.EventsAreDistinct | src/white_radar/storage.py:339-362 | no event is recorded twice, however often it is emitted |

## Left out

- RPC, HTTP, explorer, Telegram, WebSocket, argument, TOML and environment plumbing, logging, and the report, CSV, HTML, GraphML and manifest writers.
- SHA-256, BLAKE2 and SQLite: tables are maps and sequences; event and incident ids are an arbitrary function of what they are computed from, and code hashes are opaque values.
- Scoring, policy, mempool, invariant evaluation, proxy and fingerprint modules: branch tables and single-loop helpers.
- `TokenMetadataResolver`, `enrich_case`, gas, calldata and selector fields of call frames, entities, relationships and timelines: display data no modelled branch depends on.
- Malformed hexadecimal that raises, keys that collide only by letter case, and negative token amounts.
- CallTrace.FlattenTrace: children that are not a list are the empty list, and addresses are already normalised; the looser "0x and 42 characters" test of the summary and the seed frontier is taken to agree with the regular expression.
- AbiEvents.DecodingInvertsEncoding: static arrays and tuples are excluded, since the decoder treats them as one dynamic head slot; text values are byte strings, so UTF-8 replacement is not modelled; the number in `bytesN` is read as plain digits.
- TokenLogs.TransfersFromLogs: the first topic is compared with the three signatures in advance, amounts are numbers rather than their decimal text, and each log carries its index; in a topic read as a number, decimal digits of other scripts are not digits.
- History.BoundedUnique: the lazy inputs are one sequence, and the caches, whose keys omit the anchor block, are left out.
- HistoryWindow.LogRecords: logs are opaque, and the record a log is read as is a parameter.
- HistoryWindow.RecordsForAddress: what the block scan of the window read is a parameter.
- IdentityGraph.IdentityStore.UpsertIdentityNode: labels, metadata and times, which an upsert refreshes, are left out, and values arrive in lower case.
- KeccakSponge.Keccak256: the squeezing loop is one pass, since one rate of output covers 32 bytes and a second permutation is never reached.
- Reconstruction.ReconstructAttackCase: token-metadata enrichment and the warning texts; of the context only block, phase, hop, score and reasons; of the coverage record the counts and flags.
- StateDiff.ParseStateDiff: account fields arrive parsed, with `None` for a missing or malformed quantity.
- TokenAmount.FormatRoundTrip: a raw amount that is not an integer is `None` and prints nothing.
- Incidents.RadarStore.OpenIncident: timestamps are numbers, and the foreign key from incidents to events is not enforced.
- IdentityGraph.IdentityNeighborhood: the value searched for is already lower-case, nodes that tie on kind and value come in id order, and metadata and evidence are left out.
- Scanner.ChainScanner.Scan: processing a block and monitoring a range are abstract and either complete or fail; alerts and invariant checks before the range and alerts after it can only fail; the configuration is fixed over a run.
- InvariantMonitor.InvariantMonitor.RecordTransition: event texts and scores; an event's identity is its kind, invariant, block, status and value. State and event change in one step; in the program the state is committed first, so an event insertion that fails loses its alarm, and a later recovery stands alone.
- Alert delivery, deployment events after a partial failure, and the order of the timeline: no ordering or liveness holds there to state.
