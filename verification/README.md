# Rainbow bridge: a verified model

A Dafny model of the contracts and byte formats of a two-way light-client bridge between Ethereum and NEAR, with proofs of
what they promise. `dafny verify dfyconfig.toml` checks the whole project.

The model follows the contracts in their own form. A contract is a class whose methods update its fields; each method is
proved equal to a function on values (`...Spec` modules), and the results over whole runs are proved about those functions.
A panic, a revert and an exception are `None` or `false`, and undo the call. Integers are unbounded in Dafny, so every
width, wrap-around and overflow check of the sources is written out.

## What is modelled

- **The Ethereum light client on NEAR** (`EthClientSpec`, `EthClientProofs`, `EthClientTheorems`,
  `EthClientAcceptance`, `EthClient`): a header tree with its rules of acceptance, fork choice by total difficulty, a canonical index that a reorganisation walk rewrites and stops early, and two
  garbage collectors with different windows. The index is the parent walk from the best header in every reachable state.
  Below the lowest retained header the walk stops without converging; `StaleExactly` says exactly when an entry is then left
  over from the old chain, `SmoothExactly` which runs never get there, and `EthClientStale` is a run of eight headers that
  does.
- **The NEAR light client on Ethereum and its watchdog** (`NearBridgeSpec`, `NearBridgeProofs`, `NearBridgeTheorems`,
  `NearBridgeExact`, `NearBridgeHistory`, `NearBridge`, `BridgeCalls`, `Watchdog`): bonds, submission, replacement, challenge, lazy commit and epoch rotation under a
  clock that does not go back, on decoded values and on raw call data. Exact conditions for every call, producer sets in epoch
  order, finality, bond conservation, quorum arithmetic that never overflows, lazy commit as a refinement of eager commit, and the quorum behind every reported block if the watchdog
  completes a scan in every window.
- **The Ed25519 verifier in Solidity** (`Lanes`, `Sha512`, `Sha512Constants`, `Sha512Example`, `Sha512Message`, `Arithmetic`, `Field25519`, `PointDecoding`, `Edwards`,
  `Completeness`, `CurveGroup`, `KeyTable`, `Ed25519`, `Words`, `SignatureCheck`): SHA-512 packed four lanes to a word
  (section 6.4.2 of FIPS 180-4) with its constants, padding and an example, addition chains modulo 2^255 - 19, point decoding (section 5.1.3 of RFC 8032), the
  completeness of the addition law, the table of multiples with one shared inversion, the joint sliding-window loop and the
  comparison of words (section 5.1.7 of RFC 8032). `SignatureCheck.CheckSignature` takes the call's raw
  words and accepts exactly when the group equation holds.
- **Borsh formats and the provers over them** (`Borsh`, `BorshData`, `NearFormat`, `NearWriter`, `NearDecoder`,
  `ProofFormat`, `ProofWriter`, `ProofDecoder`, `SchemaCodec`, `Merkle`, `DagMerkle`, `NearProver`, `TrieProof`): the
  JavaScript writers, the Solidity cursor that must undo them, the schema-driven codec, and Merkle and Patricia proofs with
  their binding properties.
- **The bridged token on NEAR** (`TokenSpec`, `TokenTheorems`, `TokenAllowances`, `Token`): minting in two steps with a
  verification callback in between. Supply, balances, allowances and used events over every interleaving.

`Prelude`, `NearTypes` and `MapSum` hold shared vocabulary.

## What is assumed

- Hash functions, signature checks, RLP, the parser of log entries and the proof-of-work test are function parameters. Where
  a result needs a hash to be free of collisions it asks that only of the inputs that occur (`NoCollision`, `Distinct`,
  `NodesDistinct`); in the Ethereum client a hash determines its header (`Genuine`).
- Ed25519: that p is prime is used as `PrimeField` (no zero divisors, Fermat's little theorem); that -1 is a square modulo p
  and -1/d is not is `Proper`; that the curve's points are an abelian group that obeys the addition law is `Lawful`. That the
  law has no exceptional case is proved from these (`Completeness`). That 8 l annihilates every point is `OrderLaw`; that the
  literal table holds the multiples 8 to 15 of a point b, eight times which is the base point, is a precondition of
  `Recompute` and of the calls above it.
- `Sane`: the index is kept at least as long as the headers, and at least one level of headers is kept.
- `Diligent`: the watchdog completes a full scan, with any challenge it raises, inside every challenge window;
  `Watchdog.ScanIsDiligent` says which steps of the watchdog amount to that.

## Where code and documentation differ

- `borshify` and `borshifyOutcomeProof` write the length of a string in UTF-16 units before its UTF-8 bytes, so the decoders
  recover it only when the two agree, which is when the string is ASCII (`PlainIsAscii`); the round-trip results state this
  as an equivalence, and `AccentIsLost` is a string that is lost.
- `borshifyOutcomeProof` writes the number of logs but not the logs, and always an empty outcome-root proof: the round trip
  is an equivalence, and `LogIsLost` and `RootItemIsLost` are proofs that are written and lost.
- `verify_trie_proof` returns true for the empty value whenever it does not panic, panics on every node below the root that
  is shorter than 32 bytes, and follows an extension by at most one nibble. `EmptyPasses` is an empty value that passes
  though nothing stores it; `TrueIffChain` is the exact result for every other value. The public call `verify_log_entry`
  passes only receipt data that it has already decoded as RLP, so never the empty value.
- The Ed25519 key decoder refuses neither an ordinate of p or more nor the abscissa zero with the sign bit set, as section
  5.1.3 of RFC 8032 would. `RfcKeyExactly` and `RfcDecodesExactly` say that the two agree exactly when the ordinate y is
  below p and not both the sign bit is set and y y = 1 modulo p; `UnreducedNeutral` and `SignedNeutral` are keys at which
  they differ. `CheckSignature` carries this to whole signatures, and `NeutralSignature` is one on which they differ.
- `proveOutcome` never reads the block hash that stands beside the outcome: `BlockHashIsFree` replaces it by any other, and
  `ProofBinds` says that nothing else can be replaced.
- The difficulty check of `verify_header` compares a header with itself; it is modelled as it stands, asks for a difficulty of at
  least one hundred (`VerifiedIsLegal`), and bounds no change of difficulty.

## Model

| member | source | states |
|---|---|---|
| EthClient.EthClient.constructor | contracts/near/eth-client/src/lib.rs:112-154 | a new client holds the first header as best header, index entry, known hash, header and info, with total difficulty zero |
| EthClient.EthClient.AddBlockHeader | contracts/near/eth-client/src/lib.rs:202-227 | the state after a submission is the specified one; a header with an unknown parent or one that fails verification changes nothing |
| EthClient.EthClient.RecordHeader | contracts/near/eth-client/src/lib.rs:232-310 | storing, fork choice, reorganisation and both collections leave exactly the specified maps and best header, and every panic leaves the state as it was |
| EthClient.EthClient.SwitchTo | contracts/near/eth-client/src/lib.rs:272-308 | the switch to a new best header is clearing, the walk and the two collections in that order |
| EthClient.EthClient.ClearAbove | contracts/near/eth-client/src/lib.rs:274-278 | exactly the entries between the new head and the old best number are gone |
| EthClient.EthClient.RewriteFrom | contracts/near/eth-client/src/lib.rs:284-302 | the early-stopping loop writes what the recursive parent walk writes |
| EthClient.EthClient.GcCanonicalChain | contracts/near/eth-client/src/lib.rs:313-326 | the downward loop removes the contiguous run of index entries below the threshold |
| EthClient.EthClient.GcHeaders | contracts/near/eth-client/src/lib.rs:329-346 | the two nested loops remove whole levels from the three header maps |
| EthClient.EthClient.BlockHashSafe | contracts/near/eth-client/src/lib.rs:188-196 | an entry is reported only with enough blocks above it; the addition may overflow and panic |
| EthClientProofs.WalkLinks | contracts/near/eth-client/src/lib.rs:284-302 | from an index linked up to the fork, the early-stopping walk yields an index that is linked by parents up to the new head |
| EthClientProofs.ReorganiseShape | contracts/near/eth-client/src/lib.rs:268-302 | after a switch the index is one interval ending at the new head, linked by parents wherever infos are retained, and untouched below the retained levels |
| EthClientProofs.TrimCanonicalIs | contracts/near/eth-client/src/lib.rs:313-326 | collection of the index is a cut at a number |
| EthClientProofs.TrimHeadersIs | contracts/near/eth-client/src/lib.rs:329-346 | collection of headers is a cut at a level in all three maps |
| EthClientProofs.CollectInv | contracts/near/eth-client/src/lib.rs:303-308 | both collections keep the whole invariant and raise the two window bounds as the thresholds say |
| EthClientTheorems.RecordInv | contracts/near/eth-client/src/lib.rs:232-310 | every accepted header keeps the tree and index invariant, and a switch to number n raises the lowest retained number above n less the finality threshold |
| EthClientTheorems.RunInv | contracts/near/eth-client/src/lib.rs:202-346 | the invariant holds after every sequence of submissions from any first header |
| EthClientTheorems.Retention | contracts/near/eth-client/src/lib.rs:245-346 | in every reachable state headers, infos and known hashes agree, nothing at or below the finality threshold remains, parents of all but the lowest level are retained, and the index is one interval of bounded length ending at the best header |
| EthClientTheorems.IndexIsParentWalk | contracts/near/eth-client/src/lib.rs:268-302 | each retained index entry, and the one just below, is the ancestor found by walking parents from the best header |
| EthClientTheorems.SafeHashIsAncestor | contracts/near/eth-client/src/lib.rs:188-196 | in every reachable state a safe hash for a retained number is the ancestor of the best header with at least the required confirmations |
| EthClientTheorems.TotalsAreExact | contracts/near/eth-client/src/lib.rs:240-265 | every stored total difficulty is the sum along the path from the first header |
| EthClientTheorems.BestIsHeaviest | contracts/near/eth-client/src/lib.rs:267-281 | the best header outweighs every header ever recorded, collected ones included |
| EthClientTheorems.StepOutweighs | contracts/near/eth-client/src/lib.rs:267-281 | one submission never lowers the best total |
| EthClientAcceptance.AcceptedExactly | contracts/near/eth-client/src/lib.rs:202-265 | in every reachable state a header is accepted exactly when its parent is retained, it is legal on it (proof of work, timestamp, gas, extra data, number, parent hash), it is not retained itself, it is not too old and nothing overflows |
| EthClientAcceptance.NeverTooOld | contracts/near/eth-client/src/lib.rs:236-238 | the age test never fires for a header on a retained parent |
| EthClientAcceptance.RecordedIsLegal | contracts/near/eth-client/src/lib.rs:349-380 | every header ever recorded but the first is legal on its parent, which was recorded too |
| EthClientAcceptance.VerifiedIsLegal | contracts/near/eth-client/src/lib.rs:364-380 | the checks with their rounding are strict inequalities between whole numbers; the self-comparison of the difficulty asks for at least one hundred |
| EthClientAcceptance.BestExactly | contracts/near/eth-client/src/lib.rs:267-281 | an accepted header becomes the best one exactly when its total is larger, or as large and its difficulty even |
| EthClientAcceptance.SafeHashExactly | contracts/near/eth-client/src/lib.rs:188-196 | for a retained number the safe hash is the ancestor of the best header exactly when enough blocks lie on top |
| EthClientTheorems.StaleExactly | contracts/near/eth-client/src/lib.rs:284-302 | after any switch the whole index is linked by parents exactly when the old links that stay are right and the new head's ancestor two below the lowest retained number is the entry already there, or that entry is gone or about to go |
| EthClientTheorems.SmoothExactly | contracts/near/eth-client/src/lib.rs:202-310 | a run keeps the whole index linked throughout exactly when each of its switches meets the entries it leaves |
| EthClientStale.StaleAfterRun | contracts/near/eth-client/src/lib.rs:284-302 | a run of eight headers after which the safe hash of a number belongs to the abandoned branch |
| NearBridge.NearBridge.Deposit | contracts/eth/nearbridge/contracts/NearBridge.sol:93-96 | a deposit of exactly one bond by an account without one, and nothing else, is accepted |
| NearBridge.NearBridge.Withdraw | contracts/eth/nearbridge/contracts/NearBridge.sol:98-102 | the submitter of a block inside its window cannot withdraw; anyone else gets the bond back unless the transfer is refused |
| NearBridge.NearBridge.Challenge | contracts/eth/nearbridge/contracts/NearBridge.sol:104-141 | a challenge inside the window of a signature that is present and invalid takes the bond, pays half, burns the rest, which is as much or one unit more, and drops the block; a receiver that refuses its half reverts it |
| NearBridge.NearBridge.CheckBlockProducerSignatureInHead | contracts/eth/nearbridge/contracts/NearBridge.sol:115-127 | the signature is checked against the producer set that the epoch of the untrusted block selects |
| NearBridge.NearBridge.SetBlockProducers | contracts/eth/nearbridge/contracts/NearBridge.sol:283-295 | the copying and summing loop stores the list over old slots and its total, or reverts on overflow |
| NearBridge.NearBridge.CopyBlockProducers | contracts/eth/nearbridge/contracts/NearBridge.sol:312-318 | the copying loop copies length, total and slots and leaves longer leftovers |
| NearBridge.NearBridge.CheckBp | contracts/eth/nearbridge/contracts/NearBridge.sol:171-184 | accepts exactly when enough approvals are given and the approving stake exceeds two thirds of the total |
| NearBridge.NearBridge.InitWithValidators | contracts/eth/nearbridge/contracts/NearBridge.sol:144-153 | only before initialisation, stores the given producers as current |
| NearBridge.NearBridge.InitWithBlock | contracts/eth/nearbridge/contracts/NearBridge.sol:155-169 | only once, after validators, stores the block as head with its hash, root and next producers |
| NearBridge.NearBridge.CommitBlock | contracts/eth/nearbridge/contracts/NearBridge.sol:297-310 | promotes the untrusted block, rotates the producer sets when its epoch is new, and writes its hash and root |
| NearBridge.NearBridge.AddLightClientBlock | contracts/eth/nearbridge/contracts/NearBridge.sol:207-265 | commits what is due, vets the block and installs it, or reverts with nothing changed |
| NearBridge.NearBridge.Vet | contracts/eth/nearbridge/contracts/NearBridge.sol:224-253 | the checks after the commit: a greater height, this epoch or the next, a quorum of the set that goes with it and, for a new epoch, next producers with the announced hash |
| NearBridge.NearBridge.Install | contracts/eth/nearbridge/contracts/NearBridge.sol:255-265 | the new untrusted block, its approvals and next producers, the submitter and the end of the window |
| NearBridge.NearBridge.BlockHashes | contracts/eth/nearbridge/contracts/NearBridge.sol:361-366 | the stored hash, or that of the untrusted block once its window is over |
| NearBridge.NearBridge.BlockMerkleRoots | contracts/eth/nearbridge/contracts/NearBridge.sol:368-373 | the stored root, or that of the untrusted block once its window is over |
| NearBridge.NearBridge.Scan | near2eth/watchdog/index.js:53-123 | one pass of the watchdog either challenges the first invalid signature and takes the bond, or finds none invalid and changes nothing |
| NearBridgeProofs.SetProducersOk | contracts/eth/nearbridge/contracts/NearBridge.sol:283-295 | a stored set's total is the sum of its first stakes, whatever slots are left over |
| NearBridgeProofs.CopyProducersOk | contracts/eth/nearbridge/contracts/NearBridge.sol:312-318 | copying keeps the total right and copies the same producers |
| NearBridgeProofs.StakeSumFits | contracts/eth/nearbridge/contracts/NearBridge.sol:283-295 | for lists as long as a decoded count can say, twice the sum of the stakes fits a word |
| NearBridgeProofs.StepFits | contracts/eth/nearbridge/contracts/NearBridge.sol:283-319 | setting, copying and rotating producer sets keeps twice the total of all three within a word |
| NearBridgeProofs.QuorumExactly | contracts/eth/nearbridge/contracts/NearBridge.sol:171-184 | on a set with the right total the quorum test, overflow checks included, is strictly more than two thirds of the stake |
| NearBridgeTheorems.QuorumNeverOverflows | contracts/eth/nearbridge/contracts/NearBridge.sol:144-319 | across every run of calls with decoded lists no overflow check of the quorum test fires in any of the three sets |
| BridgeCalls.InitWithValidators | contracts/eth/nearbridge/contracts/NearBridge.sol:144-153 | the call on raw data: it reverts unless the whole buffer is a validator list, and then does what the call on the list does |
| BridgeCalls.InitWithBlock | contracts/eth/nearbridge/contracts/NearBridge.sol:155-169 | the same for the first block |
| BridgeCalls.AddLightClientBlock | contracts/eth/nearbridge/contracts/NearBridge.sol:207-265 | the same for every later block |
| BridgeCalls.DecodedCountable | contracts/eth/nearbridge/contracts/NearDecoder.sol:52-70 | a list in call data is as short as its four-byte count says |
| BridgeCalls.WholeStakesExactly | contracts/eth/nearbridge/contracts/NearBridge.sol:147-149 | call data are a validator list exactly when they are its encoding, with nothing after it |
| BridgeCalls.WholeBlockExactly | contracts/eth/nearbridge/contracts/NearBridge.sol:212-214 | a block in call data leaves nothing over |
| BridgeCalls.DataRunIs | contracts/eth/nearbridge/contracts/NearBridge.sol:144-265 | a run of calls on data is the run of those calls whose data decode, so every result about runs holds of it |
| BridgeCalls.DataQuorum | contracts/eth/nearbridge/contracts/NearBridge.sol:171-184 | in every state that calls on data can reach, the quorum test never overflows and is strictly more than two thirds of the stake |
| NearBridgeProofs.WeightOverlap | contracts/eth/nearbridge/contracts/NearBridge.sol:171-184 | two sets of signers weigh together at most all stakes and what they share |
| NearBridgeProofs.StepSolvent | contracts/eth/nearbridge/contracts/NearBridge.sol:93-141 | every call keeps every balance at nothing or one bond and the ether equal to their sum |
| NearBridgeProofs.StepBonded | contracts/eth/nearbridge/contracts/NearBridge.sol:98-102 | while a block is in its window its submitter's bond is there |
| NearBridgeProofs.ChallengeIsPaid | contracts/eth/nearbridge/contracts/NearBridge.sol:104-141 | inside the window a challenge succeeds exactly when the signature is present and invalid and the receiver takes its reward; reward and burnt part are together the whole bond, for odd amounts too |
| NearBridgeProofs.StepSets | contracts/eth/nearbridge/contracts/NearBridge.sol:240-318 | every call keeps all three producer sets' totals right |
| NearBridgeProofs.StepOrdered | contracts/eth/nearbridge/contracts/NearBridge.sol:207-310 | head heights strictly increase and no entry is stored above the head, so entries are written once |
| NearBridgeProofs.StepApproved | contracts/eth/nearbridge/contracts/NearBridge.sol:115-127 | the approvals stored with an untrusted block carry a quorum of the very set that signature checks read |
| NearBridgeTheorems.RunInv | contracts/eth/nearbridge/contracts/NearBridge.sol:93-310 | all invariants hold over every run with a clock that does not go back |
| NearBridgeTheorems.ReachableInv | contracts/eth/nearbridge/contracts/NearBridge.sol:85-310 | and so in every state reachable from deployment |
| NearBridgeTheorems.Finality | contracts/eth/nearbridge/contracts/NearBridge.sol:361-373 | once a view returns a nonzero hash or root it returns it forever, through any later calls |
| NearBridgeTheorems.LazyRefinesEager | contracts/eth/nearbridge/contracts/NearBridge.sol:194-310 | a contract that commits only on the next submission and one that commits the moment a window ends settle to the same storage |
| NearBridgeTheorems.ViewsAgree | contracts/eth/nearbridge/contracts/NearBridge.sol:194-205 | in every reachable state and at every time the three views return what eager commit would have made them return |
| NearBridgeExact.DepositExactly | contracts/eth/nearbridge/contracts/NearBridge.sol:93-96 | a deposit goes through exactly for one bond from an account without one, and changes nothing else |
| NearBridgeExact.WithdrawExactly | contracts/eth/nearbridge/contracts/NearBridge.sol:98-102 | a withdrawal goes through exactly for an account with a bond that does not stand behind a block in its window and takes the transfer, and changes nothing else |
| NearBridgeExact.InitValidatorsExactly | contracts/eth/nearbridge/contracts/NearBridge.sol:144-153 | the first producers can be set exactly before initialisation, and are then held as given |
| NearBridgeExact.InitBlockExactly | contracts/eth/nearbridge/contracts/NearBridge.sol:155-169 | the first block is taken exactly once, after validators with stake and with the next producers; head, hash, root and set are those of the block |
| NearBridgeExact.AddExactly | contracts/eth/nearbridge/contracts/NearBridge.sol:207-265 | a submission is accepted exactly from a bonded sender, for a block of greater height, of this epoch or the next, with more than two thirds of the stake, with the announced next producers if it starts an epoch, and newer by the replace duration than a block in its window |
| NearBridgeExact.AddLeaves | contracts/eth/nearbridge/contracts/NearBridge.sol:249-265 | field by field what an accepted submission leaves, and the end of its window |
| NearBridgeExact.CommitRotates | contracts/eth/nearbridge/contracts/NearBridge.sol:297-310 | a commit from the next epoch moves both producer sets up by one epoch; any other leaves them |
| NearBridgeHistory.EpochsInOrder | contracts/eth/nearbridge/contracts/NearBridge.sol:144-319 | in every reachable state the current and next sets hold the lists of the initialisation or those that committed blocks brought, in epoch order, each under the hash its block announced |
| NearBridgeHistory.ViewsOfBlocks | contracts/eth/nearbridge/contracts/NearBridge.sol:361-373 | the views report the hash and the root of one submitted block of that height, or zero |
| NearBridgeHistory.StateOfBlocks | contracts/eth/nearbridge/contracts/NearBridge.sol:194-205 | what the state view tells is the height, the timestamp, the end of the window and the number of producers of the blocks concerned |
| Watchdog.SharedSigners | contracts/eth/nearbridge/contracts/NearBridge.sol:171-184 | two certified blocks checked against the same producers share valid signers with more than a third of the stake |
| Watchdog.CleanIsCertified | near2eth/watchdog/index.js:60-75 | a block in which a full scan found nothing invalid carries valid signatures from more than two thirds of the stake |
| Watchdog.TraceWorld | near2eth/watchdog/index.js:51-123 | the invariants of bridge, scan and evidence hold over every interleaving of calls and scan steps |
| Watchdog.ReportedIsCertified | near2eth/watchdog/index.js:51-123 | if a full scan completes inside every window, every block reported beyond the initial one is certified, with the hash and root reported |
| Watchdog.QuietTrace | near2eth/watchdog/index.js:61-123 | through every interleaving of checks, challenges and calls by anyone inside the window, short of an accepted submission, a scan makes its checks in turn and ends clean, about to challenge, or with the block gone |
| Watchdog.FullScan | near2eth/watchdog/index.js:51-123 | a scan that begins inside the window and makes its checks and its challenge at any later times inside it, with any calls in between, leaves the block covered or gone |
| Watchdog.ScanIsDiligent | near2eth/watchdog/index.js:51-123 | such a scan, followed by anything but an accepted submission, meets the assumption under which every reported block is certified |
| Sha512.RoundCarries | contracts/eth/nearbridge/contracts/Ed25519.sol:287-315 | one packed round, which masks only a and e, carries the 64-bit state of the reference round |
| Sha512.ExpandWords | contracts/eth/nearbridge/contracts/Ed25519.sol:754-877 | one packed expansion computes four schedule words from sixteen with no carry between lanes |
| Sha512.ExpandIsSchedule | contracts/eth/nearbridge/contracts/Ed25519.sol:754-877 | so it takes sixteen consecutive packed schedule words to the next four |
| Sha512.FourRounds | contracts/eth/nearbridge/contracts/Ed25519.sol:287-402 | four unrolled rounds on one packed word are four reference rounds |
| Sha512.SixteenRounds | contracts/eth/nearbridge/contracts/Ed25519.sol:287-750 | sixteen rounds per pass |
| Sha512.ExpandAll | contracts/eth/nearbridge/contracts/Ed25519.sol:754-877 | one pass of expansion replaces the four packed words by the next sixteen schedule words |
| Sha512.Compress | contracts/eth/nearbridge/contracts/Ed25519.sol:272-877 | the five passes carry the state of the eighty reference rounds |
| Sha512.Digest | contracts/eth/nearbridge/contracts/Ed25519.sol:271-885 | the two result words hold the bytes of the reference hash value of the padded message in little-endian order |
| Sha512Constants.TableIsStandard | contracts/eth/nearbridge/contracts/Ed25519.sol:273 | the eighty round constants are the first 64 bits of the fractional parts of the cube roots of the first eighty primes |
| Sha512Constants.InitialIsStandard | contracts/eth/nearbridge/contracts/Ed25519.sol:278-285 | the initial value comes from the square roots of the first eight |
| Sha512Constants.PrimesListed | contracts/eth/nearbridge/contracts/Ed25519.sol:273 | the primes used are all those below 410 |
| Sha512Example.Abc | contracts/eth/nearbridge/contracts/Ed25519.sol:271-887 | the reference hash of the padded message abc is the digest that FIPS 180-4 gives for it |
| Sha512Message.PaddedIs | contracts/eth/nearbridge/contracts/Ed25519.sol:274-277 | the four words are the message R, A, M of 105 bytes, padded as FIPS 180-4 says |
| Sha512Message.DigestIs | contracts/eth/nearbridge/contracts/Ed25519.sol:271-887 | the number that is reduced is the little-endian number of the 64 bytes of SHA-512(R, A, M) |
| Sha512Message.ReversedValue | contracts/eth/nearbridge/contracts/Ed25519.sol:889-893 | a bytes32 reversed is the little-endian number of its bytes |
| Lanes.SwapsReverse | contracts/eth/nearbridge/contracts/Ed25519.sol:878-885 | the three masked swaps reverse the bytes of all four 64-bit lanes at once |
| Lanes.SwapsReverseAll | contracts/eth/nearbridge/contracts/Ed25519.sol:889-893 | the five swaps reverse all 32 bytes of a word |
| Words.SameReversed | contracts/eth/nearbridge/contracts/Ed25519.sol:1142-1147 | a word reversed is r exactly when its number is that of r reversed |
| Words.UnderSignNumber | contracts/eth/nearbridge/contracts/Ed25519.sol:1141 | the word built by a shift and an or is the number of the encoding |
| Words.NumberInjective | contracts/eth/nearbridge/contracts/Ed25519.sol:1147 | words are equal exactly when the little-endian numbers of their bytes are |
| Lanes.InterleavePacks | contracts/eth/nearbridge/contracts/Ed25519.sol:274-276 | unpacking puts the four words of a 256-bit word into separate lanes |
| Field25519.Pow22501 | contracts/eth/nearbridge/contracts/Ed25519.sol:9-267 | the addition chain returns v to the power 2^250 - 1 and v to the 11th |
| Field25519.Chain | contracts/eth/nearbridge/contracts/Ed25519.sol:15-266 | squarings and a product join two runs of ones in the exponent |
| Field25519.Invert | contracts/eth/nearbridge/contracts/Ed25519.sol:1011-1017 | five more squarings and a product give x to the power p - 2 |
| Field25519.InvertIsInverse | contracts/eth/nearbridge/contracts/Ed25519.sol:1132-1138 | which is the inverse of every x that Fermat's little theorem speaks of |
| PointDecoding.RootCandidate | contracts/eth/nearbridge/contracts/Ed25519.sol:900-903 | the candidate root is u (u v)^((p - 5) / 8) |
| PointDecoding.DecodeX | contracts/eth/nearbridge/contracts/Ed25519.sol:895-914 | a decoded key satisfies the curve equation and has the parity of its sign bit; it is refused exactly when the candidate fails; the abscissa is the unreduced p exactly for an ordinate of square one with the sign bit set; and it is the key of section 5.1.3 of RFC 8032 exactly when the ordinate is reduced and that case is excluded |
| PointDecoding.DecodesExactlyPoints | contracts/eth/nearbridge/contracts/Ed25519.sol:895-914 | a key is refused exactly when no point of the curve has its ordinate |
| Edwards.Minus | contracts/eth/nearbridge/contracts/Ed25519.sol:990 | a difference that may wrap, with the modulus added, does not come out wrapped |
| Edwards.AddEntryIs | contracts/eth/nearbridge/contracts/Ed25519.sol:1045-1062 | adding a table entry is the addition law of the curve |
| Edwards.SubEntryIs | contracts/eth/nearbridge/contracts/Ed25519.sol:1069-1086 | subtracting a table entry is adding the opposite point |
| Edwards.DoubleIs | contracts/eth/nearbridge/contracts/Ed25519.sol:1112-1124 | doubling is adding a point of the curve to itself |
| Completeness.Complete | contracts/eth/nearbridge/contracts/Ed25519.sol:1045-1086 | no two points of the curve meet a zero denominator of the addition law, because -1 is a square and -1/d is not |
| KeyTable.ThreeDoublings | contracts/eth/nearbridge/contracts/Ed25519.sol:938-976 | three doublings of the key give its eighth multiple |
| KeyTable.AddKeyIs | contracts/eth/nearbridge/contracts/Ed25519.sol:1002-1008 | adding the key in the forward loop is the addition law |
| KeyTable.StoreAt | contracts/eth/nearbridge/contracts/Ed25519.sol:993-998 | an entry is stored with its denominator and the product of the denominators before it |
| KeyTable.Multiples | contracts/eth/nearbridge/contracts/Ed25519.sol:977-1009 | the forward loop leaves (8 + j) times the key over its own nonzero denominator in entry j, and the product of all denominators |
| KeyTable.DivideAll | contracts/eth/nearbridge/contracts/Ed25519.sol:1018-1027 | the backward loop divides each entry by its own denominator, from one inverse of the product |
| KeyTable.BuildTable | contracts/eth/nearbridge/contracts/Ed25519.sol:929-1027 | the finished table lists the multiples 8 to 15 of the key |
| Ed25519.Consume | contracts/eth/nearbridge/contracts/Ed25519.sol:1039-1054 | taking a window accounts for exactly its bits |
| Ed25519.JointMultiply | contracts/eth/nearbridge/contracts/Ed25519.sol:1034-1125 | the sliding-window loop computes s b - (t + 8) a from tables of the multiples 8 to 15 of b and a |
| Ed25519.OffsetVanishes | contracts/eth/nearbridge/contracts/Ed25519.sol:1032-1033 | the start offset 8 l - 8 and the eight of the closing block are a multiple of the group order |
| Ed25519.Affine | contracts/eth/nearbridge/contracts/Ed25519.sol:1132-1140 | one inversion brings the two fractions to reduced coordinates |
| Ed25519.Recompute | contracts/eth/nearbridge/contracts/Ed25519.sol:895-1140 | the affine coordinates of s g - k a for the one point a of the key; refused exactly when s is not reduced or the key is no point |
| Ed25519.KeyUnique | contracts/eth/nearbridge/contracts/Ed25519.sol:912-914 | ordinate and sign determine the abscissa of a key |
| Ed25519.RfcKeyExactly | contracts/eth/nearbridge/contracts/Ed25519.sol:894-914 | an abscissa is the RFC's exactly when it is the contract's and the key is canonical: ordinate below p, and not a zero abscissa with the sign bit set |
| Ed25519.RfcDecodesExactly | contracts/eth/nearbridge/contracts/Ed25519.sol:894-914 | the RFC decodes a key exactly when the contract does and the key is canonical |
| Ed25519.SignedNeutral | contracts/eth/nearbridge/contracts/Ed25519.sol:912-914 | ordinate 1 with the sign bit set is decoded, to the abscissa p, and refused by the RFC |
| Ed25519.UnreducedNeutral | contracts/eth/nearbridge/contracts/Ed25519.sol:894-911 | ordinate p + 1 is decoded and refused by the RFC |
| SignatureCheck.Unpack | contracts/eth/nearbridge/contracts/Ed25519.sol:889-894 | the five swaps and the masks yield the number a word encodes low byte first, its low 255 bits and its top bit |
| SignatureCheck.ReducedDigest | contracts/eth/nearbridge/contracts/Ed25519.sol:271-887 | the digest is SHA-512 of R, A and M as a little-endian number modulo the group order |
| SignatureCheck.Compare | contracts/eth/nearbridge/contracts/Ed25519.sol:1141-1147 | the word of ordinate and sign, swapped, is r exactly when r read low byte first is the encoding of the point |
| SignatureCheck.CheckNumbers | contracts/eth/nearbridge/contracts/Ed25519.sol:895-1147 | given the numbers of key, s and digest, the check accepts exactly when the word r encodes s g - k a |
| SignatureCheck.NeutralSignature | contracts/eth/nearbridge/contracts/Ed25519.sol:895-1147 | with the neutral element as a key whose sign bit is set, s = 0 and R the neutral element, the call accepts whatever the digest and the RFC never |
| SignatureCheck.CheckWords | contracts/eth/nearbridge/contracts/Ed25519.sol:269-1148 | from raw words to the group equation: the call accepts exactly when s is reduced, the key word is a point a, and the word r encodes s g - k a with k = SHA-512(R, A, M) mod l |
| SignatureCheck.CheckSignature | contracts/eth/nearbridge/contracts/Ed25519.sol:269-1148 | the same with the literals of the contract; section 5.1.7 of RFC 8032 accepts exactly what the call accepts with a canonical key |
| SignatureCheck.AcceptsRfc | contracts/eth/nearbridge/contracts/Ed25519.sol:895-914 | acceptance by the RFC is acceptance by the contract of a canonical key |
| Ed25519.DigestReduced | contracts/eth/nearbridge/contracts/Ed25519.sol:886 | the digest is reduced modulo the group order from its two halves |
| Ed25519.SourceConstants | contracts/eth/nearbridge/contracts/Ed25519.sol:886-1033 | the literals are p = 2^255 - 19, the curve constant -121665/121666 and its double, a square root of -1, 2^256 mod l and 8 l - 8 |
| BorshData.Data.constructor | contracts/eth/nearbridge/contracts/Borsh.sol:15-20 | a cursor starts at offset zero |
| BorshData.Data.PeekSha256 | contracts/eth/nearbridge/contracts/Borsh.sol:43-54 | hashes exactly the bytes from the offset on |
| BorshData.Data.DecodeU8 | contracts/eth/nearbridge/contracts/Borsh.sol:56-58 | one byte, or a revert past the end |
| BorshData.Data.DecodeU16 | contracts/eth/nearbridge/contracts/Borsh.sol:64-67 | two bytes in little-endian order |
| BorshData.Data.DecodeU32 | contracts/eth/nearbridge/contracts/Borsh.sol:74-77 | four bytes, from two halves |
| BorshData.Data.DecodeU64 | contracts/eth/nearbridge/contracts/Borsh.sol:84-87 | eight bytes, from two halves |
| BorshData.Data.DecodeU128 | contracts/eth/nearbridge/contracts/Borsh.sol:94-97 | sixteen bytes, from two halves |
| BorshData.Data.DecodeU256 | contracts/eth/nearbridge/contracts/Borsh.sol:104-107 | thirty-two bytes, from two halves |
| BorshData.Data.DecodeBytes | contracts/eth/nearbridge/contracts/Borsh.sol:118-123 | the loop reads the counted slice of the buffer |
| BorshData.Data.DecodeBytes32 | contracts/eth/nearbridge/contracts/Borsh.sol:125-132 | the next 32 bytes, or a revert past the end |
| Borsh.LeReads | contracts/eth/nearbridge/contracts/Borsh.sol:64-107 | little-endian value and little-endian bytes determine each other |
| Borsh.VecReads | contracts/eth/nearbridge/contracts/Borsh.sol:118-123 | a counted list is read exactly where its encoding lies |
| Borsh.WholeBuffer | contracts/eth/nearbridge/contracts/Borsh.sol:28-30 | a whole buffer is accepted exactly when it is an encoding |
| NearDecoder.DecodePublicKey | contracts/eth/nearbridge/contracts/NearDecoder.sol:19-31 | both kinds of key; any other tag reverts |
| NearDecoder.DecodeValidatorStake | contracts/eth/nearbridge/contracts/NearDecoder.sol:39-43 | id, key and stake in this order |
| NearDecoder.DecodeStakes | contracts/eth/nearbridge/contracts/NearDecoder.sol:118-123 | the loop over a counted list of validators |
| NearDecoder.DecodeHashedStakes | contracts/eth/nearbridge/contracts/NearDecoder.sol:55-65 | the hash covers exactly the counted list, and the cursor ends after it |
| NearDecoder.DecodeOptionalStakes | contracts/eth/nearbridge/contracts/NearDecoder.sol:52-67 | a zero flag is no list, any other flag is a list with its hash |
| NearDecoder.DecodeSignature | contracts/eth/nearbridge/contracts/NearDecoder.sol:76-88 | both kinds of signature; any other tag reverts |
| NearDecoder.DecodeOptionalSignature | contracts/eth/nearbridge/contracts/NearDecoder.sol:95-100 | a zero flag is no signature, any other flag is one |
| NearDecoder.DecodeApprovals | contracts/eth/nearbridge/contracts/NearDecoder.sol:132-135 | the loop over a counted list of optional signatures |
| NearDecoder.DecodeInnerLite | contracts/eth/nearbridge/contracts/NearDecoder.sol:164-174 | the eight fields of 208 bytes and their hash |
| NearDecoder.DecodeLightClientBlock | contracts/eth/nearbridge/contracts/NearDecoder.sol:125-149 | all parts in order, the block hash and the next hash |
| NearFormat.StakesExact | contracts/eth/nearbridge/contracts/NearDecoder.sol:39-43 | decoding a validator list and its encoding undo each other |
| NearFormat.SignatureReads | contracts/eth/nearbridge/contracts/NearDecoder.sol:76-88 | both kinds of signature are read exactly where their bytes lie |
| NearFormat.DecodedHashes | contracts/eth/nearbridge/contracts/NearDecoder.sol:125-168 | which bytes of the buffer the inner hash, the block hash and the next hash cover |
| NearWriter.InitialValidatorsRoundTrip | utils/borsh.js:443-460 | decoding undoes the writer and ends at the end of the buffer exactly when every account id has as many UTF-16 units as bytes |
| NearWriter.LightClientBlockRoundTrip | utils/borsh.js:386-441 | decoding recovers every field of a written block, with hashes over the 208 inner bytes and the validator list, and ends at the end of the buffer, exactly under the same condition |
| NearWriter.PlainIsAscii | utils/borsh.js:449-450 | a string has as many UTF-16 units as UTF-8 bytes exactly when it is ASCII, and never more |
| NearWriter.WideIdIsLost | utils/borsh.js:443-460 | a list with an account id that is not ASCII is not recovered |
| NearWriter.AccentIsLost | utils/borsh.js:443-460 | a validator named by one character of two bytes is written and not recovered |
| ProofDecoder.DecodePathItem | contracts/eth/nearprover/contracts/ProofDecoder.sol:143-147 | a hash and a direction; a direction above one reverts |
| ProofDecoder.DecodePath | contracts/eth/nearprover/contracts/ProofDecoder.sol:153-158 | the loop over a counted path |
| ProofDecoder.DecodeStatus | contracts/eth/nearprover/contracts/ProofDecoder.sol:57-75 | the four kinds of status; any other tag reverts |
| ProofDecoder.DecodeLogs | contracts/eth/nearprover/contracts/ProofDecoder.sol:89-92 | the loop over counted logs |
| ProofDecoder.DecodeIds | contracts/eth/nearprover/contracts/ProofDecoder.sol:95-98 | the loop over counted receipt ids |
| ProofDecoder.DecodeBody | contracts/eth/nearprover/contracts/ProofDecoder.sol:94-103 | receipt ids, charges, executor and status in this order |
| ProofDecoder.DecodeHashedBody | contracts/eth/nearprover/contracts/ProofDecoder.sol:94-108 | the first hash covers exactly the body, and the cursor ends after it |
| ProofDecoder.HashLogs | contracts/eth/nearprover/contracts/ProofDecoder.sol:109-111 | one hash for every log |
| ProofDecoder.DecodeIdentified | contracts/eth/nearprover/contracts/ProofDecoder.sol:121-136 | the outcome hash over the count, the id and all hashes |
| ProofDecoder.DecodeOutcomeProof | contracts/eth/nearprover/contracts/ProofDecoder.sol:166-174 | path, block hash and outcome in this order |
| ProofDecoder.DecodeHeaderLight | contracts/eth/nearprover/contracts/ProofDecoder.sol:34-46 | the header with its block hash |
| ProofDecoder.DecodeFullOutcomeProof | contracts/eth/nearprover/contracts/ProofDecoder.sol:19-24 | the four parts of a proof in this order |
| ProofFormat.FullProofExact | contracts/eth/nearprover/contracts/ProofDecoder.sol:19-175 | decoding an outcome proof and its encoding undo each other |
| ProofFormat.DirectionByte | contracts/eth/nearprover/contracts/ProofDecoder.sol:143-147 | a sibling is on the left for the byte 0 and on the right for 1, and any other byte reverts |
| ProofFormat.AcceptedIsEncoding | contracts/eth/nearprover/contracts/ProofDecoder.sol:19-175 | a buffer is an acceptable proof exactly when it is the encoding of one whose computed hashes are right |
| ProofWriter.OutcomeProofRoundTrip | utils/borshify-proof.js:4-92 | decoding recovers a written proof and ends at the end of the buffer exactly when it has no logs, no outcome-root proof and a plain executor id |
| ProofWriter.SampleRecovered | utils/borshify-proof.js:4-92 | a family of proofs that are all written, and recovered exactly when they have neither logs nor an outcome-root proof |
| ProofWriter.LogIsLost | utils/borshify-proof.js:4-92 | a proof with one log is accepted by the format, written and not recovered |
| ProofWriter.RootItemIsLost | utils/borshify-proof.js:4-92 | so is one with one item in its outcome-root proof |
| SchemaCodec.Writer.SerializeField | utils/borsh.js:22-70 | appends the serialization of every kind of type, or throws |
| SchemaCodec.Writer.WriteStruct | utils/borsh.js:58-61 | the fields of a struct in schema order |
| SchemaCodec.Writer.WriteArray | utils/borsh.js:42-44 | a counted list of items |
| SchemaCodec.DeserializeField | utils/borsh.js:72-119 | reads every kind of type and moves the offset, or throws |
| SchemaCodec.ReadArray | utils/borsh.js:186-193 | the loop over a counted list |
| SchemaCodec.ReadStruct | utils/borsh.js:105-110 | the loop that fills the result object |
| SchemaCodec.ReadBuffer | utils/borsh.js:160-167 | a slice inside the buffer, or an exception |
| SchemaCodec.Serialize | utils/borsh.js:123-130 | the bytes of a new writer |
| SchemaCodec.Deserialize | utils/borsh.js:196-210 | the value, unless bytes are left over |
| SchemaCodec.Serializes | utils/borsh.js:22-70 | a value that has what its type asks for is serialized |
| SchemaCodec.RoundTrip | utils/borsh.js:22-119 | for every well-formed type and value, reading the serialization followed by anything returns the value and stops at its end |
| SchemaCodec.DeserializeUndoes | utils/borsh.js:196-210 | deserialize undoes serialize and rejects every nonempty suffix |
| SchemaCodec.Layout | utils/borsh.js:22-70 | what the bytes of each kind of type are |
| Merkle.ComputeRoot | contracts/eth/nearprover/contracts/NearProver.sol:53-64 | the loop folds the path from the leaf up |
| Merkle.Binding | contracts/eth/nearprover/contracts/NearProver.sol:53-64 | equal directions and equal roots force equal leaves and siblings, unless the pairs combined on the way collide |
| Merkle.PassesThrough | contracts/eth/nearprover/contracts/NearProver.sol:53-64 | the longer of two paths to one root that turn alike passes through the leaf of the shorter |
| Merkle.Completeness | contracts/eth/nearprover/contracts/NearProver.sol:53-64 | a path read off any tree recomputes its root |
| NearProver.ProveOutcome | contracts/eth/nearprover/contracts/NearProver.sol:22-51 | returns exactly when the whole buffer is a proof whose two roots match |
| NearProver.AcceptedExactly | contracts/eth/nearprover/contracts/NearProver.sol:22-51 | a call is accepted exactly for the encoding of a proof that leads from its outcome to the named root and from its block to the stored one, with nothing after it |
| NearProver.ProofBinds | contracts/eth/nearprover/contracts/NearProver.sol:22-51 | two accepted proofs against one root that turn alike as far as both go are the same proof of the same outcome and block, lengths included, except for the unchecked block hash, unless what was hashed collides |
| NearProver.SameHeight | contracts/eth/nearprover/contracts/NearProver.sol:27-42 | what is hashed for an outcome or a shard is never as long as a pair of hashes, so no such path is the upper part of another |
| NearProver.BlockHashIsFree | contracts/eth/nearprover/contracts/NearProver.sol:22-51 | with any other block hash beside the outcome a proof is accepted just the same |
| NearProver.StaysAccepted | contracts/eth/nearprover/contracts/NearProver.sol:43-49 | a proof accepted against a root that the bridge reports stays accepted over every later run of the bridge |
| NearProver.ProofCompletes | contracts/eth/nearprover/contracts/NearProver.sol:22-64 | paths read off trees of outcomes, shards and blocks are accepted against the root of the last |
| DagMerkle.ApplyMerkleProof | contracts/near/eth-client/src/lib.rs:28-50 | the loop folds the path whose directions are the bits of the index; a missing node or more than 64 siblings panic |
| DagMerkle.IndexBinding | contracts/near/eth-client/src/lib.rs:42-49 | for one index, one root and one length there is one leaf and one proof, unless hashes collide |
| DagMerkle.NodesBinding | contracts/near/eth-client/src/lib.rs:35-50 | for one index, one root and one length there are one pair of nodes and one proof, unless inputs of the truncated hash collide |
| DagMerkle.IndexCompleteness | contracts/near/eth-client/src/lib.rs:35-50 | the siblings on the way of an index recompute the root |
| DagMerkle.LeafCompleteness | contracts/near/eth-client/src/lib.rs:35-50 | the siblings of leaf number i of a perfect tree, counted from the left, recompute its root with the index i |
| DagMerkle.HashPairLayout | contracts/near/eth-client/src/lib.rs:22-33 | two nodes are hashed as the low halves of two 32-byte numbers and the low half of the hash is kept |
| TrieProof.NibblesUndo | contracts/near/eth-prover/src/lib.rs:61-72 | splitting into nibbles and joining undo each other |
| TrieProof.VerifyTrieProof | contracts/near/eth-prover/src/lib.rs:177-193 | the call on the raw key accepts a nonempty value exactly when the proof holds a keccak chain of nodes that the nibbles of the key select, down to one that stores it |
| TrieProof.StopsAtStored | contracts/near/eth-prover/src/lib.rs:195-314 | a node ends verification with success exactly when it stores the value: a branch at the end of the key, or a leaf whose path bytes are the rest of the key |
| TrieProof.FollowsChild | contracts/near/eth-prover/src/lib.rs:195-306 | verification goes on from a node exactly to the child it refers to: at the next nibble of a branch, or below an extension by nothing or one nibble |
| TrieProof.TrueIffChain | contracts/near/eth-prover/src/lib.rs:195-314 | a nonempty value is accepted exactly when the proof holds a keccak chain of nodes from the root, each next one hashed by the padded child of the one before, to a node that stores the value |
| TrieProof.ExpandsTo | contracts/near/eth-prover/src/lib.rs:183-191 | the expanded key is the nibbles of the key, high before low, except that for a proof of odd length the byte at half that length is kept whole |
| TrieProof.SelectorAt | contracts/near/eth-prover/src/lib.rs:183-191 | nibble by nibble, where no byte is kept whole |
| TrieProof.ToHashIs | contracts/near/eth-prover/src/lib.rs:230-238 | a reference of up to 32 bytes stands for the hash with zeros before it |
| TrieProof.ShortNodePanics | contracts/near/eth-prover/src/lib.rs:207-212 | a node below the root that is shorter than a hash never passes |
| TrieProof.EmptyIsNeverFalse | contracts/near/eth-prover/src/lib.rs:313 | for the empty value nothing but a panic is refused |
| TrieProof.EmptyPasses | contracts/near/eth-prover/src/lib.rs:313 | any branch without a child for the key passes for the empty value, which it does not store |
| TrieProof.ExtensionIsShort | contracts/near/eth-prover/src/lib.rs:270-306 | an extension is followed only when its path is a single byte, so by at most one nibble |
| TrieProof.ValueBinding | contracts/near/eth-prover/src/lib.rs:195-314 | one root and one expanded key admit one nonempty value, unless nodes collide |
| Token.MintableFungibleToken.constructor | contracts/near/mintable-fungible-token/src/lib.rs:244-250 | a new token has no accounts, no supply and no used events |
| Token.MintableFungibleToken.Deploy | contracts/near/mintable-fungible-token/src/lib.rs:237-251 | a token is created once and only for a locker of twenty bytes in hex, and is then empty and bound to it |
| Token.MintableFungibleToken.Write | contracts/near/mintable-fungible-token/src/lib.rs:534-541 | an account is stored exactly when it has a balance or allowances |
| Token.MintableFungibleToken.IncAllowance | contracts/near/mintable-fungible-token/src/lib.rs:259-277 | the allowance grows, saturating |
| Token.MintableFungibleToken.DecAllowance | contracts/near/mintable-fungible-token/src/lib.rs:285-303 | the allowance shrinks, saturating |
| Token.MintableFungibleToken.TransferFrom | contracts/near/mintable-fungible-token/src/lib.rs:315-356 | debits the owner and the allowance and credits the recipient, or changes nothing; every balance moves by exactly that, and the supply stays |
| TokenSpec.TransferMoves | contracts/near/mintable-fungible-token/src/lib.rs:315-356 | a transfer moves the amount between two keys and touches no other balance, the supply or the used events |
| Token.MintableFungibleToken.Mint | contracts/near/mintable-fungible-token/src/lib.rs:400-455 | records the event at once, unless it is used or its locker is another, and passes on the recipient and the amount that its log entry names |
| Token.MintableFungibleToken.FinishMint | contracts/near/mintable-fungible-token/src/lib.rs:460-482 | only the contract itself, for a verified proof, credits the recipient; that balance and the supply grow by the amount and no other balance changes |
| Token.MintableFungibleToken.Burn | contracts/near/mintable-fungible-token/src/lib.rs:488-504 | takes the amount from that balance and the supply and from no other balance, and returns it with the twenty bytes that the recipient spells in hex |
| TokenTheorems.TransferExactly | contracts/near/mintable-fungible-token/src/lib.rs:315-356 | a transfer goes through exactly when ids, amount, balance, allowance and deposit allow it: crediting never overflows |
| TokenTheorems.FinishExactly | contracts/near/mintable-fungible-token/src/lib.rs:460-482 | a mint finishes exactly when it is verified, the recipient is valid, the deposit suffices and the supply can grow by the amount |
| TokenTheorems.BurnExactly | contracts/near/mintable-fungible-token/src/lib.rs:488-504 | a burn goes through exactly when the balance covers it: the supply is never too small |
| TokenAllowances.IncreaseExactly | contracts/near/mintable-fungible-token/src/lib.rs:258-276 | an increase of an allowance adds the amount up to the largest number and changes nothing else |
| TokenAllowances.DecreaseExactly | contracts/near/mintable-fungible-token/src/lib.rs:283-301 | a decrease takes it away down to zero and changes nothing else |
| TokenAllowances.TransferSpends | contracts/near/mintable-fungible-token/src/lib.rs:312-356 | a transfer by an escrow spends exactly the amount of its allowance and no other; one by the owner spends none |
| TokenAllowances.OthersKeep | contracts/near/mintable-fungible-token/src/lib.rs:400-504 | no other call touches an allowance |
| TokenAllowances.NeverOverspent | contracts/near/mintable-fungible-token/src/lib.rs:258-356 | over every run an escrow moves no more from an account than that account ever allowed it |
| TokenAllowances.MintExactly | contracts/near/mintable-fungible-token/src/lib.rs:400-422 | a mint is recorded exactly for an unused event whose log entry is one of the configured locker |
| TokenAllowances.EventDataInjective | contracts/near/mintable-fungible-token/src/lib.rs:507-517 | different events have different identifying bytes |
| TokenAllowances.MintPaysEvent | contracts/near/mintable-fungible-token/src/lib.rs:400-482 | in every reachable state a mint pays the recipient that an event of the locker names the amount that it names, after a good verdict, and changes no other balance |
| TokenTheorems.ExecInv | contracts/near/mintable-fungible-token/src/lib.rs:259-541 | every call keeps supply and balances equal, and exactly the accounts with something stored |
| TokenTheorems.MintClaims | contracts/near/mintable-fungible-token/src/lib.rs:507-517 | recording a proof keeps every event claimed at most once |
| TokenTheorems.RunInv | contracts/near/mintable-fungible-token/src/lib.rs:259-541 | all of it over every interleaving of calls and callbacks |
| TokenTheorems.Conservation | contracts/near/mintable-fungible-token/src/lib.rs:259-541 | from deployment on the supply is the sum of balances and is minted less burnt, each event is minted for at most once, and stored accounts have something |

## Left out

- The command line, process control, configuration, RPC retries, both block relays and the transfer scripts: input, output and polling of services.
- Ethash beyond the Merkle check of its nodes, RLP, `ecrecover`, and the insides of SHA-256 and Keccak: foreign code, taken as function parameters.
- The literal base-point table of contracts/eth/nearbridge/contracts/Ed25519.sol:1028, the primality of p, that -1/d is not a square and the associativity of the curve's addition: assumed, as said above.
- EthClient.EthClient.AddBlockHeader: leaves out the trusted-signer mode, in which one account may submit and linkage is not checked.
- NearBridge.NearBridge.InitWithValidators: takes a decoded list; `BridgeCalls.InitWithValidators` is the call on data.
- NearBridge.NearBridge.InitWithBlock: takes a decoded block; `BridgeCalls.InitWithBlock` is the call on data.
- NearBridge.NearBridge.AddLightClientBlock: takes a decoded block; `BridgeCalls.AddLightClientBlock` is the call on data.
- NearBridge.NearBridge.Scan: the pass as one uninterrupted loop for a receiver that takes the reward; passes interleaved with other calls over time are `Watchdog.FullScan`.
- BorshData.Data.PeekSha256: says nothing of a length past the end of the buffer, where the contract hashes whatever memory holds; the callers' bounds checks come first or revert afterwards.
- `verify_log_entry` and its cross-contract callback beyond the trie proof: RLP records and promise plumbing.
- Signed Borsh decoders and `decodeBytes20`: unused by the formats modelled.
- SchemaCodec.Writer.SerializeField: has neither strings nor custom functions; the string reader calls `TextDecoder` without `new`, and custom functions are closures of the caller.
- SchemaCodec.DeserializeField: likewise.
- secp256k1 keys in the writers: their fixed eight-character prefix makes base-58 decoding throw, so the writer model throws.
- Storage refunds, gas, events and logs: accounting with the host. Whether a token call's deposit suffices is its parameter `paid`.
- Retention of old index entries below the lowest retained header is not claimed to be right; see `EthClientTheorems.StaleExactly`.
- Merkle.Binding: asks for equal directions, since the contracts do not tie a path's length or directions to anything.
- NearProver.ProofBinds: asks that the directions agree as far as both paths go, and on the path to the block also its length: a block's hash is taken of a pair of hashes, like every hash on the path.
- DagMerkle.NodesBinding: asks for proofs of equal length, since the contract does not tie the length to anything.
- TrieProof.ValueBinding: asks for the same expanded key, since the expansion depends on the number of nodes in the proof.
- NearBridge.NearBridge.CheckBlockProducerSignatureInHead: reverts where no approval was ever stored, while the contract would check the zero signature; no block is open to challenge in such a state.
