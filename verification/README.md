# PoCiSys, modelled and proved in Dafny

This project models the parts of PoCiSys where a mistake costs a block, a GPU or a hashboard, and proves
what they promise. `dafny verify dfyconfig.toml` checks all of it.

**The solo-mining Stratum engine.** A block template becomes a job: a coinbase transaction split around the
extranonces, and Merkle branches computed over a placeholder (`Coinbase`, `Merkle`, `Jobs`). Addresses are
decoded by two checksummed codecs over GF(32) and by Base58Check (`Checksum`, `CashAddr`, `Bech32`,
`Base58`, `Regroup`, `Charset`, `BitcoinCash`). Sessions register and leave while templates are refreshed
under two locks (`Registry` as a state machine over the lock sections, `JobManager` as the object with one
method per section, `CoinRunner` for the handlers). `Connections` adds the sessions that make the calls, and
`Runner` the proof that the object's sections are steps of the state machine. A submitted share is rebuilt
into coinbase, root, header and block (`ShareValidator`). The end-to-end result is
`Submission.EverySubmittedBlock`: for every interleaving of registrations, refreshes and removals, every block
that goes to the node is consistent with its template and pays the session's address.

**Difficulty of a session.** `Vardiff` and `Session` give the retarget arithmetic and the handlers; runs keep
difficulties in bounds, and the exact conditions are proved under which retargets go the demanded way.
`Notices` ties the jobs a session is told of to the registry.

**The fan controller.** `Fan` is one turn of the controller as a function and the object that computes it;
`FanRuns` proves what whole runs guarantee.

**The hash monitor.** `ShareHistory`, `Health` and `Recovery` are three state machines with results over
whole histories; `Rtt` is the Real Time Target of eCash templates.

SHA-256 applied twice is a parameter: every result holds for every total function from bytes to 32 bytes.
Objects whose methods update fields are classes; each method is tied to a function of the old state, and
the results about runs are lemmas about those functions. Automatic induction is switched off throughout, so
every inductive proof is the one written down.

## What the proofs showed

- Parsing gives the intended coinbase back exactly when the extranonces have the declared total size
  (`Coinbase.IntendedIffSized`); share validation does not check the size a miner sends.
- Announced and built extranonce2 sizes agree exactly from a total of six bytes on (`Notices.SizesAgreeFromSix`).
- A template transaction whose id is not hex is left out of the tree without an error
  (`Submission.SkippedIffNotHex`).
- A session that authorizes k times and leaves once keeps its address registered unless k is 1
  (`Registry.RemovalUndoesOne`). An address stays connected without a session exactly after some session
  authorized again while holding it (`Connections.ConnectedIff`).
- A default difficulty that is not a whole number can make a retarget go the wrong way or exceed fourfold;
  `Vardiff.FastRaisesIff`, `SlowLowersIff` and `AtMostFourfoldIff` say exactly when it cannot.
- After an accepted suggestion, or a difficulty in a later password, the tracker keeps working from its old
  difficulty, and the session can move against the share rate. The two stay together exactly until such an
  event sets another difficulty while none is pending (`Session.StaysInSyncIff`, `InSyncRunIff`), and until then
  the session goes the demanded way (`SessionGoesAsDemanded`). `SuggestionIsForgotten` is a run where it does not.
- A rejected authorize with a difficulty in its password changes the difficulty without telling the miner
  (`Session.ToldUnlessRejected`).
- In solo mode a mid-block retarget resends the broadcast job, whose second half is empty
  (`Notices.OwnHalfUnlessResent`).
- The fan controller does not remember full speed forced after a tick that raised, so for up to 30 s it can
  report a duty the hub was not last told (`FanRuns.ReportedIsSent`, `FanRuns.ForcedIsForgotten`). The
  reconnect hold follows successful reconnect writes only.
- Automatic fan mode is not re-evaluated when a later calibration fails. All four calibrations stay behind it
  exactly until one ends as failed while it is on (`FanRuns.AutomaticStaysCalibratedIff`, `AutomaticRunIff`;
  `AutomaticOutlivesFailure` is a run that shows it).
- A stored share of difficulty zero is dropped when the file is read, and one whose id exceeds 128 characters
  with the pool key comes back under another id; all others come back unchanged (`ShareHistory.ReloadedIff`,
  `ZeroIsDropped`, `LongIdIsCut`).
- The CashAddr specification reserves the top bit of the version byte; the decoder accepts types 16 to 31
  (`CashAddr.ReservedTypeAccepted`). The accepted addresses the specification knows are exactly those with the
  bit clear (`CashAddr.SpecIffTopBitClear`). Validation still rejects the others.
- Heights 1 to 16 are pushed as data, not with the small-number opcodes; the push is the shortest exactly
  above 16 (`Script.MinimalPushIff`). The script number in it is minimal at every height.

## Model

| member | source | states |
|---|---|---|
| Polymod.FeedLinear | pocisys-bchn-sp/pkg/coin/cashaddr.go:32-47 | For any register machine that is linear in one step: feeding the symbol-wise difference of two strings from the difference of two registers gives the difference of the results, at any length. |
| Polymod.BurstDetected | pocisys-bchn-sp/pkg/coin/bech32.go:32-45 | For any sound code: two strings that differ, and differ only inside as many consecutive symbols as the register holds, never leave the same register, whatever stands before and after. |
| Checksum.StepLinear | pocisys-bchn-sp/pkg/coin/cashaddr.go:37-45 | One polymod step with any five taps is linear over exclusive-or of register and symbol. |
| Checksum.ZeroStepKeeps | pocisys-bchn-sp/pkg/coin/cashaddr.go:37-45 | A zero symbol never turns a nonzero register into zero, because the low parts of the taps are independent. |
| Checksum.CashAddrIsWellFormed | pocisys-bchn-sp/pkg/coin/cashaddr.go:33-35 | The five CashAddr constants meet the conditions the general results need. |
| Checksum.Bech32IsWellFormed | pocisys-bchn-sp/pkg/coin/bech32.go:33 | The five Bech32 constants meet the same conditions. |
| Checksum.ChecksumDetermined | pocisys-bchn-sp/pkg/coin/bech32.go:64-73 | Appending c brings the register to 1 exactly when c is the digit string of the register after zeros, exclusive-or 1. |
| Checksum.ShiftAndFold | pocisys-bchn-sp/pkg/coin/cashaddr.go:37-45 | The loop body with its masks, shifts and tap loop computes the step of the specification. |
| CashAddr.ComputePolymod | pocisys-bchn-sp/pkg/coin/cashaddr.go:32-47 | The loop computes the register of the whole symbol string, final exclusive-or included. |
| CashAddr.ExpandPrefix | pocisys-bchn-sp/pkg/coin/cashaddr.go:49-56 | The low five bits of each prefix character, then a zero. |
| CashAddr.Decode | pocisys-bchn-sp/pkg/coin/cashaddr.go:60-123 | The decoder, error paths included, equals the loop-free definition that the inverse result below is about. |
| CashAddr.DecodePrefixed | pocisys-bchn-sp/pkg/coin/cashaddr.go:79-100 | Characters to symbols, the length and the checksum. |
| CashAddr.DecodeConverted | pocisys-bchn-sp/pkg/coin/cashaddr.go:102-123 | From checked symbols to type and hash, with the size table and the length check. |
| CashAddr.ChecksumUnique | pocisys-bchn-sp/pkg/coin/cashaddr.go:93-97 | The checksum holds exactly for the eight symbols the specification's encoder computes. |
| CashAddr.PayloadRoundTrip | pocisys-bchn-sp/pkg/coin/cashaddr.go:102-122 | Regrouping and splitting the version byte undoes the specification's payload encoding for every type and every hash of a listed size. |
| CashAddr.PayloadDetermined | pocisys-bchn-sp/pkg/coin/cashaddr.go:102-122 | Any symbols the payload decoder accepts are the encoding of what it returns. |
| CashAddr.DecodeIffEncoded | pocisys-bchn-sp/pkg/coin/cashaddr.go:60-123 | Decoding returns (type, hash) exactly when the address, lower-cased and prefixed, is the encoding of (type, hash) with all five type bits: both halves of the inverse. |
| CashAddr.SpecDecodeIffEncoded | pocisys-bchn-sp/pkg/coin/cashaddr.go:60-123 | For the types the specification has, below 16: decoding returns (type, hash) exactly when the address is its encoding by the specification. |
| CashAddr.SpecIffTopBitClear | pocisys-bchn-sp/pkg/coin/cashaddr.go:111-114 | An accepted address is an encoding of the specification exactly when the first payload symbol is below 16, so that the reserved bit is clear; that symbol is the type. |
| CashAddr.EncodeThenDecode | pocisys-bchn-sp/pkg/coin/cashaddr.go:60-123 | Every type and every hash of a listed size comes back from its encoding under every lower-case prefix without separator. |
| CashAddr.ReservedTypeAccepted | pocisys-bchn-sp/pkg/coin/cashaddr.go:111-114 | A well-formed address of type 16 is accepted, though no address of the specification is that text. |
| CashAddr.HashIsShort | pocisys-bchn-sp/pkg/coin/cashaddr.go:112-120 | No accepted hash is longer than 64 bytes and no type is negative. |
| CashAddr.BurstsAreDetected | pocisys-bchn-sp/pkg/coin/cashaddr.go:88-97 | Under one prefix, two symbol strings of any length that differ only inside eight consecutive symbols cannot both pass the checksum. |
| Bech32.ComputePolymod | pocisys-bchn-sp/pkg/coin/bech32.go:32-45 | The loop computes the register of the whole symbol string. |
| Bech32.ExpandHrp | pocisys-bchn-sp/pkg/coin/bech32.go:47-57 | High bits of each character, a zero, low bits of each character. |
| Bech32.CreateChecksum | pocisys-bchn-sp/pkg/coin/bech32.go:64-73 | The six symbols that bring the polymod to 1. |
| Bech32.SplitSymbols | pocisys-bchn-sp/pkg/coin/bech32.go:68-71 | The six shifts and masks are the base-32 digits of the polymod. |
| Bech32.VerifyChecksum | pocisys-bchn-sp/pkg/coin/bech32.go:59-62 | True exactly when the polymod over expanded prefix and data is 1. |
| Bech32.ChecksumUnique | pocisys-bchn-sp/pkg/coin/bech32.go:59-73 | The check holds for exactly one six-symbol string, the one the encoder creates. |
| Bech32.Encode | pocisys-bchn-sp/pkg/coin/bech32.go:112-122 | The builder writes prefix, separator, data and checksum characters. |
| Bech32.Decode | pocisys-bchn-sp/pkg/coin/bech32.go:76-109 | The decoder, error paths and byte lengths included, equals the loop-free definition of the results below, whatever upper and lower case mean beyond ASCII. |
| Bech32.DecodeData | pocisys-bchn-sp/pkg/coin/bech32.go:93-108 | Characters to symbols, the checksum, and the data without it. |
| Bech32.DecodeIffEncoded | pocisys-bchn-sp/pkg/coin/bech32.go:76-122 | Decoding returns (prefix, data) exactly when the text has at most 90 bytes, is not mixed case, and lower-cased is the encoding of (prefix, data) with a nonempty prefix; the prefix may be any Unicode text. |
| Bech32.EncodeThenDecodeIff | pocisys-bchn-sp/pkg/coin/bech32.go:76-122 | A nonempty lower-case prefix in any script and 5-bit data come back from their encoding exactly when the encoding has at most 90 bytes. |
| Bech32.EncodeThenDecode | pocisys-bchn-sp/pkg/coin/bech32.go:76-122 | Every nonempty lower-case ASCII prefix, even one containing the separator, and every 5-bit data within the limit comes back. |
| Bech32.BurstsAreDetected | pocisys-bchn-sp/pkg/coin/bech32.go:59-62 | Two symbol strings that differ only inside six consecutive symbols cannot both pass the checksum. |
| Regroup.ConvertBits | pocisys-bchn-sp/pkg/coin/bech32.go:125-152 | The never-masked signed 64-bit accumulator gives the regrouping of one unbounded number, and fails exactly on out-of-width input or bad padding, for widths of together at most 64 bits. |
| Regroup.CashAddrConvertBits | pocisys-bchn-sp/pkg/coin/cashaddr.go:148-172 | The same for the unsigned accumulator. |
| Regroup.TakeIn | pocisys-bchn-sp/pkg/coin/bech32.go:131-141 | A group read into the wrapped register leaves the emitted groups the high part of the number read so far. |
| Regroup.EmitGroups | pocisys-bchn-sp/pkg/coin/bech32.go:137-140 | The inner loop keeps: groups emitted so far are the high part of the number read so far, although the register wrapped. |
| Regroup.PadThenUnpad | pocisys-bchn-sp/pkg/coin/bech32.go:125-152 | Narrowing with padding and widening without is the identity on every input. |
| Regroup.UnpadThenPad | pocisys-bchn-sp/pkg/coin/bech32.go:143-149 | Whatever the unpadded direction accepts narrows back to itself. |
| Charset.DecodeSymbols | pocisys-bchn-sp/pkg/coin/cashaddr.go:79-86 | The symbols of the characters, or nothing when some character is outside the alphabet. |
| Charset.WriteSymbols | pocisys-bchn-sp/pkg/coin/bech32.go:115-121 | Each symbol's character, after the prefix. |
| Charset.SymbolsOfSpelled | pocisys-bchn-sp/pkg/coin/bech32.go:96-102 | Reading back written symbols gives the same symbols. |
| Charset.SpelledSymbols | pocisys-bchn-sp/pkg/coin/bech32.go:96-102 | Readable text is what its symbols are written as. |
| Base58.Decode | pocisys-bchn-sp/pkg/coin/base58.go:34-65 | Big-number loop and leading-zero loop together equal the definition the next row is about. |
| Base58.CountLeadingOnes | pocisys-bchn-sp/pkg/coin/base58.go:52-59 | The number of leading characters that stand for zero bytes. |
| Base58.DecodeInjective | pocisys-bchn-sp/pkg/coin/base58.go:34-65 | No two different strings decode alike. |
| Base58.DecodedIsShort | pocisys-bchn-sp/pkg/coin/base58.go:34-65 | The decoded bytes are never more than the characters. |
| Script.SerializeHeight | pocisys-bchn-sp/pkg/coinbase/script.go:106-130 | The byte loop and sign byte give the height push of the specification. |
| Script.CollectBytes | pocisys-bchn-sp/pkg/coinbase/script.go:115-120 | The shift loop gives the shortest little-endian bytes of the height. |
| Script.HeightIsMinimalPush | pocisys-bchn-sp/pkg/coinbase/script.go:106-130 | For a height above 0 it is one direct push of a minimal, positive script number that decodes to the height (BIP34). |
| Script.MinimalPushIff | pocisys-bchn-sp/pkg/coinbase/script.go:106-130 | It is the shortest push of the height, small-number opcodes included, exactly for heights above 16. |
| Script.HeightOneIsLonger | pocisys-bchn-sp/pkg/coinbase/script.go:106-130 | Height 1 is pushed as two bytes where one opcode would do. |
| Script.PutLERoundTrip | pocisys-bchn-sp/pkg/coinbase/script.go:132-143 | Little-endian writing is undone by little-endian reading. |
| Script.TakeWrittenVarInt | pocisys-bchn-sp/pkg/coinbase/script.go:91-103 | A written VarInt is read back with exactly the bytes after it left over. |
| Script.ReadVarIntAgrees | pocisys-bchn-sp/pkg/coinbase/builder.go:129-154 | The lenient reader agrees with the strict parser wherever the strict one succeeds, and elsewhere reads a zero from at most one byte. |
| Script.ReverseBytes | pocisys-bchn-sp/pkg/coinbase/script.go:153-159 | Element i of the result is element length minus 1 minus i of the input. |
| Transaction.TakePutTx | pocisys-bchn-sp/pkg/coinbase/builder.go:29-92 | Parsing a printed transaction, whatever follows it, gives the transaction and what follows. |
| Transaction.TakePutWitnessTx | pocisys-bchn-sp/pkg/coinbase/builder.go:94-126 | The same for the BIP144 form with marker, flag and witness. |
| Coinbase.BuildCoinbaseParts | pocisys-bchn-sp/pkg/coinbase/builder.go:29-85 | Both halves as functions: the first of height, text and extranonce sizes only, the second of the outputs only. |
| Coinbase.AppendOutputs | pocisys-bchn-sp/pkg/coinbase/builder.go:70-74 | Value, script length and script of each output in order. |
| Coinbase.AssembledIsPrinted | pocisys-bchn-sp/pkg/coinbase/builder.go:29-92 | The halves around extranonces of the declared total size are byte for byte the printed coinbase transaction. |
| Coinbase.ParsedBack | pocisys-bchn-sp/pkg/coinbase/builder.go:29-92 | Parsing the assembled coinbase gives exactly the outputs, one null input, and a script that starts with the direct push of the height as a minimal script number, followed by text and extranonces. |
| Coinbase.IntendedIffSized | pocisys-bchn-sp/pkg/coinbase/builder.go:41-57 | The intended transaction comes back exactly when the extranonces have the declared total size. |
| Coinbase.AddWitnessData | pocisys-bchn-sp/pkg/coinbase/builder.go:101-126 | Marker, flag and reserved witness are spliced in; short input is returned unchanged. |
| Coinbase.WithWitnessIsPrinted | pocisys-bchn-sp/pkg/coinbase/builder.go:101-126 | On any printed transaction the splice prints the BIP144 form with one stack holding one 32-zero-byte item. |
| Coinbase.WitnessStripsBack | pocisys-bchn-sp/pkg/coinbase/builder.go:94-126 | An assembled coinbase with witness parses under BIP144, and printing it without witness gives back exactly the bytes that were hashed. |
| Merkle.MerkleRoot | pocisys-bchn-sp/pkg/coinbase/builder.go:158-183 | The level loop computes the root of the full tree, with the empty and single cases. |
| Merkle.PairLevel | pocisys-bchn-sp/pkg/coinbase/builder.go:169-180 | One level up, with an odd last node duplicated first. |
| Merkle.ComputeBranches | pocisys-bchn-sp/pkg/engine/jobmanager.go:376-415 | The branch loop over a zero placeholder collects the left-most siblings level by level. |
| Merkle.JoinLevel | pocisys-bchn-sp/pkg/engine/jobmanager.go:394-412 | One level up, with an odd last node paired with itself. |
| Merkle.FoldBranches | pocisys-bchn-sp/pkg/coinbase/builder.go:187-199 | The fold over the branches. |
| Merkle.FoldIsRoot | pocisys-bchn-sp/pkg/engine/jobmanager.go:376-415 | Whatever the placeholder, folding the collected siblings over the real hash gives the root of the tree with that hash on the left. |
| Merkle.BranchesGiveRoot | pocisys-bchn-sp/pkg/engine/jobmanager.go:376-415 | For every coinbase hash and every list of 32-byte hashes, the branches fold to the root of the full tree, odd levels included. |
| BitcoinCash.ValidateAddress | pocisys-bchn-sp/pkg/coin/bitcoincash.go:48-86 | Accepts exactly the addresses the predicate of the next rows describes. |
| BitcoinCash.AddressToScript | pocisys-bchn-sp/pkg/coin/bitcoincash.go:88-126 | The output script, or failure, on every branch. |
| BitcoinCash.ValidIffStandardScript | pocisys-bchn-sp/pkg/coin/bitcoincash.go:48-126 | An address validates exactly when its script exists and pays a 20-byte key hash or script hash. |
| BitcoinCash.Base58CheckDecode | pocisys-bchn-sp/pkg/coin/base58.go:69-93 | Version and payload exactly when the last four bytes are the start of the payload's hash. |
| BitcoinCash.BuildCoinbase | pocisys-bchn-sp/pkg/coin/bitcoincash.go:128-154 | Fails exactly when the address has no script; otherwise both halves for the first output paying that script what the extra outputs leave. |
| BitcoinCash.BuildPaying | pocisys-bchn-sp/pkg/coin/bitcoincash.go:136-153 | Both halves once the script is known. |
| BitcoinCash.SubtractAll | pocisys-bchn-sp/pkg/coin/bitcoincash.go:136-139 | The wrapping loop equals one wrapped subtraction of the total. |
| BitcoinCash.ValidHasCoinb2 | pocisys-bchn-sp/pkg/coin/bitcoincash.go:128-154 | A validated address always has a second half. |
| BitcoinCash.BuildBlock | pocisys-bchn-sp/pkg/coin/bitcoincash.go:156-171 | Header, transaction count, coinbase and all template data, or nothing when some data is not hex. |
| Difficulty.MeetsIff | pocisys-bchn-sp/pkg/coin/difficulty.go:61-101 | A hash meets a positive difficulty exactly when hash times difficulty is at most the difficulty-1 target. |
| Jobs.ComputeMerkleBranches | pocisys-bchn-sp/pkg/engine/jobmanager.go:336-371 | Branches over the byte-reversed ids, undecodable ones skipped. |
| Jobs.SwapHashEndianness | pocisys-bchn-sp/pkg/engine/jobmanager.go:551-574 | The in-place reversal and word swap, or the text unchanged when it is not 64 hex digits. |
| Jobs.ReverseInPlace | pocisys-bchn-sp/pkg/engine/jobmanager.go:561-563 | The in-place swap loop reverses all bytes. |
| Jobs.SwapWordsInPlace | pocisys-bchn-sp/pkg/engine/jobmanager.go:565-571 | Each complete four-byte word is reversed in place. |
| Jobs.SwapEndianWords | pocisys-bchn-sp/pkg/engine/sharevalidator.go:312-328 | Each complete four-byte word reversed into a new buffer, an incomplete last word zero. |
| Jobs.SwapWordsTwice | pocisys-bchn-sp/pkg/engine/sharevalidator.go:312-328 | Word swapping undoes itself. |
| Jobs.HeaderPrevHash | pocisys-bchn-sp/pkg/engine/sharevalidator.go:143-147 | The swap into Stratum form and back leaves the displayed block hash with all its bytes reversed. |
| Jobs.BchCoinIsSound | pocisys-bchn-sp/pkg/coin/bitcoincash.go:48-154 | First halves depend on the template alone and are never empty, and validated addresses can be paid: what the registry needs of a coin. |
| Registry.StepKeepsInv | pocisys-bchn-sp/pkg/engine/jobmanager.go:208-471 | Every lock section of registering, refreshing and removing keeps the registry invariant. |
| Registry.EveryReachableState | pocisys-bchn-sp/pkg/engine/jobmanager.go:208-471 | In every state of every interleaving: a connected address with no fill pending has a second half in every retained job, each stored half is right for its template, a job holding any has the right first half, and at most ten jobs are retained. |
| Registry.CountIsGreatestExcess | pocisys-bchn-sp/pkg/engine/jobmanager.go:419-471 | In every run the count of an address is the greatest excess of its registration calls over its removal calls since some earlier moment: a removal that finds no count has no effect. |
| Registry.CountsAreCalls | pocisys-bchn-sp/pkg/engine/jobmanager.go:419-471 | The count is registration calls minus removal calls exactly when no removal ever came without a registration to undo. |
| Connections.ConnectedIff | pocisys-bchn-sp/pkg/stratum/session.go:83-85 | With sessions that register in their handler and are removed once, an address is connected exactly while some session holds or is registering it, or after some session let go of it by authorizing again. |
| Connections.EverySessionIsPaid | pocisys-bchn-sp/pkg/stratum/server.go:239-258 | In every interleaving of any number of sessions and the refresh: the address of every session still there stays counted, and while no session is between counting and filling it in, every retained job pays it, with the right first half. |
| Connections.StepKeepsRegistry | pocisys-bchn-sp/pkg/engine/coinrunner.go:149-176 | Every step of a session or of the refresh is a step of the registry or leaves it alone. |
| Registry.RemovalUndoesOne | pocisys-bchn-sp/pkg/engine/coinrunner.go:150-176 | One removal undoes k registrations exactly when k is 1, so re-authorizing leaves the address registered. |
| JobManager.Manager.RegisterCount | pocisys-bchn-sp/pkg/engine/jobmanager.go:420-423 | The section under the address lock: counts one call and says whether the address is new. |
| JobManager.Manager.RegisterFill | pocisys-bchn-sp/pkg/engine/jobmanager.go:425-450 | The section under the job lock: fills the address into every job, and the first half where it was missing. |
| JobManager.Manager.FillOne | pocisys-bchn-sp/pkg/engine/jobmanager.go:428-448 | One job filled for one address. |
| JobManager.Manager.RegisterAddress | pocisys-bchn-sp/pkg/engine/jobmanager.go:419-452 | Both sections in order. |
| JobManager.Manager.UnregisterAddress | pocisys-bchn-sp/pkg/engine/jobmanager.go:456-471 | Drops one count, and the address with its last one. |
| JobManager.Manager.SnapshotAddresses | pocisys-bchn-sp/pkg/engine/jobmanager.go:239-245 | Lists each connected address once, in some order. |
| JobManager.Manager.BuildAll | pocisys-bchn-sp/pkg/engine/jobmanager.go:247-268 | Second halves of all payable addresses; the first half of the first listed, else of the fallback address. |
| JobManager.Manager.PublishJob | pocisys-bchn-sp/pkg/engine/jobmanager.go:219-323 | The new job, tip, tip time and counter, and the retained jobs after pruning. |
| JobManager.Manager.RefreshTemplate | pocisys-bchn-sp/pkg/engine/jobmanager.go:208-334 | A refresh without interruption: the job for the addresses connected at that moment. |
| JobManager.Manager.PruneJobs | pocisys-bchn-sp/pkg/engine/jobmanager.go:521-543 | Keeps the limit's worth of jobs, none of them older than a dropped one. |
| JobManager.Manager.OldestJob | pocisys-bchn-sp/pkg/engine/jobmanager.go:533-538 | A job no younger than any other. |
| JobManager.Manager.GetJobForAddress | pocisys-bchn-sp/pkg/engine/jobmanager.go:474-505 | A newest job with the address's own second half, or nothing when it has none. |
| CoinRunner.AuthorizeHandler | pocisys-bchn-sp/pkg/engine/coinrunner.go:150-166 | Accepts exactly valid addresses and registers each accepted call once. |
| CoinRunner.JobForSession | pocisys-bchn-sp/pkg/engine/coinrunner.go:168-170 | The newest job with the session's own second half, or nothing when there is no job or the newest has none. |
| CoinRunner.OnSessionRemoved | pocisys-bchn-sp/pkg/engine/coinrunner.go:172-176 | One removal call for the last authorized address. |
| CoinRunner.FilledCanPay | pocisys-bchn-sp/pkg/engine/jobmanager.go:428-448 | Filling gives a validated address the right second half, and an unset first half its right value. |
| Runner.SoloRunner.Count | pocisys-bchn-sp/pkg/engine/jobmanager.go:420-423 | The job manager's count section is a step of the registry: the recorded run stays a run and ends in the manager's state. |
| Runner.SoloRunner.Fill | pocisys-bchn-sp/pkg/engine/jobmanager.go:425-450 | The fill section, run while no refresh holds the job lock, is a step of the registry in the same sense. |
| Runner.SoloRunner.Snapshot | pocisys-bchn-sp/pkg/engine/jobmanager.go:219-245 | Taking the job lock and reading the addresses is a step of the registry in the same sense. |
| Runner.SoloRunner.Publish | pocisys-bchn-sp/pkg/engine/jobmanager.go:247-323 | Building and publishing the job is a step of the registry in the same sense. |
| Runner.SoloRunner.SessionRemoved | pocisys-bchn-sp/pkg/engine/coinrunner.go:172-176 | The removal handler is a step of the registry in the same sense. |
| Runner.SoloRunner.Lookup | pocisys-bchn-sp/pkg/engine/jobmanager.go:145-149 | A job found was retained at some moment of the manager's own run. |
| Runner.SoloRunner.Validate | pocisys-bchn-sp/pkg/engine/sharevalidator.go:73-308 | Whatever tip and tip time are read after the lookup, every block that validation submits pays the session's address on the template of the job it looked up. |
| ShareValidator.Validator.ValidateShare | pocisys-bchn-sp/pkg/engine/sharevalidator.go:64-94 | Unknown or stale job, or an address without a second half, in every combination; everything else is decided as the following rows say. |
| ShareValidator.Validator.ValidateFound | pocisys-bchn-sp/pkg/engine/sharevalidator.go:73-94 | The same for a job already looked up, with a tip and a tip time that may each belong to another moment. |
| ShareValidator.Judge | pocisys-bchn-sp/pkg/engine/sharevalidator.go:96-308 | Which fields make a share malformed, and what the rebuilt coinbase, root and header decide. |
| ShareValidator.JudgeHeader | pocisys-bchn-sp/pkg/engine/sharevalidator.go:184-308 | Low difficulty, accepted, or accepted with a block, from the header hash. |
| ShareValidator.BuildHeader | pocisys-bchn-sp/pkg/engine/sharevalidator.go:122-182 | The header buffer in field order, or the error of the first bad field. |
| ShareValidator.CheckDifficulty | pocisys-bchn-sp/pkg/engine/sharevalidator.go:201-222 | Accepts at the session difficulty, or within the grace time at the previous one. |
| Submission.EveryIdCounts | pocisys-bchn-sp/pkg/engine/jobmanager.go:343-357 | With decodable ids, leaf i is the byte-reversed id of transaction i. |
| Submission.SkippedIffNotHex | pocisys-bchn-sp/pkg/engine/jobmanager.go:349-352 | There are as many leaves as transactions exactly when every id is hex. |
| Submission.HeaderOfShare | pocisys-bchn-sp/pkg/engine/sharevalidator.go:108-182 | The header is 80 bytes: rolled version, reversed template hash, full Merkle root, time, bits and nonce at their places. |
| Submission.WordIsReversed | pocisys-bchn-sp/pkg/engine/sharevalidator.go:154-182 | A big-endian hex field enters the header with its bytes reversed. |
| Submission.RolledBits | pocisys-bchn-sp/pkg/engine/sharevalidator.go:125-141 | The header version differs from the job's exactly in the bits the miner rolled. |
| Submission.CoinbasePays | pocisys-bchn-sp/pkg/coin/bitcoincash.go:128-154 | The parsed coinbase pays the validated address first, the value minus the extra outputs, then exactly the extra outputs. |
| Submission.EverySubmittedBlock | pocisys-bchn-sp/pkg/engine/sharevalidator.go:64-308 | For every interleaving, every retained job, every share with extranonces of the declared total size: a submitted block has the reversed template hash and the full Merkle root of its own coinbase and all template transactions in its header, a hash at most the bits target, and a coinbase that pays the session's address. |
| Vardiff.VarDiff.RecordShare | pocisys-bchn-sp/pkg/stratum/vardiff.go:125-230 | The new tracker state and whether the difficulty changed, on every return path. |
| Vardiff.VarDiff.Adjusted | pocisys-bchn-sp/pkg/stratum/vardiff.go:169-192 | The new difficulty: clamped ratio, bounds, rounding. |
| Vardiff.VarDiff.ResetWindow | pocisys-bchn-sp/pkg/stratum/vardiff.go:117-121 | The new difficulty with an empty window. |
| Vardiff.RoundedInBounds | pocisys-bchn-sp/pkg/stratum/vardiff.go:183-192 | Clamping then rounding stays inside integer bounds and is a whole number. |
| Vardiff.FastRaisesIff | pocisys-bchn-sp/pkg/stratum/vardiff.go:152-215 | Fast shares only ever raise a difficulty exactly when the slowest fast rate lands less than one percent below it. |
| Vardiff.SlowLowersIff | pocisys-bchn-sp/pkg/stratum/vardiff.go:152-215 | Slow shares only ever lower a difficulty exactly when the fastest slow rate lands less than one percent above it. |
| Vardiff.AtMostFourfoldIff | pocisys-bchn-sp/pkg/stratum/vardiff.go:172-192 | A retarget is at most fourfold exactly when four times the difficulty is not rounded up, or out of reach. |
| Vardiff.IntegralIsSafe | pocisys-bchn-sp/pkg/stratum/vardiff.go:152-215 | From a whole-number difficulty all three hold. |
| Vardiff.FractionalDefaultGoesDown | pocisys-bchn-sp/pkg/stratum/vardiff.go:191-215 | A default of 1.4 is lowered to 1 by shares that come too fast. |
| Session.StratumSession.HandleAuthorize | pocisys-bchn-sp/pkg/stratum/session.go:163-214 | New session state and messages, on every path. |
| Session.StratumSession.HandleSubscribe | pocisys-bchn-sp/pkg/stratum/session.go:150-161 | The announced extranonce2 size and the subscribed state. |
| Session.StratumSession.ParsePasswordDifficulty | pocisys-bchn-sp/pkg/stratum/session.go:352-376 | The first positive difficulty of the password, clamped, becomes the session's. |
| Session.StratumSession.HandleSubmit | pocisys-bchn-sp/pkg/stratum/session.go:216-276 | New session state and messages, on every path. |
| Session.StratumSession.HandleSuggestDifficulty | pocisys-bchn-sp/pkg/stratum/session.go:278-316 | Ignored, or clamped, with the default for what is not positive. |
| Session.StratumSession.SendMidBlockDifficulty | pocisys-bchn-sp/pkg/stratum/session.go:417-446 | New difficulty, no pending one, an empty window, and the current job resent without clearing. |
| Session.StratumSession.SendNewJob | pocisys-bchn-sp/pkg/stratum/session.go:385-412 | Flushes a pending difficulty exactly when the job allows it, then sends the job. |
| Session.DifficultiesStayInBounds | pocisys-bchn-sp/pkg/stratum/session.go:163-446 | After any events: session, previous and tracker difficulty in bounds, a pending one equal to the tracker's, at most ten timestamps. |
| Session.EveryRetargetIsDemanded | pocisys-bchn-sp/pkg/stratum/session.go:245-274 | With a whole-number default every retarget of every run goes the way the share rate demands, at most fourfold up. |
| Session.StaysInSyncIff | pocisys-bchn-sp/pkg/stratum/session.go:163-446 | One event keeps the session's difficulty equal to the tracker's, unless one is pending, exactly unless an accepted suggestion or a password sets another one while none is pending. |
| Session.InSyncRunIff | pocisys-bchn-sp/pkg/stratum/session.go:163-446 | Over a run from a new connection they are together throughout exactly when no such event occurred. |
| Session.SessionGoesAsDemanded | pocisys-bchn-sp/pkg/stratum/session.go:245-276 | Until such an event, with a whole-number default, every retarget moves the session's own difficulty the way the share rate demands, at most fourfold up. |
| Session.SuggestionIsForgotten | pocisys-bchn-sp/pkg/stratum/session.go:278-316 | A run from a new connection in which, after an accepted suggestion, shares four times too fast drop the session from 100000 to 4096. |
| Session.ToldUnlessRejected | pocisys-bchn-sp/pkg/stratum/session.go:163-191 | A told difficulty stays the session's exactly unless a rejected authorize carried another one in its password. |
| Notices.RetainedNotices | pocisys-bchn-sp/pkg/engine/coinrunner.go:168-200 | Every retained job of every run makes notices with the right own half for the addresses filled in, and a broadcast notice with none. |
| Notices.BroadcastPaysNobody | pocisys-bchn-sp/pkg/stratum/server.go:212-226 | A notice with an empty second half pays no Bitcoin Cash address under any job. |
| Notices.OwnHalfUnlessResent | pocisys-bchn-sp/pkg/stratum/session.go:436-442 | With jobs from the registry, every notified job carries the session's own second half exactly unless a mid-block retarget resends the broadcast job. |
| Notices.SizesAgreeFromSix | pocisys-bchn-sp/pkg/engine/jobmanager.go:82-88 | The announced extranonce2 size is the one the coinbase is set up with exactly from a total of six bytes on. |
| Notices.AnnouncedIsDeclaredIff | pocisys-bchn-sp/pkg/engine/jobmanager.go:82-88 | A miner that fills the announced size makes a coinbase of the declared size exactly from six bytes on. |
| Rtt.ComputeRTT | pocisys-bchn-sp/pkg/coin/rtt.go:76-144 | Error cases and window loop, with its skips, equal the definition of the next rows. |
| Rtt.LowerTarget | pocisys-bchn-sp/pkg/coin/rtt.go:96-141 | The window loop alone. |
| Rtt.RttCompactToBig | pocisys-bchn-sp/pkg/coin/rtt.go:53-72 | Mantissa and exponent without a sign, and the error cases. |
| Rtt.RttIsMinimum | pocisys-bchn-sp/pkg/coin/rtt.go:76-144 | The result is the minimum of the bits target and the targets of the windows that count, window i with coefficient start plus i. |
| Rtt.RttMonotone | pocisys-bchn-sp/pkg/coin/rtt.go:123-140 | The target never decreases as time passes. |
| Rtt.DecodersAgreeIff | pocisys-bchn-sp/pkg/coin/rtt.go:53-72 | The two compact decoders agree exactly when the sign bit is clear or the exponent is 0. |
| Rtt.RttIsStricter | pocisys-bchn-sp/pkg/coin/rtt.go:137-140 | With the sign bit clear the Real Time Target is at most the network target. |
| FanCurve.TemperatureDuty | pocisys-gpu-runtime/fan_controller.py:82-93 | The curve never leaves 40 to 100. |
| FanCurve.DutyMonotone | pocisys-gpu-runtime/fan_controller.py:82-93 | A hotter GPU never gets a slower fan, and the duty is within half a percent of the drawn curve. |
| FanCurve.CurvePoints | pocisys-gpu-runtime/fan_controller.py:84-88 | The curve passes through its six points and is flat outside. |
| Fan.FanController.GpuIsStable | pocisys-gpu-runtime/fan_controller.py:371-376 | True exactly for four recent samples over six seconds, no two more than two degrees apart. |
| Fan.FanController.ConsumeCommand | pocisys-gpu-runtime/fan_controller.py:381-435 | New state and whether it raises, on every path. |
| Fan.FanController.MayTest | pocisys-gpu-runtime/fan_controller.py:391-400 | A test is admitted exactly with a listed duty, 20 to 30 seconds, all higher duties successful and, below full speed, a steady GPU. |
| Fan.FanController.FinishManual | pocisys-gpu-runtime/fan_controller.py:437-454 | The test ends; a calibration is recorded with its outcome. |
| Fan.FanController.UpdateManualObservations | pocisys-gpu-runtime/fan_controller.py:456-475 | RPM and temperature extremes once the fan has settled. |
| Fan.FanController.SelectDuty | pocisys-gpu-runtime/fan_controller.py:477-518 | Duty, mode and new state, on every path. |
| Fan.FanController.SelectTestDuty | pocisys-gpu-runtime/fan_controller.py:498-514 | The manual branch: aborted, finished or still running. |
| Fan.FanController.Connect | pocisys-gpu-runtime/fan_controller.py:539-560 | Discovery after an outage: full speed, and a hold when that was accepted. |
| Fan.FanController.ChooseDuty | pocisys-gpu-runtime/fan_controller.py:568-578 | The chosen duty, overridden when the fan stands still. |
| Fan.FanController.Send | pocisys-gpu-runtime/fan_controller.py:579-604 | When a command is sent, what is remembered, and the fallback. |
| Fan.FanController.Tick | pocisys-gpu-runtime/fan_controller.py:520-652 | New state, writes and status, on every path. |
| Fan.FanController.Turn | pocisys-gpu-runtime/fan_controller.py:668-684 | One turn of the loop, full speed when the tick raised. |
| Fan.FanController.Run | pocisys-gpu-runtime/fan_controller.py:666-687 | The state and all writes of a run, full speed after a tick that raises and at the end. |
| FanRuns.LowSpeedIsSafe | pocisys-gpu-runtime/fan_controller.py:477-604 | Over any run with a nondecreasing clock, a speed below full is sent only with valid telemetry below 10 percent and 70 degrees, 60 s after every busy sample seen with the hub, 10 s after every successful reconnect write, and under an unexpired lease for that duty or in automatic mode with the curve's duty. |
| FanRuns.CalibrationLadder | pocisys-gpu-runtime/fan_controller.py:388-413 | In every reachable state a running calibration has all higher duties recorded successful. |
| FanRuns.DutiesInRange | pocisys-gpu-runtime/fan_controller.py:299-307 | Every duty ever sent is already within the hub's clamp. |
| FanRuns.OnlineIsCurrent | pocisys-gpu-runtime/fan_controller.py:579-604 | A tick reported online remembers its target as sent less than 30 s ago. |
| FanRuns.ReportedIsSent | pocisys-gpu-runtime/fan_controller.py:579-687 | The last write the hub accepted has the reported duty exactly when it was not forced by an earlier tick that raised, or the report is full speed. |
| FanRuns.ForcedIsForgotten | pocisys-gpu-runtime/fan_controller.py:654-684 | A run in which a tick reports 40 online while the hub was last told 100. |
| FanRuns.AutomaticStaysCalibratedIff | pocisys-gpu-runtime/fan_controller.py:414-518 | A turn keeps all four calibrations behind automatic mode exactly unless a running calibration ends as failed, by the guards that end it, while automatic mode is on. |
| FanRuns.AutomaticRunIff | pocisys-gpu-runtime/fan_controller.py:414-518 | Over a run automatic mode has all calibrations behind it throughout exactly when none failed under it. |
| FanRuns.AutomaticOutlivesFailure | pocisys-gpu-runtime/fan_controller.py:414-518 | A run from a fully calibrated state after which automatic mode is on with a failed calibration. |
| ShareHistory.ReloadedIff | pocisys-hash-monitor/services/pool_logs.py:110-127 | A stored share reads back unchanged exactly when its difficulty is not zero and its id with the pool key still fits 128 characters; it is dropped exactly when the difficulty is zero. |
| ShareHistory.ZeroIsDropped | pocisys-hash-monitor/services/pool_logs.py:113-115 | A share reported with the text 0 is kept, and dropped on reading the file. |
| ShareHistory.LongIdIsCut | pocisys-hash-monitor/services/pool_logs.py:118-122 | A share with a 128-character id comes back with the end of its id missing. |
| ShareHistory.PoolLogService.MergeShares | pocisys-hash-monitor/services/pool_logs.py:310-339 | The pool's new history and bests, other pools untouched; no change reported means equal ids and bests. |
| ShareHistory.PoolLogService.ConsiderAll | pocisys-hash-monitor/services/pool_logs.py:315-332 | The loop over a batch: dictionary and bests after all considered shares. |
| ShareHistory.PoolLogService.ClearShareHistory | pocisys-hash-monitor/services/pool_logs.py:224-239 | Everything is forgotten and configured pools ignore shares up to now. |
| ShareHistory.PoolLogService.Reconfigure | pocisys-hash-monitor/services/pool_logs.py:205-222 | Pools no longer configured are forgotten. |
| ShareHistory.SortedIs | pocisys-hash-monitor/services/pool_logs.py:333 | Sorting records with distinct ids gives the same records, strictly newest first. |
| ShareHistory.MergeIsTopTen | pocisys-hash-monitor/services/pool_logs.py:310-337 | The ten newest of what is kept plus a batch are the ten newest of everything plus that batch. |
| ShareHistory.IncrementalIsBatch | pocisys-hash-monitor/services/pool_logs.py:310-339 | After any merges, clears and reconfigurations with consistent ids, the list is the ten newest of all shares considered since the last clear, and the bests are their maximum positive difficulty. |
| ShareHistory.TopTenUnique | pocisys-hash-monitor/services/pool_logs.py:333-337 | There is only one such list, so the order of arrival leaves no trace. |
| ShareHistory.UnchangedIsSame | pocisys-hash-monitor/services/pool_logs.py:335-339 | When ids do not change the history does not, so skipping the file write loses nothing. |
| Health.HealthEngine.Evaluate | pocisys-hash-monitor/services/health.py:233-323 | New tracker state and the bounded list of transitions, other miners untouched. |
| Health.HealthEngine.MapCandidates | pocisys-hash-monitor/services/health.py:252 | Candidates by code, a later one in place of an earlier one. |
| Health.HealthEngine.Select | pocisys-hash-monitor/services/health.py:259-267 | The rules confirmed often enough. |
| Health.HealthEngine.Reconfigure | pocisys-hash-monitor/services/health.py:48-53 | Miners no longer configured are forgotten. |
| Health.CountsAreStreaks | pocisys-hash-monitor/services/health.py:244-285 | Rule counts are the lengths of firing streaks and the good count that of the clean streak. |
| Health.StateIs | pocisys-hash-monitor/services/health.py:244-294 | The state after any polls, from the polls alone and the state one poll earlier. |
| Health.EntersUnhealthyIff | pocisys-hash-monitor/services/health.py:263-271 | Unhealthy is entered exactly when a rule that fires severely now completes three reachable polls in a row. |
| Health.RecoversIff | pocisys-hash-monitor/services/health.py:276-294 | Warning and unhealthy are left directly for healthy or unknown exactly on the second clean poll in a row. |
| Recovery.LowWindowGoesRound | pocisys-hash-monitor/services/luxos_control.py:344-351 | The window test is membership in the clock interval from start, going round, to end. |
| Recovery.LuxOSControlService.ObserveBoard | pocisys-hash-monitor/services/luxos_control.py:479-528 | One board's new counters, whether an attempt is made, and whether a completion alert comes first. |
| Recovery.LuxOSControlService.CompleteIncident | pocisys-hash-monitor/services/luxos_control.py:509-510 | After the completion alert the incident is forgotten, and nothing else. |
| Recovery.LuxOSControlService.FinishAttempt | pocisys-hash-monitor/services/luxos_control.py:547-555 | Bookkeeping after the restart command went through, or raised. |
| Recovery.LuxOSControlService.NoteCommand | pocisys-hash-monitor/services/luxos_control.py:715-736 | Bookkeeping of a restart or board-on command. |
| Recovery.LuxOSControlService.ForgetMissing | pocisys-hash-monitor/services/luxos_control.py:567-569 | Boards the snapshot did not list lose their count, other miners' boards keep theirs. |
| Recovery.LuxOSControlService.ObserveAfterProfileChange | pocisys-hash-monitor/services/luxos_control.py:571-576 | Counts start over and recovery is inactive for ten minutes. |
| Recovery.LuxOSControlService.Reconfigure | pocisys-hash-monitor/services/luxos_control.py:819-844 | Miners no longer configured are forgotten. |
| Recovery.SixHoursApart | pocisys-hash-monitor/services/luxos_control.py:522-528 | While the miner stays configured two automatic attempts on one board are at least six hours apart, in any interleaving. |
| Recovery.AttemptIsArmed | pocisys-hash-monitor/services/luxos_control.py:468-521 | Every attempt belongs to a snapshot that began with recovery enabled and armed, outside the curtailment window, and at least ten minutes after the miner's latest profile change. |
| Recovery.ActiveIsArmed | pocisys-hash-monitor/services/luxos_control.py:468-478 | Every snapshot in which recovery is active began that way. |
| Recovery.AttemptNeedsThree | pocisys-hash-monitor/services/luxos_control.py:511-521 | Every attempt completes three bad observations in a row with recovery active and no reset among them, after the warm-up. |
| Recovery.StreakObservations | pocisys-hash-monitor/services/luxos_control.py:511-514 | What such a row is: bad observations in active snapshots, in order, with nothing after the first of them that would have started the count over. |

## Left out

- Hex and JSON text: fields are byte strings or marked as not hex, so letter case of hex is not told apart.
- Pool mode, eCash cooldown, reorg and node-supplied target branches, and all coins other than Bitcoin Cash;
  SegWit coins appear through AddWitnessData only.
- DecodeBech32Address and the witness script builders: near copies of what is modelled.
- Floating-point rounding, infinities and NaN: difficulties, times and targets are reals or integers.
- Regroup.ConvertBits: widths that add up to more than 64 bits, where the accumulator loses bits; callers use
  5 and 8 only.
- Regroup.CashAddrConvertBits: the same widths only, and input values inside the declared width, which its
  callers guarantee.
- Vardiff.VarDiff.RecordShare: integer mode with integer bounds of at least 1 only; the two floating modes
  can round a difficulty to zero.
- The donation percentage: the extra output is a parameter, at most one, with a script of at most 100 bytes.
- Submission.EverySubmittedBlock: an address of four billion characters or more, which no Stratum line can
  carry, is treated as unregistrable.
- Memory-level races and the slice aliasing inside MerkleRoot's append; interleavings are between lock
  sections for the registry, and session handlers are atomic.
- Job identifiers are numbers; the 64-bit counter is not wrapped.
- GetAddressCoinb2, which is a lookup; polling, ZMQ, statistics, logging, the TCP and JSON layers.
- Text that is not valid UTF-8. In Bech32 letter case beyond ASCII is a parameter; CashAddr has it only for the
  four characters that fold into or out of ASCII, because any other such character is rejected in every case.
- Fan: the USB probe, device discovery and file writes; discovery either reports an RPM or fails. Malformed
  calibration files are not modelled.
- ShareHistory: parsing of times and difficulties, and the history file itself.
- Health: how telemetry becomes candidate rules; a poll carries the rules that fire.
- Recovery: profile selection, schedules, the text of alerts and the 15-second command cooldown.
- Connections: session identifiers, eight random bytes in the source, are taken to be distinct.
- IsRTTDataValid and the use of the Real Time Target by the share validator.
