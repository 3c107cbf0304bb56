# Tamper-evident ledgers of Hopemeals Guardian, in Dafny

Hopemeals Guardian records food-distribution events and uploaded evidence
files in two append-only JSON-lines ledgers. Every record carries the
`record_hash` of its own canonical JSON and the `prev_hash` of the record
before it. The first record links to the sentinel `"GENESIS"`.

Each record hash can also be anchored. Anchoring mode `local` mines it into a
file-based proof-of-work chain, which has a materialised genesis block and a
difficulty prefix of zeros. Mode `eth` hands it to an Ethereum client. Mode
`off` does nothing. Each anchor is cross-referenced in a side log.

This project models that subsystem and proves properties of it:

- `PyRuntime` (py_runtime.dfy): JSON values, Python exceptions, truthiness, `str()`, slicing; files as a `File` class of lines.
- `HashChainLog` (hash_chain_log.dfy): `_compute_record_hash`, `_read_last_record`, the link to the predecessor, `verify_ledger` / `verify_events_ledger`.
- `EvidenceLedger` (evidence_ledger.dfy): `append_ledger`.
- `EventsLedger` (events_ledger.dfy): `append_event_ledger`, `tail`.
- `Fingerprint`, `Sorting` (fingerprint.dfy, sorting.dfy): `_to_iso`, `fingerprint_event`, and `sorted()` on strings.
- `LedgerAppend` (ledger_append.dfy): writing the sealed record, then anchoring and logging the anchor (shared by both appends).
- `LocalChain` (local_chain.dfy): `_target_prefix`, `ensure_genesis`, `_last_line`, `get_tip`, `verify_chain`, `_mine`, `add_block`, `find_by_data`.
- `BlockchainService` (blockchain_service.dfy): `maybe_anchor`, `status`, `find_anchor`, `chain_tail`, `verify`.

How the model is built:

- **Files.** Every file is a `PyRuntime.File` object whose `lines` field
  (`Blank | Malformed | Parsed(json)`) the methods reassign. Appends add one
  line; `ensure_genesis` overwrites the file.
- **Loops.** Each loop of the source is a method with a loop. Its
  postcondition ties the result to a specification function: a left fold of
  one loop step over the lines (`Walk`, `ChainWalk`), or a search (`MineFrom`,
  `FirstWithData`, `LastParsed`, `LastNonBlank`).
- **Properties.** Theorems are lemmas about those functions.
- **Library functions.** SHA-256, canonical JSON, `str()` of containers,
  `int()` of strings, `float()` and ISO formatting are function-valued fields
  of a `Builtins` value, so every result holds for any such functions.
- **Hash collisions.** Where a lemma needs the hash to be collision-free, it
  takes `CollisionFree(B)` as an explicit hypothesis.
- **Clocks and the Ethereum client.** Clock readings are parameters: `now`,
  and a timestamp per mining attempt. The Ethereum client is a parameter
  (`EthClient`).

Points where the code's behaviour is easy to misread, and which the model
keeps as the code has them:

- **`ensure_genesis`** rewrites the whole chain file (mode `"w"`) when the
  first line does not parse. A blank first line counts as not parsing. All
  later lines are discarded (`LocalChain.RepairWritesGenesis`), not just
  the first one.
- **`tail(limit)`** takes the last `limit` *lines* (`readlines()[-limit:]`)
  and then drops blank and malformed ones. They use up part of the limit.
  `limit == 0` takes the whole file, and a negative limit drops lines from
  the front (`PyRuntime.PyTail`).
- **The timestamp in the fingerprint** is normalised only for naive datetimes
  and dates. An aware datetime keeps its own offset, and a string is used as
  it is. So `"...Z"` and a naive datetime at the same instant fingerprint
  differently.
- **The verifiers** never look at a record's `index`. The contiguity of
  indexes is therefore a separate invariant here
  (`HashChainLog.Numbered`), kept by every append.
- **The anchor info** of the local mode carries `hash`, not `chain_hash`.
  The non-local mode is named `eth`. `find_anchor` returns None in every
  mode but `local`, with no separate "unsupported" answer.
- **`_mine`** has no attempt bound in the code. See "Left out".

The block preimage `f"{index}|{timestamp}|{prev_hash}|{data}|{nonce}"` does
not delimit its fields unambiguously. `LocalChain.PreimageIsAmbiguous`
exhibits two different blocks with the same preimage. The chain's own hashes
(hex text) never contain `|`, so this matters only for `data` or
`timestamp` values that do.

## Model

| member | source | states |
|---|---|---|
| PyRuntime.Lookup | app/services/ledger_service.py:191-193 | `d.get(k)` is Some exactly when `k` is a key, and then it is the key's value |
| PyRuntime.Subscript | app/services/ledger_service.py:128-129 | `v[k]` succeeds exactly on a dict holding `k`; a dict without it raises KeyError(k) |
| PyRuntime.IntOf | app/services/ledger_service.py:129 | `int()` of an integer is itself; of null, a list or a dict it raises TypeError |
| PyRuntime.PlusOne | app/blockchain/localchain.py:287 | `v + 1` is defined exactly on integers and booleans, and adds one to an integer |
| PyRuntime.IntToDecimal | app/blockchain/localchain.py:276 | `str(n)` is non-empty, all digits for `n >= 0`, and starts with `-` for `n < 0` |
| PyRuntime.PyStr | app/services/events_ledger_service.py:239 | `str()` of a string is the string itself |
| PyRuntime.PyTail | app/services/events_ledger_service.py:343 | `s[-limit:]` is a suffix of `s`: of length `min(limit, len s)` for a positive limit, all of `s` for 0, `len s + limit` (at least 0) for a negative one |
| PyRuntime.File.constructor | app/services/ledger_service.py:96-97 | a file holds exactly the lines it is opened with |
| PyRuntime.File.AppendLine | app/services/ledger_service.py:145-146 | an append in mode "a" adds exactly one line after the old ones |
| PyRuntime.File.Overwrite | app/blockchain/localchain.py:189-190 | a write in mode "w" leaves exactly the one line written |
| HashChainLog.Seal | app/services/ledger_service.py:141-142 | the record has the base's keys plus `record_hash`; without it, it is the base; its stored hash is the hash of the rest |
| HashChainLog.LastParsedAt | app/services/ledger_service.py:98-106 | the last record read is the last line that parses, whatever blank or malformed lines follow it |
| HashChainLog.LastParsedNone | app/services/events_ledger_service.py:200-213 | there is no last record exactly when no line parses |
| HashChainLog.ReadLastRecord | app/services/events_ledger_service.py:200-213 | the backward scan returns the last parseable line's value, or None |
| HashChainLog.NextLink | app/services/ledger_service.py:126-132 | with no (or a falsy) last record: index 0 and `GENESIS`; otherwise `prev_hash` is `last["record_hash"]` and the index is `int(last["index"]) + 1`, and a missing key or a bad index raises |
| HashChainLog.WalkHalted | app/services/ledger_service.py:187-196 | once the loop has returned, later lines change nothing |
| HashChainLog.WalkAppend | app/services/ledger_service.py:180-199 | verifying a concatenation is verifying the second part from where the first ended |
| HashChainLog.HaltsAt | app/services/ledger_service.py:185-196 | the loop's answer is fixed at the first line that stops it |
| HashChainLog.RunningPrefix | app/services/ledger_service.py:180-199 | a ledger that passes has every prefix passing |
| HashChainLog.VerifyLedger | app/services/ledger_service.py:168-201 | the loop returns the fold of the step over the lines, and `(True, 0)` on an empty file |
| HashChainLog.PrevHashSurvivesSealRemoval | app/services/ledger_service.py:192-193 | removing `record_hash` keeps `prev_hash` |
| HashChainLog.ChainedSnoc | app/services/ledger_service.py:193-198 | a chain extended by one record is a chain exactly when the record is sealed and links to the expected hash |
| HashChainLog.WalkMatchesChain | app/services/events_ledger_service.py:313-337 | the loop is still running exactly when every non-blank line is a record and they form a chain, and it has then counted them |
| HashChainLog.VerifiedIffChained | app/services/events_ledger_service.py:309-337 | verification returns `(True, n)` exactly when the records form a hash chain from `GENESIS`, with `n` their number |
| HashChainLog.BlankLinesIgnored | app/services/events_ledger_service.py:318-320 | inserting a blank line anywhere does not change the verdict |
| HashChainLog.MalformedLineStops | app/services/events_ledger_service.py:321-324 | a line that does not parse after a verified prefix of `n` records returns `(False, n)`, whatever follows |
| HashChainLog.FailureCountsVerifiedPrefix | app/services/ledger_service.py:185-196 | `(False, n)` means some line stops the walk and the lines before it verify as `(True, n)` |
| HashChainLog.RunningTracksLast | app/services/ledger_service.py:198 | while verifying, the expected `prev` is the `record_hash` of the last record read, or `GENESIS` before any |
| HashChainLog.AppendKeepsVerified | app/services/ledger_service.py:126-146 | appending a sealed record linked to the last record turns `(True, n)` into `(True, n + 1)` |
| HashChainLog.RunningCountsParsed | app/services/ledger_service.py:198-199 | a passing verification counts every line that parses |
| HashChainLog.TamperingIsDetected | app/services/ledger_service.py:190-196 | changing only the stored hash of record `i`, or (collision-free hash) only its content, makes verification return `(False, i)` |
| HashChainLog.NumberedNextIndex | app/services/ledger_service.py:126-132 | on a ledger whose indexes follow positions, linking succeeds and gives the number of records |
| HashChainLog.AppendKeepsNumbered | app/services/ledger_service.py:134-146 | appending a record whose index is the number of records keeps indexes contiguous from 0 |
| EvidenceLedger.AppendLedger | app/services/ledger_service.py:110-165 | returns the linked, sealed record (or the exception of linking, then nothing changes); on success the ledger gains exactly that line, and the chain and anchors log change only as anchoring says |
| EvidenceLedger.EvidenceRecordShape | app/services/ledger_service.py:126-142 | the record has exactly the six fields, carries the caller's id and digest and `timestamp + "Z"`, is sealed, and links to the sentinel or to the last record's hash |
| EvidenceLedger.AppendLedgerKeepsVerified | app/services/ledger_service.py:126-146 | an append turns a ledger verifying as `(True, n)` into one verifying as `(True, n + 1)` |
| EvidenceLedger.AppendLedgerKeepsNumbered | app/services/ledger_service.py:126-142 | on a numbered ledger the append cannot fail, takes the next index, and keeps the ledger numbered |
| EvidenceLedger.FirstEvidenceRecord | app/services/ledger_service.py:130-132 | the first record has index 0 and `prev_hash` `GENESIS`, and the one-record ledger verifies as `(True, 1)` |
| LedgerAppend.AnchorsAlwaysLogged | app/services/ledger_service.py:148-159 | every anchor `maybe_anchor` reports is written to the anchors log |
| LedgerAppend.WriteAndAnchor | app/services/events_ledger_service.py:289-305 | the ledger gains exactly the record's line; the chain is as anchoring leaves it; the anchors log gains one entry exactly when the anchor info is a non-empty dict |
| EventsLedger.AppendEventLedger | app/services/events_ledger_service.py:263-307 | returns the linked, sealed record with the event's fingerprint (or the exception of linking or fingerprinting, then nothing changes); on success exactly one ledger line is added, and anchor entries are tagged `source: "event"` |
| EventsLedger.BuildEventRecord | app/services/events_ledger_service.py:269-287 | given the last parsed record, returns the record `NextEventRecord` describes, and a sealed record always has a numeric `index` and a string `record_hash` |
| EventsLedger.EventRecordShape | app/services/events_ledger_service.py:269-287 | the record has exactly the six fields, the event's id and fingerprint, `timestamp + "Z"`, and is sealed |
| EventsLedger.AppendEventKeepsVerified | app/services/events_ledger_service.py:269-290 | an event append turns `(True, n)` into `(True, n + 1)` |
| EventsLedger.AppendEventKeepsNumbered | app/services/events_ledger_service.py:269-287 | on a numbered ledger the append fails exactly when fingerprinting does, takes the next index, and keeps the ledger numbered |
| EventsLedger.SameCoreSameFingerprint | app/services/events_ledger_service.py:277-283 | two appends of events that agree on the core fields record the same fingerprint and event id |
| EventsLedger.ParsedValues | app/services/events_ledger_service.py:344-353 | the kept values are as many as the lines that parse |
| EventsLedger.ParsedValuesAreParsedLines | app/services/events_ledger_service.py:344-353 | a value is kept exactly when some line of the window parses to it |
| EventsLedger.Tail | app/services/events_ledger_service.py:339-353 | `tail(limit)` is the parsed values, in order, of the last `limit` lines; at most `limit` of them and at most the file's length |
| EventsLedger.TailOfVerifiedLedger | app/services/events_ledger_service.py:339-353 | over a whole ledger verifying as `(True, n)`, `tail` returns `n` records |
| Fingerprint.Or | app/services/events_ledger_service.py:233-234 | `a or b` is one of its operands |
| Fingerprint.ToIso | app/services/events_ledger_service.py:215-226 | `_to_iso` gives None exactly for None, a string unchanged, and an ObjectId as its hex text |
| Fingerprint.ToIsoNormalisesToUtc | app/services/events_ledger_service.py:218-224 | a naive datetime renders as the same wall time in UTC; a date as midnight UTC of that day |
| Fingerprint.ImagesPermute | app/services/events_ledger_service.py:239 | rearranging the beneficiaries rearranges their `str()` images the same way |
| Fingerprint.BeneficiaryStringsOfList | app/services/events_ledger_service.py:234-239 | a list of beneficiaries contributes the `str()` of each item, in order |
| Fingerprint.FingerprintFailures | app/services/events_ledger_service.py:233-258 | a truthy non-dict `gps` raises AttributeError; otherwise fingerprinting fails exactly when `float()` of a coordinate fails or a copied field is not JSON (TypeError) |
| Fingerprint.CoreFromContents | app/services/events_ledger_service.py:243-257 | the core holds the ten fields: id, copied fields, coordinates, timestamp (null exactly without one), beneficiary strings |
| Fingerprint.CoreContents | app/services/events_ledger_service.py:241-257 | a document's core carries its event id, its copied fields unchanged, its coordinates, a null timestamp exactly when it has none, and its beneficiary strings sorted |
| Fingerprint.FingerprintReadsOnlyCoreFields | app/services/events_ledger_service.py:228-258 | documents that agree on the eleven fields read get the same fingerprint (or the same exception) |
| Fingerprint.FingerprintIgnoresBeneficiaryOrder | app/services/events_ledger_service.py:234-256 | beneficiaries whose strings are the same multiset give the same fingerprint |
| Fingerprint.BeneficiaryListOrderIrrelevant | app/services/events_ledger_service.py:236-239 | any permutation of a beneficiary list gives the same fingerprint |
| Fingerprint.NaiveTimestampIsUtc | app/services/events_ledger_service.py:219-222 | a naive timestamp fingerprints like the same wall time at UTC |
| Fingerprint.FingerprintReadsOnlyCoreFieldsExceptTimestamp | app/services/events_ledger_service.py:243-257 | documents that agree on the other core fields and whose timestamps render alike get the same fingerprint |
| Fingerprint.FingerprintSeparatesCores | app/services/events_ledger_service.py:258 | with a collision-free hash, different cores give different fingerprints |
| Sorting.StrLeTotal | app/services/events_ledger_service.py:239 | any two strings are ordered one way or the other |
| Sorting.StrLeAntisymmetric | app/services/events_ledger_service.py:239 | strings ordered both ways are equal |
| Sorting.StrLeTransitive | app/services/events_ledger_service.py:239 | the string order is transitive |
| Sorting.Insert | app/services/events_ledger_service.py:239 | inserting into a sorted list keeps it sorted and adds exactly that element |
| Sorting.Sort | app/services/events_ledger_service.py:239 | `sorted()` returns a sorted permutation of its input |
| Sorting.SortedUnique | app/services/events_ledger_service.py:239 | two sorted permutations of the same strings are equal |
| Sorting.SortIgnoresOrder | app/services/events_ledger_service.py:239 | `sorted()` of two permutations of each other gives the same list |
| Sorting.SortedElements | app/services/events_ledger_service.py:236-239 | the keys of a dict, listed, are a sorted list holding each key once |
| LocalChain.PreimageIsAmbiguous | app/blockchain/localchain.py:255 | two blocks with different `prev_hash` and `data` share the same `|`-joined preimage |
| LocalChain.TargetPrefix | app/blockchain/localchain.py:167-168 | the prefix is `max(1, difficulty)` zeros |
| LocalChain.LeadingZerosAtLeast | app/blockchain/localchain.py:146 | a hash has at least `k` leading zeros exactly when its first `k` characters are `0` |
| LocalChain.MeetsTargetIffLeadingZeros | app/blockchain/localchain.py:265 | a hash starts with the prefix exactly when it has at least `max(1, difficulty)` leading zeros |
| LocalChain.Repaired | app/blockchain/localchain.py:170-215 | after `ensure_genesis` the file is non-empty and its first line parses |
| LocalChain.RepairWritesGenesis | app/blockchain/localchain.py:178-211 | a missing, empty or badly-started file becomes the single genesis block: index 0, `GENESIS` as prev and data, nonce 0, hash of the preimage |
| LocalChain.EnsureGenesisIdempotent | app/blockchain/localchain.py:193-215 | a file whose first line parses is left unchanged, so a second call changes nothing |
| LocalChain.EnsureGenesis | app/blockchain/localchain.py:170-215 | the file becomes the repaired file and the result is its first line |
| LocalChain.LastNonBlankAt | app/blockchain/localchain.py:227-229 | the last line read is the last non-blank one |
| LocalChain.LastNonBlankNone | app/blockchain/localchain.py:222-230 | there is none exactly when every line is blank |
| LocalChain.LastLine | app/blockchain/localchain.py:217-230 | the backward scan returns the last non-blank line |
| LocalChain.TipIsLastNonBlankLine | app/blockchain/localchain.py:232-240 | the tip is the last non-blank line's value, or None when that line is malformed, with no search further back |
| LocalChain.GetTip | app/blockchain/localchain.py:232-240 | repairs the chain, then returns the tip of the repaired file |
| LocalChain.BlockFields | app/blockchain/localchain.py:255 | the five fields are read exactly when the block is a dict holding all of them |
| LocalChain.ChainWalkHalted | app/blockchain/localchain.py:250-266 | once `verify_chain` has returned, later lines change nothing |
| LocalChain.ChainWalkAppend | app/blockchain/localchain.py:247-269 | checking a concatenation is checking the second part from where the first ended |
| LocalChain.ChainHaltsAt | app/blockchain/localchain.py:250-266 | the answer is fixed at the first line that stops the loop |
| LocalChain.VerifyChain | app/blockchain/localchain.py:242-243 | repairs the chain (`ensure_genesis`), then returns what the loop returns on the repaired lines |
| LocalChain.WalkChain | app/blockchain/localchain.py:244-269 | the loop returns the verdict of the left fold of the step over the lines: `(True, count)` when every line passes, otherwise the first failing line's `(False, count)` or exception |
| LocalChain.CheckBlockLine | app/blockchain/localchain.py:250-267 | one pass of the loop agrees with the step function on every line and state |
| LocalChain.HashMismatchRejected | app/blockchain/localchain.py:255-258 | any block, of whatever shape, whose stored `hash` differs from the hash of its five fields stops the check with `(False, cnt)`, whatever follows |
| LocalChain.PowChainedSnoc | app/blockchain/localchain.py:259-268 | a chain extended by one block is a proof-of-work chain exactly when the old one is and the block is accepted after the old last block's hash |
| LocalChain.StepOnParsedLine | app/blockchain/localchain.py:253-268 | on any parsed line, one pass keeps scanning exactly when the block is accepted after the expected hash (hash recomputes; index 0 links to `GENESIS`; otherwise links to the previous hash and meets the target), and then counts it and expects its hash |
| LocalChain.ChainWalkMatchesPowChain | app/blockchain/localchain.py:244-269 | the loop is still scanning exactly when every non-blank line parses and the blocks form a proof-of-work chain, having counted them and expecting the last block's stored hash |
| LocalChain.ChainVerifiedIffPowChained | app/blockchain/localchain.py:242-269 | `verify_chain`'s loop gives `(True, n)` exactly when every non-blank line parses and the `n` blocks form a proof-of-work chain (both directions) |
| LocalChain.VerifiedChainMeetsDifficulty | app/blockchain/localchain.py:263-267 | on a chain that verifies as `(True, n)` there are `n` blocks, each storing the hash of its fields, and every block other than an index-0 block has at least `max(1, difficulty)` leading zeros |
| LocalChain.StepOnSelfConsistentBlock | app/blockchain/localchain.py:255-268 | a block whose hash matches needs `GENESIS` as prev if its index is 0; otherwise it needs the expected prev and the prefix |
| LocalChain.ChainWalkSnoc | app/blockchain/localchain.py:248-268 | checking one more line is one more loop step |
| LocalChain.GenesisChainVerifies | app/blockchain/localchain.py:178-191 | a chain holding just the genesis block verifies as `(True, 1)` at any difficulty |
| LocalChain.ScanningTracksTip | app/blockchain/localchain.py:267 | while the check runs, the expected prev is the tip's `hash` (or `GENESIS` on a chain with no non-blank line) |
| LocalChain.MalformedBlockLineRejected | app/blockchain/localchain.py:251-254 | a line that does not parse returns `(False, cnt)` with the blocks before it counted |
| LocalChain.UnderTargetBlockRejected | app/blockchain/localchain.py:262-266 | a block that is not genesis, is linked and self-consistent, but misses the target gets `(False, cnt)` |
| LocalChain.ChainLink | app/blockchain/localchain.py:286-288 | with no (or a falsy) tip: index 1 on `GENESIS`; otherwise `tip["index"] + 1` on `tip["hash"]`, and a missing key or bad index raises |
| LocalChain.MinedIsFirstHit | app/blockchain/localchain.py:273-280 | the mined block is the attempt at its nonce, meets the target, and no earlier nonce did |
| LocalChain.MinedWithinBound | app/blockchain/localchain.py:274-280 | a successful search stops below the attempt bound |
| LocalChain.MiningExhaustedMeansNoHit | app/blockchain/localchain.py:274-280 | the search gives up only when no attempt within the bound meets the target |
| LocalChain.Mine | app/blockchain/localchain.py:271-282 | returns the first attempt from nonce 0 whose hash meets the target, with the given index, prev and data |
| LocalChain.AddBlock | app/blockchain/localchain.py:284-292 | repairs, links to the tip, mines, and appends exactly the mined block |
| LocalChain.AddBlockKeepsChainVerified | app/blockchain/localchain.py:284-292 | adding a block to a chain verifying as `(True, n)` gives `(True, n + 1)` |
| LocalChain.FirstWithDataAt | app/blockchain/localchain.py:296-305 | the first block from the start whose `data` matches is returned |
| LocalChain.FirstWithDataNone | app/blockchain/localchain.py:294-306 | None exactly when no line holds a matching block |
| LocalChain.AppendedBlockIsFound | app/blockchain/localchain.py:290-305 | a newly appended block whose data no earlier block has is the one `find_by_data` returns |
| LocalChain.FindByData | app/blockchain/localchain.py:294-306 | repairs the chain, then returns the first matching block of the repaired file |
| BlockchainService.Lower | app/services/blockchain_service.py:35 | `lower()` maps each character and keeps the length |
| BlockchainService.LeadingSpaces | app/services/blockchain_service.py:35 | `strip()` removes exactly the leading whitespace run |
| BlockchainService.KeptLength | app/services/blockchain_service.py:35 | `strip()` removes exactly the trailing whitespace run |
| BlockchainService.NormalizeIsCanonical | app/services/blockchain_service.py:35 | the normalised mode has no surrounding whitespace and no upper case, and normalising again changes nothing |
| BlockchainService.NormalizeExample | app/services/blockchain_service.py:60 | `" Local\n"` selects the local mode |
| BlockchainService.MaybeAnchor | app/services/blockchain_service.py:34-57 | returns the anchor info and leaves the chain exactly as the mode dispatch specifies; nothing is raised |
| BlockchainService.AnchorOnlyWhenEnabled | app/services/blockchain_service.py:36-57 | only `local` touches the chain; `off`, unknown modes and unconfigured `eth` return None |
| BlockchainService.AnchorInfoHasMode | app/services/blockchain_service.py:41-52 | every anchor info has a `mode`; the local one is exactly `{mode: "local", height, hash}` |
| BlockchainService.DefaultsDisableAnchoring | app/config.py:59-60 | with the default settings nothing is anchored and the chain is untouched |
| BlockchainService.LocalAnchorDescribesMinedBlock | app/services/blockchain_service.py:38-45 | a local anchor reports the block appended to the repaired chain, which carries the record hash as data and meets the target |
| BlockchainService.AnchoredHashIsFound | app/services/blockchain_service.py:72-77 | after a local anchor, `find_anchor` of the record hash returns the block whose hash was reported |
| BlockchainService.AnchoringKeepsChainVerified | app/services/blockchain_service.py:38-41 | anchoring on a chain verifying as `(True, n)` gives `(True, n + 1)` |
| BlockchainService.Status | app/services/blockchain_service.py:59-70 | returns what the mode dispatch specifies and leaves the chain as it specifies |
| BlockchainService.StatusOfVerifiedChain | app/services/blockchain_service.py:62-65 | on a verified local chain, status reports ok, a positive height and the hash the check ended on |
| BlockchainService.LocalStatusReportsVerifyCount | app/services/blockchain_service.py:62-65 | local status reports `verify_chain`'s verdict and count (not the tip index) |
| BlockchainService.StatusOutsideLocalMode | app/services/blockchain_service.py:66-69 | outside local mode status never raises nor touches the chain; it reports `configured` for `eth` and the note otherwise |
| BlockchainService.FindAnchor | app/services/blockchain_service.py:72-77 | returns what the mode dispatch specifies |
| BlockchainService.FindAnchorOnlyInLocalMode | app/services/blockchain_service.py:74-77 | outside local mode nothing is found and nothing changes |
| BlockchainService.LoadAll | app/services/blockchain_service.py:87 | parsing all lines succeeds exactly when every line parses, keeping each value in order; otherwise ValueError |
| BlockchainService.ChainTail | app/services/blockchain_service.py:79-87 | returns the last `limit` lines parsed, at most `limit` and at most the file's length |
| BlockchainService.Verify | app/services/blockchain_service.py:89-91 | repairs the chain and returns `{ok, height}` from `verify_chain` (or its exception) |

## Left out

- File-system I/O is not modelled: directory creation, existence and size checks, and I/O errors. A missing file and an empty file both read as no lines. A file whose last line lacks its newline is not modelled, so appends always start a fresh line.
- Real SHA-256, JSON serialisation and parsing, `float()` and ISO formatting are not modelled; they are uninterpreted fields of `Builtins`. JSON numbers are integers only, so a float stored in a record is not represented.
- Nested values inside a document's JSON fields are JSON only. Only top-level document fields may be datetimes, dates or ObjectIds.
- `str.lower()` is modelled on ASCII letters only.
- Dict insertion order is not represented: a JSON object is a `map`. Canonical JSON (`sort_keys=True`) does not depend on it, but Python's `str()` of a dict does. `str()` of a dict reaches a hash in three places: a dict inside `beneficiary_ids` (app/services/events_ledger_service.py:239), a dict `timestamp` (app/services/events_ledger_service.py:226), and a dict field of a block read back from the chain file in the preimage (app/blockchain/localchain.py:255). There `B.containerStr` sees only the entries. So two dicts with the same entries in a different order get the same string in the model, and different strings in Python. For such values, `Fingerprint.FingerprintReadsOnlyCoreFields`, `Fingerprint.FingerprintIgnoresBeneficiaryOrder` and `LocalChain.BlockHash` treat as equal inputs that Python hashes differently.
- The `print` logging of swallowed exceptions is left out.
- Python's broad `except Exception` in `maybe_anchor` is modelled as: every failure of the local or Ethereum path yields None.
- Concurrency is not modelled: two writers interleaving read-last/append, and the non-atomic append. The `BackgroundTasks` caller is out of scope.
- The internals of the Ethereum client (web3, signing, network) are not modelled. It is a configured flag plus a partial function from record hash to transaction dict.
- `time.sleep` every 20000 attempts in `_mine` has no effect on results, and is left out.
- LocalChain.Mine: does not model the unbounded `while True`. The search is bounded by `Clock.attemptLimit` and fails with `MiningExhausted` past it, where the code would spin forever. `maybe_anchor` then reports no anchor.
- LocalChain.AddBlockKeepsChainVerified: holds only when the new block's index is not 0. A tip with index -1 produces a block the verifier holds to the sentinel.
- BlockchainService.ChainTail: a missing chain file is modelled as an empty one. Both give `[]`.
