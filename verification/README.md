# Placement Observatory: a verified model

Placement Observatory collects evidence about where work was placed and why: sources report
observations, decisions and outcomes over a framed network protocol; the observatory accepts or
rejects them under source-generation, worker-boot and coordinator-epoch authority, logs them
append-only with secondary indexes, persists them as checksummed records, and ranks, replays and
perturbs recorded decisions. This project models that program in Dafny and proves what it promises.

## How it is built

Each stateful part of the program is an object or a loop proved equal to a function of its inputs or
of its old state; the results are then lemmas about those functions.

- `Crc.dfy`, `Protocol.dfy`: the checksum against polynomial division (IEEE 802.3 section 3.2.9, the
  same code as RFC 1952 section 8), the frame encoder and decoder, and reception from a byte stream
  cut into arbitrary reads. `Bits.dfy` and `Bytes.dfy` hold bit lists and little-endian numbers.
- `Sha256.dfy`: the streaming hash against FIPS 180-4 (sections 4.1.2, 4.2.2, 5.1.1, 6.2.2).
  `Fips180.dfy` says what its constants, bit functions, schedule and rounds are: roots of primes,
  parities of bits and the recurrences of the standard.
- `Model.dfy`, `Serialize.dfy`, `Records.dfy`, `RecordIO.dfy`, `RecordLog.dfy`: the records, the
  binary codec as functions and as writer and reader objects, and the record log. Two clock
  uncertainties are never written; a record without them is called erased, and round trips are to
  the erased record. `Rewritten` lemmas show erasing changes no encoding. `RecordLayout.dfy` states
  the format itself, byte by byte: every record as its fields in order, the record envelope, the
  frame, a saved file, and the faults.
- `Store.dfy`, `Runs.dfy`: the abstract state of the observatory, each call as one atomic step, and
  runs of calls. `Indexes.dfy`, `AuthorityLaws.dfy`, `Accounting.dfy` and `Persistence.dfy` prove what
  every run keeps; `RecoveredAuthority.dfy` and `RecoveredRecords.dfy` say exactly when recovery keeps
  it too; `RecoveredOrder.dfy` does so for runs that recover from arbitrary files. `Capacity.dfy` and
  `Oversized.dfy` say what a saved file gives back of a store with entries larger than the reader
  takes, and `Restarts.dfy` follows a collector through any number of restarts. `Observatory.dfy` is
  the object itself. `Admission.dfy` says on numbers and fields which observations, decisions and
  outcomes are accepted, why others are not, and what each changes; `RecoveryReport.dfy` does so for
  each record recovered, `Queries.dfy` for what a query returns.
- `Server.dfy`, `Pool.dfy`: serving one connection, and any number of them under any schedule.
  `Requests.dfy` goes from the bytes of a frame to the change of the store and the answer.
- `Ranking.dfy`, `RankingLaws.dfy`, `Counterfactual.dfy`: ranking, its laws, what-if and replay, over
  exact real costs. `Totals.dfy` says what a weighted total is and what a weight does to totals and
  order; `RankingReport.dfy` and `CounterfactualReport.dfy` say what a ranking, a what-if and a replay
  report, in terms of the candidates, the rules and the texts of the changes. `Sequences.dfy` and
  `Sorting.dfy` hold filtering, mapping and stable sorting.
- `Json.dfy`, `JsonLaws.dfy`, `JsonIO.dfy`: printing, strict parsing and the canonical form.
  `JsonGrammar.dfy` states the grammar (RFC 8259 sections 2 to 7) as a relation between texts and
  values and proves the parser accepts exactly that; `JsonTexts.dfy` says exactly when two values
  have the same text. `CanonicalOrder.dfy` says in which order canonical text lists keys, and
  `JsonLayout.dfy` what the printed text looks like. `Decimal.dfy` holds decimal notation.

## Where the code decides otherwise than one would expect

- A late rejection (stale epoch, bad field value) comes after authority has been taken over.
  `AuthorityLaws.RejectionMovesAuthority` says exactly when a rejected observation moves authority;
  `LateRejectionWitness` is such an observation.
- Recovery restores a worker boot only with a generation that no descriptor has already made known.
  `RecoveredAuthority.RecoveryKeepsAuthority` gives the exact condition under which one boot per
  generation survives recovery. `Restarts.LostBootWitness` is a run that loses it: registered at
  generation 5, heard from boot 7, saved, recovered, and then heard from boot 9.
- Numeric constraints throw on doubles and negative integers; `Ranking.ScreenIsSurvival` says when.
  So the order of the constraints can decide whether a ranking throws
  (`RankingLaws.SwappedRulesThrow`); `RankingLaws.EveryOrderRanks` says when it cannot.
- A what-if change without an address applies to every candidate, where a comment
  (`src/compute.cpp:296`) speaks of the first match (`CounterfactualReport.TargetIs`).
- The header documents bounded event retention; the bound is never read, so the model has none.
- The JSON parser skips vertical tab and form feed too (RFC 8259 section 2 does not list them),
  keeps repeated keys, and encodes lone surrogates (`JsonTexts.VerticalTabIsSkipped`,
  `RepeatedKeyIsKept`, `LoneSurrogateIsEncoded`).
- Recovering accepts decisions whose attempt is already on record
  (`Restarts.DoubledAttemptIsRecovered`), outcomes of another attempt (`MisfiledOutcomeIsRecovered`),
  evidence no ingest would take, counting none of it as events (`UnsoundEvidenceIsRecovered`), and
  generations out of order (`RecoveredOrder.DisorderIsRecovered`). The `Exactly` results of
  `RecoveredRecords` and `RecoveredOrder` say for which files links, soundness, accounting and
  authority survive; `Restarts.LivesKeep` that files the collector wrote itself are among them as far
  as records go.
- An entry larger than the cap of a body is written but never read back, nor is anything behind it
  (`Oversized.SaveThenRecoverExactly`, `HugeSourceIsLost`).
- The selection of a ranking is nil also when a best survivor carries the nil id
  (`RankingLaws.SelectedIsBest`, `NilIsSelected`).
- A double that is negative zero is printed as `-0` and read back as the integer zero, so its
  canonical text is not stable (`JsonLaws.CanonicalTextIsStable`, `JsonLaws.NegativeZeroWitness`).
  `JsonTexts.SameTextExactly` says when two values have the same text all the same.

## Model

Sources are paths of the repository with line ranges.

| member | source | states |
|---|---|---|
| `Crc.DivisionIdentity` | src/protocol.cpp:10-24 | `Remainder` and `Quotient` are division of polynomials over GF(2): dividend = quotient times generator plus remainder |
| `Crc.LfsrDivides` | src/protocol.cpp:10-24 | the reflected shift register started at `c` computes the remainder of the bits with `c` added at the front |
| `Crc.ChecksumIsFrameCheckSequence` | src/protocol.cpp:10-24 | register checksum from all ones, complemented, equals the frame check sequence of IEEE 802.3 section 3.2.9 (long division, complemented head and remainder) |
| `Crc.LfsrXor` | src/protocol.cpp:14-22 | the register is linear: the xor of two runs is the run of the xors |
| `Crc.ByteStep` | src/protocol.cpp:19-22 | one table step (entry for low byte xor input, xor shifted register) equals eight bit steps, for every register and byte |
| `Crc.StepInjective` | src/protocol.cpp:14-16 | two registers that agree after a step on the same bit agreed before it |
| `Crc.LfsrInjective` | src/protocol.cpp:19-22 | no run over the same bits makes different registers equal |
| `Crc.BurstChangesRegister` | src/protocol.cpp:19-22 | two bit streams that differ only inside a window of at most 32 bits leave different registers, whatever precedes and follows |
| `Crc.ResidueCharacterizes` | src/protocol.cpp:41-53 | a trailer appended to a register leaves the constant residue if and only if it is the register's own checksum |
| `Crc.PolyIsGenerator` | src/protocol.cpp:14-16 | the reflected constant used in the table loop is the bit-reversed generator polynomial of the standard |
| `Crc.TableEntry` | src/protocol.cpp:13-17 | the eight-step loop for one index yields eight register steps on that byte |
| `Crc.BuildTable` | src/protocol.cpp:13-17 | every one of the 256 entries is eight register steps of its index |
| `Crc.Crc32` | src/protocol.cpp:10-24 | for every byte string the table-driven loop returns the number of the frame check sequence by polynomial long division |
| `Protocol.PutU32` | src/protocol.cpp:31-34 | appends four bytes, low byte first |
| `Protocol.ReadU32OfLE` | src/protocol.cpp:27-30 | reading four bytes gives `x` if and only if they are the little-endian form of `x` |
| `Protocol.EncodeFrame` | src/protocol.cpp:41-53 | refuses an oversized payload, then an invalid type; otherwise returns exactly the wire form for the given version |
| `Protocol.DecodeCharacterized` | src/protocol.cpp:55-74 | decoding yields frame `f` and `n` consumed bytes if and only if `f` is valid and the first `n` bytes are its wire form, whatever follows |
| `Protocol.DecodeSound` | src/protocol.cpp:55-74 | an accepted buffer begins with the wire form of the frame returned |
| `Protocol.DecodeComplete` | src/protocol.cpp:41-74 | every valid frame's wire form, followed by any bytes, decodes to that frame and its length |
| `Protocol.DecodeFrame` | src/protocol.cpp:55-74 | out-parameters and error agree with the decoding function; the error named is the first failed check |
| `Protocol.WireResidue` | src/protocol.cpp:41-53 | data followed by its checksum always leaves the same register residue |
| `Protocol.BurstRejected` | src/protocol.cpp:41-74 | any change confined to 32 consecutive bits of a frame, straddling payload and trailer or not, that leaves the length field alone is rejected |
| `Protocol.FourByteDamageRejected` | src/protocol.cpp:41-74 | any change confined to 4 consecutive bytes outside the length field makes decoding fail, whatever follows the frame |
| `Protocol.Socket.Recv` | src/protocol.cpp:106-117 | one read: any non-empty piece up to the size asked for, nothing only at the end of the stream |
| `Protocol.Socket.RecvExact` | src/protocol.cpp:106-117 | under every chunking succeeds exactly when enough bytes come, and then delivers exactly the next `n` |
| `Protocol.RecvFrame` | src/protocol.cpp:176-200 | under every chunking succeeds exactly when the buffer decoder accepts the same stream, with the same frame, and leaves the stream just behind it |
| `Protocol.FramesOfWireAll` | src/protocol.cpp:176-200 | any concatenation of encoded frames followed by an undecodable rest is received as exactly that frame sequence |
| `Sha256.PaddingIsStandard` | include/placement_observatory/util/hash.hpp:33-41 | the padding of the loop is a one bit, the least number of zeros that aligns, and the 64-bit length, as in FIPS 180-4 section 5.1.1 |
| `Sha256.PadInjective` | include/placement_observatory/util/hash.hpp:33-41 | different messages below 2^61 bytes have different padded forms |
| `Sha256.HashBlocksAppend` | include/placement_observatory/util/hash.hpp:61-91 | hashing block by block extends: appending a block compresses once more |
| `Sha256.Sha256.constructor` | include/placement_observatory/util/hash.hpp:15-21 | a new object has absorbed nothing and holds the initial hash value |
| `Sha256.Sha256.Process` | include/placement_observatory/util/hash.hpp:61-91 | compresses the buffered block into the state as FIPS 180-4 section 6.2.2 prescribes, schedule loop and round loop included |
| `Sha256.Sha256.ExpandSchedule` | include/placement_observatory/util/hash.hpp:71-79 | the in-place schedule array holds the message schedule of the block |
| `Sha256.Sha256.RunRounds` | include/placement_observatory/util/hash.hpp:80-89 | sixty-four register rotations compute the round function of the standard |
| `Sha256.Sha256.Update` | include/placement_observatory/util/hash.hpp:23-30 | after any update the object has absorbed the old message followed by the new bytes, whatever the buffer held |
| `Sha256.Sha256.PadZeros` | include/placement_observatory/util/hash.hpp:36-39 | the wrap-around loop terminates at offset 56 for every residue, having absorbed exactly the zeros of the standard padding |
| `Sha256.Sha256.PushLength` | include/placement_observatory/util/hash.hpp:34-41 | absorbs the bit length high byte first, which completes the last block |
| `Sha256.Sha256.Finish` | include/placement_observatory/util/hash.hpp:33-50 | returns the FIPS 180-4 digest of everything absorbed |
| `Sha256.DigestOf` | include/placement_observatory/util/hash.hpp:52-57 | one-shot digest of a byte string equals the standard digest |
| `Sha256.DigestInParts` | include/placement_observatory/util/hash.hpp:23-50 | for every way of splitting a message into updates the result is the digest of the concatenation |
| `Serialize.U8Reads` | include/placement_observatory/serialize.hpp:43-70 | what was written anywhere in a buffer is read back at that position, ending right behind it |
| `Serialize.U32Reads` | include/placement_observatory/serialize.hpp:45-72 | what was written anywhere in a buffer is read back at that position, ending right behind it |
| `Serialize.U64Reads` | include/placement_observatory/serialize.hpp:46-73 | what was written anywhere in a buffer is read back at that position, ending right behind it |
| `Serialize.I64Reads` | include/placement_observatory/serialize.hpp:47-74 | what was written anywhere in a buffer is read back at that position, ending right behind it |
| `Serialize.BoolReads` | include/placement_observatory/serialize.hpp:49-76 | what was written anywhere in a buffer is read back at that position, ending right behind it |
| `Serialize.StrReads` | include/placement_observatory/serialize.hpp:50-84 | a written string is read back to its end exactly when it is within the reader's cap |
| `Serialize.VecReads` | include/placement_observatory/serialize.hpp:150-159 | a vector reads back element by element if and only if every element does |
| `Serialize.VecRewritten` | include/placement_observatory/serialize.hpp:150-153 | erasing elements does not change the bytes of a vector if it does not change those of an element |
| `Serialize.OptionReads` | src/serialize.cpp:204-243 | a flagged optional reads back if and only if its content does |
| `Serialize.ValueReads` | src/serialize.cpp:11-33 | each alternative of the variant reads back as itself, the double as its bit pattern |
| `Serialize.ReasonMapReads` | src/serialize.cpp:282-325 | the ordered rejection map reads back entry by entry into the same map |
| `RecordIO.BinWriter.U8` | include/placement_observatory/serialize.hpp:43 | appends the encoding, leaving the buffer before it unchanged |
| `RecordIO.BinReader.U8` | include/placement_observatory/serialize.hpp:70 | returns what the position denotes and advances by its length, or reports what is wrong |
| `RecordIO.BinWriter.U32` | include/placement_observatory/serialize.hpp:45 | appends the encoding, leaving the buffer before it unchanged |
| `RecordIO.BinReader.U32` | include/placement_observatory/serialize.hpp:72 | returns what the position denotes and advances by its length, or reports what is wrong |
| `RecordIO.BinWriter.U64` | include/placement_observatory/serialize.hpp:46 | appends the encoding, leaving the buffer before it unchanged |
| `RecordIO.BinReader.U64` | include/placement_observatory/serialize.hpp:73 | returns what the position denotes and advances by its length, or reports what is wrong |
| `RecordIO.BinWriter.I64` | include/placement_observatory/serialize.hpp:47 | appends the encoding, leaving the buffer before it unchanged |
| `RecordIO.BinReader.I64` | include/placement_observatory/serialize.hpp:74 | returns what the position denotes and advances by its length, or reports what is wrong |
| `RecordIO.BinWriter.Bool` | include/placement_observatory/serialize.hpp:49 | appends the encoding, leaving the buffer before it unchanged |
| `RecordIO.BinReader.Bool` | include/placement_observatory/serialize.hpp:76 | returns what the position denotes and advances by its length, or reports what is wrong |
| `RecordIO.BinWriter.Str` | include/placement_observatory/serialize.hpp:50-55 | appends the encoding, leaving the buffer before it unchanged |
| `RecordIO.BinReader.Str` | include/placement_observatory/serialize.hpp:77-84 | returns what the position denotes and advances by its length, or reports what is wrong |
| `RecordIO.WriteValue` | src/serialize.cpp:11-19 | appends a kind byte and, but for the empty alternative, the content of that alternative |
| `RecordIO.ReadValue` | src/serialize.cpp:21-33 | dispatches on the kind byte; a byte above 5 is corrupt |
| `RecordIO.WriteProvenance` | src/serialize.cpp:35-43 | appends two ids, four enumeration bytes, wall and monotonic time with the clock's uncertainty, boot and epoch, three strings; not the uncertainty of the record itself |
| `RecordIO.ReadProvenance` | src/serialize.cpp:45-56 | reads the same fourteen fields; the uncertainty that is not written comes back as zero; stops at the first error |
| `RecordIO.WriteConfidence` | src/serialize.cpp:58-60 | appends class, the bit patterns of numerator and denominator, derivation |
| `RecordIO.ReadConfidence` | src/serialize.cpp:61-65 | reads the same four fields; stops at the first error |
| `RecordIO.WriteMeasurement` | src/serialize.cpp:66-69 | appends two field names, the typed value, its classification and its provenance |
| `RecordIO.ReadMeasurement` | src/serialize.cpp:70-76 | reads the same five parts, the value through its kind byte; stops at the first error |
| `RecordIO.WriteSourceDescriptor` | src/serialize.cpp:77-81 | appends id, generation, kind, name, reliability, endpoint, wall and monotonic time last seen, synthetic flag |
| `RecordIO.ReadSourceDescriptor` | src/serialize.cpp:82-87 | reads the same nine fields; the clock uncertainty, not written, comes back as zero; stops at the first error |
| `RecordIO.WriteQueueDescriptor` | src/serialize.cpp:129-132 | appends name, state, depth, three waiting times, capacity |
| `RecordIO.ReadQueueDescriptor` | src/serialize.cpp:133-137 | reads the same seven fields; stops at the first error |
| `RecordIO.WriteMemoryDescriptor` | src/serialize.cpp:138-140 | appends total, free and used bytes, pressure, the bit pattern of the pressure ratio |
| `RecordIO.ReadMemoryDescriptor` | src/serialize.cpp:141-144 | reads the same five fields, no string among them; stops at the first error |
| `RecordIO.WriteLocalityDescriptor` | src/serialize.cpp:154-157 | appends kind, state key, device, node, presence flag, the bit pattern of the benefit |
| `RecordIO.ReadLocalityDescriptor` | src/serialize.cpp:158-161 | reads the same six fields; stops at the first error |
| `RecordIO.WriteConstraint` | src/serialize.cpp:177-180 | appends class, kind, field name, typed value, requirement text, classification, provenance |
| `RecordIO.ReadConstraint` | src/serialize.cpp:181-185 | reads the same seven parts; stops at the first error |
| `RecordIO.WriteCostComponent` | src/serialize.cpp:186-189 | appends kind, title, the bit patterns of cost and weight, classification, provenance, detail |
| `RecordIO.ReadCostComponent` | src/serialize.cpp:190-194 | reads the same seven parts; stops at the first error |
| `RecordIO.WriteScoreComponent` | src/serialize.cpp:195-198 | appends kind, title, the bit pattern of the value, classification, provenance |
| `RecordIO.ReadScoreComponent` | src/serialize.cpp:199-203 | reads the same five parts; stops at the first error |
| `RecordIO.WriteCandidate` | src/serialize.cpp:204-217 | appends three ids, generation, architecture, the capability strings in a loop, health, memory, queue, the locality and cost vectors in loops, total, and two optional reasons behind their flags |
| `RecordIO.ReadCandidate` | src/serialize.cpp:218-230 | reads the same parts, a loop for each of the three vectors, the reasons if their flags are set; stops at the first error |
| `RecordIO.WriteCandidateSet` | src/serialize.cpp:231-236 | appends the candidates in a loop, two flags, classification, the source chain and the missing fields in loops |
| `RecordIO.ReadCandidateSet` | src/serialize.cpp:237-243 | reads the same parts, a loop for each of the three vectors; stops at the first error |
| `RecordIO.WriteOutcome` | src/serialize.cpp:244-248 | appends two ids, disposition, three durations, memory used, error text, classification, provenance |
| `RecordIO.ReadOutcome` | src/serialize.cpp:249-254 | reads the same ten parts; stops at the first error |
| `RecordIO.WriteObservation` | src/serialize.cpp:255-267 | appends twenty-one numbers and enumeration bytes, the measurements in a loop, reliability and synthetic flag |
| `RecordIO.ReadObservation` | src/serialize.cpp:268-281 | reads the same fields, a loop for the measurements; stops at the first error |
| `RecordIO.WriteDecision` | src/serialize.cpp:282-303 | appends twelve ids and generations, candidate set, selection, five vectors in loops, the tie break and two reasons, the rejection map in a loop, confidence, provenance, the optional outcome behind its flag, lifecycle |
| `RecordIO.ReadDecision` | src/serialize.cpp:304-325 | reads the same parts; the rejection map by repeated assignment, the outcome if its flag is set; stops at the first error |
| `Records.ProvenanceReads` | src/serialize.cpp:35-56 | the encoding, wherever it lies and whatever follows, reads back as the erased record, ending right behind it, if and only if all its strings are within the cap |
| `Records.ConfidenceReads` | src/serialize.cpp:58-65 | the encoding, wherever it lies and whatever follows, reads back as the erased record, ending right behind it, if and only if all its strings are within the cap |
| `Records.MeasurementReads` | src/serialize.cpp:66-76 | the encoding, wherever it lies and whatever follows, reads back as the erased record, ending right behind it, if and only if all its strings are within the cap |
| `Records.SourceDescriptorReads` | src/serialize.cpp:77-87 | the encoding, wherever it lies and whatever follows, reads back as the erased record, ending right behind it, if and only if all its strings are within the cap |
| `Records.QueueDescriptorReads` | src/serialize.cpp:129-137 | the encoding, wherever it lies and whatever follows, reads back as the record, ending right behind it, if and only if its strings are within the cap |
| `Records.MemoryDescriptorReads` | src/serialize.cpp:138-144 | the encoding, wherever it lies and whatever follows, reads back as the record, ending right behind it, if and only if its strings are within the cap |
| `Records.LocalityDescriptorReads` | src/serialize.cpp:154-161 | the encoding, wherever it lies and whatever follows, reads back as the erased record, ending right behind it, if and only if all its strings are within the cap |
| `Records.ConstraintReads` | src/serialize.cpp:177-185 | the encoding, wherever it lies and whatever follows, reads back as the erased record, ending right behind it, if and only if all its strings are within the cap |
| `Records.CostComponentReads` | src/serialize.cpp:186-194 | the encoding, wherever it lies and whatever follows, reads back as the erased record, ending right behind it, if and only if all its strings are within the cap |
| `Records.ScoreComponentReads` | src/serialize.cpp:195-203 | the encoding, wherever it lies and whatever follows, reads back as the erased record, ending right behind it, if and only if all its strings are within the cap |
| `Records.CandidateReads` | src/serialize.cpp:204-230 | the encoding, wherever it lies and whatever follows, reads back as the erased record, ending right behind it, if and only if all its strings are within the cap |
| `Records.CandidateSetReads` | src/serialize.cpp:231-243 | the encoding, wherever it lies and whatever follows, reads back as the erased record, ending right behind it, if and only if all its strings are within the cap |
| `Records.OutcomeReads` | src/serialize.cpp:244-254 | the encoding, wherever it lies and whatever follows, reads back as the erased record, ending right behind it, if and only if all its strings are within the cap |
| `Records.ObservationReads` | src/serialize.cpp:255-281 | the encoding, wherever it lies and whatever follows, reads back as the erased record, ending right behind it, if and only if all its strings are within the cap |
| `Records.ProvenanceRewritten` | src/serialize.cpp:35-43 | the erased record is written as the same bytes |
| `Records.MeasurementRewritten` | src/serialize.cpp:66-69 | the erased record is written as the same bytes |
| `Records.SourceDescriptorRewritten` | src/serialize.cpp:77-81 | the erased record is written as the same bytes |
| `Records.ConstraintRewritten` | src/serialize.cpp:177-180 | the erased record is written as the same bytes |
| `Records.CostComponentRewritten` | src/serialize.cpp:186-189 | the erased record is written as the same bytes |
| `Records.ScoreComponentRewritten` | src/serialize.cpp:195-198 | the erased record is written as the same bytes |
| `Records.CandidateRewritten` | src/serialize.cpp:204-217 | the erased record is written as the same bytes |
| `Records.CandidateSetRewritten` | src/serialize.cpp:231-236 | the erased record is written as the same bytes |
| `Records.OutcomeRewritten` | src/serialize.cpp:244-248 | the erased record is written as the same bytes |
| `Records.ObservationRewritten` | src/serialize.cpp:255-267 | the erased record is written as the same bytes |
| `Records.DecisionReads` | src/serialize.cpp:282-325 | the encoding of a decision, through candidate set, options, variants, vectors and rejection map, reads back erased and stops exactly behind it if and only if it fits the reader |
| `Records.DecisionRewritten` | src/serialize.cpp:282-303 | an erased decision is written as the same bytes |
| `RecordLog.EncodeRecord` | src/serialize.cpp:714-724 | for any version: header with that version, kind and body size, then the body and the SHA-256 digest of both |
| `RecordLog.ReadRecord` | src/serialize.cpp:726-747 | the checks of the decoder in order, for any expected version, in streaming and in exact mode |
| `RecordLog.EnvelopeReads` | src/serialize.cpp:714-747 | an enveloped record of the expected version is read back exactly when its kind is known, its body within the cap, and nothing follows or the reader streams; else the error is corruption or trailing data |
| `RecordLog.OtherVersionRefused` | src/serialize.cpp:726-732 | a record of any other version is refused for its version, whatever kind, size and body it has |
| `RecordLog.CutRecordRejected` | src/serialize.cpp:726-747 | no proper prefix of a record is ever accepted |
| `RecordLog.ParseLog` | src/observatory.cpp:432-444 | a log streams back its records up to the first that is not loadable |
| `RecordLog.ParsePrefix` | src/observatory.cpp:432-444 | any byte prefix of a log streams exactly the records lying wholly inside it |
| `RecordLog.DecisionRoundTrip` | src/serialize.cpp:282-325 | reading a written decision followed by any bytes returns it erased at the exact boundary if and only if it fits |
| `RecordLog.DecisionPrefixFree` | src/serialize.cpp:282-325 | if two encodings with anything behind them agree as byte strings, the erased decisions and the rests are the same |
| `RecordLog.DecisionReencoding` | src/serialize.cpp:282-325 | writing again what was read gives identical bytes |
| `Indexes.PositionsExact` | src/observatory.cpp:79-100 | a scan for a key yields exactly its positions, in increasing order |
| `Indexes.PushAgrees` | src/observatory.cpp:79-100 | pushing the position of each appended record keeps an index equal to the scan |
| `Indexes.LookupIsScan` | src/observatory.cpp:280-314 | collecting the listed positions equals filtering the whole log |
| `Runs.AppendObsIndexed` | src/observatory.cpp:79-89 | appending under a new id keeps the by-id bijection and all nine indexes exact |
| `Runs.AppendDecIndexed` | src/observatory.cpp:90-100 | likewise for decisions, the single-valued attempt index remembering the latest position |
| `Runs.LoadIndexed` | src/observatory.cpp:425-474 | recovering any sequence of records keeps maps and indexes exact |
| `Runs.StepIndexed` | src/observatory.cpp:111-252 | every public call keeps maps and indexes exact |
| `Runs.RunIndexed` | src/observatory.cpp:79-474 | in every state reached by any calls, recoveries from arbitrary files included, every index is what a scan computes and the by-id maps are bijections |
| `AuthorityLaws.StepRaises` | src/observatory.cpp:111-187 | no call lowers the trusted generation of any source |
| `AuthorityLaws.RunRaises` | src/observatory.cpp:111-474 | over whole runs, in any configuration and through recoveries, trusted generations never fall |
| `AuthorityLaws.AppendAuthoritative` | src/observatory.cpp:169-201 | logging an authorized observation keeps generation order, one boot per generation, and authority above the log |
| `AuthorityLaws.StepAuthoritative` | src/observatory.cpp:111-201 | with enforcement, every call but recovery keeps that invariant, late rejections and re-registrations included |
| `AuthorityLaws.RunAuthoritative` | src/observatory.cpp:111-252 | over every run without recovery: logged generations per source are in order, one boot per source and generation, nothing outranks authority |
| `AuthorityLaws.RejectionMovesAuthority` | src/observatory.cpp:169-195 | before the call: an observation will be rejected and still move the authority of its source if and only if identity and standing pass, a late check fails, and it carries a newer generation or the first boot; other sources never |
| `AuthorityLaws.StepTakesMaximum` | src/observatory.cpp:111-187 | one well-formed call sets the trusted generation to the maximum of the old one and the one sent, rejected or not |
| `AuthorityLaws.RunTakesMaximum` | src/observatory.cpp:111-187 | a run of well-formed calls ends with the maximum of the initial generation and all sent |
| `AuthorityLaws.MaxSentIsMaximum` | src/observatory.cpp:179-187 | that maximum bounds all generations sent and is one of them or the initial one |
| `AuthorityLaws.Confluence` | src/observatory.cpp:111-187 | two orders of the same calls, even under different configurations, end with the same trusted generation of every source |
| `Accounting.RejectionKeepsRecords` | src/observatory.cpp:160-252 | a rejected call changes no log, index, outcome, source, epoch or event count and counts one rejection |
| `Accounting.RunExtends` | src/observatory.cpp:160-474 | no run removes, reorders or replaces a logged observation, decision or outcome |
| `Accounting.RunCounts` | src/observatory.cpp:160-474 | on every run accepted plus rejected calls are all ingest calls and each acceptance is one event; without recovery the events are the observations, decisions and outcomes |
| `Accounting.RunLinked` | src/observatory.cpp:205-252 | without recovery, valid attempt ids are unique over the decisions and every outcome belongs to a logged decision of a compatible attempt |
| `Accounting.AcceptedObsIsSound` | src/observatory.cpp:160-203 | an accepted observation is identified, finite and of possible memory sizes in every field |
| `Accounting.RunSound` | src/observatory.cpp:160-236 | over every run without recovery nothing unidentified, non-finite, impossible in memory or at odds with its complete candidate set is on record |
| `Accounting.ObsLookupIsScan` | src/observatory.cpp:280-299 | an observation index lookup equals the linear query by that key alone, for all nine indexes |
| `Accounting.DecLookupIsScan` | src/observatory.cpp:300-314 | a decision index lookup equals the linear query by that key alone, for every key a query can name |
| `RecoveredRecords.OfferDecLinked` | src/observatory.cpp:458-463 | a recovered decision keeps the links if and only if it is passed over or its attempt is not taken |
| `RecoveredRecords.OfferOutcomeLinked` | src/observatory.cpp:464-469 | a recovered outcome keeps them if and only if it is passed over or fits a decision on record with a known disposition |
| `RecoveredRecords.BrokenLinksStay` | src/observatory.cpp:425-474 | once an attempt is on record twice or an outcome is misfiled, no later state that extends the records mends it |
| `RecoveredRecords.LoadLinked` | src/observatory.cpp:432-473 | loading any records keeps the links if and only if each one does in the state it meets |
| `RecoveredRecords.RunLinkedExactly` | src/observatory.cpp:160-474 | over any run, recoveries from arbitrary files included, the records end up linked if and only if every file recovered from keeps the links |
| `RecoveredRecords.RunSoundExactly` | src/observatory.cpp:160-474 | over any run only sound evidence is on record if and only if every recovered observation and decision was sound or already present |
| `RecoveredRecords.LoadCounts` | src/observatory.cpp:432-473 | recovery counts no event, so events fall behind the entries on record unless every record loaded was already there |
| `RecoveredRecords.RunBalancedExactly` | src/observatory.cpp:160-474 | over any run events equal observations plus decisions plus outcomes if and only if no recovery added any |
| `Persistence.LoadStretch` | src/observatory.cpp:432-473 | a stretch of stored records of one kind loads as offering its contents one by one |
| `Persistence.SavedFileReplays` | src/observatory.cpp:398-474 | recovering a saved file into any state is replaying epoch, sources, observations, decisions and outcomes in turn |
| `Persistence.SaveThenRecover` | src/observatory.cpp:398-474 | for every iteration order of the hash maps, saving and recovering into a fresh observatory gives the same logs, outcomes, sources and epoch up to erasure, identical maps and indexes, and counts every record |
| `Persistence.RestoredGeneration` | src/observatory.cpp:445-457 | recovered authority per source is exactly the newest of descriptor generation and logged generations |
| `Persistence.RecordedGenerationBounded` | src/observatory.cpp:111-126 | recovery never grants a source more than it had when saved |
| `Persistence.RecoverAgain` | src/observatory.cpp:425-474 | recovering the same file again leaves the whole state as it is |
| `Persistence.RecoverPrefix` | src/observatory.cpp:432-474 | recovering a truncated file equals recovering just the records wholly inside it, into any state |
| `Persistence.RunFiled` | src/observatory.cpp:111-474 | every state any calls lead to meets what saving and recovering rely on |
| `RecoveredAuthority.RestoredBoot` | src/observatory.cpp:449-456 | the boot trusted after recovery is the first one logged at the newest generation, if no descriptor carries that generation, else none |
| `RecoveredAuthority.RecoveryKeepsAuthority` | src/observatory.cpp:449-456 | an authoritative state recovers to an authoritative one if and only if, for every source, a boot logged at its newest generation comes first there and above the descriptor's generation |
| `RecoveredAuthority.LostBootAdmitsAnother` | src/observatory.cpp:174-187 | where the boot is lost, any other boot is accepted next, and one generation is then logged under two boots |
| `AuthorityLaws.LateRejectionWitness` | src/observatory.cpp:160-201 | an observation of an infinite value sent to a new observatory is rejected and not logged, yet its generation and boot are trusted afterwards |
| `Restarts.RestoredIsLinked` | src/observatory.cpp:398-474 | the state a saved file recovers to is linked if the one saved was |
| `Restarts.RestoredIsSound` | src/observatory.cpp:398-474 | it holds only sound evidence if the one saved did |
| `Restarts.FreshIsKept` | src/observatory.cpp:106-107 | a new observatory meets every invariant the results on runs start from |
| `Restarts.AnyRunRestarts` | src/observatory.cpp:106-474 | after any calls on a new observatory, recoveries from arbitrary files included, saving and recovering loses nothing, recovering again changes nothing, and no source gains authority |
| `Restarts.RestartKeeps` | src/observatory.cpp:398-474 | saving and recovering keeps indexes, order, links and soundness |
| `Restarts.LivesKeep` | src/observatory.cpp:106-474 | a collector that recovers its own file, serves, saves and ends, any number of times, keeps them too |
| `Restarts.DoubledAttemptIsRecovered` | src/observatory.cpp:458-463 | a file of two decisions under one attempt id is recovered whole and leaves that attempt on record twice |
| `Restarts.UnsoundEvidenceIsRecovered` | src/observatory.cpp:451-457 | a file of one observation without source and generation is recovered, is unsound evidence on record and no event accounts for it |
| `Restarts.MisfiledOutcomeIsRecovered` | src/observatory.cpp:458-469 | a file of a decision of attempt 7 and an outcome of attempt 8 for it is recovered whole, breaking links and accounting |
| `Restarts.RestartLosesBoot` | src/observatory.cpp:169-201 | save and recover a state in which the boot of a source is not recoverable: any well-formed observation of its newest generation under another boot is accepted and that generation is logged under two boots |
| `Restarts.HeardNotRecoverable` | src/observatory.cpp:111-187 | registering a source at generation 5 and hearing it from boot 7 gives an authoritative state whose boot is not recoverable |
| `Restarts.LostBootWitness` | src/observatory.cpp:111-201 | that state saved and recovered then accepts boot 9 in generation 5 and logs both |
| `RecoveredOrder.RunInOrderExactly` | src/observatory.cpp:160-474 | over any run in any configuration, recoveries from arbitrary files included, the log ends in generation order with one boot per generation if and only if every observation admitted or recovered fitted behind the log it met |
| `RecoveredOrder.CoveredFits` | src/observatory.cpp:174-187 | with enforcement an admitted observation always fits where authority covers what is logged of its source |
| `RecoveredOrder.LoadRecordGoverned` | src/observatory.cpp:446-457 | a recovered record keeps the authority invariant if and only if it is no observation, known, of a newer generation, or fits and is covered by the authority that stays |
| `RecoveredOrder.AlwaysGovernedExactly` | src/observatory.cpp:111-474 | with enforcement the authority invariant holds at every point of a run, record by record inside files, if and only if every file recovered from keeps it |
| `RecoveredOrder.DisorderIsRecovered` | src/observatory.cpp:451-457 | a file of an observation in generation 5 and a later one of the same source in generation 3 is recovered whole |
| `Capacity.ManySized` | include/placement_observatory/serialize.hpp:150-159 | every element takes a byte, so a vector that fits a body has a count of 32 bits, and its elements fit the reader |
| `Capacity.DecisionSized` | src/serialize.cpp:282-325 | a decision whose encoding is within the cap of a body fits the reader in every string, vector and map |
| `Oversized.SizeDecides` | src/observatory.cpp:398-474 | a source, observation, decision or outcome is read back from its record if and only if its encoding is within the cap of a body |
| `Oversized.BeforeIsFiled` | src/observatory.cpp:398-474 | the part of a store written before its first oversized entry is a store of its own, with the logs cut short there |
| `Oversized.SaveThenRecoverExactly` | src/observatory.cpp:398-474 | saving any reachable state, whatever is in it, and recovering gives back exactly the part written before the first oversized entry, with its count |
| `Oversized.FullCountExactly` | src/observatory.cpp:398-474 | every record is counted if and only if none is oversized |
| `Oversized.HugeSourceIsLost` | src/observatory.cpp:398-474 | a registered source whose name alone fills a body is saved and not read back |
| `Observatory.Observatory.constructor` | src/observatory.cpp:106 | an empty state under the given configuration |
| `Observatory.Observatory.RegisterSource` | src/observatory.cpp:111-126 | moves authority for a new or raised generation, forgets the boot then, and replaces the descriptor |
| `Observatory.Observatory.CurrentSourceGeneration` | src/observatory.cpp:145-149 | the trusted generation, 0 for an unknown source |
| `Observatory.Observatory.SetCoordinatorEpoch` | src/observatory.cpp:150-153 | changes the epoch and nothing else |
| `Observatory.Observatory.AppendObservation` | src/observatory.cpp:79-89 | log, by-id map and nine indexes updated in place |
| `Observatory.Observatory.AppendDecision` | src/observatory.cpp:90-100 | log, by-id map and decision indexes updated in place |
| `Observatory.Observatory.CheckFields` | src/observatory.cpp:189-195 | the first fault among the fields, in order |
| `Observatory.Observatory.TakeAuthority` | src/observatory.cpp:179-185 | raises generation and boot, or adopts a missing boot, and counts a supersession |
| `Observatory.Observatory.Ingest` | src/observatory.cpp:160-203 | reply and new state are those of the atomic step, every rejection in the order of the checks |
| `Observatory.Observatory.ScreenDecision` | src/observatory.cpp:205-229 | the first of eleven checks a decision fails |
| `Observatory.Observatory.IngestDecision` | src/observatory.cpp:205-236 | reply and new state are those of the atomic step |
| `Observatory.Observatory.IngestOutcome` | src/observatory.cpp:238-252 | reply and new state are those of the atomic step |
| `Observatory.Observatory.Observations` | src/observatory.cpp:280-299 | exactly the logged observations the filter admits, in log order |
| `Observatory.Observatory.Decisions` | src/observatory.cpp:300-314 | exactly the logged decisions the filter admits, in log order |
| `Observatory.Observatory.Persist` | src/observatory.cpp:398-423 | the file is the saved form of the state for some iteration order of each table |
| `Observatory.Observatory.LoadBody` | src/observatory.cpp:445-471 | one record loaded, skipped or refused, with nothing changed on a body that does not decode |
| `Observatory.Observatory.Recover` | src/observatory.cpp:425-474 | state and count are those of loading the records streamed from the file |
| `Server.ReadRequest` | cli/po.cpp:78-105 | what a frame asks for, or the error its payload throws |
| `Server.Perform` | cli/po.cpp:80-107 | performs one request on the shared observatory and answers with its verdict or the status asked for |
| `Server.ServeConnection` | cli/po.cpp:76-110 | under every chunking of the stream, the final store, the answers and the way the service ends are those of serving the received frames in order |
| `Server.RequestReads` | cli/po.cpp:80-89 | a registration or observation put into a frame is understood as itself, erased |
| `Pool.ScheduleIsRun` | cli/po.cpp:76-110 | under every schedule of any number of connections with arbitrary frames the store is that of a run of the calls made, none of them a recovery |
| `Pool.ScheduleAuthoritative` | cli/po.cpp:76-110 | with enforcement on, source authority holds of the log under every schedule |
| `Pool.ScheduleConserves` | cli/po.cpp:76-110 | calls made plus calls pending are always the calls sent |
| `Pool.ScheduleConfluent` | cli/po.cpp:76-110 | every schedule that serves all frames ends with the maximum generation sent per source, whatever is rejected on the way |
| `Ranking.ThrowsIffIllTyped` | src/compute.cpp:17-41 | evaluating a rule throws exactly when it is a numeric rule whose value is a double or negative |
| `Ranking.WeightedTotal` | src/compute.cpp:43-47 | the sum of cost times weight over the components |
| `Ranking.CostSignature` | src/compute.cpp:49-53 | the costs in order with the locality benefit negated |
| `Ranking.BeforeTotal` | src/compute.cpp:55-63 | the comparator is asymmetric and ties only candidates of equal id, total and cost vector |
| `Ranking.BeforeIsStrictWeak` | src/compute.cpp:92-100 | the comparator handed to the stable sort is a strict weak order |
| `Ranking.DistinctIsTotal` | src/compute.cpp:92-100 | with distinct ids it is total |
| `Ranking.ScreenCandidate` | src/compute.cpp:76-85 | one candidate screened rule by rule up to the first violation |
| `Ranking.ScreenIsSurvival` | src/compute.cpp:76-90 | screening throws if and only if an ill-typed rule precedes every violated one; otherwise it rejects exactly violators |
| `Ranking.ScreenAllIsFilter` | src/compute.cpp:73-90 | ranking fails if and only if some candidate's screening does; otherwise survivors are those violating nothing, in presentation order |
| `Ranking.RejectionsHold` | src/compute.cpp:86-88 | with distinct ids the rejection map holds exactly the non-survivors, each with the reason its screening gave |
| `Ranking.RankCandidates` | src/compute.cpp:69-112 | ranking, selection, totals, rejections, missing evidence and note of the decision |
| `Sorting.FilterSort` | src/compute.cpp:92-100 | filtering commutes with the stable sort |
| `Sorting.SortOfPermutation` | src/compute.cpp:92-100 | a total comparator sorts every permutation to the same sequence, whatever the algorithm |
| `RankingLaws.SelectedIsBest` | src/compute.cpp:101-108 | the selection is the id of a survivor no survivor precedes, and all such survivors have that id; it is nil if and only if none survives or one of them carries the nil id |
| `RankingLaws.NilIsSelected` | src/compute.cpp:101-108 | one candidate of id 0 under no rules survives and is selected as nil |
| `RankingLaws.PodiumOrder` | src/compute.cpp:55-100 | cost evidence first, cheaper before dearer, equal totals by cost vector, then by id |
| `RankingLaws.RankedSatisfyAll` | src/compute.cpp:17-41 | every ranked candidate was presented and satisfies every hard constraint the source can judge: bounds on memory and queue given as either integer type, architecture, capability, health |
| `RankingLaws.PresentationIndependent` | src/compute.cpp:69-112 | with distinct ids any permutation of the candidates gives the same ranking, selection, totals and rejections, and fails alike |
| `RankingLaws.AddedRuleOnlyFilters` | src/compute.cpp:17-112 | a hard constraint inserted anywhere takes its violators out of the ranking and moves nobody |
| `RankingLaws.AddedRuleDoesNotThrow` | src/compute.cpp:17-41 | a well-typed extra constraint never makes the ranking fail |
| `RankingLaws.RuleOrderIrrelevant` | src/compute.cpp:76-112 | reordering the hard constraints leaves ranking, selection and totals unchanged if neither order makes the ranking throw, which none does when all rules are well-typed |
| `RankingLaws.EveryOrderRanks` | src/compute.cpp:17-90 | no order of the hard constraints makes the ranking throw if and only if there are no candidates or every rule is well-typed |
| `RankingLaws.SwappedRulesThrow` | src/compute.cpp:17-90 | a candidate without memory, a rule that asks for memory and a queue bound given as a double: ranked in that order of the rules, thrown in the other |
| `RankingLaws.WellTypedRulesRank` | src/compute.cpp:17-41 | with well-typed constraints a ranking never fails |
| `RankingLaws.DeletionKeepsSelection` | src/compute.cpp:101-108 | deleting a candidate that was not selected keeps the selection and everyone else's place |
| `Counterfactual.LastColonIsColon` | src/compute.cpp:297-304 | the suffix that addresses a candidate starts at the last colon |
| `Counterfactual.ChangeCandidate` | src/compute.cpp:296-322 | one change on one candidate, scoped or not |
| `Counterfactual.WhatIfRanking` | src/compute.cpp:285-330 | every change applied to every candidate of a copy, and the copy ranked |
| `Counterfactual.NoChangesBaseRanking` | src/compute.cpp:285-330 | without changes the result is the base ranking |
| `Counterfactual.ScopedChangesLeaveOthers` | src/compute.cpp:294-324 | changes addressed to one candidate: the ranking returned lists all the others as the ranking of the decision itself does, and with nothing about them changed |
| `Counterfactual.FreeMemoryConserved` | src/compute.cpp:310-313 | after a change of free memory, used plus free is the total, or nothing is used when more is free than there is |
| `Counterfactual.NoReordering` | src/compute.cpp:309-324 | with distinct ids, memory and queue changes never reorder two candidates that survive before and after |
| `Counterfactual.ReplayDecision` | src/compute.cpp:209-252 | the report of ranking the recorded decision again |
| `Counterfactual.ReproducedIffBest` | src/compute.cpp:240-252 | a decision is reproduced if and only if it has candidates and records the best survivor, or nil when none survives |
| `Counterfactual.ReplayIndependent` | src/compute.cpp:209-252 | replay does not depend on the order in which candidates were recorded |
| `JsonLaws.IntegerReads` | include/placement_observatory/core/json.hpp:155-156 | a printed integer is scanned to its end and comes back, signed if it fits |
| `JsonLaws.StringReads` | include/placement_observatory/core/json.hpp:104-122 | every string, escapes and control characters included, is read back from its printed form |
| `JsonLaws.ValueReads` | include/placement_observatory/core/json.hpp:133-346 | a value printed in any layout at any depth, doubles by any text that reads as a number or null, followed by nothing that extends a number, is parsed to its exact end as the retyped value |
| `JsonLaws.FloatReads` | include/placement_observatory/core/json.hpp:317-346 | the text of a double inside a longer text is scanned to its end: a double if it has fraction or exponent, else an integer |
| `JsonLaws.RoundTrip` | include/placement_observatory/core/json.hpp:176-204 | for every value, doubles included, every indent, sorted or not, the whole text parses to the value, keys sorted if sorted, every number typed by its text |
| `JsonLaws.CanonicalTextDecides` | include/placement_observatory/core/json.hpp:133-180 | the same canonical text implies the same normal form, and the other way round where no double is negative zero |
| `JsonLaws.NegativeZeroWitness` | include/placement_observatory/core/json.hpp:124-129 | the double negative zero and the integer zero have the same normal form and different texts |
| `JsonLaws.ReorderedCanon` | include/placement_observatory/core/json.hpp:133-149 | canonical order is the same for values whose objects list their distinct keys in different orders, at every depth |
| `JsonLaws.MemberOrderIrrelevant` | include/placement_observatory/core/json.hpp:133-180 | the canonical text does not depend on the order in which distinct keys are listed, doubles included |
| `JsonLaws.CanonicalTextIsStable` | include/placement_observatory/core/json.hpp:176-204 | parsing a canonical text and printing it again reproduces it byte for byte if and only if no double is negative zero |
| `JsonGrammar.ParsesExactlyTheGrammar` | include/placement_observatory/core/json.hpp:182-346 | a text parses to a value if and only if it denotes that value in the grammar of RFC 8259 sections 2 to 7, stated on its own, with the C locale's white space and integers limited to 64 bits |
| `JsonTexts.ZerosAgree` | include/placement_observatory/core/json.hpp:133-346 | two values printed at the same place of one text and read back alike have their negative zeros at the same places |
| `JsonTexts.SameTextExactly` | include/placement_observatory/core/json.hpp:133-204 | two values have the same text, sorted or not, at any indent, if and only if they are read back as the same value and have their negative zeros at the same places |
| `JsonTexts.VerticalTabIsSkipped` | include/placement_observatory/core/json.hpp:205 | a vertical tab, no white space in RFC 8259, is skipped |
| `JsonTexts.RepeatedKeyIsKept` | include/placement_observatory/core/json.hpp:294-315 | a key given twice is kept twice |
| `JsonTexts.LoneSurrogateIsEncoded` | include/placement_observatory/core/json.hpp:247-263 | an escaped half of a surrogate pair is encoded as three bytes |
| `JsonGrammar.NoTextIsAmbiguous` | include/placement_observatory/core/json.hpp:182-346 | no text denotes two values |
| `JsonIO.Sink.AppendString` | include/placement_observatory/core/json.hpp:104-122 | appends the quoted and escaped string |
| `JsonIO.Sink.WriteObject` | include/placement_observatory/core/json.hpp:133-149 | sorts a copy of the members if asked and appends the object |
| `JsonIO.Sink.WriteArray` | include/placement_observatory/core/json.hpp:160-170 | appends the array with its commas and indentation |
| `JsonIO.Sink.WriteValue` | include/placement_observatory/core/json.hpp:151-173 | appends the printed value in canonical or insertion order |
| `JsonIO.Render` | include/placement_observatory/core/json.hpp:176-180 | the whole text of a value |
| `JsonIO.Parser.SkipWhite` | include/placement_observatory/core/json.hpp:205 | moves to the first character that is not white space |
| `JsonIO.Parser.ExpectChar` | include/placement_observatory/core/json.hpp:207 | consumes that character or reports where it is missing |
| `JsonIO.Parser.Word` | include/placement_observatory/core/json.hpp:222-226 | consumes the literal or reports it |
| `JsonIO.Parser.UnicodeEscape` | include/placement_observatory/core/json.hpp:247-257 | four hexadecimal digits of either case, or the position of the first bad one |
| `JsonIO.Parser.Escape` | include/placement_observatory/core/json.hpp:235-270 | the text an escape stands for, code points as UTF-8 |
| `JsonIO.Parser.QuotedString` | include/placement_observatory/core/json.hpp:228-275 | the string and the position behind its closing quote, or the first error and its position |
| `JsonIO.Parser.Number` | include/placement_observatory/core/json.hpp:317-346 | integer or float token, its extent, and the integer's type, or the first error |
| `JsonIO.Parser.ParseAny` | include/placement_observatory/core/json.hpp:209-220 | dispatch on the first character |
| `JsonIO.Parser.ArrayAt` | include/placement_observatory/core/json.hpp:277-292 | elements in order up to the bracket, or the first error |
| `JsonIO.Parser.ObjectAt` | include/placement_observatory/core/json.hpp:294-315 | members in order up to the brace, or the first error |
| `JsonIO.Parser.ParseAll` | include/placement_observatory/core/json.hpp:196-202 | one value and nothing after it but white space |
| `Admission.ObservationVerdict` | src/observatory.cpp:160-195 | the answer is the first reason that applies of ten given on ids, generations, boots, epochs, exponents and sizes, in the order of the checks, or acceptance under the next event number |
| `Admission.ObservationAccepted` | src/observatory.cpp:160-199 | exactly which observations are logged: non-zero ids and generations, a new id, no generation behind the trusted one, the trusted boot, an epoch that is absent or not behind the one in force, and only finite and possible fields |
| `Admission.ObservationEffect` | src/observatory.cpp:169-201 | what an observation changes: generation, boot and supersessions once the early checks pass, the log and one event on acceptance, one rejection otherwise, and nothing else |
| `Admission.RegistrationEffect` | src/observatory.cpp:111-126 | a registration that is news sets the generation and forgets the boot; the descriptor is replaced in any case; nothing else changes |
| `Admission.DecisionVerdict` | src/observatory.cpp:205-236 | the answer is the first of eleven reasons, given on the fields of the decision and of the log, or acceptance |
| `Admission.DecisionAccepted` | src/observatory.cpp:205-233 | exactly which decisions are logged, the epoch among the conditions as a comparison of numbers |
| `Admission.DecisionEffect` | src/observatory.cpp:205-236 | an accepted decision is logged as it is and counted; a rejected one is only counted as rejected |
| `Admission.OutcomeVerdict` | src/observatory.cpp:238-252 | the answer is the first of five reasons or acceptance, which files the outcome under its decision |
| `Admission.RunSetsEpoch` | src/observatory.cpp:150-153 | over any run without recovery the epoch in force is the one last set |
| `Admission.RunLogsCurrent` | src/observatory.cpp:186-187 | with the epoch check on, whatever any call of a run without recovery logs carries epoch 0 or one at least the epoch last set before the call |
| `Admission.FirstOfHolds` | src/observatory.cpp:160-203 | no reason is given exactly when none applies; otherwise the one given applies and none before it does |
| `CanonicalOrder.CanonicalTextInOrder` | include/placement_observatory/core/json.hpp:133-149 | every object of the value parsed back from a sorted text, at every depth, lists its keys so that an earlier one equals a later one, is a proper prefix of it, or has the smaller character code where they first differ; and that value is the printed one with its members rearranged |
| `CanonicalOrder.CanonInOrder` | include/placement_observatory/core/json.hpp:136 | the keys of every object of the sorted value stand in that order |
| `CanonicalOrder.CanonReorders` | include/placement_observatory/core/json.hpp:133-149 | sorting rearranges the members of objects at every depth and does nothing else |
| `CanonicalOrder.OrderIsTotal` | include/placement_observatory/core/json.hpp:136 | of two different keys exactly one may not stand after the other |
| `Fips180.ConstantsAreCubeRoots` | include/placement_observatory/util/hash.hpp:62-70 | round constant i is the first 32 bits of the fraction of the cube root of the i-th prime (FIPS 180-4 section 4.2.2), for all 64 |
| `Fips180.InitialIsSquareRoots` | include/placement_observatory/util/hash.hpp:15-21 | the initial words are the first 32 bits of the fractions of the square roots of the first eight primes (section 5.3.3) |
| `Fips180.PrimesAreFirst` | include/placement_observatory/util/hash.hpp:62-70 | the list of 64 numbers is that of all primes up to 311, in order |
| `Fips180.ChChooses` | include/placement_observatory/util/hash.hpp:80-89 | each bit of `Ch` is that of the second word where the first has a one, else that of the third |
| `Fips180.MajAgrees` | include/placement_observatory/util/hash.hpp:80-89 | each bit of `Maj` is the one that at least two of the words have |
| `Fips180.BigSigma0Bits` | include/placement_observatory/util/hash.hpp:80-89 | each bit is the parity of the bits 2, 13 and 22 places up, in a circle |
| `Fips180.BigSigma1Bits` | include/placement_observatory/util/hash.hpp:80-89 | each bit is the parity of the bits 6, 11 and 25 places up, in a circle |
| `Fips180.SmallSigma0Bits` | include/placement_observatory/util/hash.hpp:71-79 | each bit is the parity of the bits 7 and 18 places up, in a circle, and of the bit 3 places up, if there is one |
| `Fips180.SmallSigma1Bits` | include/placement_observatory/util/hash.hpp:71-79 | each bit is the parity of the bits 17 and 19 places up, in a circle, and of the bit 10 places up, if there is one |
| `Fips180.ScheduleRecurrence` | include/placement_observatory/util/hash.hpp:71-79 | the first 16 schedule words are those of the block, high byte first; each later one is the sum modulo 2^32 the standard names of four earlier ones |
| `Fips180.RoundsAreRecurrences` | include/placement_observatory/util/hash.hpp:80-89 | the eight registers after each round are the last four of two sequences of words whose recurrences are those of section 6.2.2 |
| `Fips180.CompressSums` | include/placement_observatory/util/hash.hpp:61-91 | compression adds the registers after 64 rounds to the words before, modulo 2^32 |
| `Fips180.WordBytesValue` | include/placement_observatory/util/hash.hpp:44-49 | the four bytes of a word, read high byte first, are its value |
| `Fips180.LengthBytesValue` | include/placement_observatory/util/hash.hpp:34-41 | the eight bytes of the length, read high byte first, are the number of bits |
| `Fips180.DigestWords` | include/placement_observatory/util/hash.hpp:33-50 | bytes 4i to 4i+3 of the digest, read high byte first, are word i of the final hash value |
| `Totals.TotalIsWeightedSum` | src/compute.cpp:43-47 | the total that ranks a candidate is the end of the running sums of cost times weight, and no other number is |
| `Totals.TotalsAdd` | src/compute.cpp:43-47 | the total of two lists one after the other is the sum of their totals |
| `Totals.WeightMovesTotal` | src/compute.cpp:43-47 | replacing the weight of component i by w changes the total by cost i times (w minus the old weight); a component of weight 0 may be dropped |
| `Totals.TotalIgnoresOrder` | src/compute.cpp:43-47 | in whatever order the components are listed the total is the same |
| `Totals.TotalsReported` | src/compute.cpp:101-103 | totals are reported for exactly the ids ranked, each the weighted sum of the costs of the candidate ranked last under that id |
| `Totals.TotalOfCandidate` | src/compute.cpp:101-103 | with distinct ids a candidate has a total exactly when it survives, and it is that of its own costs |
| `Totals.WeightMovesReportedTotal` | src/compute.cpp:43-108 | with distinct ids, another weight on one component of one candidate fails no ranking and moves no reported total but its own, by cost times the change |
| `Totals.ReweighingLeavesOthers` | src/compute.cpp:69-112 | another weight on one component of one candidate leaves the order of all others |
| `Totals.CheaperFirst` | src/compute.cpp:55-100 | of two ranked candidates with costs the one of lower weighted sum stands first |
| `Totals.LighterFirst` | src/compute.cpp:43-100 | of two ranked candidates that differ in one weight the one whose weight makes that component cheaper stands first |
| `RankingReport.EvaluationIs` | src/compute.cpp:17-41 | a rule throws if it bounds by a double or a negative number, is noted if the evaluator does not know its field or its kind of value, and else is satisfied or violated with the reason of its field |
| `RankingReport.ScreenReports` | src/compute.cpp:76-90 | screening a candidate throws at the first ill-typed rule it reaches, rejects at the first rule not satisfied, with the reason of that rule, and notes the fields before it that cannot be judged |
| `RankingReport.RankingThrows` | src/compute.cpp:17-90 | a ranking fails if and only if some candidate satisfies all rules before an ill-typed one |
| `RankingReport.RankedExactly` | src/compute.cpp:90-108 | each candidate presented that satisfies every rule is ranked, as often as presented, and nobody else; the first ranked is selected, or nil |
| `RankingReport.BeforeIsOrder` | src/compute.cpp:55-100 | the comparator is exactly: costs before none; lower weighted sum; smaller signed cost at the first difference, a shorter list first; smaller id |
| `RankingReport.RankedInOrder` | src/compute.cpp:92-100 | whatever is ranked earlier may stand before whatever is ranked later, in that order |
| `RankingReport.RejectedForFirst` | src/compute.cpp:76-88 | with distinct ids the rejected are those that leave a rule unsatisfied, each for the first such rule |
| `RankingReport.MissingReported` | src/compute.cpp:82-111 | the missing evidence is, in this order: the rules that could not be judged, candidate by candidate; the ranked candidates without costs; the missing fields of the set; the note tells whether any candidate has costs |
| `CounterfactualReport.TargetIs` | src/compute.cpp:297-304 | a field `name:digits` means the candidate whose id the digits give, a number beyond 64 bits throws, and any other field means every candidate |
| `CounterfactualReport.AddressedAsBare` | src/compute.cpp:297-305 | for every name without an address of its own and every 64-bit id, the field `name:id` changes the candidate of that id as the bare name does and leaves every other alone |
| `CounterfactualReport.PerturbHasEffect` | src/compute.cpp:309-322 | what free memory, depth, total memory and transfer cost, set or moved, make of a candidate, in numbers; any other name does nothing |
| `CounterfactualReport.EffectIsUnique` | src/compute.cpp:309-322 | that description leaves one result only |
| `CounterfactualReport.ChangeIs` | src/compute.cpp:296-322 | a change has exactly the effect its text describes, on the candidates it addresses |
| `CounterfactualReport.AimedLeaveOthers` | src/compute.cpp:294-324 | changes whose fields end in the id of one candidate leave all others ranked as they were |
| `CounterfactualReport.OtherNamesKeepOrder` | src/compute.cpp:309-324 | as long as no field names the transfer cost, with or without an address, common survivors keep their order |
| `CounterfactualReport.ChangesInTurn` | src/compute.cpp:294-323 | a candidate becomes what it passes into when the changes are made one after the other |
| `CounterfactualReport.WhatIfIs` | src/compute.cpp:285-330 | a what-if succeeds exactly when every candidate can be changed and the changed decision ranks; it reports that ranking and selection, and whether the selection differs from the recorded one |
| `CounterfactualReport.ReplayIs` | src/compute.cpp:209-252 | a replay tells the recorded selection, reproduces it exactly if there are candidates and the ranking selects it, names recorded and new selection where they differ, or the empty set, and lists the missing evidence, the missing fields twice |
| `Queries.ObservationsAsked` | src/observatory.cpp:280-299 | a query returns, in log order, exactly the observations that miss none of twelve criteria, times included |
| `Queries.WindowReturns` | src/observatory.cpp:294-295 | a time window returns exactly the observations whose wall time lies in it, ends included, an end of 0 being open |
| `Queries.DecisionIdReturns` | src/observatory.cpp:286 | asking for a decision id returns exactly the observations that carry it |
| `Queries.DecisionsAsked` | src/observatory.cpp:300-314 | a query returns, in log order, exactly the decisions that miss none of nine criteria |
| `Queries.DecisionIdReturnsIt` | src/observatory.cpp:306 | with exact indexes, asking for a decision id returns that decision alone, or nothing |
| `JsonLayout.PrintedText` | include/placement_observatory/core/json.hpp:133-180 | the text of a value is its parts put together: brackets, commas, a line break and indentation by depth unless compact, a space behind the colon exactly when indented and not sorted |
| `JsonLayout.PutStringIs` | include/placement_observatory/core/json.hpp:104-122 | a string is printed between quotes, seven characters by their named escapes, the other control characters by four lower-case hexadecimal digits, the rest as they are |
| `JsonLayout.NumeralIsUnique` | include/placement_observatory/core/json.hpp:155-156 | an integer is printed as the one decimal notation it has: a minus sign if negative, and digits without a leading zero whose place values sum to its magnitude |
| `JsonLayout.Utf8Encodes` | include/placement_observatory/core/json.hpp:258-266 | a code below 0x10000 is encoded as RFC 3629 section 3 says, in the only such way, surrogates like any other |
| `JsonLayout.HexDigitsAre` | include/placement_observatory/core/json.hpp:247-257 | hexadecimal digits are printed in lower case and read in either |
| `JsonLayout.SpacesAre` | include/placement_observatory/core/json.hpp:205 | white space is exactly the six characters of the C locale |
| `Decimal.DecimalIsPlaceValue` | include/placement_observatory/core/json.hpp:317-346 | reading digits from the left gives the sum of their place values |
| `RecordLayout.ValueBytesIs` | src/serialize.cpp:11-19 | the bytes of a value: the number of the alternative, 0 to 5, and its content |
| `RecordLayout.ProvenanceBytesIs` | src/serialize.cpp:35-43 | the bytes of the record: its fields in the order of the format, each in its encoding |
| `RecordLayout.ConfidenceBytesIs` | src/serialize.cpp:58-60 | the bytes of the record: its fields in the order of the format, each in its encoding |
| `RecordLayout.MeasurementBytesIs` | src/serialize.cpp:66-69 | the bytes of the record: its fields in the order of the format, each in its encoding |
| `RecordLayout.SourceDescriptorBytesIs` | src/serialize.cpp:77-81 | the bytes of the record: its fields in the order of the format, each in its encoding |
| `RecordLayout.QueueDescriptorBytesIs` | src/serialize.cpp:129-132 | the bytes of the record: its fields in the order of the format, each in its encoding |
| `RecordLayout.MemoryDescriptorBytesIs` | src/serialize.cpp:138-140 | the bytes of the record: its fields in the order of the format, each in its encoding |
| `RecordLayout.LocalityDescriptorBytesIs` | src/serialize.cpp:154-157 | the bytes of the record: its fields in the order of the format, each in its encoding |
| `RecordLayout.ConstraintBytesIs` | src/serialize.cpp:177-180 | the bytes of the record: its fields in the order of the format, each in its encoding |
| `RecordLayout.CostComponentBytesIs` | src/serialize.cpp:186-189 | the bytes of the record: its fields in the order of the format, each in its encoding |
| `RecordLayout.ScoreComponentBytesIs` | src/serialize.cpp:195-198 | the bytes of the record: its fields in the order of the format, each in its encoding |
| `RecordLayout.CandidateBytesIs` | src/serialize.cpp:204-217 | the bytes of the record: its fields in the order of the format, each in its encoding |
| `RecordLayout.CandidateSetBytesIs` | src/serialize.cpp:231-236 | the bytes of the record: its fields in the order of the format, each in its encoding |
| `RecordLayout.OutcomeBytesIs` | src/serialize.cpp:244-248 | the bytes of the record: its fields in the order of the format, each in its encoding |
| `RecordLayout.ObservationBytesIs` | src/serialize.cpp:255-267 | the bytes of the record: its fields in the order of the format, each in its encoding |
| `RecordLayout.DecisionBytesIs` | src/serialize.cpp:282-303 | the bytes of a decision: its 29 fields in the order of the format, each in its encoding |
| `RecordLayout.LittleIs` | include/placement_observatory/serialize.hpp:45-46 | byte i of a number is its digit of place i to the base 256 |
| `RecordLayout.SignedIs` | include/placement_observatory/serialize.hpp:47 | a signed number is written in two's complement |
| `RecordLayout.TextBytesIs` | include/placement_observatory/serialize.hpp:50-55 | a text is its length in four bytes and its characters |
| `RecordLayout.ListIs` | include/placement_observatory/serialize.hpp:150-153 | a list is its count in four bytes and its elements one after the other |
| `RecordLayout.TextLimits` | include/placement_observatory/serialize.hpp:77-84 | reading a text fails as corrupt above 64 MiB, as truncated if characters are missing, and else gives the characters |
| `RecordLayout.EnvelopeBytes` | src/serialize.cpp:714-724 | a record in a file: the bytes of the magic, version, kind, length, body, and the digest of all that; kinds 1 to 8 and bodies up to 64 MiB are loadable |
| `RecordLayout.RecordFaults` | src/serialize.cpp:726-747 | what reading a record gives, said of the bytes at each offset: the fault of the first check that fails, or the record and its end |
| `RecordLayout.WireBytes` | src/protocol.cpp:41-53 | a frame on the wire: the bytes of the magic, version, type, length, payload, and the checksum of all that; types up to 11 and payloads up to 16 MiB are valid |
| `RecordLayout.WireFaults` | src/protocol.cpp:55-74 | what is wrong with a buffer, said of the bytes at each offset: the first check that fails |
| `RecordLayout.SavedBytes` | src/observatory.cpp:398-423 | a saved file holds the epoch as kind 8, then sources as kind 4, observations as kind 1, decisions as kind 2 and outcomes as kind 3, each body in its record format |
| `RecoveryReport.EpochRecovered` | src/observatory.cpp:445 | a record of kind 8 sets the coordinator epoch; a kind without state is only counted |
| `RecoveryReport.SourceRecovered` | src/observatory.cpp:446-450 | the bytes of a descriptor replace the descriptor, raise the trusted generation to the one told and leave every boot |
| `RecoveryReport.ObservationRecovered` | src/observatory.cpp:451-457 | the bytes of an observation are logged unless the id is on record; a generation above the trusted one is then trusted with its boot, else generation and boot stay |
| `RecoveryReport.DecisionRecovered` | src/observatory.cpp:458-463 | the bytes of a decision are logged unless the id is on record |
| `RecoveryReport.OutcomeRecovered` | src/observatory.cpp:464-469 | the bytes of an outcome are filed if its decision is on record without one, and passed over otherwise |
| `Requests.RequestsAre` | cli/po.cpp:78-105 | what each frame type asks for, its payload being the bytes of the record format; type 7 ends the service, the types not listed ask for nothing |
| `Requests.RegistrationServed` | cli/po.cpp:80-82 | a registration frame makes the trusted generation the greater of the trusted and the sent one, without a boot if that is news, and stores the descriptor |
| `Requests.ObservationServed` | cli/po.cpp:86-89 | an observation frame is answered with the verdict on what its bytes carry, and logged exactly on acceptance |
| `Requests.DecisionServed` | cli/po.cpp:90-93 | a decision frame likewise |
| `Requests.OutcomeServed` | cli/po.cpp:94-97 | an outcome frame is answered with its verdict and, on acceptance, filed under its decision |
| `Requests.StatusServed` | cli/po.cpp:98-104 | a status frame is answered with the epoch in force and the trusted generation, 0 for an unknown source, and changes nothing |

## Left out

- Sockets, name resolution and errors of the operating system: a connection is a byte stream that ends; sending never fails.
- Locking: each public method holds the lock from beginning to end and is one atomic step; the shared running flag is modelled in the schedule.
- Clocks, source health, last-seen tables and the snapshot counter: no result depends on them.
- File reading, temporary files and renaming: a file is a byte sequence.
- Running out of memory, including reservation for an absurd vector length announced by a corrupt body.
- Counters of events, rejections and supersessions are unbounded; the program's wrap at 2^64.
- Strings of 4 GiB or more and vectors of 2^32 or more elements: the writer throws on the former and truncates the count of the latter; the text type excludes the former, and a vector that long is among those that do not fit.
- RecordIO.BinWriter.Str: does not model the exception for strings of 4 GiB or more, which the type of its argument excludes.
- Conversion between doubles and text is library code: a double in JSON is represented by its shortest decimal text, which the library is taken to read back as the same double; round trips are for every such text that is a number or `null`.
- Oversized.SaveThenRecoverExactly: takes every encoding to be shorter than 2^64 bytes, the range of the length field; longer ones cannot be held in memory.
- JsonIO.Parser.Number: does not convert a token with fraction or exponent to a double, since that is library code; it determines the extent and keeps the text.
- Sorting an object that holds a key twice: the order of equal keys is the sorting library's choice; the model takes the stable one.
- Floating-point rounding, overflow and not-a-number in cost sums and what-if values: costs are exact reals; a conversion out of range, undefined in the original, is a failure value.
- Ranking.RankCandidates: does not model the wording of reasons and notes, which are values of a datatype here.
- The library's stable sort is modelled by insertion; `Sorting.SortOfPermutation` shows the algorithm does not matter.
- Digests in the replay report, the `to_json` field listings, explanations, comparison of decisions and the timeline: long listings without hard properties; the timeline comparator is not transitive when zero and non-zero monotonic times mix.
- Codecs of device, node, workload, topology, reservation and deadline descriptors: the same shape as those modelled.
- Server.Perform: does not model the wording of acknowledgements; the verdict itself is the answer.
- SHA-256 collision resistance is never assumed: corruption results are about truncation and about the checksum of frames.
- Assembling four bytes into a word is a sum of scaled bytes in the model, a chain of shifts and ors in the original.
