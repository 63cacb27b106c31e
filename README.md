# bip300-enforcer-demo, modelled in Dafny

The program generates a short chain of blocks for a local Bitcoin node and
prints a POSIX shell script that submits them. Each block exercises one
BIP300 sidechain condition. The node is expected to reject some of them,
for example a coinbase holding two identical M2 acknowledgements. The
script is the program's only output.

This project models the block-building core and the script emitter. It
also proves what they guarantee.

- **Subsidy**: `block_subsidy`. The halving interval is 150 blocks on
  Regtest and 210 000 elsewhere. The subsidy is 50 coins divided by
  `1 << epoch`.
- **Commitments**: the M1 (proposal) and M2 (acknowledgement) coinbase
  scripts of `m1_txout` and `m2_txout`, as exact byte layouts. The model
  includes a decoder that reads them back.
- **BlockAssembly**: `gen_block`.
  - It builds the coinbase transaction. This includes the BIP34 height push,
    the null outpoint, the maximum sequence number and the lock height
    `height + 100`.
  - It places the coinbase in front of `txs` with reverse, push and reverse.
  - It computes the merkle root.
  - It runs the nonce search over the 80 header bytes, held in an `array`.
    The loop writes the big-endian counter into bytes 76..79.
  - The decoded nonce is therefore the byte-swapped counter.
- **ScriptGeneration**: `gen_txs`, `gen_comment`, `gen_setup_blocks` and
  `gen_script`.
  - The chain cursor (height, previous hash, target) is carried from block
    to block exactly as the code does it.
  - `gen_script` is a method over an `OutputPosixScriptBuilder`. It is proved
    equal to the function `GenScriptSpec`.
  - Lemmas about that function and the functions it is built from state what
    the setup and scenario blocks are, how the scenario joins the last setup
    block (`GenScriptLinks`, `GenScriptHeights`) and what the script is.
- **PosixScriptBuilder**: `Command` and `Comment` display, and the builder
  class with `new`, `command`, `comment`, `curl_rpc`, `submitblock` and
  `finalize`.
  - `finalize` is a loop with one-item look-ahead.
  - It is proved against the `Layout` function.
  - Lemmas about `Layout` give the separator rules, the worked example and
    the trailing newline.
- **Cli**: `BlockSpec::requires_m1`, `n_reasons_invalid` (a counting method),
  `BlocksSpec::requires_m1`, and the conversion of command-line network names.
- **Consensus, Bytes, Text**: the parts of the `bitcoin` crate and of Rust's
  standard library that the proofs need.
  - The 80-byte header encoding and the script-number push are written out
    (both are fixed by the Bitcoin protocol).
  - So are `u32` byte orders, lower-case hex, `join`, `lines` and decimal
    formatting.

The crate operations whose internals are not modelled are fields of a
`Primitives` value, so every result holds for any implementation of them:
sha256d, the merkle root, compact/full target conversion, block
serialisation, the p2wsh script, and BIP34 height decoding. Three inputs are
parameters, and results hold for every value of them:

- the header time, as a `clock` that gives the time of the k-th generated
  block;
- the node's block template;
- the JSON text of an RPC request, as `toJson`.

The model takes integer overflow to panic, as it does in a build with
overflow checks (Rust's debug profile), and turns each such panic into
`Failure(Overflow)`. This covers `height + COINBASE_MATURITY`, `1 << epoch`
and the nonce counter. The driver (`SetupBlocks`, `ScenarioBlock` and the
methods that compute them) calls `block_subsidy` as written, so a block from
the 64th halving epoch on ends the run with that overflow
(`SetupBlocksSubsidyPanics`, `ScenarioBlockSubsidy`, `RegtestSetupPanics`).

Behaviour of the code worth knowing, which the model follows:

- **Comment followed by a command.** `finalize` writes a single `"\n"`
  between a comment and the command after it, so there is no blank line
  between them (src/posix_script_builder.rs:89-91). `FinalizedExample`
  proves this.
- **Setup heights.** The cursor height after a setup block is that block's
  own decoded height (src/main.rs:168, 223); only the scenario loop adds one
  (src/main.rs:248).
  - The second setup block therefore pushes the same height as the first.
  - So does the first scenario block, so consecutive coinbases do not push
    consecutive heights as BIP34 expects of a chain.
  - `SetupHeightReused`, `GenScriptHeights` and `ScenarioChain` state this.
- **M2 tag.** Both commitment builders write the same four tag bytes
  `D5 E0 C4 AF` (src/main.rs:104, 117). `M1M2SharePrefix` states this.
- **Target comparison.** The search stops when the hash is strictly below
  the target. `validate_pow` then checks "at most the target". The model has
  both predicates, `HashBelow` and `MeetsTarget`. `GenBlockSound` proves
  that the assertion at src/main.rs:97 always holds.
- **`height += 1` in the scenario loop.** It cannot overflow. A block at
  height `u32::MAX` is never generated, because its lock height
  `height + 100` already overflows. `MineScenario` relies on this.

## Model

| member | source | states |
|---|---|---|
| Subsidy.HalvingInterval | src/main.rs:32-37 | 150 on Regtest, 210 000 (`SUBSIDY_HALVING_INTERVAL`) on every other network; both directions, and never zero |
| Subsidy.BlockSubsidyAsWritten | src/main.rs:38-39 | the function as written: it panics (Overflow) exactly when the epoch `height / interval` reaches 64, the width of the shifted `u64` |
| Subsidy.Shifted | src/main.rs:39 | 50 coins divided by `2^epoch` is at most 50 coins |
| Subsidy.EpochSubsidy | src/main.rs:39 | the corrected subsidy after `epoch` halvings is at most 50 coins |
| Subsidy.FirstEpochSubsidy | src/main.rs:38-39 | below the first halving height the subsidy is 5 000 000 000 sat, on every network |
| Subsidy.EpochSubsidyHalves | src/main.rs:38-39 | the subsidy of epoch k+1 is the subsidy of epoch k halved by integer division |
| Subsidy.EpochSubsidyNonIncreasing | src/main.rs:38-39 | a later epoch never pays more than an earlier one |
| Subsidy.BlockSubsidyNonIncreasing | src/main.rs:30-40 | on any network, a greater height never gets a greater subsidy |
| Subsidy.SubsidyVanishes | src/main.rs:39 | from epoch 33 on, the integer quotient is already 0 |
| Subsidy.AsWrittenAgrees | src/main.rs:30-40 | where the code as written returns, it returns the corrected subsidy; where it panics, the corrected subsidy is 0 |
| Subsidy.RegtestShiftOverflow | src/main.rs:33-39 | on Regtest at height 9600 the code as written panics, while the corrected subsidy is 0 |
| Commitments.ParseMessage | src/main.rs:103-105 | a script reads as a message only if it is at least 6 bytes long and starts with the opcode and the four tag bytes; the slot read is its sixth byte |
| Commitments.ParseMessageScript | src/main.rs:101-125 | reading a message script back gives the message's slot and payload |
| Commitments.MessageScriptOfParse | src/main.rs:101-125 | a script that reads as a message is exactly that message's script (the other direction of the round trip) |
| Commitments.M1Decodes | src/main.rs:101-112 | `m1_txout(s, d)` has value zero, reads back as slot `s` with payload `d`, and its script is 6 bytes longer than `d` |
| Commitments.M2Decodes | src/main.rs:114-125 | `m2_txout(s, d)` has value zero, reads back as slot `s` with payload sha256d(d), and its script is always 38 bytes long |
| Commitments.M2OnlyThroughHash | src/main.rs:118 | the M2 output depends on the description only through its hash |
| Commitments.M2PayloadIsNotDescription | src/main.rs:118 | for a description that is not 32 bytes long, the M2 payload is not the raw description |
| Commitments.M1M2SharePrefix | src/main.rs:103-117 | both builders write the same six leading bytes: `OP_RETURN`, `D5 E0 C4 AF`, the slot |
| Commitments.DemoM1Size | src/main.rs:127-128 | the M1 of the demonstration sidechain (slot 0xFF, "demo sidechain") is a 20-byte script |
| Consensus.LockTimeFromHeightCases | src/main.rs:58 | `LockTime::from_height` gives a height lock exactly below 500 000 000, and otherwise reports the value |
| Consensus.ComputeMerkleRoot | src/main.rs:80 | there is no root exactly for an empty transaction list, so the `unwrap` after the coinbase is pushed cannot fail |
| Consensus.SerializeHeader | src/main.rs:83 | a header encodes to 80 bytes |
| Consensus.DeserializeHeader | src/main.rs:96 | decoding succeeds exactly on 80 bytes |
| Consensus.SerializeHeaderLayout | src/main.rs:83-94 | where each field sits in the 80 bytes; the nonce is the little-endian word at 76..79 |
| Consensus.HeaderRoundTrip | src/main.rs:83-96 | decoding an encoded header gives it back |
| Consensus.HeaderBytesRoundTrip | src/main.rs:96 | encoding a decoded header gives the 80 bytes back |
| Consensus.PatchedNonce | src/main.rs:89-96 | writing the big-endian bytes of counter k over 76..79 and decoding gives the same header with nonce ByteSwap32(k) |
| Consensus.PushIntEncodesHeight | src/main.rs:51 | for a height above 16 the script_sig is a length byte followed by 1 to 5 bytes whose little-endian value is the height and whose sign bit is clear (BIP 34) |
| Bytes.Le32RoundTrip | src/main.rs:90 | reading back the little-endian bytes of a `u32` gives the value |
| Bytes.ReadLe32RoundTrip | src/main.rs:96 | writing back a value read from four bytes gives the bytes |
| Bytes.ByteSwapLayout | src/main.rs:90-94 | the little-endian bytes of the swapped counter are the counter's big-endian bytes |
| Bytes.ByteSwapInvolutive | src/main.rs:89-94 | swapping twice restores the counter, so the nonce determines the counter |
| Bytes.ZeroBytes | src/main.rs:74 | the initial nonce 0 has all-zero bytes in either order |
| Bytes.LowerHex | src/posix_script_builder.rs:134 | two characters per byte |
| Bytes.LowerHexDigits | src/posix_script_builder.rs:134 | characters 2i and 2i+1 are the high and low nibble of byte i |
| BlockAssembly.CoinbaseTxCases | src/main.rs:49-61 | the coinbase is built exactly when height + 100 is a valid lock height; it is version 2, locked at height + 100, has the single coinbase input and pays the given outputs; otherwise the addition overflows or the lock height is refused |
| BlockAssembly.Reverse | src/main.rs:62-64 | element i of the reversal is element n-1-i |
| BlockAssembly.ReversePushReverse | src/main.rs:62-64 | reverse, push, reverse puts the coinbase in front of `txs` in their original order |
| BlockAssembly.FirstNonceIsFirst | src/main.rs:84-95 | the counter found meets the target and no smaller one from the start does; when none is found, no counter up to `u32::MAX` does |
| BlockAssembly.SearchNonce | src/main.rs:84-95 | the loop returns the first counter whose header meets the target, and leaves bytes 0..75 unchanged with the counter's big-endian bytes at 76..79 |
| BlockAssembly.GenBlock | src/main.rs:42-99 | the method computes exactly the block (or the error) given by GenBlockSpec |
| BlockAssembly.NonceHash | src/main.rs:85-94 | the hash the loop computes for counter j is the hash of the header with nonce ByteSwap32(j) |
| BlockAssembly.GenBlockSound | src/main.rs:49-98 | a generated block is the coinbase followed by `txs`, under a header that links to `prev_blockhash`, asks for `bits`, carries the time, commits to the transactions, has a hash strictly below the target, and passes `validate_pow` |
| BlockAssembly.FirstNonceHeaders | src/main.rs:84-96 | restated over headers: the chosen nonce meets the target and the nonce of no smaller counter does |
| BlockAssembly.NoNonceHeaders | src/main.rs:84-95 | the search finds nothing exactly when no counter gives a header meeting the target |
| BlockAssembly.GenBlockNonceFirst | src/main.rs:82-96 | in a generated block, every header with the nonce of a smaller counter misses the target |
| BlockAssembly.GenBlockFailures | src/main.rs:56-95 | `gen_block` fails with Overflow when height + 100 passes `u32::MAX`, with the lock-time error when it reaches 500 000 000, and otherwise exactly when no nonce meets the target |
| Cli.FromBitcoinNetwork | src/cli.rs:19-27 | the inverse conversion is undefined only for Signet |
| Cli.NetworkRoundTrip | src/cli.rs:19-27 | Mainnet, Testnet and Regtest map to Bitcoin, Testnet and Regtest and back |
| Cli.ToBitcoinNetworkInjective | src/cli.rs:19-27 | no two command-line names give the same network |
| Cli.ToBitcoinNetworkOnto | src/cli.rs:19-27 | every crate network except Signet is reached |
| Cli.NReasonsInvalid | src/cli.rs:56-63 | the counter ends at the number of reasons the condition carries |
| Cli.RequiresM1IsDuplicateM2 | src/cli.rs:50-52 | a condition requires an M1 exactly when it carries the duplicate-M2 reason |
| Cli.ReasonCountBounds | src/cli.rs:50-63 | the count is 1 with `duplicate_m2` and 0 without, so at most 1, and at least 1 whenever an M1 is required |
| Cli.AnyRequiresM1 | src/cli.rs:72-74 | the scenario requires an M1 exactly when some condition does |
| Cli.AnyRequiresM1Empty | src/cli.rs:72-74 | the empty scenario requires none |
| Cli.AnyRequiresM1Concat | src/cli.rs:72-74 | the query of a concatenation is the disjunction of the queries of its parts |
| Text.JoinSnoc | src/posix_script_builder.rs:16-19 | joining one more part appends the separator and the part |
| Text.Split | src/posix_script_builder.rs:30 | the pieces of a split contain no separator, and there is always at least one |
| Text.SplitJoin | src/posix_script_builder.rs:30-33 | splitting a join at a character absent from the parts gives the parts back |
| Text.Lines | src/posix_script_builder.rs:30 | no line of `lines()` contains a newline |
| Text.LinesOfJoin | src/posix_script_builder.rs:29-33 | lines joined by "\n" are the `lines()` of the result, when none has a newline or trailing '\r' and the last is not empty |
| Text.LinesOfEmpty | src/posix_script_builder.rs:30 | an empty text has no lines, so it renders as an empty comment |
| Text.DecimalString | src/main.rs:189 | the decimal text of a number is non-empty and made of digits |
| Text.DecimalStringValue | src/main.rs:188-190 | the digits read back as the number and have no leading zero |
| PosixScriptBuilder.RenderCommandWords | src/posix_script_builder.rs:14-22 | when no word contains a space, splitting the line at spaces gives the command followed by its arguments |
| PosixScriptBuilder.Marked | src/posix_script_builder.rs:31 | one marked line per line |
| PosixScriptBuilder.RenderSingleLineComment | src/posix_script_builder.rs:27-36 | a one-line comment renders as "# " followed by the line |
| PosixScriptBuilder.RenderCommentOfLines | src/posix_script_builder.rs:27-36 | a comment made of plain lines renders as those lines, each behind "# ", joined by "\n" |
| PosixScriptBuilder.RenderCommentLines | src/posix_script_builder.rs:27-36 | the rendered comment's lines are the marked lines of its text, and it does not end in a newline |
| PosixScriptBuilder.LayoutSingle | src/posix_script_builder.rs:78-105 | a single item is followed by one newline |
| PosixScriptBuilder.SeparatorBeforeNext | src/posix_script_builder.rs:83-101 | before a next item, comment then comment and command then anything get a blank line; comment then command gets only the newline |
| PosixScriptBuilder.LayoutCons | src/posix_script_builder.rs:81-103 | the text of a script is its first item, a newline plus the gap the next item's kind calls for, then the rest |
| PosixScriptBuilder.LayoutPair | src/posix_script_builder.rs:83-101 | two items are separated by the gap their kinds call for |
| PosixScriptBuilder.LayoutSnoc | src/posix_script_builder.rs:78-105 | appending an item adds the gap after the previous last item, the item's text and one newline |
| PosixScriptBuilder.LayoutAt | src/posix_script_builder.rs:81-103 | the text from item i on is item i, its look-ahead separator, and the text from i+1 on |
| PosixScriptBuilder.FinalizedSnoc | src/posix_script_builder.rs:78-105 | the finalised text of a script with one more item, for an empty and for a non-empty script |
| PosixScriptBuilder.FinalizedEmpty | src/posix_script_builder.rs:79-104 | an empty script finalises to "" |
| PosixScriptBuilder.FinalizedEndsWithLastItem | src/posix_script_builder.rs:78-105 | a non-empty script ends with its last item's text and one newline |
| PosixScriptBuilder.FinalizedNoTrailingBlankLine | src/posix_script_builder.rs:78-105 | when the last item does not end in a newline, the text ends in exactly one "\n", never "\n\n" |
| PosixScriptBuilder.FinalizedExample | src/posix_script_builder.rs:83-101 | comment, comment, command renders as c1 "\n\n" c2 "\n" x "\n" |
| PosixScriptBuilder.LayoutCommentsThenCommand | src/posix_script_builder.rs:83-101 | the same example over rendered texts |
| PosixScriptBuilder.CurlRpcCommandLine | src/posix_script_builder.rs:118-127 | the `curl` call has exactly seven arguments and renders as `curl 'addr' -H 'Content-Type: application/json' --user 'user:pass' --data-binary 'json'` |
| PosixScriptBuilder.OutputPosixScriptBuilder.constructor | src/posix_script_builder.rs:52-58 | a new builder holds the address and credentials and no items |
| PosixScriptBuilder.OutputPosixScriptBuilder.PushCommand | src/posix_script_builder.rs:60-68 | `command` appends exactly one command at the back; earlier items, address and credentials are unchanged |
| PosixScriptBuilder.OutputPosixScriptBuilder.PushComment | src/posix_script_builder.rs:70-76 | `comment` appends exactly one comment at the back; earlier items, address and credentials are unchanged |
| PosixScriptBuilder.OutputPosixScriptBuilder.Finalize | src/posix_script_builder.rs:78-105 | the loop's text is the layout of the items with the look-ahead separators |
| PosixScriptBuilder.OutputPosixScriptBuilder.CurlRpc | src/posix_script_builder.rs:108-128 | appends one `curl` command carrying the JSON-RPC 2.0 request with id "bip347-enforcer-test" |
| PosixScriptBuilder.OutputPosixScriptBuilder.SubmitBlock | src/posix_script_builder.rs:131-136 | appends exactly one item: the `submitblock` call with the block's hex serialisation |
| ScriptGeneration.GenTxs | src/main.rs:200-211 | no extra transactions, and two coinbase outputs per reason |
| ScriptGeneration.GenTxsDuplicateM2 | src/main.rs:200-211 | with `duplicate_m2`, exactly two identical outputs, each a zero-value M2 for the demonstration sidechain; without it, none |
| ScriptGeneration.HeadingPlain | src/main.rs:188-191 | the heading is a single plain line of 42 characters plus the digits |
| ScriptGeneration.CommentHeadingCount | src/main.rs:188-191 | the digits in the heading read back as the number of reasons |
| ScriptGeneration.GenCommentLines | src/main.rs:187-197 | the comment's lines are the heading and one line per reason, and it renders with "# " before each |
| ScriptGeneration.SetupBlocks | src/main.rs:131-184 | computed with the code's `block_subsidy` and its overflow, a successful setup yields one block, or two exactly when the scenario requires an M1 |
| ScriptGeneration.SetupBlocksSubsidyPanics | src/main.rs:155 | from the 64th halving epoch of the template height on, and only there, setup ends with the overflow of `block_subsidy` |
| ScriptGeneration.RegtestSetupPanics | src/main.rs:155-223 | on Regtest a template at height 9600 ends the whole run with that overflow, whatever the scenario |
| ScriptGeneration.GenSetupBlocks | src/main.rs:131-184 | the method computes exactly SetupBlocks, with the code's subsidy and its overflow |
| ScriptGeneration.SetupBlocksChain | src/main.rs:154-182 | the code's subsidy at the template height returns a value; the first block is on the template and pays it; the second links to the first's hash and target and pays `[value, m1]`; both meet their targets |
| ScriptGeneration.SetupHeightReused | src/main.rs:163-180 | with a decoder that reads pushed heights back, the second setup block pushes the template height again and the last setup block reads back as the template height |
| ScriptGeneration.PushedHeightReadBack | src/main.rs:168 | restates the assumed decoder property `Bip34Sound` for one block: a version-2 block whose coinbase input pushes h, for h above 16, reads back as h; nothing is proved here about the crate's decoder |
| ScriptGeneration.ScenarioBlockSubsidy | src/main.rs:238-246 | a scenario block from the 64th halving epoch on fails with the overflow of `block_subsidy`; below it, the block pays the corrected subsidy, which equals the code's value there |
| ScriptGeneration.Advance | src/main.rs:248-250 | the cursor moves on exactly when the height is not `u32::MAX`, and then by exactly one |
| ScriptGeneration.ScenarioRun | src/main.rs:235-251 | n conditions give n blocks |
| ScriptGeneration.ScenarioRunFailurePersists | src/main.rs:235-251 | once a condition fails, the run ends with that error |
| ScriptGeneration.ScenarioRunStep | src/main.rs:245-250 | one more generated block is appended, and the cursor moves to its height + 1, its hash and its target |
| ScriptGeneration.ScenarioRunBlockFails | src/main.rs:245-246 | an error from `gen_block` becomes the run's error |
| ScriptGeneration.ScenarioRunOverflows | src/main.rs:248 | for an arbitrary block generator, a block generated at height `u32::MAX` ends the run in Overflow |
| ScriptGeneration.ScenarioGenSound | src/main.rs:236-247 | every block the loop body produces sits on its cursor, has the condition's outputs followed by the subsidy at that height (the value the code's `block_subsidy` returned), and meets its target |
| ScriptGeneration.ScenarioChain | src/main.rs:235-251 | in a completed run, block i is at height h0 + i, links to the previous block's hash and target (the first to the starting cursor), pays the outputs of condition i and the subsidy, and meets its target; the final cursor follows the last block |
| ScriptGeneration.GenScriptSpec | src/main.rs:213-254 | a successful run has one scenario block per condition and one or two setup blocks, two exactly when an M1 is required |
| ScriptGeneration.GenScriptLinks | src/main.rs:222-251 | given the setup blocks and the cursor read back from the last of them, the run keeps those setup blocks, the scenario blocks are linked from that cursor (first block on the last setup block's hash and target, at its decoded height), and the script is the finalised setup comment, submissions and scenario items |
| ScriptGeneration.GenScriptHeights | src/main.rs:168-248 | with a decoder that reads pushed heights back and a template height above 16, scenario block i pushes the template height plus i: the first reuses the setup height |
| ScriptGeneration.ScriptAfterSetup | src/main.rs:222-253 | a setup error is the run's error; otherwise a successful run keeps the setup blocks, has read a cursor back from the last of them, and has one scenario block per condition |
| ScriptGeneration.ScriptAfterSetupLinks | src/main.rs:222-251 | after setup blocks whose last block reads back as a cursor, the scenario blocks are linked from that cursor |
| ScriptGeneration.ScriptAfterSetupText | src/main.rs:226-252 | after such setup blocks, the script is the finalised setup comment, one submission per setup block, then each condition's comment and submission |
| ScriptGeneration.ScenarioScriptLinks | src/main.rs:231-252 | from a given cursor, the scenario blocks are linked from it and the script is the finalised item list |
| ScriptGeneration.ScenarioScript | src/main.rs:231-252 | the scenario part keeps the setup blocks and has one block per condition |
| ScriptGeneration.SubmitSetup | src/main.rs:231-234 | appends one `submitblock` item per setup block, in order |
| ScriptGeneration.MineScenario | src/main.rs:235-251 | the loop computes exactly ScenarioRun and appends, per condition, its comment and its block's `submitblock` |
| ScriptGeneration.MineBlock | src/main.rs:236-247 | one iteration's block is ScenarioBlock on the current cursor, with the code's subsidy and its overflow, and on success the comment and the submission are appended |
| ScriptGeneration.GenScript | src/main.rs:213-254 | `gen_script` computes exactly GenScriptSpec |
| ScriptGeneration.FinishScript | src/main.rs:222-253 | from the setup result on, the method computes exactly ScriptAfterSetup |

## Left out

- Command-line parsing with clap and the JSON reading of the scenario with
  serde (src/cli.rs:77-98). Both are library parsing. The scenario is given
  as a `BlocksSpec` value.
- The RPC client, the `get_block_template` call, the tokio runtime, `main`
  and the final `println!` (src/main.rs:139-150, 252, 256-266). These are
  network and terminal I/O. The block template is a parameter, and
  `GenScript` returns the finalised text instead of printing it.
- The wall clock (src/main.rs:69-72). The time of each block is given by the
  `clock` parameter.
- The JSON text of `serde_json::to_string` (src/posix_script_builder.rs:112-125).
  It is the `toJson` parameter; only the request's fields and the shape of
  the argument list are modelled.
- The socket address is held as the text it displays as.
- The internals of sha256d, the merkle root, `Target::from_compact` and
  `to_compact_lossy`, block serialisation, `Address::p2wsh` and
  `bip34_block_height`. They are fields of `Primitives`, about which nothing
  is assumed. The one exception is the `Bip34Sound` hypothesis of the three
  lemmas that read heights back: SetupHeightReused, PushedHeightReadBack and
  GenScriptHeights.
- SetupHeightReused: stated only for template heights above 16, and only
  under `Bip34Sound`. Heights 0 to 16 are pushed as single opcodes, and the
  crate's decoding of those is not part of this model.
- PushedHeightReadBack: stated only for heights above 16, and only under
  `Bip34Sound`, for the same reason.
- GenScriptHeights: stated only for template heights above 16, and only
  under `Bip34Sound`, for the same reason.
- Commitments.M2PayloadIsNotDescription: stated only for descriptions that
  are not 32 bytes long. For a 32-byte description, whether the payload
  differs depends on sha256d, which is not modelled. The demonstration
  description is 14 bytes.
- Integer overflow is modelled as the panic of a build with overflow checks.
  In a build without them, `u32` additions wrap and `1 << epoch` masks the
  shift amount to `epoch % 64`; that behaviour is not modelled.
- The `VecDeque` of the builder is a sequence that is only appended to; the
  builder is consumed by `finalize` in Rust, and here it is simply no longer
  used.
- ScriptGeneration.GenTxs: a function rather than a method. Its two
  `Vec::push` calls build a value that nothing else can observe.

## Findings

| source | as written | input that shows it | evidently intended | confidence | as-written member | corrected member |
|---|---|---|---|---|---|---|
| src/main.rs:38-39 | `Amount::from_int_btc(50) / (1 << epoch)` shifts a 64-bit integer by the epoch. For an epoch of 64 or more this overflows: with overflow checks it panics, and without them the shift amount is masked to `epoch % 64`, so epoch 64 pays 50 coins again. The driver models the panic | Regtest, height 9600 (epoch 64); on mainnet, height 13 440 000 | the subsidy is 0 from the 64th halving on, as in Bitcoin Core's `GetBlockSubsidy` | not executed; follows from the shift width | Subsidy.BlockSubsidyAsWritten, shown by Subsidy.RegtestShiftOverflow | Subsidy.BlockSubsidy, with Subsidy.EpochSubsidyHalves and Subsidy.BlockSubsidyNonIncreasing; Subsidy.AsWrittenAgrees shows the two agree wherever the code returns |

The driver pays `Subsidy.BlockSubsidyAsWritten`, as the code does, so the
overflow ends the run. The chain lemmas state the paid value as the
corrected `Subsidy.BlockSubsidy`; `Subsidy.AsWrittenAgrees` shows that this
is the value the code pays wherever it does not panic.
