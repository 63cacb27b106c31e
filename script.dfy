/**
 * The generator's driver: the setup blocks, the coinbase outputs and comment
 * of each scenario block, the chain cursor threaded from block to block, and
 * the script that submits every block in order.
 */
module ScriptGeneration {
  import opened Bytes
  import opened Outcomes
  import opened Errors
  import opened Consensus
  import opened Text
  import Cli
  import Subsidy
  import Commitments
  import BlockAssembly
  import opened PosixScriptBuilder

  /** The fields of the node's block template that the generator reads. */
  datatype BlockTemplate = BlockTemplate(height: u32, prevBlockhash: Hash32, target: u32)

  /** `unlocked_script`: the one-opcode script `OP_TRUE`. */
  const UNLOCKED_SCRIPT: seq<byte> := [OP_TRUE]

  /** An output paying `value` to the pay-to-witness-script-hash address of the unlocked script. */
  function ValueTxout(p: Primitives, network: Network, value: nat): TxOut
  {
    TxOut(value, p.p2wshScriptPubkey(UNLOCKED_SCRIPT, network))
  }

  /** The M2 message for the demonstration sidechain. */
  function DemoM2(p: Primitives): TxOut
  {
    Commitments.M2Txout(p, Commitments.DEMO_SIDECHAIN_SLOT, Commitments.DEMO_SIDECHAIN_DESCRIPTION)
  }

  /**
   * `gen_txs`: the commitment outputs and the extra transactions of a scenario
   * block. A duplicate M2 is the demonstration M2 twice; no extra transactions.
   */
  function GenTxs(p: Primitives, spec: Cli.BlockSpec): (r: (seq<TxOut>, seq<Transaction>))
    ensures r.1 == []
    ensures |r.0| == 2 * |spec.Reasons()|
  {
    Cli.ReasonCountBounds(spec);
    if spec.duplicateM2 then
      var m2Txout := DemoM2(p);
      ([m2Txout, m2Txout], [])
    else
      ([], [])
  }

  /**
   * The outputs a duplicate-M2 block starts with are two equal zero-value
   * messages for the demonstration slot, carrying the hash of its description.
   */
  lemma GenTxsDuplicateM2(p: Primitives, spec: Cli.BlockSpec)
    ensures var outs := GenTxs(p, spec).0;
      && (spec.duplicateM2 <==> |outs| == 2)
      && (!spec.duplicateM2 <==> outs == [])
      && (spec.duplicateM2 ==> outs[0] == outs[1])
      && forall i :: 0 <= i < |outs| ==>
           outs[i].value == 0 &&
           Commitments.ParseMessage(outs[i].scriptPubkey) ==
             Some(Commitments.Message(Commitments.DEMO_SIDECHAIN_SLOT, p.sha256d(Commitments.DEMO_SIDECHAIN_DESCRIPTION)))
  {
    Cli.ReasonCountBounds(spec);
    Commitments.M2Decodes(p, Commitments.DEMO_SIDECHAIN_SLOT, Commitments.DEMO_SIDECHAIN_DESCRIPTION);
  }

  const DUPLICATE_M2_LINE: string := "- 1 duplicate M2 message in coinbase outputs"

  /** The first line of a block's comment, counting `n` reasons for invalidity. */
  function CommentHeading(n: nat): string
  {
    "Generate a block with " + DecimalString(n) + " invalid conditions:"
  }

  /** `gen_comment`: the heading, then one line per reason, joined by "\n". */
  function GenComment(spec: Cli.BlockSpec): string
  {
    var comment := [CommentHeading(|spec.Reasons()|)];
    var comment' := if spec.duplicateM2 then comment + [DUPLICATE_M2_LINE] else comment;
    Join(comment', "\n")
  }

  /** The lines a block's comment is made of. */
  function CommentLines(spec: Cli.BlockSpec): seq<string>
  {
    [CommentHeading(|spec.Reasons()|)] + (if spec.duplicateM2 then [DUPLICATE_M2_LINE] else [])
  }

  lemma HeadingPlain(n: nat)
    ensures IsPlainLine(CommentHeading(n))
    ensures |CommentHeading(n)| == 42 + |DecimalString(n)|
  {
    var d := DecimalString(n);
    var h := CommentHeading(n);
    assert '\n' !in "Generate a block with " && '\n' !in " invalid conditions:";
    assert '\n' !in d;
    assert h[|h| - 1] == ':';
  }

  /** The heading states the number it counts: the digits between its fixed words read back as `n`. */
  lemma CommentHeadingCount(n: nat)
    ensures var h := CommentHeading(n);
      |h| >= 43 && DecimalValue(h[22..|h| - 20]) == n
  {
    HeadingPlain(n);
    var h := CommentHeading(n);
    assert h[22..|h| - 20] == DecimalString(n);
    DecimalStringValue(n);
  }

  /**
   * A block's comment is its heading and then one line per reason, and the
   * rendered comment puts "# " before each.
   */
  lemma GenCommentLines(spec: Cli.BlockSpec)
    ensures Lines(GenComment(spec)) == CommentLines(spec)
    ensures |CommentLines(spec)| == 1 + |spec.Reasons()|
    ensures RenderComment(Comment(GenComment(spec))) == Join(Marked(CommentLines(spec)), "\n")
  {
    var n := |spec.Reasons()|;
    var ls := CommentLines(spec);
    Cli.ReasonCountBounds(spec);
    HeadingPlain(n);
    assert IsPlainLine(DUPLICATE_M2_LINE);
    assert GenComment(spec) == Join(ls, "\n");
    LinesOfJoin(ls);
    RenderCommentOfLines(ls);
  }

  /** The chain cursor: where the next block goes. */
  datatype Cursor = Cursor(height: u32, prevBlockhash: Hash32, target: u32)

  /** `bip34_block_height()? as u32`: the decoded height, truncated to 32 bits. */
  function Bip34Height(p: Primitives, block: Block): Result<u32, Error>
  {
    match p.bip34BlockHeight(block)
    case None => Failure(Bip34Unreadable)
    case Some(h) => Success(h % U32_LIMIT)
  }

  /** `block.header.target().to_compact_lossy()`. */
  function NextTarget(p: Primitives, block: Block): u32
  {
    p.targetToCompactLossy(p.targetFromCompact(block.header.bits))
  }

  /** The cursor read back from a block: its hash, its own BIP34 height, its target. */
  function CursorAt(p: Primitives, block: Block): Result<Cursor, Error>
  {
    var height :- Bip34Height(p, block);
    Success(Cursor(height, BlockHash(p, block.header), NextTarget(p, block)))
  }

  /** A block's coinbase pays `outputs` and pushes `height`. */
  predicate CoinbaseIs(block: Block, height: u32, outputs: seq<TxOut>)
  {
    && |block.txdata| >= 1
    && block.txdata[0].input == [BlockAssembly.CoinbaseInput(height)]
    && block.txdata[0].output == outputs
  }

  /**
   * What `gen_setup_blocks` returns: a block paying the subsidy, and when an
   * M1 is needed a second block on top of it that pays the same value and
   * proposes the demonstration sidechain. Block `k` is stamped `clock(k)`.
   */
  function SetupBlocks(p: Primitives, network: Network, template: BlockTemplate,
                       blocksSpec: Cli.BlocksSpec, clock: nat -> u32): (r: Result<seq<Block>, Error>)
    ensures r.Success? ==> |r.value| == (if blocksSpec.RequiresM1() then 2 else 1)
  {
    var coinbaseValue :- Subsidy.BlockSubsidyAsWritten(network, template.height);
    var first :- BlockAssembly.GenBlockSpec(p, template.prevBlockhash, template.target, template.height,
                                            [ValueTxout(p, network, coinbaseValue)], [], clock(0));
    var cursor :- CursorAt(p, first);
    if !blocksSpec.RequiresM1() then Success([first])
    else
      var coinbaseTxouts := [ValueTxout(p, network, coinbaseValue),
                             Commitments.M1Txout(Commitments.DEMO_SIDECHAIN_SLOT, Commitments.DEMO_SIDECHAIN_DESCRIPTION)];
      var second :- BlockAssembly.GenBlockSpec(p, cursor.prevBlockhash, cursor.target, cursor.height,
                                               coinbaseTxouts, [], clock(1));
      Success([first, second])
  }

  /**
   * `gen_setup_blocks`. The node's block template is the parameter `template`;
   * the wall clock is `clock`.
   */
  method GenSetupBlocks(p: Primitives, network: Network, template: BlockTemplate,
                        blocksSpec: Cli.BlocksSpec, clock: nat -> u32) returns (r: Result<seq<Block>, Error>)
    ensures r == SetupBlocks(p, network, template, blocksSpec, clock)
  {
    var blocks: seq<Block> := [];
    var height := template.height;
    var prevBlockhash := template.prevBlockhash;
    var target := template.target;
    var subsidy := Subsidy.BlockSubsidyAsWritten(network, height);
    if subsidy.Failure? {
      return Failure(subsidy.error);
    }
    var coinbaseValue := subsidy.value;
    var coinbaseTxout := ValueTxout(p, network, coinbaseValue);
    var block := BlockAssembly.GenBlock(p, prevBlockhash, target, height, [coinbaseTxout], [], clock(0));
    if block.Failure? {
      return Failure(block.error);
    }
    prevBlockhash := BlockHash(p, block.value.header);
    var decoded := Bip34Height(p, block.value);
    if decoded.Failure? {
      return Failure(decoded.error);
    }
    height := decoded.value;
    target := NextTarget(p, block.value);
    blocks := blocks + [block.value];
    if blocksSpec.RequiresM1() {
      var valueTxout := ValueTxout(p, network, coinbaseValue);
      var m1Txout := Commitments.M1Txout(Commitments.DEMO_SIDECHAIN_SLOT, Commitments.DEMO_SIDECHAIN_DESCRIPTION);
      var coinbaseTxouts := [valueTxout, m1Txout];
      var second := BlockAssembly.GenBlock(p, prevBlockhash, target, height, coinbaseTxouts, [], clock(1));
      if second.Failure? {
        return Failure(second.error);
      }
      blocks := blocks + [second.value];
      assert blocks == [block.value, second.value];
    } else {
      assert blocks == [block.value];
    }
    return Success(blocks);
  }

  /** The first input of the block's first transaction is the coinbase input for `height`. */
  predicate CoinbasePushes(b: Block, height: u32)
  {
    |b.txdata| >= 1 && |b.txdata[0].input| >= 1 && b.txdata[0].input[0] == BlockAssembly.CoinbaseInput(height)
  }

  /**
   * `Block::bip34_block_height` reads back a height above 16 that the coinbase
   * pushes, for a block whose version supports BIP34. Heights up to 16 are
   * pushed as a single opcode, which this assumption leaves out.
   */
  ghost predicate Bip34Sound(p: Primitives)
  {
    forall b: Block, h: u32 ::
      16 < h && b.header.version >= 2 && CoinbasePushes(b, h) ==> p.bip34BlockHeight(b) == Some(h)
  }

  /**
   * The setup blocks: the first pays the subsidy at the template height on top
   * of the template's tip; the second, when present, sits on the first, pays
   * the same value, proposes the demonstration sidechain, and pushes the height
   * read back from the first block. Each meets the target it asks for.
   */
  lemma {:induction false} SetupBlocksChain(p: Primitives, network: Network, template: BlockTemplate,
                         blocksSpec: Cli.BlocksSpec, clock: nat -> u32)
    ensures var r := SetupBlocks(p, network, template, blocksSpec, clock);
      r.Success? ==>
        var bs := r.value;
        var value := Subsidy.BlockSubsidy(network, template.height);
        && Subsidy.BlockSubsidyAsWritten(network, template.height) == Success(value)
        && bs[0].header.prevBlockhash == template.prevBlockhash
        && bs[0].header.bits == template.target
        && CoinbaseIs(bs[0], template.height, [ValueTxout(p, network, value)])
        && ValidPow(p, bs[0].header, p.targetFromCompact(bs[0].header.bits))
        && Bip34Height(p, bs[0]).Success?
        && (|bs| == 2 ==>
              && bs[1].header.prevBlockhash == BlockHash(p, bs[0].header)
              && bs[1].header.bits == NextTarget(p, bs[0])
              && CoinbaseIs(bs[1], Bip34Height(p, bs[0]).value,
                            [ValueTxout(p, network, value),
                             Commitments.M1Txout(Commitments.DEMO_SIDECHAIN_SLOT, Commitments.DEMO_SIDECHAIN_DESCRIPTION)])
              && ValidPow(p, bs[1].header, p.targetFromCompact(bs[1].header.bits)))
  {
    var value := Subsidy.BlockSubsidy(network, template.height);
    Subsidy.AsWrittenAgrees(network, template.height);
    BlockAssembly.GenBlockSound(p, template.prevBlockhash, template.target, template.height,
                                [ValueTxout(p, network, value)], [], clock(0));
    var first := BlockAssembly.GenBlockSpec(p, template.prevBlockhash, template.target, template.height,
                                            [ValueTxout(p, network, value)], [], clock(0));
    if first.Success? && CursorAt(p, first.value).Success? {
      var cursor := CursorAt(p, first.value).value;
      BlockAssembly.GenBlockSound(p, cursor.prevBlockhash, cursor.target, cursor.height,
                                  [ValueTxout(p, network, value),
                                   Commitments.M1Txout(Commitments.DEMO_SIDECHAIN_SLOT, Commitments.DEMO_SIDECHAIN_DESCRIPTION)],
                                  [], clock(1));
    }
  }

  /**
   * The height is not advanced between setup blocks: when the decoder reads
   * the pushed height back, the second setup block pushes the same height as
   * the first, and the last setup block reads back as the template height.
   */
  lemma {:induction false} SetupHeightReused(p: Primitives, network: Network, template: BlockTemplate,
                          blocksSpec: Cli.BlocksSpec, clock: nat -> u32)
    requires Bip34Sound(p)
    requires 16 < template.height
    ensures var r := SetupBlocks(p, network, template, blocksSpec, clock);
      r.Success? ==>
        && (|r.value| == 2 ==> CoinbasePushes(r.value[1], template.height))
        && Bip34Height(p, r.value[|r.value| - 1]) == Success(template.height)
  {
    var value := Subsidy.BlockSubsidy(network, template.height);
    Subsidy.AsWrittenAgrees(network, template.height);
    var outs0 := [ValueTxout(p, network, value)];
    var first := BlockAssembly.GenBlockSpec(p, template.prevBlockhash, template.target, template.height, outs0, [], clock(0));
    var r := SetupBlocks(p, network, template, blocksSpec, clock);
    if r.Success? {
      assert first.Success? && r.value[0] == first.value;
      BlockAssembly.GenBlockSound(p, template.prevBlockhash, template.target, template.height, outs0, [], clock(0));
      PushedHeightReadBack(p, first.value, template.height);
      if blocksSpec.RequiresM1() {
        var cursor := CursorAt(p, first.value).value;
        assert cursor.height == template.height;
        var outs1 := [ValueTxout(p, network, value),
                      Commitments.M1Txout(Commitments.DEMO_SIDECHAIN_SLOT, Commitments.DEMO_SIDECHAIN_DESCRIPTION)];
        var second := BlockAssembly.GenBlockSpec(p, cursor.prevBlockhash, cursor.target, cursor.height, outs1, [], clock(1));
        assert second.Success? && r.value == [first.value, second.value];
        BlockAssembly.GenBlockSound(p, cursor.prevBlockhash, cursor.target, cursor.height, outs1, [], clock(1));
        PushedHeightReadBack(p, second.value, template.height);
      } else {
        assert r.value == [first.value];
      }
    }
  }

  /**
   * A template from the 64th halving epoch on ends `gen_setup_blocks` with the
   * overflow of `block_subsidy`, before any block is built.
   */
  lemma SetupBlocksSubsidyPanics(p: Primitives, network: Network, template: BlockTemplate,
                                 blocksSpec: Cli.BlocksSpec, clock: nat -> u32)
    ensures Subsidy.Epoch(network, template.height) >= 64 <==>
              SetupBlocks(p, network, template, blocksSpec, clock) == Failure(Overflow) &&
              Subsidy.BlockSubsidyAsWritten(network, template.height).Failure?
  {
  }

  /** On Regtest, a template at height 9600 makes the whole run panic. */
  lemma RegtestSetupPanics(p: Primitives, toJson: RpcRequest -> string, rpcAddr: string, rpcAuth: Cli.RpcAuth,
                           prevBlockhash: Hash32, target: u32, blocksSpec: Cli.BlocksSpec, clock: nat -> u32)
    ensures GenScriptSpec(p, toJson, Regtest, rpcAddr, rpcAuth, BlockTemplate(9600, prevBlockhash, target), blocksSpec, clock)
         == Failure(Overflow)
  {
    Subsidy.RegtestShiftOverflow();
  }

  /** A block that supports BIP34 and whose coinbase pushes `h` reads back as height `h`. */
  lemma PushedHeightReadBack(p: Primitives, b: Block, h: u32)
    requires Bip34Sound(p) && 16 < h
    requires b.header.version >= 2 && |b.txdata| >= 1 && b.txdata[0].input == [BlockAssembly.CoinbaseInput(h)]
    ensures Bip34Height(p, b) == Success(h)
    ensures CoinbasePushes(b, h)
  {
    assert CoinbasePushes(b, h);
  }

  /**
   * The block for one scenario condition: its commitment outputs followed by
   * the subsidy at the cursor's height, on top of the cursor.
   */
  function ScenarioBlock(p: Primitives, network: Network, spec: Cli.BlockSpec, cursor: Cursor, time: u32): Result<Block, Error>
  {
    var gen := GenTxs(p, spec);
    var value :- Subsidy.BlockSubsidyAsWritten(network, cursor.height);
    var coinbaseTxouts := gen.0 + [ValueTxout(p, network, value)];
    BlockAssembly.GenBlockSpec(p, cursor.prevBlockhash, cursor.target, cursor.height, coinbaseTxouts, gen.1, time)
  }

  /**
   * A scenario block from the 64th halving epoch on fails with the overflow of
   * `block_subsidy`; below it, the block pays the subsidy of its epoch.
   */
  lemma ScenarioBlockSubsidy(p: Primitives, network: Network, spec: Cli.BlockSpec, cursor: Cursor, time: u32)
    ensures Subsidy.Epoch(network, cursor.height) >= 64 ==> ScenarioBlock(p, network, spec, cursor, time) == Failure(Overflow)
    ensures Subsidy.Epoch(network, cursor.height) < 64 ==>
              ScenarioBlock(p, network, spec, cursor, time)
              == BlockAssembly.GenBlockSpec(p, cursor.prevBlockhash, cursor.target, cursor.height,
                                            GenTxs(p, spec).0 + [ValueTxout(p, network, Subsidy.BlockSubsidy(network, cursor.height))],
                                            GenTxs(p, spec).1, time)
  {
    Subsidy.AsWrittenAgrees(network, cursor.height);
  }

  /** A generator of scenario blocks: the block for a condition, from a cursor, stamped with a time. */
  type BlockGen = (Cli.BlockSpec, Cursor, u32) -> Result<Block, Error>

  /** The generator `gen_script` uses: `ScenarioBlock` on the given network. */
  function ScenarioGen(p: Primitives, network: Network): (gen: BlockGen)
    ensures forall spec, cursor, time :: gen(spec, cursor, time) == ScenarioBlock(p, network, spec, cursor, time)
  {
    (spec: Cli.BlockSpec, cursor: Cursor, time: u32) => ScenarioBlock(p, network, spec, cursor, time)
  }

  /** The cursor after a scenario block: `height += 1` (which panics at `u32::MAX`), its hash, its target. */
  function Advance(p: Primitives, cursor: Cursor, block: Block): (r: Result<Cursor, Error>)
    ensures r.Failure? <==> cursor.height == U32_MAX
    ensures r.Success? ==> r.value.height == cursor.height + 1
  {
    if cursor.height == U32_MAX then Failure(Overflow)
    else Success(Cursor(cursor.height + 1, BlockHash(p, block.header), NextTarget(p, block)))
  }

  /** The blocks generated so far and the cursor the next one starts from. */
  datatype Progress = Progress(blocks: seq<Block>, cursor: Cursor)

  /**
   * The state after the first `n` scenario conditions, starting from
   * `cursor0`: each block is generated by `gen` from the cursor the previous
   * step left, and the cursor then moves on to it. Block `k0 + i` is stamped
   * `clock(k0 + i)`.
   */
  function ScenarioRun(p: Primitives, gen: BlockGen, specs: seq<Cli.BlockSpec>, n: nat, cursor0: Cursor,
                       clock: nat -> u32, k0: nat): (r: Result<Progress, Error>)
    requires n <= |specs|
    ensures r.Success? ==> |r.value.blocks| == n
  {
    if n == 0 then Success(Progress([], cursor0))
    else
      var before :- ScenarioRun(p, gen, specs, n - 1, cursor0, clock, k0);
      var block :- gen(specs[n - 1], before.cursor, clock(k0 + n - 1));
      var next :- Advance(p, before.cursor, block);
      Success(Progress(before.blocks + [block], next))
  }

  /** Once the first `m` conditions fail, every longer run fails with the same error. */
  lemma {:induction false} ScenarioRunFailurePersists(p: Primitives, gen: BlockGen, specs: seq<Cli.BlockSpec>,
                                                      m: nat, n: nat, cursor0: Cursor, clock: nat -> u32, k0: nat)
    requires m <= n <= |specs|
    requires ScenarioRun(p, gen, specs, m, cursor0, clock, k0).Failure?
    ensures ScenarioRun(p, gen, specs, n, cursor0, clock, k0)
         == Failure(ScenarioRun(p, gen, specs, m, cursor0, clock, k0).error)
    decreases n
  {
    if m < n {
      ScenarioRunFailurePersists(p, gen, specs, m, n - 1, cursor0, clock, k0);
    }
  }

  /** One more condition whose block is generated and whose cursor advances extends the run by that block. */
  lemma {:induction false} ScenarioRunStep(p: Primitives, gen: BlockGen, specs: seq<Cli.BlockSpec>, j: nat,
                                           cursor0: Cursor, clock: nat -> u32, k0: nat, before: Progress, block: Block)
    requires j < |specs|
    requires ScenarioRun(p, gen, specs, j, cursor0, clock, k0) == Success(before)
    requires gen(specs[j], before.cursor, clock(k0 + j)) == Success(block)
    requires before.cursor.height < U32_MAX
    ensures ScenarioRun(p, gen, specs, j + 1, cursor0, clock, k0).Success?
    ensures ScenarioRun(p, gen, specs, j + 1, cursor0, clock, k0).value.blocks == before.blocks + [block]
    ensures ScenarioRun(p, gen, specs, j + 1, cursor0, clock, k0).value.cursor
         == Cursor(before.cursor.height + 1, BlockHash(p, block.header), NextTarget(p, block))
  {
  }

  /** A successful run of `n` conditions is a successful run of `n - 1` and one more step. */
  lemma ScenarioRunLast(p: Primitives, gen: BlockGen, specs: seq<Cli.BlockSpec>, n: nat,
                        cursor0: Cursor, clock: nat -> u32, k0: nat)
    requires 0 < n <= |specs|
    requires ScenarioRun(p, gen, specs, n, cursor0, clock, k0).Success?
    ensures ScenarioRun(p, gen, specs, n - 1, cursor0, clock, k0).Success?
    ensures var before := ScenarioRun(p, gen, specs, n - 1, cursor0, clock, k0).value;
      var step := gen(specs[n - 1], before.cursor, clock(k0 + n - 1));
      && step.Success?
      && Advance(p, before.cursor, step.value).Success?
      && ScenarioRun(p, gen, specs, n, cursor0, clock, k0).value
         == Progress(before.blocks + [step.value], Advance(p, before.cursor, step.value).value)
  {
  }

  /** A condition whose block cannot be generated ends the whole run with that error. */
  lemma {:induction false} ScenarioRunBlockFails(p: Primitives, gen: BlockGen, specs: seq<Cli.BlockSpec>, j: nat,
                                                 cursor0: Cursor, clock: nat -> u32, k0: nat, before: Progress, e: Error)
    requires j < |specs|
    requires ScenarioRun(p, gen, specs, j, cursor0, clock, k0) == Success(before)
    requires gen(specs[j], before.cursor, clock(k0 + j)) == Failure(e)
    ensures ScenarioRun(p, gen, specs, |specs|, cursor0, clock, k0) == Failure(e)
  {
    assert ScenarioRun(p, gen, specs, j + 1, cursor0, clock, k0) == Failure(e);
    ScenarioRunFailurePersists(p, gen, specs, j + 1, |specs|, cursor0, clock, k0);
  }

  /**
   * A block generated at height `u32::MAX` ends the whole run with an overflow.
   * This is about an arbitrary `gen`: the program's own `ScenarioGen` never
   * produces such a block, because its coinbase lock height already overflows.
   */
  lemma {:induction false} ScenarioRunOverflows(p: Primitives, gen: BlockGen, specs: seq<Cli.BlockSpec>, j: nat,
                                                cursor0: Cursor, clock: nat -> u32, k0: nat, before: Progress, block: Block)
    requires j < |specs|
    requires ScenarioRun(p, gen, specs, j, cursor0, clock, k0) == Success(before)
    requires gen(specs[j], before.cursor, clock(k0 + j)) == Success(block)
    requires before.cursor.height == U32_MAX
    ensures ScenarioRun(p, gen, specs, |specs|, cursor0, clock, k0) == Failure(Overflow)
  {
    assert ScenarioRun(p, gen, specs, j + 1, cursor0, clock, k0) == Failure(Overflow);
    ScenarioRunFailurePersists(p, gen, specs, j + 1, |specs|, cursor0, clock, k0);
  }

  /**
   * What a generated scenario block is, given the cursor it was generated
   * from: it sits on the cursor's block, asks for the cursor's target, pays
   * the condition's commitment outputs and then the subsidy at the cursor's
   * height, and meets its target.
   */
  predicate OnCursor(p: Primitives, network: Network, spec: Cli.BlockSpec, c: Cursor, b: Block)
  {
    && b.header.prevBlockhash == c.prevBlockhash
    && b.header.bits == c.target
    && ScenarioCoinbase(p, network, spec, b, c.height)
    && ValidPow(p, b.header, p.targetFromCompact(b.header.bits))
  }

  /** Every block `gen` generates is on the cursor it was generated from. */
  ghost predicate GenSound(p: Primitives, network: Network, gen: BlockGen)
  {
    forall spec, c, time :: SoundAt(p, network, gen, spec, c, time)
  }

  /** The block `gen` generates for `spec` from `c` at `time`, if any, is on `c`. */
  ghost predicate SoundAt(p: Primitives, network: Network, gen: BlockGen, spec: Cli.BlockSpec, c: Cursor, time: u32)
  {
    gen(spec, c, time).Success? ==> OnCursor(p, network, spec, c, gen(spec, c, time).value)
  }

  lemma GenSoundAt(p: Primitives, network: Network, gen: BlockGen, spec: Cli.BlockSpec, c: Cursor, time: u32)
    requires GenSound(p, network, gen) && gen(spec, c, time).Success?
    ensures OnCursor(p, network, spec, c, gen(spec, c, time).value)
  {
    assert SoundAt(p, network, gen, spec, c, time);
  }

  /** The generator of `gen_script` is sound. */
  lemma ScenarioGenSound(p: Primitives, network: Network)
    ensures GenSound(p, network, ScenarioGen(p, network))
  {
    var gen := ScenarioGen(p, network);
    forall spec, c, time ensures SoundAt(p, network, gen, spec, c, time) {
      var txs := GenTxs(p, spec);
      Subsidy.AsWrittenAgrees(network, c.height);
      BlockAssembly.GenBlockSound(p, c.prevBlockhash, c.target, c.height,
                                  txs.0 + [ValueTxout(p, network, Subsidy.BlockSubsidy(network, c.height))],
                                  txs.1, time);
    }
  }

  /**
   * Scenario block `i` sits on block `i - 1` (the first on the starting
   * cursor), asks for the target read back from it, pushes the starting height
   * plus `i`, pays its commitment outputs and then the subsidy at that height,
   * and meets its target; the run ends with the cursor on its last block, at
   * the starting height plus the number of blocks. This holds for any sound
   * generator, and so for the one `gen_script` uses.
   */
  lemma {:induction false} ScenarioChain(p: Primitives, network: Network, gen: BlockGen, specs: seq<Cli.BlockSpec>, n: nat,
                                         cursor0: Cursor, clock: nat -> u32, k0: nat)
    requires GenSound(p, network, gen)
    requires n <= |specs|
    ensures var r := ScenarioRun(p, gen, specs, n, cursor0, clock, k0);
      r.Success? ==> Following(p, cursor0, r.value) && Linked(p, network, specs, cursor0, r.value.blocks)
    decreases n
  {
    var r := ScenarioRun(p, gen, specs, n, cursor0, clock, k0);
    if n > 0 && r.Success? {
      var before := ScenarioRun(p, gen, specs, n - 1, cursor0, clock, k0).value;
      ScenarioRunLast(p, gen, specs, n, cursor0, clock, k0);
      var block := gen(specs[n - 1], before.cursor, clock(k0 + n - 1)).value;
      GenSoundAt(p, network, gen, specs[n - 1], before.cursor, clock(k0 + n - 1));
      ScenarioChain(p, network, gen, specs, n - 1, cursor0, clock, k0);
      ScenarioChainStep(p, network, specs, cursor0, before, block);
    }
  }

  /** Each of `blocks` is scenario block `i` for condition `i` of `specs`. */
  predicate Linked(p: Primitives, network: Network, specs: seq<Cli.BlockSpec>, cursor0: Cursor, blocks: seq<Block>)
  {
    && |blocks| <= |specs|
    && forall i {:trigger ScenarioLink(p, network, specs[i], cursor0, blocks, i)} ::
         0 <= i < |blocks| ==> ScenarioLink(p, network, specs[i], cursor0, blocks, i)
  }

  /** A block on the cursor a linked run left extends the run, still linked. */
  lemma {:induction false} ScenarioChainStep(p: Primitives, network: Network, specs: seq<Cli.BlockSpec>, cursor0: Cursor,
                                             before: Progress, block: Block)
    requires |before.blocks| < |specs|
    requires Following(p, cursor0, before) && Linked(p, network, specs, cursor0, before.blocks)
    requires OnCursor(p, network, specs[|before.blocks|], before.cursor, block)
    requires Advance(p, before.cursor, block).Success?
    ensures Following(p, cursor0, Progress(before.blocks + [block], Advance(p, before.cursor, block).value))
    ensures Linked(p, network, specs, cursor0, before.blocks + [block])
  {
    var blocks := before.blocks + [block];
    forall i | 0 <= i < |before.blocks| ensures ScenarioLink(p, network, specs[i], cursor0, blocks, i) {
      ScenarioLinkExtend(p, network, specs[i], cursor0, before.blocks, block, i);
    }
    ScenarioLinkLast(p, network, specs[|before.blocks|], cursor0, before, block);
  }

  /** The cursor of `run` is the one after its blocks, started from `cursor0`. */
  predicate Following(p: Primitives, cursor0: Cursor, run: Progress)
  {
    && run.cursor.height == cursor0.height + |run.blocks|
    && (run.blocks == [] ==> run.cursor == cursor0)
    && (run.blocks != [] ==>
          var last := run.blocks[|run.blocks| - 1];
          run.cursor.prevBlockhash == BlockHash(p, last.header) && run.cursor.target == NextTarget(p, last))
  }

  /** Appending a block keeps what is known of the earlier ones. */
  lemma {:induction false} ScenarioLinkExtend(p: Primitives, network: Network, spec: Cli.BlockSpec, cursor0: Cursor,
                                              blocks: seq<Block>, block: Block, i: nat)
    requires ScenarioLink(p, network, spec, cursor0, blocks, i)
    ensures ScenarioLink(p, network, spec, cursor0, blocks + [block], i)
  {
    assert (blocks + [block])[i] == blocks[i];
    if i > 0 {
      assert (blocks + [block])[i - 1] == blocks[i - 1];
    }
  }

  /** A block on the cursor after `before` is linked to the blocks before it. */
  lemma {:induction false} ScenarioLinkLast(p: Primitives, network: Network, spec: Cli.BlockSpec, cursor0: Cursor,
                                            before: Progress, block: Block)
    requires Following(p, cursor0, before)
    requires OnCursor(p, network, spec, before.cursor, block)
    requires Advance(p, before.cursor, block).Success?
    ensures ScenarioLink(p, network, spec, cursor0, before.blocks + [block], |before.blocks|)
    ensures Following(p, cursor0, Progress(before.blocks + [block], Advance(p, before.cursor, block).value))
  {
    var blocks := before.blocks + [block];
    var i := |before.blocks|;
    assert blocks[i] == block;
    if i > 0 {
      assert blocks[i - 1] == before.blocks[i - 1];
    }
  }

  /** What scenario block `i` of `blocks` is, given the cursor the scenario started from. */
  predicate ScenarioLink(p: Primitives, network: Network, spec: Cli.BlockSpec, cursor: Cursor, blocks: seq<Block>, i: nat)
  {
    && i < |blocks|
    && cursor.height + i < U32_LIMIT
    && var b := blocks[i];
    && b.header.prevBlockhash == (if i == 0 then cursor.prevBlockhash else BlockHash(p, blocks[i - 1].header))
    && b.header.bits == (if i == 0 then cursor.target else NextTarget(p, blocks[i - 1]))
    && ScenarioCoinbase(p, network, spec, b, cursor.height + i)
    && ValidPow(p, b.header, p.targetFromCompact(b.header.bits))
  }

  /**
   * The coinbase of a scenario block at `height`: the commitment outputs, then
   * the subsidy at that height (the value `block_subsidy` returns wherever it
   * does not panic, by `Subsidy.AsWrittenAgrees`).
   */
  predicate ScenarioCoinbase(p: Primitives, network: Network, spec: Cli.BlockSpec, b: Block, height: u32)
  {
    CoinbaseIs(b, height, GenTxs(p, spec).0 + [ValueTxout(p, network, Subsidy.BlockSubsidy(network, height))])
  }

  /** The comment that opens the script. */
  const SETUP_COMMENT: string := "Mine some setup blocks"

  /** One `submitblock` item per block, in order. */
  function SubmitItems(p: Primitives, toJson: RpcRequest -> string, rpcAddr: string, rpcAuth: Cli.RpcAuth,
                       blocks: seq<Block>): (r: seq<ScriptItem>)
    ensures |r| == |blocks|
  {
    seq(|blocks|, i requires 0 <= i < |blocks| => SubmitBlockItem(p, toJson, rpcAddr, rpcAuth, blocks[i]))
  }

  /** For each scenario condition, its comment followed by the `submitblock` item of its block. */
  function ScenarioItems(p: Primitives, toJson: RpcRequest -> string, rpcAddr: string, rpcAuth: Cli.RpcAuth,
                         specs: seq<Cli.BlockSpec>, blocks: seq<Block>): (r: seq<ScriptItem>)
    requires |specs| == |blocks|
    ensures |r| == 2 * |specs|
  {
    seq(2 * |specs|, i requires 0 <= i < 2 * |specs| =>
      if i % 2 == 0 then CommentItem(Comment(GenComment(specs[i / 2])))
      else SubmitBlockItem(p, toJson, rpcAddr, rpcAuth, blocks[i / 2]))
  }

  /** The items of the whole script: the setup comment, the setup blocks, then the scenario. */
  function ScriptItems(p: Primitives, toJson: RpcRequest -> string, rpcAddr: string, rpcAuth: Cli.RpcAuth,
                       setup: seq<Block>, specs: seq<Cli.BlockSpec>, scenario: seq<Block>): seq<ScriptItem>
    requires |specs| == |scenario|
  {
    [CommentItem(Comment(SETUP_COMMENT))]
    + SubmitItems(p, toJson, rpcAddr, rpcAuth, setup)
    + ScenarioItems(p, toJson, rpcAddr, rpcAuth, specs, scenario)
  }

  /** What a run of `gen_script` produces: the printed script and the blocks it submits. */
  datatype ScriptRun = ScriptRun(script: string, setupBlocks: seq<Block>, scenarioBlocks: seq<Block>)

  /**
   * What `gen_script` does: generate the setup blocks, continue from the last
   * of them (its pushed height, its hash, its target), generate one block per
   * scenario condition, and lay out the script. Block `k` of the run is
   * stamped `clock(k)`; any failure ends the run with that error.
   */
  function GenScriptSpec(p: Primitives, toJson: RpcRequest -> string, network: Network,
                         rpcAddr: string, rpcAuth: Cli.RpcAuth, template: BlockTemplate,
                         blocksSpec: Cli.BlocksSpec, clock: nat -> u32): (r: Result<ScriptRun, Error>)
    ensures r.Success? ==>
              && |r.value.scenarioBlocks| == |blocksSpec.specs|
              && |r.value.setupBlocks| == (if blocksSpec.RequiresM1() then 2 else 1)
  {
    ScriptAfterSetup(p, toJson, network, rpcAddr, rpcAuth, blocksSpec, clock, SetupBlocks(p, network, template, blocksSpec, clock))
  }

  /**
   * The rest of `gen_script` once `gen_setup_blocks` has returned: continue
   * from the last setup block (its pushed height, its hash, its target).
   */
  function ScriptAfterSetup(p: Primitives, toJson: RpcRequest -> string, network: Network,
                            rpcAddr: string, rpcAuth: Cli.RpcAuth, blocksSpec: Cli.BlocksSpec, clock: nat -> u32,
                            setup: Result<seq<Block>, Error>): (r: Result<ScriptRun, Error>)
    requires setup.Success? ==> setup.value != []
    ensures setup.Failure? ==> r == Failure(setup.error)
    ensures r.Success? ==> setup.Success? && r.value.setupBlocks == setup.value && |r.value.scenarioBlocks| == |blocksSpec.specs|
    ensures r.Success? ==> CursorAt(p, setup.value[|setup.value| - 1]).Success?
  {
    var blocks :- setup;
    var cursor :- CursorAt(p, blocks[|blocks| - 1]);
    ScenarioScript(p, toJson, network, rpcAddr, rpcAuth, blocksSpec, clock, blocks, cursor)
  }

  /** The rest of `gen_script` once the setup blocks and the cursor after them are known. */
  function ScenarioScript(p: Primitives, toJson: RpcRequest -> string, network: Network,
                          rpcAddr: string, rpcAuth: Cli.RpcAuth, blocksSpec: Cli.BlocksSpec, clock: nat -> u32,
                          setup: seq<Block>, cursor: Cursor): (r: Result<ScriptRun, Error>)
    ensures r.Success? ==> |r.value.scenarioBlocks| == |blocksSpec.specs| && r.value.setupBlocks == setup
  {
    var run :- ScenarioRun(p, ScenarioGen(p, network), blocksSpec.specs, |blocksSpec.specs|, cursor, clock, |setup|);
    var items := ScriptItems(p, toJson, rpcAddr, rpcAuth, setup, blocksSpec.specs, run.blocks);
    Success(ScriptRun(Finalized(items), setup, run.blocks))
  }

  /**
   * How the two halves of `gen_script` join: given the setup blocks
   * `gen_setup_blocks` returned and the cursor read back from the last of them
   * (its height, its hash, its target; the height is not advanced), the
   * scenario blocks are linked from that cursor as `ScenarioChain` states, and
   * the script is the finalised setup comment, setup submissions and scenario
   * items. `ScriptAfterSetup` states that a successful run has both.
   */
  lemma GenScriptLinks(p: Primitives, toJson: RpcRequest -> string, network: Network,
                       rpcAddr: string, rpcAuth: Cli.RpcAuth, template: BlockTemplate,
                       blocksSpec: Cli.BlocksSpec, clock: nat -> u32, setup: seq<Block>, cursor: Cursor)
    requires SetupBlocks(p, network, template, blocksSpec, clock) == Success(setup)
    requires CursorAt(p, setup[|setup| - 1]) == Success(cursor)
    ensures var r := GenScriptSpec(p, toJson, network, rpcAddr, rpcAuth, template, blocksSpec, clock);
      r.Success? ==>
        && r.value.setupBlocks == setup
        && Linked(p, network, blocksSpec.specs, cursor, r.value.scenarioBlocks)
        && r.value.script == Finalized(ScriptItems(p, toJson, rpcAddr, rpcAuth, setup, blocksSpec.specs, r.value.scenarioBlocks))
  {
    assert GenScriptSpec(p, toJson, network, rpcAddr, rpcAuth, template, blocksSpec, clock)
        == ScriptAfterSetup(p, toJson, network, rpcAddr, rpcAuth, blocksSpec, clock, Success(setup));
    ScriptAfterSetupLinks(p, toJson, network, rpcAddr, rpcAuth, blocksSpec, clock, setup, cursor);
    ScriptAfterSetupText(p, toJson, network, rpcAddr, rpcAuth, blocksSpec, clock, setup, cursor);
  }

  /** After setup blocks whose last block reads back as `cursor`, the scenario starts on `cursor`. */
  lemma ScriptAfterSetupLinks(p: Primitives, toJson: RpcRequest -> string, network: Network,
                              rpcAddr: string, rpcAuth: Cli.RpcAuth, blocksSpec: Cli.BlocksSpec, clock: nat -> u32,
                              blocks: seq<Block>, cursor: Cursor)
    requires blocks != [] && CursorAt(p, blocks[|blocks| - 1]) == Success(cursor)
    ensures var r := ScriptAfterSetup(p, toJson, network, rpcAddr, rpcAuth, blocksSpec, clock, Success(blocks));
      r.Success? ==> Linked(p, network, blocksSpec.specs, cursor, r.value.scenarioBlocks)
  {
    ScriptAfterSetupIs(p, toJson, network, rpcAddr, rpcAuth, blocksSpec, clock, blocks, cursor);
    ScenarioScriptLinks(p, toJson, network, rpcAddr, rpcAuth, blocksSpec, clock, blocks, cursor);
  }

  /** The script after those setup blocks is the finalised setup comment, setup submissions and scenario items. */
  lemma ScriptAfterSetupText(p: Primitives, toJson: RpcRequest -> string, network: Network,
                             rpcAddr: string, rpcAuth: Cli.RpcAuth, blocksSpec: Cli.BlocksSpec, clock: nat -> u32,
                             blocks: seq<Block>, cursor: Cursor)
    requires blocks != [] && CursorAt(p, blocks[|blocks| - 1]) == Success(cursor)
    ensures var r := ScriptAfterSetup(p, toJson, network, rpcAddr, rpcAuth, blocksSpec, clock, Success(blocks));
      r.Success? ==>
        r.value.script == Finalized(ScriptItems(p, toJson, rpcAddr, rpcAuth, blocks, blocksSpec.specs, r.value.scenarioBlocks))
  {
    ScriptAfterSetupIs(p, toJson, network, rpcAddr, rpcAuth, blocksSpec, clock, blocks, cursor);
    ScenarioScriptLinks(p, toJson, network, rpcAddr, rpcAuth, blocksSpec, clock, blocks, cursor);
  }

  lemma ScriptAfterSetupIs(p: Primitives, toJson: RpcRequest -> string, network: Network,
                           rpcAddr: string, rpcAuth: Cli.RpcAuth, blocksSpec: Cli.BlocksSpec, clock: nat -> u32,
                           blocks: seq<Block>, cursor: Cursor)
    requires blocks != [] && CursorAt(p, blocks[|blocks| - 1]) == Success(cursor)
    ensures ScriptAfterSetup(p, toJson, network, rpcAddr, rpcAuth, blocksSpec, clock, Success(blocks))
         == ScenarioScript(p, toJson, network, rpcAddr, rpcAuth, blocksSpec, clock, blocks, cursor)
  {
    var setup: Result<seq<Block>, Error> := Success(blocks);
    assert setup.IsFailure() == false;
    assert setup.Extract() == blocks;
    var c := CursorAt(p, blocks[|blocks| - 1]);
    assert !c.IsFailure() && c.Extract() == cursor;
  }

  /** The scenario part of that join, from a given cursor. */
  lemma ScenarioScriptLinks(p: Primitives, toJson: RpcRequest -> string, network: Network,
                            rpcAddr: string, rpcAuth: Cli.RpcAuth, blocksSpec: Cli.BlocksSpec, clock: nat -> u32,
                            setup: seq<Block>, cursor: Cursor)
    ensures var r := ScenarioScript(p, toJson, network, rpcAddr, rpcAuth, blocksSpec, clock, setup, cursor);
      r.Success? ==>
        && Linked(p, network, blocksSpec.specs, cursor, r.value.scenarioBlocks)
        && r.value.script == Finalized(ScriptItems(p, toJson, rpcAddr, rpcAuth, setup, blocksSpec.specs, r.value.scenarioBlocks))
  {
    var gen := ScenarioGen(p, network);
    var run := ScenarioRun(p, gen, blocksSpec.specs, |blocksSpec.specs|, cursor, clock, |setup|);
    if run.Success? {
      ScenarioGenSound(p, network);
      ScenarioChain(p, network, gen, blocksSpec.specs, |blocksSpec.specs|, cursor, clock, |setup|);
      assert ScenarioScript(p, toJson, network, rpcAddr, rpcAuth, blocksSpec, clock, setup, cursor)
          == Success(ScriptRun(Finalized(ScriptItems(p, toJson, rpcAddr, rpcAuth, setup, blocksSpec.specs, run.value.blocks)),
                               setup, run.value.blocks));
    }
  }

  /**
   * With a decoder that reads pushed heights back, scenario block `i` pushes
   * the template height plus `i`: the first scenario block reuses the template
   * height of the setup blocks.
   */
  lemma GenScriptHeights(p: Primitives, toJson: RpcRequest -> string, network: Network,
                         rpcAddr: string, rpcAuth: Cli.RpcAuth, template: BlockTemplate,
                         blocksSpec: Cli.BlocksSpec, clock: nat -> u32, setup: seq<Block>)
    requires Bip34Sound(p) && 16 < template.height
    requires SetupBlocks(p, network, template, blocksSpec, clock) == Success(setup)
    ensures var r := GenScriptSpec(p, toJson, network, rpcAddr, rpcAuth, template, blocksSpec, clock);
      var last := setup[|setup| - 1];
      r.Success? ==>
        Linked(p, network, blocksSpec.specs, Cursor(template.height, BlockHash(p, last.header), NextTarget(p, last)),
               r.value.scenarioBlocks)
  {
    SetupHeightReused(p, network, template, blocksSpec, clock);
    var last := setup[|setup| - 1];
    var cursor := Cursor(template.height, BlockHash(p, last.header), NextTarget(p, last));
    assert CursorAt(p, last) == Success(cursor);
    GenScriptLinks(p, toJson, network, rpcAddr, rpcAuth, template, blocksSpec, clock, setup, cursor);
  }

  /** The `for block in setup_blocks` loop of `gen_script`: one `submitblock` per block, in order. */
  method SubmitSetup(builder: OutputPosixScriptBuilder, p: Primitives, toJson: RpcRequest -> string, blocks: seq<Block>)
    modifies builder
    ensures builder.script == old(builder.script) + SubmitItems(p, toJson, builder.rpcAddr, builder.rpcAuth, blocks)
    ensures builder.rpcAddr == old(builder.rpcAddr) && builder.rpcAuth == old(builder.rpcAuth)
  {
    var i := 0;
    while i < |blocks|
      invariant 0 <= i <= |blocks|
      invariant builder.rpcAddr == old(builder.rpcAddr) && builder.rpcAuth == old(builder.rpcAuth)
      invariant builder.script == old(builder.script) + SubmitItems(p, toJson, builder.rpcAddr, builder.rpcAuth, blocks[..i])
    {
      builder.SubmitBlock(p, toJson, blocks[i]);
      assert blocks[..i + 1][..i] == blocks[..i];
      i := i + 1;
    }
    assert blocks[..i] == blocks;
  }

  /**
   * The `for block_spec in blocks_spec` loop of `gen_script`: for each
   * condition, its comment, then the block generated for it from the cursor,
   * then its submission; the cursor moves on to the new block at the next
   * height. Any failure stops the loop with that error.
   */
  method MineScenario(builder: OutputPosixScriptBuilder, p: Primitives, toJson: RpcRequest -> string, network: Network,
                      specs: seq<Cli.BlockSpec>, cursor0: Cursor, clock: nat -> u32, k0: nat)
    returns (r: Result<Progress, Error>)
    modifies builder
    ensures r == ScenarioRun(p, ScenarioGen(p, network), specs, |specs|, cursor0, clock, k0)
    ensures r.Success? ==>
              builder.script == old(builder.script) + ScenarioItems(p, toJson, builder.rpcAddr, builder.rpcAuth, specs, r.value.blocks)
    ensures builder.rpcAddr == old(builder.rpcAddr) && builder.rpcAuth == old(builder.rpcAuth)
  {
    var height: u32 := cursor0.height;
    var prevBlockhash := cursor0.prevBlockhash;
    var target := cursor0.target;
    var scenario: seq<Block> := [];
    var j := 0;
    ghost var gen := ScenarioGen(p, network);
    assert specs[..0] == [];
    while j < |specs|
      invariant 0 <= j <= |specs|
      invariant builder.rpcAddr == old(builder.rpcAddr) && builder.rpcAuth == old(builder.rpcAuth)
      invariant ScenarioRun(p, gen, specs, j, cursor0, clock, k0).Success?
      invariant ScenarioRun(p, gen, specs, j, cursor0, clock, k0).value.blocks == scenario
      invariant ScenarioRun(p, gen, specs, j, cursor0, clock, k0).value.cursor == Cursor(height, prevBlockhash, target)
      invariant builder.script == old(builder.script) + ScenarioItems(p, toJson, builder.rpcAddr, builder.rpcAuth, specs[..j], scenario)
    {
      ghost var before := Progress(scenario, Cursor(height, prevBlockhash, target));
      var block := MineBlock(builder, p, toJson, network, specs[j], Cursor(height, prevBlockhash, target), clock(k0 + j));
      if block.Failure? {
        ScenarioRunBlockFails(p, gen, specs, j, cursor0, clock, k0, before, block.error);
        return Failure(block.error);
      }
      // `height += 1` cannot overflow here: the coinbase of a block at `u32::MAX` already overflows
      assert height < U32_MAX;
      ScenarioItemsSnoc(p, toJson, builder.rpcAddr, builder.rpcAuth, specs, j, scenario, block.value);
      ConcatAssociates(old(builder.script), ScenarioItems(p, toJson, builder.rpcAddr, builder.rpcAuth, specs[..j], scenario),
                       [CommentItem(Comment(GenComment(specs[j]))), SubmitBlockItem(p, toJson, builder.rpcAddr, builder.rpcAuth, block.value)]);
      ScenarioRunStep(p, gen, specs, j, cursor0, clock, k0, before, block.value);
      height := height + 1;
      prevBlockhash := BlockHash(p, block.value.header);
      target := NextTarget(p, block.value);
      scenario := scenario + [block.value];
      j := j + 1;
    }
    assert specs[..j] == specs;
    return Success(Progress(scenario, Cursor(height, prevBlockhash, target)));
  }

  /**
   * The body of that loop up to the cursor update: push the condition's
   * comment, generate its block from the cursor and submit it.
   */
  method MineBlock(builder: OutputPosixScriptBuilder, p: Primitives, toJson: RpcRequest -> string, network: Network,
                   spec: Cli.BlockSpec, cursor: Cursor, time: u32) returns (r: Result<Block, Error>)
    modifies builder
    ensures r == ScenarioBlock(p, network, spec, cursor, time)
    ensures r.Success? ==>
              builder.script == old(builder.script)
                + [CommentItem(Comment(GenComment(spec))), SubmitBlockItem(p, toJson, builder.rpcAddr, builder.rpcAuth, r.value)]
    ensures builder.rpcAddr == old(builder.rpcAddr) && builder.rpcAuth == old(builder.rpcAuth)
  {
    builder.PushComment(GenComment(spec));
    var gen := GenTxs(p, spec);
    var subsidy := Subsidy.BlockSubsidyAsWritten(network, cursor.height);
    if subsidy.Failure? {
      return Failure(subsidy.error);
    }
    var coinbaseValueTxout := ValueTxout(p, network, subsidy.value);
    var coinbaseTxouts := gen.0 + [coinbaseValueTxout];
    r := BlockAssembly.GenBlock(p, cursor.prevBlockhash, cursor.target, cursor.height, coinbaseTxouts, gen.1, time);
    if r.Success? {
      builder.SubmitBlock(p, toJson, r.value);
    }
  }

  /** The items of one more scenario condition come after those of the earlier ones. */
  lemma {:induction false} ScenarioItemsSnoc(p: Primitives, toJson: RpcRequest -> string, rpcAddr: string, rpcAuth: Cli.RpcAuth,
                                             specs: seq<Cli.BlockSpec>, j: nat, blocks: seq<Block>, block: Block)
    requires j < |specs| && |blocks| == j
    ensures ScenarioItems(p, toJson, rpcAddr, rpcAuth, specs[..j + 1], blocks + [block])
         == ScenarioItems(p, toJson, rpcAddr, rpcAuth, specs[..j], blocks)
            + [CommentItem(Comment(GenComment(specs[j]))), SubmitBlockItem(p, toJson, rpcAddr, rpcAuth, block)]
  {
    assert specs[..j + 1][..j] == specs[..j] && specs[..j + 1][j] == specs[j];
    assert (blocks + [block])[..j] == blocks && (blocks + [block])[j] == block;
  }

  /**
   * `gen_script`: the builder collects the setup comment and submissions, then
   * for each scenario condition its comment and the block generated for it;
   * the finalised script is returned instead of printed.
   */
  method GenScript(p: Primitives, toJson: RpcRequest -> string, network: Network,
                   rpcAddr: string, rpcAuth: Cli.RpcAuth, template: BlockTemplate,
                   blocksSpec: Cli.BlocksSpec, clock: nat -> u32) returns (r: Result<ScriptRun, Error>)
    ensures r == GenScriptSpec(p, toJson, network, rpcAddr, rpcAuth, template, blocksSpec, clock)
  {
    var builder := new OutputPosixScriptBuilder(rpcAddr, rpcAuth);
    var setup := GenSetupBlocks(p, network, template, blocksSpec, clock);
    r := FinishScript(builder, p, toJson, network, blocksSpec, clock, setup);
  }

  /**
   * The part of `gen_script` after `gen_setup_blocks` has returned, on a
   * builder that holds nothing yet.
   */
  method FinishScript(builder: OutputPosixScriptBuilder, p: Primitives, toJson: RpcRequest -> string, network: Network,
                      blocksSpec: Cli.BlocksSpec, clock: nat -> u32, setup: Result<seq<Block>, Error>)
    returns (r: Result<ScriptRun, Error>)
    requires builder.script == []
    requires setup.Success? ==> setup.value != []
    modifies builder
    ensures r == ScriptAfterSetup(p, toJson, network, old(builder.rpcAddr), old(builder.rpcAuth), blocksSpec, clock, setup)
  {
    if setup.Failure? {
      return Failure(setup.error);
    }
    var setupBlocks := setup.value;
    var last := setupBlocks[|setupBlocks| - 1];
    var decoded := Bip34Height(p, last);
    if decoded.Failure? {
      return Failure(decoded.error);
    }
    var cursor := Cursor(decoded.value, BlockHash(p, last.header), NextTarget(p, last));
    assert CursorAt(p, last) == Success(cursor);
    builder.PushComment(SETUP_COMMENT);
    assert builder.script == [CommentItem(Comment(SETUP_COMMENT))];
    SubmitSetup(builder, p, toJson, setupBlocks);
    var scenario := MineScenario(builder, p, toJson, network, blocksSpec.specs, cursor, clock, |setupBlocks|);
    if scenario.Failure? {
      return Failure(scenario.error);
    }
    assert builder.script == ScriptItems(p, toJson, builder.rpcAddr, builder.rpcAuth, setupBlocks, blocksSpec.specs, scenario.value.blocks);
    var text := builder.Finalize();
    return Success(ScriptRun(text, setupBlocks, scenario.value.blocks));
  }
}
