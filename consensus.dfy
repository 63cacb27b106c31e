/**
 * The parts of the `bitcoin` crate that the block generator uses: network names,
 * consensus constants, transactions and blocks, the 80-byte header encoding, the
 * script-number push used for the coinbase height, and the crate's hashing and
 * target primitives.
 *
 * The header encoding is fixed by the Bitcoin protocol and is written out here.
 * The hashing, merkle, target-conversion, block-serialisation, address and
 * BIP34-decoding code of the crate is not part of this model: those operations
 * are fields of a `Primitives` value, so every result below holds for any
 * implementation of them.
 */
module Consensus {
  import opened Bytes
  import opened Outcomes

  /** `bitcoin::Network` (the crate's enum is non-exhaustive; these are its variants). */
  datatype Network = Bitcoin | Testnet | Signet | Regtest

  const COINBASE_MATURITY: nat := 100
  const SUBSIDY_HALVING_INTERVAL: nat := 210_000
  /** Lock-time values below this are block heights, at or above it UNIX times. */
  const LOCK_TIME_THRESHOLD: nat := 500_000_000
  /** Satoshis per bitcoin. */
  const COIN: nat := 100_000_000

  const SEQUENCE_MAX: u32 := 0xFFFF_FFFF
  const OP_0: byte := 0x00
  const OP_TRUE: byte := 0x51
  const OP_RETURN: byte := 0x6a

  /** `transaction::Version::TWO`. */
  const TX_VERSION_TWO: int := 2
  /** `block::Version::NO_SOFT_FORK_SIGNALLING`. */
  const VERSION_NO_SOFT_FORK_SIGNALLING: i32 := 0x2000_0000

  type i32 = x: int | -0x8000_0000 <= x < 0x8000_0000

  datatype OutPoint = OutPoint(txid: Hash32, vout: u32)

  /** `OutPoint::null()`: the all-zero txid and index `u32::MAX`. */
  const NULL_OUTPOINT: OutPoint := OutPoint(ZERO_HASH, U32_MAX)

  datatype TxIn = TxIn(previousOutput: OutPoint, scriptSig: seq<byte>, sequence: u32, witnessStack: seq<seq<byte>>)

  /** An output paying `value` satoshis to `scriptPubkey`. */
  datatype TxOut = TxOut(value: nat, scriptPubkey: seq<byte>)

  /** `absolute::LockTime`. */
  datatype LockTime = Blocks(height: nat) | Seconds(time: nat)

  datatype Transaction = Transaction(version: int, lockTime: LockTime, input: seq<TxIn>, output: seq<TxOut>)

  datatype Header = Header(version: i32, prevBlockhash: Hash32, merkleRoot: Hash32, time: u32, bits: u32, nonce: u32)

  datatype Block = Block(header: Header, txdata: seq<Transaction>)

  /** `LockTime::from_height`: fails, reporting the value, unless it is a block height. */
  function LockTimeFromHeight(n: nat): (r: Result<LockTime, nat>)
  {
    if n < LOCK_TIME_THRESHOLD then Success(Blocks(n)) else Failure(n)
  }

  /** A value below the threshold becomes a height lock; any other is refused, and reported. */
  lemma LockTimeFromHeightCases(n: nat)
    ensures var r := LockTimeFromHeight(n);
      && (r.Success? <==> n < LOCK_TIME_THRESHOLD)
      && (r.Success? ==> r.value == Blocks(n))
      && (r.Failure? ==> r.error == n)
  {
  }

  /** The operations of the crate that are not modelled, as parameters. */
  datatype Primitives = Primitives(
    /** `sha256d::Hash::hash(..).to_byte_array()` */
    sha256d: seq<byte> -> Hash32,
    /** the merkle root of a non-empty transaction list */
    merkleRoot: seq<Transaction> -> Hash32,
    /** `Target::from_compact`, as a 256-bit number */
    targetFromCompact: u32 -> nat,
    /** `Target::to_compact_lossy` */
    targetToCompactLossy: nat -> u32,
    /** `Block::bip34_block_height`; `None` stands for its error */
    bip34BlockHeight: Block -> Option<nat>,
    /** `consensus::serialize` of a whole block */
    serializeBlock: Block -> seq<byte>,
    /** `Address::p2wsh(script, network).script_pubkey()` */
    p2wshScriptPubkey: (seq<byte>, Network) -> seq<byte>
  )

  /** `Block::compute_merkle_root`: `None` exactly for an empty transaction list. */
  function ComputeMerkleRoot(p: Primitives, txdata: seq<Transaction>): (r: Option<Hash32>)
    ensures r.None? <==> txdata == []
  {
    if txdata == [] then None else Some(p.merkleRoot(txdata))
  }

  // ---- header encoding ----

  /** Two's-complement bits of an `i32`. */
  function I32Bits(v: i32): u32
  {
    if v >= 0 then v else v + U32_LIMIT
  }

  function I32FromBits(u: u32): i32
  {
    if u < 0x8000_0000 then u else u - U32_LIMIT
  }

  /** `consensus::serialize(&header)`: version, previous hash, merkle root, time, bits, nonce. */
  function SerializeHeader(h: Header): (r: seq<byte>)
    ensures |r| == 80
  {
    Le32(I32Bits(h.version)) + h.prevBlockhash + h.merkleRoot + Le32(h.time) + Le32(h.bits) + Le32(h.nonce)
  }

  /** `consensus::deserialize::<Header>`: fails unless exactly 80 bytes are given. */
  function DeserializeHeader(bs: seq<byte>): (r: Option<Header>)
    ensures r.Some? <==> |bs| == 80
  {
    if |bs| != 80 then None
    else Some(Header(I32FromBits(ReadLe32(bs[0..4])), bs[4..36], bs[36..68],
                     ReadLe32(bs[68..72]), ReadLe32(bs[72..76]), ReadLe32(bs[76..80])))
  }

  /** Where each field sits in the 80 bytes: the nonce is the little-endian word at 76..79. */
  lemma SerializeHeaderLayout(h: Header)
    ensures var s := SerializeHeader(h);
      && s[0..4] == Le32(I32Bits(h.version))
      && s[4..36] == h.prevBlockhash
      && s[36..68] == h.merkleRoot
      && s[68..72] == Le32(h.time)
      && s[72..76] == Le32(h.bits)
      && s[76..80] == Le32(h.nonce)
  {
  }

  /** Decoding an encoded header gives it back. */
  lemma {:induction false} HeaderRoundTrip(h: Header)
    ensures DeserializeHeader(SerializeHeader(h)) == Some(h)
  {
    SerializeHeaderLayout(h);
    Le32RoundTrip(I32Bits(h.version));
    Le32RoundTrip(h.time);
    Le32RoundTrip(h.bits);
    Le32RoundTrip(h.nonce);
  }

  /** Encoding a decoded header gives the 80 bytes back. */
  lemma {:induction false} HeaderBytesRoundTrip(bs: seq<byte>)
    requires |bs| == 80
    ensures SerializeHeader(DeserializeHeader(bs).value) == bs
  {
    var h := DeserializeHeader(bs).value;
    ReadLe32RoundTrip(bs[0..4]);
    ReadLe32RoundTrip(bs[68..72]);
    ReadLe32RoundTrip(bs[72..76]);
    ReadLe32RoundTrip(bs[76..80]);
    assert I32Bits(h.version) == ReadLe32(bs[0..4]);
    assert bs == bs[0..4] + bs[4..36] + bs[36..68] + bs[68..72] + bs[72..76] + bs[76..80];
  }

  /**
   * Overwriting bytes 76..79 of an encoded header with the big-endian bytes of
   * `k` yields, when decoded, the same header with nonce `ByteSwap32(k)`.
   */
  lemma {:induction false} PatchedNonce(h: Header, k: u32)
    ensures DeserializeHeader(SerializeHeader(h)[..76] + Be32(k)) == Some(h.(nonce := ByteSwap32(k)))
  {
    var h' := h.(nonce := ByteSwap32(k));
    ByteSwapLayout(k);
    SerializeHeaderLayout(h);
    SerializeHeaderLayout(h');
    assert SerializeHeader(h)[..76] == SerializeHeader(h')[..76];
    assert SerializeHeader(h') == SerializeHeader(h')[..76] + Be32(k);
    HeaderRoundTrip(h');
  }

  /** `Header::block_hash`: sha256d of the encoded header. */
  function BlockHash(p: Primitives, h: Header): Hash32
  {
    p.sha256d(SerializeHeader(h))
  }

  /** `Target::from_le_bytes(hash) < target`: the hash, read as a little-endian number, is below the target. */
  predicate HashBelow(hash: Hash32, target: nat)
  {
    LeValue(hash) < target
  }

  /** `Target::is_met_by`: the hash, read as a little-endian number, is at most the target. */
  predicate MeetsTarget(hash: Hash32, target: nat)
  {
    LeValue(hash) <= target
  }

  /**
   * The check of `header.validate_pow(target)`: the header asks for `target`
   * and its hash meets it.
   */
  predicate ValidPow(p: Primitives, h: Header, target: nat)
  {
    p.targetFromCompact(h.bits) == target && MeetsTarget(BlockHash(p, h), target)
  }

  // ---- script numbers (BIP34 coinbase height) ----

  /** The little-endian bytes of `n` without trailing zero bytes. */
  function MinimalLe(n: nat): seq<byte>
  {
    if n == 0 then [] else [n % 256] + MinimalLe(n / 256)
  }

  /** Only zero has no bytes, and the last byte of any other number is not zero. */
  lemma {:induction false} MinimalLeShape(n: nat)
    ensures n == 0 <==> MinimalLe(n) == []
    ensures MinimalLe(n) != [] ==> MinimalLe(n)[|MinimalLe(n)| - 1] != 0
  {
    if n >= 256 {
      MinimalLeShape(n / 256);
    }
  }

  /** The script-number bytes of a non-negative `n`: a zero byte is added when the top bit is set. */
  function ScriptNumBytes(n: nat): seq<byte>
  {
    var m := MinimalLe(n);
    if m != [] && m[|m| - 1] >= 0x80 then m + [0] else m
  }

  /**
   * `Builder::push_int(n)` for `n >= 0`: `OP_0` for zero, `OP_1` .. `OP_16` for
   * 1 .. 16, and otherwise a direct push of the script-number bytes.
   */
  function PushInt(n: nat): (r: seq<byte>)
    requires n < U32_LIMIT
  {
    if n == 0 then [OP_0]
    else if n <= 16 then [0x50 + n]
    else
      MinimalLeLength(n, 4);
      var d := ScriptNumBytes(n);
      [|d|] + d
  }

  lemma {:induction false} MinimalLeLength(n: nat, k: nat)
    requires n < Pow256(k)
    ensures |MinimalLe(n)| <= k
  {
    if n > 0 {
      MinimalLeLength(n / 256, k - 1);
    }
  }

  lemma {:induction false} MinimalLeValue(n: nat)
    ensures LeValue(MinimalLe(n)) == n
  {
    if n > 0 {
      MinimalLeValue(n / 256);
      assert MinimalLe(n)[1..] == MinimalLe(n / 256);
    }
  }

  lemma {:induction false} LeValueZeroPad(bs: seq<byte>)
    ensures LeValue(bs + [0]) == LeValue(bs)
  {
    if bs != [] {
      assert (bs + [0])[1..] == bs[1..] + [0];
      LeValueZeroPad(bs[1..]);
    } else {
      assert LeValue([0]) == 0 + 256 * LeValue([]);
    }
  }

  /**
   * For a height above 16, the pushed bytes are one length byte followed by
   * between 1 and 5 data bytes whose little-endian value is the height and whose
   * last byte has the sign bit clear (a non-negative number), as BIP 34 asks.
   */
  lemma {:induction false} PushIntEncodesHeight(n: nat)
    requires 16 < n < U32_LIMIT
    ensures var s := PushInt(n);
      && 2 <= |s| <= 6
      && s[0] == |s| - 1
      && LeValue(s[1..]) == n
      && s[|s| - 1] < 0x80
  {
    var s := PushInt(n);
    var m := MinimalLe(n);
    MinimalLeLength(n, 4);
    MinimalLeValue(n);
    if m[|m| - 1] >= 0x80 {
      LeValueZeroPad(m);
    }
    assert s[1..] == ScriptNumBytes(n);
  }
}
