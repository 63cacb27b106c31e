/**
 * `gen_block`: the coinbase transaction, the transaction list, the merkle
 * root, and the proof-of-work search over the serialised header.
 */
module BlockAssembly {
  import opened Bytes
  import opened Outcomes
  import opened Errors
  import opened Consensus

  /** The coinbase input: the null outpoint, the height as a script number, the maximum sequence, no witness. */
  function CoinbaseInput(height: u32): TxIn
  {
    TxIn(NULL_OUTPOINT, PushInt(height), SEQUENCE_MAX, [])
  }

  /**
   * The coinbase transaction of a block at `height`, locked until `height +
   * COINBASE_MATURITY`. The `u32` addition panics past `u32::MAX`, and a lock
   * height from 500 000 000 on is refused.
   */
  function CoinbaseTx(height: u32, outputs: seq<TxOut>): (r: Result<Transaction, Error>)
  {
    if height + COINBASE_MATURITY >= U32_LIMIT then Failure(Overflow)
    else
      match LockTimeFromHeight(height + COINBASE_MATURITY)
      case Failure(n) => Failure(LockTimeHeight(n))
      case Success(lockTime) => Success(Transaction(TX_VERSION_TWO, lockTime, [CoinbaseInput(height)], outputs))
  }

  /**
   * The coinbase is built exactly when the lock height is a block height; it
   * is a version-2 transaction spending the coinbase input and paying the
   * outputs. Otherwise the addition overflows or the lock height is refused.
   */
  lemma CoinbaseTxCases(height: u32, outputs: seq<TxOut>)
    ensures var r := CoinbaseTx(height, outputs);
      && (r.Success? <==> height + COINBASE_MATURITY < LOCK_TIME_THRESHOLD)
      && (r.Success? ==>
            && r.value.version == TX_VERSION_TWO
            && r.value.lockTime == Blocks(height + COINBASE_MATURITY)
            && r.value.input == [CoinbaseInput(height)]
            && r.value.output == outputs)
      && (height + COINBASE_MATURITY >= U32_LIMIT ==> r == Failure(Overflow))
      && (LOCK_TIME_THRESHOLD <= height + COINBASE_MATURITY < U32_LIMIT ==>
            r == Failure(LockTimeHeight(height + COINBASE_MATURITY)))
  {
    if height + COINBASE_MATURITY < U32_LIMIT {
      LockTimeFromHeightCases(height + COINBASE_MATURITY);
    }
  }

  /** `Vec::reverse`. */
  function Reverse<T>(s: seq<T>): (r: seq<T>)
    ensures |r| == |s|
    ensures forall i :: 0 <= i < |s| ==> r[i] == s[|s| - 1 - i]
  {
    if s == [] then [] else Reverse(s[1..]) + [s[0]]
  }

  /** Reversing, pushing and reversing again puts the element in front. */
  lemma ReversePushReverse<T>(s: seq<T>, x: T)
    ensures Reverse(Reverse(s) + [x]) == [x] + s
  {
    var r := Reverse(Reverse(s) + [x]);
    assert forall i :: 0 <= i < |s| + 1 ==> r[i] == ([x] + s)[i] by {
      forall i | 0 <= i < |s| + 1 ensures r[i] == ([x] + s)[i] {
        if i > 0 {
          assert (Reverse(s) + [x])[|s| - i] == Reverse(s)[|s| - i] == s[i - 1];
        }
      }
    }
  }

  /** Whether hashing the header prefix followed by the big-endian counter `k` meets the target. */
  predicate NonceMeets(p: Primitives, prefix: seq<byte>, target: nat, k: u32)
  {
    HashBelow(p.sha256d(prefix + Be32(k)), target)
  }

  /**
   * The first counter from `k` on that meets the target, or `None` when none
   * up to `u32::MAX` does (the counter would then overflow).
   */
  function FirstNonce(p: Primitives, prefix: seq<byte>, target: nat, k: u32): (r: Option<u32>)
    decreases U32_LIMIT - k, |prefix|
  {
    if NonceMeets(p, prefix, target, k) then Some(k)
    else if k == U32_MAX then None
    else FirstNonce(p, prefix, target, k + 1)
  }

  /**
   * The counter found is the first that meets the target: none from `k` up to
   * it does, and when none is found, no counter from `k` on does.
   */
  lemma {:induction false} FirstNonceIsFirst(p: Primitives, prefix: seq<byte>, target: nat, k: u32)
    ensures var r := FirstNonce(p, prefix, target, k);
      && (r.Some? ==> k <= r.value && NonceMeets(p, prefix, target, r.value))
      && (r.Some? ==> forall j: u32 :: k <= j < r.value ==> !NonceMeets(p, prefix, target, j))
      && (r.None? ==> forall j: u32 :: k <= j ==> !NonceMeets(p, prefix, target, j))
    decreases U32_LIMIT - k
  {
    if !NonceMeets(p, prefix, target, k) && k < U32_MAX {
      FirstNonceIsFirst(p, prefix, target, k + 1);
    }
  }

  /** The header before mining: no soft-fork signalling, the merkle root of `txdata`, nonce 0. */
  function CandidateHeader(p: Primitives, prevBlockhash: Hash32, bits: u32, time: u32, txdata: seq<Transaction>): Header
  {
    Header(VERSION_NO_SOFT_FORK_SIGNALLING, prevBlockhash, p.merkleRoot(txdata), time, bits, 0)
  }

  /**
   * What `gen_block` returns: the coinbase in front of `txs`, and the candidate
   * header with the nonce of the first counter whose header meets the target.
   */
  function GenBlockSpec(p: Primitives, prevBlockhash: Hash32, bits: u32, height: u32,
                        coinbaseTxouts: seq<TxOut>, txs: seq<Transaction>, time: u32): Result<Block, Error>
  {
    var coinbase :- CoinbaseTx(height, coinbaseTxouts);
    var txdata := [coinbase] + txs;
    var header := CandidateHeader(p, prevBlockhash, bits, time, txdata);
    var found := FirstNonce(p, SerializeHeader(header)[..76], p.targetFromCompact(bits), 0);
    if found.None? then Failure(Overflow)
    else Success(Block(header.(nonce := ByteSwap32(found.value)), txdata))
  }

  /**
   * The mining loop of `gen_block`: hashes the 80 header bytes, and until the
   * hash is below `target` increments the counter and writes it big-endian
   * into bytes 76..79.
   */
  method SearchNonce(p: Primitives, headerBytes: array<byte>, target: nat) returns (r: Option<u32>)
    requires headerBytes.Length == 80
    requires headerBytes[76..] == Be32(0)
    modifies headerBytes
    ensures r == FirstNonce(p, old(headerBytes[..76]), target, 0)
    ensures r.Some? ==> headerBytes[..] == old(headerBytes[..76]) + Be32(r.value)
  {
    ghost var prefix := headerBytes[..76];
    assert headerBytes[..] == prefix + headerBytes[76..];
    var nonce: u32 := 0;
    while true
      invariant headerBytes[..] == prefix + Be32(nonce)
      invariant FirstNonce(p, prefix, target, nonce) == FirstNonce(p, prefix, target, 0)
      decreases U32_LIMIT - nonce
    {
      var headerHash := p.sha256d(headerBytes[..]);
      if LeValue(headerHash) < target {
        return Some(nonce);
      }
      if nonce == U32_MAX {
        // `nonce += 1` overflows here
        return None;
      }
      nonce := nonce + 1;
      var nonceBytes := Be32(nonce);
      headerBytes[76] := nonceBytes[0];
      headerBytes[77] := nonceBytes[1];
      headerBytes[78] := nonceBytes[2];
      headerBytes[79] := nonceBytes[3];
      assert headerBytes[..] == prefix + nonceBytes;
    }
  }

  /** `gen_block`. The wall-clock time is the parameter `time`. */
  method GenBlock(p: Primitives, prevBlockhash: Hash32, bits: u32, height: u32,
                  coinbaseTxouts: seq<TxOut>, txs: seq<Transaction>, time: u32) returns (r: Result<Block, Error>)
    ensures r == GenBlockSpec(p, prevBlockhash, bits, height, coinbaseTxouts, txs, time)
  {
    var coinbaseTxin := CoinbaseInput(height);
    if height + COINBASE_MATURITY >= U32_LIMIT {
      return Failure(Overflow);
    }
    var lockTime := LockTimeFromHeight(height + COINBASE_MATURITY);
    if lockTime.Failure? {
      return Failure(LockTimeHeight(lockTime.error));
    }
    var coinbaseTx := Transaction(TX_VERSION_TWO, lockTime.value, [coinbaseTxin], coinbaseTxouts);
    var txdata := Reverse(txs);
    txdata := txdata + [coinbaseTx];
    txdata := Reverse(txdata);
    ReversePushReverse(txs, coinbaseTx);
    var header := Header(VERSION_NO_SOFT_FORK_SIGNALLING, prevBlockhash, ZERO_HASH, time, bits, 0);
    var block := Block(header, txdata);
    var root := ComputeMerkleRoot(p, block.txdata);
    block := block.(header := block.header.(merkleRoot := root.value));
    assert block.header == CandidateHeader(p, prevBlockhash, bits, time, [coinbaseTx] + txs);
    var target := p.targetFromCompact(bits);
    var serialized := SerializeHeader(block.header);
    var headerBytes := new byte[80](i => if 0 <= i < 80 then serialized[i] else 0);
    assert headerBytes[..] == serialized;
    SerializeHeaderLayout(block.header);
    ZeroBytes();
    var found := SearchNonce(p, headerBytes, target);
    if found.None? {
      return Failure(Overflow);
    }
    PatchedNonce(block.header, found.value);
    var decoded := DeserializeHeader(headerBytes[..]);
    HeaderBytesRoundTrip(headerBytes[..]);
    block := block.(header := decoded.value);
    FirstNonceIsFirst(p, serialized[..76], target, 0);
    assert ValidPow(p, block.header, target);
    return Success(block);
  }

  /** The hash of the candidate with the nonce for counter `j` is the hash the search computes for `j`. */
  lemma NonceHash(p: Primitives, h: Header, j: u32)
    ensures BlockHash(p, h.(nonce := ByteSwap32(j))) == p.sha256d(SerializeHeader(h)[..76] + Be32(j))
  {
    var h' := h.(nonce := ByteSwap32(j));
    SerializeHeaderLayout(h);
    SerializeHeaderLayout(h');
    ByteSwapLayout(j);
    assert SerializeHeader(h') == SerializeHeader(h')[..76] + SerializeHeader(h')[76..80];
    assert SerializeHeader(h')[..76] == SerializeHeader(h)[..76];
  }

  /**
   * A generated block is the coinbase (at `height`, paying `coinbaseTxouts`)
   * followed by `txs`, under a header that links to `prevBlockhash`, commits to
   * the transactions, asks for `bits` and has a hash strictly below the target.
   */
  lemma GenBlockSound(p: Primitives, prevBlockhash: Hash32, bits: u32, height: u32,
                      coinbaseTxouts: seq<TxOut>, txs: seq<Transaction>, time: u32)
    ensures var r := GenBlockSpec(p, prevBlockhash, bits, height, coinbaseTxouts, txs, time);
      r.Success? ==>
        var b := r.value;
        && |b.txdata| == |txs| + 1 && b.txdata[1..] == txs
        && b.txdata[0].version == TX_VERSION_TWO
        && b.txdata[0].lockTime == Blocks(height + COINBASE_MATURITY)
        && b.txdata[0].input == [CoinbaseInput(height)]
        && b.txdata[0].output == coinbaseTxouts
        && b.header.version == VERSION_NO_SOFT_FORK_SIGNALLING
        && b.header.prevBlockhash == prevBlockhash
        && b.header.bits == bits
        && b.header.time == time
        && ComputeMerkleRoot(p, b.txdata) == Some(b.header.merkleRoot)
        && HashBelow(BlockHash(p, b.header), p.targetFromCompact(bits))
        && ValidPow(p, b.header, p.targetFromCompact(bits))
  {
    var r := GenBlockSpec(p, prevBlockhash, bits, height, coinbaseTxouts, txs, time);
    if r.Success? {
      CoinbaseTxCases(height, coinbaseTxouts);
      var coinbase := CoinbaseTx(height, coinbaseTxouts).value;
      var h := CandidateHeader(p, prevBlockhash, bits, time, [coinbase] + txs);
      FirstNonceIsFirst(p, SerializeHeader(h)[..76], p.targetFromCompact(bits), 0);
      var n := FirstNonce(p, SerializeHeader(h)[..76], p.targetFromCompact(bits), 0).value;
      NonceHash(p, h, n);
      assert ([coinbase] + txs)[1..] == txs;
    }
  }

  /**
   * The search over the counter, restated over headers: `FirstNonce` finds `n`
   * exactly when the candidate with the nonce for `n` meets the target and no
   * candidate with the nonce for a smaller counter does.
   */
  lemma FirstNonceHeaders(p: Primitives, c: Header, target: nat, n: u32)
    requires FirstNonce(p, SerializeHeader(c)[..76], target, 0) == Some(n)
    ensures HashBelow(BlockHash(p, c.(nonce := ByteSwap32(n))), target)
    ensures forall j: u32 :: j < n ==> !HashBelow(BlockHash(p, c.(nonce := ByteSwap32(j))), target)
  {
    var prefix := SerializeHeader(c)[..76];
    FirstNonceIsFirst(p, prefix, target, 0);
    NonceHash(p, c, n);
    assert NonceMeets(p, prefix, target, n);
    forall j: u32 | j < n ensures !HashBelow(BlockHash(p, c.(nonce := ByteSwap32(j))), target) {
      NonceHash(p, c, j);
      assert !NonceMeets(p, prefix, target, j);
    }
  }

  lemma NoNonceHeaders(p: Primitives, c: Header, target: nat)
    ensures FirstNonce(p, SerializeHeader(c)[..76], target, 0).None? <==>
              forall j: u32 :: !HashBelow(BlockHash(p, c.(nonce := ByteSwap32(j))), target)
  {
    var prefix := SerializeHeader(c)[..76];
    var found := FirstNonce(p, prefix, target, 0);
    FirstNonceIsFirst(p, prefix, target, 0);
    if found.Some? {
      NonceHash(p, c, found.value);
      assert NonceMeets(p, prefix, target, found.value);
    } else {
      forall j: u32 ensures !HashBelow(BlockHash(p, c.(nonce := ByteSwap32(j))), target) {
        NonceHash(p, c, j);
        assert !NonceMeets(p, prefix, target, j);
      }
    }
  }

  /**
   * The nonce is the first one the search reaches: for every smaller counter
   * value, the header with that nonce does not meet the target.
   */
  lemma GenBlockNonceFirst(p: Primitives, prevBlockhash: Hash32, bits: u32, height: u32,
                           coinbaseTxouts: seq<TxOut>, txs: seq<Transaction>, time: u32)
    ensures var r := GenBlockSpec(p, prevBlockhash, bits, height, coinbaseTxouts, txs, time);
      r.Success? ==>
        var h := r.value.header;
        forall j: u32 :: j < ByteSwap32(h.nonce) ==>
          !HashBelow(BlockHash(p, h.(nonce := ByteSwap32(j))), p.targetFromCompact(bits))
  {
    var r := GenBlockSpec(p, prevBlockhash, bits, height, coinbaseTxouts, txs, time);
    if r.Success? {
      var coinbase := CoinbaseTx(height, coinbaseTxouts).value;
      var c := CandidateHeader(p, prevBlockhash, bits, time, [coinbase] + txs);
      var n := FirstNonce(p, SerializeHeader(c)[..76], p.targetFromCompact(bits), 0).value;
      var h := r.value.header;
      assert h == c.(nonce := ByteSwap32(n));
      ByteSwapInvolutive(n);
      FirstNonceHeaders(p, c, p.targetFromCompact(bits), n);
      assert forall j: u32 :: h.(nonce := ByteSwap32(j)) == c.(nonce := ByteSwap32(j));
    }
  }

  /**
   * When `gen_block` fails: a height whose lock height passes `u32::MAX`
   * overflows, one whose lock height reaches 500 000 000 is refused, and
   * otherwise it fails exactly when no nonce makes the candidate header meet
   * the target.
   */
  lemma GenBlockFailures(p: Primitives, prevBlockhash: Hash32, bits: u32, height: u32,
                         coinbaseTxouts: seq<TxOut>, txs: seq<Transaction>, time: u32)
    ensures var r := GenBlockSpec(p, prevBlockhash, bits, height, coinbaseTxouts, txs, time);
      && (height + COINBASE_MATURITY >= U32_LIMIT ==> r == Failure(Overflow))
      && (LOCK_TIME_THRESHOLD <= height + COINBASE_MATURITY < U32_LIMIT ==>
            r == Failure(LockTimeHeight(height + COINBASE_MATURITY)))
      && (height + COINBASE_MATURITY < LOCK_TIME_THRESHOLD ==>
            var c := CandidateHeader(p, prevBlockhash, bits, time,
                                     [CoinbaseTx(height, coinbaseTxouts).value] + txs);
            (r.Failure? <==>
               forall j: u32 :: !HashBelow(BlockHash(p, c.(nonce := ByteSwap32(j))), p.targetFromCompact(bits)))
            && (r.Failure? ==> r.error == Overflow))
  {
    if height + COINBASE_MATURITY < LOCK_TIME_THRESHOLD {
      var c := CandidateHeader(p, prevBlockhash, bits, time, [CoinbaseTx(height, coinbaseTxouts).value] + txs);
      NoNonceHeaders(p, c, p.targetFromCompact(bits));
    }
  }
}
