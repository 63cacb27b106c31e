/**
 * The block subsidy: 50 coins, halved once per halving interval, and the
 * network-dependent length of that interval.
 */
module Subsidy {
  import opened Bytes
  import opened Outcomes
  import opened Errors
  import Consensus

  /** `Amount::from_int_btc(50)`, in satoshis. */
  const INITIAL_SUBSIDY: nat := 5_000_000_000

  /** The halving interval the program uses on Regtest. */
  const REGTEST_HALVING_INTERVAL: nat := 150

  /** 150 blocks on Regtest, `SUBSIDY_HALVING_INTERVAL` (210 000) on every other network. */
  function HalvingInterval(network: Consensus.Network): (r: nat)
    ensures r > 0
    ensures r == REGTEST_HALVING_INTERVAL <==> network == Consensus.Regtest
    ensures r == Consensus.SUBSIDY_HALVING_INTERVAL <==> network != Consensus.Regtest
  {
    match network
    case Regtest => REGTEST_HALVING_INTERVAL
    case _ => Consensus.SUBSIDY_HALVING_INTERVAL
  }

  /** The number of halvings before `height` (`u32` division). */
  function Epoch(network: Consensus.Network, height: u32): nat
  {
    height / HalvingInterval(network)
  }

  function Pow2(k: nat): (r: nat)
    ensures r >= 1
  {
    if k == 0 then 1 else 2 * Pow2(k - 1)
  }

  /**
   * `block_subsidy` as written: `1 << epoch` on a `u64` panics once the shift
   * reaches 64 (from Regtest height 9600, mainnet height 13 440 000).
   */
  function BlockSubsidyAsWritten(network: Consensus.Network, height: u32): (r: Result<nat, Error>)
    ensures r.Failure? <==> Epoch(network, height) >= 64
    ensures r.Failure? ==> r.error == Overflow
  {
    var epoch := Epoch(network, height);
    if epoch >= 64 then Failure(Overflow) else Success(Shifted(epoch))
  }

  /** `Amount::from_int_btc(50) / (1 << epoch)`, the shift written as a power of two. */
  function Shifted(epoch: nat): (r: nat)
    ensures r <= INITIAL_SUBSIDY
  {
    var divisor := Pow2(epoch);
    DivBounds(INITIAL_SUBSIDY, divisor);
    INITIAL_SUBSIDY / divisor
  }

  /** A quotient of naturals lies between zero and the dividend. */
  lemma DivBounds(x: nat, d: nat)
    requires d > 0
    ensures 0 <= x / d <= x
  {
    var q := x / d;
    assert 0 <= q;
    assert x == d * q + x % d;
    assert d * q == q + (d - 1) * q;
    NonNegProduct(d - 1, q);
  }

  /** The subsidy after `epoch` halvings: none from the 64th on, as in Bitcoin Core. */
  function EpochSubsidy(epoch: nat): (r: nat)
    ensures r <= INITIAL_SUBSIDY
  {
    if epoch >= 64 then 0 else Shifted(epoch)
  }

  /** The block subsidy, with the shift overflow removed. */
  function BlockSubsidy(network: Consensus.Network, height: u32): nat
  {
    EpochSubsidy(Epoch(network, height))
  }

  /** Euclidean division has one quotient. */
  lemma DivUnique(x: int, d: int, q: int, r: int)
    requires d > 0 && 0 <= r < d && x == d * q + r
    ensures x / d == q
  {
    var k := x / d - q;
    assert d * k == r - x % d;
    OnlyZeroMultipleBelow(d, k);
  }

  lemma OnlyZeroMultipleBelow(d: int, k: int)
    requires d > 0 && -d < d * k < d
    ensures k == 0
  {
  }

  /** Dividing by `a` and then by `b` is dividing by `a * b`. */
  lemma DivDiv(x: nat, a: nat, b: nat)
    requires a > 0 && b > 0
    ensures x / (a * b) == (x / a) / b
  {
    var q := x / a;
    var r := x % a;
    var q2 := q / b;
    var r2 := q % b;
    assert x == a * q + r;
    assert q == b * q2 + r2;
    MulAssociates(a, b, q2, r2);
    MulMonotone(a, r2, b - 1);
    assert a * (b - 1) == a * b - a;
    DivUnique(x, a * b, q2, a * r2 + r);
  }

  lemma MulAssociates(a: int, b: int, q: int, r: int)
    ensures a * (b * q + r) == (a * b) * q + a * r
  {
  }

  lemma MulMonotone(a: nat, x: nat, y: nat)
    requires x <= y
    ensures 0 <= a * x <= a * y
  {
    assert a * y == a * x + a * (y - x);
    NonNegProduct(a, y - x);
    NonNegProduct(a, x);
  }

  lemma NonNegProduct(a: nat, b: nat)
    ensures a * b >= 0
  {
  }

  lemma {:induction false} Pow2Add(a: nat, b: nat)
    ensures Pow2(a + b) == Pow2(a) * Pow2(b)
  {
    if a > 0 {
      Pow2Add(a - 1, b);
    }
  }

  lemma SubsidyVanishes(e: nat)
    requires 33 <= e
    ensures INITIAL_SUBSIDY / Pow2(e) == 0
  {
    Pow2Grows(33, e);
    Pow2Add(11, 22);
    Pow2Add(11, 11);
    assert Pow2(11) == 2048;
    assert Pow2(e) > INITIAL_SUBSIDY;
    DivUnique(INITIAL_SUBSIDY, Pow2(e), 0, INITIAL_SUBSIDY);
  }

  lemma {:induction false} Pow2Grows(a: nat, b: nat)
    requires a <= b
    ensures Pow2(a) <= Pow2(b)
    decreases b - a
  {
    if a < b {
      Pow2Grows(a, b - 1);
    }
  }

  /** Each halving divides the subsidy by two, rounding down; this holds for every epoch. */
  lemma EpochSubsidyHalves(e: nat)
    ensures EpochSubsidy(e + 1) == EpochSubsidy(e) / 2
  {
    if e + 1 < 64 {
      DivDiv(INITIAL_SUBSIDY, Pow2(e), 2);
      assert Pow2(e + 1) == Pow2(e) * 2;
    } else if e + 1 == 64 {
      SubsidyVanishes(e);
    }
  }

  /** The subsidy never grows from one epoch to a later one. */
  lemma {:induction false} EpochSubsidyNonIncreasing(e1: nat, e2: nat)
    requires e1 <= e2
    ensures EpochSubsidy(e2) <= EpochSubsidy(e1)
    decreases e2 - e1
  {
    if e1 < e2 {
      EpochSubsidyNonIncreasing(e1, e2 - 1);
      EpochSubsidyHalves(e2 - 1);
    }
  }

  /** A later block never has a larger subsidy, on any network. */
  lemma BlockSubsidyNonIncreasing(network: Consensus.Network, h1: u32, h2: u32)
    requires h1 <= h2
    ensures BlockSubsidy(network, h2) <= BlockSubsidy(network, h1)
  {
    var n := HalvingInterval(network);
    DivMonotone(h1, h2, n);
    EpochSubsidyNonIncreasing(Epoch(network, h1), Epoch(network, h2));
  }

  lemma DivMonotone(x: nat, y: nat, n: nat)
    requires x <= y && n > 0
    ensures x / n <= y / n
  {
    assert n * (x / n) <= x;
    assert y < n * (y / n + 1);
    MulCancel(n, x / n, y / n + 1);
  }

  lemma MulCancel(n: int, a: int, b: int)
    requires n > 0 && n * a < n * b
    ensures a < b
  {
  }

  /** The first interval of every network pays the full 50 coins. */
  lemma FirstEpochSubsidy(network: Consensus.Network, height: u32)
    requires height < HalvingInterval(network)
    ensures BlockSubsidy(network, height) == 5_000_000_000
  {
  }

  /** The code as written and the corrected subsidy agree wherever the code does not panic. */
  lemma AsWrittenAgrees(network: Consensus.Network, height: u32)
    ensures BlockSubsidyAsWritten(network, height).Success? ==>
              BlockSubsidyAsWritten(network, height).value == BlockSubsidy(network, height)
    ensures BlockSubsidyAsWritten(network, height).Failure? ==> BlockSubsidy(network, height) == 0
  {
    if Epoch(network, height) >= 64 {
      assert EpochSubsidy(Epoch(network, height)) == 0;
    }
  }

  /**
   * The discrepancy: at Regtest height 9600 (epoch 64) the code as written
   * panics, where the subsidy is zero.
   */
  lemma RegtestShiftOverflow()
    ensures BlockSubsidyAsWritten(Consensus.Regtest, 9600) == Failure(Overflow)
    ensures BlockSubsidy(Consensus.Regtest, 9600) == 0
  {
    assert Epoch(Consensus.Regtest, 9600) == 64;
  }
}
