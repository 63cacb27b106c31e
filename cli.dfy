/**
 * The scenario description and the command-line network names: which block
 * conditions a scenario asks for, what they require of earlier blocks, and how
 * many reasons for invalidity each one introduces.
 */
module Cli {
  import Consensus
  import opened Outcomes

  /** The network names accepted on the command line. */
  datatype Network = Mainnet | Testnet | Regtest

  /** `From<Network> for bitcoin::Network`. */
  function ToBitcoinNetwork(n: Network): Consensus.Network
  {
    match n
    case Mainnet => Consensus.Bitcoin
    case Testnet => Consensus.Testnet
    case Regtest => Consensus.Regtest
  }

  /** The command-line name of a crate network, if it has one. */
  function FromBitcoinNetwork(n: Consensus.Network): (r: Option<Network>)
    ensures r.None? <==> n == Consensus.Signet
  {
    match n
    case Bitcoin => Some(Mainnet)
    case Testnet => Some(Testnet)
    case Regtest => Some(Regtest)
    case Signet => None
  }

  /** The conversion has a left inverse: no two command-line names map to one network. */
  lemma NetworkRoundTrip(n: Network)
    ensures FromBitcoinNetwork(ToBitcoinNetwork(n)) == Some(n)
  {
  }

  lemma ToBitcoinNetworkInjective(a: Network, b: Network)
    ensures ToBitcoinNetwork(a) == ToBitcoinNetwork(b) ==> a == b
  {
    NetworkRoundTrip(a);
    NetworkRoundTrip(b);
  }

  /** Every crate network other than Signet is reached, by the name `FromBitcoinNetwork` gives. */
  lemma ToBitcoinNetworkOnto(m: Consensus.Network)
    requires m != Consensus.Signet
    ensures ToBitcoinNetwork(FromBitcoinNetwork(m).value) == m
  {
  }

  /** Credentials for the node's RPC server. */
  datatype RpcAuth = RpcAuth(rpcPass: string, rpcUser: string)

  /** The kinds of invalidity a block condition can carry. */
  datatype Reason = DuplicateM2

  /** One block condition of the scenario. */
  datatype BlockSpec = BlockSpec(duplicateM2: bool) {

    /** Whether an M1 message must be present in an earlier block. */
    predicate RequiresM1()
    {
      duplicateM2
    }

    /** The reasons for which the block will be invalid. */
    function Reasons(): set<Reason>
    {
      if duplicateM2 then {DuplicateM2} else {}
    }
  }

  /** `BlockSpec::n_reasons_invalid`: counts the reasons, one flag at a time. */
  method NReasonsInvalid(spec: BlockSpec) returns (n: nat)
    ensures n == |spec.Reasons()|
  {
    n := 0;
    if spec.duplicateM2 {
      n := n + 1;
    }
  }

  /** A block needs an earlier M1 exactly when it carries a duplicate M2. */
  lemma RequiresM1IsDuplicateM2(spec: BlockSpec)
    ensures spec.RequiresM1() <==> DuplicateM2 in spec.Reasons()
  {
  }

  /** At most one reason today, and at least one whenever an earlier M1 is needed. */
  lemma ReasonCountBounds(spec: BlockSpec)
    ensures |spec.Reasons()| <= 1
    ensures spec.RequiresM1() ==> |spec.Reasons()| >= 1
    ensures |spec.Reasons()| == (if spec.duplicateM2 then 1 else 0)
  {
  }

  /** Whether any block condition in the list requires an earlier M1 (`iter().any`). */
  function AnyRequiresM1(specs: seq<BlockSpec>): (r: bool)
    ensures r <==> exists i :: 0 <= i < |specs| && specs[i].RequiresM1()
  {
    if specs == [] then false
    else if specs[0].RequiresM1() then true
    else
      var rest := AnyRequiresM1(specs[1..]);
      assert forall i :: 1 <= i < |specs| ==> specs[i] == specs[1..][i - 1];
      rest
  }

  /** The scenario: an ordered list of block conditions. */
  datatype BlocksSpec = BlocksSpec(specs: seq<BlockSpec>) {

    /** `BlocksSpec::requires_m1`. */
    predicate RequiresM1()
    {
      AnyRequiresM1(specs)
    }
  }

  lemma AnyRequiresM1Empty()
    ensures !AnyRequiresM1([])
  {
  }

  /** The query distributes over concatenation as a disjunction. */
  lemma {:induction false} AnyRequiresM1Concat(a: seq<BlockSpec>, b: seq<BlockSpec>)
    ensures AnyRequiresM1(a + b) == (AnyRequiresM1(a) || AnyRequiresM1(b))
  {
    if a != [] {
      assert (a + b)[0] == a[0];
      assert (a + b)[1..] == a[1..] + b;
      AnyRequiresM1Concat(a[1..], b);
    } else {
      assert a + b == b;
    }
  }
}
