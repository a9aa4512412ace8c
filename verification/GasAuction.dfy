/** src/execution/gas_auction.rs: bid prices, fee fields and nonce allocation. */
module GasAuction {
  import opened Units

  type Byte = x: int | 0 <= x < 256
  type Address = a: seq<Byte> | |a| == 20 witness seq(20, _ => 0)

  datatype FeeModel = Legacy | Eip1559

  datatype FeeFields =
    | LegacyFee(gasPrice: U256)
    | DynamicFee(maxFee: U256, priorityFee: U256)

  /** A typed transaction; a transaction hash is modelled by the signed transaction it is injective in. */
  datatype TypedTransaction = TypedTransaction(
    chainId: U64, nonce: U64, gasLimit: U256, to: Option<Address>, value: U256, data: seq<Byte>, fee: FeeFields)

  datatype BuildParams = BuildParams(
    chainId: U64, nonce: U64, gasLimit: U256, gasPrice: U256, feeModel: FeeModel,
    to: Option<Address>, value: U256, input: seq<Byte>)

  datatype NetworkState = NetworkState(baseFeePerGas: U256, suggestedPriorityFee: U256)

  datatype BidResult = Bid(price: U128) | GasPriceExceeded

  function BuildTypedTransaction(p: BuildParams): TypedTransaction {
    var fee := match p.feeModel
      case Eip1559 => DynamicFee(p.gasPrice, p.gasPrice / 5)
      case Legacy => LegacyFee(p.gasPrice);
    TypedTransaction(p.chainId, p.nonce, p.gasLimit, p.to, p.value, p.input, fee)
  }

  function TypedGasPrice(tx: TypedTransaction): U256 {
    match tx.fee
    case LegacyFee(price) => price
    case DynamicFee(maxFee, _) => maxFee
  }

  /** Prices are in gwei, as configured. */
  datatype Calculator = Calculator(replacementBump: real, minGasPrice: real, maxGasPrice: real, softGasCap: real) {

    /** What Settings::validate guarantees about the gas section. */
    predicate Valid() {
      replacementBump > 0.0 && minGasPrice < maxGasPrice
    }

    /** The price the bid competes with, in gwei. */
    function CompetitiveGwei(victimGasPrice: U128, networkFloor: U128): real {
      RealMax(RealMax(ApplyPercent(replacementBump, WeiToGwei(victimGasPrice)), WeiToGwei(networkFloor)), minGasPrice)
    }

    function CalculateReplacementGasPrice(victimGasPrice: U128, network: NetworkState): BidResult
      requires SaturatingAdd256(network.baseFeePerGas, network.suggestedPriorityFee) < U128_SIZE
    {
      var gwei := CompetitiveGwei(
        victimGasPrice, SaturatingAdd256(network.baseFeePerGas, network.suggestedPriorityFee));
      if gwei > maxGasPrice then GasPriceExceeded else Bid(FloorToU128(gwei * WEI_PER_GWEI))
    }

    function ApplyAdditionalBump(currentGas: U128): BidResult {
      var bumped := ApplyPercent(replacementBump, WeiToGwei(currentGas));
      if bumped > maxGasPrice then GasPriceExceeded else Bid(FloorToU128(bumped * WEI_PER_GWEI))
    }
  }

  lemma FloorOfWei(price: U128)
    ensures FloorToU128(WeiToGwei(price) * WEI_PER_GWEI) == price
  {
    assert WeiToGwei(price) * WEI_PER_GWEI == price as real;
  }

  /** The bid is the largest of three wei prices - the bumped victim price, the network floor and the configured
      minimum - and it is refused exactly when one of them is above the hard cap. */
  lemma BidIsLargestOfThree(c: Calculator, victim: U128, network: NetworkState)
    requires SaturatingAdd256(network.baseFeePerGas, network.suggestedPriorityFee) < U128_SIZE
    ensures var floor := SaturatingAdd256(network.baseFeePerGas, network.suggestedPriorityFee);
            var r := c.CalculateReplacementGasPrice(victim, network);
            var bumped := ApplyPercent(c.replacementBump, WeiToGwei(victim));
            && (r.GasPriceExceeded? <==> bumped > c.maxGasPrice || WeiToGwei(floor) > c.maxGasPrice || c.minGasPrice > c.maxGasPrice)
            && (r.Bid? ==>
                 && r.price == Max(Max(NextBid(victim, c.replacementBump), floor), FloorToU128(c.minGasPrice * WEI_PER_GWEI))
                 && WeiToGwei(r.price) <= c.maxGasPrice)
  {
    var floor: U128 := SaturatingAdd256(network.baseFeePerGas, network.suggestedPriorityFee);
    var x, y, z := ApplyPercent(c.replacementBump, WeiToGwei(victim)), WeiToGwei(floor), c.minGasPrice;
    BumpThroughGwei(victim, c.replacementBump);
    FloorOfWei(floor);
    FloorOfMax(x, y);
    FloorOfMax(RealMax(x, y), z);
    FloorBelow(c.CompetitiveGwei(victim, floor));
  }

  lemma FloorOfMax(x: real, y: real)
    ensures FloorToU128(RealMax(x, y) * WEI_PER_GWEI) == Max(FloorToU128(x * WEI_PER_GWEI), FloorToU128(y * WEI_PER_GWEI))
  {
    FloorMonotone(x * WEI_PER_GWEI, RealMax(x, y) * WEI_PER_GWEI);
    FloorMonotone(y * WEI_PER_GWEI, RealMax(x, y) * WEI_PER_GWEI);
  }

  /** A price that is rounded down to whole wei is still below the gwei price it came from. */
  lemma FloorBelow(gwei: real)
    ensures gwei >= 0.0 ==> WeiToGwei(FloorToU128(gwei * WEI_PER_GWEI)) <= gwei
  {
  }

  predicate WithinCaps(c: Calculator, price: U128) {
    WeiToGwei(price) <= c.softGasCap && WeiToGwei(price) <= c.maxGasPrice
  }

  lemma BumpedGwei(price: real, bump: real)
    ensures ApplyPercent(bump, price / WEI_PER_GWEI) * 100_000_000_000.0 == price * (100.0 + bump)
  {
    var gwei := price / WEI_PER_GWEI;
    assert gwei * (1.0 + bump / 100.0) * 100_000_000_000.0 == (gwei * WEI_PER_GWEI) * (100.0 + bump);
  }

  /** Bumping a bid again is one more floor-rounded bump; it is refused exactly when the price in wei, with the percentage on
      top, is above the hard cap. */
  lemma AdditionalBump(c: Calculator, price: U128)
    ensures c.ApplyAdditionalBump(price).GasPriceExceeded?
            <==> price as real * (100.0 + c.replacementBump) > c.maxGasPrice * 100_000_000_000.0
    ensures var r := c.ApplyAdditionalBump(price);
            r.Bid? ==> r.price == NextBid(price, c.replacementBump) && (c.Valid() ==> WeiToGwei(r.price) <= c.maxGasPrice)
  {
    BumpThroughGwei(price, c.replacementBump);
    BumpedGwei(price as real, c.replacementBump);
    if c.Valid() {
      ScaleOrder(1.0 + c.replacementBump / 100.0, 0.0, WeiToGwei(price));
      FloorBelow(ApplyPercent(c.replacementBump, WeiToGwei(price)));
    }
  }
}
