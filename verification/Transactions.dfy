/** src/blockchain/transaction.rs: normalised transactions and the ABI calldata decoder. */
module Transactions {
  import opened Units
  import opened GasAuction

  /** The statically known method signatures; the source matches them by substring ("swap", "swapExact" occur in
      the first only, "exactInput" in the second only). */
  datatype Method = SwapExactTokensForTokens | ExactInput

  datatype ContractInteraction =
    | Erc20Transfer(token: Address, recipient: Address, amount: U256)
    | Erc20TransferFrom(token: Address, owner: Address, recipient: Address, amount: U256)
    | Erc721TransferFrom(contract: Address, from: Address, to: Address, tokenId: U256)
    | ContractCall(selector: seq<Byte>, signature: Option<Method>)

  datatype RawTransaction = RawTransaction(
    to: Option<Address>, value: U256, gas: U256, gasPrice: Option<U256>, maxFeePerGas: Option<U256>,
    input: seq<Byte>, transactionType: Option<U64>)

  datatype ParsedTransaction = ParsedTransaction(
    to: Option<Address>, value: U256, gasLimit: U256, gasPrice: Option<U256>, maxFeePerGas: Option<U256>,
    input: seq<Byte>, feeModel: FeeModel, interaction: Option<ContractInteraction>)
  {
    function EffectiveGasPrice(): U256 {
      var price := if feeModel.Legacy? then gasPrice else maxFeePerGas;
      match price case Some(p) => p case None => 0
    }
  }

  function Parse(raw: RawTransaction): ParsedTransaction {
    var interaction := DecodeContractInteraction(raw.to, raw.input);
    if raw.transactionType == Some(2)
    then ParsedTransaction(raw.to, raw.value, raw.gas, None, raw.maxFeePerGas, raw.input, Eip1559, interaction)
    else ParsedTransaction(raw.to, raw.value, raw.gas, raw.gasPrice, None, raw.input, Legacy, interaction)
  }

  const ERC20_TRANSFER: seq<Byte> := [0xa9, 0x05, 0x9c, 0xbb]
  const ERC20_TRANSFER_FROM: seq<Byte> := [0x23, 0xb8, 0x72, 0xdd]
  const ERC721_SAFE_TRANSFER_FROM: seq<Byte> := [0x42, 0x84, 0x2e, 0x0e]
  const UNISWAP_V2_SWAP: seq<Byte> := [0x38, 0xed, 0x17, 0x39]
  const UNISWAP_V3_EXACT_INPUT: seq<Byte> := [0xc0, 0x4b, 0x8d, 0x59]

  function DecodeContractInteraction(contract: Option<Address>, input: seq<Byte>): Option<ContractInteraction> {
    if |input| < 4 || contract.None? then None
    else
      var selector := input[..4];
      if selector == ERC20_TRANSFER then DecodeErc20Transfer(contract.value, input)
      else if selector == ERC20_TRANSFER_FROM then DecodeErc20TransferFrom(contract.value, input)
      else if selector == ERC721_SAFE_TRANSFER_FROM then DecodeErc721TransferFrom(contract.value, input)
      else Some(ContractCall(selector, LookupKnownSelector(selector)))
  }

  function DecodeErc20Transfer(contract: Address, input: seq<Byte>): Option<ContractInteraction> {
    if |input| < 68 then None
    else Some(Erc20Transfer(contract, AddressFromWord(input[16..36]), WordValue(input[36..68])))
  }

  function DecodeErc20TransferFrom(contract: Address, input: seq<Byte>): Option<ContractInteraction> {
    if |input| < 100 then None
    else Some(Erc20TransferFrom(
                contract, AddressFromWord(input[16..36]), AddressFromWord(input[48..68]), WordValue(input[68..100])))
  }

  function DecodeErc721TransferFrom(contract: Address, input: seq<Byte>): Option<ContractInteraction> {
    if |input| < 100 then None
    else Some(Erc721TransferFrom(
                contract, AddressFromWord(input[16..36]), AddressFromWord(input[48..68]), WordValue(input[68..100])))
  }

  function AddressFromWord(word: seq<Byte>): Address
    requires |word| >= 20
  {
    word[|word| - 20..]
  }

  function LookupKnownSelector(selector: seq<Byte>): Option<Method> {
    if selector == UNISWAP_V2_SWAP then Some(SwapExactTokensForTokens)
    else if selector == UNISWAP_V3_EXACT_INPUT then Some(ExactInput)
    else None
  }

  // Big-endian words

  function FromBigEndian(bytes: seq<Byte>): nat {
    if bytes == [] then 0 else FromBigEndian(bytes[..|bytes| - 1]) * 256 + bytes[|bytes| - 1]
  }

  function ToBigEndian(value: nat, width: nat): (bytes: seq<Byte>)
    ensures |bytes| == width
  {
    if width == 0 then [] else ToBigEndian(value / 256, width - 1) + [value % 256]
  }

  function PowerOf256(n: nat): nat {
    if n == 0 then 1 else 256 * PowerOf256(n - 1)
  }

  lemma {:induction false} FromBigEndianBound(bytes: seq<Byte>)
    ensures FromBigEndian(bytes) < PowerOf256(|bytes|)
  {
    if bytes != [] {
      FromBigEndianBound(bytes[..|bytes| - 1]);
    }
  }

  lemma {:induction false} PowerOf256Sum(m: nat, n: nat)
    ensures PowerOf256(m + n) == PowerOf256(m) * PowerOf256(n)
  {
    if m > 0 {
      PowerOf256Sum(m - 1, n);
      assert 256 * (PowerOf256(m - 1) * PowerOf256(n)) == PowerOf256(m) * PowerOf256(n);
    }
  }

  lemma WordSize()
    ensures PowerOf256(32) == U256_SIZE
  {
    assert PowerOf256(4) == U32_SIZE;
    PowerOf256Sum(4, 4);
    PowerOf256Sum(8, 8);
    PowerOf256Sum(16, 16);
  }

  function WordValue(word: seq<Byte>): U256
    requires |word| == 32
  {
    FromBigEndianBound(word);
    WordSize();
    FromBigEndian(word)
  }

  lemma {:induction false} BigEndianRoundTrip(value: nat, width: nat)
    requires value < PowerOf256(width)
    ensures FromBigEndian(ToBigEndian(value, width)) == value
  {
    if width > 0 {
      BigEndianRoundTrip(value / 256, width - 1);
      var high := ToBigEndian(value / 256, width - 1);
      assert (high + [value % 256])[..width - 1] == high;
    }
  }

  lemma DivideLast(high: nat, last: Byte)
    ensures (high * 256 + last) / 256 == high && (high * 256 + last) % 256 == last
  {
  }

  lemma {:induction false} BigEndianInjective(bytes: seq<Byte>)
    ensures ToBigEndian(FromBigEndian(bytes), |bytes|) == bytes
  {
    if bytes != [] {
      var high := bytes[..|bytes| - 1];
      BigEndianInjective(high);
      DivideLast(FromBigEndian(high), bytes[|bytes| - 1]);
      assert high + [bytes[|bytes| - 1]] == bytes;
    }
  }

  // The ABI encoding: a 4-byte selector, then one 32-byte word per argument; addresses are left-padded to a word.

  function EncodeTransfer(padding: seq<Byte>, recipient: Address, amount: U256): seq<Byte> {
    [0xa9, 0x05, 0x9c, 0xbb] + padding + recipient + ToBigEndian(amount, 32)
  }

  function EncodeFromTo(selector: seq<Byte>, padding1: seq<Byte>, from: Address, padding2: seq<Byte>, to: Address, word: U256): seq<Byte> {
    selector + padding1 + from + padding2 + to + ToBigEndian(word, 32)
  }

  lemma WordRoundTrip(value: U256)
    ensures WordValue(ToBigEndian(value, 32)) == value
  {
    WordSize();
    BigEndianRoundTrip(value, 32);
  }

  /** transfer(address,uint256): decoding an encoding returns the arguments whatever the padding and the trailing bytes,
      and nothing else decodes to a transfer. */
  lemma TransferRoundTrip(contract: Address, recipient: Address, amount: U256, input: seq<Byte>)
    ensures DecodeContractInteraction(Some(contract), input) == Some(Erc20Transfer(contract, recipient, amount))
            <==> |input| >= 68 && input[..68] == EncodeTransfer(input[4..16], recipient, amount)
  {
    WordRoundTrip(amount);
    if |input| >= 68 {
      var encoded := EncodeTransfer(input[4..16], recipient, amount);
      assert encoded[..4] == ERC20_TRANSFER && encoded[16..36] == recipient && encoded[36..68] == ToBigEndian(amount, 32);
      assert input[..4] == input[..68][..4] && input[16..36] == input[..68][16..36] && input[36..68] == input[..68][36..68];
      BigEndianInjective(input[36..68]);
      assert input[..68] == input[..4] + input[4..16] + input[16..36] + input[36..68];
    }
  }

  /** The shared layout of transferFrom and safeTransferFrom. */
  lemma FromToLayout(selector: seq<Byte>, from: Address, to: Address, word: U256, input: seq<Byte>)
    requires |selector| == 4 && |input| >= 100
    ensures input[..100] == EncodeFromTo(selector, input[4..16], from, input[36..48], to, word)
            <==> input[..4] == selector && input[16..36] == from && input[48..68] == to && WordValue(input[68..100]) == word
  {
    WordRoundTrip(word);
    var encoded := EncodeFromTo(selector, input[4..16], from, input[36..48], to, word);
    assert encoded[..4] == selector && encoded[16..36] == from && encoded[48..68] == to && encoded[68..100] == ToBigEndian(word, 32);
    var head := input[..100];
    assert input[..4] == head[..4] && input[16..36] == head[16..36] && input[48..68] == head[48..68] && input[68..100] == head[68..100];
    BigEndianInjective(input[68..100]);
    assert head == input[..4] + input[4..16] + input[16..36] + input[36..48] + input[48..68] + input[68..100];
  }

  /** transferFrom(address,address,uint256) */
  lemma TransferFromRoundTrip(contract: Address, owner: Address, recipient: Address, amount: U256, input: seq<Byte>)
    ensures DecodeContractInteraction(Some(contract), input) == Some(Erc20TransferFrom(contract, owner, recipient, amount))
            <==> (|input| >= 100 &&
                  input[..100] == EncodeFromTo([0x23, 0xb8, 0x72, 0xdd], input[4..16], owner, input[36..48], recipient, amount))
  {
    if |input| >= 100 {
      FromToLayout(ERC20_TRANSFER_FROM, owner, recipient, amount, input);
    }
  }

  /** safeTransferFrom(address,address,uint256) */
  lemma SafeTransferFromRoundTrip(contract: Address, from: Address, to: Address, tokenId: U256, input: seq<Byte>)
    ensures DecodeContractInteraction(Some(contract), input) == Some(Erc721TransferFrom(contract, from, to, tokenId))
            <==> (|input| >= 100 &&
                  input[..100] == EncodeFromTo([0x42, 0x84, 0x2e, 0x0e], input[4..16], from, input[36..48], to, tokenId))
  {
    if |input| >= 100 {
      FromToLayout(ERC721_SAFE_TRANSFER_FROM, from, to, tokenId, input);
    }
  }

  /** Calldata decodes to a call with this selector exactly when it starts with it and it is none of the three transfer
      selectors; the two Uniswap selectors, and no others, come with a signature. */
  lemma CallExactly(contract: Option<Address>, input: seq<Byte>, selector: seq<Byte>, signature: Option<Method>)
    ensures DecodeContractInteraction(contract, input) == Some(ContractCall(selector, signature))
            <==> && contract.Some? && |input| >= 4 && input[..4] == selector
                 && selector !in {[0xa9, 0x05, 0x9c, 0xbb], [0x23, 0xb8, 0x72, 0xdd], [0x42, 0x84, 0x2e, 0x0e]}
                 && signature == (if selector == [0x38, 0xed, 0x17, 0x39] then Some(SwapExactTokensForTokens)
                                  else if selector == [0xc0, 0x4b, 0x8d, 0x59] then Some(ExactInput) else None)
  {
  }

  /** What parsing makes of the fee fields: only type 2 pays by its maximum fee; a missing price counts as 0. */
  lemma ParsedPrice(raw: RawTransaction)
    ensures var tx := Parse(raw);
            && (tx.feeModel.Eip1559? <==> raw.transactionType == Some(2))
            && tx.EffectiveGasPrice() == match (if raw.transactionType == Some(2) then raw.maxFeePerGas else raw.gasPrice)
                                         case Some(price) => price
                                         case None => 0
    ensures var tx := Parse(raw);
            tx.to == raw.to && tx.value == raw.value && tx.gasLimit == raw.gas && tx.input == raw.input
            && tx.interaction == DecodeContractInteraction(raw.to, raw.input)
  {
  }

  /** Calldata decodes to nothing exactly when there is no target, no selector, or a known transfer is cut short. */
  lemma UndecodedExactly(contract: Option<Address>, input: seq<Byte>)
    ensures DecodeContractInteraction(contract, input).None?
            <==> || contract.None?
                 || |input| < 4
                 || (input[..4] == ERC20_TRANSFER && |input| < 68)
                 || (input[..4] in {ERC20_TRANSFER_FROM, ERC721_SAFE_TRANSFER_FROM} && |input| < 100)
  {
  }
}
