/** The outside world of the execution engine: clock, signer and RPC node, as an adversarial oracle.

    Every interaction consumes one reply and lets the clock advance by an arbitrary delay. A node that accepts a
    transaction answers with that transaction's hash; hashes are injective in the signed transaction, so the
    transaction itself serves as its hash. Times are in nanoseconds. */
module Environment {
  import opened Units
  import opened GasAuction

  type TxHash = TypedTransaction

  datatype Receipt =
    | RpcError
    | NotMined
    | Mined(blockNumber: Option<U64>, gasUsed: Option<U128>)
  {
    function GasUsed(): U128 {
      if Mined? && gasUsed.Some? then gasUsed.value else 0
    }

    function BlockNumber(): U64 {
      if Mined? && blockNumber.Some? then blockNumber.value else 0
    }
  }

  datatype Reply = Reply(delay: nat, signs: bool, accepts: bool, receipt: TxHash -> Receipt)

  type Oracle = nat -> Reply

  datatype World = World(clock: nat, calls: nat)

  /** The world after one interaction. */
  function Elapse(o: Oracle, w: World): World {
    World(w.clock + o(w.calls).delay, w.calls + 1)
  }

  /** sleep(d) advances the clock by at least d. */
  function Slept(o: Oracle, w: World, d: nat): World {
    World(w.clock + d + o(w.calls).delay, w.calls + 1)
  }

  /** No receipt reports more gas than the transaction was allowed to use. */
  ghost predicate HonestReceipts(o: Oracle) {
    forall k: nat, tx: TxHash :: o(k).receipt(tx).GasUsed() <= tx.gasLimit
  }

  class Outside {
    const oracle: Oracle
    var clock: nat
    var calls: nat

    constructor (oracle: Oracle)
      ensures this.oracle == oracle && State() == World(0, 0)
    {
      this.oracle := oracle;
      clock, calls := 0, 0;
    }

    function State(): World
      reads this
    {
      World(clock, calls)
    }

    method Advance()
      modifies this
      ensures State() == Elapse(oracle, old(State()))
    {
      clock, calls := clock + oracle(calls).delay, calls + 1;
    }

    /** Instant::now() */
    method Now() returns (now: nat)
      modifies this
      ensures State() == Elapse(oracle, old(State())) && now == clock
    {
      Advance();
      now := clock;
    }

    method Sleep(d: nat)
      modifies this
      ensures State() == Slept(oracle, old(State()), d)
    {
      clock, calls := clock + d + oracle(calls).delay, calls + 1;
    }

    method Sign() returns (signed: bool)
      modifies this
      ensures State() == Elapse(oracle, old(State())) && signed == oracle(old(calls)).signs
    {
      signed := oracle(calls).signs;
      Advance();
    }

    method SendRawTransaction() returns (accepted: bool)
      modifies this
      ensures State() == Elapse(oracle, old(State())) && accepted == oracle(old(calls)).accepts
    {
      accepted := oracle(calls).accepts;
      Advance();
    }

    method GetTransactionReceipt(hash: TxHash) returns (receipt: Receipt)
      modifies this
      ensures State() == Elapse(oracle, old(State())) && receipt == oracle(old(calls)).receipt(hash)
    {
      receipt := oracle(calls).receipt(hash);
      Advance();
    }
  }
}
