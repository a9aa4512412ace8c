/** NonceManager of src/execution/gas_auction.rs. */
module Nonces {
  import opened Units

  /** fetch_add on a 64-bit counter wraps. */
  function NextNonce(n: U64): U64 {
    (n + 1) % U64_SIZE
  }

  /** release_nonce only takes back the most recently allocated nonce. */
  function Released(next: U64, nonce: U64): U64 {
    if NextNonce(nonce) == next then nonce else next
  }

  class NonceManager {
    var nextNonce: U64
    var synced: bool

    constructor ()
      ensures nextNonce == 0 && !synced
    {
      nextNonce, synced := 0, false;
    }

    /** The fetched account nonce must fit in 64 bits; a failed fetch leaves the manager unsynced. */
    method SyncFromChain(fetched: Option<U64>) returns (ok: bool)
      modifies this
      ensures ok <==> fetched.Some?
      ensures ok ==> synced && nextNonce == fetched.value
      ensures !ok ==> synced == old(synced) && nextNonce == old(nextNonce)
    {
      if fetched.None? {
        return false;
      }
      nextNonce, synced := fetched.value, true;
      ok := true;
    }

    method AllocateNonce() returns (nonce: Option<U64>)
      modifies this`nextNonce
      ensures nonce.None? <==> !synced
      ensures nonce.None? ==> nextNonce == old(nextNonce)
      ensures nonce.Some? ==> nonce.value == old(nextNonce) && nextNonce == NextNonce(old(nextNonce))
    {
      if !synced {
        return None;
      }
      nonce := Some(nextNonce);
      nextNonce := (nextNonce + 1) % U64_SIZE;
    }

    method ReleaseNonce(nonce: U64)
      modifies this`nextNonce
      ensures nextNonce == Released(old(nextNonce), nonce)
    {
      var current := nextNonce;
      if (nonce + 1) % U64_SIZE == current {
        nextNonce := nonce;
      }
    }
  }

  /** Releasing straight after allocating restores the counter, even across the 64-bit wrap. */
  lemma ReleaseUndoesAllocate(n: U64)
    ensures Released(NextNonce(n), n) == n
  {
  }

  /** A release changes the counter exactly when the nonce is the one allocated last, and then takes back that allocation
      only. */
  lemma ReleaseExactly(next: U64, nonce: U64)
    ensures Released(next, nonce) != next <==> next == (nonce + 1) % 0x1_0000_0000_0000_0000
    ensures Released(next, nonce) != next ==> Released(next, nonce) == nonce && NextNonce(nonce) == next
  {
  }
}
