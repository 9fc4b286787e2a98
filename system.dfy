/** The system pallet: the current block number and a per-account nonce map.
    Block numbers and nonces are `u32` in every configuration of the runtime. */
module System {

  const MAX_BLOCK_NUMBER: nat := 0xFFFF_FFFF
  const MAX_NONCE: nat := 0xFFFF_FFFF

  type BlockNumber = n: nat | n <= MAX_BLOCK_NUMBER
  type Nonce = n: nat | n <= MAX_NONCE

  /** The nonce as `inc_nonce` reads it: an absent entry is zero. */
  function StoredNonce<AccountId>(m: map<AccountId, Nonce>, who: AccountId): Nonce
  {
    if who in m then m[who] else 0
  }

  /** The nonce as `get_nonce` reads it: an absent entry is ONE. */
  function ReadNonce<AccountId>(m: map<AccountId, Nonce>, who: AccountId): Nonce
  {
    if who in m then m[who] else 1
  }

  /** The two readings differ on exactly the accounts that have no entry, and
      `get_nonce` cannot tell an untouched account from one incremented once. */
  lemma NonceDefaultsDiffer<AccountId(!new)>(m: map<AccountId, Nonce>, who: AccountId)
    ensures ReadNonce(m, who) == StoredNonce(m, who) <==> who in m
    ensures who !in m ==> ReadNonce(m, who) == ReadNonce(ApplyIncNonce(m, who), who) == 1
  {
  }

  /** What `inc_nonce` does to the nonce map, as a value. The `unwrap` on the
      checked add panics at the maximum, so that case is excluded. */
  function ApplyIncNonce<AccountId(!new)>(m: map<AccountId, Nonce>, who: AccountId): (r: map<AccountId, Nonce>)
    requires StoredNonce(m, who) < MAX_NONCE
    ensures r.Keys == m.Keys + {who}
    ensures StoredNonce(r, who) == ReadNonce(r, who) == StoredNonce(m, who) + 1
    ensures forall a :: a != who ==> StoredNonce(r, a) == StoredNonce(m, a) && ReadNonce(r, a) == ReadNonce(m, a)
    ensures forall a :: StoredNonce(m, a) <= StoredNonce(r, a)
  {
    m[who := StoredNonce(m, who) + 1]
  }

  /** The nonce map after `n` consecutive `inc_nonce(who)` calls. */
  ghost function IncNonceTimes<AccountId(!new)>(m: map<AccountId, Nonce>, who: AccountId, n: nat): (r: map<AccountId, Nonce>)
    requires StoredNonce(m, who) + n <= MAX_NONCE
    ensures StoredNonce(r, who) == StoredNonce(m, who) + n
    ensures forall a :: a != who ==> StoredNonce(r, a) == StoredNonce(m, a) && ReadNonce(r, a) == ReadNonce(m, a)
    decreases n
  {
    if n == 0 then m else IncNonceTimes(ApplyIncNonce(m, who), who, n - 1)
  }

  /** Starting from no entries, `get_nonce` after `n` increments is `n`, except
      that after none at all it is 1, not 0. */
  lemma NonceCountsIncrements<AccountId(!new)>(who: AccountId, n: nat)
    requires n <= MAX_NONCE
    ensures ReadNonce(IncNonceTimes(map[], who, n), who) == if n == 0 then 1 else n
  {
  }

  class Pallet<AccountId(==, !new)> {
    var blockNumber: BlockNumber
    var nonce: map<AccountId, Nonce>

    constructor ()
      ensures blockNumber == 0 && nonce == map[]
    {
      blockNumber := 0;
      nonce := map[];
    }

    /** Reads the block number; takes `&mut self` in the source but changes nothing. */
    method GetBlockNumber() returns (n: BlockNumber)
      ensures n == blockNumber
    {
      n := blockNumber;
    }

    /** Unchecked `+= 1`; reaching past the `u32` maximum is excluded. */
    method IncBlockNumber()
      requires blockNumber < MAX_BLOCK_NUMBER
      modifies this
      ensures blockNumber == old(blockNumber) + 1
      ensures nonce == old(nonce)
    {
      blockNumber := blockNumber + 1;
    }

    method IncNonce(who: AccountId)
      requires StoredNonce(nonce, who) < MAX_NONCE
      modifies this
      ensures nonce == ApplyIncNonce(old(nonce), who)
      ensures blockNumber == old(blockNumber)
    {
      var current := if who in nonce then nonce[who] else 0;
      var next := current + 1;
      nonce := nonce[who := next];
    }

    /** The stored nonce, or ONE when the account has no entry. */
    method GetNonce(who: AccountId) returns (n: Nonce)
      ensures who in nonce ==> n == nonce[who]
      ensures who !in nonce ==> n == 1
    {
      n := if who in nonce then nonce[who] else 1;
    }
  }
}
