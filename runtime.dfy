/** The runtime of the demonstration binary: a system pallet and a balances
    pallet over string account ids, and the sequence of calls its entry point
    makes. */
module Runtime {
  import opened Support
  import System
  import Balances

  type AccountId = string

  class Runtime {
    const system: System.Pallet<AccountId>
    const balances: Balances.Pallet<AccountId>

    constructor ()
      ensures fresh(system) && fresh(balances)
      ensures system.blockNumber == 0 && system.nonce == map[]
      ensures balances.balances == map[]
    {
      system := new System.Pallet();
      balances := new Balances.Pallet();
    }
  }

  /** Replays the entry point: fund "jae" with 100, produce block 1, and send
      30 to "foo" and 20 to "bar", bumping jae's nonce before each transfer. */
  method ReplayMain() returns (blockNumber: System.BlockNumber, first: DispatchResult, second: DispatchResult,
                               jae: Balances.Balance, foo: Balances.Balance, bar: Balances.Balance, jaeNonce: System.Nonce)
    ensures blockNumber == 1
    ensures first == Ok && second == Ok
    ensures jae == 50 && foo == 30 && bar == 20
    ensures jaeNonce == 2
  {
    var runtime := new Runtime();

    runtime.balances.SetBalance("jae", 100);

    runtime.system.IncBlockNumber();
    blockNumber := runtime.system.GetBlockNumber();

    runtime.system.IncNonce("jae");
    first := runtime.balances.Transfer("jae", "foo", 30);

    runtime.system.IncNonce("jae");
    second := runtime.balances.Transfer("jae", "bar", 20);

    jae := runtime.balances.Balance("jae");
    foo := runtime.balances.Balance("foo");
    bar := runtime.balances.Balance("bar");
    jaeNonce := runtime.system.GetNonce("jae");
  }
}
