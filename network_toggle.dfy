/** The network switch: flips the store's network between mainnet and
    testnet and reports whether mainnet is selected. */
module NetworkToggle {
  import opened Config
  import opened WrapStore

  /** The ternary of `toggleNetwork`: mainnet becomes testnet, anything else
      becomes mainnet. */
  function Toggled(network: Network): (r: Network)
    ensures r != network
    ensures network == MAINNET ==> r == TESTNET
    ensures network != MAINNET ==> r == MAINNET
  {
    if network == MAINNET then TESTNET else MAINNET
  }

  /** `isMainnet`. */
  predicate IsMainnet(network: Network) {
    network == MAINNET
  }

  /** Toggling twice restores the network. */
  lemma ToggleInvolutive(network: Network)
    ensures Toggled(Toggled(network)) == network
  {
  }

  /** Exactly one of the two networks is mainnet, and toggling moves from
      one to the other. */
  lemma ToggleFlipsMainnet(network: Network)
    ensures IsMainnet(Toggled(network)) <==> !IsMainnet(network)
    ensures IsMainnet(network) <==> network == "mainnet"
  {
  }

  /** `toggleNetwork`: writes the toggled network through `setNetwork`; every
      other field of the store is unchanged. */
  method ToggleNetwork(store: WrapStore)
    modifies store
    ensures store.State() == old(store.State()).(network := Toggled(old(store.network)))
  {
    var newNetwork := if store.network == MAINNET then TESTNET else MAINNET;
    store.SetNetwork(newNetwork);
  }
}
