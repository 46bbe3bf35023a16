/** Network configuration: the two networks the application can target,
    their Horizon endpoints and transaction-signing passphrases, and the
    default network. */
module Config {

  /** `isValidNetwork`: the type guard for the `Network` literal union. */
  predicate IsValidNetwork(s: string) {
    s == "mainnet" || s == "testnet"
  }

  /** `Network`: exactly the strings `isValidNetwork` accepts. */
  type Network = s: string | IsValidNetwork(s) witness "mainnet"

  /** `NETWORKS.MAINNET` and `NETWORKS.TESTNET`. */
  const MAINNET: Network := "mainnet"
  const TESTNET: Network := "testnet"

  const DEFAULT_NETWORK: Network := MAINNET

  /** `RPC_ENDPOINTS`, a record keyed by network. */
  const RPC_ENDPOINTS: map<string, string> := map[
    MAINNET := "https://horizon.stellar.org",
    TESTNET := "https://horizon-testnet.stellar.org"
  ]

  /** `NETWORK_PASSPHRASES`, a record keyed by network. */
  const NETWORK_PASSPHRASES: map<string, string> := map[
    MAINNET := "Public Global Stellar Network ; September 2015",
    TESTNET := "Test SDF Network ; September 2015"
  ]

  /** Only the two network names are valid networks. */
  lemma ValidNetworks(s: string)
    ensures IsValidNetwork(s) <==> s in {"mainnet", "testnet"}
    ensures !IsValidNetwork("")
  {
  }

  /** The default network is mainnet, and it is a valid network. */
  lemma DefaultNetworkIsMainnet()
    ensures DEFAULT_NETWORK == "mainnet" && IsValidNetwork(DEFAULT_NETWORK)
  {
  }

  /** Both records are keyed by exactly the valid networks, and the two
      entries of each record differ. */
  lemma TablesTotalAndDistinct()
    ensures forall s :: s in RPC_ENDPOINTS <==> IsValidNetwork(s)
    ensures forall s :: s in NETWORK_PASSPHRASES <==> IsValidNetwork(s)
    ensures RPC_ENDPOINTS[MAINNET] != RPC_ENDPOINTS[TESTNET]
    ensures NETWORK_PASSPHRASES[MAINNET] != NETWORK_PASSPHRASES[TESTNET]
  {
  }
}
