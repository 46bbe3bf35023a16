/** Helpers over `Network`: endpoint lookup, parsing of the `network` query
    parameter, and the name shown to the user. */
module NetworkUtils {
  import opened Wrappers
  import opened Text
  import opened Config

  /** `getRpcEndpoint`: the network's entry of `RPC_ENDPOINTS`. */
  function GetRpcEndpoint(network: Network): (r: string)
    ensures network in RPC_ENDPOINTS && r == RPC_ENDPOINTS[network]
    ensures StartsWith(r, "https://horizon")
  {
    RPC_ENDPOINTS[network]
  }

  /** `parseNetworkParam`: a missing, empty or unknown parameter gives the
      default network; a valid one is kept. */
  function ParseNetworkParam(param: Option<string>): (n: Network)
    ensures param.Some? && IsValidNetwork(param.value) ==> n == param.value
    ensures param.None? || !IsValidNetwork(param.value) ==> n == DEFAULT_NETWORK
  {
    if param.None? || param.value == "" || !IsValidNetwork(param.value) then DEFAULT_NETWORK
    else param.value
  }

  /** Parsing the result of a parse changes nothing. */
  lemma ParseIdempotent(param: Option<string>)
    ensures ParseNetworkParam(Some(ParseNetworkParam(param))) == ParseNetworkParam(param)
  {
  }

  /** `s.charAt(0).toUpperCase() + s.slice(1)` for ASCII text. */
  function Capitalize(s: string): (r: string)
    ensures |r| == |s|
    ensures s != [] ==> r[0] == AsciiUpper(s[0]) && r[1..] == s[1..]
  {
    if s == [] then [] else [AsciiUpper(s[0])] + s[1..]
  }

  /** `getNetworkDisplayName`. */
  function GetNetworkDisplayName(network: Network): (r: string)
    ensures |r| == |network| && r[1..] == network[1..] && IsAsciiUpper(r[0])
  {
    Capitalize(network)
  }

  /** The two display names, which tell the networks apart. */
  lemma DisplayNames()
    ensures GetNetworkDisplayName(MAINNET) == "Mainnet"
    ensures GetNetworkDisplayName(TESTNET) == "Testnet"
  {
  }
}
