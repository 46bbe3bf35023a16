/** The session store of the wrap flow: the wallet address, the period and
    network chosen, the loading status, an error message and the loaded
    result. Every setter overwrites one field; `reset` restores them all. */
module WrapStore {
  import opened Wrappers
  import opened Config

  datatype WrapPeriod = Weekly | Monthly | Yearly

  /** `"idle" | "loading" | "ready" | "error"`; no transition is guarded. */
  datatype WrapStatus = Idle | Loading | Ready | Error

  datatype DappData = DappData(
    name: string,
    logo: Option<string>,
    interactions: int,
    isFanFavorite: Option<bool>,
    color: Option<string>,
    gradient: Option<string>)

  datatype VibeSlice = VibeSlice(vibeType: string, percentage: int, color: string, vibeLabel: string)

  datatype WrapResult = WrapResult(
    username: string,
    totalTransactions: int,
    percentile: int,
    dapps: seq<DappData>,
    vibes: seq<VibeSlice>,
    persona: string,
    personaDescription: string)

  /** The six data fields of the store, as one value. */
  datatype WrapState = WrapState(
    address: Option<string>,
    period: WrapPeriod,
    network: Network,
    status: WrapStatus,
    error: Option<string>,
    result: Option<WrapResult>)

  /** The state the store is created with and `reset` returns to. */
  const INITIAL: WrapState :=
    WrapState(None, Yearly, DEFAULT_NETWORK, Idle, None, None)

  class WrapStore {
    var address: Option<string>
    var period: WrapPeriod
    var network: Network
    var status: WrapStatus
    var error: Option<string>
    var result: Option<WrapResult>

    function State(): WrapState
      reads this
    {
      WrapState(address, period, network, status, error, result)
    }

    constructor ()
      ensures State() == INITIAL
      ensures address.None? && period == Yearly && network == "mainnet"
      ensures status == Idle && error.None? && result.None?
    {
      address, period, network := None, Yearly, DEFAULT_NETWORK;
      status, error, result := Idle, None, None;
    }

    method SetAddress(a: Option<string>)
      modifies this
      ensures State() == old(State()).(address := a)
    {
      address := a;
    }

    method SetPeriod(p: WrapPeriod)
      modifies this
      ensures State() == old(State()).(period := p)
    {
      period := p;
    }

    method SetNetwork(n: Network)
      modifies this
      ensures State() == old(State()).(network := n)
    {
      network := n;
    }

    /** Any status may follow any other. */
    method SetStatus(s: WrapStatus)
      modifies this
      ensures State() == old(State()).(status := s)
    {
      status := s;
    }

    method SetError(e: Option<string>)
      modifies this
      ensures State() == old(State()).(error := e)
    {
      error := e;
    }

    method SetResult(r: Option<WrapResult>)
      modifies this
      ensures State() == old(State()).(result := r)
    {
      result := r;
    }

    method Reset()
      modifies this
      ensures State() == INITIAL
    {
      address, period, network := None, Yearly, DEFAULT_NETWORK;
      status, error, result := Idle, None, None;
    }
  }
}
