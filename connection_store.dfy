/** The wallet-connection store: the connected address, whether a wallet
    is connected, whether a connection attempt is in progress, and the last
    error. Its actions keep `isConnected` true exactly when an address is
    held. */
module ConnectionStore {
  import opened Wrappers

  datatype ConnectionState = ConnectionState(
    address: Option<string>,
    isConnected: bool,
    isConnecting: bool,
    error: Option<string>)

  const INITIAL: ConnectionState := ConnectionState(None, false, false, None)

  /** Connected exactly when an address is held. */
  predicate Consistent(s: ConnectionState) {
    s.isConnected <==> s.address.Some?
  }

  class ConnectionStore {
    var address: Option<string>
    var isConnected: bool
    var isConnecting: bool
    var error: Option<string>

    function State(): ConnectionState
      reads this
    {
      ConnectionState(address, isConnected, isConnecting, error)
    }

    ghost predicate Valid()
      reads this
    {
      Consistent(State())
    }

    constructor ()
      ensures State() == INITIAL && Valid()
    {
      address, isConnected, isConnecting, error := None, false, false, None;
    }

    /** The wallet answered with an address: connected, no longer
        connecting, no error. */
    method SetAddress(a: string)
      requires Valid()
      modifies this
      ensures Valid()
      ensures State() == ConnectionState(Some(a), true, false, None)
    {
      address, isConnected, isConnecting, error := Some(a), true, false, None;
    }

    /** Starts or ends an attempt and clears the error; the connection itself
        is untouched. */
    method SetConnecting(b: bool)
      requires Valid()
      modifies this
      ensures Valid()
      ensures State() == old(State()).(isConnecting := b, error := None)
    {
      isConnecting, error := b, None;
    }

    /** Records an error and ends the attempt; the connection itself is
        untouched. */
    method SetError(e: Option<string>)
      requires Valid()
      modifies this
      ensures Valid()
      ensures State() == old(State()).(error := e, isConnecting := false)
    {
      error, isConnecting := e, false;
    }

    /** Drops the address and the error; an attempt in progress stays in
        progress. */
    method Disconnect()
      requires Valid()
      modifies this
      ensures Valid()
      ensures State() == old(State()).(address := None, isConnected := false, error := None)
    {
      address, isConnected, error := None, false, None;
    }
  }
}
