/** The wallet helpers: the local Stellar address classifier and the three
    calls that turn the Freighter extension's answers and exceptions into an
    address, `null` or one of a few fixed error messages. The extension is
    a `Freighter` object whose three answers are fixed in advance and which
    records the calls made to it. */
module WalletConnect {
  import opened Wrappers
  import opened Text

  // ---------------------------------------------------------------------
  // isValidStellarAddress

  /** The characters of `/^[A-Z2-7]{56}$/`: the RFC 4648 base32 alphabet. */
  predicate IsBase32Char(c: char) {
    'A' <= c <= 'Z' || '2' <= c <= '7'
  }

  /** `/^[A-Z2-7]{56}$/.test(t)`. */
  predicate IsBase32Of56(t: string) {
    |t| == 56 && forall k :: 0 <= k < |t| ==> IsBase32Char(t[k])
  }

  /** The shape of a Stellar public key as the classifier sees it: a `G`
      followed by 55 more base32 characters. */
  predicate IsAccountShape(t: string) {
    |t| == 56 && t[0] == 'G' && forall k :: 0 <= k < 56 ==> IsBase32Char(t[k])
  }

  /** `isValidStellarAddress`: the empty string is rejected; otherwise the
      trimmed string must start with `G`, have 56 characters, and consist of
      base32 characters only. */
  function IsValidStellarAddress(address: string): (b: bool)
    ensures b <==> address != [] && IsAccountShape(Trim(address))
  {
    if address == [] then false
    else
      var t := Trim(address);
      if !StartsWith(t, "G") || |t| != 56 then false
      else IsBase32Of56(t)
  }

  /** White space around the address never changes the verdict. */
  lemma ValidIgnoresTrim(s: string)
    ensures IsValidStellarAddress(Trim(s)) == IsValidStellarAddress(s)
  {
    TrimIdempotent(s);
  }

  /** A string of the account shape is accepted with any white space
      around it. */
  lemma PaddedValid(w1: string, t: string, w2: string)
    requires AllSpace(w1) && AllSpace(w2) && IsAccountShape(t)
    ensures IsValidStellarAddress(w1 + t + w2)
  {
    TrimPadded(w1, t, w2);
  }

  /** Anything shorter than 56 characters is rejected. */
  lemma ShortRejected(s: string)
    requires |s| < 56
    ensures !IsValidStellarAddress(s)
  {
  }

  /** Lower-casing any letter of a valid address makes it invalid: the
      check is case-sensitive. */
  lemma LowerCaseRejected(a: string, k: nat)
    requires |a| == 56 && IsValidStellarAddress(a)
    requires k < |a| && IsAsciiUpper(a[k])
    ensures !IsValidStellarAddress(a[k := AsciiLower(a[k])])
  {
    var t := Trim(a);
    assert t == a;
    var b := a[k := AsciiLower(a[k])];
    assert !IsJsSpace(b[0]) && !IsJsSpace(b[55]);
    TrimNoEdge(b);
    assert !IsBase32Char(b[k]);
  }

  /** The demonstration address the connect page falls back to. */
  const DEMO_ADDRESS: string := "GDEMOADDRESSFORSTELLARWRAPDEMOPURPOSES12345678"

  /** The demonstration address is rejected: it has 46 characters. */
  lemma DemoRejected()
    ensures !IsValidStellarAddress(DEMO_ADDRESS)
  {
    assert |DEMO_ADDRESS| == 46;
    ShortRejected(DEMO_ADDRESS);
  }

  // ---------------------------------------------------------------------
  // The Freighter provider

  /** The answer of `isConnected()`. */
  datatype ConnectedResult = ConnectedResult(error: Option<string>, isConnected: bool)

  /** The answer of `requestAccess()` and `getAddress()`; `None` stands for
      an absent field. */
  datatype AddressResult = AddressResult(error: Option<string>, address: Option<string>)

  /** An awaited provider call either answers or throws. */
  datatype Call<T> = Returns(value: T) | Throws(thrown: Thrown)

  /** The provider calls, as recorded by the provider. */
  datatype ProviderCall = IsConnectedCall | RequestAccessCall | GetAddressCall

  /** JavaScript truthiness of an optional string: present and non-empty. */
  predicate Truthy(s: Option<string>) {
    s.Some? && s.value != []
  }

  /** The verdict of `isFreighterInstalled` on the answer of the probe. */
  function Installed(probe: Call<ConnectedResult>): (b: bool)
    ensures b <==> probe.Returns? && !Truthy(probe.value.error) && probe.value.isConnected
  {
    match probe
    case Throws(_) => false
    case Returns(res) => !Truthy(res.error) && res.isConnected
  }

  const NOT_FOUND: string := "Freighter wallet not found. Please install the Freighter browser extension."
  /** "Connection rejected. Please approve the connection in Freighter.",
      written word by word so that the verifier can check `'U' !in REJECTED`
      piece by piece (it runs out of resource on the whole literal). */
  const REJECTED: string :=
    "Connection" + " rejected." + " Please" + " approve" + " the" + " connection" + " in" + " Freighter."
  const DECLINED: string := "Connection rejected by user."
  const GENERIC: string := "Failed to connect to Freighter wallet. Please try again."

  /** The `try` block of `connectFreighter`: the address, or what it throws. */
  function AccessAttempt(access: Call<AddressResult>): (r: Result<string, Thrown>)
    ensures r.Success? ==> r.value != []
  {
    match access
    case Throws(t) => Failure(t)
    case Returns(res) =>
      if Truthy(res.error) || !Truthy(res.address) then Failure(ErrorThrown(REJECTED))
      else Success(res.address.value)
  }

  /** The `catch` block of `connectFreighter`: the message thrown on. */
  function CatchMessage(t: Thrown): string {
    match t
    case ErrorThrown(m) => if Contains(m, "User declined") then DECLINED else m
    case NonErrorThrown => GENERIC
  }

  /** `connectFreighter`, given the answers of the probe and of the access
      request: the address, or the message of the error it throws. */
  function ConnectOutcome(probe: Call<ConnectedResult>, access: Call<AddressResult>): (r: Result<string, string>)
    ensures r.Success? ==> r.value != []
  {
    if !Installed(probe) then Failure(NOT_FOUND)
    else
      match AccessAttempt(access)
      case Success(a) => Success(a)
      case Failure(t) => Failure(CatchMessage(t))
  }

  /** `getCurrentPublicKey`, given the answers of the probe and of
      `getAddress`. */
  function CurrentKey(probe: Call<ConnectedResult>, current: Call<AddressResult>): Option<string> {
    if !Installed(probe) then None
    else
      match current
      case Throws(_) => None
      case Returns(res) => if Truthy(res.error) then None else res.address
  }

  /** The rejection message does not mention "User declined". */
  lemma RejectedNotDeclined()
    ensures !Contains(REJECTED, "User declined")
  {
    NotContainsWithoutFirst(REJECTED, "User declined");
  }

  /** Without the extension the connection fails with the not-found
      message. */
  lemma ConnectNotInstalled(probe: Call<ConnectedResult>, access: Call<AddressResult>)
    requires !Installed(probe)
    ensures ConnectOutcome(probe, access) == Failure(NOT_FOUND)
  {
  }

  /** An access answer with an error or without an address fails with the
      rejection message, which the catch block passes on unchanged. */
  lemma ConnectRejected(probe: Call<ConnectedResult>, res: AddressResult)
    requires Installed(probe) && (Truthy(res.error) || !Truthy(res.address))
    ensures ConnectOutcome(probe, Returns(res)) == Failure(REJECTED)
  {
    RejectedNotDeclined();
  }

  /** A thrown error mentioning "User declined" becomes the user-rejection
      message. */
  lemma ConnectDeclined(probe: Call<ConnectedResult>, m: string)
    requires Installed(probe) && Contains(m, "User declined")
    ensures ConnectOutcome(probe, Throws(ErrorThrown(m))) == Failure(DECLINED)
  {
  }

  /** Any other thrown error propagates with its message. */
  lemma ConnectOtherError(probe: Call<ConnectedResult>, m: string)
    requires Installed(probe) && !Contains(m, "User declined")
    ensures ConnectOutcome(probe, Throws(ErrorThrown(m))) == Failure(m)
  {
  }

  /** A thrown non-`Error` becomes the generic failure message. */
  lemma ConnectNonError(probe: Call<ConnectedResult>)
    requires Installed(probe)
    ensures ConnectOutcome(probe, Throws(NonErrorThrown)) == Failure(GENERIC)
  {
  }

  /** The connection succeeds exactly when the extension is installed and
      the access request answers a non-empty address and no error; the
      address is then returned verbatim. */
  lemma ConnectSucceeds(probe: Call<ConnectedResult>, access: Call<AddressResult>)
    ensures ConnectOutcome(probe, access).Success? <==>
              Installed(probe) && access.Returns? &&
              !Truthy(access.value.error) && Truthy(access.value.address)
    ensures ConnectOutcome(probe, access).Success? ==>
              ConnectOutcome(probe, access).value == access.value.address.value
  {
  }

  /** Every failure message is one of the four fixed messages or the message
      of an error the access request threw. */
  lemma ConnectMessages(probe: Call<ConnectedResult>, access: Call<AddressResult>)
    ensures ConnectOutcome(probe, access).Failure? ==>
              var m := ConnectOutcome(probe, access).error;
              m in {NOT_FOUND, REJECTED, DECLINED, GENERIC} ||
              (access == Throws(ErrorThrown(m)) && !Contains(m, "User declined"))
  {
    if Installed(probe) && access.Returns? {
      RejectedNotDeclined();
    }
  }

  /** `getCurrentPublicKey` gives an address exactly when the extension is
      installed and `getAddress` answers an address and no error, and that
      address is the one `getAddress` answered. */
  lemma CurrentKeyCases(probe: Call<ConnectedResult>, current: Call<AddressResult>)
    ensures CurrentKey(probe, current).Some? <==>
              Installed(probe) && current.Returns? &&
              !Truthy(current.value.error) && current.value.address.Some?
    ensures CurrentKey(probe, current).Some? ==> CurrentKey(probe, current) == current.value.address
  {
  }

  /** The Freighter extension, answering each call with its configured
      answer and recording the call. */
  class Freighter {
    var probe: Call<ConnectedResult>
    var access: Call<AddressResult>
    var current: Call<AddressResult>
    var log: seq<ProviderCall>

    constructor (probe: Call<ConnectedResult>, access: Call<AddressResult>, current: Call<AddressResult>)
      ensures this.probe == probe && this.access == access && this.current == current
      ensures log == []
    {
      this.probe := probe;
      this.access := access;
      this.current := current;
      log := [];
    }

    /** `isConnected()`. */
    method IsConnected() returns (r: Call<ConnectedResult>)
      modifies this
      ensures r == probe
      ensures log == old(log) + [IsConnectedCall]
      ensures probe == old(probe) && access == old(access) && current == old(current)
    {
      r := probe;
      log := log + [IsConnectedCall];
    }

    /** `requestAccess()`. */
    method RequestAccess() returns (r: Call<AddressResult>)
      modifies this
      ensures r == access
      ensures log == old(log) + [RequestAccessCall]
      ensures probe == old(probe) && access == old(access) && current == old(current)
    {
      r := access;
      log := log + [RequestAccessCall];
    }

    /** `getAddress()`. */
    method GetAddress() returns (r: Call<AddressResult>)
      modifies this
      ensures r == current
      ensures log == old(log) + [GetAddressCall]
      ensures probe == old(probe) && access == old(access) && current == old(current)
    {
      r := current;
      log := log + [GetAddressCall];
    }
  }

  /** `isFreighterInstalled`: one probe; a thrown probe counts as not
      installed. */
  method IsFreighterInstalled(f: Freighter) returns (installed: bool)
    modifies f
    ensures installed == Installed(old(f.probe))
    ensures f.log == old(f.log) + [IsConnectedCall]
    ensures f.probe == old(f.probe) && f.access == old(f.access) && f.current == old(f.current)
  {
    var result := f.IsConnected();
    match result
    case Throws(_) =>
      installed := false;
    case Returns(res) =>
      installed := !Truthy(res.error) && res.isConnected;
  }

  /** `connectFreighter`: the access request is made only when the
      extension is installed. */
  method ConnectFreighter(f: Freighter) returns (r: Result<string, string>)
    modifies f
    ensures r == ConnectOutcome(old(f.probe), old(f.access))
    ensures f.log == old(f.log) + if Installed(old(f.probe)) then [IsConnectedCall, RequestAccessCall] else [IsConnectedCall]
    ensures f.probe == old(f.probe) && f.access == old(f.access) && f.current == old(f.current)
  {
    var installed := IsFreighterInstalled(f);
    if !installed {
      r := Failure(NOT_FOUND);
      return;
    }
    var accessResult := f.RequestAccess();
    var thrown: Thrown;
    match accessResult {
      case Throws(t) =>
        thrown := t;
      case Returns(res) =>
        if Truthy(res.error) || !Truthy(res.address) {
          thrown := ErrorThrown(REJECTED);
        } else {
          r := Success(res.address.value);
          return;
        }
    }
    match thrown {
      case ErrorThrown(m) =>
        if Contains(m, "User declined") {
          r := Failure(DECLINED);
        } else {
          r := Failure(m);
        }
      case NonErrorThrown =>
        r := Failure(GENERIC);
    }
  }

  /** `getCurrentPublicKey`: `getAddress` is called only when the extension
      is installed. */
  method GetCurrentPublicKey(f: Freighter) returns (key: Option<string>)
    modifies f
    ensures key == CurrentKey(old(f.probe), old(f.current))
    ensures f.log == old(f.log) + if Installed(old(f.probe)) then [IsConnectedCall, GetAddressCall] else [IsConnectedCall]
    ensures f.probe == old(f.probe) && f.access == old(f.access) && f.current == old(f.current)
  {
    var installed := IsFreighterInstalled(f);
    if !installed {
      return None;
    }
    var addressResult := f.GetAddress();
    match addressResult
    case Throws(_) =>
      key := None;
    case Returns(res) =>
      key := if Truthy(res.error) then None else res.address;
  }
}
