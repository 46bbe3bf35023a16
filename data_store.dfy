/** The wrapped-data store: the loaded data, a loading flag, the mock-mode
    switch of the developer tool and an error message. Outside mock mode no
    data can be fetched yet. */
module DataStore {
  import opened Wrappers

  /** The part of `WrappedData` that the model keeps: the store only holds
      and replaces the record, it never inspects it. */
  datatype WrappedData = WrappedData(
    username: string,
    address: string,
    totalTransactions: int,
    mostActiveMonth: string,
    rank: int,
    topDapps: seq<string>,
    archetype: string)

  /** `GOLDEN_USER`, the mock profile. */
  const GOLDEN_USER: WrappedData := WrappedData(
    "stellar_legend", "G...LEGEND", 1250, "October", 42,
    ["Mercurius", "Phoenix", "Blend"], "The Wizard")

  const API_PENDING: string := "API integration pending. Please enable Mock Mode in dev tool."

  datatype DataState = DataState(
    data: Option<WrappedData>,
    isLoading: bool,
    isMock: bool,
    error: Option<string>)

  const INITIAL: DataState := DataState(None, false, false, None)

  /** The state `toggleMockMode` leaves: mock mode flipped; switching it on
      loads the mock profile and clears the error, switching it off drops
      the data and keeps the error. */
  function Toggled(s: DataState): (t: DataState)
    ensures t.isMock == !s.isMock && t.isLoading == s.isLoading
    ensures t.isMock ==> t.data == Some(GOLDEN_USER) && t.error.None?
    ensures !t.isMock ==> t.data.None? && t.error == s.error
  {
    if !s.isMock then s.(isMock := true, data := Some(GOLDEN_USER), error := None)
    else s.(isMock := false, data := None)
  }

  /** Two toggles restore the mode but not the data: toggling on and off
      again leaves no data, so the pair is not the identity. */
  lemma ToggleTwice(s: DataState)
    ensures Toggled(Toggled(s)).isMock == s.isMock
    ensures Toggled(Toggled(s)).data == (if s.isMock then Some(GOLDEN_USER) else None)
    ensures s.data.Some? && !s.isMock ==> Toggled(Toggled(s)) != s
  {
  }

  /** The state `fetchData` ends in: the mock profile in mock mode, the
      "API pending" error otherwise; loading is over either way. */
  function Fetched(s: DataState): (t: DataState)
    ensures !t.isLoading && t.isMock == s.isMock
    ensures s.isMock ==> t.data == Some(GOLDEN_USER) && t.error.None?
    ensures !s.isMock ==> t.data == s.data && t.error == Some(API_PENDING)
  {
    if s.isMock then s.(data := Some(GOLDEN_USER), isLoading := false, error := None)
    else s.(isLoading := false, error := Some(API_PENDING))
  }

  class DataStore {
    var data: Option<WrappedData>
    var isLoading: bool
    var isMock: bool
    var error: Option<string>

    function State(): DataState
      reads this
    {
      DataState(data, isLoading, isMock, error)
    }

    constructor ()
      ensures State() == INITIAL
    {
      data, isLoading, isMock, error := None, false, false, None;
    }

    method SetLoading(b: bool)
      modifies this
      ensures State() == old(State()).(isLoading := b)
    {
      isLoading := b;
    }

    method SetData(d: Option<WrappedData>)
      modifies this
      ensures State() == old(State()).(data := d)
    {
      data := d;
    }

    method SetError(e: Option<string>)
      modifies this
      ensures State() == old(State()).(error := e)
    {
      error := e;
    }

    /** Reads the mode, writes its negation, then sets or drops the data. */
    method ToggleMockMode()
      modifies this
      ensures State() == Toggled(old(State()))
    {
      var next := !isMock;
      isMock := next;
      if next {
        data, error := Some(GOLDEN_USER), None;
      } else {
        data := None;
      }
    }

    /** The final state of `fetchData`; the address is not used, and the
        delay of mock mode is not modelled. */
    method FetchData(address: string)
      modifies this
      ensures State() == Fetched(old(State()))
    {
      isLoading, error := true, None;
      if isMock {
        data, isLoading := Some(GOLDEN_USER), false;
      } else {
        isLoading, error := false, Some(API_PENDING);
      }
    }
  }
}
