/** The admin panel's component state: one list view for reservations and one
    for orders, each with its fetched records, error, filter text, sort state
    and current page, updated by the panel's handlers. */
module AdminPanel {
  import opened Text
  import opened AdminListing
  import ErrorHandling

  /** What one of the two fetches started at mount time delivers: an HTTP
      answer with its status and decoded body, or a network failure. */
  datatype FetchResult = Received(status: int, body: seq<Record>) | NetworkFailure

  predicate FetchOk(result: FetchResult)
  {
    result.Received? && 200 <= result.status < 300
  }

  /** The error a failed fetch chain ends with: fetch's own TypeError or the
      Error thrown for a status that is not ok. Neither carries a response or
      a request property. */
  const FetchError := ErrorHandling.ApiError(None, false)

  class ListView {
    const kind: ListKind
    var data: seq<Record>
    var error: Option<string>
    var filter: string
    var sort: SortState
    var currentPage: int

    /** The page counter never drops below 1: Prev is disabled on page 1 and
        the page buttons are numbered from 1. */
    ghost predicate Valid()
      reads this
    {
      currentPage >= 1
    }

    constructor (kind: ListKind, sort: SortState)
      ensures Valid()
      ensures this.kind == kind && this.sort == sort
      ensures data == [] && error == None && filter == "" && currentPage == 1
    {
      this.kind := kind;
      this.sort := sort;
      data := [];
      error := None;
      filter := "";
      currentPage := 1;
    }

    /** The records that pass the filter, in fetched order. */
    function Filtered(): seq<Record>
      reads this
    {
      Filter(kind, data, filter)
    }

    /** The records rendered as table rows: the current page of the sorted
        filtered records. */
    function Visible(toTime: Value -> Option<int>): seq<Record>
      reads this
    {
      Page(SortData(Filtered(), sort.key, sort.direction, toTime), currentPage)
    }

    function PageCount(): nat
      reads this
    {
      NumPages(|Filtered()|)
    }

    /** The page-number buttons, built by pushing 1, 2, ... up to
        Math.ceil(filtered / 10). */
    method PageNumbers() returns (numbers: seq<int>)
      ensures |numbers| == PageCount()
      ensures forall k :: 0 <= k < |numbers| ==> numbers[k] == k + 1
    {
      numbers := [];
      var i := 1;
      while i <= NumPages(|Filter(kind, data, filter)|)
        invariant 1 <= i <= PageCount() + 1
        invariant |numbers| == i - 1
        invariant forall k :: 0 <= k < |numbers| ==> numbers[k] == k + 1
      {
        numbers := numbers + [i];
        i := i + 1;
      }
    }

    /** The fetch's then/catch chain: an ok answer replaces the records, any
        other outcome records handleApiError's message for the error. */
    method Fetched(result: FetchResult)
      requires Valid()
      modifies this
      ensures Valid()
      ensures FetchOk(result) ==> data == result.body && error == old(error)
      ensures !FetchOk(result) ==>
                data == old(data) && error == Some(ErrorHandling.HandleApiError(FetchError))
      ensures filter == old(filter) && sort == old(sort) && currentPage == old(currentPage)
    {
      if FetchOk(result) {
        data := result.body;
      } else {
        error := Some(ErrorHandling.HandleApiError(FetchError));
      }
    }

    method FilterChanged(value: string)
      requires Valid()
      modifies this`filter
      ensures Valid()
      ensures filter == value
    {
      filter := value;
    }

    method SortClicked(key: string)
      requires Valid()
      modifies this`sort
      ensures Valid()
      ensures sort == Toggle(old(sort), key)
    {
      sort := Toggle(sort, key);
    }

    /** A click on page button `number`; only the rendered buttons exist. */
    method PageClicked(number: int)
      requires Valid()
      requires 1 <= number <= PageCount()
      modifies this`currentPage
      ensures Valid()
      ensures currentPage == number
    {
      currentPage := number;
    }

    /** A click on Prev; a disabled control does nothing. */
    method PrevClicked()
      requires Valid()
      modifies this`currentPage
      ensures Valid()
      ensures currentPage == if PrevDisabled(old(currentPage)) then old(currentPage) else old(currentPage) - 1
    {
      if !PrevDisabled(currentPage) {
        currentPage := currentPage - 1;
      }
    }

    /** A click on Next; disabled only when the page equals the number of
        page buttons, so it stays enabled past the last page. */
    method NextClicked()
      requires Valid()
      modifies this`currentPage
      ensures Valid()
      ensures currentPage == if NextDisabled(old(currentPage), PageCount()) then old(currentPage) else old(currentPage) + 1
    {
      if !NextDisabled(currentPage, NumPages(|Filter(kind, data, filter)|)) {
        currentPage := currentPage + 1;
      }
    }
  }

  class Panel {
    const reservations: ListView
    const orders: ListView
    var loading: bool

    ghost predicate Valid()
      reads this, reservations, orders
    {
      && reservations != orders
      && reservations.kind == ReservationList && orders.kind == OrderList
      && reservations.Valid() && orders.Valid()
    }

    /** The initial state: both lists empty, reservations sorted by date
        ascending, orders by creation time descending, both on page 1. */
    constructor ()
      ensures Valid() && fresh(reservations) && fresh(orders)
      ensures loading
      ensures reservations.sort == SortState("date", "asc")
      ensures orders.sort == SortState("created_at", "desc")
      ensures reservations.data == [] && orders.data == []
      ensures reservations.error == None && orders.error == None
      ensures reservations.filter == "" && orders.filter == ""
      ensures reservations.currentPage == 1 && orders.currentPage == 1
    {
      reservations := new ListView(ReservationList, SortState("date", "asc"));
      orders := new ListView(OrderList, SortState("created_at", "desc"));
      loading := true;
    }

    /** The reservation fetch settles; the order list is not touched. */
    method ReservationsFetched(result: FetchResult)
      requires Valid()
      modifies reservations
      ensures Valid()
      ensures FetchOk(result) ==> reservations.data == result.body && reservations.error == old(reservations.error)
      ensures !FetchOk(result) ==>
                reservations.data == old(reservations.data)
                && reservations.error == Some(ErrorHandling.PreparationFailure)
      ensures reservations.filter == old(reservations.filter) && reservations.sort == old(reservations.sort)
      ensures reservations.currentPage == old(reservations.currentPage)
    {
      reservations.Fetched(result);
    }

    /** The order fetch settles; its `finally` ends the loading state, whatever
        the reservation fetch is doing. */
    method OrdersFetched(result: FetchResult)
      requires Valid()
      modifies this`loading, orders
      ensures Valid()
      ensures !loading
      ensures FetchOk(result) ==> orders.data == result.body && orders.error == old(orders.error)
      ensures !FetchOk(result) ==>
                orders.data == old(orders.data) && orders.error == Some(ErrorHandling.PreparationFailure)
      ensures orders.filter == old(orders.filter) && orders.sort == old(orders.sort)
      ensures orders.currentPage == old(orders.currentPage)
    {
      orders.Fetched(result);
      loading := false;
    }
  }
}
