/** The header's search box: the query the user types, a debounced product
    search whose first five results are shown in a popover, and navigation to
    the search page or to a product. React's state setters, effects and the
    debounce timer are written out as one object whose methods are the events
    the component reacts to. */
module GlobalSearch {
  import opened Catalog
  import opened JsText
  import opened Products

  /** Results shown in the popover at most. */
  const MaxResults: nat := 5

  /** The debounce delay in milliseconds; time itself is not modelled, a timer
      fires when `FireTimer` is called. */
  const DebounceMs: nat := 250

  /** The value of `?q=` in the page URL, `''` when it is absent. */
  function UrlQuery(q: Option<string>): (query: string)
    ensures q.Some? ==> query == q.value
    ensures q.None? ==> query == ""
  {
    match q
    case None => ""
    case Some(s) => s
  }

  const SearchPath: string := "/search"
  const SearchPrefix: string := "/search?q="

  /** Where submitting the query (or "View all results") navigates: the bare
      search page for a blank query, and otherwise the search page with the
      trimmed query encoded as the `q` parameter. The encoded value never
      holds `&`, `#` or `=`, so it is the whole of the `q` parameter. */
  function SubmitUrl(query: string): (url: string)
    ensures url == SearchPath <==> Trim(query) == ""
    ensures Trim(query) != "" ==> url == SearchPrefix + EncodeUriComponent(Trim(query))
    ensures Trim(query) != "" ==>
      && |url| > |SearchPrefix| && url[..|SearchPrefix|] == SearchPrefix
      && forall k | |SearchPrefix| <= k < |url| :: url[k] != '&' && url[k] != '#' && url[k] != '='
  {
    var trimmed := Trim(query);
    if trimmed == "" then SearchPath
    else
      var value := EncodeUriComponent(trimmed);
      assert |SearchPrefix + value| != |SearchPath|;
      assert forall k | 0 <= k < |value| :: value[k] != '&' && value[k] != '#' && value[k] != '=' by {
        forall k | 0 <= k < |value| ensures value[k] != '&' && value[k] != '#' && value[k] != '=' {
          assert IsUnreserved(value[k]) || value[k] == '%';
        }
      }
      SearchPrefix + value
  }

  /** Surrounding whitespace makes no difference to where a submit goes. */
  lemma SubmitUrlIgnoresSurroundingSpace(query: string)
    ensures SubmitUrl(Trim(query)) == SubmitUrl(query)
  {
    TrimIdempotent(query);
  }

  /** Spaces typed around a word are dropped before it is encoded. */
  lemma SubmitUrlPaddedWord()
    ensures SubmitUrl("  shoe ") == "/search?q=shoe"
  {
    TrimSurrounded("  ", "shoe", " ");
    assert "  " + "shoe" + " " == "  shoe ";
    assert EncodeUriComponent("shoe") == "shoe";
  }

  /** A query of plain unreserved characters (letters, digits and `-_.!~*'()`)
      lands in the URL exactly as trimmed. */
  lemma SubmitUrlPlainQuery(query: string)
    requires Trim(query) != ""
    requires forall k | 0 <= k < |Trim(query)| :: IsUnreserved(Trim(query)[k])
    ensures SubmitUrl(query) == SearchPrefix + Trim(query)
  {
  }

  /** The URL of a product page. */
  function ProductUrl(productId: string): (url: string)
    ensures |url| == |"/product/"| + |productId|
    ensures url[..9] == "/product/" && url[9..] == productId
  {
    "/product/" + productId
  }

  /** The first `MaxResults` products of a result list, in order. */
  function FirstResults(data: seq<Json>): (shown: seq<Json>)
    ensures |shown| == if |data| < MaxResults then |data| else MaxResults
    ensures forall k | 0 <= k < |shown| :: shown[k] == data[k]
  {
    if |data| < MaxResults then data else data[..MaxResults]
  }

  /** One mounted search box. `timer` is the search term of the one pending
      debounce timer, if any; `requests` are the search terms handed to
      `getProducts`, oldest first; `inFlight` counts those not yet settled;
      `navigations` are the router pushes, oldest first. */
  class SearchBox {
    var query: string
    var results: seq<Json>
    var open: bool
    var loading: bool
    var timer: Option<string>
    var requests: seq<string>
    var inFlight: nat
    var navigations: seq<string>

    /** At most five results are shown; a pending timer always searches for
        the current trimmed query, which is then not blank; and a blank query
        has no timer and shows no spinner. */
    predicate Valid()
      reads this
    {
      && |results| <= MaxResults
      && (timer.Some? ==> timer.value == Trim(query) && timer.value != "")
      && (Trim(query) == "" ==> timer.None? && !loading)
    }

    /** Whether the popover's content is rendered. */
    predicate ShowContent()
      reads this
      ensures ShowContent() ==> open
      ensures open && Trim(query) != "" ==> ShowContent()
      ensures !loading && results == [] && Trim(query) == "" ==> !ShowContent()
    {
      open && (loading || |results| > 0 || Trim(query) != "")
    }

    /** The debounce effect, run whenever `query` has changed. The previous
        timer is cleared first (its clean-up); a blank query then empties the
        results and closes the popover, and any other opens it, shows the
        spinner and arms a timer for the trimmed query. */
    method QueryEffect()
      modifies this
      ensures Trim(query) == "" ==>
        results == [] && !loading && !open && timer.None?
      ensures Trim(query) != "" ==>
        results == old(results) && loading && open && timer == Some(Trim(query))
      ensures query == old(query) && requests == old(requests)
      ensures inFlight == old(inFlight) && navigations == old(navigations)
      ensures Valid() <== |results| <= MaxResults
    {
      timer := None;
      var trimmed := Trim(query);
      if trimmed == "" {
        results := [];
        loading := false;
        open := false;
        return;
      }
      open := true;
      loading := true;
      timer := Some(trimmed);
    }

    /** Mounting with the page's `?q=`: the query starts from the URL, and the
        debounce effect runs once for it. */
    constructor(q: Option<string>)
      ensures Valid()
      ensures query == UrlQuery(q) && requests == [] && inFlight == 0 && navigations == []
      ensures Trim(query) == "" ==> results == [] && !open && !loading && timer.None?
      ensures Trim(query) != "" ==> results == [] && open && loading && timer == Some(Trim(query))
    {
      query := UrlQuery(q);
      results := [];
      open := false;
      loading := false;
      timer := None;
      requests := [];
      inFlight := 0;
      navigations := [];
      new;
      QueryEffect();
    }

    /** Sets the query; when that changes it, the debounce effect runs. */
    method SetQuery(value: string)
      requires Valid()
      modifies this
      ensures Valid()
      ensures query == value
      ensures value == old(query) ==>
        && results == old(results) && open == old(open) && loading == old(loading)
        && timer == old(timer)
      ensures value != old(query) && Trim(value) == "" ==>
        results == [] && !loading && !open && timer.None?
      ensures value != old(query) && Trim(value) != "" ==>
        results == old(results) && loading && open && timer == Some(Trim(value))
      ensures requests == old(requests) && inFlight == old(inFlight)
      ensures navigations == old(navigations)
    {
      if value != query {
        query := value;
        QueryEffect();
      }
    }

    /** The URL's `?q=` changed (the sync effect): the query follows it. */
    method SyncFromUrl(q: Option<string>)
      requires Valid()
      modifies this
      ensures Valid()
      ensures query == UrlQuery(q)
      ensures UrlQuery(q) == old(query) ==>
        && results == old(results) && open == old(open) && loading == old(loading)
        && timer == old(timer)
      ensures UrlQuery(q) != old(query) && Trim(UrlQuery(q)) == "" ==>
        results == [] && !loading && !open && timer.None?
      ensures UrlQuery(q) != old(query) && Trim(UrlQuery(q)) != "" ==>
        results == old(results) && loading && open && timer == Some(Trim(UrlQuery(q)))
      ensures requests == old(requests) && inFlight == old(inFlight)
      ensures navigations == old(navigations)
    {
      SetQuery(UrlQuery(q));
    }

    /** Typing: the query takes the input's value and the popover is open
        exactly when the trimmed value is not blank. When the value differs,
        the stale timer is replaced by one for the new trimmed value. */
    method Type(value: string)
      requires Valid()
      modifies this
      ensures Valid()
      ensures query == value
      ensures open <==> Trim(value) != ""
      ensures Trim(value) != "" && value != old(query) ==> timer == Some(Trim(value)) && loading
      ensures Trim(value) == "" ==> timer.None? && !loading
      ensures Trim(value) == "" && value != old(query) ==> results == []
      ensures Trim(value) != "" ==> results == old(results)
      ensures value == old(query) ==>
        timer == old(timer) && loading == old(loading) && results == old(results)
      ensures Trim(value) == "" ==> !ShowContent()
      ensures requests == old(requests) && inFlight == old(inFlight)
      ensures navigations == old(navigations)
    {
      SetQuery(value);
      open := Trim(value) != "";
    }

    /** The pending timer fires: `getProducts` is called with its term. */
    method FireTimer()
      requires Valid()
      requires timer.Some?
      modifies this
      ensures Valid()
      ensures requests == old(requests) + [old(timer).value]
      ensures inFlight == old(inFlight) + 1
      ensures timer.None?
      ensures query == old(query) && results == old(results)
      ensures open == old(open) && loading == old(loading)
      ensures navigations == old(navigations)
    {
      requests := requests + [timer.value];
      inFlight := inFlight + 1;
      timer := None;
    }

    /** A search resolved with `data`: its first five products are shown, in
        order, and the spinner stops. Nothing checks that the search still
        belongs to the current query. */
    method Settle(data: seq<Json>)
      requires Valid()
      requires inFlight > 0
      modifies this
      ensures Valid()
      ensures results == FirstResults(data)
      ensures !loading
      ensures inFlight == old(inFlight) - 1
      ensures query == old(query) && open == old(open) && timer == old(timer)
      ensures requests == old(requests) && navigations == old(navigations)
    {
      results := if |data| < MaxResults then data else data[..MaxResults];
      loading := false;
      inFlight := inFlight - 1;
    }

    /** A search rejected: no results, and the spinner stops. `getProducts`
        catches every failure and resolves to the empty list instead, so this
        event never happens with the fetch as written: an aborted earlier
        search arrives as `Settle([])`, which empties the results and stops
        the spinner while the newer search is still pending. */
    method Fail()
      requires Valid()
      requires inFlight > 0
      modifies this
      ensures Valid()
      ensures results == [] && !loading
      ensures inFlight == old(inFlight) - 1
      ensures query == old(query) && open == old(open) && timer == old(timer)
      ensures requests == old(requests) && navigations == old(navigations)
    {
      results := [];
      loading := false;
      inFlight := inFlight - 1;
    }

    /** Submitting the form (or "View all results"): navigate to the search
        page for the trimmed query and close the popover. */
    method Submit()
      requires Valid()
      modifies this
      ensures Valid()
      ensures navigations == old(navigations) + [SubmitUrl(old(query))]
      ensures !open && !ShowContent()
      ensures query == old(query) && results == old(results) && loading == old(loading)
      ensures timer == old(timer) && requests == old(requests) && inFlight == old(inFlight)
    {
      var trimmed := Trim(query);
      var url := if trimmed != "" then SearchPrefix + EncodeUriComponent(trimmed) else SearchPath;
      navigations := navigations + [url];
      open := false;
    }

    /** Picking a result: navigate to its product page and close the popover. */
    method Select(productId: string)
      requires Valid()
      modifies this
      ensures Valid()
      ensures navigations == old(navigations) + [ProductUrl(productId)]
      ensures !open
      ensures query == old(query) && results == old(results) && loading == old(loading)
      ensures timer == old(timer) && requests == old(requests) && inFlight == old(inFlight)
    {
      navigations := navigations + ["/product/" + productId];
      open := false;
    }

    /** The clear button: empty query, no results, popover closed, and no
        timer left pending. */
    method Clear()
      requires Valid()
      modifies this
      ensures Valid()
      ensures query == "" && results == [] && !open && timer.None? && !loading
      ensures !ShowContent()
      ensures requests == old(requests) && inFlight == old(inFlight)
      ensures navigations == old(navigations)
    {
      SetQuery("");
      results := [];
      open := false;
    }

    /** The popover asks to open or close. A request to close is ignored while
        the trimmed query is not blank; any other request is granted. */
    method OpenChange(nextOpen: bool)
      requires Valid()
      modifies this
      ensures Valid()
      ensures !nextOpen && Trim(query) != "" ==> open == old(open)
      ensures nextOpen || Trim(query) == "" ==> open == nextOpen
      ensures query == old(query) && results == old(results) && loading == old(loading)
      ensures timer == old(timer) && requests == old(requests) && inFlight == old(inFlight)
      ensures navigations == old(navigations)
    {
      if !nextOpen && Trim(query) != "" {
        return;
      }
      open := nextOpen;
    }

    /** Focusing the input opens the popover when there is a query or there
        are results to show, and otherwise leaves it as it is. */
    method Focus()
      requires Valid()
      modifies this
      ensures Valid()
      ensures Trim(query) != "" || |results| > 0 ==> open
      ensures Trim(query) == "" && results == [] ==> open == old(open)
      ensures query == old(query) && results == old(results) && loading == old(loading)
      ensures timer == old(timer) && requests == old(requests) && inFlight == old(inFlight)
      ensures navigations == old(navigations)
    {
      if Trim(query) != "" || |results| > 0 {
        open := true;
      }
    }

    /** A click outside the shown popover closes it only when the trimmed
        query is blank. */
    method InteractOutside()
      requires Valid()
      requires ShowContent()
      modifies this
      ensures Valid()
      ensures open <==> Trim(query) != ""
      ensures query == old(query) && results == old(results) && loading == old(loading)
      ensures timer == old(timer) && requests == old(requests) && inFlight == old(inFlight)
      ensures navigations == old(navigations)
    {
      if Trim(query) == "" {
        open := false;
      }
    }
  }

  /** Typing "s", "sh", "sho" and "shoe" in quick succession before the timer
      fires makes a single request, for the last query. */
  method DebounceOneRequest() returns (box: SearchBox)
    ensures box.requests == ["shoe"]
    ensures box.open && box.loading && box.inFlight == 1
  {
    box := new SearchBox(None);
    box.Type("s");
    box.Type("sh");
    box.Type("sho");
    box.Type("shoe");
    TrimUntrimmed("shoe");
    box.FireTimer();
  }

  /** A search that settles after the query was cleared still fills the
      results: nothing ties a response to the query that asked for it. */
  method StaleResultsAfterClear(late: seq<Json>) returns (box: SearchBox)
    requires late != []
    ensures box.query == "" && box.results != [] && !box.open
    ensures |box.results| == if |late| < MaxResults then |late| else MaxResults
  {
    box := new SearchBox(None);
    box.Type("shoe");
    TrimUntrimmed("shoe");
    box.FireTimer();
    box.Clear();
    box.Settle(late);
  }
}
