/** The airport search box (frontend/static/frontend/js/autocomplete.js): each input event
    clears the suggestions and, for a query of at least two characters, asks the server; the
    reply fills the list; clicking an entry copies the airport's name into the box. Requests
    are not debounced and replies are applied in whatever order they arrive. */
module Autocomplete {
  import opened Wrappers
  import opened Text
  import opened Uri

  const AutocompletePath := "/api/airport-autocomplete/?q="
  const MinQueryLength := 2

  /** One element of the reply's `results`: the label shown and the name put in the box. */
  datatype Item = Item(text: string, name: string)

  /** A suggestion on screen: its `textContent` and the value its click handler assigns. */
  datatype Entry = Entry(caption: string, target: string)

  /** How a request ends: the promise chain rejects before `showSuggestions` (network error,
      unreadable JSON, a `null` body), or `showSuggestions(data.results)` runs, with `None`
      when `results` is absent. */
  datatype Reply = Failed | Delivered(results: Option<seq<Item>>)

  /** The URL an input event fetches for the box's value, if any: the trimmed query, when it
      is at least two UTF-16 units long, percent-encoded into the `q` parameter. */
  function RequestFor(value: string): (url: Option<string>)
    ensures url.Some? <==> Utf16Length(JsTrim(value)) >= MinQueryLength
    ensures url.Some? ==> url.value == AutocompletePath + EncodeURIComponent(JsTrim(value))
  {
    var query := JsTrim(value);
    if Utf16Length(query) < MinQueryLength then None
    else Some(AutocompletePath + EncodeURIComponent(query))
  }

  /** The server reads back exactly the trimmed query from the `q` parameter. */
  lemma RequestCarriesQuery(value: string)
    requires RequestFor(value).Some?
    ensures var url := RequestFor(value).value;
      |AutocompletePath| <= |url| && url[..|AutocompletePath|] == AutocompletePath &&
      DecodeURIComponent(url[|AutocompletePath|..]) == Some(JsTrim(value))
  {
    var url := RequestFor(value).value;
    assert url[|AutocompletePath|..] == EncodeURIComponent(JsTrim(value));
    EncodeDecodeRoundTrip(JsTrim(value));
  }

  /** Surrounding blanks never change what is asked. */
  lemma RequestIgnoresBlanks(value: string)
    ensures RequestFor(JsTrim(value)) == RequestFor(value)
  {
    TrimIdempotent(value, IsJsSpace);
  }

  /** The entries `showSuggestions` appends: one per result, in result order, showing its
      `text` and choosing its `name`. */
  function EntriesOf(items: seq<Item>): (es: seq<Entry>)
    ensures |es| == |items|
    ensures forall i :: 0 <= i < |items| ==> es[i] == Entry(items[i].text, items[i].name)
  {
    if items == [] then [] else EntriesOf(items[..|items| - 1]) + [Entry(items[|items| - 1].text, items[|items| - 1].name)]
  }

  /** The page: whether `search-input` and `suggestions-container` exist, the box's value, the
      entries in the container and the URLs fetched so far. */
  class Page {
    const listening: bool
    const hasContainer: bool
    var value: string
    var suggestions: seq<Entry>
    var requests: seq<string>

    /** Nothing is ever fetched without the box, whose handler makes the requests, and nothing
        is ever shown without both elements: `showSuggestions` throws at its first line
        without the container. */
    ghost predicate Valid()
      reads this
    {
      && (!listening ==> requests == [])
      && ((!listening || !hasContainer) ==> suggestions == [])
    }

    /** `DOMContentLoaded`: the handler is installed when the search box exists. */
    constructor (hasInput: bool, hasContainer: bool, initial: string)
      ensures Valid()
      ensures listening == hasInput && this.hasContainer == hasContainer
      ensures value == initial && suggestions == [] && requests == []
    {
      listening := hasInput;
      this.hasContainer := hasContainer;
      value := initial;
      suggestions := [];
      requests := [];
    }

    /** The user edits the box to `v`: with the handler installed, the suggestions are
        cleared and at most one request is made, for the trimmed query. */
    method OnInput(v: string)
      requires Valid()
      modifies this
      ensures Valid() && value == v
      ensures !listening ==> suggestions == old(suggestions) && requests == old(requests)
      ensures listening ==> suggestions == []
      ensures listening ==> requests == old(requests) + match RequestFor(v) case None => [] case Some(u) => [u]
    {
      value := v;
      if !listening {
        return;
      }
      var query := JsTrim(v);
      if hasContainer {
        suggestions := [];
      }
      if Utf16Length(query) < MinQueryLength {
        return;
      }
      requests := requests + [AutocompletePath + EncodeURIComponent(query)];
    }

    /** `showSuggestions(results)`: the container is emptied, then one entry per result is
        appended. Absent `results` throws after the emptying. */
    method ShowSuggestions(results: Option<seq<Item>>)
      requires Valid() && listening
      modifies this
      ensures Valid() && value == old(value) && requests == old(requests)
      ensures suggestions == if hasContainer then EntriesOf(results.GetOr([])) else []
    {
      if !hasContainer {
        return;
      }
      suggestions := [];
      if results.None? {
        return;
      }
      var items := results.value;
      var i := 0;
      while i < |items|
        invariant 0 <= i <= |items|
        invariant suggestions == EntriesOf(items[..i])
        invariant value == old(value) && requests == old(requests)
      {
        suggestions := suggestions + [Entry(items[i].text, items[i].name)];
        assert items[..i + 1][..i] == items[..i];
        i := i + 1;
      }
      assert items[..i] == items;
    }

    /** The reply to the `k`-th request arrives. Which request it answers does not matter: a
        late reply to an older query replaces what a newer one showed. */
    method OnReply(k: nat, reply: Reply)
      requires Valid() && k < |requests|
      modifies this
      ensures Valid() && value == old(value) && requests == old(requests)
      ensures reply.Failed? ==> suggestions == old(suggestions)
      ensures reply.Delivered? ==>
                suggestions == if hasContainer then EntriesOf(reply.results.GetOr([])) else []
    {
      if reply.Delivered? {
        ShowSuggestions(reply.results);
      }
    }

    /** A click on the `k`-th entry puts that airport's name, not its label, in the box and
        empties the list. */
    method OnClick(k: nat)
      requires Valid() && k < |suggestions|
      modifies this
      ensures Valid() && value == old(suggestions)[k].target && suggestions == []
      ensures requests == old(requests)
    {
      value := suggestions[k].target;
      suggestions := [];
    }
  }

  /** Typing `v`, receiving `items` for it, and clicking the `k`-th entry leaves the `k`-th
      item's name in the box, with the one request the query needed. */
  method PickSuggestion(page: Page, v: string, items: seq<Item>, k: nat)
    requires page.Valid() && page.listening && page.hasContainer
    requires RequestFor(v).Some? && k < |items|
    modifies page
    ensures page.Valid() && page.value == items[k].name && page.suggestions == []
    ensures page.requests == old(page.requests) + [AutocompletePath + EncodeURIComponent(JsTrim(v))]
  {
    page.OnInput(v);
    page.OnReply(|page.requests| - 1, Delivered(Some(items)));
    page.OnClick(k);
  }

  /** Nothing discards a stale reply: after typing `first` then `second`, the reply to the
      first request, arriving last, is what the list shows while the box holds `second`. */
  method LateReplyWins(page: Page, first: string, second: string, older: seq<Item>, newer: seq<Item>)
    requires page.Valid() && page.listening && page.hasContainer
    requires RequestFor(first).Some? && RequestFor(second).Some?
    modifies page
    ensures page.Valid() && page.value == second && page.suggestions == EntriesOf(older)
    ensures |page.requests| == |old(page.requests)| + 2
  {
    page.OnInput(first);
    var firstRequest := |page.requests| - 1;
    page.OnInput(second);
    page.OnReply(|page.requests| - 1, Delivered(Some(newer)));
    page.OnReply(firstRequest, Delivered(Some(older)));
  }
}
