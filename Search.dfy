/**
 * The user search: the results a search bar reports become drop-down options
 * (id and full name), and choosing an option hands back the result with that id.
 */
module Search {
  import opened Common
  import SearchBar

  /** A drop-down option: `{ id, value }`. */
  datatype SearchOption = SearchOption(id: string, value: string)

  /** `results.map((x) => ({ id: x.id, value: x.fullname }))`. */
  function ToOptions(results: seq<User>): (r: seq<SearchOption>)
    ensures |r| == |results|
    ensures forall i :: 0 <= i < |r| ==> r[i].id == results[i].id && r[i].value == results[i].fullname
  {
    seq(|results|, i requires 0 <= i < |results| => SearchOption(results[i].id, results[i].fullname))
  }

  /** `_.find(results, (x) => x.id === id)`: the first result with that id, if any. */
  function FindById(results: seq<User>, id: string): (r: Option<User>)
    ensures r.Some? ==> r.value in results && r.value.id == id
    ensures r.None? <==> forall u :: u in results ==> u.id != id
    decreases |results|
  {
    if results == [] then None
    else if results[0].id == id then Some(results[0])
    else FindById(results[1..], id)
  }

  /** The first result with an id is the one found. */
  lemma {:induction false} FindByIdFirst(results: seq<User>, i: nat)
    requires i < |results|
    requires forall j :: 0 <= j < i ==> results[j].id != results[i].id
    ensures FindById(results, results[i].id) == Some(results[i])
    decreases i
  {
    if i > 0 {
      FindByIdFirst(results[1..], i - 1);
    }
  }

  /**
   * Every option leads back to a result: choosing the option built from the
   * i-th result finds a result with the same id and, when ids are distinct,
   * that very result.
   */
  lemma OptionLeadsBack(results: seq<User>, i: nat)
    requires i < |results|
    ensures FindById(results, ToOptions(results)[i].id).Some?
    ensures (forall j, k :: 0 <= j < k < |results| ==> results[j].id != results[k].id) ==>
      FindById(results, ToOptions(results)[i].id) == Some(results[i])
  {
    assert results[i] in results;
    if forall j, k :: 0 <= j < k < |results| ==> results[j].id != results[k].id {
      FindByIdFirst(results, i);
    }
  }

  /** A user searching is never offered themself. */
  lemma SelfNeverOffered(queryText: string, user: User, fetched: Option<seq<User>>)
    ensures forall o :: o in ToOptions(SearchBar.QueryResults(queryText, Some(user), fetched).results) ==>
      o.id != user.id
  {
    var results := SearchBar.QueryResults(queryText, Some(user), fetched).results;
    forall o | o in ToOptions(results)
      ensures o.id != user.id
    {
      var i :| 0 <= i < |ToOptions(results)| && ToOptions(results)[i] == o;
      assert results[i] in results;
    }
  }

  /** The search component's state. */
  class SearchState {
    var searchResults: seq<User>
    var options: seq<SearchOption>
    var optionSelected: Option<SearchOption>
    var isOpen: bool

    constructor ()
      ensures searchResults == [] && options == [] && optionSelected == None && !isOpen
      ensures options == ToOptions(searchResults)
    {
      searchResults, options, optionSelected, isOpen := [], [], None, false;
    }

    /**
     * `handleSetSearchResults`: a list becomes the results and their options,
     * open exactly when there is one; anything that cannot be mapped (`None`)
     * clears them and closes the drop-down.
     */
    method HandleSetSearchResults(results: Option<seq<User>>)
      modifies this
      ensures results.Some? ==> searchResults == results.value && isOpen == (|results.value| > 0)
      ensures results.None? ==> searchResults == [] && !isOpen
      ensures options == ToOptions(searchResults)
      ensures optionSelected == old(optionSelected)
    {
      if results.Some? {
        var formattedResults := ToOptions(results.value);
        searchResults := results.value;
        options := formattedResults;
        isOpen := |formattedResults| > 0;
      } else {
        searchResults := [];
        options := [];
        isOpen := false;
      }
    }

    /** `onSearchBarClick`: reopens the drop-down when there are results. */
    method OnSearchBarClick()
      modifies this
      ensures isOpen == (old(isOpen) || |searchResults| > 0)
      ensures searchResults == old(searchResults) && options == old(options)
      ensures optionSelected == old(optionSelected)
    {
      if |searchResults| > 0 {
        isOpen := true;
      }
    }

    /**
     * `handleOptionSelected`: records the option and returns the result with
     * its id, handed to `onResultSelected` (`None` for undefined).
     */
    method HandleOptionSelected(option: SearchOption) returns (found: Option<User>)
      modifies this
      ensures found == FindById(searchResults, option.id)
      ensures optionSelected == Some(option)
      ensures searchResults == old(searchResults) && options == old(options) && isOpen == old(isOpen)
    {
      found := FindById(searchResults, option.id);
      optionSelected := Some(option);
    }
  }
}
