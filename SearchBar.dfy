/**
 * The search bar: the filtering applied to a name search's results, and the
 * 500 ms debounce that queries only the last text of a burst of edits.
 *
 * The search itself (a prefix query on `fullname_lower`) is a store query and
 * is a parameter here: `fetched` is what it returned, `None` for null.
 */
module SearchBar {
  import opened Common

  const DebounceMs := 500

  /** The users of `users` whose id is not `id`, in their order. */
  function ExcludeId(users: seq<User>, id: string): (r: seq<User>)
    ensures |r| <= |users|
    ensures forall u :: u in r <==> u in users && u.id != id
    decreases |users|
  {
    if users == [] then []
    else (if users[0].id != id then [users[0]] else []) + ExcludeId(users[1..], id)
  }

  /** Excluding distributes over concatenation: the order of the kept users is their order in the input. */
  lemma {:induction false} ExcludeIdConcat(a: seq<User>, b: seq<User>, id: string)
    ensures ExcludeId(a + b, id) == ExcludeId(a, id) + ExcludeId(b, id)
    decreases |a|
  {
    if a == [] {
      assert a + b == b;
    } else {
      assert (a + b)[0] == a[0];
      assert (a + b)[1..] == a[1..] + b;
      ExcludeIdConcat(a[1..], b, id);
    }
  }

  /** A list with no user of that id is kept whole. */
  lemma {:induction false} ExcludeIdAbsent(users: seq<User>, id: string)
    requires forall u :: u in users ==> u.id != id
    ensures ExcludeId(users, id) == users
    decreases |users|
  {
    if users != [] {
      assert users[0] in users;
      ExcludeIdAbsent(users[1..], id);
      assert [users[0]] + users[1..] == users;
    }
  }

  /** What `queryFirestore` does: whether it queries the store, and the results it sets. */
  datatype QueryOutcome = QueryOutcome(issued: bool, results: seq<User>)

  /**
   * `queryFirestore`: empty text clears the results without a query. With a
   * current user the results are the fetched ones minus the user themself
   * (none when the search returned null); without a user they are the fetched
   * ones, or none when it returned null or an empty list.
   */
  function QueryResults(queryText: string, user: Option<User>, fetched: Option<seq<User>>): (r: QueryOutcome)
    ensures r.issued <==> |queryText| > 0
    ensures !r.issued ==> r.results == []
    ensures r.issued && user.Some? ==> forall u :: u in r.results <==>
      fetched.Some? && u in fetched.value && u.id != user.value.id
    ensures r.issued && user.None? ==> r.results == if fetched.Some? then fetched.value else []
  {
    if |queryText| == 0 then QueryOutcome(false, [])
    else if user.Some? then
      QueryOutcome(true, if fetched.Some? then ExcludeId(fetched.value, user.value.id) else [])
    else
      QueryOutcome(true, if fetched.Some? && fetched.value != [] then fetched.value else [])
  }

  /** A user never finds themself. */
  lemma SelfNeverFound(queryText: string, user: User, fetched: Option<seq<User>>)
    ensures forall u :: u in QueryResults(queryText, Some(user), fetched).results ==> u.id != user.id
  {
  }

  // ---------------------------------------------------------------------------
  // Debounce
  // ---------------------------------------------------------------------------

  /** The pending timeout: when it fires and the text its callback queries. */
  datatype PendingQuery = PendingQuery(deadline: int, text: string)

  /** The text state and the `typingTimeout` ref. */
  datatype Debounce = Debounce(searchText: string, pending: Option<PendingQuery>)

  /** The mount: the effect's first run schedules a query of the empty text. */
  function Mounted(now: int): Debounce {
    Debounce("", Some(PendingQuery(now + DebounceMs, "")))
  }

  /**
   * `handleChange` at `now`: the text is set; when it changed, the effect
   * re-runs, cancelling the pending query and scheduling one for the new text.
   */
  function Edit(d: Debounce, value: string, now: int): (r: Debounce)
    ensures r.searchText == value
    ensures value != d.searchText ==> r.pending == Some(PendingQuery(now + DebounceMs, value))
    ensures value == d.searchText ==> r == d
  {
    if value == d.searchText then d
    else Debounce(value, Some(PendingQuery(now + DebounceMs, value)))
  }

  /** A burst of edits, each a value typed at a time. */
  datatype Keystroke = Keystroke(value: string, at: int)

  function EditAll(d: Debounce, edits: seq<Keystroke>): Debounce
    decreases |edits|
  {
    if edits == [] then d else EditAll(Edit(d, edits[0].value, edits[0].at), edits[1..])
  }

  /** A pending query is always for the current text. */
  predicate QueriesCurrentText(d: Debounce) {
    d.pending.Some? ==> d.pending.value.text == d.searchText
  }

  lemma {:induction false} EditAllKeepsCurrent(d: Debounce, edits: seq<Keystroke>)
    requires QueriesCurrentText(d)
    ensures QueriesCurrentText(EditAll(d, edits))
    decreases |edits|
  {
    if edits != [] {
      EditAllKeepsCurrent(Edit(d, edits[0].value, edits[0].at), edits[1..]);
    }
  }

  /**
   * Only the last text of a burst is queried: after edits whose last one
   * changed the text, the single pending query is for that text, 500 ms after
   * that edit.
   */
  lemma {:induction false} BurstQueriesLast(d: Debounce, edits: seq<Keystroke>)
    requires |edits| > 0
    requires var before := EditAll(d, edits[..|edits| - 1]);
             edits[|edits| - 1].value != before.searchText
    ensures var last := edits[|edits| - 1];
            EditAll(d, edits).pending == Some(PendingQuery(last.at + DebounceMs, last.value))
    decreases |edits|
  {
    EditAllSplit(d, edits[..|edits| - 1], [edits[|edits| - 1]]);
    assert edits[..|edits| - 1] + [edits[|edits| - 1]] == edits;
  }

  lemma {:induction false} EditAllSplit(d: Debounce, a: seq<Keystroke>, b: seq<Keystroke>)
    ensures EditAll(d, a + b) == EditAll(EditAll(d, a), b)
    decreases |a|
  {
    if a == [] {
      assert a + b == b;
    } else {
      assert (a + b)[0] == a[0];
      assert (a + b)[1..] == a[1..] + b;
      EditAllSplit(Edit(d, a[0].value, a[0].at), a[1..], b);
    }
  }

  /** The search bar's state, updated in place. */
  class SearchBarState {
    var searchText: string
    var typingTimeout: Option<PendingQuery>

    function State(): Debounce
      reads this
    {
      Debounce(searchText, typingTimeout)
    }

    constructor (now: int)
      ensures State() == Mounted(now)
    {
      searchText := "";
      typingTimeout := Some(PendingQuery(now + DebounceMs, ""));
    }

    /** `handleChange`, and the effect re-run when the text changed. */
    method HandleChange(value: string, now: int)
      modifies this
      ensures State() == Edit(old(State()), value, now)
    {
      var changed := value != searchText;
      searchText := value;
      if changed {
        // the cleanup cancels the pending timeout; the re-run arms a new one
        typingTimeout := Some(PendingQuery(now + DebounceMs, searchText));
      }
    }

    /**
     * The pending timeout firing: the query runs with the text it captured
     * and the results it sets are returned.
     */
    method TimerFires(user: Option<User>, fetched: Option<seq<User>>) returns (outcome: QueryOutcome)
      requires typingTimeout.Some?
      modifies this
      ensures outcome == QueryResults(old(typingTimeout).value.text, user, fetched)
      ensures typingTimeout == None && searchText == old(searchText)
    {
      var text := typingTimeout.value.text;
      typingTimeout := None;
      outcome := QueryResults(text, user, fetched);
    }

    /** Unmounting cancels the pending query. */
    method Unmount()
      modifies this
      ensures typingTimeout == None && searchText == old(searchText)
    {
      typingTimeout := None;
    }
  }
}
