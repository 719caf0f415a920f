/**
 * The user list view: a client-side search filter over the fetched users, and
 * the loading/error state the view keeps while it fetches them.
 */
module UserListComponent {

  import opened Wrappers
  import opened Text
  import opened UserModel
  import opened HttpInterceptor

  /** `b` keeps all of the elements of `a`, in order, possibly with others between them. */
  ghost predicate IsSubsequence<T>(a: seq<T>, b: seq<T>)
    decreases |b|
  {
    a == [] || (b != [] && ((a[0] == b[0] && IsSubsequence(a[1..], b[1..])) || IsSubsequence(a, b[1..])))
  }

  lemma {:induction false} SubsequenceNoLonger<T>(a: seq<T>, b: seq<T>)
    requires IsSubsequence(a, b)
    ensures |a| <= |b|
    decreases |b|
  {
    if a != [] {
      if a[0] == b[0] && IsSubsequence(a[1..], b[1..]) {
        SubsequenceNoLonger(a[1..], b[1..]);
      } else {
        SubsequenceNoLonger(a, b[1..]);
      }
    }
  }

  lemma {:induction false} SubsequenceReflexive<T>(a: seq<T>)
    ensures IsSubsequence(a, a)
    decreases |a|
  {
    if a != [] {
      SubsequenceReflexive(a[1..]);
    }
  }

  /** The search key the filter uses: the term lower-cased, then trimmed. */
  function SearchKey(term: string): (key: string)
    ensures NoUpper(key)
    ensures key == [] <==> AllWhitespace(term)
  {
    var lower := ToLower(term);
    TrimKeepsNoUpper(lower);
    assert AllWhitespace(lower) ==> AllWhitespace(term);
    Trim(lower)
  }

  /** A user is kept when its lower-cased name, email or username contains the key. */
  predicate UserMatches(user: User, key: string)
    ensures UserMatches(user, key) <==>
      IsSubstring(key, ToLower(user.name)) || IsSubstring(key, ToLower(user.email)) || IsSubstring(key, ToLower(user.username))
  {
    Includes(ToLower(user.name), key) || Includes(ToLower(user.email), key) || Includes(ToLower(user.username), key)
  }

  /** The empty key matches every user. */
  lemma EmptyKeyMatchesAll(user: User)
    ensures UserMatches(user, [])
  {
    IncludesEmpty(ToLower(user.name));
  }

  /** `allUsers.filter(…)`: the matching users, in their original order, each as often as it occurs. */
  function Select(users: seq<User>, key: string): (r: seq<User>)
    ensures IsSubsequence(r, users)
    ensures forall u :: u in r <==> u in users && UserMatches(u, key)
    ensures forall u :: multiset(r)[u] == if UserMatches(u, key) then multiset(users)[u] else 0
    decreases |users|
  {
    if users == [] then []
    else
      var rest := Select(users[1..], key);
      assert users == [users[0]] + users[1..];
      if UserMatches(users[0], key) then [users[0]] + rest else rest
  }

  /**
   * `filteredUsers`: with a blank search term, the whole collection as it is;
   * otherwise the users matching the search key, in order.
   */
  function FilteredUsers(users: seq<User>, term: string): (r: seq<User>)
    ensures SearchKey(term) == [] ==> r == users
    ensures IsSubsequence(r, users) && |r| <= |users|
    ensures forall u :: u in r <==> u in users && UserMatches(u, SearchKey(term))
    ensures forall u :: multiset(r)[u] == if UserMatches(u, SearchKey(term)) then multiset(users)[u] else 0
  {
    var key := SearchKey(term);
    if key == [] then
      SubsequenceReflexive(users);
      assert forall u :: UserMatches(u, key) by {
        forall u ensures UserMatches(u, key) { EmptyKeyMatchesAll(u); }
      }
      users
    else
      var r := Select(users, key);
      SubsequenceNoLonger(r, users);
      r
  }

  /** The search key neither starts nor ends with whitespace. */
  lemma SearchKeyTrimmed(term: string)
    ensures var key := SearchKey(term); key != [] ==> !IsWhitespace(key[0]) && !IsWhitespace(key[|key| - 1])
  {
    var r := Trim(ToLower(term));
    assert SearchKey(term) == r;
    assert r != [] ==> !IsWhitespace(r[0]) && !IsWhitespace(r[|r| - 1]);
  }

  /** The search key of a search key is itself. */
  lemma SearchKeyIdempotent(term: string)
    ensures SearchKey(SearchKey(term)) == SearchKey(term)
  {
    var key := SearchKey(term);
    SearchKeyTrimmed(term);
    ToLowerOfLower(key);
    TrimOfTrimmed(key);
  }

  /** Filtering by a term and by its lower-cased, trimmed form give the same users. */
  lemma FilterUsesSearchKey(users: seq<User>, term: string)
    ensures FilteredUsers(users, term) == FilteredUsers(users, SearchKey(term))
  {
    SearchKeyIdempotent(term);
  }

  /** Terms that differ only in letter case filter alike. */
  lemma FilterIgnoresCase(users: seq<User>, t1: string, t2: string)
    requires ToLower(t1) == ToLower(t2)
    ensures FilteredUsers(users, t1) == FilteredUsers(users, t2)
  {
  }

  lemma ToLowerOfWhitespace(w: string)
    requires AllWhitespace(w)
    ensures ToLower(w) == w
  {
    ToLowerOfLower(w);
  }

  /** Whitespace typed around a term does not change the result. */
  lemma FilterIgnoresPadding(users: seq<User>, w1: string, term: string, w2: string)
    requires AllWhitespace(w1) && AllWhitespace(w2)
    ensures FilteredUsers(users, w1 + term + w2) == FilteredUsers(users, term)
  {
    ToLowerConcat(w1 + term, w2);
    ToLowerConcat(w1, term);
    ToLowerOfWhitespace(w1);
    ToLowerOfWhitespace(w2);
    TrimIgnoresPadding(w1, ToLower(term), w2);
  }

  /**
   * Soundness and completeness of the filter: a user is in the result exactly
   * when it is in the collection and the search key is a substring of its
   * lower-cased name, email or username.
   */
  lemma FilterSoundAndComplete(users: seq<User>, term: string, user: User)
    ensures user in FilteredUsers(users, term) <==>
      user in users && (IsSubstring(SearchKey(term), ToLower(user.name))
                        || IsSubstring(SearchKey(term), ToLower(user.email))
                        || IsSubstring(SearchKey(term), ToLower(user.username)))
  {
  }

  /**
   * The view's state. `searchControl` is the value of the search input;
   * `searchTerm` is the value its debounced stream last delivered; `users` is
   * the value the users subject holds. `fetchesIssued` counts the fetch-all
   * requests the view has made.
   */
  class UserList {
    var searchControl: string
    var searchTerm: string
    var users: seq<User>
    var loading: bool
    var error: Option<string>
    ghost var fetchesIssued: nat

    /** A fresh view: empty search, no users, loading, no error, nothing fetched yet. */
    constructor ()
      ensures searchControl == "" && searchTerm == "" && users == []
      ensures loading && error == None && fetchesIssued == 0
    {
      searchControl := "";
      searchTerm := "";
      users := [];
      loading := true;
      error := None;
      fetchesIssued := 0;
    }

    /**
     * `filteredUsers()` read now: with a blank search term, every user in
     * order; otherwise the users matching the term, in order.
     */
    function Filtered(): (r: seq<User>)
      reads this
      ensures AllWhitespace(searchTerm) ==> r == users
      ensures IsSubsequence(r, users) && |r| <= |users|
      ensures forall u :: u in r <==> u in users && UserMatches(u, SearchKey(searchTerm))
    {
      FilteredUsers(users, searchTerm)
    }

    /** `loadUsers` up to the subscription: loading, no error, one fetch issued. */
    method BeginLoad()
      modifies this
      ensures loading && error == None && fetchesIssued == old(fetchesIssued) + 1
      ensures users == old(users) && searchControl == old(searchControl) && searchTerm == old(searchTerm)
    {
      loading := true;
      error := None;
      fetchesIssued := fetchesIssued + 1;
    }

    /** The `next` handler: the fetched users replace the collection. */
    method OnNext(fetched: seq<User>)
      modifies this
      ensures users == fetched
      ensures loading == old(loading) && error == old(error) && fetchesIssued == old(fetchesIssued)
      ensures searchControl == old(searchControl) && searchTerm == old(searchTerm)
    {
      users := fetched;
    }

    /** The `error` handler: the failure message becomes the error; the collection stays. */
    method OnError(message: string)
      modifies this
      ensures error == Some(message)
      ensures loading == old(loading) && users == old(users) && fetchesIssued == old(fetchesIssued)
      ensures searchControl == old(searchControl) && searchTerm == old(searchTerm)
    {
      error := Some(message);
    }

    /** The `finalize` callback, run after either outcome: loading ends. */
    method Finalize()
      modifies this
      ensures !loading
      ensures users == old(users) && error == old(error) && fetchesIssued == old(fetchesIssued)
      ensures searchControl == old(searchControl) && searchTerm == old(searchTerm)
    {
      loading := false;
    }

    /**
     * `loadUsers` with the fetch finishing in `outcome`: on success the users
     * are replaced and there is no error; on failure the error is the message
     * and the users are kept; either way loading has ended.
     */
    method LoadUsers(outcome: Outcome<seq<User>>)
      modifies this
      ensures !loading && fetchesIssued == old(fetchesIssued) + 1
      ensures outcome.Success? ==> users == outcome.value && error == None
      ensures outcome.Failure? ==> users == old(users) && error == Some(outcome.message)
      ensures searchControl == old(searchControl) && searchTerm == old(searchTerm)
    {
      BeginLoad();
      match outcome {
        case Success(fetched) => OnNext(fetched);
        case Failure(message) => OnError(message);
      }
      Finalize();
    }

    /** `ngOnInit`: the initial load. */
    method NgOnInit(outcome: Outcome<seq<User>>)
      modifies this
      ensures !loading && fetchesIssued == old(fetchesIssued) + 1
      ensures outcome.Success? ==> users == outcome.value && error == None
      ensures outcome.Failure? ==> users == old(users) && error == Some(outcome.message)
      ensures searchControl == old(searchControl) && searchTerm == old(searchTerm)
    {
      LoadUsers(outcome);
    }

    /** `onRetry`: exactly one more load, whatever the state before. */
    method OnRetry(outcome: Outcome<seq<User>>)
      modifies this
      ensures !loading && fetchesIssued == old(fetchesIssued) + 1
      ensures outcome.Success? ==> users == outcome.value && error == None
      ensures outcome.Failure? ==> users == old(users) && error == Some(outcome.message)
      ensures searchControl == old(searchControl) && searchTerm == old(searchTerm)
    {
      LoadUsers(outcome);
    }

    /** `onClearSearch`: the search input is emptied; nothing else changes yet. */
    method OnClearSearch()
      modifies this
      ensures searchControl == ""
      ensures searchTerm == old(searchTerm) && users == old(users) && loading == old(loading)
      ensures error == old(error) && fetchesIssued == old(fetchesIssued)
    {
      searchControl := "";
    }

    /**
     * The debounced search stream delivers the input's settled value; once
     * that value is blank the whole collection is shown.
     */
    method SearchSettles()
      modifies this
      ensures searchTerm == searchControl
      ensures searchControl == old(searchControl) && users == old(users) && loading == old(loading)
      ensures error == old(error) && fetchesIssued == old(fetchesIssued)
      ensures AllWhitespace(searchControl) ==> Filtered() == users
    {
      searchTerm := searchControl;
    }
  }

}
