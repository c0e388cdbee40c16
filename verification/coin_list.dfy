/** The list view (`App`): the top-coins table, its search filter and the
    lifecycle of the periodic market snapshot fetch. */
module CoinList {
  import opened Common
  import opened Text

  /** One row of the market snapshot, as the provider returns it. */
  datatype Coin = Coin(
    id: string,
    symbol: string,
    name: string,
    image: string,
    currentPrice: real,
    priceChangePercentage24h: real)

  /* ---------------------------------------------------------------------
     Search filter
     --------------------------------------------------------------------- */

  /** `xs.filter(keep)`: the elements `keep` accepts, in their original
      order. */
  function Filter<T>(xs: seq<T>, keep: T -> bool): (r: seq<T>)
    ensures |r| <= |xs|
    ensures forall x :: x in r ==> x in xs && keep(x)
    ensures forall x :: x in xs && keep(x) ==> x in r
  {
    if xs == [] then []
    else if keep(xs[0]) then [xs[0]] + Filter(xs[1..], keep)
    else Filter(xs[1..], keep)
  }

  /** Every position of `idx` moved one place to the right. */
  function Shifted(idx: seq<nat>): (r: seq<nat>)
    ensures |r| == |idx|
    ensures forall k :: 0 <= k < |r| ==> r[k] == idx[k] + 1
    ensures forall i :: i in r <==> i >= 1 && i - 1 in idx
  {
    if idx == [] then [] else [idx[0] + 1] + Shifted(idx[1..])
  }

  /** Each `r[k]` is the element of `xs` at position `idx[k]`. */
  ghost predicate PointsInto<T>(idx: seq<nat>, r: seq<T>, xs: seq<T>)
  {
    |idx| == |r| && forall k :: 0 <= k < |idx| ==> idx[k] < |xs| && r[k] == xs[idx[k]]
  }

  /** The positions are strictly increasing. */
  ghost predicate Increasing(idx: seq<nat>)
  {
    forall k, l :: 0 <= k < l < |idx| ==> idx[k] < idx[l]
  }

  /** The positions listed are exactly those of `xs` that `keep` accepts. */
  ghost predicate ListsAccepted<T>(idx: seq<nat>, xs: seq<T>, keep: T -> bool)
  {
    forall i :: 0 <= i < |xs| ==> (i in idx <==> keep(xs[i]))
  }

  /** `idx` lists, in increasing order, exactly the positions of `xs` that
      `keep` accepts, and `r[k]` is the element at `idx[k]`. */
  ghost predicate Selects<T>(idx: seq<nat>, r: seq<T>, xs: seq<T>, keep: T -> bool)
  {
    PointsInto(idx, r, xs) && Increasing(idx) && ListsAccepted(idx, xs, keep)
  }

  /** The filtered list is the order-preserving selection of exactly the
      accepted positions of `xs`. */
  lemma {:induction false} FilterSelectsPositions<T>(xs: seq<T>, keep: T -> bool)
    returns (idx: seq<nat>)
    ensures Selects(idx, Filter(xs, keep), xs, keep)
  {
    if xs == [] {
      idx := [];
    } else {
      var rest := FilterSelectsPositions(xs[1..], keep);
      var tail := Filter(xs[1..], keep);
      var shifted := Shifted(rest);
      assert PointsInto(shifted, tail, xs) by { ShiftedPointsInto(xs, tail, rest); }
      assert Increasing(shifted) by { ShiftedIncreasing(rest); }
      assert forall i :: 1 <= i < |xs| ==> (i in shifted <==> keep(xs[i])) by {
        ShiftedListsAccepted(xs, keep, rest);
      }
      if keep(xs[0]) {
        idx := [0] + shifted;
        assert Filter(xs, keep) == [xs[0]] + tail;
        assert PointsInto(idx, [xs[0]] + tail, xs) by { KeptPointsInto(xs, tail, shifted); }
        assert Increasing(idx) by { KeptIncreasing(shifted); }
        assert ListsAccepted(idx, xs, keep) by { KeptListsAccepted(xs, keep, shifted); }
      } else {
        idx := shifted;
        assert Filter(xs, keep) == tail;
        assert 0 !in shifted;
      }
    }
  }

  /** The tail's positions, moved right by one, point into `xs`. */
  lemma ShiftedPointsInto<T>(xs: seq<T>, tail: seq<T>, rest: seq<nat>)
    requires xs != [] && PointsInto(rest, tail, xs[1..])
    ensures PointsInto(Shifted(rest), tail, xs)
  {
  }

  /** Moving increasing positions right by one keeps them increasing. */
  lemma ShiftedIncreasing(rest: seq<nat>)
    requires Increasing(rest)
    ensures Increasing(Shifted(rest))
  {
  }

  /** The tail's accepted positions, moved right by one, are the accepted
      positions of `xs` after the head. */
  lemma ShiftedListsAccepted<T>(xs: seq<T>, keep: T -> bool, rest: seq<nat>)
    requires xs != [] && ListsAccepted(rest, xs[1..], keep)
    ensures forall i :: 1 <= i < |xs| ==> (i in Shifted(rest) <==> keep(xs[i]))
  {
  }

  /** Prepending the kept head keeps every position pointing at its element. */
  lemma KeptPointsInto<T>(xs: seq<T>, tail: seq<T>, shifted: seq<nat>)
    requires xs != [] && PointsInto(shifted, tail, xs)
    ensures PointsInto([0] + shifted, [xs[0]] + tail, xs)
  {
  }

  /** Prepending position 0 to positions that are all at least 1 keeps
      them increasing. */
  lemma KeptIncreasing(shifted: seq<nat>)
    requires forall k :: 0 <= k < |shifted| ==> shifted[k] >= 1
    requires Increasing(shifted)
    ensures Increasing([0] + shifted)
  {
  }

  /** Prepending position 0 for an accepted head lists every accepted
      position. */
  lemma KeptListsAccepted<T>(xs: seq<T>, keep: T -> bool, shifted: seq<nat>)
    requires xs != [] && keep(xs[0])
    requires forall i :: 1 <= i < |xs| ==> (i in shifted <==> keep(xs[i]))
    ensures ListsAccepted([0] + shifted, xs, keep)
  {
  }

  /** Two predicates that agree on the list filter it identically. */
  lemma {:induction false} FilterAgreeing<T>(xs: seq<T>, f: T -> bool, g: T -> bool)
    requires forall x :: x in xs ==> f(x) == g(x)
    ensures Filter(xs, f) == Filter(xs, g)
  {
    if xs != [] {
      FilterAgreeing(xs[1..], f, g);
    }
  }

  /** A predicate that accepts every element keeps the list unchanged. */
  lemma {:induction false} FilterAcceptingAll<T>(xs: seq<T>, keep: T -> bool)
    requires forall x :: x in xs ==> keep(x)
    ensures Filter(xs, keep) == xs
  {
    if xs != [] {
      FilterAcceptingAll(xs[1..], keep);
    }
  }

  /** Filtering twice with the same predicate is filtering once. */
  lemma {:induction false} FilterTwice<T>(xs: seq<T>, keep: T -> bool)
    ensures Filter(Filter(xs, keep), keep) == Filter(xs, keep)
  {
    if xs != [] {
      FilterTwice(xs[1..], keep);
    }
  }

  /** A coin is kept when its lower-cased name or lower-cased symbol
      contains the lower-cased search term. */
  predicate Matches(c: Coin, term: string)
  {
    Includes(Lower(c.name), Lower(term)) || Includes(Lower(c.symbol), Lower(term))
  }

  /** The filter callback for one search term. */
  function KeepFor(term: string): Coin -> bool
  {
    c => Matches(c, term)
  }

  /** `filteredCoins`: the coins that match the search term, in list order. */
  function FilterCoins(coins: seq<Coin>, term: string): (r: seq<Coin>)
    ensures |r| <= |coins|
    ensures forall c :: c in r <==> c in coins && Matches(c, term)
  {
    Filter(coins, KeepFor(term))
  }

  /** The filtered list is the order-preserving selection of exactly the
      matching positions of `coins`. */
  lemma FilterCoinsSelectsMatches(coins: seq<Coin>, term: string)
    returns (idx: seq<nat>)
    ensures |idx| == |FilterCoins(coins, term)|
    ensures forall k :: 0 <= k < |idx| ==> idx[k] < |coins| && FilterCoins(coins, term)[k] == coins[idx[k]]
    ensures forall k, l :: 0 <= k < l < |idx| ==> idx[k] < idx[l]
    ensures forall i :: 0 <= i < |coins| ==> (i in idx <==> Matches(coins[i], term))
  {
    idx := FilterSelectsPositions(coins, KeepFor(term));
    assert PointsInto(idx, FilterCoins(coins, term), coins) && Increasing(idx);
    assert ListsAccepted(idx, coins, KeepFor(term));
  }

  /** An empty search term keeps every coin, unchanged and in order. */
  lemma FilterEmptyTerm(coins: seq<Coin>)
    ensures FilterCoins(coins, "") == coins
  {
    assert Lower("") == "";
    FilterAcceptingAll(coins, KeepFor(""));
  }

  /** The filter is case-insensitive in the term: a term and its upper-case
      variant select the same coins. */
  lemma FilterIgnoresTermCase(coins: seq<Coin>, term: string)
    ensures FilterCoins(coins, Upper(term)) == FilterCoins(coins, term)
  {
    LowerOfUpper(term);
    FilterAgreeing(coins, KeepFor(Upper(term)), KeepFor(term));
  }

  /** Filtering the filtered list again with the same term changes nothing. */
  lemma FilterCoinsIdempotent(coins: seq<Coin>, term: string)
    ensures FilterCoins(FilterCoins(coins, term), term) == FilterCoins(coins, term)
  {
    FilterTwice(coins, KeepFor(term));
  }

  /* ---------------------------------------------------------------------
     Language selector
     --------------------------------------------------------------------- */

  /** The language buttons, in display order. */
  const Languages: seq<string> := ["en", "ru", "ar"]

  /** Button `lang` is highlighted when it equals the key of the current
      UI language code. */
  predicate LanguageButtonActive(language: string, lang: string)
  {
    LangKey(language) == lang
  }

  /** At most one language button is highlighted, and a regional code such as
      `ru-RU` highlights the button of its language. */
  lemma LanguageButtonsExclusive(language: string)
    ensures forall i, j :: 0 <= i < j < |Languages| ==>
      !(LanguageButtonActive(language, Languages[i]) && LanguageButtonActive(language, Languages[j]))
    ensures forall i, region :: 0 <= i < |Languages| ==> LanguageButtonActive(Languages[i] + "-" + region, Languages[i])
  {
    forall i, region | 0 <= i < |Languages|
      ensures LanguageButtonActive(Languages[i] + "-" + region, Languages[i])
    {
      LangKeyOfRegional(Languages[i], region);
    }
  }

  /* ---------------------------------------------------------------------
     Fetch lifecycle
     --------------------------------------------------------------------- */

  /** One settled snapshot request: the response list, or a failure carrying
      the localized error text current when it settled. */
  datatype Response = Loaded(data: seq<Coin>) | LoadFailed(message: string)

  /** The view's fetch-related state. */
  datatype ListState = ListState(coins: seq<Coin>, loading: bool, error: Option<string>)

  /** The state on mount: no coins, loading, no error. */
  const Initial := ListState([], true, None)

  /** Apply one settled response. A success replaces the list wholesale and
      leaves `error` as it was; a failure sets `error` and keeps the list.
      Both clear `loading`. */
  function Settle(s: ListState, r: Response): (t: ListState)
    ensures !t.loading
    ensures r.Loaded? ==> t.coins == r.data && t.error == s.error
    ensures r.LoadFailed? ==> t.coins == s.coins && t.error == Some(r.message)
  {
    match r
    case Loaded(data) => s.(coins := data, loading := false)
    case LoadFailed(message) => s.(error := Some(message), loading := false)
  }

  /** Apply settled responses in the order they arrive. */
  function Run(s: ListState, rs: seq<Response>): ListState
    decreases |rs|
  {
    if rs == [] then s else Run(Settle(s, rs[0]), rs[1..])
  }

  /** Response `i` is the last success of `rs`. */
  ghost predicate LastLoadedAt(rs: seq<Response>, i: int)
  {
    0 <= i < |rs| && rs[i].Loaded? && forall j :: i < j < |rs| ==> !rs[j].Loaded?
  }

  /** Response `i` is the last failure of `rs`. */
  ghost predicate LastFailedAt(rs: seq<Response>, i: int)
  {
    0 <= i < |rs| && rs[i].LoadFailed? && forall j :: i < j < |rs| ==> !rs[j].LoadFailed?
  }

  /** `loading` is set only before the first response settles, and never
      again afterwards. */
  lemma {:induction false} RunLoading(s: ListState, rs: seq<Response>)
    ensures Run(s, rs).loading <==> s.loading && rs == []
    decreases |rs|
  {
    if rs != [] {
      RunLoading(Settle(s, rs[0]), rs[1..]);
    }
  }

  /** The displayed list is the data of the last success to arrive,
      whatever the order the requests were sent in; with no success it is
      the list held before. */
  lemma {:induction false} RunCoins(s: ListState, rs: seq<Response>)
    ensures (forall i :: 0 <= i < |rs| ==> !rs[i].Loaded?) ==> Run(s, rs).coins == s.coins
    ensures forall i :: LastLoadedAt(rs, i) ==> Run(s, rs).coins == rs[i].data
    decreases |rs|
  {
    if rs != [] {
      var s' := Settle(s, rs[0]);
      RunCoins(s', rs[1..]);
      forall i | LastLoadedAt(rs, i) ensures Run(s, rs).coins == rs[i].data {
        if i == 0 {
          assert forall j :: 0 <= j < |rs[1..]| ==> !rs[1..][j].Loaded? by {
            forall j | 0 <= j < |rs[1..]| ensures !rs[1..][j].Loaded? {
              assert rs[1..][j] == rs[j + 1];
            }
          }
        } else {
          assert LastLoadedAt(rs[1..], i - 1);
        }
      }
      if forall i :: 0 <= i < |rs| ==> !rs[i].Loaded? {
        assert forall j :: 0 <= j < |rs[1..]| ==> !rs[1..][j].Loaded? by {
          forall j | 0 <= j < |rs[1..]| ensures !rs[1..][j].Loaded? {
            assert rs[1..][j] == rs[j + 1];
          }
        }
      }
    }
  }

  /** `error` holds the message of the last failure to arrive; no success
      clears it, so once set it stays set. */
  lemma {:induction false} RunError(s: ListState, rs: seq<Response>)
    ensures (forall i :: 0 <= i < |rs| ==> !rs[i].LoadFailed?) ==> Run(s, rs).error == s.error
    ensures forall i :: LastFailedAt(rs, i) ==> Run(s, rs).error == Some(rs[i].message)
    decreases |rs|
  {
    if rs != [] {
      var s' := Settle(s, rs[0]);
      RunError(s', rs[1..]);
      forall i | LastFailedAt(rs, i) ensures Run(s, rs).error == Some(rs[i].message) {
        if i == 0 {
          assert forall j :: 0 <= j < |rs[1..]| ==> !rs[1..][j].LoadFailed? by {
            forall j | 0 <= j < |rs[1..]| ensures !rs[1..][j].LoadFailed? {
              assert rs[1..][j] == rs[j + 1];
            }
          }
        } else {
          assert LastFailedAt(rs[1..], i - 1);
        }
      }
      if forall i :: 0 <= i < |rs| ==> !rs[i].LoadFailed? {
        assert forall j :: 0 <= j < |rs[1..]| ==> !rs[1..][j].LoadFailed? by {
          forall j | 0 <= j < |rs[1..]| ensures !rs[1..][j].LoadFailed? {
            assert rs[1..][j] == rs[j + 1];
          }
        }
      }
    }
  }

  /** The table renders only when neither `loading` nor a truthy `error`
      is set. */
  predicate ShowTable(s: ListState)
  {
    !s.loading && !Truthy(s.error)
  }

  /** From mount, the table is shown exactly when some response has settled
      and either no failure has arrived or the last failure's text was empty. */
  lemma TableShownAfterRun(rs: seq<Response>)
    ensures ShowTable(Run(Initial, rs)) <==>
      rs != [] && forall i :: LastFailedAt(rs, i) ==> rs[i].message == ""
  {
    RunLoading(Initial, rs);
    RunError(Initial, rs);
    if rs != [] && (forall i :: 0 <= i < |rs| ==> !rs[i].LoadFailed?) {
      assert forall i :: !LastFailedAt(rs, i);
    }
    if rs != [] && !(forall i :: 0 <= i < |rs| ==> !rs[i].LoadFailed?) {
      LastFailureExists(rs);
    }
  }

  /** A sequence holding a failure has a last one. */
  lemma {:induction false} LastFailureExists(rs: seq<Response>)
    requires exists i :: 0 <= i < |rs| && rs[i].LoadFailed?
    ensures exists i :: LastFailedAt(rs, i)
  {
    var n := |rs| - 1;
    if rs[n].LoadFailed? {
      assert LastFailedAt(rs, n);
    } else {
      var i :| 0 <= i < |rs| && rs[i].LoadFailed?;
      LastFailureExists(rs[..n]);
      var k :| LastFailedAt(rs[..n], k);
      assert LastFailedAt(rs, k);
    }
  }

  /** The mounted list view: its state hooks, updated by settled responses
      and by typing in the search box. */
  class CoinListView {
    var coins: seq<Coin>
    var loading: bool
    var error: Option<string>
    var searchTerm: string

    /** The fetch-related part of the view's state. */
    function State(): ListState
      reads this
    {
      ListState(coins, loading, error)
    }

    constructor ()
      ensures State() == Initial && searchTerm == ""
    {
      coins := [];
      loading := true;
      error := None;
      searchTerm := "";
    }

    /** The success and failure handlers of the snapshot request. The
        handler tests the `loading` value it was created with; whichever
        value that was, `loading` is false afterwards. */
    method OnResponse(r: Response)
      modifies this
      ensures State() == Settle(old(State()), r)
      ensures searchTerm == old(searchTerm)
    {
      match r
      case Loaded(data) =>
        coins := data;
        if loading { loading := false; }
      case LoadFailed(message) =>
        error := Some(message);
        if loading { loading := false; }
    }

    /** The search box's change handler. */
    method OnSearchInput(value: string)
      modifies this
      ensures searchTerm == value && State() == old(State())
    {
      searchTerm := value;
    }

    /** The rows the table renders: the filtered coins when the table is
        shown, none otherwise. */
    function Rows(): (r: seq<Coin>)
      reads this
      ensures !ShowTable(State()) ==> r == []
      ensures ShowTable(State()) ==> r == FilterCoins(coins, searchTerm)
      ensures ShowTable(State()) ==> forall c :: c in r ==> c in coins && Matches(c, searchTerm)
      ensures ShowTable(State()) ==> forall c :: c in coins && Matches(c, searchTerm) ==> c in r
    {
      if ShowTable(State()) then FilterCoins(coins, searchTerm) else []
    }
  }
}
