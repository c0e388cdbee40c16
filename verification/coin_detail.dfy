/** The detail view (`CoinDetailPage`): the periodic fetch of one coin's
    metadata, the shallow merge of each response into the held coin, the
    render-branch priority and the localized, truncated description. */
module CoinDetail {
  import opened Common
  import opened Text

  /** A JSON value of the provider's coin-detail response. */
  datatype Value =
    | Null
    | Bool(b: bool)
    | Str(str: string)
    | Num(num: real)
    | Arr(items: seq<Value>)
    | Obj(fields: map<string, Value>)

  /** A JSON object: the held coin, or one response body. */
  type Record = map<string, Value>

  /** One settled detail request: the response body, or a failure carrying
      the localized error text current when it settled. */
  datatype Response = Loaded(data: Record) | LoadFailed(message: string)

  /** The view's fetch-related state. */
  datatype DetailState = DetailState(coin: Option<Record>, loading: bool, error: Option<string>)

  /** The state on mount: no coin, loading, no error. */
  const Initial := DetailState(None, true, None)

  /** The route parameter is usable (`!coinId` is false): present and
      non-empty. */
  predicate HasCoinId(coinId: Option<string>)
  {
    coinId.Some? && coinId.value != ""
  }

  /** The fields of a possibly-null object; spreading `null` adds none. */
  function Fields(c: Option<Record>): Record
  {
    if c.Some? then c.value else map[]
  }

  /** `{ ...prev, ...data }`: every key of either object, the response's
      value winning where both have one. */
  function Merge(prev: Option<Record>, data: Record): (r: Record)
    ensures r.Keys == Fields(prev).Keys + data.Keys
    ensures forall k :: k in data ==> r[k] == data[k]
    ensures forall k :: k in Fields(prev) && k !in data ==> r[k] == Fields(prev)[k]
  {
    Fields(prev) + data
  }

  /** Apply one settled response. A success merges the body into the held
      coin and leaves `error` as it was; a failure sets `error` and keeps
      the coin. Both clear `loading`. */
  function Settle(s: DetailState, r: Response): (t: DetailState)
    ensures !t.loading
    ensures r.Loaded? ==> t.coin == Some(Merge(s.coin, r.data)) && t.error == s.error
    ensures r.LoadFailed? ==> t.coin == s.coin && t.error == Some(r.message)
  {
    match r
    case Loaded(data) => s.(coin := Some(Merge(s.coin, data)), loading := false)
    case LoadFailed(message) => s.(error := Some(message), loading := false)
  }

  /** One fetch of the effect and its settlement. Without a coin id the
      effect returns before requesting anything, so nothing changes. */
  function Step(coinId: Option<string>, s: DetailState, r: Response): DetailState
  {
    if HasCoinId(coinId) then Settle(s, r) else s
  }

  /** Apply the fetches' responses in the order they settle. */
  function Run(coinId: Option<string>, s: DetailState, rs: seq<Response>): DetailState
    decreases |rs|
  {
    if rs == [] then s else Run(coinId, Step(coinId, s, rs[0]), rs[1..])
  }

  /** Without a coin id no response ever changes the state. */
  lemma {:induction false} RunWithoutCoinId(coinId: Option<string>, s: DetailState, rs: seq<Response>)
    requires !HasCoinId(coinId)
    ensures Run(coinId, s, rs) == s
    decreases |rs|
  {
    if rs != [] {
      RunWithoutCoinId(coinId, s, rs[1..]);
    }
  }

  /** With a coin id, `loading` is set only before the first response
      settles, and never again afterwards. */
  lemma {:induction false} RunLoading(coinId: Option<string>, s: DetailState, rs: seq<Response>)
    requires HasCoinId(coinId)
    ensures Run(coinId, s, rs).loading <==> s.loading && rs == []
    decreases |rs|
  {
    if rs != [] {
      RunLoading(coinId, Settle(s, rs[0]), rs[1..]);
    }
  }

  /** Response `i` is the last success whose body has key `k`. */
  ghost predicate LastSetsKeyAt(rs: seq<Response>, k: string, i: int)
  {
    0 <= i < |rs| && rs[i].Loaded? && k in rs[i].data
    && forall j :: i < j < |rs| ==> !(rs[j].Loaded? && k in rs[j].data)
  }

  /** No success of `rs` has key `k` in its body. */
  ghost predicate NeverSetsKey(rs: seq<Response>, k: string)
  {
    forall i :: 0 <= i < |rs| ==> !(rs[i].Loaded? && k in rs[i].data)
  }

  /** After the merges, each key of the held coin carries the value of the
      last success that had it; a key no success had keeps the value it had
      before, and no key is ever dropped. */
  lemma {:induction false} RunCoinFields(coinId: Option<string>, s: DetailState, rs: seq<Response>)
    requires HasCoinId(coinId)
    ensures forall k, i :: LastSetsKeyAt(rs, k, i) ==>
      k in Fields(Run(coinId, s, rs).coin) && Fields(Run(coinId, s, rs).coin)[k] == rs[i].data[k]
    ensures forall k :: NeverSetsKey(rs, k) ==>
      (k in Fields(Run(coinId, s, rs).coin) <==> k in Fields(s.coin))
      && (k in Fields(s.coin) ==> Fields(Run(coinId, s, rs).coin)[k] == Fields(s.coin)[k])
    decreases |rs|
  {
    if rs != [] {
      var s' := Settle(s, rs[0]);
      RunCoinFields(coinId, s', rs[1..]);
      var c := Fields(Run(coinId, s, rs).coin);
      assert Run(coinId, s, rs) == Run(coinId, s', rs[1..]);
      forall k, i | LastSetsKeyAt(rs, k, i) ensures k in c && c[k] == rs[i].data[k] {
        if i == 0 {
          assert NeverSetsKey(rs[1..], k) by {
            forall j | 0 <= j < |rs[1..]| ensures !(rs[1..][j].Loaded? && k in rs[1..][j].data) {
              assert rs[1..][j] == rs[j + 1];
            }
          }
        } else {
          assert LastSetsKeyAt(rs[1..], k, i - 1);
        }
      }
      forall k | NeverSetsKey(rs, k)
        ensures (k in c <==> k in Fields(s.coin)) && (k in Fields(s.coin) ==> c[k] == Fields(s.coin)[k])
      {
        assert NeverSetsKey(rs[1..], k) by {
          forall j | 0 <= j < |rs[1..]| ensures !(rs[1..][j].Loaded? && k in rs[1..][j].data) {
            assert rs[1..][j] == rs[j + 1];
          }
        }
        assert !(rs[0].Loaded? && k in rs[0].data);
      }
    }
  }

  /** Once a coin is held it is never reset to null. */
  lemma {:induction false} RunKeepsCoin(coinId: Option<string>, s: DetailState, rs: seq<Response>)
    requires s.coin.Some? || (HasCoinId(coinId) && exists i :: 0 <= i < |rs| && rs[i].Loaded?)
    ensures Run(coinId, s, rs).coin.Some?
    decreases |rs|
  {
    if rs != [] {
      var s' := Step(coinId, s, rs[0]);
      if s'.coin.None? {
        var i :| 0 <= i < |rs| && rs[i].Loaded?;
        assert i != 0;
        assert rs[1..][i - 1].Loaded?;
      }
      RunKeepsCoin(coinId, s', rs[1..]);
    }
  }

  /* ---------------------------------------------------------------------
     Rendering
     --------------------------------------------------------------------- */

  /** The branch the page renders. */
  datatype View = LoadingView | ErrorView(message: string) | NotFoundView | DetailsView(coin: Record)

  /** Render priority: loading, then a truthy error, then a missing coin,
      then the details. */
  function Render(s: DetailState): (v: View)
    ensures v.LoadingView? <==> s.loading
    ensures v.ErrorView? <==> !s.loading && Truthy(s.error)
    ensures v.NotFoundView? <==> !s.loading && !Truthy(s.error) && s.coin.None?
    ensures v.DetailsView? <==> !s.loading && !Truthy(s.error) && s.coin.Some?
    ensures v.ErrorView? ==> Some(v.message) == s.error
    ensures v.DetailsView? ==> Some(v.coin) == s.coin
  {
    if s.loading then LoadingView
    else if Truthy(s.error) then ErrorView(s.error.value)
    else if s.coin.None? then NotFoundView
    else DetailsView(s.coin.value)
  }

  /** Without a coin id the page shows the loading branch forever. */
  lemma NoCoinIdLoadsForever(coinId: Option<string>, rs: seq<Response>)
    requires !HasCoinId(coinId)
    ensures Render(Run(coinId, Initial, rs)) == LoadingView
  {
    RunWithoutCoinId(coinId, Initial, rs);
  }

  /** Responses that never fail: from mount, the page shows the details as
      soon as one success has settled. */
  lemma {:induction false} DetailsAfterSuccesses(coinId: Option<string>, rs: seq<Response>)
    requires HasCoinId(coinId)
    requires exists i :: 0 <= i < |rs| && rs[i].Loaded?
    requires forall i :: 0 <= i < |rs| ==> rs[i].Loaded?
    ensures Render(Run(coinId, Initial, rs)).DetailsView?
  {
    RunLoading(coinId, Initial, rs);
    RunKeepsCoin(coinId, Initial, rs);
    RunNoFailureKeepsError(coinId, Initial, rs);
  }

  /** Without failures the error stays as it was. */
  lemma {:induction false} RunNoFailureKeepsError(coinId: Option<string>, s: DetailState, rs: seq<Response>)
    requires forall i :: 0 <= i < |rs| ==> rs[i].Loaded?
    ensures Run(coinId, s, rs).error == s.error
    decreases |rs|
  {
    if rs != [] {
      assert forall i :: 0 <= i < |rs[1..]| ==> rs[1..][i] == rs[i + 1];
      RunNoFailureKeepsError(coinId, Step(coinId, s, rs[0]), rs[1..]);
    }
  }

  /* ---------------------------------------------------------------------
     Description
     --------------------------------------------------------------------- */

  /** The string entries of the coin's `description` object; `None` when
      the field is missing or null (reading a language from it throws). A
      description of any other kind has no entries. */
  function DescriptionEntries(c: Record): Option<map<string, string>>
  {
    if "description" !in c then None
    else match c["description"]
      case Null => None
      case Obj(f) => Some(map k | k in f && f[k].Str? :: f[k].str)
      case _ => Some(map[])
  }

  /** `description[lang] || description.en` for the language key of the UI
      language code: the entry for that key when present and non-empty,
      otherwise the English entry; with neither, the value `undefined`,
      which the HTML parser receives as the text "undefined". */
  function DescriptionSource(entries: map<string, string>, language: string): (r: string)
    ensures LangKey(language) in entries && entries[LangKey(language)] != "" ==> r == entries[LangKey(language)]
    ensures !(LangKey(language) in entries && entries[LangKey(language)] != "") ==>
      r == if "en" in entries then entries["en"] else "undefined"
  {
    var lang := LangKey(language);
    if lang in entries && entries[lang] != "" then entries[lang]
    else if "en" in entries then entries["en"]
    else "undefined"
  }

  /** A regional UI language code (`ru-RU`) picks the same description as
      its bare language code (`ru`). */
  lemma DescriptionIgnoresRegion(entries: map<string, string>, lang: string, region: string)
    requires '-' !in lang
    ensures DescriptionSource(entries, lang + "-" + region) == DescriptionSource(entries, lang)
  {
    LangKeyOfRegional(lang, region);
  }

  /** The outcome of `getLocalizedDescription`. */
  datatype Description = Described(text: string) | Throws

  /** `getLocalizedDescription`: the empty string without a coin; otherwise
      the chosen entry with its markup stripped by `strip` (the browser's
      HTML parser, taken as given). */
  function LocalizedDescription(coin: Option<Record>, language: string, strip: string -> string): (d: Description)
    ensures coin.None? ==> d == Described("")
    ensures coin.Some? && DescriptionEntries(coin.value).None? ==> d == Throws
    ensures coin.Some? && DescriptionEntries(coin.value).Some? ==>
      d == Described(strip(DescriptionSource(DescriptionEntries(coin.value).value, language)))
  {
    match coin
    case None => Described("")
    case Some(c) =>
      match DescriptionEntries(c)
      case None => Throws
      case Some(entries) => Described(strip(DescriptionSource(entries, language)))
  }

  /** The longest description shown before it is cut. */
  const MaxDescription := 500

  /** `text.substring(0, 500) + (text.length > 500 ? '...' : '')`. */
  function Truncate(text: string): (r: string)
    ensures |text| <= MaxDescription ==> r == text
    ensures |text| > MaxDescription ==> r == text[..MaxDescription] + "..."
  {
    text[..if |text| < MaxDescription then |text| else MaxDescription]
      + (if |text| > MaxDescription then "..." else "")
  }

  /** The shown text is at most 503 characters long and starts with the
      first characters of the description, as many as fit. */
  lemma TruncateBounds(text: string)
    ensures |Truncate(text)| <= MaxDescription + 3
    ensures |text| <= MaxDescription ==> |Truncate(text)| == |text|
    ensures |text| > MaxDescription ==> |Truncate(text)| == MaxDescription + 3
    ensures text[..if |text| < MaxDescription then |text| else MaxDescription] <= Truncate(text)
  {
  }

  /** Truncating an already truncated text changes nothing. */
  lemma TruncateIdempotent(text: string)
    ensures Truncate(Truncate(text)) == Truncate(text)
  {
  }

  /** The "about" paragraph of the details branch. */
  function AboutText(coin: Option<Record>, language: string, strip: string -> string): (d: Description)
    ensures d.Throws? <==> LocalizedDescription(coin, language, strip).Throws?
    ensures d.Described? ==> d.text == Truncate(LocalizedDescription(coin, language, strip).text)
  {
    match LocalizedDescription(coin, language, strip)
    case Throws => Throws
    case Described(t) => Described(Truncate(t))
  }

  /** The mounted detail view: its route parameter and state hooks. */
  class CoinDetailView {
    const coinId: Option<string>
    var coin: Option<Record>
    var loading: bool
    var error: Option<string>

    /** The fetch-related part of the view's state. */
    function State(): DetailState
      reads this
    {
      DetailState(coin, loading, error)
    }

    constructor (coinId: Option<string>)
      ensures this.coinId == coinId && State() == Initial
    {
      this.coinId := coinId;
      coin := None;
      loading := true;
      error := None;
    }

    /** One run of `fetchData` and its settlement: nothing without a coin
        id; otherwise the success handler merges the body into the previous
        coin and the failure handler sets the error, both clearing
        `loading`. */
    method OnFetch(r: Response)
      modifies this
      ensures State() == Step(coinId, old(State()), r)
    {
      if !HasCoinId(coinId) {
        return;
      }
      match r
      case Loaded(data) =>
        coin := Some(Merge(coin, data));
        if loading { loading := false; }
      case LoadFailed(message) =>
        error := Some(message);
        if loading { loading := false; }
    }
  }
}
