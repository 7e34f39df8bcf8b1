/**
 * Page navigation of the explorer app: the session state a run starts
 * from, the two navigation actions, the category filter of the query
 * list, and the routing decision of each run.
 */
module AppNav {
  import opened Base

  /** A value held in the session state. */
  datatype Value = Null | Str(s: string) | Int(i: int) | Strs(items: seq<string>)

  /** The truth value Python gives a session value. */
  predicate Truthy(v: Value) {
    match v
    case Null => false
    case Str(s) => s != []
    case Int(i) => i != 0
    case Strs(items) => items != []
  }

  type Session = map<string, Value>

  const DefaultYearStart := 2015
  const DefaultYearEnd := 2024
  const DefaultJurisdictions: seq<string> := ["EP", "US", "CN"]

  /** The session of a first run: every navigation and parameter key at its default. */
  const FreshSession: Session := map[
    "current_page" := Str("landing"),
    "selected_query" := Null,
    "selected_category" := Null,
    "year_start" := Int(DefaultYearStart),
    "year_end" := Int(DefaultYearEnd),
    "jurisdictions" := Strs(DefaultJurisdictions),
    "tech_field" := Null]

  /** `session.get(key)`: the stored value, or `None` for a missing key. */
  function Get(s: Session, key: string): Value {
    if key in s then s[key] else Null
  }

  /** Store `value` under `key` only when the key is missing. */
  function SetDefault(s: Session, key: string, value: Value): Session {
    if key in s then s else s[key := value]
  }

  /** The session after `init_session_state`. */
  function Initialized(s: Session): Session {
    var s1 := SetDefault(s, "current_page", Str("landing"));
    var s2 := SetDefault(s1, "selected_query", Null);
    var s3 := SetDefault(s2, "selected_category", Null);
    var s4 := SetDefault(s3, "year_start", Int(DefaultYearStart));
    var s5 := SetDefault(s4, "year_end", Int(DefaultYearEnd));
    var s6 := SetDefault(s5, "jurisdictions", Strs(DefaultJurisdictions));
    SetDefault(s6, "tech_field", Null)
  }

  /** Keys already present keep their values; the missing keys get their defaults, and nothing else is added. */
  lemma InitFillsOnlyMissing(s: Session, key: string)
    ensures key in Initialized(s) <==> key in s || key in FreshSession
    ensures key in s ==> Initialized(s)[key] == s[key]
    ensures key !in s && key in FreshSession ==> Initialized(s)[key] == FreshSession[key]
  {
    var s1 := SetDefault(s, "current_page", Str("landing"));
    var s2 := SetDefault(s1, "selected_query", Null);
    var s3 := SetDefault(s2, "selected_category", Null);
    var s4 := SetDefault(s3, "year_start", Int(DefaultYearStart));
    var s5 := SetDefault(s4, "year_end", Int(DefaultYearEnd));
    var s6 := SetDefault(s5, "jurisdictions", Strs(DefaultJurisdictions));
    SetDefaultAt(s, "current_page", Str("landing"), key);
    SetDefaultAt(s1, "selected_query", Null, key);
    SetDefaultAt(s2, "selected_category", Null, key);
    SetDefaultAt(s3, "year_start", Int(DefaultYearStart), key);
    SetDefaultAt(s4, "year_end", Int(DefaultYearEnd), key);
    SetDefaultAt(s5, "jurisdictions", Strs(DefaultJurisdictions), key);
    SetDefaultAt(s6, "tech_field", Null, key);
  }

  /** What one `SetDefault` holds under `key`. */
  lemma SetDefaultAt(s: Session, k: string, v: Value, key: string)
    ensures key in SetDefault(s, k, v) <==> key in s || key == k
    ensures key in s ==> SetDefault(s, k, v)[key] == s[key]
    ensures key !in s && key == k ==> SetDefault(s, k, v)[key] == v
  {
  }

  /** A first run starts from the fresh session. */
  lemma InitFromEmpty()
    ensures Initialized(map[]) == FreshSession
  {
    var s := Initialized(map[]);
    forall key | key in s
      ensures key in FreshSession && s[key] == FreshSession[key]
    {
      InitFillsOnlyMissing(map[], key);
    }
    forall key | key in FreshSession
      ensures key in s
    {
      InitFillsOnlyMissing(map[], key);
    }
  }

  /** Initialising twice is initialising once. */
  lemma InitIdempotent(s: Session)
    ensures Initialized(Initialized(s)) == Initialized(s)
  {
    var once := Initialized(s);
    var twice := Initialized(once);
    forall key
      ensures (key in twice <==> key in once) && (key in once ==> twice[key] == once[key])
    {
      InitFillsOnlyMissing(s, key);
      InitFillsOnlyMissing(once, key);
    }
  }

  /** The session after `go_to_landing`: landing page, no query, parameters back to their defaults. */
  function Landing(s: Session): Session {
    s["current_page" := Str("landing")]
     ["selected_query" := Null]
     ["year_start" := Int(DefaultYearStart)]
     ["year_end" := Int(DefaultYearEnd)]
     ["jurisdictions" := Strs(DefaultJurisdictions)]
     ["tech_field" := Null]
  }

  /**
   * Going to the landing page puts every key of a fresh session other than
   * the category back to its fresh value, and leaves the category and any
   * other key as it was.
   */
  lemma LandingResetsAllButCategory(s: Session, key: string)
    ensures key in FreshSession && key != "selected_category" ==> key in Landing(s) && Landing(s)[key] == FreshSession[key]
    ensures key !in FreshSession || key == "selected_category" ==>
      (key in Landing(s) <==> key in s) && (key in s ==> Landing(s)[key] == s[key])
  {
  }

  /** Going to the landing page twice is going once. */
  lemma LandingIdempotent(s: Session)
    ensures Landing(Landing(s)) == Landing(s)
  {
  }

  /** The session after `go_to_detail` with a known query. */
  function Detail(s: Session, queryId: string): Session {
    s["current_page" := Str("detail")]["selected_query" := Str(queryId)]
  }

  /** Opening a query leaves every key other than the page and the query as it was. */
  lemma DetailKeepsOthers(s: Session, queryId: string, key: string)
    requires key != "current_page" && key != "selected_query"
    ensures key in Detail(s, queryId) <==> key in s
    ensures key in s ==> Detail(s, queryId)[key] == s[key]
  {
  }

  // ---------------------------------------------------------------------
  // The query catalogue and its category filter
  // ---------------------------------------------------------------------

  /** What the catalogue holds about one query. */
  datatype QueryInfo = QueryInfo(title: string, category: Option<string>)

  type Catalogue = seq<(string, QueryInfo)>

  /** `QUERIES` is a dictionary: no query id appears twice. */
  predicate UniqueIds(catalogue: Catalogue) {
    forall i, j :: 0 <= i < j < |catalogue| ==> catalogue[i].0 != catalogue[j].0
  }

  /** `query_id in QUERIES` */
  predicate Known(catalogue: Catalogue, queryId: string) {
    exists k :: 0 <= k < |catalogue| && catalogue[k].0 == queryId
  }

  predicate InCategory(item: (string, QueryInfo), category: Option<string>) {
    item.1.category == category
  }

  /**
   * The queries `render_query_list` lists: all of them for a missing or
   * empty filter, else those of the filter's category, in catalogue order.
   */
  function QueryList(catalogue: Catalogue, categoryFilter: Option<string>): (r: Catalogue)
    ensures categoryFilter.None? || categoryFilter.value == [] ==> r == catalogue
    ensures categoryFilter.Some? && categoryFilter.value != [] ==>
      && (forall k :: 0 <= k < |r| ==> r[k] in catalogue && r[k].1.category == categoryFilter)
      && (forall k :: 0 <= k < |catalogue| && catalogue[k].1.category == categoryFilter ==> catalogue[k] in r)
  {
    if categoryFilter.None? || categoryFilter.value == [] then catalogue
    else Filter(catalogue, item => InCategory(item, categoryFilter))
  }

  /** Listing keeps catalogue order: the list of two catalogue parts is the two lists one after the other. */
  lemma QueryListInOrder(front: Catalogue, back: Catalogue, categoryFilter: Option<string>)
    ensures QueryList(front + back, categoryFilter) == QueryList(front, categoryFilter) + QueryList(back, categoryFilter)
  {
    if categoryFilter.Some? && categoryFilter.value != [] {
      FilterAppend(front, back, item => InCategory(item, categoryFilter));
    }
  }

  /** A filtered list names each query at most once, as the catalogue does. */
  lemma {:induction false} QueryListUnique(catalogue: Catalogue, categoryFilter: Option<string>)
    requires UniqueIds(catalogue)
    ensures UniqueIds(QueryList(catalogue, categoryFilter))
  {
    if categoryFilter.Some? && categoryFilter.value != [] {
      FilterKeepsUniqueIds(catalogue, item => InCategory(item, categoryFilter));
    }
  }

  lemma {:induction false} FilterKeepsUniqueIds(catalogue: Catalogue, p: ((string, QueryInfo)) -> bool)
    requires UniqueIds(catalogue)
    ensures UniqueIds(Filter(catalogue, p))
    decreases |catalogue|
  {
    if catalogue != [] {
      var rest := catalogue[1..];
      assert UniqueIds(rest) by {
        forall i, j | 0 <= i < j < |rest| ensures rest[i].0 != rest[j].0 {
          assert rest[i] == catalogue[i + 1] && rest[j] == catalogue[j + 1];
        }
      }
      FilterKeepsUniqueIds(rest, p);
      var kept := Filter(rest, p);
      forall k | 0 <= k < |kept| ensures kept[k].0 != catalogue[0].0 {
        var m :| 0 <= m < |rest| && rest[m] == kept[k];
        assert rest[m] == catalogue[m + 1];
      }
      var head: Catalogue := if p(catalogue[0]) then [catalogue[0]] else [];
      assert Filter(catalogue, p) == head + kept;
    }
  }

  // ---------------------------------------------------------------------
  // Routing
  // ---------------------------------------------------------------------

  /** The page a run renders. */
  datatype Page = LandingPage | DetailPage(queryId: Value)

  /**
   * The routing decision of `main` and the session it leaves: the detail
   * page needs a selected query, and without one the run falls back to the
   * landing page and records that.
   */
  function Route(s: Session): (r: (Page, Session))
    ensures r.0.LandingPage? ==> Get(r.1, "current_page") != Str("detail")
    ensures r.0.DetailPage? ==> Truthy(r.0.queryId) && r.1 == s
  {
    if Get(s, "current_page") == Str("detail") then
      var queryId := Get(s, "selected_query");
      if Truthy(queryId) then (DetailPage(queryId), s)
      else (LandingPage, s["current_page" := Str("landing")])
    else (LandingPage, s)
  }

  /** The detail page is shown only for a selected query, and the session then says so. */
  lemma RouteDetailNeedsQuery(s: Session)
    requires Route(s).0.DetailPage?
    ensures Truthy(Route(s).0.queryId)
    ensures Route(s).1 == s && Get(s, "current_page") == Str("detail") && Get(s, "selected_query") == Route(s).0.queryId
  {
  }

  /** A detail state without a selected query is repaired to the landing page. */
  lemma RouteRepairsDetail(s: Session)
    requires Get(s, "current_page") == Str("detail") && !Truthy(Get(s, "selected_query"))
    ensures Route(s).0 == LandingPage
    ensures Get(Route(s).1, "current_page") == Str("landing")
    ensures forall key :: key != "current_page" ==> (key in Route(s).1 <==> key in s)
  {
  }

  /** The next run routes the same way: routing is stable. */
  lemma RouteStable(s: Session)
    ensures Route(Route(s).1) == Route(s)
  {
  }

  /** After `go_to_detail` with a known, non-empty id, the rerun shows that query. */
  lemma DetailThenRoute(s: Session, queryId: string)
    requires queryId != []
    ensures Route(Initialized(Detail(s, queryId))) == (DetailPage(Str(queryId)), Initialized(Detail(s, queryId)))
  {
    InitFillsOnlyMissing(Detail(s, queryId), "current_page");
    InitFillsOnlyMissing(Detail(s, queryId), "selected_query");
  }

  /** After `go_to_landing`, the rerun shows the landing page and leaves the session alone. */
  lemma LandingThenRoute(s: Session)
    ensures Route(Initialized(Landing(s))) == (LandingPage, Initialized(Landing(s)))
  {
    InitFillsOnlyMissing(Landing(s), "current_page");
  }

  // ---------------------------------------------------------------------
  // The app
  // ---------------------------------------------------------------------

  /** One browser session of the app: its session state and the catalogue it serves. */
  class App {
    var session: Session
    /** How many times a navigation action asked Streamlit to rerun the script. */
    ghost var reruns: nat
    const catalogue: Catalogue

    /** A session as Streamlit hands it to a run, serving `catalogue`. */
    constructor(catalogue: Catalogue, session: Session)
      requires UniqueIds(catalogue)
      ensures this.catalogue == catalogue && this.session == session && reruns == 0
    {
      this.catalogue := catalogue;
      this.session := session;
      reruns := 0;
    }

    /** `init_session_state`: give each missing key its default. */
    method InitSessionState()
      modifies this
      ensures session == Initialized(old(session)) && reruns == old(reruns)
    {
      SetDefaultKey("current_page", Str("landing"));
      SetDefaultKey("selected_query", Null);
      SetDefaultKey("selected_category", Null);
      SetDefaultKey("year_start", Int(DefaultYearStart));
      SetDefaultKey("year_end", Int(DefaultYearEnd));
      SetDefaultKey("jurisdictions", Strs(DefaultJurisdictions));
      SetDefaultKey("tech_field", Null);
    }

    /** One `if key not in st.session_state` step of `init_session_state`. */
    method SetDefaultKey(key: string, value: Value)
      modifies this
      ensures session == SetDefault(old(session), key, value) && reruns == old(reruns)
    {
      if key !in session {
        session := session[key := value];
      }
    }

    /** `go_to_landing`: back to the list, parameters reset, category kept, one rerun. */
    method GoToLanding()
      modifies this
      ensures session == Landing(old(session)) && reruns == old(reruns) + 1
    {
      session := session["current_page" := Str("landing")];
      session := session["selected_query" := Null];
      session := session["year_start" := Int(DefaultYearStart)];
      session := session["year_end" := Int(DefaultYearEnd)];
      session := session["jurisdictions" := Strs(DefaultJurisdictions)];
      session := session["tech_field" := Null];
      reruns := reruns + 1;
    }

    /** `go_to_detail`: an unknown id changes nothing; a known one opens it with one rerun. */
    method GoToDetail(queryId: string)
      modifies this
      ensures !Known(catalogue, queryId) ==> session == old(session) && reruns == old(reruns)
      ensures Known(catalogue, queryId) ==> session == Detail(old(session), queryId) && reruns == old(reruns) + 1
    {
      if !Known(catalogue, queryId) {
        return;
      }
      session := session["current_page" := Str("detail")];
      session := session["selected_query" := Str(queryId)];
      reruns := reruns + 1;
    }

    /**
     * One run of `main`: initialise the session, stop without a warehouse client, and
     * otherwise route by the current page.
     */
    method Run(clientAvailable: bool) returns (page: Option<Page>)
      modifies this
      ensures !clientAvailable ==> page == None && session == Initialized(old(session))
      ensures clientAvailable ==>
        page == Some(Route(Initialized(old(session))).0) && session == Route(Initialized(old(session))).1
      ensures reruns == old(reruns)
    {
      InitSessionState();
      if !clientAvailable {
        return None;
      }
      if Get(session, "current_page") == Str("detail") {
        var queryId := Get(session, "selected_query");
        if Truthy(queryId) {
          page := Some(DetailPage(queryId));
        } else {
          session := session["current_page" := Str("landing")];
          page := Some(LandingPage);
        }
      } else {
        page := Some(LandingPage);
      }
    }
  }
}
