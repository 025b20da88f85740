/**
 * The process-wide state of the application (the globals DAYS and
 * DAY_LIST) and the handlers that act on it: `load_data` (also run at
 * import time and by `admin_reload`), the form and API searches, and the
 * page and API leaderboards. Request parsing and rendering are left to the
 * caller: a handler receives the already-extracted request value and
 * returns the data that would be rendered or serialised.
 */
module App {
  import opened Wrappers
  import opened Text
  import opened Dicts
  import opened Records
  import opened Sorting
  import opened Loading
  import opened Queries

  class Cache {
    /** DAYS: day number to that day's normalised records. */
    var days: map<nat, DayData>
    /** DAY_LIST: one day number per file that contributed, sorted. */
    var dayList: seq<nat>

    /** The module-level `load_data()` that runs when the application starts. */
    constructor (entries: seq<Entry>)
      ensures Index(days, dayList) == Loaded(entries)
    {
      days := map[];
      dayList := [];
      new;
      LoadData(entries);
    }

    /**
     * `load_data`: throws the old index away and rebuilds it from the
     * directory listing `entries`, so the result depends on `entries` only.
     */
    method LoadData(entries: seq<Entry>)
      modifies this
      ensures Index(days, dayList) == Loaded(entries)
      ensures SortedBy(dayList, NatKey)
      ensures forall d :: d in dayList <==> d in days
    {
      days := map[];
      dayList := [];
      var i := 0;
      while i < |entries|
        invariant 0 <= i <= |entries|
        invariant Index(days, dayList) == Scan(entries[..i])
      {
        var e := entries[i];
        if EndsWith(Lower(e.name), ".json") && e.name != "index.json" {
          match e.parsed {
            case None =>
              // reading or decoding failed: the file is logged and skipped
            case Some(data) =>
              var m := FirstDigitRun(e.name);
              if m.Some? {
                var day := m.value;
                var normalized := Normalise(data);
                days := days[day := normalized];
                dayList := dayList + [day];
              }
          }
        }
        assert entries[..i + 1][..i] == entries[..i];
        i := i + 1;
      }
      assert entries[..i] == entries;
      dayList := SortAscending(dayList);
    }

    /** `admin_reload`: reloads and reports the new DAY_LIST. */
    method Reload(entries: seq<Entry>) returns (status: string, reloaded: seq<nat>)
      modifies this
      ensures Index(days, dayList) == Loaded(entries)
      ensures status == "reloaded" && reloaded == dayList
    {
      LoadData(entries);
      status := "reloaded";
      reloaded := dayList;
    }

    /**
     * The loop both search handlers run over DAY_LIST: each day whose map
     * holds `key` contributes a copy of its record with `day` added when
     * absent, and also `username` in the form variant (`name` given).
     */
    method CollectMatches(key: string, name: Option<string>) returns (found: seq<Record>)
      ensures found == SearchResults(days, dayList, key, name)
    {
      found := [];
      var i := 0;
      while i < |dayList|
        invariant 0 <= i <= |dayList|
        invariant found == SearchResults(days, dayList[..i], key, name)
      {
        var day := dayList[i];
        var dayData := DayRecords(days, day);
        if HasKey(dayData, key) {
          var rec := Get(dayData, key).value;
          rec := SetDefault(rec, "day", Int(day));
          if name.Some? {
            rec := SetDefault(rec, "username", Str(name.value));
          }
          found := found + [rec];
        }
        SearchResultsStep(days, dayList, i, key, name);
        i := i + 1;
      }
      assert dayList[..i] == dayList;
    }

    /**
     * `search` on POST, given the submitted `username` field ("" when the
     * field is missing). A blank name redirects home without a lookup;
     * otherwise every DAY_LIST day whose map holds the lower-cased name
     * contributes a copy of that record with `day` and `username` added
     * when absent.
     */
    method Search(field: string) returns (page: SearchPage)
      ensures page.RedirectHome? <==> AllSpace(field)
      ensures page.ResultsPage? ==>
                page.username == Strip(field) && page.days == dayList &&
                page.results == SearchResults(days, dayList, Lower(Strip(field)), Some(Strip(field)))
    {
      var username := Strip(field);
      if username == [] {
        return RedirectHome;
      }
      var found := CollectMatches(Lower(username), Some(username));
      page := ResultsPage(username, found, dayList);
    }

    /**
     * `api_search`, given the `q` argument ("" when missing): 400 for a
     * blank query, otherwise the lower-cased name and the found records
     * with `day` added when absent.
     */
    method ApiSearch(q: string) returns (reply: ApiSearchReply)
      ensures reply.SearchError? <==> AllSpace(q)
      ensures reply.SearchError? ==> reply == SearchError(400, MissingQueryError)
      ensures reply.SearchReply? ==>
                reply == SearchReply(Lower(Strip(q)), SearchResults(days, dayList, Lower(Strip(q)), None))
    {
      var username := Lower(Strip(q));
      if username == [] {
        return SearchError(400, MissingQueryError);
      }
      var found := CollectMatches(username, None);
      reply := SearchReply(username, found);
    }

    /**
     * `leaderboard`: the "No data for that day." page when the day is
     * missing or empty; otherwise one row per record, stably sorted by rank
     * with absent ranks last.
     */
    method Leaderboard(day: nat) returns (page: LeaderboardPage)
      ensures page.day == day && page.days == dayList
      ensures page.message.Some? <==> NoDataFor(days, day)
      ensures page.message.Some? ==> page.message == Some(NoDataMessage) && page.rows == []
      ensures page.message.None? ==>
                && page.rows == StableSort(PageRows(days[day]), PageRowKey)
                && SortedBy(page.rows, PageRowKey)
                && multiset(page.rows) == multiset(PageRows(days[day]))
                && forall k :: WithKey(page.rows, PageRowKey, k) == WithKey(PageRows(days[day]), PageRowKey, k)
    {
      if NoDataFor(days, day) {
        return LeaderboardPage(day, [], dayList, Some(NoDataMessage));
      }
      var dayData := days[day];
      var rows: seq<PageRow> := [];
      var i := 0;
      while i < |dayData|
        invariant 0 <= i <= |dayData|
        invariant rows == PageRows(dayData[..i])
      {
        var (unameLower, rec) := dayData[i];
        rows := rows + [ToPageRow(unameLower, rec)];
        assert dayData[..i + 1][..i] == dayData[..i];
        i := i + 1;
      }
      assert dayData[..i] == dayData;
      var rowsSorted := StableSort(rows, PageRowKey);
      page := LeaderboardPage(day, rowsSorted, dayList, None);
    }

    /**
     * `api_leaderboard`: 404 when the day is missing or empty; otherwise
     * the day and its rows (user name, rank, power), stably sorted by rank.
     */
    method ApiLeaderboard(day: nat) returns (reply: ApiLeaderboardReply)
      ensures reply.LeaderboardError? <==> NoDataFor(days, day)
      ensures reply.LeaderboardError? ==> reply == LeaderboardError(404, NoDataError)
      ensures reply.LeaderboardReply? ==>
                && reply.day == day
                && reply.rows == StableSort(ApiRows(days[day]), ApiRowKey)
                && SortedBy(reply.rows, ApiRowKey)
                && multiset(reply.rows) == multiset(ApiRows(days[day]))
                && forall k :: WithKey(reply.rows, ApiRowKey, k) == WithKey(ApiRows(days[day]), ApiRowKey, k)
    {
      if NoDataFor(days, day) {
        return LeaderboardError(404, NoDataError);
      }
      var dayData := days[day];
      var rows: seq<ApiRow> := [];
      var i := 0;
      while i < |dayData|
        invariant 0 <= i <= |dayData|
        invariant rows == ApiRows(dayData[..i])
      {
        var (unameLower, rec) := dayData[i];
        rows := rows + [ToApiRow(unameLower, rec)];
        assert dayData[..i + 1][..i] == dayData[..i];
        i := i + 1;
      }
      assert dayData[..i] == dayData;
      reply := LeaderboardReply(day, StableSort(rows, ApiRowKey));
    }
  }

  /**
   * Calling `load_data` twice on the same directory listing leaves the same
   * index both times, whatever the index held before.
   */
  method ReloadTwice(c: Cache, entries: seq<Entry>) returns (first: Index, second: Index)
    modifies c
    ensures first == second == Loaded(entries)
  {
    c.LoadData(entries);
    first := Index(c.days, c.dayList);
    c.LoadData(entries);
    second := Index(c.days, c.dayList);
  }
}
