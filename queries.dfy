/**
 * The query logic of the request handlers, as functions of the index:
 * the search across days (`search` POST and `api_search`) and the
 * per-day leaderboard (`leaderboard` and `api_leaderboard`), with the
 * replies each handler produces.
 */
module Queries {
  import opened Wrappers
  import opened Text
  import opened Dicts
  import opened Records
  import opened Sorting

  /** `DAYS.get(day, {})`. */
  function DayRecords(days: map<nat, DayData>, day: nat): DayData {
    if day in days then days[day] else []
  }

  /**
   * The copy of a stored record that a search returns: `day` is added
   * unless the record has one, and in the form variant (`name` given)
   * `username` is added unless the record has one.
   */
  function Annotate(rec: Record, day: nat, name: Option<string>): (r: Record)
    ensures Get(r, "day") == if HasKey(rec, "day") then Get(rec, "day") else Some(Int(day))
    ensures name.Some? ==>
              Get(r, "username") == if HasKey(rec, "username") then Get(rec, "username") else Some(Str(name.value))
    ensures forall k :: k != "day" && (name.None? || k != "username") ==> Get(r, k) == Get(rec, k)
    ensures DistinctKeys(rec) ==> DistinctKeys(r)
  {
    var withDay := SetDefault(rec, "day", Int(day));
    match name
    case Some(n) => SetDefault(withDay, "username", Str(n))
    case None => withDay
  }

  /** Whether the search for `key` finds something on day `d`. */
  predicate Holds(days: map<nat, DayData>, key: string, d: nat) {
    HasKey(DayRecords(days, d), key)
  }

  /** The days of `dayList`, in order, whose map holds `key` (repeats included). */
  function Hits(days: map<nat, DayData>, dayList: seq<nat>, key: string): seq<nat> {
    if dayList == [] then []
    else
      var d := dayList[|dayList| - 1];
      Hits(days, dayList[..|dayList| - 1], key) + if Holds(days, key, d) then [d] else []
  }

  /** The `found` list of the search loop after it has walked `dayList`. */
  function SearchResults(days: map<nat, DayData>, dayList: seq<nat>, key: string, name: Option<string>): seq<Record> {
    if dayList == [] then []
    else
      var d := dayList[|dayList| - 1];
      var dd := DayRecords(days, d);
      SearchResults(days, dayList[..|dayList| - 1], key, name)
        + if HasKey(dd, key) then [Annotate(Get(dd, key).value, d, name)] else []
  }

  /** One more step of the search loop, over the day at position `i`. */
  lemma SearchResultsStep(days: map<nat, DayData>, dayList: seq<nat>, i: nat, key: string, name: Option<string>)
    requires i < |dayList|
    ensures SearchResults(days, dayList[..i + 1], key, name) ==
            SearchResults(days, dayList[..i], key, name) +
            if Holds(days, key, dayList[i]) then [Annotate(Get(DayRecords(days, dayList[i]), key).value, dayList[i], name)] else []
  {
    assert dayList[..i + 1][..i] == dayList[..i];
  }

  /**
   * The results follow DAY_LIST: the i-th result is the annotated copy of
   * the record stored under `key` for the i-th day of DAY_LIST whose map
   * holds `key`.
   */
  lemma {:induction false} SearchFollowsDayList(days: map<nat, DayData>, dayList: seq<nat>, key: string, name: Option<string>)
    ensures |SearchResults(days, dayList, key, name)| == |Hits(days, dayList, key)|
    ensures forall i :: 0 <= i < |Hits(days, dayList, key)| ==>
              var d := Hits(days, dayList, key)[i];
              Holds(days, key, d) &&
              SearchResults(days, dayList, key, name)[i] == Annotate(Get(DayRecords(days, d), key).value, d, name)
  {
    if dayList != [] {
      SearchFollowsDayList(days, dayList[..|dayList| - 1], key, name);
    }
  }

  /**
   * Each day occurs among the hits as often as in DAY_LIST when its map
   * holds `key`, and not at all otherwise.
   */
  lemma {:induction false} HitsCount(days: map<nat, DayData>, dayList: seq<nat>, key: string, d: nat)
    ensures multiset(Hits(days, dayList, key))[d] == if Holds(days, key, d) then multiset(dayList)[d] else 0
  {
    if dayList != [] {
      var p, last := dayList[..|dayList| - 1], dayList[|dayList| - 1];
      HitsCount(days, p, key, d);
      var x := if Holds(days, key, last) then [last] else [];
      assert Hits(days, dayList, key) == Hits(days, p, key) + x;
      assert multiset(Hits(days, dayList, key)) == multiset(Hits(days, p, key)) + multiset(x);
      assert dayList == p + [last];
      assert multiset(dayList) == multiset(p) + multiset{last};
    }
  }

  /** Over a sorted DAY_LIST the results come in ascending day order. */
  lemma {:induction false} HitsSorted(days: map<nat, DayData>, dayList: seq<nat>, key: string)
    requires SortedBy(dayList, NatKey)
    ensures SortedBy(Hits(days, dayList, key), NatKey)
  {
    if dayList != [] {
      var p, last := dayList[..|dayList| - 1], dayList[|dayList| - 1];
      assert SortedBy(p, NatKey);
      HitsSorted(days, p, key);
      var h := Hits(days, p, key);
      forall x | x in h ensures x <= last {
        HitsCount(days, p, key, x);
        assert x in multiset(p);
        var i :| 0 <= i < |p| && p[i] == x;
        assert NatKey(dayList[i]) <= NatKey(dayList[|dayList| - 1]);
      }
      SortedSnoc(h, last);
    }
  }

  lemma SortedSnoc(h: seq<nat>, last: nat)
    requires SortedBy(h, NatKey)
    requires forall x :: x in h ==> x <= last
    ensures SortedBy(h + [last], NatKey)
  {
    var r := h + [last];
    forall i, j | 0 <= i < j < |r| ensures NatKey(r[i]) <= NatKey(r[j]) {
      if j == |h| {
        assert r[i] in h;
      } else {
        assert r[i] == h[i] && r[j] == h[j];
      }
    }
  }

  /** Every search result carries a `day` field. */
  lemma SearchResultsHaveDay(days: map<nat, DayData>, dayList: seq<nat>, key: string, name: Option<string>)
    ensures forall r :: r in SearchResults(days, dayList, key, name) ==> HasKey(r, "day")
  {
    SearchFollowsDayList(days, dayList, key, name);
    var rs := SearchResults(days, dayList, key, name);
    forall r | r in rs ensures HasKey(r, "day") {
      var i :| 0 <= i < |rs| && rs[i] == r;
    }
  }

  /** A row of the leaderboard page. */
  datatype PageRow = PageRow(username: Value, rank: Value, power: Value, extra: Value)

  /** A row of the leaderboard API reply: no `extra`. */
  datatype ApiRow = ApiRow(username: Value, rank: Value, power: Value)

  /** The sort key that stands for an absent rank (the `1e9` of the handlers). */
  const UnrankedKey: int := 1_000_000_000

  /** `r["rank"] if r["rank"] is not None else 1e9`, for integer ranks. */
  function RankKey(rank: Value): int {
    if rank.Int? then rank.n else UnrankedKey
  }

  function PageRowKey(r: PageRow): int { RankKey(r.rank) }

  function ApiRowKey(r: ApiRow): int { RankKey(r.rank) }

  /** The page row for the record stored under the lower-case name `key`. */
  function ToPageRow(key: string, rec: Record): PageRow {
    PageRow(GetOr(rec, "username", Str(key)), GetOr(rec, "rank", Null),
            GetOr(rec, "power", Null), GetOr(rec, "extra", Str("")))
  }

  /** The API row for the record stored under the lower-case name `key`. */
  function ToApiRow(key: string, rec: Record): ApiRow {
    ApiRow(GetOr(rec, "username", Str(key)), GetOr(rec, "rank", Null), GetOr(rec, "power", Null))
  }

  /** The `rows` list of `leaderboard` before sorting: one row per item, in map order. */
  function PageRows(dd: DayData): seq<PageRow> {
    if dd == [] then []
    else PageRows(dd[..|dd| - 1]) + [ToPageRow(dd[|dd| - 1].0, dd[|dd| - 1].1)]
  }

  /** The `rows` list of `api_leaderboard` before sorting. */
  function ApiRows(dd: DayData): seq<ApiRow> {
    if dd == [] then []
    else ApiRows(dd[..|dd| - 1]) + [ToApiRow(dd[|dd| - 1].0, dd[|dd| - 1].1)]
  }

  /**
   * The page rows correspond one to one, in order, with the day's records:
   * the user name is the record's `username` or else the key, rank and
   * power are the record's (`None` when absent), and `extra` is the
   * record's or else the empty string.
   */
  lemma {:induction false} PageRowsMatchRecords(dd: DayData)
    ensures |PageRows(dd)| == |dd|
    ensures forall i :: 0 <= i < |dd| ==>
              var row, rec := PageRows(dd)[i], dd[i].1;
              (if HasKey(rec, "username") then Get(rec, "username") == Some(row.username) else row.username == Str(dd[i].0)) &&
              (if HasKey(rec, "rank") then Get(rec, "rank") == Some(row.rank) else row.rank == Null) &&
              (if HasKey(rec, "power") then Get(rec, "power") == Some(row.power) else row.power == Null) &&
              (if HasKey(rec, "extra") then Get(rec, "extra") == Some(row.extra) else row.extra == Str(""))
  {
    if dd != [] {
      PageRowsMatchRecords(dd[..|dd| - 1]);
    }
  }

  /**
   * The API rows correspond one to one, in order, with the day's records
   * and carry only user name, rank and power.
   */
  lemma {:induction false} ApiRowsMatchRecords(dd: DayData)
    ensures |ApiRows(dd)| == |dd|
    ensures forall i :: 0 <= i < |dd| ==>
              var row, rec := ApiRows(dd)[i], dd[i].1;
              (if HasKey(rec, "username") then Get(rec, "username") == Some(row.username) else row.username == Str(dd[i].0)) &&
              (if HasKey(rec, "rank") then Get(rec, "rank") == Some(row.rank) else row.rank == Null) &&
              (if HasKey(rec, "power") then Get(rec, "power") == Some(row.power) else row.power == Null)
  {
    if dd != [] {
      ApiRowsMatchRecords(dd[..|dd| - 1]);
    }
  }

  /** The API row is the page row without `extra`. */
  lemma {:induction false} ApiRowsArePageRowsWithoutExtra(dd: DayData)
    ensures |ApiRows(dd)| == |dd| && |PageRows(dd)| == |dd|
    ensures forall i :: 0 <= i < |dd| ==>
              var a, p := ApiRows(dd)[i], PageRows(dd)[i];
              a.username == p.username && a.rank == p.rank && a.power == p.power
  {
    PageRowsMatchRecords(dd);
    ApiRowsMatchRecords(dd);
  }

  /** Whether `leaderboard` and `api_leaderboard` report that a day has no data (`if not day_data`). */
  predicate NoDataFor(days: map<nat, DayData>, day: nat) {
    day !in days || days[day] == []
  }

  const NoDataMessage := "No data for that day."
  const MissingQueryError := "missing q parameter"
  const NoDataError := "no data for day"

  /** What `search` (POST) renders: a redirect home, or the results page. */
  datatype SearchPage = RedirectHome | ResultsPage(username: string, results: seq<Record>, days: seq<nat>)

  /** What `api_search` returns. */
  datatype ApiSearchReply = SearchError(status: nat, error: string) | SearchReply(username: string, results: seq<Record>)

  /** What `leaderboard` renders. */
  datatype LeaderboardPage = LeaderboardPage(day: nat, rows: seq<PageRow>, days: seq<nat>, message: Option<string>)

  /** What `api_leaderboard` returns. */
  datatype ApiLeaderboardReply = LeaderboardError(status: nat, error: string) | LeaderboardReply(day: nat, rows: seq<ApiRow>)
}
