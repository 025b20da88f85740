/**
 * `load_data`: which directory entries are read, which day each one
 * contributes to, how its user names are normalised, and the index
 * (DAYS, DAY_LIST) the loop builds. The directory listing is an input
 * sequence of entries, each carrying the outcome of decoding that file.
 */
module Loading {
  import opened Wrappers
  import opened Text
  import opened Dicts
  import opened Records
  import opened Sorting

  /**
   * One name returned by `os.listdir`, with the outcome of reading it:
   * `None` when `open`, `json.load` or `data.items()` raised.
   */
  datatype Entry = Entry(name: string, parsed: Option<DayData>)

  /** The names the loop tries to read: `.json` in any case, except exactly `index.json`. */
  predicate IsCandidate(name: string) {
    EndsWith(Lower(name), ".json") && name != "index.json"
  }

  /** The day an entry is stored under, or `None` when it changes nothing. */
  function DayOf(e: Entry): (r: Option<nat>)
    ensures r.Some? <==> IsCandidate(e.name) && e.parsed.Some? && !NoDigits(e.name)
    ensures r.Some? ==> r == FirstDigitRun(e.name)
  {
    if IsCandidate(e.name) && e.parsed.Some? then FirstDigitRun(e.name) else None
  }

  /** `{k.lower(): v for k, v in data.items()}`, built left to right. */
  function Normalise<V>(d: Dict<V>): Dict<V> {
    if d == [] then []
    else Put(Normalise(d[..|d| - 1]), Lower(d[|d| - 1].0), d[|d| - 1].1)
  }

  /** The value of the last entry of `d` whose key lower-cases to `lk`. */
  function LastWith<V>(d: Dict<V>, lk: string): Option<V> {
    if d == [] then None
    else if Lower(d[|d| - 1].0) == lk then Some(d[|d| - 1].1)
    else LastWith(d[..|d| - 1], lk)
  }

  /** The lower-cased keys of `d`. */
  function LowerKeys<V>(d: Dict<V>): set<string> {
    set k | k in Keys(d) :: Lower(k)
  }

  /**
   * Looking a name up in the normalised map gives the value of the last
   * source entry whose key lower-cases to it, and nothing when there is none:
   * values are kept as they are, and on a collision the later key wins.
   */
  lemma {:induction false} NormaliseLookup<V>(d: Dict<V>, lk: string)
    ensures Get(Normalise(d), lk) == LastWith(d, lk)
  {
    if d != [] {
      NormaliseLookup(d[..|d| - 1], lk);
    }
  }

  /** The normalised map has exactly the lower-cased source keys. */
  lemma {:induction false} NormaliseKeys<V>(d: Dict<V>)
    ensures Keys(Normalise(d)) == LowerKeys(d)
  {
    if d != [] {
      var p, x := d[..|d| - 1], d[|d| - 1];
      NormaliseKeys(p);
      PutKeys(Normalise(p), Lower(x.0), x.1);
      assert d == p + [x];
      KeysSnoc(p, x);
    }
  }

  /** The normalised map is a genuine dict: no user name occurs twice. */
  lemma {:induction false} NormaliseDistinct<V>(d: Dict<V>)
    ensures DistinctKeys(Normalise(d))
  {
    if d != [] {
      var p, x := d[..|d| - 1], d[|d| - 1];
      NormaliseDistinct(p);
      PutDistinct(Normalise(p), Lower(x.0), x.1);
    }
  }

  /** Every key of the normalised map is lower-case. */
  lemma NormaliseLowerCase<V>(d: Dict<V>)
    ensures forall k :: k in Keys(Normalise(d)) ==> IsLowerCase(k)
  {
    NormaliseKeys(d);
    forall k | k in LowerKeys(d) ensures IsLowerCase(k) {
      var k0 :| k0 in Keys(d) && k == Lower(k0);
      LowerIsLowerCase(k0);
    }
  }

  /** A map whose keys are already distinct and lower-case is normalised to itself, order included. */
  lemma {:induction false} NormaliseIdentity<V>(d: Dict<V>)
    requires DistinctKeys(d)
    requires forall i :: 0 <= i < |d| ==> IsLowerCase(d[i].0)
    ensures Normalise(d) == d
  {
    if d != [] {
      var p, x := d[..|d| - 1], d[|d| - 1];
      assert DistinctKeys(p);
      NormaliseIdentity(p);
      assert x.0 !in Keys(p);
      PutFresh(p, x.0, x.1);
      assert d == p + [x];
    }
  }

  /** No two keys of `d` lower-case to the same name. */
  predicate LowerDistinct<V>(d: Dict<V>) {
    forall i, j :: 0 <= i < j < |d| ==> Lower(d[i].0) != Lower(d[j].0)
  }

  /** Every entry of `d` with its key lower-cased, in the same order. */
  function LowerEach<V>(d: Dict<V>): Dict<V> {
    seq(|d|, i requires 0 <= i < |d| => (Lower(d[i].0), d[i].1))
  }

  /**
   * When no two source keys lower-case to the same name, normalising keeps
   * the file's order: entry `i` of the result is entry `i` of the source with
   * its key lower-cased. Leaderboard ties follow this order.
   */
  lemma {:induction false} NormaliseOrder<V>(d: Dict<V>)
    requires LowerDistinct(d)
    ensures Normalise(d) == LowerEach(d)
  {
    if d != [] {
      var p, x := d[..|d| - 1], d[|d| - 1];
      LowerDistinctPrefix(d);
      NormaliseOrder(p);
      NormaliseKeys(p);
      LastLowerIsFresh(d);
      PutFresh(Normalise(p), Lower(x.0), x.1);
      LowerEachSnoc(d);
    }
  }

  lemma LowerDistinctPrefix<V>(d: Dict<V>)
    requires d != [] && LowerDistinct(d)
    ensures LowerDistinct(d[..|d| - 1])
  {
    var p := d[..|d| - 1];
    forall i, j | 0 <= i < j < |p| ensures Lower(p[i].0) != Lower(p[j].0) {
      assert p[i] == d[i] && p[j] == d[j];
    }
  }

  lemma LowerEachSnoc<V>(d: Dict<V>)
    requires d != []
    ensures LowerEach(d) == LowerEach(d[..|d| - 1]) + [(Lower(d[|d| - 1].0), d[|d| - 1].1)]
  {
    var p := d[..|d| - 1];
    assert forall i :: 0 <= i < |p| ==> p[i] == d[i];
  }

  lemma LastLowerIsFresh<V>(d: Dict<V>)
    requires d != [] && LowerDistinct(d)
    ensures Lower(d[|d| - 1].0) !in LowerKeys(d[..|d| - 1])
  {
    var p := d[..|d| - 1];
    forall k | k in Keys(p) ensures Lower(k) != Lower(d[|d| - 1].0) {
      var i :| 0 <= i < |p| && p[i].0 == k;
      assert d[i] == p[i];
    }
  }

  /** DAYS and DAY_LIST together. */
  datatype Index = Index(days: map<nat, DayData>, dayList: seq<nat>)

  /** One iteration of the loop of `load_data`. */
  function Step(ix: Index, e: Entry): Index {
    match DayOf(e)
    case Some(d) => Index(ix.days[d := Normalise(e.parsed.value)], ix.dayList + [d])
    case None => ix
  }

  /** The index after the loop has run over `es`, before DAY_LIST is sorted. */
  function Scan(es: seq<Entry>): Index {
    if es == [] then Index(map[], [])
    else Step(Scan(es[..|es| - 1]), es[|es| - 1])
  }

  /** What `load_data` leaves in DAYS and DAY_LIST: the scan, with DAY_LIST sorted. */
  function Loaded(es: seq<Entry>): (ix: Index)
    ensures SortedBy(ix.dayList, NatKey)
    ensures forall d :: d in ix.dayList <==> d in ix.days
  {
    var s := Scan(es);
    ScanSynced(es);
    var sorted := SortAscending(s.dayList);
    assert forall d :: d in sorted <==> d in multiset(s.dayList);
    Index(s.days, sorted)
  }

  lemma {:induction false} ScanSynced(es: seq<Entry>)
    ensures forall d :: d in Scan(es).dayList <==> d in Scan(es).days
  {
    if es != [] {
      ScanSynced(es[..|es| - 1]);
    }
  }

  /** Whether an entry contributes a day. */
  predicate Contributes(e: Entry) { DayOf(e).Some? }

  /** The positions of the entries that contribute a day. */
  function AcceptedIndices(es: seq<Entry>): set<nat> {
    Positions(es, Contributes)
  }

  /** The positions in `s` of the elements satisfying `p`. */
  function Positions<T>(s: seq<T>, p: T -> bool): set<nat> {
    set i: nat | i < |s| && p(s[i])
  }

  lemma PositionsSnoc<T>(s: seq<T>, p: T -> bool)
    requires s != []
    ensures |Positions(s, p)| == |Positions(s[..|s| - 1], p)| + if p(s[|s| - 1]) then 1 else 0
  {
    var q, last := s[..|s| - 1], |s| - 1;
    var extra: set<nat> := if p(s[last]) then {last} else {};
    assert Positions(s, p) == Positions(q, p) + extra by {
      assert forall i :: 0 <= i < |q| ==> q[i] == s[i];
    }
    assert last !in Positions(q, p);
  }

  /**
   * DAY_LIST has one element per contributing file, not per distinct day:
   * two files naming the same day put that day in the list twice.
   */
  lemma LoadedLength(es: seq<Entry>)
    ensures |Loaded(es).dayList| == |AcceptedIndices(es)|
  {
    ScanLength(es);
    var l := Scan(es).dayList;
    assert |multiset(SortAscending(l))| == |multiset(l)|;
  }

  lemma {:induction false} ScanLength(es: seq<Entry>)
    ensures |Scan(es).dayList| == |AcceptedIndices(es)|
  {
    if es != [] {
      var p := es[..|es| - 1];
      ScanLength(p);
      PositionsSnoc(es, Contributes);
    }
  }

  /** Whether an entry is stored under day `d`. */
  function NamesDay(d: nat): Entry -> bool {
    (e: Entry) => DayOf(e) == Some(d)
  }

  /**
   * Each day occurs in DAY_LIST once for every contributing file that names
   * it: three files for days 1, 1 and 2 give `[1, 1, 2]`.
   */
  lemma LoadedCount(es: seq<Entry>, d: nat)
    ensures multiset(Loaded(es).dayList)[d] == |Positions(es, NamesDay(d))|
  {
    ScanCount(es, d);
  }

  lemma {:induction false} ScanCount(es: seq<Entry>, d: nat)
    ensures multiset(Scan(es).dayList)[d] == |Positions(es, NamesDay(d))|
  {
    if es != [] {
      var p, e := es[..|es| - 1], es[|es| - 1];
      ScanCount(p, d);
      PositionsSnoc(es, NamesDay(d));
      match DayOf(e)
      case Some(x) =>
        assert Scan(es).dayList == Scan(p).dayList + [x];
        assert multiset(Scan(es).dayList) == multiset(Scan(p).dayList) + multiset{x};
      case None =>
    }
  }

  /**
   * DAYS[d] is the normalised map of the last contributing file for day `d`:
   * an earlier file for the same day is overwritten.
   */
  lemma {:induction false} LastFileWins(es: seq<Entry>, i: nat)
    requires i < |es| && DayOf(es[i]).Some?
    requires forall j :: i < j < |es| ==> DayOf(es[j]) != DayOf(es[i])
    ensures DayOf(es[i]).value in Loaded(es).days
    ensures Loaded(es).days[DayOf(es[i]).value] == Normalise(es[i].parsed.value)
  {
    if i < |es| - 1 {
      var p := es[..|es| - 1];
      assert p[i] == es[i];
      LastFileWins(p, i);
    }
  }

  /** A day that no contributing file names is not in DAYS. */
  lemma {:induction false} UnnamedDayAbsent(es: seq<Entry>, d: nat)
    requires forall i :: 0 <= i < |es| ==> DayOf(es[i]) != Some(d)
    ensures d !in Loaded(es).days
  {
    if es != [] {
      var p := es[..|es| - 1];
      assert forall i :: 0 <= i < |p| ==> p[i] == es[i];
      UnnamedDayAbsent(p, d);
    }
  }

  /**
   * An entry that contributes nothing (not a candidate name, a failed read,
   * or no digits in its name) leaves the index as if it were not listed; the
   * entries after it are still processed.
   */
  lemma SkippedEntryIsIgnored(a: seq<Entry>, e: Entry, b: seq<Entry>)
    requires DayOf(e).None?
    ensures Loaded(a + [e] + b) == Loaded(a + b)
  {
    ScanSkips(a, e, b);
  }

  lemma {:induction false} ScanSkips(a: seq<Entry>, e: Entry, b: seq<Entry>)
    requires DayOf(e).None?
    ensures Scan(a + [e] + b) == Scan(a + b)
  {
    if b == [] {
      assert (a + [e] + b)[..|a|] == a;
      assert a + b == a;
    } else {
      var b' := b[..|b| - 1];
      ScanSkips(a, e, b');
      assert (a + [e] + b)[..|a + [e] + b| - 1] == a + [e] + b';
      assert (a + b)[..|a + b| - 1] == a + b';
    }
  }

  /** Every day map in DAYS has distinct, lower-case user names. */
  lemma {:induction false} LoadedDaysNormalised(es: seq<Entry>, d: nat)
    requires d in Loaded(es).days
    ensures DistinctKeys(Loaded(es).days[d])
    ensures forall k :: k in Keys(Loaded(es).days[d]) ==> IsLowerCase(k)
  {
    var p := es[..|es| - 1];
    var e := es[|es| - 1];
    if DayOf(e) == Some(d) {
      NormaliseDistinct(e.parsed.value);
      NormaliseLowerCase(e.parsed.value);
    } else {
      LoadedDaysNormalised(p, d);
    }
  }

  /** `Day12.json` style names: the day is the number after the digit-free prefix. */
  lemma DayOfRenderedName(prefix: string, n: nat, data: DayData)
    requires NoDigits(prefix)
    ensures DayOf(Entry(prefix + ShowNat(n) + ".json", Some(data))) == Some(n)
  {
    DigitRunOfRenderedNumber(prefix, n, ".json");
    JsonNameIsCandidate(prefix + ShowNat(n), |prefix|);
  }

  /** A `.json` name with a digit in it is never the reserved `index.json`. */
  lemma JsonNameIsCandidate(stem: string, i: nat)
    requires i < |stem| && IsDigit(stem[i])
    ensures IsCandidate(stem + ".json")
  {
    var name := stem + ".json";
    LowerAppend(stem, ".json");
    assert Lower(".json") == ".json";
    assert IsDigit(name[i]);
    assert NoDigits("index.json");
  }
}
