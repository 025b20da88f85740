/**
 * Worked instances of the loader and the leaderboard on concrete inputs.
 */
module Examples {
  import opened Wrappers
  import opened Text
  import opened Dicts
  import opened Records
  import opened Sorting
  import opened Loading
  import opened Queries

  /** Only the exact name `index.json` is reserved; its other spellings are read. */
  lemma ReservedNameIsExact(name: string)
    requires Lower(name) == "index.json" && name != "index.json"
    ensures IsCandidate(name)
  {
    assert Lower(name)[|name| - 5..] == "index.json"[5..];
  }

  lemma CandidateNames()
    ensures !IsCandidate("index.json")
    ensures IsCandidate("INDEX.json")
    ensures !IsCandidate("day3.txt")
  {
    forall i | 0 <= i < 10 ensures Lower("INDEX.json")[i] == "index.json"[i] {
      assert LowerChar("INDEX.json"[i]) == "index.json"[i];
    }
    ReservedNameIsExact("INDEX.json");
    LowerOfLowerCase("day3.txt");
  }

  /** The search query `" ALICE "` looks up the stored name `alice`. */
  lemma PaddedQueryFindsAlice()
    ensures Lower(Strip(" ALICE ")) == "alice"
  {
    StripAlice();
    LowerAlice();
  }

  lemma StripAlice()
    ensures Strip(" ALICE ") == "ALICE"
  {
    var pad, name := " ", "ALICE";
    assert !IsSpace(name[0]) && !IsSpace(name[4]);
    StripPadded(pad, name, pad);
    assert pad + name + pad == " ALICE ";
  }

  lemma LowerAlice()
    ensures Lower("ALICE") == "alice"
  {
    forall i | 0 <= i < 5 ensures Lower("ALICE")[i] == "alice"[i] {
      assert LowerChar("ALICE"[i]) == "alice"[i];
    }
  }

  /** Ranks 3, none, 1, none, 2 come out as 1, 2, 3, none, none; the two unranked rows keep their order. */
  lemma RankOrderExample()
    ensures StableSort([R3(), N1(), R1(), N2(), R2()], ApiRowKey) == [R1(), R2(), R3(), N1(), N2()]
  {
    SortLastFour();
    var s := [R3(), N1(), R1(), N2(), R2()];
    assert s[1..] == [N1(), R1(), N2(), R2()];
    InsertThree();
  }

  function R1(): ApiRow { ApiRow(Str("a"), Int(1), Null) }
  function R2(): ApiRow { ApiRow(Str("b"), Int(2), Null) }
  function R3(): ApiRow { ApiRow(Str("c"), Int(3), Null) }
  function N1(): ApiRow { ApiRow(Str("x"), Null, Null) }
  function N2(): ApiRow { ApiRow(Str("y"), Null, Null) }

  lemma SortLastTwo()
    ensures StableSort([N2(), R2()], ApiRowKey) == [R2(), N2()]
  {
    var s := [N2(), R2()];
    assert s[1..] == [R2()];
    SortSingle(R2(), ApiRowKey);
    assert StableSort(s, ApiRowKey) == Insert(N2(), [R2()], ApiRowKey);
    assert ApiRowKey(R2()) < ApiRowKey(N2());
    assert Insert(N2(), [R2()], ApiRowKey) == [R2()] + Insert(N2(), [], ApiRowKey);
  }

  lemma SortSingle<T>(x: T, key: T -> int)
    ensures StableSort([x], key) == [x]
  {
    assert [x][1..] == [];
  }

  lemma SortLastThree()
    ensures StableSort([R1(), N2(), R2()], ApiRowKey) == [R1(), R2(), N2()]
  {
    SortLastTwo();
    assert [R1(), N2(), R2()][1..] == [N2(), R2()];
  }

  lemma SortLastFour()
    ensures StableSort([N1(), R1(), N2(), R2()], ApiRowKey) == [R1(), R2(), N1(), N2()]
  {
    SortLastThree();
    InsertN1();
    assert [N1(), R1(), N2(), R2()][1..] == [R1(), N2(), R2()];
  }

  lemma InsertN1()
    ensures Insert(N1(), [R1(), R2(), N2()], ApiRowKey) == [R1(), R2(), N1(), N2()]
  {
    assert Insert(N1(), [N2()], ApiRowKey) == [N1(), N2()];
    assert Insert(N1(), [R2(), N2()], ApiRowKey) == [R2()] + Insert(N1(), [N2()], ApiRowKey);
    assert Insert(N1(), [R1(), R2(), N2()], ApiRowKey) == [R1()] + Insert(N1(), [R2(), N2()], ApiRowKey);
  }

  lemma InsertThree()
    ensures Insert(R3(), [R1(), R2(), N1(), N2()], ApiRowKey) == [R1(), R2(), R3(), N1(), N2()]
  {
    assert Insert(R3(), [N1(), N2()], ApiRowKey) == [R3(), N1(), N2()];
    assert Insert(R3(), [R2(), N1(), N2()], ApiRowKey) == [R2()] + Insert(R3(), [N1(), N2()], ApiRowKey);
    assert Insert(R3(), [R1(), R2(), N1(), N2()], ApiRowKey) == [R1()] + Insert(R3(), [R2(), N1(), N2()], ApiRowKey);
  }

  /**
   * Two files naming the same day (`day1.json` and `day_1.json`, say): DAYS
   * keeps the later one, and DAY_LIST lists the day twice.
   */
  lemma DuplicateDayFiles(p0: string, p1: string, n: nat, a: DayData, b: DayData)
    requires NoDigits(p0) && NoDigits(p1)
    ensures var ix := Loaded([Entry(p0 + ShowNat(n) + ".json", Some(a)), Entry(p1 + ShowNat(n) + ".json", Some(b))]);
            ix.days == map[n := Normalise(b)] && ix.dayList == [n, n]
  {
    DayOfRenderedName(p0, n, a);
    DayOfRenderedName(p1, n, b);
    TwoFilesSameDay(Entry(p0 + ShowNat(n) + ".json", Some(a)), Entry(p1 + ShowNat(n) + ".json", Some(b)), n);
  }

  lemma TwoFilesSameDay(e0: Entry, e1: Entry, d: nat)
    requires DayOf(e0) == Some(d) && DayOf(e1) == Some(d)
    ensures Loaded([e0, e1]) == Index(map[d := Normalise(e1.parsed.value)], [d, d])
  {
    ScanOfTwo(e0, e1);
    SortTwin(d);
  }

  lemma SortTwin(n: nat)
    ensures SortAscending([n, n]) == [n, n]
  {
    assert [n, n][1..] == [n];
    assert [n][1..] == [];
  }

  lemma ScanOfTwo(e0: Entry, e1: Entry)
    ensures Scan([e0, e1]) == Step(Step(Index(map[], []), e0), e1)
  {
    assert [e0][..0] == [];
    assert Scan([e0]) == Step(Scan([]), e0);
    assert [e0, e1][..1] == [e0];
    assert Scan([e0, e1]) == Step(Scan([e0]), e1);
  }

  /**
   * A file holding one user under the key `k`, whose record has no
   * `username` field, shows on its day's API leaderboard as a single row
   * named by the lower-cased key, with the record's rank and power.
   */
  lemma SingleFileRoundTrip(e: Entry, k: string, rec: Record)
    requires e.parsed == Some([(k, rec)]) && DayOf(e).Some?
    requires !HasKey(rec, "username")
    ensures var d := DayOf(e).value;
            d in Loaded([e]).days &&
            StableSort(ApiRows(Loaded([e]).days[d]), ApiRowKey) ==
              [ApiRow(Str(Lower(k)), GetOr(rec, "rank", Null), GetOr(rec, "power", Null))]
  {
    var d := DayOf(e).value;
    assert [e][..0] == [];
    assert Scan([e]) == Step(Scan([]), e);
    var dd: DayData := [(k, rec)];
    assert dd[..0] == [];
    assert Normalise(dd) == [(Lower(k), rec)];
    var nd: DayData := [(Lower(k), rec)];
    var rows := ApiRows(nd);
    assert nd[..0] == [];
    assert rows == ApiRows([]) + [ToApiRow(Lower(k), rec)];
    assert StableSort(rows, ApiRowKey) == rows by {
      assert rows[1..] == [];
    }
  }
}
