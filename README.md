# Per-day leaderboard index: a Dafny model

This project models the core of a small Flask application (`app.py`) that
serves per-day leaderboards. At start-up, and again on `POST /admin/reload`,
`load_data` scans a data directory for day files and makes a fresh index:

- `DAYS` maps a day number to that day's records, keyed by the lower-cased user name.
- `DAY_LIST` holds the day numbers, sorted.

The request handlers only read this index:

- search by user name across all days, as a form page and as a JSON API;
- the leaderboard of one day, stably sorted by rank, as a page and as a JSON API.

Modules follow the structure of the program:

- `Wrappers`: the `Option` type (Python's `None`-or-value).
- `Text`: ASCII `lower`, Python's whitespace `strip`, `endswith`, and the
  search for the first maximal run of decimal digits in a name. This search
  stands in for `re.search(r"(\d+)", fname)` followed by `int(...)`.
- `Dicts`: Python's insertion-ordered `dict` as an association list. It has
  lookup, `in`, assignment, `setdefault` and `get(k, default)`.
- `Records`: JSON field values, records (dicts of values) and day maps (dicts of records).
- `Sorting`: a stable sort by an integer key. It serves both for `sorted(rows, key=...)` and `DAY_LIST.sort()`.
- `Loading`: the filename filter, the day of an entry, key normalisation,
  and the index the loop of `load_data` builds (`Scan`, then `Loaded`).
- `Queries`: the search results and the leaderboard rows as functions of
  the index, and the replies of the four handlers.
- `App`: the class `Cache`. It holds the two globals and has the handlers as methods.
  `LoadData` and `Reload` change the state. The query methods only read it,
  so a search cannot change a stored record.
- `Examples`: worked instances. They cover the reserved name, the rank order,
  two files for one day, and one file read back through the API.

The directory listing is an input sequence of entries. Each entry carries a
file name and the outcome of reading that file, which is `None` when
`open`, `json.load` or `data.items()` raised. The order of the sequence is
the order `os.listdir` returned.

In these places the model follows the code, even where a reader might
expect otherwise:

- `DAY_LIST` gets one element per contributing file. Two files for the same
  day put that day in the list twice, and the search then returns that
  day's record twice (`Loading.LoadedCount`, `Examples.DuplicateDayFiles`).
- The leaderboard row's user name is the record's `username` field. When the
  record has none, the name is the lower-cased key, not the original-case
  key from the file (`Examples.SingleFileRoundTrip`).
- Day 0 is a valid day (`day0.json`). Leading zeros are dropped (`day007.json` is day 7).
- A rank above 10^9 sorts after the unranked rows, because the sentinel
  key is 10^9 and is not larger than every rank.
- The form search runs only on `POST`. A `GET` with a user name redirects without searching.

## Model

| member | source | states |
|---|---|---|
| `Text.Lower` | app.py:23 | lower-casing keeps the length; each ASCII upper-case letter becomes its lower-case letter (code point plus 32) and every other character stays as it is |
| `Text.Strip` | app.py:53 | the result is the slice of the input between a leading and a trailing all-whitespace part; it is blank exactly when the input is all whitespace, and otherwise starts and ends with a non-space |
| `Text.StripPadded` | app.py:53 | whitespace before and after a name that starts and ends with a non-space is exactly what `strip` removes, so the name comes back whole |
| `Text.EndsWith` | app.py:23 | `s.endswith(suffix)`: `s` ends with the characters of `suffix`, in order; used by `Loading.IsCandidate`, whose property `Loading.DayOf` and `Examples.CandidateNames` state |
| `Text.DigitsValue` | app.py:34 | `int(ds)` for a string of decimal digits (leading zeros allowed); `Text.ShowNat` and `Text.DigitRunOfRenderedNumber` state that it reads back the decimal form of `n` as `n` |
| `Text.FirstDigitRun` | app.py:32-33 | there is no match exactly when the name contains no decimal digit |
| `Text.FirstDigitRunIsFirstRun` | app.py:32-34 | when `s[..i]` has no digit and `s[i..j]` is a maximal digit run, the day is the integer value of `s[i..j]` |
| `Text.DigitRunOfRenderedNumber` | app.py:30-34 | a digit-free prefix, the decimal form of `n`, then a non-digit: the day read back is `n` |
| `Dicts.Get` | app.py:61-62 | a key is found exactly when it is among the dict's keys, and the value found is stored under it |
| `Dicts.HasKey` | app.py:61 | the `in` test; by the contract of `Dicts.Get`, it holds exactly when the key is among the dict's keys |
| `Dicts.GetOr` | app.py:83-86 | `get(k, default)` gives the stored value when `k` is present, else the default |
| `Dicts.Put` | app.py:36-37 | after `d[k] = v`, `k` maps to `v` and every other key maps to what it mapped to before |
| `Dicts.PutInPlace` | app.py:36-37 | assigning a key the dict already holds keeps the length and replaces the value in that key's own slot; every other entry stays at its position (`Dicts.PutFresh` gives the other half: a new key goes last) |
| `Dicts.PutKeys` | app.py:36-37 | assignment adds exactly the assigned key to the key set |
| `Dicts.PutDistinct` | app.py:36-37 | assignment never makes a key occur twice |
| `Dicts.SetDefault` | app.py:63-64 | `setdefault(k, v)` keeps an existing value of `k`, else adds `v`; other keys are untouched, the original entries stay as they were, and a genuine dict stays genuine, so it is unchanged when `k` is present and gains exactly `(k, v)` otherwise |
| `Loading.IsCandidate` | app.py:23-25 | the file-name filter: `.json` in any letter case, except exactly `index.json`; its property is stated by `Loading.DayOf`, `Examples.ReservedNameIsExact` and `Examples.CandidateNames` |
| `Loading.DayOf` | app.py:23-34 | an entry contributes a day exactly when its name is a candidate, it was read, and its name has a digit; the day is the first digit run |
| `Loading.Normalise` | app.py:36 | the comprehension, as a left-to-right series of assignments; its properties are stated by `Loading.NormaliseLookup`, `Loading.NormaliseKeys`, `Loading.NormaliseDistinct`, `Loading.NormaliseLowerCase`, `Loading.NormaliseOrder` and `Loading.NormaliseIdentity` |
| `Loading.NormaliseLookup` | app.py:36 | looking up `lk` in the normalised map gives the value of the last source entry whose key lower-cases to `lk`, or nothing; values are unchanged and on a collision the later key wins |
| `Loading.NormaliseKeys` | app.py:35-36 | the normalised map has exactly the lower-cased source keys |
| `Loading.NormaliseDistinct` | app.py:36 | no user name occurs twice in a normalised map |
| `Loading.NormaliseLowerCase` | app.py:35-36 | every key of a normalised map is lower-case |
| `Loading.NormaliseOrder` | app.py:36 | when no two keys of the file lower-case to the same name, the normalised map holds the file's entries in the file's order, each with its key lower-cased |
| `Loading.NormaliseIdentity` | app.py:36 | a map whose keys are already distinct and lower-case is normalised to itself, order included |
| `Loading.Step` | app.py:22-38 | one pass of the loop body: a contributing entry assigns `DAYS[day]` and appends `day`, any other entry changes nothing; stated by `Loading.SkippedEntryIsIgnored`, `Loading.LastFileWins` and `Loading.LoadedCount` |
| `Loading.Scan` | app.py:22-38 | the loop over the listing before the final sort; `App.Cache.LoadData` proves its loop equal to it, and the lemmas on `Loading.Loaded` state its properties |
| `Loading.Loaded` | app.py:16-41 | after loading, `DAY_LIST` is sorted ascending and its elements are exactly the keys of `DAYS` |
| `Loading.LoadedLength` | app.py:37-38 | the length of `DAY_LIST` is the number of contributing files, so a day can be listed twice |
| `Loading.LoadedCount` | app.py:37-41 | each day occurs in `DAY_LIST` exactly as often as there are contributing files named for it (files for days 1, 1, 2 give `[1, 1, 2]`) |
| `Loading.LastFileWins` | app.py:37 | `DAYS[d]` is the normalised map of the last contributing file for day `d` |
| `Loading.UnnamedDayAbsent` | app.py:33-38 | a day that no contributing file names is not in `DAYS` |
| `Loading.SkippedEntryIsIgnored` | app.py:22-40 | an entry that contributes nothing (not a candidate, failed read, no digits) leaves the index as if it were not listed; later entries are still processed |
| `Loading.LoadedDaysNormalised` | app.py:35-37 | every day map in `DAYS` has distinct, lower-case user names |
| `Loading.DayOfRenderedName` | app.py:23-34 | a file `prefix + str(n) + ".json"` with a digit-free prefix is read and stored under day `n` |
| `Sorting.StableSort` | app.py:88 | the sorted rows are ordered by key and are a permutation of the input; rows with equal keys keep their input order |
| `Sorting.StableSortUnique` | app.py:88 | sortedness plus per-key order determine the result, so every stable sort gives the same rows |
| `Sorting.SortAscending` | app.py:41 | `DAY_LIST.sort()` gives an ascending permutation of the list |
| `Queries.DayRecords` | app.py:60 | `DAYS.get(day, {})`: the day's map, or the empty map for a day that is not loaded; read through `Queries.SearchFollowsDayList` and `Queries.HitsCount` |
| `Queries.Annotate` | app.py:62-64 | the result copy has `day` (the stored one if present, else the day) and, in the form variant, `username` (stored or the query); all other fields are the record's, and a record with distinct keys gives a copy with distinct keys |
| `Queries.SearchResults` | app.py:58-65 | the shared search loop, with the form variant's extra `username` default selected by the name argument; its properties are stated by `Queries.SearchFollowsDayList`, `Queries.HitsCount`, `Queries.HitsSorted` and `Queries.SearchResultsHaveDay` |
| `Queries.SearchFollowsDayList` | app.py:58-65 | the i-th result is the annotated copy of the record for the i-th `DAY_LIST` day whose map holds the name |
| `Queries.HitsCount` | app.py:59-61 | a day occurs among the matched days as often as in `DAY_LIST` if its map holds the name, and never otherwise |
| `Queries.HitsSorted` | app.py:59-65 | over a sorted `DAY_LIST` the results come in ascending day order |
| `Queries.SearchResultsHaveDay` | app.py:98-103 | every search result carries a `day` field |
| `Queries.RankKey` | app.py:88 | the sort key: an integer rank is its own key, an absent rank gets the 10^9 sentinel; the order it induces is stated by `Sorting.StableSort` and `Examples.RankOrderExample` |
| `Queries.ToPageRow` | app.py:82-87 | one page row from a record, with the `get` fallbacks; stated by `Queries.PageRowsMatchRecords` |
| `Queries.ToApiRow` | app.py:113 | one API row from a record; stated by `Queries.ApiRowsMatchRecords` and `Queries.ApiRowsArePageRowsWithoutExtra` |
| `Queries.NoDataFor` | app.py:77 | `not day_data`: the day is missing or its map is empty; `App.Cache.Leaderboard` and `App.Cache.ApiLeaderboard` give the message or error exactly in this case |
| `Queries.PageRows` | app.py:80-87 | the `rows` loop of `leaderboard`, one row per item in map order; stated by `Queries.PageRowsMatchRecords` |
| `Queries.ApiRows` | app.py:111-113 | the `rows` loop of `api_leaderboard`; stated by `Queries.ApiRowsMatchRecords` and `Queries.ApiRowsArePageRowsWithoutExtra` |
| `Queries.PageRowsMatchRecords` | app.py:80-87 | page rows match the day's records one to one, in map order; user name is `username` or else the key, rank and power are the stored values or `None`, `extra` is the stored value or `""` |
| `Queries.ApiRowsMatchRecords` | app.py:111-113 | API rows match the day's records one to one with user name, rank and power, under the same fallbacks |
| `Queries.ApiRowsArePageRowsWithoutExtra` | app.py:111-113 | an API row is the page row for the same record without `extra` |
| `App.Cache.constructor` | app.py:43-44 | at start-up the cache holds the index loaded from the listing |
| `App.Cache.LoadData` | app.py:16-41 | the index left by `load_data` is `Loaded(entries)`; it depends on the listing only, and `DAY_LIST` is sorted with exactly the keys of `DAYS` |
| `App.Cache.Reload` | app.py:118-121 | reload rebuilds the index and reports status `reloaded` with the new `DAY_LIST` |
| `App.Cache.CollectMatches` | app.py:58-65 | the loop both search handlers run over `DAY_LIST` builds exactly `Queries.SearchResults`: one annotated copy per day, in list order, whose map holds the name |
| `App.Cache.Search` | app.py:52-66 | a blank name redirects home without a lookup; otherwise the page has the stripped name, `DAY_LIST` and the search results for the lower-cased name with `day` and `username` defaulted |
| `App.Cache.ApiSearch` | app.py:92-104 | a blank query gives status 400 and `missing q parameter`; otherwise the reply is the lower-cased name and the results with `day` defaulted |
| `App.Cache.Leaderboard` | app.py:74-89 | a missing or empty day gives no rows and `No data for that day.`; otherwise the rows are a rank-sorted, stable permutation of the page rows |
| `App.Cache.ApiLeaderboard` | app.py:106-115 | a missing or empty day gives status 404 and `no data for day`; otherwise the day and a rank-sorted, stable permutation of the API rows |
| `App.ReloadTwice` | app.py:16-19 | loading twice from the same listing gives the same index both times |
| `Examples.ReservedNameIsExact` | app.py:23-25 | a name that lower-cases to `index.json` but is not exactly `index.json` is still read |
| `Examples.CandidateNames` | app.py:23-25 | `index.json` is skipped, `INDEX.json` is read, `day3.txt` is skipped |
| `Examples.PaddedQueryFindsAlice` | app.py:53-56 | the submitted name `" ALICE "` is stripped and lower-cased to the lookup key `alice` |
| `Examples.RankOrderExample` | app.py:114 | ranks 3, none, 1, none, 2 come out as 1, 2, 3, none, none, with the unranked rows in input order |
| `Examples.DuplicateDayFiles` | app.py:37-41 | two files for day `n` leave `DAYS` holding the later file and `DAY_LIST == [n, n]` |
| `Examples.SingleFileRoundTrip` | app.py:106-115 | one user whose record lacks `username` appears on the API leaderboard once, named by the lower-cased key |

## Left out

- Filesystem access (`os.path.isdir`, `os.makedirs`, `os.listdir`, `open`) is not modelled. The listing is an input sequence of entries, in whatever order `listdir` returns them.
- JSON decoding is not modelled. The decoded object is given as the entry's outcome. A file whose top level is not an object is an entry with outcome `None`, because `data.items()` raises inside the same `try`.
- A user's value that is not a JSON object is not modelled: each record is typed as an object. In Python, `load_data` would store such a value and the handlers would later raise.
- Field values other than null, integers and strings (floats, booleans, lists, objects) are opaque values that are only carried along. This makes `power` opaque.
- Queries.RankKey: a present rank that is not an integer (a float, a boolean, a string, a list or an object) gets the same key as an absent rank. Python keys it by the value itself. It compares floats and booleans with the numeric keys by value. `sorted` compares keys only in pairs. A string or list key raises a `TypeError` when it is compared with a key it cannot be ordered against: an integer rank, the `1e9` of an unranked row, or a list whose first differing element cannot be ordered against its own. An object key raises whenever it is compared at all, even with another object. A day with a single row sorts without error, and so does a day whose ranks are all strings (in string order).
- `Text.Lower` lower-cases ASCII letters only. Python's `str.lower` also folds other Unicode letters.
- `Text.FirstDigitRun` recognises only the ASCII digits `0`-`9`. Python's `\d` and `int` also accept other Unicode decimal digits.
- The Flask plumbing is not modelled: routing, request parsing, `render_template`, `redirect`/`url_for` and `jsonify`. A handler gets the request value with its default already applied (`""` when missing). It returns the data that would be rendered or serialised.
- The `index` route (app.py:46-48) only renders `DAY_LIST`. The `GET /search` branch (app.py:67-72) only redirects. Neither has logic of its own.
- The `print` on a failed read (app.py:40) is not modelled. The entry is simply skipped.
- Concurrency is not modelled. `admin_reload` reassigns the globals while requests may be reading them; the code gives no atomicity guarantee, and the model runs one handler at a time.
- The value returned by `setdefault` is unused by the code and not modelled.
- The iteration order of `DAYS` is never observed, so `DAYS` is a Dafny `map`. The order of the day maps is observed (leaderboard ties), so they are ordered association lists.
