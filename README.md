# Groupie-tracker concert pipeline, modelled in Dafny

Groupie-tracker is a small Go web server. At startup it joins four remote
feeds into the views its pages render:

- the feeds are artists, dates, locations and relations;
- relations map each location to the dates played there;
- the result is one `ArtistView` per artist, with the artists sorted by name.

On each request it may do the following:

- flatten the views into concert records (one per artist, location and date);
- sort those records in one of four ways;
- list the distinct cities the artists play in;
- filter the artists by name;
- look up one artist for the detail page.

This project models that core, `src/main.go`, and proves what each step delivers:

- **Join** (`join.dfy`, `loadArtistsView`):
  - the first failing feed decides the error;
  - on success there is one view per artist, and the artists are a permutation of the feed ordered by name;
  - each view holds the artist's own fields plus the last dates, locations and relation entry carrying its id, or empty ones when none does.
- **Flattening** (`concerts.dfy`, `buildConcerts`, `firstGenre`):
  - the iteration order of each relation map is chosen nondeterministically and recorded as a ghost value;
  - the records are the flattening in that order;
  - their count and their multiset do not depend on the order;
  - a record appears exactly when its artist's relation lists its location and date.
- **Dates** (`dates.dfy`, `parseDate`):
  - the five layouts are tried in order, and the first that parses wins;
  - no parse gives the zero time and `false`;
  - the layout "2006-01-02" is parsed concretely, to nanoseconds since the Unix epoch, checking the calendar;
  - for every valid such date, comparing instants is comparing the text;
  - the other four layouts are a parameter `oracle` standing for `time.Parse`.
- **Comparators** (`comparators.dfy`, `normalizeCity` and the four `less` functions):
  - each `less` is written as the Go if-chain;
  - each is proved equal to lexicographic order on a key chain (`keys.dfy`);
  - that order is a strict total order, which meets `sort.SliceStable`'s requirement.
- **Sorts** (`stable_sort.dfy`, `sorts.dfy`):
  - `sort.SliceStable` is an in-place insertion sort on an array;
  - it is proved equal to a functional insertion sort, whose result is sorted, a permutation and stable;
  - so each `sortConcertsBy*` returns a permutation of the flattening, with no inversion under its `less`, and with records of equal key in flattening order.
- **"/" handler** (`cities.dfy`, `search.dfy`, `index_page.dfy`):
  - the city list holds exactly the non-empty locations and relation keys, strictly ascending, so it is free of duplicates and independent of map order;
  - `searchGroup` keeps exactly the artists whose name equals the query up to case, and drops concerts and cities;
  - the `sort` parameter selects the sort, and an unknown value means no concerts.
- **"/index2" handler** (`detail_page.dfy`):
  - the `id` parameter is read as `strconv.Atoi` does, defaulting to 1;
  - `Atoi` reads back `Itoa` for every int64;
  - the first view with that id gives the detail;
  - otherwise the directly fetched artist (a parameter) gives it without its dates, locations or relation, or the zero value when that fetch fails.
- **Worked sort examples** (`scenario.dfy`): two views, handed to the sorts in the order B, A, with one concert each.
  - Sorting by date puts A's 2024-01-01 concert before B's 2024-05-01 one, for every map order.
  - Sorting by name puts A first.

A Go string is a sequence of bytes, which in this program hold UTF-8 text. The
model represents a string as the sequence of Unicode code points the bytes
encode. Go's `<` compares the bytes; for valid UTF-8 that is the same as
comparing the code points lexicographically, which is what the model does.

## Model

| member | source | states |
|---|---|---|
| Join.LoadArtistsView | src/main.go:283-335 | the error of the first failing feed, in the order artists, dates, locations, relation; success exactly when all four succeed; then the views are, position by position, the join of a permutation of the artists feed in which no later name is `<` an earlier one |
| Join.BuildLookup | src/main.go:301-313 | the loop `m[it.ID] = payload` over a feed produces `LookupOf(feed)` |
| Join.LookupOf | src/main.go:301-313 | an id is a key of the lookup map exactly when some feed entry carries it, and its value is the payload of the last such entry |
| Join.LastPayload | src/main.go:304-331 | a backward scan of a feed: the payload of the last entry with the id, or the given empty value when no entry has it |
| Join.LastPayloadIsLookup | src/main.go:329-331 | reading the lookup map with Go's zero-value default agrees with the backward scan `LastPayload` |
| Join.ViewOf | src/main.go:321-332 | the view of one artist, reading the three lookup maps with empty defaults |
| Join.ViewOfJoin | src/main.go:318-333 | a view copies the artist's id, name, image, members, creation date, first album and genres, and takes its dates, locations and relation from the last matching feed entry, or empty ones (a left join that never fails on missing side data) |
| Concerts.FirstGenre | src/main.go:408-413 | the first genre, or "" when there is none |
| Concerts.ArtistConcerts | src/main.go:390-403 | one artist's records: for each location in the given iteration order, one record per listed date, in list order |
| Concerts.Flatten | src/main.go:389-404 | the records of all artists, artist by artist, under the given iteration orders |
| Concerts.BuildConcerts | src/main.go:386-406 | the records equal the flattening of the views, artist by artist, under an iteration order that enumerates each relation's keys exactly once; whatever that order, there are as many records as all relations have dates, and always the same multiset of them |
| Concerts.ArtistConcertsContent | src/main.go:390-403 | for every iteration order, one artist contributes as many records as its relation has dates over all locations, and always the same multiset of records |
| Concerts.FlattenContent | src/main.go:386-406 | the flattening has as many records as all relations have dates, and its multiset does not depend on the map iteration order |
| Concerts.FlattenOrderIrrelevant | src/main.go:391 | two iteration orders give flattenings with the same length and multiset |
| Concerts.ArtistConcertsMembers | src/main.go:391-401 | a record is among one artist's records exactly when it is that artist's record for some location of its relation and some date listed there |
| Concerts.FlattenMembers | src/main.go:386-413 | a record is in the flattening exactly when it is the record of some artist, some location of its relation and some date listed there, carrying the artist's first genre or "" |
| Dates.ParseDateOnly | src/main.go:372-379 | `time.Parse("2006-01-02", s)`: four digits, '-', two digits, '-', two digits and nothing more, month 1-12, day within the month's length (February 29 only in leap years) |
| Dates.TimeParse | src/main.go:379 | `time.Parse(l, s)`: the concrete parser for "2006-01-02", the oracle for the other layouts |
| Dates.FirstParse | src/main.go:370-384 | parsing succeeds exactly when some layout accepts the string; then the instant is the one from the first accepting layout in the order "2006-01-02", RFC 3339, "02/01/2006", "02 Jan 2006", "January 2, 2006"; on failure it is the zero time |
| Dates.ParseDate | src/main.go:370-384 | the loop over the layouts with early return computes `FirstParse` |
| Dates.DateOnlyInstantOrder | src/main.go:372 | for two valid "2006-01-02" dates, the parsed instants compare as the texts do under `<`, and are equal exactly when the texts are |
| Dates.DateOnlyTextOrder | src/main.go:372 | two dddd-dd-dd strings compare under `<` as their (year, month, day) triples |
| Dates.DayNumberIncreasing | src/main.go:372 | a later calendar date has a larger day number, so a later "2006-01-02" date parses to a later instant |
| Dates.DateTieBreak | src/main.go:419-429 | the comparators' date step: both parse and differ, by instant; exactly one parses, that one first; neither parses and the texts differ, by text; otherwise undecided |
| Dates.DateOnlyTieBreakIsTextOrder | src/main.go:419-429 | between two valid "2006-01-02" dates the comparators' date step is plain text order, and equal dates fall through |
| Dates.DateOnlyExample | src/main.go:419-429 | "2024-01-05" sorts before "2024-03-01" |
| Dates.UnparsedExamples | src/main.go:425-429 | a date that parses sorts before one no layout accepts, and two unparseable dates sort by text ("later" before "soon") |
| Dates.NoLayoutParses | src/main.go:378-383 | a string rejected by every layout, including a dddd-dd-dd string that is no calendar day, does not parse |
| Dates.DateOnlyCalendarExamples | src/main.go:372 | "2024-02-30" and "2023-02-29" are rejected by "2006-01-02" and "2024-02-29" is accepted |
| GoStrings.TrimSpace | src/main.go:477 | `strings.TrimSpace`: leading and then trailing white space removed |
| GoStrings.Lower | src/main.go:436 | `strings.ToLower` on ASCII letters; other characters unchanged |
| GoStrings.EqualFold | src/main.go:340 | `strings.EqualFold`, for ASCII letters |
| GoStrings.StrLess | src/main.go:316 | Go's `<` on strings: lexicographic, with a proper prefix first |
| GoStrings.TrimSpaceShape | src/main.go:477 | `strings.TrimSpace` returns the slice between the leading and trailing white space, whose ends are not white space |
| GoStrings.TrimLeft | src/main.go:477 | the suffix left after removing leading white space |
| GoStrings.TrimRight | src/main.go:477 | the prefix left after removing trailing white space |
| GoStrings.EqualFoldIsLowerEquality | src/main.go:340 | `strings.EqualFold` holds exactly when the lower-cased strings are equal |
| GoStrings.StrLessTotal | src/main.go:316 | any two different strings are ordered one way by `<` |
| GoStrings.StrLessTransitive | src/main.go:316 | `<` on strings is transitive |
| GoStrings.StrLessIrreflexive | src/main.go:316 | no string is `<` itself |
| Keys.KeyLessTransitive | src/main.go:418-437 | the lexicographic order on key chains is transitive |
| Keys.KeyLessTotal | src/main.go:418-437 | two different key chains are ordered one way, so records a comparator cannot separate have equal keys |
| Keys.KeyNotLessTransitive | src/main.go:418-437 | "not after" is transitive, the property a strict weak order gives `sort.SliceStable` |
| Comparators.NormalizeCity | src/main.go:476-478 | `normalizeCity`: `Lower(TrimSpace(s))` |
| Comparators.LessByDate | src/main.go:418-437 | the by-date closure, as Go's if-chain: the date step, then normalized city, then lower-cased artist name |
| Comparators.LessByGenre | src/main.go:444-462 | the by-genre closure: trimmed lower-cased genre, then the date step, then lower-cased artist name |
| Comparators.LessByName | src/main.go:469-471 | the by-name closure: lower-cased artist name |
| Comparators.LessByCity | src/main.go:483-501 | the by-city closure: normalized city, then the date step, then lower-cased artist name |
| Comparators.NormalizeCityIdempotent | src/main.go:476-478 | normalizing a normalized city changes nothing |
| Comparators.NormalizeCityIgnoresCaseAndSpace | src/main.go:476-478 | cities that differ only in ASCII case and surrounding white space normalize to the same string |
| Comparators.ByDateOrder | src/main.go:418-437 | the by-date `less` is exactly the order of (date step, normalized city, lower-cased artist name) |
| Comparators.ByGenreOrder | src/main.go:444-462 | the by-genre `less` is exactly the order of (trimmed lower-cased genre, date step, lower-cased artist name) |
| Comparators.ByNameOrder | src/main.go:469-471 | the by-name `less` is exactly the order of the lower-cased artist name |
| Comparators.ByCityOrder | src/main.go:483-501 | the by-city `less` is exactly the order of (normalized city, date step, lower-cased artist name) |
| StableSort.SliceStable | src/main.go:418 | sorting the array in place leaves in it the stable insertion sort of its old contents under the key |
| StableSort.InsertLast | src/main.go:418 | one step moves an element into the sorted prefix, leaving the rest of the array unchanged |
| StableSort.InsertionSortCorrect | src/main.go:418 | the stable sort is sorted, a permutation of its input, and keeps the input order of records with equal keys |
| StableSort.SortedSlice | src/main.go:316 | a sorted copy of a sequence: no inversion, the same multiset, equal keys in input order |
| ConcertSorts.SortConcertsByDate | src/main.go:416-439 | a permutation of the flattening, with no record placed after one its `less` puts it before, and with records of equal key in flattening order |
| ConcertSorts.SortConcertsByGenre | src/main.go:442-464 | a permutation of the flattening, sorted by the by-genre `less`, stable |
| ConcertSorts.SortConcertsByName | src/main.go:467-473 | a permutation of the flattening, sorted by the by-name `less`, stable |
| ConcertSorts.SortConcertsByCity | src/main.go:481-503 | a permutation of the flattening, sorted by the by-city `less`, stable |
| Search.Matching | src/main.go:339-343 | the in-order filter of the artists whose name `EqualFold`s the query |
| Search.SearchGroup | src/main.go:337-345 | the result holds the matching artists in their order, and no concerts or cities |
| Search.MatchingMembers | src/main.go:339-343 | an artist is kept exactly when its name equals the query up to ASCII case, and a kept name is as long as the query (no substring match) |
| Search.SearchExamples | src/main.go:340 | "Queen" finds the artist named "queen"; "Que" finds nothing |
| Cities.CitySet | src/main.go:134-148 | the keys `citiesMap` ends with; never "" |
| Cities.CitySetMembers | src/main.go:133-148 | a city is collected exactly when it is non-empty and some view lists it as a location or relation key |
| Cities.AddArtistCities | src/main.go:135-147 | one view adds its non-empty locations and relation keys to the set |
| Cities.CollectCities | src/main.go:133-148 | the set after all views is the set of collected cities |
| Cities.MapKeys | src/main.go:149-152 | the keys of the set are appended once each, in some order |
| Cities.CityList | src/main.go:133-154 | the city list holds exactly the collected cities, strictly ascending under `<`, so without "" and without duplicates |
| Cities.DistinctPermutation | src/main.go:153 | sorting a list without duplicates leaves none |
| Cities.StrictlySortedUnique | src/main.go:149-153 | two strictly ascending lists with the same members are equal, so the city list does not depend on map order |
| IndexPage.SortStrategy | src/main.go:165-176 | the `switch sortBy`: "ville" city, "date" date, "genre" genre, "nom" or "name" name, anything else none |
| IndexPage.HandleIndex | src/main.go:125-176 | a POST with a non-empty `recherche` keeps only the matching artists and drops the cities; otherwise all views and the full city list; "ville", "date", "genre", "nom"/"name" select city, date, genre and name order of the concerts of the shown artists; any other value gives no concerts |
| DetailPage.Atoi | src/main.go:194 | `strconv.Atoi` on a 64-bit platform: an optional sign and at least one decimal digit, nothing else, with a value in the int64 range, which the result always is |
| DetailPage.Itoa | src/main.go:225 | `strconv.Itoa`: '-' for negatives, then the decimal digits without leading zeros |
| DetailPage.RequestedID | src/main.go:193-197 | the id is at least 1; a value of at least 1 that `strconv.Atoi` reads is the id, and any id other than 1 is such a value |
| DetailPage.AtoiItoa | src/main.go:194 | `strconv.Atoi` reads back `strconv.Itoa` for every int64 |
| DetailPage.RequestedIDOfLink | src/main.go:193-197 | a link with the decimal id n opens artist n, for every positive int64 |
| DetailPage.AtoiOutOfRange | src/main.go:194-197 | an id outside the int64 range is rejected, and the page falls back to artist 1 |
| DetailPage.RequestedIDRejects | src/main.go:194-197 | "", "abc", "4x", "-", "0" and "-3" fall back to 1 |
| DetailPage.RequestedIDAccepts | src/main.go:194 | "+7" and "007" read as 7, and "42" as 42 |
| DetailPage.DigitsValue | src/main.go:225 | the decimal digits of n are non-empty and read back as n |
| DetailPage.FirstWithID | src/main.go:203-220 | the position of the first view with the id: it has the id and no earlier view does; none when no view has it |
| DetailPage.FindArtist | src/main.go:200-220 | the scan with `break` finds a view exactly when one has the id, and then returns all fields of the first such view; otherwise the zero detail |
| DetailPage.HandleIndex2 | src/main.go:186-235 | the detail of the first view with the requested id; otherwise the fetched artist's own fields, with no dates, locations or relation; the zero detail when that fetch fails |
| Scenario.SortByDateExample | src/main.go:416-439 | views given as B (2024-05-01) then A (2024-01-01): sorting by date yields A's concert before B's, for every map order |
| Scenario.SortByNameExample | src/main.go:467-473 | the same views sorted by name yield A before B |
| Scenario.EnumerationSize | src/main.go:391 | an iteration order of a map visits exactly as many keys as the map has |

## Left out

- Network, JSON decoding and `fetchJSON`/`httpError`: the four feeds and the detail page's direct fetch are parameters of type `Result`. `FetchError` records which kind of failure occurred, with the status code, the body and the error text as opaque values; how Go formats those messages is not modelled.
- HTTP routing, the `Path` checks and `http.NotFound`, form and query parsing, templates (`funcMap`, `ParseGlob`, `ExecuteTemplate`), headers and logging.
- `time.Parse` for RFC 3339, "02/01/2006", "02 Jan 2006" and "January 2, 2006": an `oracle` parameter stands for it. Only "2006-01-02" is parsed concretely. Instants count nanoseconds, so the oracle can keep sub-second differences; time zones are whatever the oracle's instants encode.
- `strings.ToLower` and `strings.EqualFold` cover ASCII letters only. Unicode case mapping and folding, such as 'É' or the Kelvin sign, are not modelled. `strings.TrimSpace` uses the full `unicode.IsSpace` set.
- `sort.Slice`, `sort.SliceStable` and `sort.Strings` are modelled by one insertion sort.
  - For the stable sorts this is exact: the stable result under a strict weak order is unique.
  - Join.LoadArtistsView: `sort.Slice` is not stable, so the contract claims only a name-ordered permutation. With equal names the real order may be any.
- Go distinguishes a nil slice or map from an empty one. The model does not, since the pages render both alike.
- Go's `int` overflow: creation dates and ids are unbounded integers. Only `strconv.Atoi`'s int64 range check is modelled.
- The startup failure path: when the join fails, src/main.go:117-120 logs a warning and keeps serving with an empty `artistsView`. The model gives the `Failure` result, and any caller passes the empty sequence to the handlers. The log line and concurrent request handling are not modelled.
- Strings that are not valid UTF-8 cannot be represented, because a string is modelled as code points. For such strings, Go's byte-wise `<`, `strings.TrimSpace`, `strings.ToLower` and `strings.EqualFold` are not modelled.
- `makeHandler` (src/main.go:269-281) is not used by the core and is not part of this model.
- The detail page's `Index2Data` for a fetched artist reuses the preloaded shape; the reload of templates per request is left out.
- Location parsing into a title-cased city and country: src/main.go has no such function. Locations are only trimmed and lower-cased for comparison (`normalizeCity`), and that is what the model does.
- The artist join promises no unique identifiers. When a feed holds two entries with the same id, the last one wins (`LookupOf`). When the artists feed holds two artists with the same id, both get a view.
