/**
 * sortConcertsByDate, sortConcertsByGenre, sortConcertsByName and
 * sortConcertsByCity: flatten with buildConcerts, then sort.SliceStable with the
 * strategy's less. Each returns a permutation of the flattened records, sorted
 * by its less, in which records that the less cannot tell apart keep their
 * flattening order.
 */
module ConcertSorts {
  import opened Keys
  import opened StableSort
  import opened Dates
  import opened Views
  import opened Concerts
  import opened Comparators

  function DateKeyOf(oracle: Oracle): ConcertView -> Key {
    c => DateKey(oracle, c)
  }

  function GenreKeyOf(oracle: Oracle): ConcertView -> Key {
    c => GenreKey(oracle, c)
  }

  function NameKeyOf(): ConcertView -> Key {
    c => NameKey(c)
  }

  function CityKeyOf(oracle: Oracle): ConcertView -> Key {
    c => CityKey(oracle, c)
  }

  /** sortConcertsByDate(artists) */
  method SortConcertsByDate(artists: seq<ArtistView>, oracle: Oracle)
    returns (r: seq<ConcertView>, ghost orders: seq<seq<string>>)
    ensures ValidOrders(artists, orders)
    ensures r == InsertionSort(DateKeyOf(oracle), Flatten(artists, orders))
    ensures multiset(r) == multiset(Flatten(artists, orders))
    ensures forall i, j :: 0 <= i < j < |r| ==> !LessByDate(oracle, r[j], r[i])
    ensures StableFrom(DateKeyOf(oracle), Flatten(artists, orders), r)
  {
    var concerts;
    concerts, orders := BuildConcerts(artists);
    var less := (x, y) => LessByDate(oracle, x, y);
    forall x, y ensures less(x, y) == KeyLess(DateKeyOf(oracle)(x), DateKeyOf(oracle)(y)) {
      ByDateOrder(oracle, x, y);
    }
    r := SortedSlice(concerts, less, DateKeyOf(oracle));
    forall i, j | 0 <= i < j < |r| ensures !LessByDate(oracle, r[j], r[i]) {
      ByDateOrder(oracle, r[j], r[i]);
    }
  }

  /** sortConcertsByGenre(artists) */
  method SortConcertsByGenre(artists: seq<ArtistView>, oracle: Oracle)
    returns (r: seq<ConcertView>, ghost orders: seq<seq<string>>)
    ensures ValidOrders(artists, orders)
    ensures r == InsertionSort(GenreKeyOf(oracle), Flatten(artists, orders))
    ensures multiset(r) == multiset(Flatten(artists, orders))
    ensures forall i, j :: 0 <= i < j < |r| ==> !LessByGenre(oracle, r[j], r[i])
    ensures StableFrom(GenreKeyOf(oracle), Flatten(artists, orders), r)
  {
    var concerts;
    concerts, orders := BuildConcerts(artists);
    var less := (x, y) => LessByGenre(oracle, x, y);
    forall x, y ensures less(x, y) == KeyLess(GenreKeyOf(oracle)(x), GenreKeyOf(oracle)(y)) {
      ByGenreOrder(oracle, x, y);
    }
    r := SortedSlice(concerts, less, GenreKeyOf(oracle));
    forall i, j | 0 <= i < j < |r| ensures !LessByGenre(oracle, r[j], r[i]) {
      ByGenreOrder(oracle, r[j], r[i]);
    }
  }

  /** sortConcertsByName(artists) */
  method SortConcertsByName(artists: seq<ArtistView>)
    returns (r: seq<ConcertView>, ghost orders: seq<seq<string>>)
    ensures ValidOrders(artists, orders)
    ensures r == InsertionSort(NameKeyOf(), Flatten(artists, orders))
    ensures multiset(r) == multiset(Flatten(artists, orders))
    ensures forall i, j :: 0 <= i < j < |r| ==> !LessByName(r[j], r[i])
    ensures StableFrom(NameKeyOf(), Flatten(artists, orders), r)
  {
    var concerts;
    concerts, orders := BuildConcerts(artists);
    var less := (x, y) => LessByName(x, y);
    forall x, y ensures less(x, y) == KeyLess(NameKeyOf()(x), NameKeyOf()(y)) {
      ByNameOrder(x, y);
    }
    r := SortedSlice(concerts, less, NameKeyOf());
    forall i, j | 0 <= i < j < |r| ensures !LessByName(r[j], r[i]) {
      ByNameOrder(r[j], r[i]);
    }
  }

  /** sortConcertsByCity(artists) */
  method SortConcertsByCity(artists: seq<ArtistView>, oracle: Oracle)
    returns (r: seq<ConcertView>, ghost orders: seq<seq<string>>)
    ensures ValidOrders(artists, orders)
    ensures r == InsertionSort(CityKeyOf(oracle), Flatten(artists, orders))
    ensures multiset(r) == multiset(Flatten(artists, orders))
    ensures forall i, j :: 0 <= i < j < |r| ==> !LessByCity(oracle, r[j], r[i])
    ensures StableFrom(CityKeyOf(oracle), Flatten(artists, orders), r)
  {
    var concerts;
    concerts, orders := BuildConcerts(artists);
    var less := (x, y) => LessByCity(oracle, x, y);
    forall x, y ensures less(x, y) == KeyLess(CityKeyOf(oracle)(x), CityKeyOf(oracle)(y)) {
      ByCityOrder(oracle, x, y);
    }
    r := SortedSlice(concerts, less, CityKeyOf(oracle));
    forall i, j | 0 <= i < j < |r| ensures !LessByCity(oracle, r[j], r[i]) {
      ByCityOrder(oracle, r[j], r[i]);
    }
  }
}
