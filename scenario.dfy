/**
 * Worked sort examples: two views handed to the concert sorts in the order B, A,
 * each with one concert. Sorting by date puts A's earlier concert first; sorting
 * by name puts A first whatever the dates. (The join itself would already order
 * these two views A, B by name; the examples start from B, A so that the sorts
 * have something to reorder.)
 */
module Scenario {
  import opened Wrappers
  import opened GoStrings
  import opened Keys
  import opened StableSort
  import opened Dates
  import opened Views
  import opened Concerts
  import opened Comparators
  import opened ConcertSorts

  const ViewB := ArtistView(1, "B", "", [], 0, "", ["Rock"], [], [], map["city-usa" := ["2024-05-01"]])
  const ViewA := ArtistView(2, "A", "", [], 0, "", ["Jazz"], [], [], map["city-fr" := ["2024-01-01"]])
  const ConcertB := ConcertView("B", "", 1, "city-usa", "2024-05-01", "Rock")
  const ConcertA := ConcertView("A", "", 2, "city-fr", "2024-01-01", "Jazz")

  /** An iteration order of a map visits as many keys as the map has. */
  lemma {:induction false} EnumerationSize(keys: seq<string>, ks: set<string>)
    requires Enumerates(keys, ks)
    ensures |keys| == |ks|
  {
    if keys == [] {
      assert forall k :: k !in ks;
      assert ks == {};
    } else {
      var init, last := keys[..|keys| - 1], keys[|keys| - 1];
      assert keys == init + [last];
      assert last !in init;
      assert Enumerates(init, ks - {last});
      EnumerationSize(init, ks - {last});
    }
  }

  /** A relation with one location is visited in exactly one order. */
  lemma SingletonEnumeration(keys: seq<string>, k: string)
    requires Enumerates(keys, {k})
    ensures keys == [k]
  {
    EnumerationSize(keys, {k});
    assert keys[0] in keys;
  }

  lemma ScenarioFlatten(orders: seq<seq<string>>)
    requires ValidOrders([ViewB, ViewA], orders)
    ensures Flatten([ViewB, ViewA], orders) == [ConcertB, ConcertA]
  {
    assert ViewB.rel.Keys == {"city-usa"} && ViewA.rel.Keys == {"city-fr"};
    SingletonEnumeration(orders[0], "city-usa");
    SingletonEnumeration(orders[1], "city-fr");
    assert ["city-usa"][..0] == [] && ["city-fr"][..0] == [];
    assert ArtistConcerts(ViewB, ["city-usa"]) == [ConcertB] by {
      assert LocationConcerts(ViewB, "city-usa", ["2024-05-01"]) == [ConcertB];
    }
    assert ArtistConcerts(ViewA, ["city-fr"]) == [ConcertA] by {
      assert LocationConcerts(ViewA, "city-fr", ["2024-01-01"]) == [ConcertA];
    }
    assert [ViewB, ViewA][..1] == [ViewB] && orders[..1] == [orders[0]];
    assert [ViewB][..0] == [] && [orders[0]][..0] == [];
    assert Flatten([ViewB], [orders[0]]) == [ConcertB];
  }

  /** A stable sort swaps two records exactly when the second one's key is smaller. */
  lemma SortTwo<T>(key: T -> Key, x: T, y: T)
    requires KeyLess(key(y), key(x))
    ensures InsertionSort(key, [x, y]) == [y, x]
  {
    assert [x, y][..1] == [x] && [x][..0] == [];
    assert InsertionSort(key, [x]) == [x];
    assert Insert(key, [], y) == [y];
    assert Insert(key, [x], y) == [y, x];
  }

  lemma ScenarioDates(oracle: Oracle)
    ensures DateTieBreak(oracle, "2024-01-01", "2024-05-01") == Some(true)
  {
    var a, b := "2024-01-01", "2024-05-01";
    assert DateOnlyShape(a) && YearOf(a) == 2024 && MonthOf(a) == 1 && DayOf(a) == 1;
    assert DateOnlyShape(b) && YearOf(b) == 2024 && MonthOf(b) == 5 && DayOf(b) == 1;
    DateOnlyTieBreakIsTextOrder(oracle, a, b);
    DateOnlyTextOrder(a, b);
  }

  /** Sorting by date yields A's concert of 2024-01-01 before B's of 2024-05-01,
      for every iteration order of the relations. */
  lemma SortByDateExample(oracle: Oracle, orders: seq<seq<string>>)
    requires ValidOrders([ViewB, ViewA], orders)
    ensures InsertionSort(DateKeyOf(oracle), Flatten([ViewB, ViewA], orders)) == [ConcertA, ConcertB]
  {
    ScenarioFlatten(orders);
    ScenarioDates(oracle);
    assert LessByDate(oracle, ConcertA, ConcertB);
    ByDateOrder(oracle, ConcertA, ConcertB);
    SortTwo(DateKeyOf(oracle), ConcertB, ConcertA);
  }

  /** Sorting by name yields A before B whatever the dates. */
  lemma SortByNameExample(orders: seq<seq<string>>)
    requires ValidOrders([ViewB, ViewA], orders)
    ensures InsertionSort(NameKeyOf(), Flatten([ViewB, ViewA], orders)) == [ConcertA, ConcertB]
  {
    ScenarioFlatten(orders);
    assert Lower("A") == "a" && Lower("B") == "b";
    assert StrLess("a", "b");
    ByNameOrder(ConcertA, ConcertB);
    SortTwo(NameKeyOf(), ConcertB, ConcertA);
  }
}
