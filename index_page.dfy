/**
 * The "/" handler's data: the city list, the optional search on POST, and the
 * concert sort chosen by the `sort` query parameter.
 */
module IndexPage {
  import opened Wrappers
  import opened Keys
  import opened StableSort
  import opened Dates
  import opened Views
  import opened Concerts
  import opened Comparators
  import opened ConcertSorts
  import opened Search
  import opened Cities

  datatype Strategy = ByCity | ByDate | ByGenre | ByName

  /** The `switch sortBy`: which sort a `sort` value selects, if any. */
  function SortStrategy(sortBy: string): Option<Strategy> {
    if sortBy == "ville" then Some(ByCity)
    else if sortBy == "date" then Some(ByDate)
    else if sortBy == "genre" then Some(ByGenre)
    else if sortBy == "nom" || sortBy == "name" then Some(ByName)
    else None
  }

  function KeyFor(strategy: Strategy, oracle: Oracle): ConcertView -> Key {
    match strategy
    case ByCity => CityKeyOf(oracle)
    case ByDate => DateKeyOf(oracle)
    case ByGenre => GenreKeyOf(oracle)
    case ByName => NameKeyOf()
  }

  predicate LessFor(strategy: Strategy, oracle: Oracle, x: ConcertView, y: ConcertView) {
    match strategy
    case ByCity => LessByCity(oracle, x, y)
    case ByDate => LessByDate(oracle, x, y)
    case ByGenre => LessByGenre(oracle, x, y)
    case ByName => LessByName(x, y)
  }

  /** The page data of a request to "/". `isPost` and `recherche` are the request
      method and form value; `sortBy` is the `sort` query parameter. */
  method HandleIndex(artistsView: seq<ArtistView>, isPost: bool, recherche: string, sortBy: string,
                     oracle: Oracle)
    returns (data: IndexPageData, ghost orders: seq<seq<string>>)
    ensures data.artists == (if isPost && recherche != "" then Matching(artistsView, recherche) else artistsView)
    ensures isPost && recherche != "" ==> data.cities == []
    ensures !(isPost && recherche != "") ==>
      (forall c :: c in data.cities <==> c in CitySet(artistsView)) && StrictlySorted(data.cities)
    ensures SortStrategy(sortBy) == None ==> data.concerts == []
    ensures SortStrategy(sortBy).Some? ==>
      var strategy := SortStrategy(sortBy).value;
      && ValidOrders(data.artists, orders)
      && data.concerts == InsertionSort(KeyFor(strategy, oracle), Flatten(data.artists, orders))
      && multiset(data.concerts) == multiset(Flatten(data.artists, orders))
      && (forall i, j :: 0 <= i < j < |data.concerts| ==> !LessFor(strategy, oracle, data.concerts[j], data.concerts[i]))
      && StableFrom(KeyFor(strategy, oracle), Flatten(data.artists, orders), data.concerts)
  {
    var cities := CityList(artistsView);
    data := IndexPageData(artistsView, [], cities);
    if isPost && recherche != "" {
      data := SearchGroup(recherche, data);
    }
    orders := [];
    var concerts := [];
    match SortStrategy(sortBy) {
      case Some(ByCity) =>
        concerts, orders := SortConcertsByCity(data.artists, oracle);
      case Some(ByDate) =>
        concerts, orders := SortConcertsByDate(data.artists, oracle);
      case Some(ByGenre) =>
        concerts, orders := SortConcertsByGenre(data.artists, oracle);
      case Some(ByName) =>
        concerts, orders := SortConcertsByName(data.artists);
      case None =>
    }
    data := data.(concerts := concerts);
  }
}
