/**
 * The city list of the "/" page: every non-empty location named in any view's
 * locations or relation keys, once each, in ascending string order.
 */
module Cities {
  import opened GoStrings
  import opened Keys
  import opened StableSort
  import opened Views
  import opened Concerts

  /** The non-empty cities one view contributes. */
  function ArtistCities(a: ArtistView): set<string> {
    (set loc | loc in a.locations && loc != "") + (set loc | loc in a.rel && loc != "")
  }

  /** The set `citiesMap` holds once every view has been visited. */
  function CitySet(artists: seq<ArtistView>): (r: set<string>)
    ensures "" !in r
  {
    if artists == [] then {}
    else CitySet(artists[..|artists| - 1]) + ArtistCities(artists[|artists| - 1])
  }

  /** A city belongs to the set exactly when some view lists it as a location or a
      relation key, and it is not empty. */
  lemma {:induction false} CitySetMembers(artists: seq<ArtistView>, c: string)
    ensures c in CitySet(artists) <==>
      c != "" && exists i :: 0 <= i < |artists| && (c in artists[i].locations || c in artists[i].rel)
  {
    if artists != [] {
      var init := artists[..|artists| - 1];
      CitySetMembers(init, c);
      if c in CitySet(artists) && c !in ArtistCities(artists[|artists| - 1]) {
        var i :| 0 <= i < |init| && (c in init[i].locations || c in init[i].rel);
        assert artists[i] == init[i];
      }
      if c != "" && exists i :: 0 <= i < |artists| && (c in artists[i].locations || c in artists[i].rel) {
        var i :| 0 <= i < |artists| && (c in artists[i].locations || c in artists[i].rel);
        if i < |init| {
          assert init[i] == artists[i];
        }
      }
    }
  }

  predicate StrictlySorted(s: seq<string>) {
    forall i, j :: 0 <= i < j < |s| ==> StrLess(s[i], s[j])
  }

  function CityKeyFn(): string -> Key {
    c => [Text(c)]
  }

  /** Adds the non-empty locations and relation keys of one view to `citiesMap`. */
  method AddArtistCities(citiesMap: set<string>, a: ArtistView) returns (r: set<string>)
    ensures r == citiesMap + ArtistCities(a)
  {
    r := citiesMap;
    for j := 0 to |a.locations|
      invariant r == citiesMap + (set loc | loc in a.locations[..j] && loc != "")
    {
      assert a.locations[..j + 1] == a.locations[..j] + [a.locations[j]];
      if a.locations[j] != "" {
        r := r + {a.locations[j]};
      }
    }
    assert a.locations[..|a.locations|] == a.locations;
    var remaining := a.rel.Keys;
    while remaining != {}
      invariant remaining <= a.rel.Keys
      invariant r == citiesMap + (set loc | loc in a.locations && loc != "")
                     + (set loc | loc in a.rel.Keys - remaining && loc != "")
      decreases |remaining|
    {
      var loc :| loc in remaining;
      if loc != "" {
        r := r + {loc};
      }
      remaining := remaining - {loc};
    }
  }

  /** The key set of `citiesMap` once every view has been visited. */
  method CollectCities(artists: seq<ArtistView>) returns (citiesMap: set<string>)
    ensures citiesMap == CitySet(artists)
  {
    citiesMap := {};
    for i := 0 to |artists|
      invariant citiesMap == CitySet(artists[..i])
    {
      assert artists[..i + 1][..i] == artists[..i];
      citiesMap := AddArtistCities(citiesMap, artists[i]);
    }
    assert artists[..|artists|] == artists;
  }

  /** `for c := range citiesMap { cities = append(cities, c) }`, in some map order. */
  method MapKeys(citiesMap: set<string>) returns (collected: seq<string>)
    ensures forall c :: c in collected <==> c in citiesMap
    ensures Distinct(collected)
  {
    collected := [];
    var rest := citiesMap;
    while rest != {}
      invariant rest <= citiesMap
      invariant forall c :: c in collected <==> c in citiesMap - rest
      invariant Distinct(collected)
      decreases |rest|
    {
      var c :| c in rest;
      collected := collected + [c];
      rest := rest - {c};
    }
  }

  /** Builds `citiesMap`, collects its keys in map order and sort.Strings them. */
  method CityList(artists: seq<ArtistView>) returns (cities: seq<string>)
    ensures forall c :: c in cities <==> c in CitySet(artists)
    ensures StrictlySorted(cities)
  {
    var citiesMap := CollectCities(artists);
    var collected := MapKeys(citiesMap);
    var less := (x: string, y: string) => StrLess(x, y);
    forall x, y ensures less(x, y) == KeyLess(CityKeyFn()(x), CityKeyFn()(y)) {
      KeyLess1(Text(x), Text(y));
    }
    cities := SortedSlice(collected, less, CityKeyFn());
    DistinctPermutation(collected, cities);
    forall i, j | 0 <= i < j < |cities| ensures StrLess(cities[i], cities[j]) {
      KeyLess1(Text(cities[j]), Text(cities[i]));
      StrLessTotal(cities[i], cities[j]);
    }
    forall c ensures c in cities <==> c in collected {
      assert c in cities <==> c in multiset(cities);
      assert c in collected <==> c in multiset(collected);
    }
  }

  /** A permutation of a sequence without duplicates has none either. */
  lemma DistinctPermutation<T>(s: seq<T>, r: seq<T>)
    requires Distinct(s) && multiset(r) == multiset(s)
    ensures Distinct(r)
  {
    DistinctCounts(s);
    CountsDistinct(r);
  }

  lemma {:induction false} DistinctCounts<T>(s: seq<T>)
    requires Distinct(s)
    ensures forall x :: multiset(s)[x] <= 1
  {
    if s != [] {
      var init := s[..|s| - 1];
      assert s == init + [s[|s| - 1]];
      DistinctCounts(init);
      assert s[|s| - 1] !in init;
    }
  }

  lemma {:induction false} CountsDistinct<T>(s: seq<T>)
    requires forall x :: multiset(s)[x] <= 1
    ensures Distinct(s)
  {
    if s != [] {
      var init, last := s[..|s| - 1], s[|s| - 1];
      assert s == init + [last];
      assert multiset(s) == multiset(init) + multiset{last};
      forall x ensures multiset(init)[x] <= 1 {
        assert multiset(init)[x] <= multiset(s)[x];
      }
      CountsDistinct(init);
      assert multiset(s)[last] == multiset(init)[last] + 1;
      assert multiset(init)[last] == 0;
      assert last !in init;
      forall i, j | 0 <= i < j < |s| ensures s[i] != s[j] {
        if j < |init| {
          assert s[i] == init[i] && s[j] == init[j];
        } else {
          assert s[i] == init[i];
        }
      }
    }
  }

  /** Two strictly sorted lists with the same members are the same list, so the
      city list is determined by the views alone, whatever the map order. */
  lemma {:induction false} StrictlySortedUnique(s: seq<string>, t: seq<string>)
    requires StrictlySorted(s) && StrictlySorted(t)
    requires forall c :: c in s <==> c in t
    ensures s == t
  {
    assert s != [] ==> s[0] in t;
    assert t != [] ==> t[0] in s;
    if s != [] && t != [] {
      HeadsEqual(s, t);
      forall c ensures c in s[1..] <==> c in t[1..] {
        if c in s[1..] {
          var k :| 0 <= k < |s[1..]| && s[1..][k] == c;
          assert s[k + 1] == c;
          StrLessIrreflexive(s[0]);
          assert c != t[0] && c in t;
          var m :| 0 <= m < |t| && t[m] == c;
          assert t[1..][m - 1] == c;
        }
        if c in t[1..] {
          var k :| 0 <= k < |t[1..]| && t[1..][k] == c;
          assert t[k + 1] == c;
          StrLessIrreflexive(t[0]);
          assert c != s[0] && c in s;
          var m :| 0 <= m < |s| && s[m] == c;
          assert s[1..][m - 1] == c;
        }
      }
      StrictlySortedUnique(s[1..], t[1..]);
      assert s == [s[0]] + s[1..] && t == [t[0]] + t[1..];
    }
  }

  lemma HeadsEqual(s: seq<string>, t: seq<string>)
    requires StrictlySorted(s) && StrictlySorted(t)
    requires forall c :: c in s <==> c in t
    requires s != [] && t != []
    ensures s[0] == t[0]
  {
    assert s[0] in t && t[0] in s;
    var i :| 0 <= i < |t| && t[i] == s[0];
    var j :| 0 <= j < |s| && s[j] == t[0];
    if i != 0 {
      assert StrLess(t[0], t[i]);
    }
    if j != 0 {
      assert StrLess(s[0], s[j]);
    }
    StrLessAsymmetric(s[0], t[0]);
  }
}
