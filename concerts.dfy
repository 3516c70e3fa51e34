/**
 * buildConcerts: every artist's relation (location -> dates) expanded into one
 * concert record per (location, date) entry.
 *
 * Go visits the keys of a map in an unspecified order. The method below picks
 * the next key arbitrarily, and its ghost result `orders` records the order it
 * used: `orders[i]` enumerates the locations of `artists[i]`. Every property
 * proved here holds for every such enumeration.
 */
module Concerts {
  import opened Views

  function FirstGenre(genres: seq<string>): string {
    if |genres| == 0 then "" else genres[0]
  }

  /** The record for artist `a` playing at `loc` on `d`. */
  function MakeConcert(a: ArtistView, loc: string, d: string): ConcertView {
    ConcertView(a.name, a.image, a.id, loc, d, FirstGenre(a.genres))
  }

  predicate Distinct<T(==)>(s: seq<T>) {
    forall i, j :: 0 <= i < j < |s| ==> s[i] != s[j]
  }

  /** `keys` lists every element of `ks` exactly once. */
  ghost predicate Enumerates(keys: seq<string>, ks: set<string>) {
    Distinct(keys) && forall k :: k in keys <==> k in ks
  }

  /** `orders` is an iteration order of every artist's relation. */
  ghost predicate ValidOrders(artists: seq<ArtistView>, orders: seq<seq<string>>) {
    |orders| == |artists| && forall i :: 0 <= i < |artists| ==> Enumerates(orders[i], artists[i].rel.Keys)
  }

  /** The records of one location, in the order of its dates. */
  function LocationConcerts(a: ArtistView, loc: string, dates: seq<string>): seq<ConcertView> {
    seq(|dates|, j requires 0 <= j < |dates| => MakeConcert(a, loc, dates[j]))
  }

  /** The records of one artist, its locations visited in the order `keys`. */
  function ArtistConcerts(a: ArtistView, keys: seq<string>): seq<ConcertView>
    requires forall k :: k in keys ==> k in a.rel
  {
    if keys == [] then []
    else ArtistConcerts(a, keys[..|keys| - 1]) + LocationConcerts(a, keys[|keys| - 1], a.rel[keys[|keys| - 1]])
  }

  /** The flattened records of all artists, in artist order. */
  function Flatten(artists: seq<ArtistView>, orders: seq<seq<string>>): seq<ConcertView>
    requires ValidOrders(artists, orders)
  {
    if artists == [] then []
    else
      var n := |artists| - 1;
      assert ValidOrders(artists[..n], orders[..n]) by {
        forall i | 0 <= i < n ensures Enumerates(orders[..n][i], artists[..n][i].rel.Keys) {
          assert orders[..n][i] == orders[i] && artists[..n][i] == artists[i];
        }
      }
      Flatten(artists[..n], orders[..n]) + ArtistConcerts(artists[n], orders[n])
  }

  /** buildConcerts(artists) */
  method BuildConcerts(artists: seq<ArtistView>) returns (out: seq<ConcertView>, ghost orders: seq<seq<string>>)
    ensures ValidOrders(artists, orders)
    ensures out == Flatten(artists, orders)
    ensures |out| == TotalDates(artists) && multiset(out) == TotalBag(artists)
  {
    out, orders := [], [];
    for i := 0 to |artists|
      invariant ValidOrders(artists[..i], orders)
      invariant out == Flatten(artists[..i], orders)
    {
      var a := artists[i];
      ghost var keys: seq<string> := [];
      ghost var before := out;
      var remaining := a.rel.Keys;
      while remaining != {}
        invariant remaining <= a.rel.Keys
        invariant Enumerates(keys, a.rel.Keys - remaining)
        invariant out == before + ArtistConcerts(a, keys)
        decreases remaining
      {
        var loc :| loc in remaining;
        var dates := a.rel[loc];
        ghost var mid := out;
        for j := 0 to |dates|
          invariant out == mid + LocationConcerts(a, loc, dates[..j])
        {
          assert LocationConcerts(a, loc, dates[..j + 1]) == LocationConcerts(a, loc, dates[..j]) + [MakeConcert(a, loc, dates[j])];
          out := out + [MakeConcert(a, loc, dates[j])];
        }
        assert dates[..|dates|] == dates;
        remaining := remaining - {loc};
        keys := keys + [loc];
        assert keys[..|keys| - 1] == keys[..|keys| - 1];
      }
      assert artists[..i + 1][..i] == artists[..i];
      orders := orders + [keys];
      assert orders[..i] == orders[..i];
    }
    assert artists[..|artists|] == artists;
    FlattenContent(artists, orders);
  }

  // ---------------------------------------------------------------------------
  // What the flattening contains, independently of the iteration order

  /** The number of dates under the locations `ks` of `rel`, summed in no particular order. */
  ghost function DateCount(rel: Relation, ks: set<string>): nat
    requires ks <= rel.Keys
    decreases ks
  {
    if ks == {} then 0 else var k :| k in ks; |rel[k]| + DateCount(rel, ks - {k})
  }

  /** The records of the locations `ks` of artist `a`, as a bag. */
  ghost function ConcertBag(a: ArtistView, ks: set<string>): multiset<ConcertView>
    requires ks <= a.rel.Keys
    decreases ks
  {
    if ks == {} then multiset{}
    else var k :| k in ks; multiset(LocationConcerts(a, k, a.rel[k])) + ConcertBag(a, ks - {k})
  }

  lemma DateCountRemove(rel: Relation, ks: set<string>, k: string)
    requires ks <= rel.Keys && k in ks
    ensures DateCount(rel, ks) == |rel[k]| + DateCount(rel, ks - {k})
    decreases ks
  {
    var j :| j in ks && DateCount(rel, ks) == |rel[j]| + DateCount(rel, ks - {j});
    if j != k {
      DateCountRemove(rel, ks - {j}, k);
      DateCountRemove(rel, ks - {k}, j);
      assert ks - {j} - {k} == ks - {k} - {j};
    }
  }

  lemma ConcertBagRemove(a: ArtistView, ks: set<string>, k: string)
    requires ks <= a.rel.Keys && k in ks
    ensures ConcertBag(a, ks) == multiset(LocationConcerts(a, k, a.rel[k])) + ConcertBag(a, ks - {k})
    decreases ks
  {
    var j :| j in ks && ConcertBag(a, ks) == multiset(LocationConcerts(a, j, a.rel[j])) + ConcertBag(a, ks - {j});
    if j != k {
      ConcertBagRemove(a, ks - {j}, k);
      ConcertBagRemove(a, ks - {k}, j);
      assert ks - {j} - {k} == ks - {k} - {j};
    }
  }

  /** Whatever the order of its locations, an artist yields one record per date
      entry of its relation, and always the same bag of records. */
  lemma {:induction false} ArtistConcertsContent(a: ArtistView, keys: seq<string>, ks: set<string>)
    requires ks <= a.rel.Keys && Enumerates(keys, ks)
    ensures |ArtistConcerts(a, keys)| == DateCount(a.rel, ks)
    ensures multiset(ArtistConcerts(a, keys)) == ConcertBag(a, ks)
  {
    if keys != [] {
      var init, last := keys[..|keys| - 1], keys[|keys| - 1];
      assert keys == init + [last];
      assert Enumerates(init, ks - {last}) by {
        forall k ensures k in init <==> k in ks - {last} {
          if k in init {
            var i :| 0 <= i < |init| && init[i] == k;
            assert keys[i] == k && keys[|keys| - 1] == last;
          }
        }
      }
      ArtistConcertsContent(a, init, ks - {last});
      DateCountRemove(a.rel, ks, last);
      ConcertBagRemove(a, ks, last);
    } else {
      assert forall k :: k !in ks;
    }
  }

  /** The records over all artists, summed over the artists. */
  ghost function TotalDates(artists: seq<ArtistView>): nat {
    if artists == [] then 0
    else TotalDates(artists[..|artists| - 1]) + DateCount(artists[|artists| - 1].rel, artists[|artists| - 1].rel.Keys)
  }

  ghost function TotalBag(artists: seq<ArtistView>): multiset<ConcertView> {
    if artists == [] then multiset{}
    else TotalBag(artists[..|artists| - 1]) + ConcertBag(artists[|artists| - 1], artists[|artists| - 1].rel.Keys)
  }

  /** buildConcerts emits exactly TotalDates(artists) records, and the same bag of
      records for every iteration order; an artist with an empty relation adds nothing. */
  lemma {:induction false} FlattenContent(artists: seq<ArtistView>, orders: seq<seq<string>>)
    requires ValidOrders(artists, orders)
    ensures |Flatten(artists, orders)| == TotalDates(artists)
    ensures multiset(Flatten(artists, orders)) == TotalBag(artists)
  {
    if artists != [] {
      var n := |artists| - 1;
      assert ValidOrders(artists[..n], orders[..n]) by {
        forall i | 0 <= i < n ensures Enumerates(orders[..n][i], artists[..n][i].rel.Keys) {
          assert orders[..n][i] == orders[i] && artists[..n][i] == artists[i];
        }
      }
      FlattenContent(artists[..n], orders[..n]);
      ArtistConcertsContent(artists[n], orders[n], artists[n].rel.Keys);
    }
  }

  /** Two iteration orders give the same records, possibly in a different order. */
  lemma FlattenOrderIrrelevant(artists: seq<ArtistView>, o1: seq<seq<string>>, o2: seq<seq<string>>)
    requires ValidOrders(artists, o1) && ValidOrders(artists, o2)
    ensures multiset(Flatten(artists, o1)) == multiset(Flatten(artists, o2))
  {
    FlattenContent(artists, o1);
    FlattenContent(artists, o2);
  }

  /** The records of one artist are exactly its (location, date) entries. */
  lemma {:induction false} ArtistConcertsMembers(a: ArtistView, keys: seq<string>, c: ConcertView)
    requires forall k :: k in keys ==> k in a.rel
    ensures c in ArtistConcerts(a, keys) <==>
      exists loc, j :: loc in keys && 0 <= j < |a.rel[loc]| && c == MakeConcert(a, loc, a.rel[loc][j])
  {
    if keys != [] {
      var init, last := keys[..|keys| - 1], keys[|keys| - 1];
      ArtistConcertsMembers(a, init, c);
      var lc := LocationConcerts(a, last, a.rel[last]);
      if c in lc {
        var j :| 0 <= j < |lc| && lc[j] == c;
        assert c == MakeConcert(a, last, a.rel[last][j]);
      }
      if exists loc, j :: loc in keys && 0 <= j < |a.rel[loc]| && c == MakeConcert(a, loc, a.rel[loc][j]) {
        var loc, j :| loc in keys && 0 <= j < |a.rel[loc]| && c == MakeConcert(a, loc, a.rel[loc][j]);
        if loc == last {
          assert lc[j] == c;
        } else {
          assert loc in init by {
            var i :| 0 <= i < |keys| && keys[i] == loc;
            assert i < |keys| - 1 && init[i] == loc;
          }
        }
      }
    }
  }

  /** Every record comes from one (artist, location, date) entry and every entry
      gives a record: the artist's id, name, image and first genre, the raw
      location and the raw date. */
  lemma {:induction false} FlattenMembers(artists: seq<ArtistView>, orders: seq<seq<string>>, c: ConcertView)
    requires ValidOrders(artists, orders)
    ensures c in Flatten(artists, orders) <==>
      exists i, loc, j :: 0 <= i < |artists| && loc in artists[i].rel && 0 <= j < |artists[i].rel[loc]|
        && c == MakeConcert(artists[i], loc, artists[i].rel[loc][j])
  {
    if artists != [] {
      var n := |artists| - 1;
      assert ValidOrders(artists[..n], orders[..n]) by {
        forall i | 0 <= i < n ensures Enumerates(orders[..n][i], artists[..n][i].rel.Keys) {
          assert orders[..n][i] == orders[i] && artists[..n][i] == artists[i];
        }
      }
      FlattenMembers(artists[..n], orders[..n], c);
      ArtistConcertsMembers(artists[n], orders[n], c);
      if (exists i, loc, j :: 0 <= i < |artists| && loc in artists[i].rel && 0 <= j < |artists[i].rel[loc]|
            && c == MakeConcert(artists[i], loc, artists[i].rel[loc][j])) {
        var i, loc, j :| 0 <= i < |artists| && loc in artists[i].rel && 0 <= j < |artists[i].rel[loc]|
          && c == MakeConcert(artists[i], loc, artists[i].rel[loc][j]);
        if i < n {
          assert artists[..n][i] == artists[i];
        } else {
          assert loc in orders[n];
        }
      }
    }
  }
}
