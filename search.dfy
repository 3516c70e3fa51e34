/** searchGroup: the artists whose name equals the query up to case. */
module Search {
  import opened GoStrings
  import opened Views

  /** The in-order subsequence of `artists` whose name case-folds to `query`. */
  function Matching(artists: seq<ArtistView>, query: string): seq<ArtistView> {
    if artists == [] then []
    else
      var last := artists[|artists| - 1];
      Matching(artists[..|artists| - 1], query) + (if EqualFold(last.name, query) then [last] else [])
  }

  /** An artist is kept exactly when its name equals the query up to ASCII case,
      so a name is never matched by a proper prefix or other substring of it. */
  lemma {:induction false} MatchingMembers(artists: seq<ArtistView>, query: string, v: ArtistView)
    ensures v in Matching(artists, query) <==> v in artists && Lower(v.name) == Lower(query)
    ensures v in Matching(artists, query) ==> |v.name| == |query|
  {
    EqualFoldIsLowerEquality(v.name, query);
    if artists != [] {
      var init := artists[..|artists| - 1];
      assert artists == init + [artists[|artists| - 1]];
      MatchingMembers(init, query, v);
    }
  }

  /** searchGroup(query, data): a fresh page holding only the matching artists;
      the concerts and cities of `data` are dropped. */
  method SearchGroup(query: string, data: IndexPageData) returns (r: IndexPageData)
    ensures r.artists == Matching(data.artists, query)
    ensures r.concerts == [] && r.cities == []
  {
    var result: seq<ArtistView> := [];
    for i := 0 to |data.artists|
      invariant result == Matching(data.artists[..i], query)
    {
      assert data.artists[..i + 1][..i] == data.artists[..i];
      if EqualFold(data.artists[i].name, query) {
        result := result + [data.artists[i]];
      }
    }
    assert data.artists[..|data.artists|] == data.artists;
    return IndexPageData(result, [], []);
  }

  /** The query "Queen" finds the artist "queen"; the query "Que" finds nothing. */
  lemma SearchExamples(v: ArtistView)
    requires v.name == "queen"
    ensures Matching([v], "Queen") == [v]
    ensures Matching([v], "Que") == []
  {
    assert [v][..0] == [];
    assert EqualFold("queen", "Queen");
    assert !EqualFold("queen", "Que");
  }
}
