/**
 * loadArtistsView: the artists feed left-joined, by artist id, with the dates,
 * locations and relation feeds, in ascending name order. Fetching is not
 * modelled: each feed arrives already decoded, or as the error its fetch gave.
 */
module Join {
  import opened Wrappers
  import opened GoStrings
  import opened Keys
  import opened StableSort
  import opened Views

  /** The id -> payload map that assigning every entry of `feed` in turn produces:
      an id is present exactly when some entry carries it, and the last such entry wins. */
  function LookupOf<V>(feed: seq<Entry<V>>): (m: map<int, V>)
    ensures forall id :: id in m <==> exists i :: 0 <= i < |feed| && feed[i].id == id
    ensures forall i :: 0 <= i < |feed| && (forall j :: i < j < |feed| ==> feed[j].id != feed[i].id)
                ==> feed[i].id in m && m[feed[i].id] == feed[i].payload
  {
    if feed == [] then map[]
    else
      var init, last := feed[..|feed| - 1], feed[|feed| - 1];
      assert forall i :: 0 <= i < |init| ==> init[i] == feed[i];
      LookupOf(init)[last.id := last.payload]
  }

  /** The loop that fills datesByID, locsByID or relByID. */
  method BuildLookup<V>(feed: seq<Entry<V>>) returns (m: map<int, V>)
    ensures m == LookupOf(feed)
  {
    m := map[];
    for i := 0 to |feed|
      invariant m == LookupOf(feed[..i])
    {
      assert feed[..i + 1][..i] == feed[..i];
      m := m[feed[i].id := feed[i].payload];
    }
    assert feed[..|feed|] == feed;
  }

  /** m[id] in Go: the stored value, or the zero value `none`. */
  function Get<V>(m: map<int, V>, id: int, none: V): V {
    if id in m then m[id] else none
  }

  /** The view of artist `a`: its own fields, plus what the lookups hold for its id,
      or nothing. */
  function ViewOf(a: Artist, datesByID: map<int, seq<string>>, locsByID: map<int, seq<string>>,
                  relByID: map<int, Relation>): ArtistView
  {
    ArtistView(a.id, a.name, a.image, a.members, a.creationDate, a.firstAlbum, a.genres,
               Get(locsByID, a.id, []), Get(datesByID, a.id, []), Get(relByID, a.id, map[]))
  }

  /** The join is a left join: a view copies its artist's own fields, and takes its
      dates, locations and relation from the last feed entry with the artist's id,
      or empty collections when there is none. */
  lemma ViewOfJoin(a: Artist, d: seq<DatesEntry>, l: seq<LocationsEntry>, rl: seq<RelationEntry>)
    ensures var v := ViewOf(a, LookupOf(d), LookupOf(l), LookupOf(rl));
      && v.id == a.id && v.name == a.name && v.image == a.image && v.members == a.members
      && v.creationDate == a.creationDate && v.firstAlbum == a.firstAlbum && v.genres == a.genres
      && v.dates == LastPayload(d, a.id, []) && v.locations == LastPayload(l, a.id, [])
      && v.rel == LastPayload(rl, a.id, map[])
  {
    LastPayloadIsLookup(d, a.id, []);
    LastPayloadIsLookup(l, a.id, []);
    LastPayloadIsLookup(rl, a.id, map[]);
  }

  /** The payload of the last entry of `feed` with the given id, found by a scan from
      the back; `none` when there is no such entry. */
  function LastPayload<V>(feed: seq<Entry<V>>, id: int, none: V): (r: V)
    ensures (forall i :: 0 <= i < |feed| ==> feed[i].id != id) ==> r == none
    ensures forall i :: 0 <= i < |feed| && feed[i].id == id && (forall j :: i < j < |feed| ==> feed[j].id != id)
                ==> r == feed[i].payload
  {
    if feed == [] then none
    else if feed[|feed| - 1].id == id then feed[|feed| - 1].payload
    else
      assert forall i :: 0 <= i < |feed| - 1 ==> feed[..|feed| - 1][i] == feed[i];
      LastPayload(feed[..|feed| - 1], id, none)
  }

  /** The lookup map agrees with the backwards scan. */
  lemma {:induction false} LastPayloadIsLookup<V>(feed: seq<Entry<V>>, id: int, none: V)
    ensures Get(LookupOf(feed), id, none) == LastPayload(feed, id, none)
  {
    if feed != [] {
      LastPayloadIsLookup(feed[..|feed| - 1], id, none);
    }
  }

  function ArtistNameKey(): Artist -> Key {
    (a: Artist) => [Text(a.name)]
  }

  /** loadArtistsView(): fails with the first failing feed, in the order artists,
      dates, locations, relation; otherwise one view per artist, sorted by name. */
  method LoadArtistsView(artistsFeed: Result<seq<Artist>, FetchError>,
                         datesFeed: Result<seq<DatesEntry>, FetchError>,
                         locationsFeed: Result<seq<LocationsEntry>, FetchError>,
                         relationFeed: Result<seq<RelationEntry>, FetchError>)
    returns (r: Result<seq<ArtistView>, FetchError>, ghost sorted: seq<Artist>)
    ensures artistsFeed.Failure? ==> r == Failure(artistsFeed.error)
    ensures artistsFeed.Success? && datesFeed.Failure? ==> r == Failure(datesFeed.error)
    ensures artistsFeed.Success? && datesFeed.Success? && locationsFeed.Failure?
      ==> r == Failure(locationsFeed.error)
    ensures artistsFeed.Success? && datesFeed.Success? && locationsFeed.Success? && relationFeed.Failure?
      ==> r == Failure(relationFeed.error)
    ensures r.Success? <==>
      artistsFeed.Success? && datesFeed.Success? && locationsFeed.Success? && relationFeed.Success?
    ensures r.Success? ==>
      && multiset(sorted) == multiset(artistsFeed.value)
      && (forall i, j :: 0 <= i < j < |sorted| ==> !StrLess(sorted[j].name, sorted[i].name))
      && |r.value| == |sorted|
      && (forall k :: 0 <= k < |sorted| ==>
            r.value[k] == ViewOf(sorted[k], LookupOf(datesFeed.value), LookupOf(locationsFeed.value),
                                 LookupOf(relationFeed.value)))
  {
    sorted := [];
    if artistsFeed.Failure? {
      return Failure(artistsFeed.error), sorted;
    }
    if datesFeed.Failure? {
      return Failure(datesFeed.error), sorted;
    }
    if locationsFeed.Failure? {
      return Failure(locationsFeed.error), sorted;
    }
    if relationFeed.Failure? {
      return Failure(relationFeed.error), sorted;
    }
    var datesByID := BuildLookup(datesFeed.value);
    var locsByID := BuildLookup(locationsFeed.value);
    var relByID := BuildLookup(relationFeed.value);

    var less := (x: Artist, y: Artist) => StrLess(x.name, y.name);
    forall x, y ensures less(x, y) == KeyLess(ArtistNameKey()(x), ArtistNameKey()(y)) {
      KeyLess1(Text(x.name), Text(y.name));
    }
    var artists := SortedSlice(artistsFeed.value, less, ArtistNameKey());
    forall i, j | 0 <= i < j < |artists| ensures !StrLess(artists[j].name, artists[i].name) {
      KeyLess1(Text(artists[j].name), Text(artists[i].name));
    }
    sorted := artists;

    var out: seq<ArtistView> := [];
    for k := 0 to |artists|
      invariant |out| == k
      invariant forall p :: 0 <= p < k ==> out[p] == ViewOf(artists[p], datesByID, locsByID, relByID)
    {
      out := out + [ViewOf(artists[k], datesByID, locsByID, relByID)];
    }
    return Success(out), sorted;
  }
}
