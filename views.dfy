/**
 * The records of the pipeline: the decoded feeds, the joined per-artist view,
 * the flattened concert record and the two page models handed to templates.
 * Go's nil and empty slices (and nil and empty maps) are both the empty value.
 */
module Views {

  /** One element of the artists feed. */
  datatype Artist = Artist(
    id: int, name: string, image: string, members: seq<string>,
    creationDate: int, firstAlbum: string, genres: seq<string>)

  /** One element of the `index` array of the dates, locations or relation feed. */
  datatype Entry<V> = Entry(id: int, payload: V)

  type DatesEntry = Entry<seq<string>>
  type LocationsEntry = Entry<seq<string>>
  /** Location -> the dates played there. */
  type Relation = map<string, seq<string>>
  type RelationEntry = Entry<Relation>

  /** An artist joined with its dates, locations and relation. */
  datatype ArtistView = ArtistView(
    id: int, name: string, image: string, members: seq<string>,
    creationDate: int, firstAlbum: string, genres: seq<string>,
    locations: seq<string>, dates: seq<string>, rel: Relation)

  /** One concert: one (location, date) pair of one artist. */
  datatype ConcertView = ConcertView(
    artistName: string, artistImage: string, artistID: int,
    location: string, date: string, genre: string)

  /** What the "/" page renders. */
  datatype IndexPageData = IndexPageData(
    artists: seq<ArtistView>, concerts: seq<ConcertView>, cities: seq<string>)

  /** What the "/index2" detail page renders. */
  datatype Index2Data = Index2Data(
    artistName: string, artistImage: string, members: seq<string>,
    creationDate: int, firstAlbum: string, genres: seq<string>,
    locations: seq<string>, dates: seq<string>, rel: Relation)

  /** The zero value of Index2Data. */
  const EmptyDetail := Index2Data("", "", [], 0, "", [], [], [], map[])

  /** How fetching a feed can fail: the transport, a non-200 status, or the JSON decoder. */
  datatype FetchError = Transport(message: string) | Status(code: int, body: string) | Decode(message: string)
}
