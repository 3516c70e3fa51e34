/**
 * The less-functions handed to sort.SliceStable by sortConcertsByDate, ByGenre,
 * ByName and ByCity, written as the Go closures are written, and the key chain
 * each one amounts to.
 */
module Comparators {
  import opened Wrappers
  import opened GoStrings
  import opened Keys
  import opened Dates
  import opened Views

  /** normalizeCity: trimmed, then lower-cased. */
  function NormalizeCity(s: string): string {
    Lower(TrimSpace(s))
  }

  /** The normal form is stable: normalizing again changes nothing. */
  lemma NormalizeCityIdempotent(s: string)
    ensures NormalizeCity(NormalizeCity(s)) == NormalizeCity(s)
  {
    TrimSpaceLower(TrimSpace(s));
    TrimSpaceIdempotent(s);
    LowerIdempotent(TrimSpace(s));
  }

  /** Strings differing only in ASCII case and surrounding white space normalize alike. */
  lemma NormalizeCityIgnoresCaseAndSpace(s: string, t: string)
    requires EqualFold(TrimSpace(s), TrimSpace(t))
    ensures NormalizeCity(s) == NormalizeCity(t)
  {
    EqualFoldIsLowerEquality(TrimSpace(s), TrimSpace(t));
  }

  /** sortConcertsByDate's less: date, then normalized location, then lower-cased name. */
  predicate LessByDate(oracle: Oracle, x: ConcertView, y: ConcertView) {
    match DateTieBreak(oracle, x.date, y.date)
    case Some(b) => b
    case None =>
      var li, lj := NormalizeCity(x.location), NormalizeCity(y.location);
      if li != lj then StrLess(li, lj)
      else StrLess(Lower(x.artistName), Lower(y.artistName))
  }

  /** sortConcertsByGenre's less: trimmed lower-cased genre, then date, then lower-cased name. */
  predicate LessByGenre(oracle: Oracle, x: ConcertView, y: ConcertView) {
    var gi, gj := Lower(TrimSpace(x.genre)), Lower(TrimSpace(y.genre));
    if gi != gj then StrLess(gi, gj)
    else match DateTieBreak(oracle, x.date, y.date)
      case Some(b) => b
      case None => StrLess(Lower(x.artistName), Lower(y.artistName))
  }

  /** sortConcertsByName's less: lower-cased name. */
  predicate LessByName(x: ConcertView, y: ConcertView) {
    StrLess(Lower(x.artistName), Lower(y.artistName))
  }

  /** sortConcertsByCity's less: normalized location, then date, then lower-cased name. */
  predicate LessByCity(oracle: Oracle, x: ConcertView, y: ConcertView) {
    var ci, cj := NormalizeCity(x.location), NormalizeCity(y.location);
    if ci != cj then StrLess(ci, cj)
    else match DateTieBreak(oracle, x.date, y.date)
      case Some(b) => b
      case None => StrLess(Lower(x.artistName), Lower(y.artistName))
  }

  function DateKey(oracle: Oracle, c: ConcertView): Key {
    [DatePart(oracle, c.date), Text(NormalizeCity(c.location)), Text(Lower(c.artistName))]
  }

  function GenreKey(oracle: Oracle, c: ConcertView): Key {
    [Text(Lower(TrimSpace(c.genre))), DatePart(oracle, c.date), Text(Lower(c.artistName))]
  }

  function NameKey(c: ConcertView): Key {
    [Text(Lower(c.artistName))]
  }

  function CityKey(oracle: Oracle, c: ConcertView): Key {
    [Text(NormalizeCity(c.location)), DatePart(oracle, c.date), Text(Lower(c.artistName))]
  }

  /** A chain that starts with the date tie-break is the key order of [date, text, text]. */
  lemma DateFirstChain(tb: Option<bool>, pa: Part, pb: Part, l1: string, l2: string, n1: string, n2: string)
    requires tb == if pa == pb then None else Some(PartLess(pa, pb))
    ensures (match tb
             case Some(b) => b
             case None => if l1 != l2 then StrLess(l1, l2) else StrLess(n1, n2))
            == KeyLess([pa, Text(l1), Text(n1)], [pb, Text(l2), Text(n2)])
  {
    PartLessIrreflexive(pa);
    StrLessIrreflexive(l1);
    KeyLess3(pa, Text(l1), Text(n1), pb, Text(l2), Text(n2));
  }

  /** A chain that starts with a string and then the date tie-break is the key order
      of [text, date, text]. */
  lemma TextFirstChain(g1: string, g2: string, tb: Option<bool>, pa: Part, pb: Part, n1: string, n2: string)
    requires tb == if pa == pb then None else Some(PartLess(pa, pb))
    ensures (if g1 != g2 then StrLess(g1, g2)
             else match tb
               case Some(b) => b
               case None => StrLess(n1, n2))
            == KeyLess([Text(g1), pa, Text(n1)], [Text(g2), pb, Text(n2)])
  {
    StrLessIrreflexive(g1);
    PartLessIrreflexive(pa);
    KeyLess3(Text(g1), pa, Text(n1), Text(g2), pb, Text(n2));
  }

  /** sortConcertsByDate's less is the lexicographic order of DateKey. */
  lemma ByDateOrder(oracle: Oracle, x: ConcertView, y: ConcertView)
    ensures LessByDate(oracle, x, y) == KeyLess(DateKey(oracle, x), DateKey(oracle, y))
  {
    DateTieBreakIsPartOrder(oracle, x.date, y.date);
    DateFirstChain(DateTieBreak(oracle, x.date, y.date), DatePart(oracle, x.date), DatePart(oracle, y.date),
                   NormalizeCity(x.location), NormalizeCity(y.location), Lower(x.artistName), Lower(y.artistName));
  }

  /** sortConcertsByGenre's less is the lexicographic order of GenreKey. */
  lemma ByGenreOrder(oracle: Oracle, x: ConcertView, y: ConcertView)
    ensures LessByGenre(oracle, x, y) == KeyLess(GenreKey(oracle, x), GenreKey(oracle, y))
  {
    DateTieBreakIsPartOrder(oracle, x.date, y.date);
    TextFirstChain(Lower(TrimSpace(x.genre)), Lower(TrimSpace(y.genre)), DateTieBreak(oracle, x.date, y.date),
                   DatePart(oracle, x.date), DatePart(oracle, y.date), Lower(x.artistName), Lower(y.artistName));
  }

  /** sortConcertsByName's less is the lexicographic order of NameKey. */
  lemma ByNameOrder(x: ConcertView, y: ConcertView)
    ensures LessByName(x, y) == KeyLess(NameKey(x), NameKey(y))
  {
    KeyLess1(Text(Lower(x.artistName)), Text(Lower(y.artistName)));
  }

  /** sortConcertsByCity's less is the lexicographic order of CityKey. */
  lemma ByCityOrder(oracle: Oracle, x: ConcertView, y: ConcertView)
    ensures LessByCity(oracle, x, y) == KeyLess(CityKey(oracle, x), CityKey(oracle, y))
  {
    DateTieBreakIsPartOrder(oracle, x.date, y.date);
    TextFirstChain(NormalizeCity(x.location), NormalizeCity(y.location), DateTieBreak(oracle, x.date, y.date),
                   DatePart(oracle, x.date), DatePart(oracle, y.date), Lower(x.artistName), Lower(y.artistName));
  }
}
