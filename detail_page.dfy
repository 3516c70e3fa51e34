/**
 * The "/index2" handler's data: the `id` query parameter is read with
 * strconv.Atoi and defaults to 1; the first preloaded view with that id gives
 * the detail, and otherwise the artist fetched directly (without its dates,
 * locations or relation) does, or nothing at all when that fetch fails.
 */
module DetailPage {
  import opened Wrappers
  import opened Dates
  import opened Views

  const MinInt64: int := -0x8000_0000_0000_0000
  const MaxInt64: int := 0x7fff_ffff_ffff_ffff

  predicate AllDigits(s: string) {
    forall i :: 0 <= i < |s| ==> IsDigit(s[i])
  }

  /** The value of a run of decimal digits. */
  function DecimalValue(s: string): nat
    requires AllDigits(s)
  {
    if s == [] then 0 else 10 * DecimalValue(s[..|s| - 1]) + Digit(s[|s| - 1])
  }

  /** strconv.Atoi on a 64-bit platform: an optional sign, at least one decimal
      digit and nothing else, with a value that fits an int64. */
  function Atoi(s: string): (r: Option<int>)
    ensures r.Some? ==> MinInt64 <= r.value <= MaxInt64
    ensures r.Some? ==> s != [] && (IsDigit(s[0]) || s[0] == '-' || s[0] == '+')
  {
    if s == [] then None
    else
      var neg := s[0] == '-';
      var digits := if s[0] == '-' || s[0] == '+' then s[1..] else s;
      if digits == [] || !AllDigits(digits) then None
      else
        var v: int := DecimalValue(digits);
        var n := if neg then -v else v;
        if MinInt64 <= n <= MaxInt64 then Some(n) else None
  }

  /** `id, err := strconv.Atoi(idStr); if err != nil || id < 1 { id = 1 }` */
  function RequestedID(idStr: string): (id: int)
    ensures id >= 1
    ensures id != 1 ==> Atoi(idStr) == Some(id)
    ensures Atoi(idStr).Some? && Atoi(idStr).value >= 1 ==> id == Atoi(idStr).value
  {
    match Atoi(idStr)
    case Some(n) => if n < 1 then 1 else n
    case None => 1
  }

  function DigitChar(d: nat): char
    requires d < 10
  {
    ('0' as int + d) as char
  }

  /** The decimal digits of `n`, without leading zeros. */
  function Digits(n: nat): string
    decreases n
  {
    if n < 10 then [DigitChar(n)] else Digits(n / 10) + [DigitChar(n % 10)]
  }

  /** strconv.Itoa. */
  function Itoa(n: int): string {
    if n < 0 then "-" + Digits(-n) else Digits(n)
  }

  lemma {:induction false} DigitsValue(n: nat)
    ensures Digits(n) != [] && AllDigits(Digits(n))
    ensures DecimalValue(Digits(n)) == n
    decreases n
  {
    if n >= 10 {
      DigitsValue(n / 10);
      var d := Digits(n);
      assert d[..|d| - 1] == Digits(n / 10);
    }
  }

  /** Atoi reads back what Itoa writes, for every int64. */
  lemma AtoiItoa(n: int)
    requires MinInt64 <= n <= MaxInt64
    ensures Atoi(Itoa(n)) == Some(n)
  {
    if n < 0 {
      DigitsValue(-n);
      assert Itoa(n)[1..] == Digits(-n);
    } else {
      DigitsValue(n);
    }
  }

  /** A link to "/index2?id=<n>" opens artist n, for every positive int64 n. */
  lemma RequestedIDOfLink(n: int)
    requires 1 <= n <= MaxInt64
    ensures RequestedID(Itoa(n)) == n
  {
    AtoiItoa(n);
  }

  /** Atoi rejects every value outside the int64 range, so such an id falls back to 1. */
  lemma AtoiOutOfRange(n: int)
    requires n < MinInt64 || MaxInt64 < n
    ensures Atoi(Itoa(n)) == None
    ensures RequestedID(Itoa(n)) == 1
  {
    if n < 0 {
      DigitsValue(-n);
      assert Itoa(n)[1..] == Digits(-n);
    } else {
      DigitsValue(n);
    }
  }

  /** A missing, malformed or non-positive id falls back to 1. */
  lemma RequestedIDRejects()
    ensures RequestedID("") == 1
    ensures RequestedID("abc") == 1 && RequestedID("4x") == 1 && RequestedID("-") == 1
    ensures RequestedID("0") == 1 && RequestedID("-3") == 1
  {
    assert !IsDigit('a') && !IsDigit('x');
    assert "4x"[1] == 'x';
    assert "-3"[1..] == "3";
  }

  /** A sign is allowed in front of the digits, and so are leading zeros. */
  lemma RequestedIDAccepts()
    ensures RequestedID("+7") == 7 && RequestedID("42") == 42 && RequestedID("007") == 7
  {
    assert DecimalValue("007") == 7 by {
      assert "007"[..2] == "00" && "00"[..1] == "0" && "0"[..0] == "";
    }
    assert "+7"[1..] == "7";
    assert DecimalValue("42") == 42 by {
      assert "42"[..1] == "4";
    }
  }

  /** The detail of a preloaded view: all of its fields. */
  function DetailOf(v: ArtistView): Index2Data {
    Index2Data(v.name, v.image, v.members, v.creationDate, v.firstAlbum, v.genres,
               v.locations, v.dates, v.rel)
  }

  /** The detail of a directly fetched artist: its own fields only. */
  function FetchedDetail(a: Artist): Index2Data {
    Index2Data(a.name, a.image, a.members, a.creationDate, a.firstAlbum, a.genres, [], [], map[])
  }

  /** The position of the first view with this id, if any. */
  function FirstWithID(views: seq<ArtistView>, id: int): (r: Option<nat>)
    ensures r.Some? ==> r.value < |views| && views[r.value].id == id
    ensures r.Some? ==> forall j :: 0 <= j < r.value ==> views[j].id != id
    ensures r.None? ==> forall j :: 0 <= j < |views| ==> views[j].id != id
  {
    if views == [] then None
    else if views[0].id == id then Some(0)
    else match FirstWithID(views[1..], id)
      case Some(k) => Some(k + 1)
      case None => None
  }

  /** The scan of artistsView that stops at the first view with this id. */
  method FindArtist(views: seq<ArtistView>, id: int) returns (data: Index2Data, found: bool)
    ensures found == FirstWithID(views, id).Some?
    ensures found ==> data == DetailOf(views[FirstWithID(views, id).value])
    ensures !found ==> data == EmptyDetail
  {
    data, found := EmptyDetail, false;
    var i := 0;
    while i < |views|
      invariant 0 <= i <= |views|
      invariant forall j :: 0 <= j < i ==> views[j].id != id
    {
      if views[i].id == id {
        data, found := DetailOf(views[i]), true;
        FirstIsUnique(views, id, i);
        return;
      }
      i := i + 1;
    }
    FirstIsUnique(views, id, |views|);
  }

  /** The first position with an id is the one before which no view has it. */
  lemma FirstIsUnique(views: seq<ArtistView>, id: int, i: nat)
    requires i <= |views|
    requires forall j :: 0 <= j < i ==> views[j].id != id
    requires i < |views| ==> views[i].id == id
    ensures i < |views| <==> FirstWithID(views, id).Some?
    ensures i < |views| ==> FirstWithID(views, id).value == i
  {
  }

  /** The page data of a request to "/index2". `fetch(id)` is what fetching the
      artist `artistsAPI/<id>` would give. */
  method HandleIndex2(artistsView: seq<ArtistView>, idStr: string,
                      fetch: int -> Result<Artist, FetchError>)
    returns (data: Index2Data)
    ensures var id := RequestedID(idStr);
      match FirstWithID(artistsView, id)
      case Some(k) => data == DetailOf(artistsView[k])
      case None => data == (if fetch(id).Success? then FetchedDetail(fetch(id).value) else EmptyDetail)
  {
    var id: int;
    match Atoi(idStr) {
      case Some(n) => id := n;
      case None => id := 1;
    }
    if id < 1 {
      id := 1;
    }
    var found;
    data, found := FindArtist(artistsView, id);
    if !found {
      var a := fetch(id);
      if a.Success? {
        data := FetchedDetail(a.value);
      }
    }
  }
}
