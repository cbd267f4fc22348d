/**
 * What the base classes of `lyricsfandom/meta.py` derive from their fields: the stored form
 * of names, the href of an artist, album or song page and the url built from it, the text
 * of `__repr__`, and the album type `set_album_type` gives for a track count. The fetched
 * page that `connect` returns is a `Doc` value.
 */
module Meta {
  import opened Wrappers
  import opened PyStr
  import opened Names
  import opened Markup
  import opened Scrape

  /** The site every href is relative to. */
  const SiteBase := "https://lyrics.fandom.com"

  /** One `h2 .mw-headline` match of an artist page: the headline and the siblings after its `h2`. */
  datatype Heading = Heading(span: Node, following: seq<Node>)

  /**
   * A fetched page with the selections made on it: its root, its album headings, the sibling
   * lists after each `#External_links` match, the name of the great-grandparent of a node
   * (`None` when a parent on the way is missing) and the serialisation `str(tag)`.
   */
  datatype Doc = Doc(
    root: Node,
    headings: seq<Heading>,
    externalLinks: seq<seq<Node>>,
    outerName: Node -> Option<string>,
    markup: Node -> string)

  /** Python truthiness of an optional string: present and not empty. */
  predicate Present(s: Option<string>) {
    s.Some? && s.value != ""
  }

  /** Python truthiness of the links cache: present and not an empty dictionary. */
  predicate LinksPresent(l: Option<Links>) {
    l.Some? && l.value != map[]
  }

  /** Python truthiness of the info cache. */
  predicate InfoPresent(i: Option<Info>) {
    i.Some? && i.value != map[]
  }

  /** `url`: the site base followed by the href when the href is truthy, and `None` otherwise. */
  function UrlOf(href: Option<string>): (r: Option<string>)
    ensures r.Some? <==> Present(href)
    ensures r.Some? ==> |r.value| > |SiteBase| && r.value[..|SiteBase|] == SiteBase
                        && r.value[|SiteBase|..] == href.value
  {
    if Present(href) then Some(SiteBase + href.value) else None
  }

  /** How an album or a song stores an optional name: canonical when given, `''` otherwise. */
  function Stored(name: string): string {
    if name != "" then Canonical(name) else ""
  }

  /** The href of an artist page, from the stored artist name. */
  function ArtistHref(artist: string): Option<string> {
    if artist != "" then Some("/wiki/" + NameToWikiId(artist)) else None
  }

  /** The href of an album page, set only when the artist, the album and the year are all given. */
  function AlbumHref(artist: string, album: string, year: Option<string>): Option<string> {
    if artist != "" && album != "" && Present(year) then
      Some("/wiki/" + NameToWikiId(artist) + AlbumTail(album, year.value))
    else None
  }

  /** The href of a song page, set only when the artist slug and the song name are not empty. */
  function SongHref(artist: string, song: string): Option<string> {
    if NameToWikiId(artist) != "" && song != "" then
      Some("/wiki/" + NameToWikiId(artist) + ":" + NameToWikiId(song))
    else None
  }

  /** The url of an artist is the url `generate_artist_url` builds for the stored name. */
  lemma ArtistUrlIsGenerated(artist: string)
    ensures artist != "" ==> UrlOf(ArtistHref(artist)) == Some(GenerateArtistUrl(artist))
    ensures artist == "" ==> UrlOf(ArtistHref(artist)) == None
  {
    if artist != "" {
      BaseJoinId(NameToWikiId(artist));
    }
  }

  /**
   * Because the stored name is slugged a second time, the url of the artist `DON'T stop` is
   * not the url `generate_artist_url` builds for that name: one slug starts `DON`, the
   * other `Don`.
   */
  lemma StoredArtistUrlDiffers()
    ensures UrlOf(ArtistHref(Canonical("DON" + "'" + "T" + " " + "stop")))
            != Some(GenerateArtistUrl("DON" + "'" + "T" + " " + "stop"))
  {
    var y, z := "DON" + "'" + "t" + " " + "Stop", "Don" + "'" + "t" + " " + "Stop";
    NameToWikiNotIdempotent();
    ArtistUrlIsGenerated(y);
    SlugHead(y);
    SlugHead(z);
    var a, b := GenerateArtistUrl(y), GenerateArtistUrl("DON" + "'" + "T" + " " + "stop");
    assert a == WikiBase + Slug(z) && b == WikiBase + Slug(y);
    assert a[|WikiBase| + 1] == Slug(z)[..2][1] && b[|WikiBase| + 1] == Slug(y)[..2][1];
  }

  /** The url of an album with a year is the url `generate_album_url` builds. */
  lemma AlbumUrlIsGenerated(artist: string, album: string, year: Option<string>)
    ensures artist != "" && album != "" && Present(year) ==>
      UrlOf(AlbumHref(artist, album, year)) == Some(GenerateAlbumUrl(artist, album, year.value))
    ensures !(artist != "" && album != "" && Present(year)) ==> UrlOf(AlbumHref(artist, album, year)) == None
  {
    if artist != "" && album != "" && Present(year) {
      BaseJoin(NameToWikiId(artist), AlbumTail(album, year.value));
    }
  }

  /** The site base and `/wiki/` make the wiki base. */
  lemma BaseJoinId(id: string)
    ensures SiteBase + ("/wiki/" + id) == WikiBase + id
  {
    assert SiteBase + "/wiki/" == WikiBase;
  }

  lemma BaseJoin(id: string, tail: string)
    ensures SiteBase + ("/wiki/" + id + tail) == WikiBase + id + tail
  {
    assert SiteBase + "/wiki/" == WikiBase;
  }

  /** A song page lies under its artist's page: the artist href, `:`, then the song slug. */
  lemma SongHrefUnderArtist(artist: string, song: string)
    ensures SongHref(artist, song).Some? ==>
      ArtistHref(artist).Some? && SongHref(artist, song).value == ArtistHref(artist).value + ":" + NameToWikiId(song)
  {
    if SongHref(artist, song).Some? && artist == "" {
      EmptySlug();
    }
  }

  /** The slug of the empty name is empty. */
  lemma EmptySlug()
    ensures NameToWikiId("") == ""
  {
    CasedEmpty();
    CanonicalEmpty();
    SlugOfEmpty();
  }

  lemma CanonicalEmpty()
    requires CasedWords("") == ""
    ensures Canonical("") == ""
  {
    CharsTargetsPlain();
    ApplyPairsEmpty(Chars);
    CanonicalApplies("");
  }

  lemma CasedEmpty()
    ensures CasedWords("") == ""
  {
    assert Strip("") == "";
    assert Split("", " ") == [""];
    assert CaseToken("") == "";
  }

  lemma SlugOfEmpty()
    ensures Slug("") == ""
  {
    assert Split("", " ") == [""];
    assert Replace("", " ", "_") == "";
    assert Quote("") == "";
  }

  /** Replacing in the empty string leaves it empty. */
  lemma {:induction false} ApplyPairsEmpty(table: seq<(string, string)>)
    requires Replaceable(table)
    ensures ApplyPairs("", table) == ""
  {
    if table != [] {
      var p := table[|table| - 1];
      ApplyPairsEmpty(table[..|table| - 1]);
      assert Split("", p.0) == [""];
      assert Replace("", p.0, p.1) == "";
    }
  }

  // ---------------------------------------------------------------------------------------
  // Album type
  // ---------------------------------------------------------------------------------------

  /** `set_album_type`: one track is a single, fewer than six an EP, six or more an album. */
  function AlbumTypeFor(size: nat): (r: string)
    ensures r == "Single" || r == "EP" || r == "Album"
    ensures r == "Single" <==> size == 1
    ensures r == "Album" <==> size >= 6
    ensures r == "EP" <==> size == 0 || 2 <= size < 6
  {
    if size == 1 then "Single" else if size < 6 then "EP" else "Album"
  }

  // ---------------------------------------------------------------------------------------
  // Representations
  // ---------------------------------------------------------------------------------------

  /** The decimal digit of `d`. */
  function Digit(d: nat): (c: char)
    requires d < 10
    ensures IsDigit(c) && c as int - '0' as int == d
  {
    ('0' as int + d) as char
  }

  /** `str(n)` for a count: its decimal digits, without leading zero. */
  function Decimal(n: nat): (r: string)
    ensures |r| > 0
    ensures forall k | 0 <= k < |r| :: IsDigit(r[k])
    ensures n > 0 ==> r[0] != '0'
    decreases n
  {
    if n < 10 then [Digit(n)] else Decimal(n / 10) + [Digit(n % 10)]
  }

  /** The number a string of decimal digits denotes. */
  function DecimalValue(s: string): int
    decreases |s|
  {
    if s == [] then 0 else 10 * DecimalValue(s[..|s| - 1]) + (s[|s| - 1] as int - '0' as int)
  }

  /** The printed count reads back as the count. */
  lemma {:induction false} DecimalRoundTrip(n: nat)
    ensures DecimalValue(Decimal(n)) == n
  {
    if n >= 10 {
      DecimalRoundTrip(n / 10);
      var r := Decimal(n);
      assert r[..|r| - 1] == Decimal(n / 10);
    } else {
      assert Decimal(n)[..0] == [];
    }
  }

  /** `Artist.__repr__`: `Artist: ` and then the name, which reads back after the prefix. */
  function ArtistRepr(artist: string): (r: string)
    ensures |r| == |artist| + 8 && r[..8] == "Artist: " && r[8..] == artist
  {
    "Artist: " + artist
  }

  /** The optional parts of an album or song representation. */
  function TypePart(albumType: Option<string>): string {
    if Present(albumType) then " " + albumType.value else ""
  }

  function YearPart(year: Option<string>): string {
    if Present(year) then " (" + year.value + ")" else ""
  }

  function SongsPart(count: nat): string {
    if count > 0 then ", Songs: " + Decimal(count) else ""
  }

  /** `AlbumMeta.__repr__`: `Artist: Type "Album" (Year), Songs: n` without the parts that are not set. */
  function AlbumRepr(artist: string, albumType: Option<string>, album: string, year: Option<string>, count: nat): (r: string)
    ensures |r| > |artist| && r[..|artist| + 1] == artist + ":"
    ensures count > 0 ==> var tail := ", Songs: " + Decimal(count);
      |r| >= |tail| && r[|r| - |tail|..] == tail
  {
    artist + ":" + TypePart(albumType) + " \"" + album + "\"" + YearPart(year) + SongsPart(count)
  }

  /** `SongMeta.__repr__`: `Artist: "Song", from Type "Album" (Year)` without the parts that are not set. */
  function SongRepr(artist: string, song: string, album: string, albumType: Option<string>, year: Option<string>): (r: string)
    ensures var head := artist + ": \"" + song + "\"";
      |r| >= |head| && r[..|head|] == head
    ensures album == "" && !Present(year) ==> r == artist + ": \"" + song + "\""
    ensures album == "" ==> r == artist + ": \"" + song + "\"" + YearPart(year)
    ensures album != "" ==> var head, from := artist + ": \"" + song + "\"", ", from" + TypePart(albumType) + " \"" + album + "\"";
      |r| >= |head| + |from| && r[|head|..|head| + |from|] == from
    ensures Present(year) ==> var tail := " (" + year.value + ")";
      |r| >= |tail| && r[|r| - |tail|..] == tail
  {
    artist + ": \"" + song + "\"" + (if album != "" then ", from" + TypePart(albumType) + " \"" + album + "\"" else "")
    + YearPart(year)
  }

  /**
   * The song count closes an album representation exactly when it is positive, and the
   * count it prints reads back as the number of songs.
   */
  lemma AlbumReprCount(artist: string, albumType: Option<string>, album: string, year: Option<string>, count: nat)
    ensures count == 0 ==> AlbumRepr(artist, albumType, album, year, count) == artist + ":" + TypePart(albumType) + " \"" + album + "\"" + YearPart(year)
    ensures count > 0 ==> AlbumRepr(artist, albumType, album, year, count) == AlbumRepr(artist, albumType, album, year, 0) + ", Songs: " + Decimal(count)
    ensures count > 0 ==> DecimalValue(Decimal(count)) == count
  {
    DecimalRoundTrip(count);
  }

  /** The representations shown in the documentation of the artist and album modules. */
  lemma ArtistReprExample()
    ensures ArtistRepr("Daughter") == "Artist: Daughter"
  {
  }

  /** An album without songs prints no count at all, although the `add_album` documentation shows `Songs: 0`. */
  lemma EmptyAlbumRepr()
    ensures AlbumRepr("Daugghter", None, "The Wild Youth", None, 0) == "Daugghter: \"The Wild Youth\""
  {
  }
}
