/**
 * The header parsers of `lyricwiki/utils.py`: album headers `Name (Year)`, page headers
 * `Artist:Album (Year)` and `Artist:Song Lyrics`, and the song titles of discography links.
 */
module Headers {
  import opened Wrappers
  import opened PyStr

  /** An album name with the year that may follow it in brackets. */
  datatype AlbumTitle = AlbumTitle(name: string, year: Option<string>)

  /** An album header with the artist in front. */
  datatype AlbumHeader = AlbumHeader(artist: string, album: string, year: Option<string>)

  /** An artist and a song name. */
  datatype Credit = Credit(artist: string, song: string)

  /**
   * `parse_album_header`: the name is what precedes the last `(`, trimmed; the year is what
   * follows it, with every `)` removed, trimmed. With no `(` there is no year.
   */
  function ParseAlbumHeader(h: string): (r: AlbumTitle)
    ensures r.year.None? <==> '(' !in h
  {
    assert ['('] == "(";
    SplitMany(h, "(");
    ContainsChar(h, '(');
    var parts := Split(h, "(");
    if |parts| > 1 then
      AlbumTitle(Strip(Join(parts[..|parts| - 1], "(")), Some(YearText(parts[|parts| - 1])))
    else
      AlbumTitle(Strip(h), None)
  }

  /** An album header without `(` has no year. */
  lemma AlbumHeaderNoYear(h: string)
    requires '(' !in h
    ensures ParseAlbumHeader(h) == AlbumTitle(Strip(h), None)
  {
    assert ['('] == "(";
    SplitCharNone(h, '(');
  }

  /** The parsed album header around the last `(` of the header, told by `rfind`. */
  lemma AlbumHeaderYear(h: string, i: int)
    requires 0 <= i && i == LastIndexOf(h, '(')
    ensures ParseAlbumHeader(h) == AlbumTitle(Strip(h[..i]), Some(YearText(h[i + 1..])))
  {
    assert ['('] == "(";
    NoneAfter(h, '(', i);
    SplitCharLast(h, '(', i);
  }

  /** The year of an album header: the text after its last `(`, with every `)` removed, trimmed. */
  function YearText(t: string): string {
    Strip(Replace(t, ")", ""))
  }

  /** The year of a parsed album header holds no `)` and no `(`. */
  lemma AlbumYearPlain(h: string)
    ensures ParseAlbumHeader(h).year.Some? ==> ')' !in ParseAlbumHeader(h).year.value
    ensures ParseAlbumHeader(h).year.Some? ==> '(' !in ParseAlbumHeader(h).year.value
  {
    var i := LastIndexOf(h, '(');
    if i < 0 {
      AlbumHeaderNoYear(h);
    } else {
      AlbumHeaderYear(h, i);
      assert ParseAlbumHeader(h).year.value == YearText(h[i + 1..]);
      var tail := h[i + 1..];
      ReplaceRemovesChar(tail, ')', "");
      StripKeepsOut(Replace(tail, ")", ""), ')');
      ReplaceKeepsOut(tail, ")", "", '(');
      StripKeepsOut(Replace(tail, ")", ""), '(');
    }
  }

  /** The text before the first `:` of `h`, or all of `h` when it has none. */
  function BeforeFirstColon(h: string): (r: string)
    ensures ':' !in r
    ensures ':' in h ==> |r| < |h| && h[|r|] == ':' && h[..|r|] == r
    ensures ':' !in h ==> r == h
  {
    var f := Find(h, ":");
    FindCharFirst(h, ':');
    if f < 0 then h else h[..f]
  }

  /** The text after the last `:` of `h`, or all of `h` when it has none. */
  function AfterLastColon(h: string): (r: string)
    ensures ':' !in r
    ensures ':' !in h ==> r == h
    decreases |h|
  {
    if h == [] || h[|h| - 1] == ':' then []
    else
      assert h == h[..|h| - 1] + [h[|h| - 1]];
      AfterLastColon(h[..|h| - 1]) + [h[|h| - 1]]
  }

  /** What follows the last `:` of `h`, when `h` holds one. */
  lemma {:induction false} AfterLastColonAt(h: string, i: int)
    requires 0 <= i < |h| && h[i] == ':' && forall k | i < k < |h| :: h[k] != ':'
    ensures AfterLastColon(h) == h[i + 1..]
    decreases |h|
  {
    if i < |h| - 1 {
      var init := h[..|h| - 1];
      AfterLastColonAt(init, i);
      assert h[i + 1..] == init[i + 1..] + [h[|h| - 1]];
    }
  }

  /** The first and the last pieces of `h.split(':')`. */
  lemma ColonPieces(h: string)
    ensures Split(h, ":")[0] == BeforeFirstColon(h)
    ensures Split(h, ":")[|Split(h, ":")| - 1] == AfterLastColon(h)
  {
    ColonHead(h);
    ColonLast(h);
  }

  lemma ColonHead(h: string)
    ensures Split(h, ":")[0] == BeforeFirstColon(h)
  {
    SplitHead(h, ":");
  }

  lemma ColonLast(h: string)
    ensures Split(h, ":")[|Split(h, ":")| - 1] == AfterLastColon(h)
  {
    var i := LastIndexOf(h, ':');
    assert [':'] == ":";
    if i < 0 {
      SplitCharNone(h, ':');
    } else {
      NoneAfter(h, ':', i);
      SplitCharLast(h, ':', i);
      AfterLastColonAt(h, i);
    }
  }

  /**
   * `split_header`: the artist is the text before the first `:`, trimmed; the album and its
   * year are parsed from the text after the last `:`, trimmed.
   */
  function SplitHeader(h: string): (r: AlbumHeader)
    ensures r.artist == Strip(BeforeFirstColon(h))
    ensures AlbumTitle(r.album, r.year) == ParseAlbumHeader(Strip(AfterLastColon(h)))
  {
    var parts := Split(h, ":");
    ColonPieces(h);
    var first, last := parts[0], parts[|parts| - 1];
    assert first == BeforeFirstColon(h) && last == AfterLastColon(h);
    var title := ParseAlbumHeader(Strip(last));
    AlbumHeader(Strip(first), title.name, title.year)
  }

  /**
   * `split_song_header`: the artist is the text before the first `:`, trimmed; the song is the
   * text after the last `:` with every ` Lyrics` removed, trimmed.
   */
  function SplitSongHeader(h: string): (r: Credit)
    ensures r.artist == Strip(BeforeFirstColon(h))
    ensures r.song == SongText(AfterLastColon(h))
  {
    var parts := Split(h, ":");
    ColonPieces(h);
    var first, last := parts[0], parts[|parts| - 1];
    assert first == BeforeFirstColon(h) && last == AfterLastColon(h);
    Credit(Strip(first), SongText(last))
  }

  /** The song name of a song header: its last `:`-segment without ` Lyrics`, trimmed. */
  function SongText(t: string): string {
    Strip(Replace(t, " Lyrics", ""))
  }

  /** A song title with the dead-link marker and every `//` taken out, as `parse_song_title` cleans it. */
  function CleanTitle(title: string): string {
    Replace(Strip(Replace(title, "(page does not exist)", "")), "//", "")
  }

  /** Whether `parse_song_title` takes its known-artist branch: a non-empty artist that occurs in the title. */
  predicate KnownArtist(t: string, artist: Option<string>) {
    artist.Some? && artist.value != "" && Contains(t, artist.value)
  }

  function Min(a: int, b: int): int {
    if a < b then a else b
  }

  /**
   * `parse_song_title`. With a known artist whose name has `k` `:`-separated parts, the artist
   * part of the result is the first `k` `:`-segments of the title and the song part the rest.
   * Otherwise the artist is the first segment and the song the second, and a title without
   * `:` raises `IndexError`.
   */
  function ParseSongTitle(title: string, artist: Option<string>): (r: Result<Credit>)
    ensures KnownArtist(CleanTitle(title), artist) ==> r.Ok?
    ensures !KnownArtist(CleanTitle(title), artist) ==> (r.Err? <==> ':' !in CleanTitle(title))
    ensures r.Err? ==> r.error == IndexError
  {
    var t := CleanTitle(title);
    if KnownArtist(t, artist) then
      var parts := Split(Replace(t, "/wiki/", ""), ":");
      var k := Min(|Split(artist.value, ":")|, |parts|);
      Ok(Credit(Join(parts[..k], ":"), Join(parts[k..], ":")))
    else
      var parts := Split(t, ":");
      ContainsChar(t, ':');
      if |parts| < 2 then Err(IndexError) else Ok(Credit(parts[0], parts[1]))
  }

  /**
   * With a known artist and a title of more than `k` segments, the artist part has exactly the
   * `k` segments of the artist name, and `artist + ':' + song` gives the cleaned title back.
   */
  lemma KnownArtistSplit(title: string, artist: string)
    requires KnownArtist(CleanTitle(title), Some(artist))
    requires |Split(Replace(CleanTitle(title), "/wiki/", ""), ":")| > |Split(artist, ":")|
    ensures var r := ParseSongTitle(title, Some(artist)).value;
      r.artist + ":" + r.song == Replace(CleanTitle(title), "/wiki/", "")
    ensures var r := ParseSongTitle(title, Some(artist)).value;
      |Split(r.artist, ":")| == |Split(artist, ":")|
  {
    var u := Replace(CleanTitle(title), "/wiki/", "");
    var parts := Split(u, ":");
    var k := |Split(artist, ":")|;
    JoinSplit(u, ":");
    JoinCut(parts, ":", k);
    SplitPiecesFree(u, ":");
    forall j | 0 <= j < k
      ensures ':' !in parts[..k][j]
    {
      ContainsChar(parts[j], ':');
    }
    SplitJoinChar(parts[..k], ':');
  }

  /**
   * Without a known artist, the artist is the text before the first `:` and the song the text
   * between the first and the second `:`; whatever follows a second `:` is dropped.
   */
  lemma UnknownArtistSplit(title: string, artist: Option<string>)
    requires !KnownArtist(CleanTitle(title), artist) && ':' in CleanTitle(title)
    ensures var t := CleanTitle(title);
      var r := ParseSongTitle(title, artist).value;
      r.artist == BeforeFirstColon(t) && r.song == BeforeFirstColon(t[|r.artist| + 1..])
  {
    var t := CleanTitle(title);
    ColonSecond(t);
    var parts := Split(t, ":");
    assert ParseSongTitle(title, artist) == Ok(Credit(parts[0], parts[1]));
  }

  /** The first two pieces of `t.split(':')`, for a `t` that holds a `:`. */
  lemma ColonSecond(t: string)
    requires ':' in t
    ensures var parts, a := Split(t, ":"), BeforeFirstColon(t);
      |parts| >= 2 && parts[0] == a && parts[1] == BeforeFirstColon(t[|a| + 1..])
  {
    var a := BeforeFirstColon(t);
    var rest := t[|a| + 1..];
    assert t[|a|] == ':' && ':' !in t[..|a|];
    SplitCharFirst(t, ':', |a|);
    var parts, more := Split(t, ":"), Split(rest, ":");
    assert parts == [a] + more;
    SplitHead(rest, ":");
    assert more[0] == BeforeFirstColon(rest);
  }

  /**
   * A header written as `name (year)` parses back to the name and the year, for a trimmed
   * name and a trimmed year without brackets: the documentation's `His Young Heart (2011)`
   * is one such header.
   */
  lemma AlbumHeaderRoundTrip(name: string, year: string)
    requires Strip(name) == name && Strip(year) == year
    requires '(' !in year && ')' !in year
    ensures ParseAlbumHeader(name + " (" + year + ")") == AlbumTitle(name, Some(year))
  {
    var h := name + " (" + year + ")";
    var i := |name| + 1;
    BracketOfYear(name, year);
    AlbumHeaderYear(h, i);
    HeaderPieces(name, year);
    StripTrailingSpace(name);
    CloseBracketDropped(year);
  }

  /** What lies before and after the bracket of `name (year)`. */
  lemma HeaderPieces(name: string, year: string)
    ensures (name + " (" + year + ")")[..|name| + 1] == name + " "
    ensures (name + " (" + year + ")")[|name| + 2..] == year + ")"
  {
    var h := name + " (" + year + ")";
    assert h == (name + " ") + ("(" + (year + ")"));
  }

  /** The last `(` of `name (year)` is the one in front of the year. */
  lemma BracketOfYear(name: string, year: string)
    requires '(' !in year
    ensures LastIndexOf(name + " (" + year + ")", '(') == |name| + 1
  {
    var h := name + " (" + year + ")";
    var i := |name| + 1;
    var front, back := name + " (", year + ")";
    assert h == front + back;
    forall k | i < k < |h|
      ensures h[k] != '('
    {
      assert h[k] == back[k - |front|];
      if k - |front| < |year| {
        assert back[k - |front|] == year[k - |front|];
      }
    }
    NoneAfter(h, '(', i);
    LastIndexAt(h, '(', i);
  }

  /** A trimmed name followed by one space trims back to the name. */
  lemma StripTrailingSpace(name: string)
    requires Strip(name) == name
    ensures Strip(name + " ") == name
  {
    var t := name + " ";
    if name == [] {
      assert StripLeft(t) == StripLeft([]);
    } else {
      assert StripLeft(t) == t;
      assert t[..|t| - 1] == name;
      assert StripRight(name) == name;
    }
  }

  /** The year text of a trimmed year followed by `)` is the year. */
  lemma CloseBracketDropped(year: string)
    requires Strip(year) == year && ')' !in year
    ensures YearText(year + ")") == year
  {
    var t := year + ")";
    assert t[..|year|] == year && t[|year| + 1..] == [];
    CharFreePrefix(t, |year|, ')');
    SplitCharFirst(t, ')', |year|);
    assert Split([], ")") == [[]];
    var ps := Split(t, ")");
    assert ps == [year, []];
    assert ps[1..] == [[]];
    assert Join(ps, "") == year + "" + Join([[]], "");
    assert Replace(t, ")", "") == year;
  }

  // ---------------------------------------------------------------------------------------
  // The documented examples
  // ---------------------------------------------------------------------------------------

  /** The example of `parse_album_header`: `His Young Heart (2011)` is the album `His Young Heart` of 2011. */
  lemma ParseAlbumHeaderExample()
    ensures ParseAlbumHeader("His Young Heart (2011)") == AlbumTitle("His Young Heart", Some("2011"))
  {
    var name, year := "His Young Heart", "2011";
    StripTrimmed(name);
    StripTrimmed(year);
    assert name + " (" + year + ")" == "His Young Heart (2011)";
    AlbumHeaderRoundTrip(name, year);
  }

  /** The texts before the first and after the last colon of `a:b`, for `a` and `b` without one. */
  lemma OneColon(a: string, b: string)
    requires ':' !in a && ':' !in b
    ensures BeforeFirstColon(a + ":" + b) == a && AfterLastColon(a + ":" + b) == b
  {
    var h, i := a + ":" + b, |a|;
    assert h[i] == ':' && h[..i] == a && h[i + 1..] == b;
    FindChar(h, ':', i);
    forall k | i < k < |h|
      ensures h[k] != ':'
    {
      assert h[k] == b[k - i - 1];
    }
    AfterLastColonAt(h, i);
  }

  /** A page header `artist:album` with one colon and trimmed parts. */
  lemma SplitHeaderOf(a: string, b: string)
    requires ':' !in a && ':' !in b && Strip(a) == a && Strip(b) == b
    ensures var r := SplitHeader(a + ":" + b);
      r.artist == a && AlbumTitle(r.album, r.year) == ParseAlbumHeader(b)
  {
    OneColon(a, b);
  }

  /** A song header `artist:song Lyrics` with one colon, a trimmed artist and a one-word song. */
  lemma SplitSongHeaderOf(a: string, b: string)
    requires ':' !in a && ':' !in b && ' ' !in b && Strip(a) == a && Strip(b) == b
    ensures SplitSongHeader(a + ":" + b + " Lyrics") == Credit(a, b)
  {
    assert a + ":" + b + " Lyrics" == a + ":" + (b + " Lyrics");
    OneColon(a, b + " Lyrics");
    CutPattern(b, " Lyrics");
  }

  /** Replacing a pattern by nothing cuts it off the end of a text without its first character. */
  lemma CutPattern(b: string, pat: string)
    requires |pat| > 0 && pat[0] !in b
    ensures Replace(b + pat, pat, "") == b
  {
    var t := b + pat;
    assert t[|b|..|b| + |pat|] == pat;
    assert t[..|b|] == b;
    FindFirstOccurrence(t, pat, |b|);
    SplitAt(t, pat, |b|);
    assert t[|b| + |pat|..] == [];
    assert Split([], pat) == [[]];
    var ps := Split(t, pat);
    assert ps == [b, []];
    assert ps[1..] == [[]];
    assert Join(ps, "") == b + "" + Join([[]], "");
  }

  /** The example of `split_header`: `Daughter:His Young Heart (2011)`. */
  lemma SplitHeaderExample()
    ensures SplitHeader("Daughter" + ":" + "His Young Heart (2011)") == AlbumHeader("Daughter", "His Young Heart", Some("2011"))
  {
    var a, b := "Daughter", "His Young Heart (2011)";
    StripTrimmed(a);
    StripTrimmed(b);
    SplitHeaderOf(a, b);
    ParseAlbumHeaderExample();
  }

  /** The example of `split_song_header`: `Daughter:Run Lyrics` is the song `Run` of `Daughter`. */
  lemma SplitSongHeaderExample()
    ensures SplitSongHeader("Daughter" + ":" + "Run" + " Lyrics") == Credit("Daughter", "Run")
  {
    var a, b := "Daughter", "Run";
    StripTrimmed(a);
    StripTrimmed(b);
    SplitSongHeaderOf(a, b);
  }
}
