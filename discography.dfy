/**
 * What `Artist.items` of `lyricsfandom/music/artist.py` assembles from an artist page, as
 * values: for every album heading, the songs its links name (covers filtered out on
 * request), and whether the album gets a type. Headings whose songs are all filtered out
 * give no album. The class model in module `Music` builds these albums with objects.
 */
module Discography {
  import opened Wrappers
  import opened PyStr
  import opened Headers
  import opened Markup
  import opened Scrape
  import opened Meta

  /** A song as a discography link names it: performer, song name and the href of its page. */
  datatype SongSeed = SongSeed(artist: string, song: string, href: Option<string>)

  /** An album the assembly keeps: its parsed heading, its songs, and whether its type is set. */
  datatype AlbumPlan = AlbumPlan(title: AlbumTitle, songs: seq<SongSeed>, typed: bool)

  /** The list tags that hold songs: released albums only, or compilations (`ul`) too. */
  function LiTags(other: bool): TagFilter {
    if other then TagList(["ol", "ul"]) else OneTag("ol")
  }

  /** Whether `cover=False` keeps a song by `performer`: the artist name occurs in it, ignoring case. */
  predicate ByArtist(performer: string, artistName: string) {
    Contains(Lower(performer), Lower(artistName))
  }

  /**
   * The song one link names: its `title` attribute, trimmed and parsed with the artist's name;
   * its `href` becomes the song's href. A missing link or title raises `AttributeError`.
   */
  function SongOf(link: Option<Node>, artistName: string): (r: Result<SongSeed>)
    ensures link.None? ==> r == Err(AttributeError)
    ensures r.Err? ==> r.error == AttributeError || r.error == IndexError
    ensures r.Ok? ==> link.Some? && r.value.href == Attr(link.value, "href")
  {
    if link.None? then Err(AttributeError)
    else
      match Attr(link.value, "title")
      case None => Err(AttributeError)
      case Some(t) =>
        match ParseSongTitle(Strip(t), Some(artistName))
        case Err(e) => Err(e)
        case Ok(c) => Ok(SongSeed(c.artist, c.song, Attr(link.value, "href")))
  }

  /** What the links of a section name, link by link. */
  function SongsNamed(links: seq<Option<Node>>, artistName: string): (r: seq<Result<SongSeed>>)
    ensures |r| == |links|
  {
    seq(|links|, k requires 0 <= k < |links| => SongOf(links[k], artistName))
  }

  /** The songs a section keeps, in link order, or the first error: covers only on request. */
  function Keep(named: seq<Result<SongSeed>>, artistName: string, cover: bool): (r: Result<seq<SongSeed>>)
    ensures r.Ok? ==> |r.value| <= |named|
    decreases |named|
  {
    if named == [] then Ok([])
    else
      var prev := Keep(named[..|named| - 1], artistName, cover);
      if prev.Err? then prev
      else
        match named[|named| - 1]
        case Err(e) => Err(e)
        case Ok(seed) =>
          if cover || ByArtist(seed.artist, artistName) then Ok(prev.value + [seed]) else prev
  }

  /** Once a prefix of the links fails, the whole section fails with the same error. */
  lemma {:induction false} KeepErrSticks(named: seq<Result<SongSeed>>, m: nat, artistName: string, cover: bool)
    requires m <= |named|
    requires Keep(named[..m], artistName, cover).Err?
    ensures Keep(named, artistName, cover) == Keep(named[..m], artistName, cover)
    decreases |named|
  {
    if m < |named| {
      var init := named[..|named| - 1];
      assert init[..m] == named[..m];
      KeepErrSticks(init, m, artistName, cover);
    } else {
      assert named[..m] == named;
    }
  }

  /** One more link: an error ends the section, an accepted song is appended, a cover is skipped. */
  lemma KeepNext(named: seq<Result<SongSeed>>, j: nat, artistName: string, cover: bool)
    requires j < |named|
    requires Keep(named[..j], artistName, cover).Ok?
    ensures named[j].Err? ==> Keep(named[..j + 1], artistName, cover) == Err(named[j].error)
    ensures named[j].Ok? && (cover || ByArtist(named[j].value.artist, artistName)) ==>
      Keep(named[..j + 1], artistName, cover) == Ok(Keep(named[..j], artistName, cover).value + [named[j].value])
    ensures named[j].Ok? && !(cover || ByArtist(named[j].value.artist, artistName)) ==>
      Keep(named[..j + 1], artistName, cover) == Keep(named[..j], artistName, cover)
  {
    assert named[..j + 1][..j] == named[..j];
  }

  /** One more link that parses: the seeds so far, and its seed when it passes the filter. */
  lemma KeepOkNext(named: seq<Result<SongSeed>>, j: nat, artistName: string, cover: bool, seeds: seq<SongSeed>)
    requires j < |named| && named[j].Ok?
    requires Keep(named[..j], artistName, cover) == Ok(seeds)
    ensures Keep(named[..j + 1], artistName, cover)
      == Ok(if cover || ByArtist(named[j].value.artist, artistName) then seeds + [named[j].value] else seeds)
  {
    assert named[..j + 1][..j] == named[..j];
  }

  /** The songs of a section. */
  function SectionSongs(links: seq<Option<Node>>, artistName: string, cover: bool): Result<seq<SongSeed>> {
    Keep(SongsNamed(links, artistName), artistName, cover)
  }

  /**
   * Whether the album gets a type: the great-grandparent of the last link of the section is an
   * `ol`. A missing link or ancestor raises `AttributeError`.
   */
  function LastOuter(links: seq<Option<Node>>, doc: Doc): (r: Result<bool>)
    ensures links == [] ==> r == Ok(false)
    ensures r.Err? ==> r.error == AttributeError
    ensures r == Ok(true) ==> links != [] && links[|links| - 1].Some? && doc.outerName(links[|links| - 1].value) == Some("ol")
  {
    if links == [] then Ok(false)
    else if links[|links| - 1].None? then Err(AttributeError)
    else
      match doc.outerName(links[|links| - 1].value)
      case None => Err(AttributeError)
      case Some(name) => Ok(name == "ol")
  }

  /** The album of one heading: `None` when none of its songs is kept. */
  function SectionPlan(h: Heading, doc: Doc, artistName: string, cover: bool, other: bool): (r: Result<Option<AlbumPlan>>)
    ensures r.Ok? && r.value.Some? ==> |r.value.value.songs| > 0
  {
    var title := ParseAlbumHeader(Strip(GetText(h.span)));
    var links := SongLinks(h.following, LiTags(other));
    match SectionSongs(links, artistName, cover)
    case Err(e) => Err(e)
    case Ok(seeds) =>
      if |seeds| == 0 then Ok(None)
      else
        match LastOuter(links, doc)
        case Err(e) => Err(e)
        case Ok(typed) => Ok(Some(AlbumPlan(title, seeds, typed)))
  }

  /** What the headings of a page give, heading by heading. */
  function Sections(hs: seq<Heading>, doc: Doc, artistName: string, cover: bool, other: bool): (r: seq<Result<Option<AlbumPlan>>>)
    ensures |r| == |hs|
    ensures forall k | 0 <= k < |hs| :: r[k] == SectionPlan(hs[k], doc, artistName, cover, other)
  {
    MapSeq(hs, PlanOf(doc, artistName, cover, other))
  }

  /** `SectionPlan` as a function of the heading alone. */
  function PlanOf(doc: Doc, artistName: string, cover: bool, other: bool): Heading -> Result<Option<AlbumPlan>> {
    h => SectionPlan(h, doc, artistName, cover, other)
  }

  /** `f` applied to every element of `xs`, in order. */
  function MapSeq<A, B>(xs: seq<A>, f: A -> B): (r: seq<B>)
    ensures |r| == |xs|
    ensures forall k | 0 <= k < |xs| :: r[k] == f(xs[k])
  {
    seq(|xs|, k requires 0 <= k < |xs| => f(xs[k]))
  }

  lemma MapSeqSnoc<A, B>(xs: seq<A>, i: nat, f: A -> B)
    requires i < |xs|
    ensures MapSeq(xs[..i + 1], f) == MapSeq(xs[..i], f) + [f(xs[i])]
  {
    var l, r := MapSeq(xs[..i + 1], f), MapSeq(xs[..i], f) + [f(xs[i])];
    forall j | 0 <= j < i + 1
      ensures l[j] == r[j]
    {
      assert xs[..i + 1][j] == xs[j];
      if j < i {
        assert xs[..i][j] == xs[j];
      }
    }
  }

  /** The albums of the kept sections, in heading order, or the first error. */
  function Collect(rs: seq<Result<Option<AlbumPlan>>>): (r: Result<seq<AlbumPlan>>)
    ensures r.Ok? ==> |r.value| <= |rs|
    decreases |rs|
  {
    if rs == [] then Ok([])
    else
      var prev := Collect(rs[..|rs| - 1]);
      if prev.Err? then prev
      else
        match rs[|rs| - 1]
        case Err(e) => Err(e)
        case Ok(None) => prev
        case Ok(Some(p)) => Ok(prev.value + [p])
  }

  /** Once a prefix of the headings fails, the whole assembly fails with the same error. */
  lemma {:induction false} CollectErrSticks(rs: seq<Result<Option<AlbumPlan>>>, m: nat)
    requires m <= |rs|
    requires Collect(rs[..m]).Err?
    ensures Collect(rs) == Collect(rs[..m])
    decreases |rs|
  {
    if m < |rs| {
      var init := rs[..|rs| - 1];
      assert init[..m] == rs[..m];
      CollectErrSticks(init, m);
    } else {
      assert rs[..m] == rs;
    }
  }

  /** One more heading: an error ends the assembly, a kept section adds its album, an empty one nothing. */
  lemma CollectNext(rs: seq<Result<Option<AlbumPlan>>>, i: nat)
    requires i < |rs|
    requires Collect(rs[..i]).Ok?
    ensures rs[i].Err? ==> Collect(rs[..i + 1]) == Err(rs[i].error)
    ensures rs[i] == Ok(None) ==> Collect(rs[..i + 1]) == Collect(rs[..i])
    ensures rs[i].Ok? && rs[i].value.Some? ==> Collect(rs[..i + 1]) == Ok(Collect(rs[..i]).value + [rs[i].value.value])
  {
    assert rs[..i + 1][..i] == rs[..i];
  }

  /** One more section after a prefix that did not fail: what the assembly of the longer prefix is. */
  lemma CollectAppend(got: seq<Result<Option<AlbumPlan>>>, p: Result<Option<AlbumPlan>>)
    requires Collect(got).Ok?
    ensures p.Err? ==> Collect(got + [p]) == Err(p.error)
    ensures p == Ok(None) ==> Collect(got + [p]) == Collect(got)
    ensures p.Ok? && p.value.Some? ==> Collect(got + [p]) == Ok(Collect(got).value + [p.value.value])
  {
    assert (got + [p])[..|got|] == got;
  }

  /** The discography of a fetched artist page. */
  function Assembly(doc: Doc, artistName: string, cover: bool, other: bool): (r: Result<seq<AlbumPlan>>)
    ensures r.Ok? ==> |r.value| <= |doc.headings|
  {
    Collect(Sections(doc.headings, doc, artistName, cover, other))
  }

  /** The sections of one more heading are those before it and then its own. */
  lemma SectionsNext(hs: seq<Heading>, i: nat, doc: Doc, artistName: string, cover: bool, other: bool)
    requires i < |hs|
    ensures Sections(hs[..i + 1], doc, artistName, cover, other)
         == Sections(hs[..i], doc, artistName, cover, other) + [SectionPlan(hs[i], doc, artistName, cover, other)]
  {
    MapSeqSnoc(hs, i, PlanOf(doc, artistName, cover, other));
  }

  /** A section that fails after a prefix that did not makes the whole collection fail. */
  lemma CollectFailsAt(rs: seq<Result<Option<AlbumPlan>>>, got: seq<Result<Option<AlbumPlan>>>, e: Error)
    requires |got| < |rs| && rs[..|got|] == got
    requires Collect(got).Ok? && rs[|got|] == Err(e)
    ensures Collect(rs) == Err(e)
  {
    CollectNext(rs, |got|);
    CollectErrSticks(rs, |got| + 1);
  }

  /** A heading that fails after a prefix of headings that did not makes the whole assembly fail. */
  lemma AssemblyFailsAt(got: seq<Result<Option<AlbumPlan>>>, doc: Doc, artistName: string, cover: bool, other: bool, e: Error)
    requires |got| < |doc.headings|
    requires got == Sections(doc.headings[..|got|], doc, artistName, cover, other)
    requires Collect(got).Ok?
    requires SectionPlan(doc.headings[|got|], doc, artistName, cover, other) == Err(e)
    ensures Assembly(doc, artistName, cover, other) == Err(e)
  {
    var rs := Sections(doc.headings, doc, artistName, cover, other);
    forall j | 0 <= j < |got|
      ensures got[j] == rs[..|got|][j]
    {
      assert doc.headings[..|got|][j] == doc.headings[j];
    }
    assert rs[..|got|] == got;
    CollectFailsAt(rs, got, e);
  }

  /**
   * The reference definition of what a section keeps: the songs of the links that parse, in
   * link order, each kept when covers are wanted or when it is credited to the artist.
   */
  function Wanted(named: seq<Result<SongSeed>>, artistName: string, cover: bool): seq<SongSeed>
    decreases |named|
  {
    if named == [] then []
    else
      var last := named[|named| - 1];
      Wanted(named[..|named| - 1], artistName, cover)
      + (if last.Ok? && (cover || ByArtist(last.value.artist, artistName)) then [last.value] else [])
  }

  /** When the song loop does not raise, it keeps exactly the wanted songs, in link order. */
  lemma {:induction false} KeepIsWanted(named: seq<Result<SongSeed>>, artistName: string, cover: bool)
    ensures Keep(named, artistName, cover).Ok? ==> Keep(named, artistName, cover).value == Wanted(named, artistName, cover)
    decreases |named|
  {
    if named != [] {
      KeepIsWanted(named[..|named| - 1], artistName, cover);
    }
  }

  /** A song is wanted exactly when some link parses to it and it passes the cover filter. */
  lemma {:induction false} WantedHas(named: seq<Result<SongSeed>>, artistName: string, cover: bool, s: SongSeed)
    ensures s in Wanted(named, artistName, cover) <==>
      (cover || ByArtist(s.artist, artistName)) && exists k | 0 <= k < |named| :: named[k] == Ok(s)
    decreases |named|
  {
    if named != [] {
      var init := named[..|named| - 1];
      WantedHas(init, artistName, cover, s);
      if exists k | 0 <= k < |named| :: named[k] == Ok(s) {
        var k :| 0 <= k < |named| && named[k] == Ok(s);
        if k < |init| {
          assert init[k] == Ok(s);
        }
      }
      if exists k | 0 <= k < |init| :: init[k] == Ok(s) {
        var k :| 0 <= k < |init| && init[k] == Ok(s);
        assert named[k] == Ok(s);
      }
    }
  }

  /** With covers kept, every link of the section becomes a song: the kept songs are the links' songs, in order. */
  lemma {:induction false} CoversKeepEveryLink(named: seq<Result<SongSeed>>, artistName: string)
    ensures var r := Keep(named, artistName, true);
      r.Ok? ==> |r.value| == |named| && forall k | 0 <= k < |named| :: named[k] == Ok(r.value[k])
    decreases |named|
  {
    if named != [] {
      var init := named[..|named| - 1];
      CoversKeepEveryLink(init, artistName);
      var r := Keep(named, artistName, true);
      if r.Ok? {
        var prev := Keep(init, artistName, true);
        assert r.value == prev.value + [named[|named| - 1].value];
        forall k | 0 <= k < |named|
          ensures named[k] == Ok(r.value[k])
        {
          if k < |init| {
            assert init[k] == named[k];
          }
        }
      }
    }
  }

  /**
   * Without covers, a section that does not raise keeps exactly the songs credited to the
   * artist, in link order: every kept song is credited to the artist, and every link whose
   * song is credited to the artist gives a kept song.
   */
  lemma CoverFilter(named: seq<Result<SongSeed>>, artistName: string)
    ensures var r := Keep(named, artistName, false);
      r.Ok? ==> r.value == Wanted(named, artistName, false)
    ensures var r := Keep(named, artistName, false);
      r.Ok? ==> forall k | 0 <= k < |r.value| :: ByArtist(r.value[k].artist, artistName)
    ensures var r := Keep(named, artistName, false);
      r.Ok? ==> forall k | 0 <= k < |named| :: named[k].Ok? && ByArtist(named[k].value.artist, artistName) ==> named[k].value in r.value
  {
    var r := Keep(named, artistName, false);
    KeepIsWanted(named, artistName, false);
    if r.Ok? {
      forall k | 0 <= k < |r.value|
        ensures ByArtist(r.value[k].artist, artistName)
      {
        WantedHas(named, artistName, false, r.value[k]);
      }
      forall k | 0 <= k < |named| && named[k].Ok? && ByArtist(named[k].value.artist, artistName)
        ensures named[k].value in r.value
      {
        WantedHas(named, artistName, false, named[k].value);
      }
    }
  }

  /** A section fails exactly when one of its links names no song. */
  lemma {:induction false} KeepFailsIff(named: seq<Result<SongSeed>>, artistName: string, cover: bool)
    ensures Keep(named, artistName, cover).Err? <==> exists k | 0 <= k < |named| :: named[k].Err?
  {
    if named != [] {
      var init := named[..|named| - 1];
      KeepFailsIff(init, artistName, cover);
      if named[|named| - 1].Err? {
        assert named[|named| - 1].Err?;
      } else {
        forall k | 0 <= k < |init|
          ensures named[k] == init[k]
        {
        }
      }
    }
  }

  /** Every album of the assembly has at least one song. */
  lemma {:induction false} NoEmptyAlbum(rs: seq<Result<Option<AlbumPlan>>>)
    requires forall k | 0 <= k < |rs| :: rs[k].Ok? && rs[k].value.Some? ==> |rs[k].value.value.songs| > 0
    ensures Collect(rs).Ok? ==> forall k | 0 <= k < |Collect(rs).value| :: |Collect(rs).value[k].songs| > 0
  {
    if rs != [] {
      NoEmptyAlbum(rs[..|rs| - 1]);
    }
  }

  /** No album of a page's discography is empty. */
  lemma AssemblyHasNoEmptyAlbum(doc: Doc, artistName: string, cover: bool, other: bool)
    ensures var r := Assembly(doc, artistName, cover, other);
      r.Ok? ==> forall k | 0 <= k < |r.value| :: |r.value[k].songs| > 0
  {
    var rs := Sections(doc.headings, doc, artistName, cover, other);
    forall k | 0 <= k < |rs|
      ensures rs[k].Ok? && rs[k].value.Some? ==> |rs[k].value.value.songs| > 0
    {
    }
    NoEmptyAlbum(rs);
  }

  /** Without covers, no album of a page's discography holds a song by another artist. */
  lemma NoCoverKept(doc: Doc, artistName: string, other: bool)
    ensures var r := Assembly(doc, artistName, false, other);
      r.Ok? ==> forall k, j | 0 <= k < |r.value| && 0 <= j < |r.value[k].songs| :: ByArtist(r.value[k].songs[j].artist, artistName)
  {
    var rs := Sections(doc.headings, doc, artistName, false, other);
    forall k | 0 <= k < |rs|
      ensures rs[k].Ok? && rs[k].value.Some? ==> ByArtistOnly(rs[k].value.value, artistName)
    {
      SectionCoverFilter(doc.headings[k], doc, artistName, other);
    }
    CollectByArtist(rs, artistName);
  }

  /** Whether every song of an album is performed by an artist whose name contains `artistName`. */
  predicate ByArtistOnly(p: AlbumPlan, artistName: string) {
    forall j | 0 <= j < |p.songs| :: ByArtist(p.songs[j].artist, artistName)
  }

  /** Without covers, a section keeps only songs by the artist. */
  lemma SectionCoverFilter(h: Heading, doc: Doc, artistName: string, other: bool)
    ensures var r := SectionPlan(h, doc, artistName, false, other);
      r.Ok? && r.value.Some? ==> ByArtistOnly(r.value.value, artistName)
  {
    CoverFilter(SongsNamed(SongLinks(h.following, LiTags(other)), artistName), artistName);
  }

  lemma {:induction false} CollectByArtist(rs: seq<Result<Option<AlbumPlan>>>, artistName: string)
    requires forall k | 0 <= k < |rs| :: rs[k].Ok? && rs[k].value.Some? ==> ByArtistOnly(rs[k].value.value, artistName)
    ensures Collect(rs).Ok? ==> forall k | 0 <= k < |Collect(rs).value| :: ByArtistOnly(Collect(rs).value[k], artistName)
  {
    if rs != [] {
      CollectByArtist(rs[..|rs| - 1], artistName);
    }
  }

  /**
   * The albums are the kept sections in heading order: the assembly fails exactly when one
   * section fails, and otherwise holds one album per section that keeps a song.
   */
  lemma {:induction false} CollectInOrder(rs: seq<Result<Option<AlbumPlan>>>)
    ensures Collect(rs).Err? <==> exists k | 0 <= k < |rs| :: rs[k].Err?
    ensures Collect(rs).Ok? ==> Collect(rs).value == Kept(rs)
  {
    if rs != [] {
      var init := rs[..|rs| - 1];
      CollectInOrder(init);
      if rs[|rs| - 1].Err? {
        assert rs[|rs| - 1].Err?;
      } else {
        forall k | 0 <= k < |init|
          ensures rs[k] == init[k]
        {
        }
      }
    }
  }

  /** The albums of the sections that keep a song, in order: the reference `Collect` is held to. */
  function Kept(rs: seq<Result<Option<AlbumPlan>>>): seq<AlbumPlan>
    decreases |rs|
  {
    if rs == [] then []
    else
      var last := rs[|rs| - 1];
      Kept(rs[..|rs| - 1]) + (if last.Ok? && last.value.Some? then [last.value.value] else [])
  }
}
