/**
 * The scraping rules of `lyricwiki/scrape.py` over a parsed page: page urls, the sibling
 * walks that collect the songs of an album heading and the groups of the external-links
 * section, the bucketing of external links by platform, the artist-information table and
 * the lyrics box. The CSS selections `h2 .mw-headline` and `#External_links` are inputs:
 * the siblings that follow the selected heading.
 */
module Scrape {
  import opened Wrappers
  import opened PyStr
  import opened Names
  import opened Markup
  import opened Lyrics

  /** The address every wiki page lives under. */
  const WikiBase := "https://lyrics.fandom.com/wiki/"

  /**
   * `generate_artist_url`: the wiki base followed by the slug of the artist, so after the
   * wiki base the url holds only url-safe characters, and no space.
   */
  function GenerateArtistUrl(artist: string): (r: string)
    ensures |r| >= |WikiBase| && r[..|WikiBase|] == WikiBase
    ensures ' ' !in r[|WikiBase|..] && SlugText(r[|WikiBase|..])
  {
    var id := NameToWikiId(artist);
    assert (WikiBase + id)[|WikiBase|..] == id;
    WikiBase + id
  }

  /** `r` starts with the artist url `a` and `:`, and ends with the year and `)`. */
  predicate AlbumUrlShape(r: string, a: string, year: string) {
    |r| > |a| + |year| + 1 && r[..|a|] == a && r[|a|] == ':' && r[|r| - |year| - 1..] == year + ")"
  }

  /**
   * `generate_album_url`: the artist url, then `:`, the album slug and the year in brackets,
   * so it starts with the url of its artist and `:` and ends with the year and `)`.
   */
  function GenerateAlbumUrl(artist: string, album: string, year: string): (r: string)
    ensures AlbumUrlShape(r, GenerateArtistUrl(artist), year)
  {
    var a, t := GenerateArtistUrl(artist), AlbumTail(album, year);
    TailParts(a, NameToWikiId(album), year);
    a + t
  }

  /** What an album url adds to the url of its artist. */
  function AlbumTail(album: string, year: string): string {
    ":" + NameToWikiId(album) + "_(" + (year + ")")
  }

  lemma TailParts(a: string, id: string, year: string)
    ensures AlbumUrlShape(a + (":" + id + "_(" + (year + ")")), a, year)
  {
    var front, back := ":" + id + "_(", year + ")";
    ConcatEnds(front, back, |back|);
    ConcatEnds(a, front + back, |back|);
  }

  /** The start and the end of a concatenation. */
  lemma ConcatEnds(a: string, t: string, n: nat)
    requires 0 < |t| && n <= |t|
    ensures (a + t)[..|a|] == a && (a + t)[|a|] == t[0]
    ensures (a + t)[|a| + |t| - n..] == t[|t| - n..]
  {
  }

  /** `generate_artist_url` of lower-case words: each word capitalised, joined by `_`. */
  lemma ArtistUrlOfLowerWords(ws: seq<string>)
    requires |ws| > 0 && LowerWords(ws)
    requires Strip(Join(ws, " ")) == Join(ws, " ")
    ensures GenerateArtistUrl(Join(ws, " ")) == WikiBase + Join(CapitalisedAll(ws), "_")
  {
    NameToWikiIdLowerWords(ws);
  }

  /** The words of `london grammar`, and their capitalised forms. */
  lemma LondonGrammarWords()
    ensures Join(["london", "grammar"], " ") == "london" + " " + "grammar"
    ensures LowerWords(["london", "grammar"])
    ensures Strip("london" + " " + "grammar") == "london" + " " + "grammar"
    ensures CapitalisedAll(["london", "grammar"]) == ["London", "Grammar"]
    ensures Join(["London", "Grammar"], "_") == "London_Grammar"
  {
    JoinTwo("london", "grammar", " ");
    JoinTwo("London", "Grammar", "_");
    assert UpperChar('l') == 'L' && UpperChar('g') == 'G';
    assert Capitalised("london") == "London";
    assert Capitalised("grammar") == "Grammar";
    StripTrimmed("london" + " " + "grammar");
  }

  /** The example of `generate_artist_url`: `london grammar` lives at `.../wiki/London_Grammar`. */
  lemma GenerateArtistUrlExample()
    ensures GenerateArtistUrl("london" + " " + "grammar") == "https://lyrics.fandom.com/wiki/" + "London_Grammar"
  {
    LondonGrammarWords();
    ArtistUrlOfLowerWords(["london", "grammar"]);
  }

  /** The words of `if you wait` joined by spaces, and their capitalised forms joined by `_`. */
  lemma IfYouWaitJoined()
    ensures Join(["if", "you", "wait"], " ") == "if" + " " + "you" + " " + "wait"
    ensures Strip("if" + " " + "you" + " " + "wait") == "if" + " " + "you" + " " + "wait"
    ensures Join(["If", "You", "Wait"], "_") == "If_You_Wait"
  {
    JoinCons("if", ["you", "wait"], " ");
    JoinTwo("you", "wait", " ");
    JoinCons("If", ["You", "Wait"], "_");
    JoinTwo("You", "Wait", "_");
    StripTrimmed("if" + " " + "you" + " " + "wait");
  }

  /** The words of `if you wait` are lower case, and their capitalised forms. */
  lemma IfYouWaitCapitalised()
    ensures LowerWords(["if", "you", "wait"])
    ensures CapitalisedAll(["if", "you", "wait"]) == ["If", "You", "Wait"]
  {
    assert UpperChar('i') == 'I' && UpperChar('y') == 'Y' && UpperChar('w') == 'W';
    assert Capitalised("if") == "If";
    assert Capitalised("you") == "You";
    assert Capitalised("wait") == "Wait";
  }

  /** The example of `generate_album_url`: `If You Wait` of 2013 by `london grammar`. */
  lemma GenerateAlbumUrlExample()
    ensures GenerateAlbumUrl("london" + " " + "grammar", "if" + " " + "you" + " " + "wait", "2013")
         == "https://lyrics.fandom.com/wiki/" + "London_Grammar" + ":" + "If_You_Wait" + "_(" + "2013" + ")"
  {
    GenerateArtistUrlExample();
    IfYouWaitJoined();
    IfYouWaitCapitalised();
    NameToWikiIdLowerWords(["if", "you", "wait"]);
    UrlPieces("https://lyrics.fandom.com/wiki/", "London_Grammar", ":", "If_You_Wait", "_(", "2013", ")");
  }

  /** Regrouping the pieces of an album url. */
  lemma UrlPieces(a: string, b: string, c: string, d: string, e: string, f: string, g: string)
    ensures (a + b) + (c + d + e + (f + g)) == a + b + c + d + e + f + g
  {
  }

  // ---------------------------------------------------------------------------------------
  // Sibling walks
  // ---------------------------------------------------------------------------------------

  /** Where a `next_sibling` walk ends: at a false node (or the end) and at the next `h2`. */
  predicate Stops(n: Node) {
    !Truthy(n) || Named(n, "h2")
  }

  /** The siblings the cursor of a walk visits: those before the first stopping sibling. */
  function Walk(sibs: seq<Node>): (r: seq<Node>)
    ensures |r| <= |sibs| && r == sibs[..|r|]
    ensures forall k | 0 <= k < |r| :: !Stops(r[k])
    ensures |r| < |sibs| ==> Stops(sibs[|r|])
  {
    if sibs == [] || Stops(sibs[0]) then [] else [sibs[0]] + Walk(sibs[1..])
  }

  /** A prefix free of stopping siblings and followed by a stopping one (or by nothing) is the walk. */
  lemma {:induction false} WalkUnique(sibs: seq<Node>, i: nat)
    requires i <= |sibs|
    requires forall k | 0 <= k < i :: !Stops(sibs[k])
    requires i < |sibs| ==> Stops(sibs[i])
    ensures Walk(sibs) == sibs[..i]
  {
    var w := Walk(sibs);
    forall k | 0 <= k < |w|
      ensures !Stops(sibs[k])
    {
      assert w[k] == sibs[k];
    }
    assert |w| == i;
  }

  /** No sibling from the next `h2` on is visited. */
  lemma StopsAtHeading(sibs: seq<Node>, j: nat)
    requires j < |sibs| && Named(sibs[j], "h2")
    ensures |Walk(sibs)| <= j
    ensures Walk(sibs) == Walk(sibs[..j])
  {
    var w := Walk(sibs);
    forall k | 0 <= k < |w|
      ensures !Stops(sibs[k])
    {
      assert sibs[k] == w[k];
    }
    var p := sibs[..j];
    forall k | 0 <= k < |w|
      ensures !Stops(p[k])
    {
      assert p[k] == w[k];
    }
    if |w| < j {
      assert p[|w|] == sibs[|w|];
    }
    WalkUnique(p, |w|);
  }

  // ---------------------------------------------------------------------------------------
  // scrape_songs
  // ---------------------------------------------------------------------------------------

  /** The `li_tag` argument: one name, tested as a substring of it, or a list of names. */
  datatype TagFilter = OneTag(tag: string) | TagList(tags: seq<string>)

  /** `soup.name and soup.name in li_tag`. */
  predicate Accepted(n: Node, f: TagFilter) {
    n.Tag? && n.name != "" &&
    match f
    case OneTag(t) => Contains(t, n.name)
    case TagList(ts) => n.name in ts
  }

  /** `li.find('a')` of each `li`, in order. */
  function FirstAnchors(lis: seq<Node>): (r: seq<Option<Node>>)
    decreases |lis|
  {
    if lis == [] then [] else FirstAnchors(lis[..|lis| - 1]) + [FindFirst(lis[|lis| - 1], "a")]
  }

  /** What one visited sibling yields: the first link of each `li` below it when it is accepted. */
  function SongsFrom(n: Node, f: TagFilter): seq<Option<Node>> {
    if Accepted(n, f) then FirstAnchors(FindAll(n, "li", AnyClass)) else []
  }

  /** What a run of visited siblings yields, in order. */
  function SongsOf(ns: seq<Node>, f: TagFilter): seq<Option<Node>>
    decreases |ns|
  {
    if ns == [] then [] else SongsOf(ns[..|ns| - 1], f) + SongsFrom(ns[|ns| - 1], f)
  }

  /** The links `scrape_songs` yields for the siblings `sibs` that follow an album heading. */
  function SongLinks(sibs: seq<Node>, f: TagFilter): seq<Option<Node>> {
    SongsOf(Walk(sibs), f)
  }

  /** Every yielded link is `None` or an `a` element. */
  lemma {:induction false} SongLinksAreAnchors(ns: seq<Node>, f: TagFilter)
    ensures forall x | x in SongsOf(ns, f) :: x.None? || Named(x.value, "a")
    decreases |ns|
  {
    if ns != [] {
      SongLinksAreAnchors(ns[..|ns| - 1], f);
      var lis := if Accepted(ns[|ns| - 1], f) then FindAll(ns[|ns| - 1], "li", AnyClass) else [];
      FirstAnchorsAre(lis);
    }
  }

  lemma {:induction false} FirstAnchorsAre(lis: seq<Node>)
    ensures forall x | x in FirstAnchors(lis) :: x.None? || Named(x.value, "a")
    decreases |lis|
  {
    if lis != [] {
      FirstAnchorsAre(lis[..|lis| - 1]);
      FindFirstFinds(lis[|lis| - 1], "a");
    }
  }

  /** The siblings of `ns` that the tag filter accepts, in order. */
  function AcceptedOnly(ns: seq<Node>, f: TagFilter): (r: seq<Node>)
    decreases |ns|
  {
    if ns == [] then []
    else AcceptedOnly(ns[..|ns| - 1], f) + (if Accepted(ns[|ns| - 1], f) then [ns[|ns| - 1]] else [])
  }

  /** A sibling whose name the filter rejects contributes nothing: only the accepted ones count. */
  lemma {:induction false} OnlyAcceptedContribute(ns: seq<Node>, f: TagFilter)
    ensures SongsOf(ns, f) == SongsOf(AcceptedOnly(ns, f), f)
    decreases |ns|
  {
    if ns != [] {
      var init, x := ns[..|ns| - 1], ns[|ns| - 1];
      OnlyAcceptedContribute(init, f);
      var a := AcceptedOnly(init, f);
      if Accepted(x, f) {
        assert (a + [x])[..|a + [x]| - 1] == a;
      } else {
        assert AcceptedOnly(ns, f) == a + [] == a;
      }
    }
  }

  /** When `li_tag` is the single string `'ol'`, any element whose name is a substring of it is accepted. */
  lemma OneTagIsSubstringTest()
    ensures Accepted(Tag("l", [], map[], []), OneTag("ol"))
    ensures !Accepted(Tag("l", [], map[], []), TagList(["ol", "ul"]))
  {
    assert OccursAt("ol", "l", 1);
    ContainsIff("ol", "l", 1);
  }

  /** The inner loop of `scrape_songs`: `li.find('a')` for each `li` of an accepted sibling. */
  method FirstLinks(lis: seq<Node>) returns (r: seq<Option<Node>>)
    ensures r == FirstAnchors(lis)
  {
    r := [];
    var j := 0;
    while j < |lis|
      invariant j <= |lis|
      invariant r == FirstAnchors(lis[..j])
    {
      assert lis[..j + 1][..j] == lis[..j];
      r := r + [FindFirst(lis[j], "a")];
      j := j + 1;
    }
    assert lis[..|lis|] == lis;
  }

  /** The body of the `scrape_songs` loop for one visited sibling. */
  method SiblingSongs(soup: Node, f: TagFilter) returns (yielded: seq<Option<Node>>)
    ensures yielded == SongsFrom(soup, f)
  {
    yielded := [];
    if soup.Tag? && soup.name != "" && Accepted(soup, f) {
      yielded := FirstLinks(FindAll(soup, "li", AnyClass));
    }
  }

  lemma SongsOfSnoc(sibs: seq<Node>, i: nat, f: TagFilter)
    requires i < |sibs|
    ensures SongsOf(sibs[..i + 1], f) == SongsOf(sibs[..i], f) + SongsFrom(sibs[i], f)
  {
    assert sibs[..i + 1][..i] == sibs[..i];
  }

  /** Within the walk, the cursor goes on exactly while it is inside the walk, on the walk's sibling. */
  lemma WalkGoesOn(sibs: seq<Node>, i: nat)
    requires i <= |Walk(sibs)|
    ensures (i < |sibs| && !Stops(sibs[i])) <==> i < |Walk(sibs)|
    ensures i < |Walk(sibs)| ==> Walk(sibs)[i] == sibs[i]
  {
    var w := Walk(sibs);
    if i < |w| {
      assert w[i] == sibs[..|w|][i];
    }
  }

  /** `scrape_songs(album_h2_tag, li_tag)`, given the siblings that follow the heading. */
  method ScrapeSongs(sibs: seq<Node>, f: TagFilter) returns (r: seq<Option<Node>>)
    ensures r == SongLinks(sibs, f)
  {
    ghost var w := Walk(sibs);
    r := [];
    var i := 0;
    WalkGoesOn(sibs, 0);
    while i < |sibs| && !Stops(sibs[i])
      invariant i <= |w|
      invariant (i < |sibs| && !Stops(sibs[i])) <==> i < |w|
      invariant r == SongsOf(w[..i], f)
    {
      WalkGoesOn(sibs, i);
      var yielded := SiblingSongs(sibs[i], f);
      SongsOfSnoc(w, i, f);
      r := r + yielded;
      i := i + 1;
      WalkGoesOn(sibs, i);
    }
    assert w[..i] == w;
  }

  // ---------------------------------------------------------------------------------------
  // scrape_external_links and get_external_links
  // ---------------------------------------------------------------------------------------

  /** The `div` siblings among those visited, in order. */
  function Divs(ns: seq<Node>): (r: seq<Node>)
    ensures forall d | d in r :: d in ns && Named(d, "div")
    ensures forall k | 0 <= k < |ns| && Named(ns[k], "div") :: ns[k] in r
    decreases |ns|
  {
    if ns == [] then []
    else
      var init, x := ns[..|ns| - 1], ns[|ns| - 1];
      var r := Divs(init) + (if Named(x, "div") then [x] else []);
      assert forall k | 0 <= k < |ns| - 1 :: ns[k] == init[k];
      r
  }

  /**
   * `scrape_external_links`. `anchors` holds, for each element the `#External_links` selection
   * finds, the siblings that follow its parent heading; an empty selection raises `IndexError`.
   */
  method ScrapeExternalLinks(anchors: seq<seq<Node>>) returns (r: Result<seq<Node>>)
    ensures r.Err? <==> |anchors| == 0
    ensures r.Err? ==> r.error == IndexError
    ensures r.Ok? ==> r.value == Divs(Walk(anchors[0]))
  {
    if |anchors| == 0 {
      return Err(IndexError);
    }
    var sibs := anchors[0];
    var groups := [];
    var i := 0;
    while i < |sibs| && !Stops(sibs[i])
      invariant i <= |sibs|
      invariant forall k | 0 <= k < i :: !Stops(sibs[k])
      invariant groups == Divs(sibs[..i])
    {
      if Named(sibs[i], "div") {
        groups := groups + [sibs[i]];
      }
      assert sibs[..i + 1][..i] == sibs[..i];
      i := i + 1;
    }
    WalkUnique(sibs, i);
    r := Ok(groups);
  }

  /** The platforms `get_external_links` keeps, in their listed order. */
  const LinkKeys: seq<string> := [
    "Amazon", "Last.fm", "iTunes", "AllMusic", "Discogs", "MusicBrainz",
    "Spotify", "Bandcamp", "Wikipedia", "Pandora", "Hype Machine"
  ]

  /** The label of a link group: its text before the first `:`, trimmed. */
  function GroupKey(g: Node): string {
    Strip(Split(GetText(g), ":")[0])
  }

  /** The anchors of a link group whose class is `external` and `text`. */
  function ExternalAnchors(g: Node): seq<Node> {
    FindAll(g, "a", ClassIn({"class", "external text"}))
  }

  /** `link_a.get('href')` of each anchor, in order. */
  function Hrefs(anchors: seq<Node>): (r: seq<Option<string>>)
    ensures |r| == |anchors|
    decreases |anchors|
  {
    if anchors == [] then [] else Hrefs(anchors[..|anchors| - 1]) + [Attr(anchors[|anchors| - 1], "href")]
  }

  /** The links a table of platforms maps to. */
  type Links = map<string, seq<Option<string>>>

  /** The hrefs of the external anchors of one group added under its label, when the label is kept. */
  function AddGroup(m: Links, g: Node): Links {
    var key, hs := GroupKey(g), Hrefs(ExternalAnchors(g));
    if key in LinkKeys && |hs| > 0 then m[key := Entry(m, key) + hs] else m
  }

  /** `links.setdefault(key, [])`: the list under `key`, empty when there is none yet. */
  function Entry(m: Links, key: string): seq<Option<string>> {
    if key in m then m[key] else []
  }

  /**
   * The table `get_external_links` builds from the link groups `gs`, visited in order: every
   * key is a kept platform and no list of the table is empty.
   */
  function LinkTable(gs: seq<Node>): (r: Links)
    ensures forall k | k in r :: k in LinkKeys && |r[k]| > 0
    decreases |gs|
  {
    if gs == [] then map[] else AddGroup(LinkTable(gs[..|gs| - 1]), gs[|gs| - 1])
  }

  /** The reference definition: every href of every group labelled `key`, in discovery order. */
  function HrefsFor(gs: seq<Node>, key: string): seq<Option<string>>
    decreases |gs|
  {
    if gs == [] then []
    else
      var g := gs[|gs| - 1];
      HrefsFor(gs[..|gs| - 1], key) + (if GroupKey(g) == key then Hrefs(ExternalAnchors(g)) else [])
  }

  /**
   * The list under a kept platform holds exactly the hrefs of all groups with that label, in
   * group-then-anchor order; a kept platform with no such href has no entry.
   */
  lemma {:induction false} LinkTableByKey(gs: seq<Node>, key: string)
    requires key in LinkKeys
    ensures key in LinkTable(gs) <==> HrefsFor(gs, key) != []
    ensures key in LinkTable(gs) ==> LinkTable(gs)[key] == HrefsFor(gs, key)
    decreases |gs|
  {
    if gs != [] {
      LinkTableByKey(gs[..|gs| - 1], key);
    }
  }

  /** The anchor loop of `get_external_links` for one group: each href appended under `key` when it is kept. */
  method AddHrefs(links: Links, key: string, found: seq<Node>) returns (m: Links)
    ensures m == if key in LinkKeys && |found| > 0 then links[key := Entry(links, key) + Hrefs(found)] else links
  {
    m := links;
    ghost var base := Entry(links, key);
    var kept := key in LinkKeys;
    var j := 0;
    while j < |found|
      invariant j <= |found|
      invariant m == if kept && j > 0 then links[key := base + Hrefs(found[..j])] else links
    {
      var href := Attr(found[j], "href");
      assert found[..j + 1][..j] == found[..j];
      assert Hrefs(found[..j + 1]) == Hrefs(found[..j]) + [href];
      if kept {
        var prev := Entry(m, key);
        assert prev == base + Hrefs(found[..j]);
        assert prev + [href] == base + Hrefs(found[..j + 1]);
        m := m[key := prev + [href]];
        assert m == links[key := base + Hrefs(found[..j + 1])];
      }
      j := j + 1;
    }
    assert found[..|found|] == found;
  }

  /**
   * `get_external_links`, given the `#External_links` selection as `scrape_external_links`
   * takes it; an empty selection raises `IndexError`.
   */
  method GetExternalLinks(anchors: seq<seq<Node>>) returns (r: Result<Links>)
    ensures r.Err? <==> |anchors| == 0
    ensures r.Ok? ==> r.value == LinkTable(Divs(Walk(anchors[0])))
  {
    var scraped := ScrapeExternalLinks(anchors);
    if scraped.Err? {
      return Err(scraped.error);
    }
    var gs := scraped.value;
    var links: Links := map[];
    var i := 0;
    while i < |gs|
      invariant i <= |gs|
      invariant links == LinkTable(gs[..i])
    {
      var g := gs[i];
      links := AddHrefs(links, GroupKey(g), ExternalAnchors(g));
      assert gs[..i + 1][..i] == gs[..i] && gs[..i + 1][i] == g;
      i := i + 1;
    }
    assert gs[..|gs|] == gs;
    r := Ok(links);
  }

  // ---------------------------------------------------------------------------------------
  // get_artist_info
  // ---------------------------------------------------------------------------------------

  /**
   * A value of the artist-information table: `None` right after its label, one line of text,
   * or the names of a list, without repeats and in no particular order (`list(set(...))`).
   */
  datatype InfoValue = NoValue | Line(text: string) | Items(names: set<string>)

  type Info = map<string, InfoValue>

  /** What the loop of `get_artist_info` carries: the current key and the table so far. */
  datatype InfoState = InfoState(key: string, data: Info)

  /** Before any label the current key is `other` and the table is empty. */
  const InitialInfo := InfoState("other", map[])

  /** The stripped, title-cased text of a label paragraph. */
  function LabelText(p: Node): string {
    Title(Strip(GetText(p)))
  }

  /**
   * The key a label paragraph sets: its stripped, title-cased text with one trailing `:`
   * removed. An empty text raises `IndexError` (`key[-1]` of an empty string).
   */
  function LabelKey(p: Node): (r: Result<string>)
    ensures r.Err? <==> LabelText(p) == ""
    ensures r.Err? ==> r.error == IndexError
    ensures r.Ok? ==> var t := LabelText(p);
      |t| > 0 && |t| - 1 <= |r.value| <= |t| && r.value == t[..|r.value|] && (|r.value| < |t| <==> t[|t| - 1] == ':')
  {
    var t := LabelText(p);
    if |t| == 0 then Err(IndexError)
    else if t[|t| - 1] == ':' then Ok(t[..|t| - 1])
    else Ok(t)
  }

  /** Whether a cell is a label whose text is empty. */
  predicate EmptyLabel(c: Node) {
    Named(c, "p") && LabelText(c) == ""
  }

  /** The stripped texts of the `a` elements and then the `b` elements of a list, as a set. */
  function ItemNames(ul: Node): set<string> {
    set e | e in FindAll(ul, "a", AnyClass) + FindAll(ul, "b", AnyClass) :: Strip(GetText(e))
  }

  /** The value an item of a value `div` gives: a paragraph its line, a list its names, anything else none. */
  function ItemValue(item: Node): Option<InfoValue> {
    if Named(item, "p") then Some(Line(Strip(GetText(item))))
    else if Named(item, "ul") then Some(Items(ItemNames(item)))
    else None
  }

  /** The items of a value `div`, each one with a value writing it under `key`, in order. */
  function DivValues(data: Info, key: string, items: seq<Node>): Info
    decreases |items|
  {
    if items == [] then data
    else
      var prev := DivValues(data, key, items[..|items| - 1]);
      var v := ItemValue(items[|items| - 1]);
      if v.Some? then prev[key := v.value] else prev
  }

  /** One cell of a table: a label sets the key (and `None` under it), a `div` writes values under the key. */
  function Step(st: InfoState, cell: Node): Result<InfoState> {
    if Named(cell, "p") then
      match LabelKey(cell)
      case Err(e) => Err(e)
      case Ok(k) => Ok(InfoState(k, st.data[k := NoValue]))
    else if Named(cell, "div") then Ok(InfoState(st.key, DivValues(st.data, st.key, cell.children)))
    else Ok(st)
  }

  /** The cells visited in order from `st`; the first empty label raises. */
  function Run(st: InfoState, cells: seq<Node>): Result<InfoState>
    decreases |cells|
  {
    if cells == [] then Ok(st)
    else
      match Run(st, cells[..|cells| - 1])
      case Err(e) => Err(e)
      case Ok(s) => Step(s, cells[|cells| - 1])
  }

  /** The children of each node of a list, one list after the other. */
  function ChildrenOfAll(ns: seq<Node>): seq<Node>
    decreases |ns|
  {
    if ns == [] then []
    else ChildrenOfAll(ns[..|ns| - 1]) + (if ns[|ns| - 1].Tag? then ns[|ns| - 1].children else [])
  }

  /** The cells of the `css-table-cell` tables of each container, one container after the other. */
  function CellsOfAll(containers: seq<Node>): seq<Node>
    decreases |containers|
  {
    if containers == [] then []
    else
      var c := containers[|containers| - 1];
      CellsOfAll(containers[..|containers| - 1]) + ChildrenOfAll(FindAll(c, "div", ClassIn({"css-table-cell"})))
  }

  /** The cells `get_artist_info` visits: the children of the tables of the `artist-info` containers. */
  function InfoCells(page: Node): seq<Node> {
    CellsOfAll(FindAll(page, "div", ClassIn({"class", "artist-info"})))
  }

  /**
   * The result of `get_artist_info` on `page`: it raises exactly when one of the cells is a
   * label with an empty text, and then raises `IndexError`.
   */
  function ArtistInfo(page: Node): (r: Result<Info>)
    ensures r.Err? <==> exists k | 0 <= k < |InfoCells(page)| :: EmptyLabel(InfoCells(page)[k])
    ensures r.Err? ==> r.error == IndexError
  {
    RunFailsIff(InitialInfo, InfoCells(page));
    RunErrIsIndex(InitialInfo, InfoCells(page));
    match Run(InitialInfo, InfoCells(page))
    case Err(e) => Err(e)
    case Ok(s) => Ok(s.data)
  }

  lemma RunSnoc(st: InfoState, cells: seq<Node>, i: nat)
    requires i < |cells|
    ensures Run(st, cells[..i + 1]) == match Run(st, cells[..i])
      case Err(e) => Err(e)
      case Ok(s) => Step(s, cells[i])
  {
    assert cells[..i + 1][..i] == cells[..i];
  }

  /** Once a cell raises, the whole walk raises `IndexError`. */
  lemma {:induction false} RunErrSticks(st: InfoState, cells: seq<Node>, i: nat)
    requires i <= |cells| && Run(st, cells[..i]).Err?
    ensures Run(st, cells) == Err(IndexError)
    decreases |cells| - i
  {
    if i < |cells| {
      RunSnoc(st, cells, i);
      RunErrSticks(st, cells, i + 1);
    } else {
      assert cells[..i] == cells;
      RunErrIsIndex(st, cells);
    }
  }

  /** The only error of the walk is `IndexError`. */
  lemma {:induction false} RunErrIsIndex(st: InfoState, cells: seq<Node>)
    ensures Run(st, cells).Err? ==> Run(st, cells).error == IndexError
    decreases |cells|
  {
    if cells != [] {
      RunErrIsIndex(st, cells[..|cells| - 1]);
    }
  }

  /** The walk raises exactly when one of its cells is a label with an empty text. */
  lemma {:induction false} RunFailsIff(st: InfoState, cells: seq<Node>)
    ensures Run(st, cells).Err? <==> exists k | 0 <= k < |cells| :: EmptyLabel(cells[k])
    decreases |cells|
  {
    if cells != [] {
      var init := cells[..|cells| - 1];
      RunFailsIff(st, init);
      if exists k | 0 <= k < |init| :: EmptyLabel(init[k]) {
        var k :| 0 <= k < |init| && EmptyLabel(init[k]);
        assert cells[k] == init[k];
      }
      if exists k | 0 <= k < |cells| :: EmptyLabel(cells[k]) {
        var k :| 0 <= k < |cells| && EmptyLabel(cells[k]);
        if k < |init| {
          assert init[k] == cells[k];
        }
      }
    }
  }

  /** Values written before any label go under `other`, and `other` is then the only key. */
  lemma {:induction false} OtherBeforeLabels(cells: seq<Node>)
    requires forall k | 0 <= k < |cells| :: !Named(cells[k], "p")
    ensures Run(InitialInfo, cells).Ok?
    ensures Run(InitialInfo, cells).value.key == "other"
    ensures forall k | k in Run(InitialInfo, cells).value.data :: k == "other"
    decreases |cells|
  {
    if cells != [] {
      var init := cells[..|cells| - 1];
      forall k | 0 <= k < |init|
        ensures !Named(init[k], "p")
      {
        assert init[k] == cells[k];
      }
      OtherBeforeLabels(init);
      var s := Run(InitialInfo, init).value;
      var c := cells[|cells| - 1];
      if Named(c, "div") {
        DivValuesOnlyKey(s.data, s.key, c.children);
      }
    }
  }

  /** A value `div` changes nothing but the entry of the current key. */
  lemma {:induction false} DivValuesOnlyKey(data: Info, key: string, items: seq<Node>)
    ensures forall k | k != key :: k in DivValues(data, key, items) <==> k in data
    ensures forall k | k != key && k in data :: DivValues(data, key, items)[k] == data[k]
    ensures key in data ==> key in DivValues(data, key, items)
    decreases |items|
  {
    if items != [] {
      DivValuesOnlyKey(data, key, items[..|items| - 1]);
    }
  }

  /** The last item with a value wins: an earlier `p` or `ul` under the same key is overwritten. */
  lemma {:induction false} LastValueWins(data: Info, key: string, items: seq<Node>, j: nat)
    requires j < |items| && ItemValue(items[j]).Some?
    requires forall k | j < k < |items| :: ItemValue(items[k]).None?
    ensures key in DivValues(data, key, items) && DivValues(data, key, items)[key] == ItemValue(items[j]).value
    decreases |items|
  {
    var init := items[..|items| - 1];
    if j < |items| - 1 {
      forall k | j < k < |init|
        ensures ItemValue(init[k]).None?
      {
        assert init[k] == items[k];
      }
      assert init[j] == items[j];
      LastValueWins(data, key, init, j);
    }
  }

  /** A label sets the current key and clears its value, whatever the table held before. */
  lemma LabelResets(st: InfoState, p: Node)
    requires Named(p, "p") && LabelText(p) != ""
    ensures Step(st, p).Ok? && Step(st, p).value.key == LabelKey(p).value
    ensures Step(st, p).value.data == st.data[LabelKey(p).value := NoValue]
  {
  }

  /** The value loop of `get_artist_info` over the items of one value `div`. */
  method FillFromDiv(data: Info, key: string, items: seq<Node>) returns (d: Info)
    ensures d == DivValues(data, key, items)
  {
    d := data;
    for j := 0 to |items|
      invariant d == DivValues(data, key, items[..j])
    {
      var item := items[j];
      if Named(item, "p") {
        d := d[key := Line(Strip(GetText(item)))];
      }
      if Named(item, "ul") {
        d := d[key := Items(ItemNames(item))];
      }
      assert items[..j + 1][..j] == items[..j];
    }
    assert items[..|items|] == items;
  }

  /** `get_artist_info(page)`: the label-and-value walk over the cells of the artist tables. */
  method GetArtistInfo(page: Node) returns (r: Result<Info>)
    ensures r == ArtistInfo(page)
  {
    var cells := InfoCells(page);
    var key := "other";
    var data: Info := map[];
    for i := 0 to |cells|
      invariant Run(InitialInfo, cells[..i]) == Ok(InfoState(key, data))
    {
      var cell := cells[i];
      RunSnoc(InitialInfo, cells, i);
      if Named(cell, "p") {
        var t := Title(Strip(GetText(cell)));
        if |t| == 0 {
          RunErrSticks(InitialInfo, cells, i + 1);
          return Err(IndexError);
        }
        key := if t[|t| - 1] == ':' then t[..|t| - 1] else t;
        data := data[key := NoValue];
      } else if Named(cell, "div") {
        data := FillFromDiv(data, key, cell.children);
      }
    }
    assert cells[..|cells|] == cells;
    r := Ok(data);
  }

  // ---------------------------------------------------------------------------------------
  // get_lyrics
  // ---------------------------------------------------------------------------------------

  /**
   * `get_lyrics`: the first `div` of class `lyricbox`, serialised back to markup by
   * `serialise`, goes through `process_lyrics`; with no such `div`, `str(None)` does.
   */
  function GetLyrics(page: Node, serialise: Node -> string): (r: string)
    ensures !Contains(r, "<br/>")
  {
    var boxes := FindAll(page, "div", ClassIn({"lyricbox"}));
    var markup := if |boxes| > 0 then serialise(boxes[0]) else "None";
    NoBreakTagLeft(markup);
    CleanLyrics(markup)
  }
}
