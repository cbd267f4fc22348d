# A model of the lyrics-wiki scraper

This project models the core of `scrape-lyricwiki`, a Python library that reads artist,
album and song pages of the LyricWiki site (`https://lyrics.fandom.com`). It builds a small
object graph from them: an `Artist` with its albums, an `Album` with its songs, and a `Song`
with its lyrics and links. The model covers four parts of that core, and proves properties
about each:

- **Name handling** (`lyricwiki/utils.py`): canonical names (`name_to_wiki`), wiki slugs
  (`name_to_wiki_id`, with percent-encoding), the header and song-title parsers, and the
  cleaning of lyrics markup.
- **Page scraping** (`lyricwiki/scrape.py`): song links under an album heading, the
  external-links table, the artist information table, and the lyrics box.
- **Base classes** (`lyricsfandom/meta.py`): stored names, hrefs and urls, `__repr__`, and
  the back-pointers between objects.
- **Entity classes** (`lyricsfandom/music`, plus the older `lyricwiki/music` album and
  song): the caches they memoise, the discography loop of `Artist.items`, adding songs and
  albums, and the searches by slug.

Python strings are `seq<char>`. The string operations the code relies on are defined in
module `PyStr`. These are `find`, `split`, `join`, `replace`, `strip`, `lower`, `upper`
and `title`. A parsed HTML page is a `Node` tree (module `Markup`).

A fetched page is a `Doc` value: its root, its album headings with the siblings that follow
each heading, the siblings after each `#External_links` match, and how its nodes serialise.
Every `connect()` becomes an `Option<Doc>` argument, which is `None` when the fetch fails.

Python raises `IndexError`, `AttributeError` and `NameError` on certain inputs. These are
`Err` values of a `Result`.

Methods that work step by step in the source become Dafny methods with loops. Examples are
the song and album loops, the external-links loop, the info-table loop and the replacement
loops. Each is proved equal to a specification function or predicate. Lemmas then state
what the source promises about that function or predicate.

Objects whose fields the source updates are classes: `Artist`, `Album` and `Song` in module
`Music`. Their methods carry `modifies` clauses.

`Artist.items` is a generator, and `albums()` hands it on when the cache is empty. A loop
over `albums()` that returns at its first match (`search_album`, `search_song`,
`Album.from_artist`) stops the generator there. The model follows that: `Music.Artist.Scan`
reads the headings one at a time, adds each kept album to the cache before it looks at it,
and stops at the first album that holds what it looks for. The headings after that one are
never read, so they can neither raise nor add an album.

`name_to_wiki` is not idempotent. `DON'T stop` becomes `DON't Stop`, and a second call gives
`Don't Stop` (`Names.NameToWikiNotIdempotent`). The classes store the canonical name and
then slug it with `name_to_wiki_id`, which canonicalises it again. So the url stored for the
artist `DON'T stop` is not the url `generate_artist_url` builds for that name
(`Meta.StoredArtistUrlDiffers`). The url lemmas of `Meta` are stated for the stored name.

Where the documentation and the code disagree, the model follows the code:

- Forced `add_song` does not copy the album's artist onto the song. It stores the album's
  *artist* name as the song's album name (see Findings).
- The `add_album` documentation prints an empty album as `Songs: 0`. `__repr__` prints no
  count at all for an empty album (`Meta.EmptyAlbumRepr`).

## Model

| member | source | states |
|---|---|---|
| PyStr.Find | lyricwiki/utils.py:97-104 | `str.find`: -1 or the first index where the pattern occurs, and no occurrence before it |
| PyStr.ContainsIff | lyricwiki/utils.py:93 | `in` on strings holds exactly when some index starts an occurrence, and `find` then returns one |
| PyStr.Split | lyricwiki/utils.py:144 | `str.split(sep)` always gives at least one piece |
| PyStr.SplitPiecesFree | lyricwiki/utils.py:144 | no piece of `split(sep)` contains the separator |
| PyStr.JoinSplit | lyricwiki/utils.py:146 | `sep.join(s.split(sep)) == s` for every string and non-empty separator |
| PyStr.SplitJoinChar | lyricwiki/utils.py:74 | splitting a join on a one-character separator gives back the pieces, when no piece holds the separator |
| PyStr.SplitMany | lyricwiki/utils.py:145 | `split` gives more than one piece exactly when the separator occurs |
| PyStr.SplitLast | lyricwiki/utils.py:146-147 | with more than one piece, the string is the join of all but the last piece, the separator, then the last piece |
| PyStr.SplitFirst | lyricwiki/utils.py:103 | with more than one piece, the string is the first piece, the separator, then the join of the rest |
| PyStr.SplitCharLast | lyricwiki/utils.py:144-147 | splitting at a character's last position: the last piece is the text after it and the rest joins to the text before it |
| PyStr.LastIndexOf | lyricwiki/utils.py:144-147 | the index of the last occurrence of a character, -1 exactly when it is absent |
| PyStr.ReplaceEach | lyricwiki/utils.py:58-59 | the loop `for a, b in table: s = s.replace(a, b)` computes the ordered replacement `ApplyPairs` |
| PyStr.ReplaceIdentity | lyricwiki/utils.py:120 | `replace` leaves a string without the pattern unchanged, and so does replacing a pattern by itself |
| PyStr.ReplaceRemovesChar | lyricwiki/utils.py:122-123 | replacing a character by text without it leaves no occurrence of it |
| PyStr.ReplaceKeepsOut | lyricwiki/utils.py:122-123 | a character in neither the text nor the replacement is absent from the result |
| PyStr.ReplaceKeepsHead | lyricwiki/utils.py:74 | `replace` keeps a head of the text that lacks the pattern's first character |
| PyStr.ReplaceOnce | lyricwiki/utils.py:58-59 | a pattern that occurs once, after a head lacking its first character, is replaced at that place only |
| PyStr.Strip | lyricwiki/utils.py:56 | `strip()` cuts a run of whitespace, and only whitespace, off each end; what is left has no whitespace at either end |
| PyStr.StripIdempotent | lyricwiki/utils.py:56 | stripping twice is stripping once |
| PyStr.StripTrimmed | lyricwiki/utils.py:146-149 | a string with no whitespace at its ends is its own strip |
| PyStr.StripLeftCut | lyricwiki/utils.py:56 | `lstrip()` cuts off a prefix made of whitespace only |
| PyStr.StripRightCut | lyricwiki/utils.py:56 | `rstrip()` cuts off a suffix made of whitespace only |
| PyStr.Lower | lyricwiki/utils.py:44 | `lower()` maps each character and leaves no ASCII capital |
| PyStr.Upper | lyricwiki/utils.py:57 | `upper()` maps each character and leaves no ASCII lower-case letter |
| PyStr.Title | lyricwiki/scrape.py:288 | `title()` keeps non-letters and capitalises a letter exactly when no letter precedes it |
| Names.Capitalize | lyricwiki/utils.py:34-44 | same length, same lower-case form, and a capital exactly at the letters that begin a `\b[\w']` word |
| Names.NameToWiki | lyricwiki/utils.py:47-60 | the replacement loop of `name_to_wiki` computes the canonical name |
| Names.CanonicalApplies | lyricwiki/utils.py:56-60 | the canonical name is the cased words with the `CHARS` table applied in order |
| Names.NormalisedApplies | lyricwiki/utils.py:58-59 | after the first `n` loop rounds the name is the first `n` pairs of `CHARS` applied |
| Names.CharsTargetsPlain | lyricwiki/utils.py:10-24 | every pattern of `CHARS` is non-empty and no replacement holds a dropped mark |
| Names.Canonical | lyricwiki/utils.py:47-60 | the name `name_to_wiki` returns holds no backtick, `#`, `’`, `”` or `“` |
| Names.CharsDropMarks | lyricwiki/utils.py:10-24 | the `CHARS` table applied in order to any text leaves none of those five marks |
| Names.SlugIsSafe | lyricwiki/utils.py:73-76 | a slug has no space and only characters of the `quote` safe set or escapes |
| Names.PlainSlug | lyricwiki/utils.py:74-75 | a name of safe characters and spaces slugs to itself with spaces as `_` |
| Names.NameToWikiId | lyricwiki/utils.py:63-76 | the wiki id holds no space and only characters of the `quote` safe set or escapes |
| Names.CaseLowerWord | lyricwiki/utils.py:57 | a lower-case word is not its own upper case, so it is capitalised |
| Names.ApplyPairsPlain | lyricwiki/utils.py:58-59 | the `CHARS` rounds leave text of letters and spaces unchanged |
| Names.CanonicalPlain | lyricwiki/utils.py:56-60 | when the cased words are letters and spaces, the canonical name is the cased words |
| Names.SplitLowerWords | lyricwiki/utils.py:57 | splitting lower-case words joined by spaces gives the words back |
| Names.CasedLowerWords | lyricwiki/utils.py:56-57 | lower-case words joined by spaces come out capitalised, joined by spaces |
| Names.CanonicalLowerWords | lyricwiki/utils.py:47-60 | `name_to_wiki` of lower-case words joined by spaces is the capitalised words joined by spaces |
| Names.SlugOfWords | lyricwiki/utils.py:73-75 | words of letters joined by spaces slug to the words joined by `_` |
| Names.NameToWikiIdLowerWords | lyricwiki/utils.py:63-76 | `name_to_wiki_id` of lower-case words is the capitalised words joined by `_` |
| Names.CasedTwo | lyricwiki/utils.py:57 | two space-free tokens separated by one space are cased one by one and joined by a space |
| Names.CapitalizeContraction | lyricwiki/utils.py:34-44 | `capitalize(w'x)` raises the first letter of `w` and the `x` after the apostrophe, and lowers the rest of `w` |
| Names.CaseContraction | lyricwiki/utils.py:57 | a contraction `w'x` with a lower-case `x` is not its own upper case, so it is capitalised, the `x` raised |
| Names.CharsOnContraction | lyricwiki/utils.py:58-59 | on `w'T w2` or `w't w2` of letters, the `CHARS` rounds change only the contraction, which ends in `'t ` |
| Names.CasedCapitalContraction | lyricwiki/utils.py:57 | the cased words of an all-capitals `W'T` and a lower-case word: the contraction kept as it is, the word capitalised |
| Names.CanonicalOfCapitalContraction | lyricwiki/utils.py:47-60 | `name_to_wiki` of an all-capitals `W'T` and a lower-case word keeps `W`, lowers the `T` and capitalises the word |
| Names.CasedLoweredContraction | lyricwiki/utils.py:57 | the cased words of an all-capitals `W't` and a capitalised word: the rest of `W` lowered and the `t` raised |
| Names.CanonicalOfLoweredContraction | lyricwiki/utils.py:47-60 | `name_to_wiki` of an all-capitals `W't` and a capitalised word lowers the rest of `W`; the `t` stays lower case |
| Names.NameToWikiNotIdempotent | lyricwiki/utils.py:47-60 | `name_to_wiki` is not idempotent: `DON'T stop` gives `DON't Stop`, and that gives `Don't Stop` |
| Names.QuoteSafe | lyricwiki/utils.py:75 | `quote(safe=':/._-()%,')` outputs only unreserved, safe or hex-escape characters |
| Names.QuoteIdentity | lyricwiki/utils.py:75 | `quote` leaves a string unchanged exactly when all its characters are safe |
| Names.SlugHead | lyricwiki/utils.py:74-75 | a slug starts with the first two characters of its name when both are url-safe |
| Names.QuoteUnquote | lyricwiki/utils.py:75 | decoding a quoted ASCII string without `%` gives it back |
| Names.QuoteNotInjective | lyricwiki/utils.py:75 | because `%` is safe, `" "` and `"%20"` quote to the same `%20` |
| Names.Utf8 | lyricwiki/utils.py:75 | The UTF-8 encoding that `quote` applies gives one to four bytes per character, and one byte, the character's own code, exactly when the character is ASCII. |
| Names.EscapeSafe | lyricwiki/utils.py:75 | the `%XX` escapes of any bytes use only safe characters |
| Names.HexValue | lyricwiki/utils.py:75 | reads back exactly the digits `HexDigit` writes, and lower-case hex |
| Headers.ParseAlbumHeader | lyricwiki/utils.py:128-152 | the header has a year exactly when it holds a `(` |
| Headers.AlbumHeaderNoYear | lyricwiki/utils.py:148-150 | a header without `(` is its stripped name with no year |
| Headers.AlbumHeaderYear | lyricwiki/utils.py:144-147 | with a `(` the name is the stripped text before its last occurrence and the year the text after it |
| Headers.AlbumYearPlain | lyricwiki/utils.py:147 | a parsed year never contains a bracket |
| Headers.AlbumHeaderRoundTrip | lyricwiki/utils.py:128-152 | `parse_album_header(name + " (" + year + ")")` gives back name and year |
| Headers.ParseAlbumHeaderExample | lyricwiki/utils.py:133-135 | `His Young Heart (2011)` parses to `His Young Heart` and `2011` |
| Headers.SplitHeader | lyricwiki/utils.py:177-197 | the artist is the text before the first `:`, the album and year are the parsed text after the last |
| Headers.SplitSongHeader | lyricwiki/utils.py:155-174 | the artist is the text before the first `:`, the song the text after the last without ` Lyrics` |
| Headers.AfterLastColonAt | lyricwiki/utils.py:194 | the text after the last colon is the text after its index |
| Headers.ColonPieces | lyricwiki/utils.py:193-194 | the first and last pieces of `split(':')` are the texts before the first and after the last colon |
| Headers.ParseSongTitle | lyricwiki/utils.py:79-105 | a known artist always parses, otherwise the title raises `IndexError` exactly when it holds no colon |
| Headers.KnownArtistSplit | lyricwiki/utils.py:93-101 | with the artist named, as many `:` pieces go to the artist as the artist's name has |
| Headers.UnknownArtistSplit | lyricwiki/utils.py:102-104 | otherwise the artist is the text before the first colon and the song the second piece |
| Headers.OneColon | lyricwiki/utils.py:171-172 | with one colon, the texts before the first and after the last colon are the two sides |
| Headers.SplitHeaderOf | lyricwiki/utils.py:177-197 | `artist:title` with one colon and trimmed sides splits into the artist and the parsed title |
| Headers.CutPattern | lyricwiki/utils.py:172 | removing a pattern appended to a text without its first character gives the text back |
| Headers.SplitSongHeaderOf | lyricwiki/utils.py:155-174 | `artist:song Lyrics` with one colon, a one-word song and trimmed sides gives the artist and the song |
| Headers.SplitHeaderExample | lyricwiki/utils.py:182-184 | `Daughter:His Young Heart (2011)` gives `Daughter`, `His Young Heart` and `2011` |
| Headers.SplitSongHeaderExample | lyricwiki/utils.py:160-162 | `Daughter:Run Lyrics` gives `Daughter` and `Run` |
| Lyrics.After | lyricwiki/utils.py:118-119 | `split(marker)[-1]` is the text after the last marker and holds no marker |
| Lyrics.Before | lyricwiki/utils.py:118-119 | `split(marker)[0]` is the text before the first marker and holds no marker |
| Lyrics.ProcessLyrics | lyricwiki/utils.py:108-125 | the replacement loop computes the cleaned lyrics |
| Lyrics.CleanLyrics | lyricwiki/utils.py:108-125 | the `LYRICS` table in order: italics tags and raw newlines removed, then each `<br/>` turned into a newline |
| Lyrics.FlattenedHasNoNewline | lyricwiki/utils.py:122-123 | after the `\n` round no newline is left |
| Lyrics.NoBreakTagLeft | lyricwiki/utils.py:108-125 | cleaned lyrics hold no `<br/>` |
| Lyrics.LinesAreBreaks | lyricwiki/utils.py:122-123 | the lines of the cleaned lyrics are exactly the `<br/>`-separated pieces, and join back |
| Markup.Name | lyricwiki/scrape.py:209-210 | a node has a name exactly when it is a tag |
| Markup.Attr | lyricsfandom/music/artist.py:183-192 | `get(key)` is present exactly when the tag has the attribute, and is its value |
| Markup.SelectExactly | lyricwiki/scrape.py:211 | a selection holds exactly the nodes that match |
| Markup.FindAllExactly | lyricwiki/scrape.py:105 | `findAll` holds exactly the matching descendants |
| Markup.SelectFirst | lyricwiki/scrape.py:265 | the first node of a non-empty selection matches, and no node before it in the list matches |
| Markup.FindFirstFinds | lyricwiki/scrape.py:265 | `find` gives a matching descendant with no matching descendant before it in document order, and `None` exactly when none matches |
| Scrape.GenerateArtistUrl | lyricwiki/scrape.py:17-33 | the url starts with the wiki base, and after it holds no space and only url-safe characters |
| Scrape.GenerateAlbumUrl | lyricwiki/scrape.py:36-58 | the album url starts with the artist url and `:`, and ends with the year and `)` |
| Scrape.ArtistUrlOfLowerWords | lyricwiki/scrape.py:17-33 | the artist url of lower-case words is the wiki base and the capitalised words joined by `_` |
| Scrape.GenerateArtistUrlExample | lyricwiki/scrape.py:27-29 | `london grammar` gives `https://lyrics.fandom.com/wiki/London_Grammar` |
| Scrape.GenerateAlbumUrlExample | lyricwiki/scrape.py:49-53 | `london grammar`, `if you wait`, 2013 give `.../wiki/London_Grammar:If_You_Wait_(2013)` |
| Scrape.Walk | lyricwiki/scrape.py:208-213 | the sibling walk is the longest prefix before a falsy node or an `h2` |
| Scrape.WalkUnique | lyricwiki/scrape.py:209 | any prefix that stops where the walk stops is the walk |
| Scrape.StopsAtHeading | lyricwiki/scrape.py:209 | the walk never passes an `h2` |
| Scrape.FirstLinks | lyricwiki/scrape.py:211-212 | the loop over list items yields each item's first anchor |
| Scrape.SiblingSongs | lyricwiki/scrape.py:210-212 | one sibling yields the first anchors of its `li` items when its name is accepted, nothing otherwise |
| Scrape.ScrapeSongs | lyricwiki/scrape.py:154-213 | `scrape_songs` yields the song links of the walked siblings, in order |
| Scrape.SongLinksAreAnchors | lyricwiki/scrape.py:212 | every yielded link is an `<a>` tag or `None` |
| Scrape.OnlyAcceptedContribute | lyricwiki/scrape.py:210 | only siblings whose name is accepted yield links |
| Scrape.OneTagIsSubstringTest | lyricwiki/scrape.py:210 | with a string filter `in` is a substring test, so a tag named `l` passes `'ol'` but not `['ol', 'ul']` |
| Scrape.ScrapeExternalLinks | lyricwiki/scrape.py:216-222 | `IndexError` exactly when there is no `#External_links`, otherwise the `div` siblings of the walk |
| Scrape.Divs | lyricwiki/scrape.py:220-221 | the kept siblings are exactly the `div` ones |
| Scrape.AddHrefs | lyricwiki/scrape.py:105-110 | the anchors' hrefs are appended under the group's key only when the key is listed and there is an anchor |
| Scrape.GetExternalLinks | lyricwiki/scrape.py:61-111 | `IndexError` exactly when the page has no external links, else the link table of its groups |
| Scrape.LinkTable | lyricwiki/scrape.py:98-110 | every key of the table is one of the eleven listed platforms and holds at least one link |
| Scrape.LinkTableByKey | lyricwiki/scrape.py:103-110 | a listed key is present exactly when some group under it has anchors, and holds all their hrefs in order |
| Scrape.LabelKey | lyricwiki/scrape.py:288-289 | the key is the title-cased label without its final colon, and an empty label raises `IndexError` |
| Scrape.RunFailsIff | lyricwiki/scrape.py:287-289 | the info loop raises exactly when some cell is an empty label |
| Scrape.RunErrSticks | lyricwiki/scrape.py:283-300 | after an error the rest of the cells do not matter |
| Scrape.RunErrIsIndex | lyricwiki/scrape.py:289 | the only error the info loop raises is `IndexError` |
| Scrape.OtherBeforeLabels | lyricwiki/scrape.py:281 | without a label every value lands under `other` |
| Scrape.LabelResets | lyricwiki/scrape.py:287-290 | a label becomes the current key and its value is reset to `None` |
| Scrape.DivValuesOnlyKey | lyricwiki/scrape.py:291-300 | a value cell changes only the current key |
| Scrape.LastValueWins | lyricwiki/scrape.py:293-300 | the last paragraph or list of a value cell is the value stored |
| Scrape.ArtistInfo | lyricwiki/scrape.py:270-302 | the info table raises exactly when some visited cell is an empty label, and then raises `IndexError` |
| Scrape.FillFromDiv | lyricwiki/scrape.py:292-300 | the item loop of one value cell computes `DivValues` |
| Scrape.GetArtistInfo | lyricwiki/scrape.py:270-302 | the nested loops compute `ArtistInfo` |
| Scrape.RunSnoc | lyricwiki/scrape.py:285-300 | the run over one more cell is one more step |
| Scrape.GetLyrics | lyricwiki/scrape.py:225-267 | the scraped lyrics hold no `<br/>` |
| Meta.UrlOf | lyricsfandom/meta.py:24-28 | a url exactly for a truthy href: the site base followed by it |
| Meta.ArtistUrlIsGenerated | lyricsfandom/meta.py:53-58 | the url of an artist is the one `generate_artist_url` builds for the stored name, and `None` when that name is empty |
| Meta.AlbumUrlIsGenerated | lyricsfandom/meta.py:128-138 | the url of an album is the one `generate_album_url` builds for the stored artist and album names, and only when artist, album and year are given |
| Meta.StoredArtistUrlDiffers | lyricsfandom/meta.py:53-58 | the url stored for the artist `DON'T stop` differs from the one `generate_artist_url` builds for that name |
| Meta.SongHrefUnderArtist | lyricsfandom/meta.py:216-224 | a song's href is its artist's href followed by `:` and the song slug |
| Meta.EmptySlug | lyricsfandom/meta.py:221 | the slug of the empty name is empty |
| Meta.AlbumTypeFor | lyricsfandom/music/album.py:195-204 | one song is a single, two to five (or none) an EP, six or more an album |
| Meta.Decimal | lyricsfandom/meta.py:199 | `str(n)` is digits only, without a leading zero |
| Meta.DecimalRoundTrip | lyricsfandom/meta.py:199 | the printed count reads back as the count |
| Meta.AlbumReprCount | lyricsfandom/meta.py:196-202 | the song count closes the representation exactly when it is positive |
| Meta.ArtistRepr | lyricsfandom/meta.py:113-114 | `Artist: ` followed by the name, which reads back after the prefix |
| Meta.AlbumRepr | lyricsfandom/meta.py:196-202 | starts with the artist and `:`, and ends with `, Songs: ` and the count when there are songs |
| Meta.SongRepr | lyricsfandom/meta.py:304-308 | starts with the artist and the quoted song name; with an album name, `, from`, the type and the quoted album follow it; with a year it ends with ` (year)`; without an album name it is only the head and the year part |
| Meta.ArtistReprExample | lyricsfandom/meta.py:113-114 | `Artist: Daughter` |
| Meta.EmptyAlbumRepr | lyricsfandom/meta.py:196-202 | an empty album prints no count |
| Discography.SongsNamed | lyricsfandom/music/artist.py:182-185 | one parsed credit per song link |
| Discography.SongOf | lyricsfandom/music/artist.py:182-185 | a missing link raises `AttributeError`, the parse raises only `AttributeError` or `IndexError`, and a song keeps its link's href |
| Discography.Keep | lyricsfandom/music/artist.py:182-194 | a section keeps at most one song per link |
| Discography.KeepIsWanted | lyricsfandom/music/artist.py:182-194 | when the song loop does not raise, it keeps exactly the wanted songs, in link order |
| Discography.WantedHas | lyricsfandom/music/artist.py:186-187 | a song is wanted exactly when some link parses to it and it is a cover only if covers are asked for |
| Discography.KeepNext | lyricsfandom/music/artist.py:182-194 | one more link raises, is kept, or is skipped as a cover |
| Discography.KeepOkNext | lyricsfandom/music/artist.py:182-194 | one more link that parses is kept exactly when covers are asked for or it is credited to the artist |
| Discography.KeepErrSticks | lyricsfandom/music/artist.py:185 | once a link raises, the later links do not matter |
| Discography.KeepFailsIff | lyricsfandom/music/artist.py:183-185 | the song loop raises exactly when some link cannot be parsed |
| Discography.CoversKeepEveryLink | lyricsfandom/music/artist.py:186-187 | with `cover=True` the kept songs are the songs of the links, one per link, in link order |
| Discography.CoverFilter | lyricsfandom/music/artist.py:186-187 | with `cover=False` the kept songs are the wanted ones: all credited to the artist, and every link credited to the artist gives one |
| Discography.SectionPlan | lyricsfandom/music/artist.py:171-201 | a heading that gives an album gives one with at least one song |
| Discography.LastOuter | lyricsfandom/music/artist.py:196-198 | no link gives no type, a missing link or ancestor raises `AttributeError`, a type only under an `ol` |
| Discography.Sections | lyricsfandom/music/artist.py:171 | one outcome per heading |
| Discography.SectionsNext | lyricsfandom/music/artist.py:171 | the outcomes of one more heading are the outcomes so far and that heading's |
| Discography.CollectNext | lyricsfandom/music/artist.py:196-201 | an outcome raises, adds nothing, or adds its album |
| Discography.CollectAppend | lyricsfandom/music/artist.py:196-201 | the same, for a list extended by one outcome |
| Discography.Collect | lyricsfandom/music/artist.py:196-201 | at most one album per heading |
| Discography.Assembly | lyricsfandom/music/artist.py:171-201 | the discography of a page has at most one album per heading |
| Discography.CollectErrSticks | lyricsfandom/music/artist.py:171-201 | once a heading raises, the later headings do not matter |
| Discography.CollectFailsAt | lyricsfandom/music/artist.py:171-201 | a heading that raises after clean ones makes the whole collection raise with its error |
| Discography.AssemblyFailsAt | lyricsfandom/music/artist.py:171-201 | the same for the discography of a page |
| Discography.CollectInOrder | lyricsfandom/music/artist.py:196-201 | the collection raises exactly when some heading raises, otherwise it is the albums kept, in heading order |
| Discography.NoEmptyAlbum | lyricsfandom/music/artist.py:196-197 | when no outcome is empty, no collected album is empty |
| Discography.AssemblyHasNoEmptyAlbum | lyricsfandom/music/artist.py:196-197 | no album of a page's discography is empty |
| Discography.SectionCoverFilter | lyricsfandom/music/artist.py:186-187 | without covers a heading's album holds only the artist's songs |
| Discography.CollectByArtist | lyricsfandom/music/artist.py:186-187 | the same, carried through the collection |
| Discography.NoCoverKept | lyricsfandom/music/artist.py:186-187 | without covers every album of the discography holds only the artist's songs |
| Music.AlbumKeys | lyricsfandom/music/album.py:82-83 | one compared value per album |
| Music.SongKeys | lyricsfandom/music/artist.py:333-335 | one compared value per song |
| Music.AlbumKeysAt | lyricsfandom/music/album.py:83 | entry `k` is the value of album `k` |
| Music.SongKeysAt | lyricsfandom/music/artist.py:335 | entry `k` is the value of song `k` |
| Music.AlbumKeysPrefix | lyricsfandom/music/album.py:82-83 | the values of a prefix are the prefix of the values |
| Music.SongKeysPrefix | lyricsfandom/music/artist.py:333-335 | the same for songs |
| Music.FindKey | lyricsfandom/music/album.py:82-84 | the search loop returns the first index holding the id, -1 exactly when none does |
| Music.FindAlbum | lyricsfandom/music/album.py:82-84 | the first album whose compared value is the id, -1 exactly when none matches |
| Music.FindSong | lyricsfandom/music/artist.py:333-336 | the first song whose compared value is the id, -1 exactly when none matches |
| Music.SongsOfAlbumsNext | lyricsfandom/music/artist.py:265-267 | listing one more album adds its songs at the end |
| Music.SongsOfAlbumsMembers | lyricsfandom/music/artist.py:265-267 | a song is listed exactly when some album holds it |
| Music.CollectSongs | lyricsfandom/music/artist.py:265-267 | the nested loop lists the songs album after album |
| Music.SongsMadeSnoc | lyricsfandom/music/artist.py:188-194 | a song made from one more link extends the realised list |
| Music.SongsMadeAt | lyricsfandom/music/artist.py:188-193 | the song at each index was made from the link at that index |
| Music.RealisedSongs | lyricsfandom/music/artist.py:182-194 | every song of an album built by `items` has the names of its link, the album's name and year, the link's href, and points to the album and the artist |
| Music.BuiltSnoc | lyricsfandom/music/artist.py:197-201 | an album realising one more plan extends the built list |
| Music.BuiltAt | lyricsfandom/music/artist.py:171-201 | the album at each index realises the plan at that index |
| Music.ListedAlbumsHaveSongs | lyricsfandom/music/artist.py:196-201 | every album `items` lists holds at least one song |
| Music.ListingRaised | lyricsfandom/music/artist.py:171-201 | a heading that raises after clean ones makes `items` raise with its error, leaving the clean headings' albums in the cache |
| Music.ListingDone | lyricsfandom/music/artist.py:171-201 | when every heading is clean, `items` returns the albums of the whole discography, which are the cache |
| Music.RealisedHits | lyricsfandom/music/artist.py:313-315 | an album built by `items` has the searched slug (its own, or one of its songs') exactly when its heading's stored names slug to it |
| Music.BuiltNoneHit | lyricsfandom/music/artist.py:313-315 | albums built from headings none of which gives the slug hold no album that has it |
| Music.MissStep | lyricsfandom/music/artist.py:313-315 | a newly kept album without the slug leaves the headings read so far without it |
| Music.LazyMissAt | lyricsfandom/music/artist.py:313-318 | a search that read every heading without a match ends with `None` and the whole cache |
| Music.LazyRaisedAt | lyricsfandom/music/artist.py:171-201 | a heading that raises after clean headings without a match ends the search with that error |
| Music.LazyHitAt | lyricsfandom/music/artist.py:313-315 | a match in the album just kept for heading `i` ends the search after `i + 1` headings, returning that album |
| Music.LazyFirstHit | lyricsfandom/music/artist.py:313-315 | the album a lazy search returns is the first album of the cache it leaves that matches, `None` only when none does |
| Music.LazyRaiseIsEager | lyricsfandom/music/artist.py:171-201 | a lazy search raises only where `items` run to the end raises, with the same error and the same cache |
| Music.LazyMissIsEager | lyricsfandom/music/artist.py:246-256 | a lazy search that finds nothing has run `items` to the end and leaves its full listing, with no album matching |
| Music.NoneHitAlbums | lyricsfandom/music/artist.py:313-314 | no album matches by slug exactly when no album's compared value is the slug |
| Music.FirstHitAlbum | lyricsfandom/music/album.py:82-84 | the first album matching by slug is the first index holding the slug, `None` exactly when none does |
| Music.NoneHitSongs | lyricsfandom/music/artist.py:333-336 | no album holds a song with the slug exactly when no song of the albums, album after album, has it |
| Music.FoundSongs | lyricsfandom/music/artist.py:333-336 | with no album found no listed song has the slug; an album found holds a song that has it |
| Music.Song.constructor | lyricsfandom/meta.py:216-225 | canonical names, the album fields as given (album name `''` when missing), the song href, empty caches and pointers; `songId` is the slug of the given song name, as the commented-out line 219 would set it, for the older `lyricwiki` song code that compares `song_id` |
| Music.Song.Create | lyricsfandom/meta.py:216-225 | a fresh song with the given names and album fields and nothing registered |
| Music.Song.Url | lyricsfandom/meta.py:24-28 | a url exactly when the href is truthy: the site base followed by the href |
| Music.Song.Repr | lyricsfandom/meta.py:304-308 | starts with the artist and the quoted song name |
| Music.Song.SetLyrics | lyricsfandom/meta.py:227-234 | the lyrics cache is the value |
| Music.Song.RegisterAlbum | lyricsfandom/meta.py:245-252 | `get_album()` is the album afterwards |
| Music.Song.RegisterArtist | lyricsfandom/meta.py:151-158 | `get_artist()` is the artist afterwards |
| Music.Song.Unregister | lyricsfandom/meta.py:254-257 | both pointers are cleared |
| Music.Song.Items | lyricwiki/music/song.py:83-90 | the stored items |
| Music.Song.GetLyrics | lyricwiki/music/song.py:92-104 | fetches only with a falsy cache and an href; a failed fetch gives `''` and keeps the cache; otherwise the scraped lyrics are cached and returned |
| Music.Song.FetchedLyricsClean | lyricwiki/music/song.py:99-104 | fetched lyrics hold no `<br/>` |
| Music.Song.ToJson | lyricwiki/music/song.py:106-124 | the record has exactly the seven keys, with the lyrics, links and url as fetched |
| Music.Song.FromSongs | lyricwiki/music/song.py:41-81 | as written: `NameError` exactly when there is a song to compare, otherwise `None` |
| Music.Song.FromSongsIntended | lyricwiki/music/song.py:41-81 | the first song whose `song_id` is the name's slug, `None` exactly when none matches |
| Music.Album.constructor | lyricsfandom/meta.py:128-138 | canonical names, the href only when artist, album and year are given, an empty cache; `albumId` is the slug of the stored album name, as the commented-out line 131 would set it, and `legacyType` the given type, for the older `lyricwiki` album code |
| Music.Album.Url | lyricsfandom/meta.py:24-28 | a url exactly when the href is truthy: the site base followed by the href |
| Music.Album.Repr | lyricsfandom/meta.py:196-202 | starts with the artist and `:`, and ends with the song count when there are songs |
| Music.Album.RegisterArtist | lyricsfandom/meta.py:151-158 | `get_artist()` is the artist afterwards |
| Music.Album.Unregister | lyricsfandom/meta.py:160-162 | the artist pointer is cleared |
| Music.Album.SetAlbumType | lyricsfandom/music/album.py:195-204 | the type is the one the song count gives |
| Music.Album.Finish | lyricsfandom/music/artist.py:196-199 | the type is set only when the last link sits in an ordered list, and the album realises its plan |
| Music.Album.GetItem | lyricsfandom/music/album.py:233-234 | Python indexing: in range in both directions, `IndexError` otherwise |
| Music.Album.LastItem | lyricsfandom/music/album.py:233-234 | index -1 is the last song |
| Music.Album.Items | lyricsfandom/music/album.py:91-103 | the found album's songs are appended in order and point here and to this album's artist; a raising search or `None` gives the error |
| Music.Album.TakeSong | lyricsfandom/music/album.py:100-102 | one song is unregistered and added without changing its album fields |
| Music.Album.Songs | lyricsfandom/music/album.py:151-161 | the cache when it is not empty, else a run of `items` |
| Music.Album.GetSongs | lyricsfandom/music/album.py:163-173 | the list of what `songs()` gives |
| Music.Album.FromArtist | lyricsfandom/music/album.py:82-84 | the first album of `artist.albums()` whose slug matches, `None` exactly when none does; on an empty cache `items` runs only up to the heading of that album |
| Music.Album.AddSong | lyricsfandom/music/album.py:105-149 | as written: always appended and registered; a mismatch warns without `force`, and under `force=True` takes the album's artist name as album name |
| Music.Album.AddSongIntended | lyricsfandom/music/album.py:127-139 | under `force=True` the song's album slug matches the album's afterwards |
| Music.Album.AddSongNamed | lyricsfandom/music/album.py:140-149 | a new song with the album's artist, name, type and year is registered and appended |
| Music.Album.AddSeed | lyricsfandom/music/artist.py:188-193 | the song made from a link is appended and built from that link |
| Music.Album.LegacyAddSong | lyricwiki/music/album.py:95-132 | as `AddSong`, comparing against `album_id` and taking `_album_type` |
| Music.Album.LegacyAddSongNamed | lyricwiki/music/album.py:133-142 | as written: always `AttributeError` |
| Music.Album.LegacyAddSongNamedIntended | lyricwiki/music/album.py:133-142 | the new song is registered and appended |
| Music.Album.LegacyItems | lyricwiki/music/album.py:80-93 | the found album's songs are appended, point here and to no artist; `None` raises `AttributeError` |
| Music.Album.LegacySongs | lyricwiki/music/album.py:144-154 | the cache when it is not empty, else a run of the legacy `items` |
| Music.Album.LegacyFromArtist | lyricwiki/music/album.py:58-78 | the first album whose `album_id` is the name's slug, `None` exactly when none matches |
| Music.Artist.constructor | lyricsfandom/meta.py:53-58 | the canonical name, the href of its page, empty caches |
| Music.Artist.Url | lyricsfandom/meta.py:24-28 | a url exactly when the href is truthy: the site base followed by the href |
| Music.Artist.Repr | lyricsfandom/meta.py:113-114 | `Artist: ` followed by the artist name |
| Music.Artist.GetLinks | lyricsfandom/meta.py:71-83 | fetches only with a falsy cache and an href; the scraped table is cached; a failure raises and keeps the cache |
| Music.Artist.SetLinks | lyricsfandom/meta.py:85-92 | the links cache is the value |
| Music.Artist.GetInfo | lyricsfandom/music/artist.py:103-124 | fetches only with a falsy cache and an href; a failed fetch caches `{}` |
| Music.Artist.SetInfo | lyricsfandom/music/artist.py:126-127 | the info cache is the value |
| Music.Artist.AddAlbum | lyricsfandom/music/artist.py:203-240 | always registered and appended; a mismatch warns without `force` and takes this artist's name under `force=True` |
| Music.Artist.AddAlbumNamed | lyricsfandom/music/artist.py:241-244 | a new empty album under this artist's name is registered and appended |
| Music.Artist.NewAlbum | lyricsfandom/music/artist.py:173-177 | a new album named from the heading and registered with this artist |
| Music.Artist.AddLinks | lyricsfandom/music/artist.py:181-194 | the song loop raises like `Keep`, or adds one song per kept link and counts them |
| Music.Artist.Section | lyricsfandom/music/artist.py:171-201 | one heading raises, gives nothing, or gives a new album realising its plan |
| Music.Artist.ItemsStep | lyricsfandom/music/artist.py:171-201 | one heading of `items` raises with its error, keeps nothing, or appends one new album realising its plan, the earlier albums unchanged |
| Music.Artist.Adopt | lyricsfandom/music/artist.py:200 | the album is appended and the cache stays built |
| Music.Artist.Items | lyricsfandom/music/artist.py:149-201 | run to the end, the cache is the albums of the page's discography in heading order; or the first raising heading's error, with the albums of the headings before it cached |
| Music.Artist.Albums | lyricsfandom/music/artist.py:246-256 | the cache when it is not empty, else a run of `items` |
| Music.Artist.GetAlbums | lyricsfandom/music/artist.py:269-284 | the list of what `albums(cover, other)` gives |
| Music.Artist.GetSongs | lyricsfandom/music/artist.py:286-301 | the songs of the albums `albums()` gives, album after album; the flags are ignored |
| Music.Artist.SearchAlbum | lyricsfandom/music/artist.py:313-318 | as written: the first album of `albums()` whose slug matches, read lazily up to it; `NameError` exactly when none does |
| Music.Artist.SearchAlbumIntended | lyricsfandom/music/artist.py:313-321 | the first album of `albums()` whose slug matches, read lazily up to it; `None` exactly when none does |
| Music.Artist.SearchSong | lyricsfandom/music/artist.py:333-342 | the first song, album after album, whose slug matches, reading `albums()` lazily up to its album; `None` exactly when no listed song matches |
| Music.Artist.Scan | lyricsfandom/music/artist.py:313-315 | a loop over `albums()` returning at the first match: the cache unchanged when it holds albums, a lazy run of `items` otherwise; the album returned is the first cached one that matches |
| Music.Artist.ScanCached | lyricsfandom/music/artist.py:253-254 | the first cached album that matches, `None` when none does |
| Music.Artist.ScanItems | lyricsfandom/music/artist.py:255-256 | on an empty cache, `items` runs heading by heading and stops at the first kept album that matches |
| Music.Artist.ScanStep | lyricsfandom/music/artist.py:171-201 | one heading of a lazy search raises and ends it, ends it at a matching album, or goes on with the heading's album cached and no match so far |
| Music.Artist.SongOfFound | lyricsfandom/music/artist.py:334-336 | the inner loop: `None` when no album was found, and in a found album that has the slug, the first song in album order that has it |

## Left out

- Fetching pages (`connect`) and parsing HTML are not modelled. A fetched page is an `Option<Doc>` argument. The CSS selections (`h2 .mw-headline`, `#External_links`) and parent navigation are fields of `Doc`.
- `lyricsfandom/utils.py`, `lyricsfandom/scrape.py`, `lyricsfandom/connect.py` and `lyricwiki/meta.py` are not part of this model. The `lyricsfandom` classes are taken to use the `lyricwiki` helpers of the same names.
- `items` and `albums` are followed lazily only by the loops that return at their first match (`Music.Artist.Scan`). The list-building loops (`get_albums`, `get_songs`, `songs`) run them to the end, and so does the model.
- Non-ASCII case mapping is left out. `lower`, `upper`, `title` and the `\w` of `capitalize` act only on ASCII letters. The `encode('utf-8', errors='replace')` round of `process_lyrics` is the identity on `seq<char>`. Whitespace is ASCII only as well: `PyStr.Strip` removes space, tab, the line and page breaks and the separators 28-31, but not U+0085, U+00A0 (a scraped `&nbsp;`) or the other Unicode spaces that Python's `strip()` also removes.
- `serialize_list`, `serialize_dict` and the `encode` argument of `to_json` are left out, because they depend on `unidecode`'s transliteration tables.
- `Artist.to_json` and `Album.to_json` are left out. So are `Album.search_song` and the `from_url` class methods, which are stubs or call code outside the model. The `url` setter, which only raises, is left out too.
- Warnings are not emitted. `AddSong`, `AddAlbum` and their variants return a `warned` flag instead.
- Music.RealisedSongs: states the names each song was given, not the stored ones. The stored ones are `Canonical` of them, as the song constructor states.
- Music.Artist.GetSongs: takes each listed album's cached songs. An album with none would rescrape itself through its own `songs()`, which the model does not follow. Albums that `items` lists always hold songs (`Music.ListedAlbumsHaveSongs`); albums added by name do not.
- Music.Album.Items: takes the found album's cached songs, with the same gap. The songs stay in the found album's list even though they no longer point back to it, as in the source.
- Music.Artist.Adopt: skips `add_album`'s second `register_artist`, which stores the artist the album already points to.
- Music.Artist.SearchSong: `for song in album` goes through `__getitem__`, that is, over the album's cached songs. The model reads the album's `songs` directly.
- Music.Album.SetAlbumType: the legacy `set_album_type` is the same code. Whether it writes the `_album_type` that legacy `add_song` reads depends on `lyricwiki/meta.py`, so `legacyType` keeps the type the album was made with.
- Music.Song.constructor, Music.Album.constructor: `songId`, `albumId` and `legacyType` stand for the fields the older `lyricwiki` classes read. Their base classes live in `lyricwiki/meta.py`, which is not part of this model; the fields follow the lines commented out in `lyricsfandom/meta.py` (131 and 219).
- Music.Artist.GetAlbums: takes `cover` and `other` as arguments. The defaults of `get_albums` are `cover=False, other=False` (lyricsfandom/music/artist.py:269), yet the module documentation (lines 11-19) shows the default call listing `Songs On Compilations`, which only `other=True` keeps. The model does not decide which of the two is meant.

## Findings

| source | as written | input that shows it | evidently intended | confidence | as-written member | corrected member |
|---|---|---|---|---|---|---|
| lyricwiki/music/song.py:53-55 | `from_artist` and `from_album` call `name_to_wiki_id`, which the module never imports | any artist or album with at least one song | compare the song's `song_id` with the name's slug | not executed | Music.Song.FromSongs | Music.Song.FromSongsIntended |
| lyricsfandom/music/artist.py:318 | the not-found warning formats `artist.artist_name`, but there is no `artist` in scope | `search_album("No Such Album")` on an artist without that album | warn and return `None` | not executed | Music.Artist.SearchAlbum | Music.Artist.SearchAlbumIntended |
| lyricsfandom/music/album.py:136 | forced `add_song` sets the song's album name to the album's artist name | album `Daughter` / `If You Leave`, song with album `Other`, `force=True`: the song's album becomes `Daughter` | the song takes the album's own name, type and year; its artist name stays as it was, since the model's `Song.artistName` is a `const` that no method changes | not executed | Music.Album.AddSong | Music.Album.AddSongIntended |
| lyricwiki/music/album.py:140-141 | `add_song(name)` calls `register_artist` on the name string, not the new song | `add_song("Run")` | register and append the new song | not executed | Music.Album.LegacyAddSongNamed | Music.Album.LegacyAddSongNamedIntended |
