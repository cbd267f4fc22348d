/**
 * The entity classes of `lyricsfandom/music` and `lyricwiki/music`: an artist with its
 * albums, an album with its songs, a song with its lyrics. Each keeps the caches the
 * source memoises (`_links`, `_info`, `_items`, `_lyrics`) and the non-owning pointers an
 * album keeps to its artist and a song to its album and artist. Every fetch (`connect`) is
 * an `Option<Doc>` argument: `None` when the page could not be loaded.
 *
 * The legacy album methods of `lyricwiki/music/album.py` are the `Legacy...` methods of the
 * same `Album` class; `albumId` and `legacyType` are its plain fields `album_id` and
 * `_album_type`.
 */
module Music {
  import opened Wrappers
  import opened PyStr
  import opened Names
  import opened Headers
  import opened Markup
  import opened Scrape
  import opened Meta
  import opened Discography

  // ---------------------------------------------------------------------------------------
  // Searching by name
  // ---------------------------------------------------------------------------------------

  /** What a search compares: the slug of the album name, or the legacy `album_id` field. */
  datatype AlbumKey = AlbumSlug | AlbumId

  /** What a song search compares: the slug of the song name, or the legacy `song_id` field. */
  datatype SongKey = SongSlug | SongId

  /** The value a search compares for one album. */
  function AlbumKeyOf(a: Album, key: AlbumKey): string
    reads a
  {
    match key
    case AlbumSlug => NameToWikiId(a.albumName)
    case AlbumId => a.albumId
  }

  /** The value a song search compares for one song. */
  function SongKeyOf(s: Song, key: SongKey): string
  {
    match key
    case SongSlug => NameToWikiId(s.songName)
    case SongId => s.songId
  }

  /** The compared values of a list of albums, in list order. */
  function AlbumKeys(albs: seq<Album>, key: AlbumKey): (r: seq<string>)
    reads albs
    ensures |r| == |albs|
    decreases |albs|
  {
    if albs == [] then [] else AlbumKeys(albs[..|albs| - 1], key) + [AlbumKeyOf(albs[|albs| - 1], key)]
  }

  /** The compared values of a list of songs, in list order. */
  function SongKeys(ss: seq<Song>, key: SongKey): (r: seq<string>)
    ensures |r| == |ss|
    decreases |ss|
  {
    if ss == [] then [] else SongKeys(ss[..|ss| - 1], key) + [SongKeyOf(ss[|ss| - 1], key)]
  }

  /** Entry `k` of the compared values is the value of album `k`. */
  lemma {:induction false} AlbumKeysAt(albs: seq<Album>, key: AlbumKey, k: nat)
    requires k < |albs|
    ensures AlbumKeys(albs, key)[k] == AlbumKeyOf(albs[k], key)
    decreases |albs|
  {
    if k < |albs| - 1 {
      AlbumKeysAt(albs[..|albs| - 1], key, k);
    }
  }

  lemma {:induction false} SongKeysAt(ss: seq<Song>, key: SongKey, k: nat)
    requires k < |ss|
    ensures SongKeys(ss, key)[k] == SongKeyOf(ss[k], key)
    decreases |ss|
  {
    if k < |ss| - 1 {
      SongKeysAt(ss[..|ss| - 1], key, k);
    }
  }

  /** Album `albs[k]` is the first album of `albs` that matches `id`. */
  predicate FirstAlbumAt(albs: seq<Album>, key: AlbumKey, id: string, k: int)
    reads albs
  {
    0 <= k < |albs| && AlbumKeyOf(albs[k], key) == id && id !in AlbumKeys(albs[..k], key)
  }

  predicate NoAlbumMatches(albs: seq<Album>, key: AlbumKey, id: string)
    reads albs
  {
    id !in AlbumKeys(albs, key)
  }

  /** Song `ss[k]` is the first song of `ss` that matches `id`. */
  predicate FirstSongAt(ss: seq<Song>, key: SongKey, id: string, k: int)
    reads ss
  {
    0 <= k < |ss| && SongKeyOf(ss[k], key) == id && id !in SongKeys(ss[..k], key)
  }

  predicate NoSongMatches(ss: seq<Song>, key: SongKey, id: string)
  {
    id !in SongKeys(ss, key)
  }

  /** The scan of a search loop over the compared values: the index of the first `id`, or -1. */
  method FindKey(keys: seq<string>, id: string) returns (k: int)
    ensures k == -1 <==> id !in keys
    ensures k != -1 ==> 0 <= k < |keys| && keys[k] == id && id !in keys[..k]
  {
    k := 0;
    while k < |keys|
      invariant 0 <= k <= |keys|
      invariant id !in keys[..k]
    {
      if keys[k] == id {
        return;
      }
      assert keys[..k + 1] == keys[..k] + [keys[k]];
      k := k + 1;
    }
    assert keys[..|keys|] == keys;
    k := -1;
  }

  /** The compared values of a prefix are the prefix of the compared values. */
  lemma {:induction false} AlbumKeysPrefix(albs: seq<Album>, key: AlbumKey, k: nat)
    requires k <= |albs|
    ensures AlbumKeys(albs[..k], key) == AlbumKeys(albs, key)[..k]
    decreases |albs|
  {
    if k < |albs| {
      AlbumKeysPrefix(albs[..|albs| - 1], key, k);
      assert albs[..|albs| - 1][..k] == albs[..k];
    } else {
      assert albs[..k] == albs;
    }
  }

  lemma {:induction false} SongKeysPrefix(ss: seq<Song>, key: SongKey, k: nat)
    requires k <= |ss|
    ensures SongKeys(ss[..k], key) == SongKeys(ss, key)[..k]
    decreases |ss|
  {
    if k < |ss| {
      SongKeysPrefix(ss[..|ss| - 1], key, k);
      assert ss[..|ss| - 1][..k] == ss[..k];
    } else {
      assert ss[..k] == ss;
    }
  }

  /** The album search: the index of the first matching album, or -1. */
  method FindAlbum(albs: seq<Album>, key: AlbumKey, id: string) returns (k: int)
    ensures k == -1 <==> NoAlbumMatches(albs, key, id)
    ensures k != -1 ==> FirstAlbumAt(albs, key, id, k)
  {
    k := FindKey(AlbumKeys(albs, key), id);
    if k != -1 {
      AlbumKeysAt(albs, key, k);
      AlbumKeysPrefix(albs, key, k);
    }
  }

  /** The song search: the index of the first matching song, or -1. */
  method FindSong(ss: seq<Song>, key: SongKey, id: string) returns (k: int)
    ensures k == -1 <==> NoSongMatches(ss, key, id)
    ensures k != -1 ==> FirstSongAt(ss, key, id, k)
  {
    k := FindKey(SongKeys(ss, key), id);
    if k != -1 {
      SongKeysAt(ss, key, k);
      SongKeysPrefix(ss, key, k);
    }
  }

  /** The songs of the albums, album after album: what iterating `album.songs()` over them visits. */
  function SongsOfAlbums(albs: seq<Album>): seq<Song>
    reads albs
    decreases |albs|
  {
    if albs == [] then [] else SongsOfAlbums(albs[..|albs| - 1]) + albs[|albs| - 1].songs
  }

  /** Listing the albums one more album deep adds that album's songs at the end. */
  lemma SongsOfAlbumsNext(albs: seq<Album>, i: nat)
    requires i < |albs|
    ensures SongsOfAlbums(albs[..i + 1]) == SongsOfAlbums(albs[..i]) + albs[i].songs
  {
    assert albs[..i + 1][..i] == albs[..i];
  }

  /** A song is listed exactly when one of the albums holds it. */
  lemma {:induction false} SongsOfAlbumsMembers(albs: seq<Album>, s: Song)
    ensures s in SongsOfAlbums(albs) <==> exists k :: 0 <= k < |albs| && s in albs[k].songs
  {
    if albs != [] {
      var init := albs[..|albs| - 1];
      SongsOfAlbumsMembers(init, s);
      if s in SongsOfAlbums(albs) && s !in albs[|albs| - 1].songs {
        var k :| 0 <= k < |init| && s in init[k].songs;
        assert albs[k] == init[k];
      }
      if exists k :: 0 <= k < |albs| && s in albs[k].songs {
        var k :| 0 <= k < |albs| && s in albs[k].songs;
        if k < |init| {
          assert init[k] == albs[k];
        }
      }
    }
  }

  /** The songs of the albums, album after album, in the order of each album's songs. */
  method CollectSongs(list: seq<Album>) returns (all: seq<Song>)
    ensures all == SongsOfAlbums(list)
  {
    all := [];
    var i := 0;
    while i < |list|
      invariant 0 <= i <= |list| && all == SongsOfAlbums(list[..i])
    {
      var ss := list[i].songs;
      var j := 0;
      while j < |ss|
        invariant 0 <= j <= |ss| && all == SongsOfAlbums(list[..i]) + ss[..j]
      {
        all := all + [ss[j]];
        assert ss[..j + 1] == ss[..j] + [ss[j]];
        j := j + 1;
      }
      assert ss[..j] == ss;
      SongsOfAlbumsNext(list, i);
      i := i + 1;
    }
    assert list[..i] == list;
  }

  // ---------------------------------------------------------------------------------------
  // What the discography loop builds
  // ---------------------------------------------------------------------------------------
  //
  // The predicates below describe a whole cache of albums and songs. A method contract that
  // states one of them (`Listing`, `LazyScan`, `FirstHit`, `ScanState`) compares it with
  // `true`: the verifier then checks it as one fact, proved by the lemma the method calls,
  // instead of unfolding its definition and checking each part on its own.

  /** Song `s` was made from `seed` while assembling album `a` (titled `title`) of `owner`. */
  predicate SongMade(s: Song, seed: SongSeed, title: AlbumTitle, a: Album, owner: Artist)
    reads s
  {
    s.artistGiven == seed.artist && s.songGiven == seed.song
    && s.albumName == Stored(title.name) && s.albumYear == title.year && s.albumType == None
    && s.href == seed.href && s.album == a && s.artist == owner
  }

  /** The fields of an album object made for a heading titled `title` of `owner`'s page. */
  predicate AlbumMade(a: Album, title: AlbumTitle, owner: Artist, ownerName: string)
    reads a`artist, a`artistName
  {
    a.artist == owner && a.artistName == Canonical(ownerName)
    && a.albumGiven == title.name && a.albumName == Stored(title.name) && a.albumYear == title.year
  }

  /** Song `ss[k]` was made from `seeds[k]`, for every index, while assembling album `a`. */
  predicate SongsMade(ss: seq<Song>, seeds: seq<SongSeed>, title: AlbumTitle, a: Album, owner: Artist)
    reads ss
    decreases |ss|
  {
    |ss| == |seeds|
    && (|ss| > 0 ==>
          SongsMade(ss[..|ss| - 1], seeds[..|seeds| - 1], title, a, owner)
          && SongMade(ss[|ss| - 1], seeds[|seeds| - 1], title, a, owner))
  }

  /** A realised list followed by a song made from one more seed is realised for the longer seed list. */
  lemma SongsMadeSnoc(ss: seq<Song>, seeds: seq<SongSeed>, title: AlbumTitle, a: Album, owner: Artist, s: Song, seed: SongSeed)
    requires SongsMade(ss, seeds, title, a, owner) && SongMade(s, seed, title, a, owner)
    ensures SongsMade(ss + [s], seeds + [seed], title, a, owner)
  {
    assert (ss + [s])[..|ss|] == ss;
    assert (seeds + [seed])[..|seeds|] == seeds;
  }

  /** The song at any index of a realised list was made from the seed at that index. */
  lemma {:induction false} SongsMadeAt(ss: seq<Song>, seeds: seq<SongSeed>, title: AlbumTitle, a: Album, owner: Artist, k: nat)
    requires SongsMade(ss, seeds, title, a, owner) && k < |ss|
    ensures SongMade(ss[k], seeds[k], title, a, owner)
    decreases |ss|
  {
    if k < |ss| - 1 {
      SongsMadeAt(ss[..|ss| - 1], seeds[..|seeds| - 1], title, a, owner, k);
    }
  }

  /** Album object `a` holds what plan `p` says: its heading, its type and one song per seed. */
  predicate RealisesPlan(a: Album, p: AlbumPlan, owner: Artist, ownerName: string)
    reads a, set s | s in a.songs
  {
    AlbumMade(a, p.title, owner, ownerName)
    && a.albumType == (if p.typed then Some(AlbumTypeFor(|p.songs|)) else None)
    && SongsMade(a.songs, p.songs, p.title, a, owner)
  }

  /**
   * Every song of a realised album is made from its seed's names, under the album's name and
   * year, and points back to the album and to the artist of the page.
   */
  lemma RealisedSongs(a: Album, p: AlbumPlan, owner: Artist, ownerName: string)
    requires RealisesPlan(a, p, owner, ownerName)
    ensures |a.songs| == |p.songs|
    ensures forall k | 0 <= k < |a.songs| ::
      a.songs[k].album == a && a.songs[k].artist == owner
      && a.songs[k].artistGiven == p.songs[k].artist && a.songs[k].songGiven == p.songs[k].song
      && a.songs[k].albumName == a.albumName && a.songs[k].albumYear == a.albumYear && a.songs[k].href == p.songs[k].href
  {
    forall k | 0 <= k < |a.songs|
      ensures a.songs[k].album == a && a.songs[k].artist == owner
      ensures a.songs[k].artistGiven == p.songs[k].artist && a.songs[k].songGiven == p.songs[k].song
      ensures a.songs[k].albumName == a.albumName && a.songs[k].albumYear == a.albumYear && a.songs[k].href == p.songs[k].href
    {
      SongsMadeAt(a.songs, p.songs, p.title, a, owner, k);
    }
  }

  /** Album `albs[k]` realises `plans[k]` of `owner`'s page, for every index. */
  predicate Built(albs: seq<Album>, plans: seq<AlbumPlan>, owner: Artist)
    reads albs, set a, s | a in albs && s in a.songs :: s
    decreases |albs|
  {
    |albs| == |plans|
    && (|albs| > 0 ==>
          Built(albs[..|albs| - 1], plans[..|plans| - 1], owner)
          && assert albs[|albs| - 1] in albs;
             RealisesPlan(albs[|albs| - 1], plans[|plans| - 1], owner, owner.artistName))
  }

  /**
   * `r` and the new album cache `albs` are what `items(cover, other)` gives for `page`: no
   * album without a page, else the albums of the page's discography or its first error.
   */
  predicate Listing(page: Option<Doc>, owner: Artist, cover: bool, other: bool, r: Result<seq<Album>>, albs: seq<Album>)
    reads albs, set a, s | a in albs && s in a.songs :: s
  {
    match page
    case None => r == Ok([]) && albs == []
    case Some(doc) =>
      match Assembly(doc, owner.artistName, cover, other)
      case Err(e) =>
        r == Err(e)
        && exists n | 0 <= n < |doc.headings| ::
             ScannedTo(doc, owner, cover, other, n, albs)
             && SectionPlan(doc.headings[n], doc, owner.artistName, cover, other) == Err(e)
      case Ok(plans) => r == Ok(albs) && Built(albs, plans, owner)
  }

  /** The albums built for the clean outcomes of the first `n` headings are the cache `items` has then built. */
  lemma Scanned(doc: Doc, owner: Artist, got: seq<Result<Option<AlbumPlan>>>, plans: seq<AlbumPlan>, n: nat, albs: seq<Album>)
    requires n <= |doc.headings| && got == Sections(doc.headings[..n], doc, owner.artistName, true, true)
    requires Collect(got) == Ok(plans) && Built(albs, plans, owner)
    ensures ScannedTo(doc, owner, true, true, n, albs)
  {
  }

  /** A heading that raises after clean ones makes `items` raise, leaving the clean ones' albums. */
  lemma ListingRaised(doc: Doc, owner: Artist, cover: bool, other: bool, n: nat, plans: seq<AlbumPlan>, albs: seq<Album>, e: Error)
    requires n < |doc.headings| && Collect(Sections(doc.headings[..n], doc, owner.artistName, cover, other)) == Ok(plans)
    requires Built(albs, plans, owner)
    requires SectionPlan(doc.headings[n], doc, owner.artistName, cover, other) == Err(e)
    ensures Assembly(doc, owner.artistName, cover, other) == Err(e)
    ensures Listing(Some(doc), owner, cover, other, Err(e), albs)
  {
    AssemblyFailsAt(Sections(doc.headings[..n], doc, owner.artistName, cover, other), doc, owner.artistName, cover, other, e);
    assert ScannedTo(doc, owner, cover, other, n, albs);
  }

  /** Headings that were all clean leave the albums of the whole discography: `items` returns them. */
  lemma ListingDone(doc: Doc, owner: Artist, cover: bool, other: bool, plans: seq<AlbumPlan>, albs: seq<Album>)
    requires Collect(Sections(doc.headings, doc, owner.artistName, cover, other)) == Ok(plans)
    requires Built(albs, plans, owner)
    ensures Listing(Some(doc), owner, cover, other, Ok(albs), albs)
  {
  }

  /**
   * `albs` is the cache once `items(cover, other)` has gone through the first `n` headings of
   * `doc` without raising: the albums those headings keep, in heading order.
   */
  predicate ScannedTo(doc: Doc, owner: Artist, cover: bool, other: bool, n: nat, albs: seq<Album>)
    reads albs, set a, s | a in albs && s in a.songs :: s
  {
    n <= |doc.headings|
    && var got := Collect(Sections(doc.headings[..n], doc, owner.artistName, cover, other));
       got.Ok? && Built(albs, got.value, owner)
  }

  /** `r` is what a search of `albs` for `id` returns: the first match, `None` when none matches. */
  ghost predicate AlbumSearch(albs: seq<Album>, key: AlbumKey, id: string, r: Option<Album>)
    reads albs
  {
    (r.None? <==> NoAlbumMatches(albs, key, id))
    && (r.Some? ==> exists k :: FirstAlbumAt(albs, key, id, k) && albs[k] == r.value)
  }

  ghost predicate SongSearch(ss: seq<Song>, key: SongKey, id: string, r: Option<Song>)
    reads ss
  {
    (r.None? <==> NoSongMatches(ss, key, id))
    && (r.Some? ==> exists k :: FirstSongAt(ss, key, id, k) && ss[k] == r.value)
  }

  /** A built list followed by an album that realises one more plan is built for the longer plan list. */
  lemma BuiltSnoc(albs: seq<Album>, plans: seq<AlbumPlan>, owner: Artist, a: Album, p: AlbumPlan)
    requires Built(albs, plans, owner) && RealisesPlan(a, p, owner, owner.artistName)
    ensures Built(albs + [a], plans + [p], owner)
  {
    assert (albs + [a])[..|albs|] == albs;
    assert (plans + [p])[..|plans|] == plans;
  }

  /** The album at any index of a built list realises the plan at that index. */
  lemma {:induction false} BuiltAt(albs: seq<Album>, plans: seq<AlbumPlan>, owner: Artist, k: nat)
    requires Built(albs, plans, owner) && k < |albs|
    ensures RealisesPlan(albs[k], plans[k], owner, owner.artistName)
    decreases |albs|
  {
    if k < |albs| - 1 {
      BuiltAt(albs[..|albs| - 1], plans[..|plans| - 1], owner, k);
    }
  }

  /** Every album `items` lists holds at least one song: empty headings give no album. */
  lemma ListedAlbumsHaveSongs(page: Option<Doc>, owner: Artist, cover: bool, other: bool, r: Result<seq<Album>>, albs: seq<Album>)
    requires Listing(page, owner, cover, other, r, albs) && r.Ok?
    ensures r.value == albs
    ensures forall k | 0 <= k < |albs| :: |albs[k].songs| > 0
  {
    if page.Some? {
      var plans := Assembly(page.value, owner.artistName, cover, other).value;
      AssemblyHasNoEmptyAlbum(page.value, owner.artistName, cover, other);
      forall k | 0 <= k < |albs|
        ensures |albs[k].songs| > 0
      {
        BuiltAt(albs, plans, owner, k);
      }
    }
  }

  // ---------------------------------------------------------------------------------------
  // Searches that return at the first match
  // ---------------------------------------------------------------------------------------

  /** What a search over `albums()` looks for: an album by its slug, or a song by its slug. */
  datatype Target = AlbumNamed(id: string) | SongNamed(id: string)

  /** Album `a` holds what `t` looks for: its own slug, or one of its songs' slugs, is `id`. */
  predicate Hits(a: Album, t: Target)
    reads a
  {
    match t
    case AlbumNamed(id) => AlbumKeyOf(a, AlbumSlug) == id
    case SongNamed(id) => !NoSongMatches(a.songs, SongSlug, id)
  }

  /** No album of `albs` holds what `t` looks for. */
  predicate NoneHit(albs: seq<Album>, t: Target)
    reads albs
  {
    forall a | a in albs :: !Hits(a, t)
  }

  /** The album of plan `p` would hold what `t` looks for: the plan's stored names give the slugs. */
  predicate PlanHits(p: AlbumPlan, t: Target) {
    match t
    case AlbumNamed(id) => NameToWikiId(Stored(p.title.name)) == id
    case SongNamed(id) => exists j | 0 <= j < |p.songs| :: NameToWikiId(Canonical(p.songs[j].song)) == id
  }

  /** No plan of `plans` would hold what `t` looks for. */
  predicate NoPlanHits(plans: seq<AlbumPlan>, t: Target) {
    forall k | 0 <= k < |plans| :: !PlanHits(plans[k], t)
  }

  /** An album holds what `t` looks for exactly when the plan it realises would. */
  lemma RealisedHits(a: Album, p: AlbumPlan, owner: Artist, t: Target)
    requires RealisesPlan(a, p, owner, owner.artistName)
    ensures Hits(a, t) <==> PlanHits(p, t)
  {
    if t.SongNamed? {
      SongKeysHas(a.songs, t.id);
      forall j | 0 <= j < |a.songs|
        ensures j < |p.songs| && SongKeyOf(a.songs[j], SongSlug) == NameToWikiId(Canonical(p.songs[j].song))
      {
        SongsMadeAt(a.songs, p.songs, p.title, a, owner, j);
      }
    }
  }

  /** Albums built for plans none of which would hit hold no hit. */
  lemma BuiltNoneHit(albs: seq<Album>, plans: seq<AlbumPlan>, owner: Artist, t: Target)
    requires Built(albs, plans, owner) && NoPlanHits(plans, t)
    ensures NoneHit(albs, t)
  {
    forall a | a in albs
      ensures !Hits(a, t)
    {
      var k :| 0 <= k < |albs| && albs[k] == a;
      BuiltAt(albs, plans, owner, k);
      RealisedHits(albs[k], plans[k], owner, t);
    }
  }

  /** `r` is the first album of `albs` holding what `t` looks for, `None` when none does. */
  predicate FirstHit(albs: seq<Album>, t: Target, r: Option<Album>)
    reads albs
  {
    match r
    case None => NoneHit(albs, t)
    case Some(a) =>
      a in albs && Hits(a, t) && exists k | 0 <= k < |albs| :: albs[k] == a && NoneHit(albs[..k], t)
  }

  /**
   * `r` and the new cache `albs` are what a loop over `albums()` that returns at the first
   * album holding `t` gives on an empty cache. The generator of `items` adds each kept album
   * to the cache before the loop looks at it, and the loop stops it there: `n` headings are
   * read, and a heading after the match can neither raise nor add an album.
   */
  predicate LazyScan(page: Option<Doc>, owner: Artist, t: Target, r: Result<Option<Album>>, n: nat, albs: seq<Album>)
    reads albs, set a, s | a in albs && s in a.songs :: s
  {
    match page
    case None => r == Ok(None) && albs == []
    case Some(doc) =>
      ScannedTo(doc, owner, true, true, n, albs)
      && match r
         case Err(e) =>
           n < |doc.headings| && SectionPlan(doc.headings[n], doc, owner.artistName, true, true) == Err(e)
           && NoneHit(albs, t)
         case Ok(None) => n == |doc.headings| && NoneHit(albs, t)
         case Ok(Some(a)) =>
           0 < n && 0 < |albs| && a == albs[|albs| - 1] && Hits(a, t) && NoneHit(albs[..|albs| - 1], t)
           && SectionPlan(doc.headings[n - 1], doc, owner.artistName, true, true).Ok?
           && SectionPlan(doc.headings[n - 1], doc, owner.artistName, true, true).value.Some?
  }

  /** An album added after albums without a hit, that misses too, leaves the longer plan list without a hit. */
  lemma MissStep(albs: seq<Album>, plans: seq<AlbumPlan>, q: AlbumPlan, owner: Artist, t: Target)
    requires 0 < |albs| && Built(albs, plans + [q], owner) && NoPlanHits(plans, t)
    requires !Hits(albs[|albs| - 1], t)
    ensures NoPlanHits(plans + [q], t)
  {
    RealisedHits(albs[|albs| - 1], q, owner, t);
    forall k | 0 <= k < |plans + [q]|
      ensures !PlanHits((plans + [q])[k], t)
    {
      if k < |plans| {
        assert (plans + [q])[k] == plans[k];
      }
    }
  }

  /**
   * The state of a lazy search after the first `n` headings: they were all clean, `albs` is
   * the cache built for their albums, and no album so far holds `t`.
   */
  predicate ScanState(doc: Doc, owner: Artist, t: Target, n: nat, plans: seq<AlbumPlan>, albs: seq<Album>)
    reads albs, set a, s | a in albs && s in a.songs :: s
  {
    n <= |doc.headings|
    && Collect(Sections(doc.headings[..n], doc, owner.artistName, true, true)) == Ok(plans)
    && Built(albs, plans, owner) && NoPlanHits(plans, t)
  }

  /** A lazy search that got through every heading without a hit ends with `Ok(None)`. */
  lemma LazyMissAt(doc: Doc, owner: Artist, t: Target, n: nat, plans: seq<AlbumPlan>, albs: seq<Album>)
    requires n == |doc.headings| && ScanState(doc, owner, t, n, plans, albs) == true
    ensures LazyScan(Some(doc), owner, t, Ok(None), n, albs)
  {
    assert doc.headings[..|doc.headings|] == doc.headings;
    Scanned(doc, owner, Sections(doc.headings, doc, owner.artistName, true, true), plans, |doc.headings|, albs);
    BuiltNoneHit(albs, plans, owner, t);
  }

  /** A heading that raises after clean headings without a hit ends a lazy search with its error. */
  lemma LazyRaisedAt(doc: Doc, owner: Artist, t: Target, n: nat, plans: seq<AlbumPlan>, albs: seq<Album>, e: Error)
    requires n < |doc.headings| && ScanState(doc, owner, t, n, plans, albs)
    requires SectionPlan(doc.headings[n], doc, owner.artistName, true, true) == Err(e)
    ensures LazyScan(Some(doc), owner, t, Err(e), n, albs)
  {
    Scanned(doc, owner, Sections(doc.headings[..n], doc, owner.artistName, true, true), plans, n, albs);
    BuiltNoneHit(albs, plans, owner, t);
  }

  /** An album that holds `t`, kept for heading `i` after albums without a hit, ends a lazy search. */
  lemma LazyHitAt(doc: Doc, owner: Artist, t: Target, i: nat, plans: seq<AlbumPlan>, q: AlbumPlan, albs: seq<Album>)
    requires i < |doc.headings|
    requires Collect(Sections(doc.headings[..i + 1], doc, owner.artistName, true, true)) == Ok(plans + [q])
    requires SectionPlan(doc.headings[i], doc, owner.artistName, true, true) == Ok(Some(q))
    requires Built(albs, plans + [q], owner) && NoPlanHits(plans, t)
    requires 0 < |albs| && Hits(albs[|albs| - 1], t)
    ensures LazyScan(Some(doc), owner, t, Ok(Some(albs[|albs| - 1])), i + 1, albs)
  {
    Scanned(doc, owner, Sections(doc.headings[..i + 1], doc, owner.artistName, true, true), plans + [q], i + 1, albs);
    assert (plans + [q])[..|plans|] == plans;
    BuiltNoneHit(albs[..|albs| - 1], plans, owner, t);
  }

  /** One more album that does not hit keeps a prefix free of hits. */
  lemma NoneHitNext(albs: seq<Album>, t: Target, k: nat)
    requires k < |albs| && NoneHit(albs[..k], t) && !Hits(albs[k], t)
    ensures NoneHit(albs[..k + 1], t)
  {
    assert forall j | 0 <= j < k :: albs[..k + 1][j] == albs[..k][j];
  }

  /** The album a lazy search returns is the first album of the cache it leaves that holds `t`. */
  lemma LazyFirstHit(page: Option<Doc>, owner: Artist, t: Target, r: Result<Option<Album>>, n: nat, albs: seq<Album>)
    requires LazyScan(page, owner, t, r, n, albs) && r.Ok?
    ensures FirstHit(albs, t, r.value)
  {
    if r.value.Some? {
      assert albs[|albs| - 1] == r.value.value;
    }
  }

  /**
   * A lazy search raises only where `items` run to the end raises: with the same error, and
   * with the same cache left behind.
   */
  lemma LazyRaiseIsEager(doc: Doc, owner: Artist, t: Target, r: Result<Option<Album>>, n: nat, albs: seq<Album>)
    requires LazyScan(Some(doc), owner, t, r, n, albs) && r.Err?
    ensures Assembly(doc, owner.artistName, true, true) == Err(r.error)
    ensures Listing(Some(doc), owner, true, true, Err(r.error), albs)
  {
    ListingRaised(doc, owner, true, true, n, Collect(Sections(doc.headings[..n], doc, owner.artistName, true, true)).value, albs, r.error);
  }

  /** A lazy search that finds nothing has run `items` to the end: it leaves the full listing. */
  lemma LazyMissIsEager(page: Option<Doc>, owner: Artist, t: Target, n: nat, albs: seq<Album>)
    requires LazyScan(page, owner, t, Ok(None), n, albs)
    ensures Listing(page, owner, true, true, Ok(albs), albs) && NoneHit(albs, t)
  {
    if page.Some? {
      assert page.value.headings[..n] == page.value.headings;
    }
  }

  /** No album hits by slug exactly when the slug is not among the albums' compared values. */
  lemma NoneHitAlbums(albs: seq<Album>, id: string)
    ensures NoneHit(albs, AlbumNamed(id)) <==> NoAlbumMatches(albs, AlbumSlug, id)
  {
    forall k | 0 <= k < |albs|
      ensures AlbumKeys(albs, AlbumSlug)[k] == AlbumKeyOf(albs[k], AlbumSlug)
    {
      AlbumKeysAt(albs, AlbumSlug, k);
    }
    if NoAlbumMatches(albs, AlbumSlug, id) {
      forall a | a in albs
        ensures !Hits(a, AlbumNamed(id))
      {
        var k :| 0 <= k < |albs| && albs[k] == a;
      }
    }
    if NoneHit(albs, AlbumNamed(id)) {
      forall k | 0 <= k < |albs|
        ensures AlbumKeys(albs, AlbumSlug)[k] != id
      {
        assert albs[k] in albs;
      }
    }
  }

  /** The first album hit by slug is what the album search finds. */
  lemma FirstHitAlbum(albs: seq<Album>, id: string, r: Option<Album>)
    requires FirstHit(albs, AlbumNamed(id), r)
    ensures AlbumSearch(albs, AlbumSlug, id, r)
  {
    NoneHitAlbums(albs, id);
    if r.Some? {
      var k :| 0 <= k < |albs| && albs[k] == r.value && NoneHit(albs[..k], AlbumNamed(id));
      NoneHitAlbums(albs[..k], id);
      AlbumKeysAt(albs, AlbumSlug, k);
      AlbumKeysPrefix(albs, AlbumSlug, k);
      assert FirstAlbumAt(albs, AlbumSlug, id, k);
    }
  }

  /** A slug is among the songs' compared values exactly when some song has it. */
  lemma SongKeysHas(ss: seq<Song>, id: string)
    ensures id in SongKeys(ss, SongSlug) <==> exists j | 0 <= j < |ss| :: SongKeyOf(ss[j], SongSlug) == id
  {
    forall j | 0 <= j < |ss|
      ensures SongKeys(ss, SongSlug)[j] == SongKeyOf(ss[j], SongSlug)
    {
      SongKeysAt(ss, SongSlug, j);
    }
  }

  /**
   * What the outer loop of `search_song` hands to the inner one: with no album found, no
   * listed song has the slug; with an album found, one of its songs has it.
   */
  lemma FoundSongs(albs: seq<Album>, id: string, found: Result<Option<Album>>)
    requires found.Ok? ==> FirstHit(albs, SongNamed(id), found.value) == true
    ensures found == Ok(None) ==> NoSongMatches(SongsOfAlbums(albs), SongSlug, id)
    ensures found.Ok? && found.value.Some? ==> Hits(found.value.value, SongNamed(id))
  {
    NoneHitSongs(albs, id);
  }

  /** No album hits by song slug exactly when no listed song has that slug. */
  lemma NoneHitSongs(albs: seq<Album>, id: string)
    ensures NoneHit(albs, SongNamed(id)) <==> NoSongMatches(SongsOfAlbums(albs), SongSlug, id)
  {
    var all := SongsOfAlbums(albs);
    SongKeysHas(all, id);
    if !NoSongMatches(all, SongSlug, id) {
      var j :| 0 <= j < |all| && SongKeyOf(all[j], SongSlug) == id;
      SongsOfAlbumsMembers(albs, all[j]);
      var k :| 0 <= k < |albs| && all[j] in albs[k].songs;
      var i :| 0 <= i < |albs[k].songs| && albs[k].songs[i] == all[j];
      SongKeysHas(albs[k].songs, id);
      assert Hits(albs[k], SongNamed(id));
    }
    if !NoneHit(albs, SongNamed(id)) {
      var a :| a in albs && Hits(a, SongNamed(id));
      var k :| 0 <= k < |albs| && albs[k] == a;
      SongKeysHas(albs[k].songs, id);
      var i :| 0 <= i < |albs[k].songs| && SongKeyOf(albs[k].songs[i], SongSlug) == id;
      SongsOfAlbumsMembers(albs, albs[k].songs[i]);
      var j :| 0 <= j < |all| && all[j] == albs[k].songs[i];
      assert SongKeyOf(all[j], SongSlug) == id;
    }
  }

  /** A value of the record `Song.to_json` builds. */
  datatype JsonValue = JNull | JText(text: string) | JLinks(links: Links)

  function OptText(s: Option<string>): JsonValue {
    if s.Some? then JText(s.value) else JNull
  }

  function OptLinks(l: Option<Links>): JsonValue {
    if l.Some? then JLinks(l.value) else JNull
  }

  /** The keys of `Song.to_json`. */
  const SongJsonKeys: set<string> := {"artist", "album", "year", "song", "lyrics", "url", "links"}

  // ---------------------------------------------------------------------------------------
  // Songs
  // ---------------------------------------------------------------------------------------

  class Song {
    /** The artist and song names the song was made with; the stored names derive from them. */
    const artistGiven: string
    const songGiven: string
    const artistName: string
    const songName: string := Canonical(songGiven)
    const songId: string
    var albumName: string
    var albumYear: Option<string>
    var albumType: Option<string>
    var href: Option<string>
    var links: Option<Links>
    var items: seq<Song>
    var artist: Artist?
    var album: Album?
    var lyrics: Option<string>

    /**
     * `Song(artist, song, album_name, album_year, album_type)`: the names stored canonical, the
     * album name `''` when not given, and the href of the song page replacing the album's.
     */
    constructor (artist: string, song: string, albumOf: string, year: Option<string>, kind: Option<string>)
      ensures artistGiven == artist && songGiven == song
      ensures artistName == Canonical(artist) && songName == Canonical(song) && songId == NameToWikiId(song)
      ensures albumName == Stored(albumOf) && albumYear == year && albumType == kind
      ensures href == SongHref(artistName, songName)
      ensures links == None && items == [] && this.artist == null && album == null && lyrics == None
    {
      artistGiven := artist;
      songGiven := song;
      artistName := Canonical(artist);
      songId := NameToWikiId(song);
      albumName := Stored(albumOf);
      albumYear := year;
      albumType := kind;
      href := SongHref(Canonical(artist), Canonical(song));
      links := None;
      items := [];
      this.artist := null;
      album := null;
      lyrics := None;
    }

    /**
     * A new song, as `Song(...)` makes it, described by what the album and artist methods
     * below rely on: its names, its album fields and its empty caches and pointers.
     */
    static method Create(artist: string, song: string, albumOf: string, year: Option<string>, kind: Option<string>) returns (s: Song)
      ensures fresh(s)
      ensures s.artistGiven == artist && s.songGiven == song
      ensures s.albumName == Stored(albumOf) && s.albumYear == year && s.albumType == kind
      ensures s.links == None && s.items == [] && s.artist == null && s.album == null && s.lyrics == None
    {
      s := new Song(artist, song, albumOf, year, kind);
    }

    /** `url`: the page address when the href is truthy, and `None` otherwise. */
    function Url(): (r: Option<string>)
      reads this
      ensures r.Some? <==> Present(href)
      ensures r.Some? ==> |r.value| > |SiteBase| && r.value[..|SiteBase|] == SiteBase && r.value[|SiteBase|..] == href.value
    {
      UrlOf(href)
    }

    /** `__repr__`: it opens with the artist and the quoted song name. */
    function Repr(): (r: string)
      reads this
      ensures var head := artistName + ": \"" + songName + "\"";
        |r| >= |head| && r[..|head|] == head
    {
      SongRepr(artistName, songName, albumName, albumType, albumYear)
    }

    method SetLyrics(value: Option<string>)
      modifies this`lyrics
      ensures lyrics == value
    {
      lyrics := value;
    }

    function GetAlbum(): Album?
      reads this
    {
      album
    }

    function GetArtist(): Artist?
      reads this
    {
      artist
    }

    /** `register_album(x)`: afterwards `get_album()` is `x`. */
    method RegisterAlbum(x: Album?)
      modifies this`album
      ensures GetAlbum() == x
    {
      album := x;
    }

    /** `register_artist(x)`: afterwards `get_artist()` is `x`. */
    method RegisterArtist(x: Artist?)
      modifies this`artist
      ensures GetArtist() == x
    {
      artist := x;
    }

    /** `SongMeta.unregister`: clears both pointers and nothing else. */
    method Unregister()
      modifies this`artist, this`album
      ensures GetArtist() == null && GetAlbum() == null
    {
      artist := null;
      album := null;
    }

    /** `items`: the stored items, unchanged. */
    method Items() returns (r: seq<Song>)
      ensures r == items
    {
      r := items;
    }

    /**
     * `get_lyrics`: fetches only when the cache is falsy and the song has a page. A failed
     * fetch returns `''` and leaves the cache as it was; a successful one stores the scraped
     * lyrics and returns them.
     */
    method GetLyrics(page: Option<Doc>) returns (r: Option<string>)
      modifies this`lyrics
      ensures Present(old(lyrics)) || !Present(href) ==> r == old(lyrics) && lyrics == old(lyrics)
      ensures !Present(old(lyrics)) && Present(href) && page.None? ==> r == Some("") && lyrics == old(lyrics)
      ensures !Present(old(lyrics)) && Present(href) && page.Some? ==>
        lyrics == Some(Scrape.GetLyrics(page.value.root, page.value.markup)) && r == lyrics
    {
      if !Present(lyrics) && Present(href) {
        if page.None? {
          return Some("");
        }
        lyrics := Some(Scrape.GetLyrics(page.value.root, page.value.markup));
      }
      r := lyrics;
    }

    /** A fetched lyrics text is cleaned: no `<br/>` is left in it. */
    lemma FetchedLyricsClean(page: Doc)
      ensures !Contains(Scrape.GetLyrics(page.root, page.markup), "<br/>")
    {
    }

    /**
     * `to_json` with `encode=None`: the record of the song's fields, its lyrics and links as
     * `get_lyrics` and `get_links` returned them, and its url.
     */
    function ToJson(lyricsNow: Option<string>, linksNow: Option<Links>): (r: map<string, JsonValue>)
      reads this
      ensures r.Keys == SongJsonKeys
      ensures r["lyrics"] == OptText(lyricsNow) && r["links"] == OptLinks(linksNow) && r["url"] == OptText(Url())
    {
      map["artist" := JText(artistName), "album" := JText(albumName), "year" := OptText(albumYear),
          "song" := JText(songName), "lyrics" := OptText(lyricsNow), "url" := OptText(Url()),
          "links" := OptLinks(linksNow)]
    }

    /**
     * `from_artist` and `from_album` as written, over the songs they iterate: the comparison
     * uses `name_to_wiki_id`, which the module never imports, so the first song compared
     * raises `NameError`; only an empty list reaches the warning and `None`.
     */
    static method FromSongs(songs: seq<Song>, name: string) returns (r: Result<Option<Song>>)
      ensures r.Err? <==> |songs| > 0
      ensures r.Err? ==> r.error == NameError
      ensures r.Ok? ==> r.value.None?
    {
      if |songs| > 0 {
        return Err(NameError);
      }
      r := Ok(None);
    }

    /** `from_artist` and `from_album` with the slug function in scope: the first song whose `song_id` matches. */
    static method FromSongsIntended(songs: seq<Song>, name: string) returns (r: Option<Song>)
      ensures r.None? <==> NoSongMatches(songs, SongId, NameToWikiId(name))
      ensures r.Some? ==> exists k :: FirstSongAt(songs, SongId, NameToWikiId(name), k) && songs[k] == r.value
    {
      var k := FindSong(songs, SongId, NameToWikiId(name));
      if k == -1 {
        return None;
      }
      r := Some(songs[k]);
    }
  }

  // ---------------------------------------------------------------------------------------
  // Albums
  // ---------------------------------------------------------------------------------------

  class Album {
    var artistName: string
    /** The album name the album was made with; the stored name and `album_id` derive from it. */
    const albumGiven: string
    const albumName: string
    const albumYear: Option<string>
    var albumType: Option<string>
    const href: Option<string>
    var links: Option<Links>
    var songs: seq<Song>
    var artist: Artist?
    const albumId: string
    const legacyType: Option<string>

    /**
     * `Album(artist, album, album_type, album_year)`: the names stored canonical (a missing
     * album name as `''`), and the href set only when artist, album and year are all given.
     */
    constructor (artistOf: string, album: string, year: Option<string>, kind: Option<string>)
      ensures albumGiven == album
      ensures artistName == Canonical(artistOf) && albumName == Stored(album)
      ensures albumYear == year && albumType == kind && legacyType == kind
      ensures href == AlbumHref(artistName, albumName, albumYear)
      ensures albumId == NameToWikiId(albumName)
      ensures links == None && songs == [] && artist == null
    {
      var a := Canonical(artistOf);
      artistName := a;
      albumGiven := album;
      albumName := Stored(album);
      albumId := NameToWikiId(Stored(album));
      albumYear := year;
      albumType := kind;
      legacyType := kind;
      href := AlbumHref(a, Stored(album), year);
      links := None;
      songs := [];
      artist := null;
    }

    /** `url`: the page address when the href is truthy, and `None` otherwise. */
    function Url(): (r: Option<string>)
      reads this
      ensures r.Some? <==> Present(href)
      ensures r.Some? ==> |r.value| > |SiteBase| && r.value[..|SiteBase|] == SiteBase && r.value[|SiteBase|..] == href.value
    {
      UrlOf(href)
    }

    /** `__repr__`: it opens with the artist and `:`, and closes with the song count when there are songs. */
    function Repr(): (r: string)
      reads this
      ensures |r| > |artistName| && r[..|artistName| + 1] == artistName + ":"
      ensures |songs| > 0 ==> var tail := ", Songs: " + Decimal(|songs|);
        |r| >= |tail| && r[|r| - |tail|..] == tail
    {
      AlbumRepr(artistName, albumType, albumName, albumYear, |songs|)
    }

    function GetArtist(): Artist?
      reads this
    {
      artist
    }

    /** `register_artist(x)`: afterwards `get_artist()` is `x`. */
    method RegisterArtist(x: Artist?)
      modifies this`artist
      ensures GetArtist() == x
    {
      artist := x;
    }

    /** `AlbumMeta.unregister`: the album no longer points to an artist. */
    method Unregister()
      modifies this`artist
      ensures GetArtist() == null
    {
      artist := null;
    }

    /** `set_album_type`: the type the number of songs gives. */
    method SetAlbumType()
      modifies this`albumType
      ensures albumType == Some(AlbumTypeFor(|songs|))
    {
      var size := |songs|;
      if size == 1 {
        albumType := Some("Single");
      } else if size < 6 {
        albumType := Some("EP");
      } else {
        albumType := Some("Album");
      }
    }

    /**
     * The end of one heading of `items`: the type is set when the last link of the section
     * sits in an ordered list, and the album then realises the plan of its heading.
     */
    method Finish(typed: bool, ghost title: AlbumTitle, ghost seeds: seq<SongSeed>, ghost owner: Artist, ghost ownerName: string)
      requires AlbumMade(this, title, owner, ownerName) && albumType == None
      requires SongsMade(songs, seeds, title, this, owner)
      modifies this`albumType
      ensures RealisesPlan(this, AlbumPlan(title, seeds, typed), owner, ownerName)
    {
      if typed {
        SetAlbumType();
      }
    }

    /** `__getitem__`: Python list indexing, negative indices counting from the end. */
    function GetItem(i: int): (r: Result<Song>)
      reads this
      ensures r.Ok? <==> -|songs| <= i < |songs|
      ensures r.Err? ==> r.error == IndexError
      ensures r.Ok? && i >= 0 ==> r.value == songs[i]
      ensures r.Ok? && i < 0 ==> r.value == songs[|songs| + i]
    {
      if 0 <= i < |songs| then Ok(songs[i])
      else if -|songs| <= i < 0 then Ok(songs[|songs| + i])
      else Err(IndexError)
    }

    /** The last song is at index -1. */
    lemma LastItem()
      requires |songs| > 0
      ensures GetItem(-1) == GetItem(|songs| - 1) == Ok(songs[|songs| - 1])
    {
    }

    /**
     * `items` over what `Artist(self.artist_name).search_album(self.album_name)` gives: that
     * search raises, finds no album (iterating `None` raises `AttributeError`), or finds an
     * album whose songs are, in order, unregistered and added here with `add_song`. The search
     * runs on a new `Artist`, so the album it finds is never this one.
     */
    method Items(found: Result<Option<Album>>) returns (r: Result<seq<Song>>)
      requires found.Ok? && found.value.Some? ==> found.value.value != this
      modifies this`songs, if found.Ok? && found.value.Some? then set s | s in found.value.value.songs else {}
      ensures found.Err? ==> r == Err(found.error) && songs == old(songs)
      ensures found == Ok(None) ==> r == Err(AttributeError) && songs == old(songs)
      ensures found.Ok? && found.value.Some? ==> r == Ok(old(found.value.value.songs)) && songs == old(songs) + r.value
      ensures r.Ok? ==> forall k | 0 <= k < |r.value| ::
        r.value[k].GetAlbum() == this && r.value[k].GetArtist() == artist
        && r.value[k].albumName == old(r.value[k].albumName) && r.value[k].albumYear == old(r.value[k].albumYear)
        && r.value[k].albumType == old(r.value[k].albumType)
    {
      if found.Err? {
        return Err(found.error);
      }
      if found.value.None? {
        return Err(AttributeError);
      }
      var list := found.value.value.songs;
      var i := 0;
      while i < |list|
        invariant 0 <= i <= |list|
        invariant songs == old(songs) + list[..i]
        invariant forall k | 0 <= k < i :: list[k].album == this && list[k].artist == artist
        invariant forall k | 0 <= k < |list| ::
          list[k].albumName == old(list[k].albumName) && list[k].albumYear == old(list[k].albumYear)
          && list[k].albumType == old(list[k].albumType)
      {
        var s := list[i];
        TakeSong(s);
        assert list[..i + 1] == list[..i] + [s];
        i := i + 1;
      }
      assert list[..|list|] == list;
      r := Ok(list);
    }

    /** One step of `items`: the song leaves its album and artist and is added here without `force`. */
    method TakeSong(s: Song)
      modifies this`songs, s`albumName, s`albumType, s`albumYear, s`artist, s`album
      ensures songs == old(songs) + [s]
      ensures s.album == this && s.artist == artist
      ensures s.albumName == old(s.albumName) && s.albumYear == old(s.albumYear) && s.albumType == old(s.albumType)
    {
      s.Unregister();
      var _ := AddSong(s, None);
    }

    /** `songs()`: the cached songs when there are any, a run of `items` otherwise. */
    method Songs(found: Result<Option<Album>>) returns (r: Result<seq<Song>>)
      requires found.Ok? && found.value.Some? ==> found.value.value != this
      modifies this`songs, if found.Ok? && found.value.Some? then set s | s in found.value.value.songs else {}
      ensures |old(songs)| >= 1 ==> r == Ok(old(songs)) && songs == old(songs)
      ensures |old(songs)| == 0 && found.Err? ==> r == Err(found.error) && songs == []
      ensures |old(songs)| == 0 && found == Ok(None) ==> r == Err(AttributeError) && songs == []
      ensures |old(songs)| == 0 && found.Ok? && found.value.Some? ==> r == Ok(old(found.value.value.songs)) && songs == r.value
    {
      if |songs| >= 1 {
        return Ok(songs);
      }
      r := Items(found);
    }

    /** `get_songs()`: the songs `songs()` goes through, collected into a list. */
    method GetSongs(found: Result<Option<Album>>) returns (r: Result<seq<Song>>)
      requires found.Ok? && found.value.Some? ==> found.value.value != this
      modifies this`songs, if found.Ok? && found.value.Some? then set s | s in found.value.value.songs else {}
      ensures |old(songs)| >= 1 ==> r == Ok(old(songs)) && songs == old(songs)
      ensures |old(songs)| == 0 && found.Err? ==> r == Err(found.error) && songs == []
      ensures |old(songs)| == 0 && found == Ok(None) ==> r == Err(AttributeError) && songs == []
      ensures |old(songs)| == 0 && found.Ok? && found.value.Some? ==> r == Ok(old(found.value.value.songs)) && songs == r.value
    {
      var got := Songs(found);
      if got.Err? {
        return got;
      }
      var list: seq<Song> := [];
      var i := 0;
      while i < |got.value|
        invariant 0 <= i <= |got.value| && list == got.value[..i]
      {
        list := list + [got.value[i]];
        i := i + 1;
      }
      assert list == got.value;
      r := Ok(list);
    }

    /**
     * `from_artist(artist, name)`: the first album of `artist.albums()` whose slug is the slug
     * of the name, `None` (with a warning) when there is none. The loop returns at the match,
     * so on an empty cache the headings after it are never read. `n` is how many were.
     */
    static method FromArtist(artist: Artist, page: Option<Doc>, name: string) returns (r: Result<Option<Album>>, ghost n: nat)
      modifies artist`albums
      ensures |old(artist.albums)| >= 1 ==> artist.albums == old(artist.albums) && r.Ok?
      ensures |old(artist.albums)| == 0 ==> LazyScan(page, artist, AlbumNamed(NameToWikiId(name)), r, n, artist.albums) == true
      ensures r.Ok? ==> AlbumSearch(artist.albums, AlbumSlug, NameToWikiId(name), r.value)
    {
      r, n := artist.Scan(page, AlbumNamed(NameToWikiId(name)));
      if r.Ok? {
        FirstHitAlbum(artist.albums, NameToWikiId(name), r.value);
      }
    }

    /**
     * `add_song(song, force)` as written: the song is appended and pointed at this album and
     * its artist. When its album slug differs, `force=None` only warns, `force=False` does
     * nothing, and `force=True` copies the album's type and year but sets the song's album
     * name to the album's artist name.
     */
    method AddSong(song: Song, force: Option<bool>) returns (warned: bool)
      modifies this`songs, song`albumName, song`albumType, song`albumYear, song`artist, song`album
      ensures songs == old(songs) + [song]
      ensures song.GetAlbum() == this && song.GetArtist() == artist
      ensures var mismatch := NameToWikiId(old(song.albumName)) != NameToWikiId(albumName);
        (warned <==> mismatch && force.None?)
        && (mismatch && force == Some(true) ==>
              song.albumName == artistName && song.albumType == albumType && song.albumYear == albumYear)
        && (!(mismatch && force == Some(true)) ==>
              song.albumName == old(song.albumName) && song.albumType == old(song.albumType)
              && song.albumYear == old(song.albumYear))
    {
      var mismatch := NameToWikiId(song.albumName) != NameToWikiId(albumName);
      warned := mismatch && force.None?;
      if mismatch && force == Some(true) {
        song.albumName, song.albumType, song.albumYear := artistName, albumType, albumYear;
      }
      song.RegisterArtist(artist);
      song.RegisterAlbum(this);
      songs := songs + [song];
    }

    /**
     * `add_song` as intended: a forced song takes the album's own name, so its album slug
     * matches the album's afterwards. Without `force=True` it is `AddSong`.
     */
    method AddSongIntended(song: Song, force: Option<bool>) returns (warned: bool)
      modifies this`songs, song`albumName, song`albumType, song`albumYear, song`artist, song`album
      ensures songs == old(songs) + [song]
      ensures song.GetAlbum() == this && song.GetArtist() == artist
      ensures var mismatch := NameToWikiId(old(song.albumName)) != NameToWikiId(albumName);
        (warned <==> mismatch && force.None?)
        && (mismatch && force == Some(true) ==>
              song.albumName == albumName && song.albumType == albumType && song.albumYear == albumYear)
        && (!(mismatch && force == Some(true)) ==>
              song.albumName == old(song.albumName) && song.albumType == old(song.albumType)
              && song.albumYear == old(song.albumYear))
      ensures force == Some(true) ==> NameToWikiId(song.albumName) == NameToWikiId(albumName)
    {
      var mismatch := NameToWikiId(song.albumName) != NameToWikiId(albumName);
      warned := mismatch && force.None?;
      if mismatch && force == Some(true) {
        song.albumName, song.albumType, song.albumYear := albumName, albumType, albumYear;
      }
      song.RegisterArtist(artist);
      song.RegisterAlbum(this);
      songs := songs + [song];
    }

    /** `add_song(name)`: a new song under the album's artist, name, type and year is appended. */
    method AddSongNamed(name: string) returns (song: Song)
      modifies this`songs
      ensures fresh(song) && songs == old(songs) + [song]
      ensures song.artistName == Canonical(artistName) && song.songName == Canonical(name)
      ensures song.albumName == Stored(albumName) && song.albumType == albumType && song.albumYear == albumYear
      ensures song.GetAlbum() == this && song.GetArtist() == artist
    {
      song := new Song(artistName, name, albumName, albumYear, albumType);
      song.RegisterArtist(artist);
      song.RegisterAlbum(this);
      songs := songs + [song];
    }

    /**
     * One accepted link of the discography loop: a song made from the link's names under
     * the heading's album name and year, given the link's href, and added with `add_song`.
     * Without `force`, `add_song` at most warns, so only its registration and append remain.
     */
    method AddSeed(seed: SongSeed, title: AlbumTitle) returns (song: Song)
      requires artist != null
      modifies this`songs
      ensures fresh(song) && songs == old(songs) + [song]
      ensures SongMade(song, seed, title, this, artist)
    {
      song := Song.Create(seed.artist, seed.song, title.name, title.year, None);
      song.href := seed.href;
      song.RegisterArtist(artist);
      song.RegisterAlbum(this);
      songs := songs + [song];
    }

    /**
     * The legacy `add_song(song, force)`: as `AddSong`, but the album is compared through
     * its `album_id` field and a forced song takes the `_album_type` field.
     */
    method LegacyAddSong(song: Song, force: Option<bool>) returns (warned: bool)
      modifies this`songs, song`albumName, song`albumType, song`albumYear, song`artist, song`album
      ensures songs == old(songs) + [song]
      ensures song.GetAlbum() == this && song.GetArtist() == artist
      ensures var mismatch := NameToWikiId(old(song.albumName)) != albumId;
        (warned <==> mismatch && force.None?)
        && (mismatch && force == Some(true) ==>
              song.albumName == artistName && song.albumType == legacyType && song.albumYear == albumYear)
        && (!(mismatch && force == Some(true)) ==>
              song.albumName == old(song.albumName) && song.albumType == old(song.albumType)
              && song.albumYear == old(song.albumYear))
    {
      var mismatch := NameToWikiId(song.albumName) != albumId;
      warned := mismatch && force.None?;
      if mismatch && force == Some(true) {
        song.albumName, song.albumType, song.albumYear := artistName, legacyType, albumYear;
      }
      song.RegisterArtist(artist);
      song.RegisterAlbum(this);
      songs := songs + [song];
    }

    /**
     * The legacy `add_song(name)` as written: it calls `register_artist` on the name string
     * instead of the new song, which raises `AttributeError` before anything is appended.
     */
    method LegacyAddSongNamed(name: string) returns (r: Result<Song>)
      ensures r == Err(AttributeError)
    {
      var _ := new Song(artistName, name, albumName, albumYear, legacyType);
      r := Err(AttributeError);
    }

    /** The legacy `add_song(name)` as intended: the new song is registered and appended. */
    method LegacyAddSongNamedIntended(name: string) returns (song: Song)
      modifies this`songs
      ensures fresh(song) && songs == old(songs) + [song]
      ensures song.artistName == Canonical(artistName) && song.songName == Canonical(name)
      ensures song.albumName == Stored(albumName) && song.albumType == legacyType && song.albumYear == albumYear
      ensures song.GetAlbum() == this && song.GetArtist() == artist
    {
      song := new Song(artistName, name, albumName, albumYear, legacyType);
      song.RegisterArtist(artist);
      song.RegisterAlbum(this);
      songs := songs + [song];
    }

    /**
     * The legacy `items`, over the album the artist search returned (`None` on a miss):
     * every song of it, in order, is unregistered, pointed at this album (and no artist) and
     * appended. On `None` the loop raises `AttributeError`.
     */
    method LegacyItems(found: Option<Album>) returns (r: Result<seq<Song>>)
      requires found.Some? ==> found.value != this
      modifies this`songs, if found.Some? then set s | s in found.value.songs else {}
      ensures found.None? ==> r == Err(AttributeError) && songs == old(songs)
      ensures found.Some? ==> r == Ok(old(found.value.songs)) && songs == old(songs) + r.value
      ensures r.Ok? ==> forall k | 0 <= k < |r.value| :: r.value[k].GetAlbum() == this && r.value[k].GetArtist() == null
    {
      if found.None? {
        return Err(AttributeError);
      }
      var list := found.value.songs;
      var i := 0;
      while i < |list|
        invariant 0 <= i <= |list|
        invariant songs == old(songs) + list[..i]
        invariant forall k | 0 <= k < i :: list[k].album == this && list[k].artist == null
      {
        var s := list[i];
        s.Unregister();
        s.RegisterAlbum(this);
        songs := songs + [s];
        assert list[..i + 1] == list[..i] + [s];
        i := i + 1;
      }
      assert list[..|list|] == list;
      r := Ok(list);
    }

    /** The legacy `songs`: the cached songs when there are any, the legacy `items` otherwise. */
    method LegacySongs(found: Option<Album>) returns (r: Result<seq<Song>>)
      requires found.Some? ==> found.value != this
      modifies this`songs, if found.Some? then set s | s in found.value.songs else {}
      ensures |old(songs)| >= 1 ==> r == Ok(old(songs)) && songs == old(songs)
      ensures |old(songs)| == 0 && found.None? ==> r == Err(AttributeError) && songs == []
      ensures |old(songs)| == 0 && found.Some? ==> r == Ok(old(found.value.songs)) && songs == r.value
    {
      if |songs| >= 1 {
        return Ok(songs);
      }
      r := LegacyItems(found);
    }

    /**
     * The legacy `from_artist`, over the albums `artist.albums()` lists: the first album
     * whose `album_id` field is the slug of the name, `None` when there is none.
     */
    static method LegacyFromArtist(listed: seq<Album>, name: string) returns (r: Option<Album>)
      ensures r.None? <==> NoAlbumMatches(listed, AlbumId, NameToWikiId(name))
      ensures r.Some? ==> exists k :: FirstAlbumAt(listed, AlbumId, NameToWikiId(name), k) && listed[k] == r.value
    {
      var k := FindAlbum(listed, AlbumId, NameToWikiId(name));
      if k == -1 {
        return None;
      }
      r := Some(listed[k]);
    }
  }

  // ---------------------------------------------------------------------------------------
  // Artists
  // ---------------------------------------------------------------------------------------

  class Artist {
    const artistName: string
    const href: Option<string>
    var links: Option<Links>
    var albums: seq<Album>
    var info: Option<Info>

    /** `Artist(name)`: the name stored canonical, the href of its page, empty caches. */
    constructor (name: string)
      ensures artistName == Canonical(name) && href == ArtistHref(artistName)
      ensures links == None && albums == [] && info == None
    {
      var n := Canonical(name);
      artistName := n;
      href := ArtistHref(n);
      links := None;
      albums := [];
      info := None;
    }

    /** `url`: the page address when the href is truthy, and `None` otherwise. */
    function Url(): (r: Option<string>)
      reads this
      ensures r.Some? <==> Present(href)
      ensures r.Some? ==> |r.value| > |SiteBase| && r.value[..|SiteBase|] == SiteBase && r.value[|SiteBase|..] == href.value
    {
      UrlOf(href)
    }

    /** `__repr__`: `Artist: ` and then the artist name. */
    function Repr(): (r: string)
      reads this
      ensures |r| == |artistName| + 8 && r[..8] == "Artist: " && r[8..] == artistName
    {
      ArtistRepr(artistName)
    }

    /**
     * `get_links`: fetches the external links only when the cache is falsy and the artist
     * has a page; otherwise returns the cache unchanged. A failed lookup raises and leaves
     * the cache as it was.
     */
    method GetLinks(page: Option<Doc>) returns (r: Result<Option<Links>>)
      modifies this`links
      ensures LinksPresent(old(links)) || !Present(href) ==> r == Ok(old(links)) && links == old(links)
      ensures !LinksPresent(old(links)) && Present(href) && page.None? ==> r == Err(AttributeError) && links == old(links)
      ensures !LinksPresent(old(links)) && Present(href) && page.Some? && |page.value.externalLinks| == 0 ==>
        r == Err(IndexError) && links == old(links)
      ensures !LinksPresent(old(links)) && Present(href) && page.Some? && |page.value.externalLinks| > 0 ==>
        links == Some(LinkTable(Divs(Walk(page.value.externalLinks[0])))) && r == Ok(links)
    {
      if !LinksPresent(links) && Present(href) {
        if page.None? {
          return Err(AttributeError);
        }
        var got := GetExternalLinks(page.value.externalLinks);
        if got.Err? {
          return Err(IndexError);
        }
        links := Some(got.value);
      }
      r := Ok(links);
    }

    /** `set_links`: overwrites the cache. */
    method SetLinks(value: Option<Links>)
      modifies this`links
      ensures links == value
    {
      links := value;
    }

    /**
     * `get_info`: fills the cache only when it is falsy and the artist has a page: with the
     * scraped information, or an empty dictionary when the fetch fails.
     */
    method GetInfo(page: Option<Doc>) returns (r: Result<Option<Info>>)
      modifies this`info
      ensures InfoPresent(old(info)) || !Present(href) ==> r == Ok(old(info)) && info == old(info)
      ensures !InfoPresent(old(info)) && Present(href) && page.None? ==> info == Some(map[]) && r == Ok(info)
      ensures !InfoPresent(old(info)) && Present(href) && page.Some? ==>
        match ArtistInfo(page.value.root)
        case Err(e) => r == Err(e) && info == old(info)
        case Ok(d) => info == Some(d) && r == Ok(info)
    {
      if !InfoPresent(info) && Present(href) {
        var got: Info := map[];
        if page.Some? {
          var scraped := GetArtistInfo(page.value.root);
          if scraped.Err? {
            return Err(scraped.error);
          }
          got := scraped.value;
        }
        info := Some(got);
      }
      r := Ok(info);
    }

    method SetInfo(value: Option<Info>)
      modifies this`info
      ensures info == value
    {
      info := value;
    }

    /**
     * `add_album(album, force)`: the album is always registered and appended. When its
     * artist slug differs, `force=None` warns, `force=False` does nothing, and `force=True`
     * gives it this artist's name.
     */
    method AddAlbum(album: Album, force: Option<bool>) returns (warned: bool)
      modifies this`albums, album`artistName, album`artist
      ensures albums == old(albums) + [album] && album.GetArtist() == this
      ensures var mismatch := NameToWikiId(old(album.artistName)) != NameToWikiId(artistName);
        (warned <==> mismatch && force.None?)
        && album.artistName == (if mismatch && force == Some(true) then artistName else old(album.artistName))
    {
      var mismatch := NameToWikiId(album.artistName) != NameToWikiId(artistName);
      warned := mismatch && force.None?;
      if mismatch && force == Some(true) {
        album.artistName := artistName;
      }
      album.RegisterArtist(this);
      albums := albums + [album];
    }

    /** The album `items` makes for a heading titled `title`, registered with this artist. */
    method NewAlbum(title: AlbumTitle) returns (album: Album)
      ensures fresh(album) && AlbumMade(album, title, this, artistName)
      ensures album.albumType == None && album.songs == []
    {
      album := new Album(artistName, title.name, title.year, None);
      album.RegisterArtist(this);
    }

    /**
     * The song loop of one heading of `items`, over what the links of its section name, link
     * by link: accepted songs are added to `album` in order and their count is returned; a
     * link that names no song raises.
     */
    /** One accepted link of `add_links`: its song made and added at the end of the album. */
    method AcceptSeed(album: Album, seed: SongSeed, title: AlbumTitle, ghost seeds: seq<SongSeed>)
      requires album.artist == this && SongsMade(album.songs, seeds, title, album, this) == true
      modifies album`songs
      ensures SongsMade(album.songs, seeds + [seed], title, album, this) == true
    {
      ghost var before := album.songs;
      var song := album.AddSeed(seed, title);
      SongsMadeSnoc(before, seeds, title, album, this, song, seed);
    }

    method AddLinks(album: Album, named: seq<Result<SongSeed>>, title: AlbumTitle, cover: bool) returns (r: Result<nat>)
      requires album.artist == this && album.songs == []
      modifies album`songs
      ensures Keep(named, artistName, cover).Err? ==> r.Err? && r.error == Keep(named, artistName, cover).error
      ensures Keep(named, artistName, cover).Ok? ==>
        r.Ok? && r.value == |Keep(named, artistName, cover).value|
        && SongsMade(album.songs, Keep(named, artistName, cover).value, title, album, this) == true
    {
      ghost var seeds: seq<SongSeed> := [];
      var numSongs := 0;
      var j := 0;
      while j < |named|
        invariant 0 <= j <= |named|
        invariant Keep(named[..j], artistName, cover) == Ok(seeds) && numSongs == |seeds|
        invariant SongsMade(album.songs, seeds, title, album, this) == true
      {
        var seed := named[j];
        if seed.Err? {
          KeepNext(named, j, artistName, cover);
          KeepErrSticks(named, j + 1, artistName, cover);
          return Err(seed.error);
        }
        KeepOkNext(named, j, artistName, cover, seeds);
        if cover || ByArtist(seed.value.artist, artistName) {
          AcceptSeed(album, seed.value, title, seeds);
          seeds := seeds + [seed.value];
          numSongs := numSongs + 1;
        }
        j := j + 1;
      }
      assert named[..|named|] == named;
      r := Ok(numSongs);
    }

    /**
     * One heading of `items`: the album of the heading, registered with this artist, with a
     * song for every accepted link; `None` when no link is accepted, and the type set when
     * the last link sits in an ordered list. The album is not yet added to the artist.
     */
    method Section(h: Heading, doc: Doc, cover: bool, other: bool) returns (r: Result<Option<Album>>)
      ensures var plan := SectionPlan(h, doc, artistName, cover, other);
        (plan.Err? ==> r == Err(plan.error))
        && (plan == Ok(None) ==> r == Ok(None))
        && (plan.Ok? && plan.value.Some? ==>
              r.Ok? && r.value.Some? && fresh(r.value.value) && RealisesPlan(r.value.value, plan.value.value, this, artistName))
    {
      var title := ParseAlbumHeader(Strip(GetText(h.span)));
      var album := NewAlbum(title);
      var links := ScrapeSongs(h.following, LiTags(other));
      var added := AddLinks(album, SongsNamed(links, artistName), title, cover);
      if added.Err? {
        return Err(added.error);
      }
      if added.value == 0 {
        return Ok(None);
      }
      var typed := LastOuter(links, doc);
      if typed.Err? {
        return Err(typed.error);
      }
      ghost var seeds := SectionSongs(links, artistName, cover).value;
      assert SectionPlan(h, doc, artistName, cover, other) == Ok(Some(AlbumPlan(title, seeds, typed.value)));
      album.Finish(typed.value, title, seeds, this, artistName);
      r := Ok(Some(album));
    }

    /**
     * `items(cover, other)`, run to the end: the cache is emptied, and for a fetched page every
     * heading that keeps a song gives a new album, added to the cache in heading order. The
     * albums are those of the page's discography, and the first heading whose song links
     * cannot be read makes the whole call raise, leaving the albums of the headings before it
     * in the cache.
     */
    method Items(page: Option<Doc>, cover: bool, other: bool) returns (r: Result<seq<Album>>)
      modifies this`albums
      ensures Listing(page, this, cover, other, r, albums) == true
    {
      albums := [];
      if page.None? {
        return Ok([]);
      }
      var doc := page.value;
      ghost var got: seq<Result<Option<AlbumPlan>>> := [];
      ghost var plans: seq<AlbumPlan> := [];
      var i := 0;
      while i < |doc.headings|
        invariant i <= |doc.headings| && |got| == i
        invariant got == Sections(doc.headings[..i], doc, artistName, cover, other)
        invariant Collect(got) == Ok(plans)
        invariant Built(albums, plans, this)
      {
        var kept;
        ghost var p;
        kept, p := ItemsStep(doc.headings[i], doc, cover, other, plans);
        if kept.Err? {
          ListingRaised(doc, this, cover, other, i, plans, albums, kept.error);
          return Err(kept.error);
        }
        CollectAppend(got, p);
        if kept.value {
          plans := plans + [p.value.value];
        }
        SectionsNext(doc.headings, i, doc, artistName, cover, other);
        got := got + [p];
        i := i + 1;
      }
      assert doc.headings[..i] == doc.headings;
      ListingDone(doc, this, cover, other, plans, albums);
      r := Ok(albums);
    }

    /**
     * One heading of `items` with its album added: whether the heading kept a song, and the
     * albums built so far followed by the one the heading gives. `p` is what the heading gives.
     */
    method ItemsStep(h: Heading, doc: Doc, cover: bool, other: bool, ghost plans: seq<AlbumPlan>)
      returns (r: Result<bool>, ghost p: Result<Option<AlbumPlan>>)
      requires Built(albums, plans, this)
      modifies this`albums
      ensures p == SectionPlan(h, doc, artistName, cover, other)
      ensures r.Err? <==> p.Err?
      ensures p.Err? ==> r.error == p.error
      ensures p.Ok? ==> (r.value <==> p.value.Some?)
      ensures p.Err? || p.value.None? ==> albums == old(albums) && Built(albums, plans, this)
      ensures p.Ok? && p.value.Some? ==>
        |albums| == |old(albums)| + 1 && albums[..|old(albums)|] == old(albums)
        && Built(albums, plans + [p.value.value], this)
    {
      p := SectionPlan(h, doc, artistName, cover, other);
      var section := Section(h, doc, cover, other);
      if section.Err? {
        return Err(section.error), p;
      }
      if section.value.None? {
        return Ok(false), p;
      }
      Adopt(section.value.value, plans, p.value.value);
      r := Ok(true);
    }

    /**
     * The end of a heading of `items`: `add_album(album)` appends a new album that realises its
     * plan. Without `force`, `add_album` at most warns; its `register_artist` stores the artist
     * the album was registered to when it was made, so only the append changes the state.
     */
    method Adopt(album: Album, ghost plans: seq<AlbumPlan>, ghost p: AlbumPlan)
      requires album !in albums && Built(albums, plans, this) && RealisesPlan(album, p, this, artistName)
      modifies this`albums
      ensures albums == old(albums) + [album] && Built(albums, plans + [p], this)
    {
      BuiltSnoc(albums, plans, this, album, p);
      albums := albums + [album];
    }

    /** `add_album(name)`: a new album under this artist's name is registered and appended. */
    method AddAlbumNamed(name: string) returns (album: Album)
      modifies this`albums
      ensures fresh(album) && albums == old(albums) + [album]
      ensures album.artistName == Canonical(artistName) && album.albumName == Stored(name)
      ensures album.albumYear == None && album.albumType == None && album.songs == []
      ensures album.GetArtist() == this
    {
      album := new Album(artistName, name, None, None);
      album.RegisterArtist(this);
      albums := albums + [album];
    }

    /** `albums(cover, other)`: the cached albums when there are any, a run of `items` otherwise. */
    method Albums(page: Option<Doc>, cover: bool, other: bool) returns (r: Result<seq<Album>>)
      modifies this`albums
      ensures |old(albums)| >= 1 ==> r == Ok(old(albums)) && albums == old(albums)
      ensures |old(albums)| == 0 ==> Listing(page, this, cover, other, r, albums) == true
    {
      if |albums| >= 1 {
        return Ok(albums);
      }
      r := Items(page, cover, other);
    }

    /**
     * A loop over `albums()` that returns at the first album holding `t`: over the cache when
     * it holds albums, over a lazy run of `items` otherwise. `n` is the number of headings read.
     */
    method Scan(page: Option<Doc>, t: Target) returns (r: Result<Option<Album>>, ghost n: nat)
      modifies this`albums
      ensures |old(albums)| >= 1 ==> albums == old(albums) && r.Ok?
      ensures |old(albums)| == 0 ==> LazyScan(page, this, t, r, n, albums) == true
      ensures r.Ok? ==> FirstHit(albums, t, r.value) == true
    {
      if |albums| >= 1 {
        var found := ScanCached(t);
        return Ok(found), 0;
      }
      r, n := ScanItems(page, t);
      if r.Ok? {
        LazyFirstHit(page, this, t, r, n, albums);
      }
    }

    /** The loop over a non-empty cache: the first cached album holding `t`, `None` when none does. */
    method ScanCached(t: Target) returns (r: Option<Album>)
      ensures FirstHit(albums, t, r) == true
    {
      var k := 0;
      while k < |albums|
        invariant k <= |albums| && NoneHit(albums[..k], t)
      {
        if Hits(albums[k], t) {
          return Some(albums[k]);
        }
        NoneHitNext(albums, t, k);
        k := k + 1;
      }
      assert albums[..k] == albums;
      r := None;
    }

    /**
     * The loop over an empty cache: `items` runs heading by heading, each kept album is added
     * to the cache before the loop looks at it, and the loop stops the generator at the first
     * album holding `t`.
     */
    method ScanItems(page: Option<Doc>, t: Target) returns (r: Result<Option<Album>>, ghost n: nat)
      modifies this`albums
      ensures LazyScan(page, this, t, r, n, albums) == true
    {
      albums := [];
      if page.None? {
        return Ok(None), 0;
      }
      var doc := page.value;
      ghost var plans: seq<AlbumPlan> := [];
      var i := 0;
      while i < |doc.headings|
        invariant i <= |doc.headings| && ScanState(doc, this, t, i, plans, albums) == true
      {
        var stop;
        stop, plans := ScanStep(doc, i, t, plans);
        if stop.Err? {
          return Err(stop.error), i;
        }
        if stop.value {
          return Ok(Some(albums[|albums| - 1])), i + 1;
        }
        i := i + 1;
      }
      LazyMissAt(doc, this, t, i, plans, albums);
      r, n := Ok(None), i;
    }

    /**
     * One heading of a lazy search: `items` handles heading `i`, and the search looks at the
     * album it keeps, if any; `Ok(true)` stops the search at that album.
     */
    method ScanStep(doc: Doc, i: nat, t: Target, ghost plans: seq<AlbumPlan>)
      returns (r: Result<bool>, ghost plans': seq<AlbumPlan>)
      requires i < |doc.headings| && ScanState(doc, this, t, i, plans, albums) == true
      modifies this`albums
      ensures r.Err? ==> LazyScan(Some(doc), this, t, Err(r.error), i, albums) == true
      ensures r == Ok(true) ==> 0 < |albums| && LazyScan(Some(doc), this, t, Ok(Some(albums[|albums| - 1])), i + 1, albums) == true
      ensures r == Ok(false) ==> ScanState(doc, this, t, i + 1, plans', albums) == true
    {
      ghost var got := Sections(doc.headings[..i], doc, artistName, true, true);
      var kept;
      ghost var p;
      kept, p := ItemsStep(doc.headings[i], doc, true, true, plans);
      if kept.Err? {
        LazyRaisedAt(doc, this, t, i, plans, albums, kept.error);
        return Err(kept.error), plans;
      }
      CollectAppend(got, p);
      SectionsNext(doc.headings, i, doc, artistName, true, true);
      if !kept.value {
        return Ok(false), plans;
      }
      ghost var q := p.value.value;
      if Hits(albums[|albums| - 1], t) {
        LazyHitAt(doc, this, t, i, plans, q, albums);
        return Ok(true), plans + [q];
      }
      MissStep(albums, plans, q, this, t);
      r, plans' := Ok(false), plans + [q];
    }

    /** `get_albums(cover, other)`: the albums `albums` goes through, collected into a list. */
    method GetAlbums(page: Option<Doc>, cover: bool, other: bool) returns (r: Result<seq<Album>>)
      modifies this`albums
      ensures |old(albums)| >= 1 ==> r == Ok(old(albums)) && albums == old(albums)
      ensures |old(albums)| == 0 ==> Listing(page, this, cover, other, r, albums) == true
    {
      var listed := Albums(page, cover, other);
      if listed.Err? {
        return listed;
      }
      var list: seq<Album> := [];
      var i := 0;
      while i < |listed.value|
        invariant 0 <= i <= |listed.value| && list == listed.value[..i]
      {
        list := list + [listed.value[i]];
        i := i + 1;
      }
      assert list == listed.value;
      r := Ok(list);
    }

    /**
     * `get_songs(cover, other)`: the songs of every album `albums()` goes through, album after
     * album. The two flags are not passed on, so the albums are listed as `items()` lists them
     * by default, with covers and compilations. `listed` is what `albums()` gave.
     */
    method GetSongs(page: Option<Doc>, cover: bool, other: bool) returns (r: Result<seq<Song>>, ghost listed: Result<seq<Album>>)
      modifies this`albums
      ensures |old(albums)| >= 1 ==> listed == Ok(old(albums)) && albums == old(albums)
      ensures |old(albums)| == 0 ==> Listing(page, this, true, true, listed, albums) == true
      ensures listed.Err? ==> r == Err(listed.error)
      ensures listed.Ok? ==> r == Ok(SongsOfAlbums(listed.value))
    {
      var albs := Albums(page, true, true);
      listed := albs;
      if albs.Err? {
        return Err(albs.error), listed;
      }
      var all := CollectSongs(albs.value);
      r := Ok(all);
    }

    /**
     * `search_album(name)` as written: the first album of `albums()` whose slug is the slug of
     * the name. On a miss the warning names an undefined `artist`, which raises `NameError`
     * instead of returning `None`. `scan` is what the loop over `albums()` found.
     */
    method SearchAlbum(page: Option<Doc>, name: string) returns (r: Result<Album>, ghost scan: Result<Option<Album>>, ghost n: nat)
      modifies this`albums
      ensures |old(albums)| >= 1 ==> albums == old(albums) && scan.Ok?
      ensures |old(albums)| == 0 ==> LazyScan(page, this, AlbumNamed(NameToWikiId(name)), scan, n, albums) == true
      ensures scan.Err? ==> r == Err(scan.error)
      ensures scan.Ok? ==>
        (r.Err? <==> NoAlbumMatches(albums, AlbumSlug, NameToWikiId(name)))
        && (r.Err? ==> r.error == NameError)
        && (r.Ok? ==> AlbumSearch(albums, AlbumSlug, NameToWikiId(name), Some(r.value)))
    {
      var found;
      found, n := Scan(page, AlbumNamed(NameToWikiId(name)));
      scan := found;
      if found.Err? {
        return Err(found.error), scan, n;
      }
      FirstHitAlbum(albums, NameToWikiId(name), found.value);
      if found.value.None? {
        return Err(NameError), scan, n;
      }
      r := Ok(found.value.value);
    }

    /** `search_album(name)` as intended: a miss returns `None`, as `Album.from_artist` does. */
    method SearchAlbumIntended(page: Option<Doc>, name: string) returns (r: Result<Option<Album>>, ghost n: nat)
      modifies this`albums
      ensures |old(albums)| >= 1 ==> albums == old(albums) && r.Ok?
      ensures |old(albums)| == 0 ==> LazyScan(page, this, AlbumNamed(NameToWikiId(name)), r, n, albums) == true
      ensures r.Ok? ==> AlbumSearch(albums, AlbumSlug, NameToWikiId(name), r.value)
    {
      r, n := Album.FromArtist(this, page, name);
    }

    /**
     * `search_song(name)`: album after album, the first song in the album's order whose slug
     * is the slug of the name; `None` when there is none. The loop over `albums()` returns at
     * the first album holding such a song (`scan`), and then at that song.
     */
    method SearchSong(page: Option<Doc>, name: string) returns (r: Result<Option<Song>>, ghost scan: Result<Option<Album>>, ghost n: nat)
      modifies this`albums
      ensures |old(albums)| >= 1 ==> albums == old(albums) && scan.Ok?
      ensures |old(albums)| == 0 ==> LazyScan(page, this, SongNamed(NameToWikiId(name)), scan, n, albums) == true
      ensures scan.Err? ==> r == Err(scan.error)
      ensures scan.Ok? ==> r.Ok? && FirstHit(albums, SongNamed(NameToWikiId(name)), scan.value) == true
      ensures scan == Ok(None) ==> r == Ok(None) && NoSongMatches(SongsOfAlbums(albums), SongSlug, NameToWikiId(name))
      ensures scan.Ok? && scan.value.Some? ==>
        r.Ok? && r.value.Some? && SongSearch(scan.value.value.songs, SongSlug, NameToWikiId(name), r.value) == true
    {
      var id := NameToWikiId(name);
      var found;
      found, n := Scan(page, SongNamed(id));
      scan := found;
      r := SongOfFound(found, id);
      FoundSongs(albums, id, found);
    }

    /** The inner loop of `search_song`: the first song of the album the outer loop stopped at. */
    static method SongOfFound(found: Result<Option<Album>>, id: string) returns (r: Result<Option<Song>>)
      ensures found.Err? ==> r == Err(found.error)
      ensures found == Ok(None) ==> r == Ok(None)
      ensures found.Ok? && found.value.Some? && Hits(found.value.value, SongNamed(id)) ==>
        r.Ok? && r.value.Some? && SongSearch(found.value.value.songs, SongSlug, id, r.value) == true
    {
      if found.Err? {
        return Err(found.error);
      }
      if found.value.None? {
        return Ok(None);
      }
      var ss := found.value.value.songs;
      var k := FindSong(ss, SongSlug, id);
      if k == -1 {
        return Ok(None);
      }
      r := Ok(Some(ss[k]));
    }
  }
}
