/**
 * `process_lyrics` of `lyricwiki/utils.py`: the lyrics text cut out of the serialised lyrics
 * box of a song page, with its markup turned into plain lines.
 */
module Lyrics {
  import opened PyStr

  const BoxOpen := "<div class=\"lyricbox\">"
  const BreakOpen := "<div class=\"lyricsbreak\">"

  /** The `LYRICS` table: markup replacements applied, in this order, after the cut. */
  const LyricsTable: seq<(string, string)> := [
    ("<i>", ""),
    ("</i>", ""),
    ("\n", ""),
    ("<br/>", "\n")
  ]

  /**
   * `s.split(marker)[-1]`: the text after the last occurrence of `marker`, which holds no
   * `marker`, and the whole of `s` when `marker` does not occur.
   */
  function After(s: string, marker: string): (r: string)
    requires |marker| > 0
    ensures !Contains(r, marker)
    ensures !Contains(s, marker) ==> r == s
    ensures Contains(s, marker) ==> |r| + |marker| <= |s| && s == s[..|s| - |r| - |marker|] + marker + r
  {
    var ps := Split(s, marker);
    SplitPiecesFree(s, marker);
    SplitMany(s, marker);
    SplitLast(s, marker);
    if |ps| > 1 then
      var init, r := Join(ps[..|ps| - 1], marker), ps[|ps| - 1];
      assert s == init + marker + r;
      assert s[..|s| - |r| - |marker|] == init;
      r
    else
      ps[0]
  }

  /**
   * `s.split(marker)[0]`: the text before the first occurrence of `marker`, and the whole of
   * `s` when `marker` does not occur.
   */
  function Before(s: string, marker: string): (r: string)
    requires |marker| > 0
    ensures !Contains(r, marker)
    ensures Find(s, marker) < 0 ==> r == s
    ensures Find(s, marker) >= 0 ==> r == s[..Find(s, marker)]
  {
    SplitPiecesFree(s, marker);
    SplitHead(s, marker);
    Split(s, marker)[0]
  }

  /** The lyrics text cut out of the markup: inside the lyrics box, then out of the bold part. */
  function Extract(markup: string): string {
    var inBox := Before(After(markup, BoxOpen), BreakOpen);
    Before(After(inBox, "<b>"), "</b>")
  }

  /** The cut text without `Instrumental`; the UTF-8 round trip with `errors='replace'` changes nothing. */
  function Unmarked(markup: string): string {
    Replace(Extract(markup), "Instrumental", "")
  }

  /**
   * The result of `process_lyrics`: the `LYRICS` table applied in order, that is, the italics
   * tags and then the raw newlines removed, and then each `<br/>` turned into a newline.
   */
  function CleanLyrics(markup: string): (r: string)
    ensures r == Replace(Flattened(markup), "<br/>", "\n")
  {
    var t := LyricsTable;
    var u := Unmarked(markup);
    assert t[..3][..2][..1][..0] == [];
    assert ApplyPairs(u, t[..3][..2][..1]) == Replace(u, "<i>", "");
    assert t[..3][..2] == [("<i>", ""), ("</i>", "")];
    assert ApplyPairs(u, t[..3][..2]) == Replace(Replace(u, "<i>", ""), "</i>", "");
    assert t[..3] == [("<i>", ""), ("</i>", ""), ("\n", "")];
    assert ApplyPairs(u, t[..3]) == Flattened(markup);
    ApplyPairs(u, t)
  }

  /** `process_lyrics`, with its loop over the `LYRICS` table. */
  method ProcessLyrics(markup: string) returns (r: string)
    ensures r == CleanLyrics(markup)
  {
    assert Replaceable(LyricsTable) by {
      assert |LyricsTable[0].0| > 0 && |LyricsTable[1].0| > 0;
      assert |LyricsTable[2].0| > 0 && |LyricsTable[3].0| > 0;
    }
    r := ReplaceEach(Unmarked(markup), LyricsTable);
  }

  /** The text before the `<br/>` replacement: no italics tags and no raw newline left. */
  function Flattened(markup: string): string {
    Replace(Replace(Replace(Unmarked(markup), "<i>", ""), "</i>", ""), "\n", "")
  }

  /** The raw newlines are gone before the `<br/>` tags are turned into newlines. */
  lemma FlattenedHasNoNewline(markup: string)
    ensures '\n' !in Flattened(markup)
  {
    var s := Replace(Replace(Unmarked(markup), "<i>", ""), "</i>", "");
    ReplaceRemovesChar(s, '\n', "");
  }

  /** The processed lyrics hold no `<br/>`. */
  lemma NoBreakTagLeft(markup: string)
    ensures !Contains(CleanLyrics(markup), "<br/>")
  {
    var y := Flattened(markup);
    SplitPiecesFree(y, "<br/>");
    JoinFree(Split(y, "<br/>"), '\n', "<br/>");
  }

  /**
   * Each newline of the processed lyrics stands for exactly one `<br/>`: its lines are the
   * `<br/>`-separated segments of the flattened text, and putting the tags back gives that
   * text again.
   */
  lemma LinesAreBreaks(markup: string)
    ensures Split(CleanLyrics(markup), "\n") == Split(Flattened(markup), "<br/>")
    ensures Join(Split(CleanLyrics(markup), "\n"), "<br/>") == Flattened(markup)
  {
    var y := Flattened(markup);
    FlattenedHasNoNewline(markup);
    SplitAvoids(y, "<br/>", '\n');
    SplitJoinChar(Split(y, "<br/>"), '\n');
    JoinSplit(y, "<br/>");
  }
}
