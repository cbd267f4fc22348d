/**
 * The name normaliser of `lyricwiki/utils.py`: the wiki's title casing of artist, album and
 * song names (`capitalize`, `name_to_wiki`) and the page identifier built from them
 * (`name_to_wiki_id`), which percent-encodes as `urllib.parse.quote` does.
 */
module Names {
  import opened PyStr

  /** A character that the regular expression class `\w` matches, on ASCII. */
  predicate IsWordChar(c: char) {
    IsAlpha(c) || IsDigit(c) || c == '_'
  }

  /** Position `k` of `s` starts a word: the `\b` of the pattern `\b[\w']` sits before it. */
  predicate WordStart(s: string, k: int)
    requires 0 <= k < |s|
  {
    IsWordChar(s[k]) && (k == 0 || !IsWordChar(s[k - 1]))
  }

  /**
   * `capitalize`: lower-case the string, then upper-case every word character that starts a
   * word. An apostrophe is not a word character, so the letter after an opening quote starts
   * a word of its own.
   */
  function Capitalize(s: string): (r: string)
    ensures |r| == |s|
    ensures Lower(r) == Lower(s)
    ensures forall k {:trigger r[k]} | 0 <= k < |s| :: IsUpperAscii(r[k]) <==> IsAlpha(s[k]) && WordStart(s, k)
  {
    var l := Lower(s);
    assert forall k | 0 <= k < |s| :: IsWordChar(l[k]) == IsWordChar(s[k]);
    var r := seq(|l|, k requires 0 <= k < |l| => if WordStart(l, k) then UpperChar(l[k]) else l[k]);
    assert forall k | 0 <= k < |s| :: WordStart(l, k) == WordStart(s, k);
    r
  }

  /** The `CHARS` table: literal replacements applied, in this order, after the casing. */
  const Chars: seq<(string, string)> := [
    ("`", ""),
    ("\U{2019}", "'"),
    ("\U{201D}", "\""),
    ("\U{201C}", "\""),
    ("#", ""),
    ("'D ", "'d "),
    ("'Ll ", "'ll "),
    ("'S ", "'s "),
    ("'T ", "'t "),
    ("'T ", "'t "),
    ("Ww1", "WW1"),
    ("Ww2", "WW2"),
    ("Ww3", "WW3")
  ]

  /** One token of `name_to_wiki`: kept verbatim when it equals its own upper case, else capitalised. */
  function CaseToken(t: string): string {
    if t == Upper(t) then t else Capitalize(t)
  }

  /** Each token cased by `CaseToken`, in order. */
  function CaseTokens(tokens: seq<string>): seq<string> {
    seq(|tokens|, k requires 0 <= k < |tokens| => CaseToken(tokens[k]))
  }

  /** The cased words of a name, joined by single spaces, before the `CHARS` replacements. */
  function CasedWords(name: string): string {
    Join(CaseTokens(Split(Strip(name), " ")), " ")
  }

  /** The canonical form that `name_to_wiki` computes: no backtick, `#` or typographic quote is left. */
  function Canonical(name: string): (r: string)
    ensures forall c | Dropped(c) :: c !in r
  {
    NormalisedApplies(name, |Chars|);
    assert Chars[..|Chars|] == Chars;
    CharsDropMarks(CasedWords(name));
    Normalised(name, |Chars|)
  }

  /** The cased words of a name after the first `n` entries of the `CHARS` table. */
  function Normalised(name: string, n: nat): string
    requires n <= |Chars|
  {
    if n == 0 then CasedWords(name) else Replace(Normalised(name, n - 1), Chars[n - 1].0, Chars[n - 1].1)
  }

  /** The canonical form is the `CHARS` table applied, entry by entry, to the cased words. */
  lemma CanonicalApplies(name: string)
    ensures Canonical(name) == ApplyPairs(CasedWords(name), Chars)
  {
    NormalisedApplies(name, |Chars|);
    assert Chars[..|Chars|] == Chars;
  }

  lemma {:induction false} NormalisedApplies(name: string, n: nat)
    requires n <= |Chars|
    ensures Normalised(name, n) == ApplyPairs(CasedWords(name), Chars[..n])
  {
    CharsReplaceable();
    if n > 0 {
      NormalisedApplies(name, n - 1);
      ApplyPairsSnoc(CasedWords(name), Chars, n - 1);
    }
  }

  /** `name_to_wiki`, with its loop over the `CHARS` table. */
  method NameToWiki(name: string) returns (r: string)
    ensures r == Canonical(name)
  {
    CharsTargetsPlain();
    CanonicalApplies(name);
    r := ReplaceEach(CasedWords(name), Chars);
  }

  /** The characters that survive the `CHARS` table: none of these is left in a canonical name. */
  predicate Dropped(c: char) {
    c == '`' || c == '#' || c == '\U{2019}' || c == '\U{201D}' || c == '\U{201C}'
  }

  /** Applying a table whose replacements hold no `c` brings no `c` back. */
  lemma {:induction false} ApplyPairsKeepsOut(s: string, table: seq<(string, string)>, c: char)
    requires Replaceable(table)
    requires c !in s
    requires forall k | 0 <= k < |table| :: c !in table[k].1
    ensures c !in ApplyPairs(s, table)
    decreases |table|
  {
    if table != [] {
      var init, last := table[..|table| - 1], table[|table| - 1];
      ApplyPairsKeepsOut(s, init, c);
      ReplaceKeepsOut(ApplyPairs(s, init), last.0, last.1, c);
    }
  }

  /** A replacement table whose entry `i` removes `c` and whose later entries do not add it back. */
  lemma {:induction false} ApplyPairsRemoves(s: string, table: seq<(string, string)>, i: nat, c: char)
    requires Replaceable(table) && i < |table|
    requires table[i].0 == [c]
    requires forall k | i <= k < |table| :: c !in table[k].1
    ensures c !in ApplyPairs(s, table)
    decreases |table|
  {
    var init, last := table[..|table| - 1], table[|table| - 1];
    if i == |table| - 1 {
      ReplaceRemovesChar(ApplyPairs(s, init), c, last.1);
    } else {
      ApplyPairsRemoves(s, init, i, c);
      ReplaceKeepsOut(ApplyPairs(s, init), last.0, last.1, c);
    }
  }

  /** Every pattern of the `CHARS` table is non-empty, so `replace` may apply each one. */
  lemma CharsReplaceable()
    ensures Replaceable(Chars)
  {
    forall k | 0 <= k < |Chars|
      ensures |Chars[k].0| > 0
    {
    }
  }

  /** No replacement text of the `CHARS` table holds a dropped character. */
  lemma CharsTargetsPlain()
    ensures Replaceable(Chars)
    ensures forall k, j | 0 <= k < |Chars| && 0 <= j < |Chars[k].1| :: !Dropped(Chars[k].1[j])
  {
    CharsReplaceable();
    forall k | 0 <= k < |Chars|
      ensures forall j | 0 <= j < |Chars[k].1| :: !Dropped(Chars[k].1[j])
    {
    }
  }

  /** The `CHARS` table leaves no backtick, no `#` and no typographic quote in any text. */
  lemma CharsDropMarks(s: string)
    ensures forall c | Dropped(c) :: c !in ApplyPairs(s, Chars)
  {
    CharsTargetsPlain();
    forall c | Dropped(c)
      ensures c !in ApplyPairs(s, Chars)
    {
      var i := if c == '`' then 0 else if c == '\U{2019}' then 1 else if c == '\U{201D}' then 2
               else if c == '\U{201C}' then 3 else 4;
      assert Chars[i].0 == [c];
      assert forall k | i <= k < |Chars| :: c !in Chars[k].1 by {
        forall k | i <= k < |Chars|
          ensures c !in Chars[k].1
        {
          assert forall j | 0 <= j < |Chars[k].1| :: Chars[k].1[j] != c;
        }
      }
      ApplyPairsRemoves(s, Chars, i, c);
    }
  }

  /**
   * The characters `urllib.parse.quote(_, safe=':/._-()%,')` leaves alone: ASCII letters and
   * digits, the always-safe `_ . - ~`, and the extra safe set.
   */
  predicate SlugSafe(c: char) {
    IsAlpha(c) || IsDigit(c) || c in "_.-~:/()%,"
  }

  /** The upper-case hexadecimal digit of a value below 16. */
  function HexDigit(d: int): (h: char)
    requires 0 <= d < 16
    ensures IsDigit(h) || 'A' <= h <= 'F'
  {
    if d < 10 then ('0' as int + d) as char else ('A' as int + d - 10) as char
  }

  /** The value of a hexadecimal digit, `-1` for any other character. */
  function HexValue(h: char): (d: int)
    ensures -1 <= d < 16
    ensures forall e | 0 <= e < 16 :: d == e <==> h == HexDigit(e) || ('a' <= h <= 'f' && h as int - 'a' as int + 10 == e)
  {
    if IsDigit(h) then h as int - '0' as int
    else if 'A' <= h <= 'F' then h as int - 'A' as int + 10
    else if 'a' <= h <= 'f' then h as int - 'a' as int + 10
    else -1
  }

  /** A byte value. */
  newtype byte = x: int | 0 <= x < 256

  /** The number of bytes UTF-8 takes for a code point. */
  function Utf8Width(n: int): (w: int)
    ensures 1 <= w <= 4
  {
    if n < 0x80 then 1 else if n < 0x800 then 2 else if n < 0x1_0000 then 3 else 4
  }

  /** The weight of the six-bit group `e` places from the end. */
  function Sextet(e: int): (p: int)
    requires 0 <= e < 4
    ensures p > 0
  {
    if e == 0 then 1 else if e == 1 then 0x40 else if e == 2 then 0x1000 else 0x4_0000
  }

  /** The marker bits of the lead byte of a `w`-byte encoding. */
  function LeadMark(w: int): int
    requires 1 <= w <= 4
  {
    if w == 1 then 0 else if w == 2 then 0xC0 else if w == 3 then 0xE0 else 0xF0
  }

  /** Byte `i` of the `w`-byte UTF-8 encoding of the code point `n`. */
  function Utf8Byte(n: int, w: int, i: int): byte
    requires 0 <= n < 0x11_0000 && w == Utf8Width(n) && 0 <= i < w
  {
    var shifted := n / Sextet(w - 1 - i);
    if i == 0 then (LeadMark(w) + shifted) as byte else (0x80 + shifted % 0x40) as byte
  }

  /** The UTF-8 encoding of one character. */
  function Utf8(c: char): (bs: seq<byte>)
    ensures 1 <= |bs| <= 4
    ensures c as int < 128 ==> bs == [c as int as byte]
    ensures c as int >= 128 ==> |bs| >= 2
  {
    var n := c as int;
    var w := Utf8Width(n);
    seq(w, i requires 0 <= i < w => Utf8Byte(n, w, i))
  }

  /** Character `k` of the escape of `bs`: `%`, then the two hexadecimal digits of a byte. */
  function EscapeAt(bs: seq<byte>, k: int): char
    requires 0 <= k < 3 * |bs|
  {
    if k % 3 == 0 then '%'
    else if k % 3 == 1 then HexDigit(bs[k / 3] as int / 16)
    else HexDigit(bs[k / 3] as int % 16)
  }

  /** `%XX` for each byte, with upper-case hexadecimal digits. */
  function Escape(bs: seq<byte>): (r: string)
    ensures |r| == 3 * |bs|
  {
    seq(3 * |bs|, k requires 0 <= k < 3 * |bs| => EscapeAt(bs, k))
  }

  /** An escape is made of `%` and hexadecimal digits, all of them safe. */
  lemma EscapeSafe(bs: seq<byte>)
    ensures forall k | 0 <= k < |Escape(bs)| :: SlugSafe(Escape(bs)[k])
  {
  }

  /** The quoted form of one character. */
  function QuoteChar(c: char): string {
    if SlugSafe(c) then [c] else Escape(Utf8(c))
  }

  /** `urllib.parse.quote(s, safe=':/._-()%,')`. */
  function Quote(s: string): (r: string)
    ensures |r| >= |s|
  {
    if s == [] then "" else QuoteChar(s[0]) + Quote(s[1..])
  }

  /** Every character `quote` gives back is a safe one. */
  lemma {:induction false} QuoteSafe(s: string)
    ensures forall k | 0 <= k < |Quote(s)| :: SlugSafe(Quote(s)[k])
  {
    if s != [] {
      QuoteSafe(s[1..]);
      if !SlugSafe(s[0]) {
        EscapeSafe(Utf8(s[0]));
      }
      assert Quote(s) == QuoteChar(s[0]) + Quote(s[1..]);
    }
  }

  /** `quote` changes a string exactly when it holds a character outside the safe set. */
  lemma {:induction false} QuoteIdentity(s: string)
    ensures Quote(s) == s <==> forall k | 0 <= k < |s| :: SlugSafe(s[k])
  {
    if s != [] {
      QuoteIdentity(s[1..]);
      if SlugSafe(s[0]) {
        assert Quote(s) == [s[0]] + Quote(s[1..]);
        assert s == [s[0]] + s[1..];
        assert (forall k | 0 <= k < |s| :: SlugSafe(s[k])) <==> (forall k | 0 <= k < |s[1..]| :: SlugSafe(s[1..][k]));
      } else {
        assert |Quote(s)| >= 3 + |s[1..]|;
      }
    }
  }

  /** Percent-decoding of ASCII escapes, the inverse of `quote` on ASCII text without `%`. */
  function Unquote(s: string): string
    decreases |s|
  {
    if |s| >= 3 && s[0] == '%' && HexValue(s[1]) >= 0 && HexValue(s[2]) >= 0 && HexValue(s[1]) < 8 then
      [(HexValue(s[1]) * 16 + HexValue(s[2])) as char] + Unquote(s[3..])
    else if s == [] then ""
    else [s[0]] + Unquote(s[1..])
  }

  /** Decoding reads `%` and two hexadecimal digits of an ASCII value back as that character. */
  lemma EscapeUnquote(n: int, rest: string)
    requires 0 <= n < 128
    ensures Unquote(['%', HexDigit(n / 16), HexDigit(n % 16)] + rest) == [n as char] + Unquote(rest)
  {
    var q := ['%', HexDigit(n / 16), HexDigit(n % 16)];
    assert HexValue(HexDigit(n / 16)) == n / 16;
    assert HexValue(HexDigit(n % 16)) == n % 16;
    assert (q + rest)[3..] == rest;
  }

  /** Decoding undoes the quoting of an ASCII character other than `%`. */
  lemma QuoteCharUnquote(c: char, rest: string)
    requires c as int < 128 && c != '%'
    ensures Unquote(QuoteChar(c) + rest) == [c] + Unquote(rest)
  {
    var q := QuoteChar(c);
    if !SlugSafe(c) {
      var n := c as int;
      assert q == ['%', HexDigit(n / 16), HexDigit(n % 16)];
      EscapeUnquote(n, rest);
    } else {
      assert (q + rest)[1..] == rest;
    }
  }

  /** `quote` loses nothing on ASCII text without `%`: decoding gives the text back. */
  lemma {:induction false} QuoteUnquote(s: string)
    requires forall k | 0 <= k < |s| :: s[k] as int < 128 && s[k] != '%'
    ensures Unquote(Quote(s)) == s
  {
    if s != [] {
      QuoteUnquote(s[1..]);
      QuoteCharUnquote(s[0], Quote(s[1..]));
    }
  }

  /** Because `%` is in the safe set, `quote` maps two different strings to the same slug. */
  lemma QuoteNotInjective()
    ensures Quote(" ") == Quote("%20") == "%20"
  {
    assert Quote("%20") == QuoteChar('%') + Quote("20");
    assert Quote("20") == QuoteChar('2') + Quote("0");
    assert Quote("0") == QuoteChar('0') + Quote("");
    assert Utf8(' ') == [32];
  }

  /** The slug of an already canonical name: spaces turned into underscores, then quoted. */
  function Slug(c: string): string {
    Quote(Replace(c, " ", "_"))
  }

  /** A slug holds safe characters only, so no space. */
  lemma SlugIsSafe(c: string)
    ensures ' ' !in Slug(c)
    ensures forall k | 0 <= k < |Slug(c)| :: SlugSafe(Slug(c)[k])
  {
    QuoteSafe(Replace(c, " ", "_"));
  }

  /** `quote` keeps two url-safe characters at the front of a string. */
  lemma QuoteHead(r: string)
    requires |r| >= 2 && SlugSafe(r[0]) && SlugSafe(r[1])
    ensures |Quote(r)| >= 2 && Quote(r)[..2] == r[..2]
  {
    assert Quote(r) == [r[0]] + Quote(r[1..]);
    assert Quote(r[1..]) == [r[1]] + Quote(r[2..]) by {
      assert r[1..][0] == r[1] && r[1..][1..] == r[2..];
    }
  }

  /** A slug starts with the two characters its name starts with when both are url-safe. */
  lemma SlugHead(c: string)
    requires |c| >= 2 && SlugSafe(c[0]) && SlugSafe(c[1])
    ensures |Slug(c)| >= 2 && Slug(c)[..2] == c[..2]
  {
    assert ' ' !in c[..2] by {
      assert c[..2] == [c[0], c[1]];
    }
    ReplaceKeepsHead(c, " ", "_", 2);
    QuoteHead(Replace(c, " ", "_"));
  }

  /** Text made of url-safe characters only. */
  predicate SlugText(s: string) {
    forall k | 0 <= k < |s| :: SlugSafe(s[k])
  }

  /** `name_to_wiki_id`: a slug, so no space and only url-safe characters or escapes. */
  function NameToWikiId(name: string): (r: string)
    ensures ' ' !in r && SlugText(r)
  {
    SlugIsSafe(Canonical(name));
    Slug(Canonical(name))
  }

  /** A string of URL-safe characters and spaces becomes its slug by turning each space into `_`. */
  lemma PlainSlug(c: string)
    requires forall k | 0 <= k < |c| :: SlugSafe(c[k]) || c[k] == ' '
    ensures Slug(c) == Replace(c, " ", "_")
  {
    var ps := Split(c, " ");
    SplitPiecesFree(c, " ");
    SplitAll(c, " ", (x: char) => SlugSafe(x) || x == ' ');
    forall k | 0 <= k < |ps|
      ensures forall j | 0 <= j < |ps[k]| :: SlugSafe(ps[k][j])
    {
      ContainsChar(ps[k], ' ');
    }
    JoinAll(ps, "_", SlugSafe);
    QuoteIdentity(Join(ps, "_"));
  }

  // ---------------------------------------------------------------------------------------
  // Names of lower-case words, as in the documented examples
  // ---------------------------------------------------------------------------------------

  /** Words of lower-case ASCII letters only, none of them empty. */
  predicate LowerWords(ws: seq<string>) {
    forall k | 0 <= k < |ws| :: |ws[k]| > 0 && forall j | 0 <= j < |ws[k]| :: IsLowerAscii(ws[k][j])
  }

  /** A word with its first letter in upper case. */
  function Capitalised(w: string): string
    requires |w| > 0
  {
    [UpperChar(w[0])] + w[1..]
  }

  /** Each word capitalised, in order. */
  function CapitalisedAll(ws: seq<string>): seq<string>
    requires forall k | 0 <= k < |ws| :: |ws[k]| > 0
  {
    seq(|ws|, k requires 0 <= k < |ws| => Capitalised(ws[k]))
  }

  /** `name_to_wiki` capitalises a lower-case word. */
  lemma CaseLowerWord(w: string)
    requires |w| > 0 && forall j | 0 <= j < |w| :: IsLowerAscii(w[j])
    ensures CaseToken(w) == Capitalised(w)
  {
    assert Upper(w)[0] != w[0];
    var r, c := Capitalize(w), Capitalised(w);
    forall k | 0 <= k < |w|
      ensures r[k] == c[k]
    {
      assert Lower(r)[k] == Lower(w)[k] == w[k];
      if k == 0 {
        assert WordStart(w, 0);
      } else {
        assert !WordStart(w, k);
        assert c[k] == w[k];
      }
    }
  }

  /** A pattern holding a character that the string lacks does not occur in it. */
  lemma AbsentChar(s: string, pat: string, i: int)
    requires 0 <= i < |pat| && pat[i] !in s
    ensures !Contains(s, pat)
  {
    forall f | 0 <= f && f + |pat| <= |s|
      ensures !OccursAt(s, pat, f)
    {
      assert s[f..f + |pat|][i] == s[f + i];
    }
  }

  /** Where a pattern of the `CHARS` table holds a character that is neither a letter nor a space. */
  function MarkIndex(j: nat): nat {
    if j < 10 then 0 else 2
  }

  lemma MarkOf(j: nat)
    requires j < |Chars|
    ensures MarkIndex(j) < |Chars[j].0|
    ensures var c := Chars[j].0[MarkIndex(j)]; !IsAlpha(c) && c != ' '
  {
  }

  /** A string of letters and spaces is left alone by the first `n` entries of the `CHARS` table. */
  lemma {:induction false} ApplyPairsPlain(s: string, n: nat)
    requires n <= |Chars|
    requires forall k | 0 <= k < |s| :: IsAlpha(s[k]) || s[k] == ' '
    ensures CharsTargetsPlainAt(n) && ApplyPairs(s, Chars[..n]) == s
  {
    CharsReplaceable();
    if n > 0 {
      ApplyPairsPlain(s, n - 1);
      ApplyPairsSnoc(s, Chars, n - 1);
      var pat := Chars[n - 1].0;
      MarkOf(n - 1);
      AbsentChar(s, pat, MarkIndex(n - 1));
      ReplaceIdentity(s, pat, Chars[n - 1].1);
    }
  }

  /** The prefixes of the `CHARS` table are valid replacement tables. */
  predicate CharsTargetsPlainAt(n: nat)
    requires n <= |Chars|
  {
    Replaceable(Chars[..n])
  }

  /** The canonical name of a name whose cased words are letters and spaces: those cased words. */
  lemma CanonicalPlain(name: string)
    requires forall k | 0 <= k < |CasedWords(name)| :: IsAlpha(CasedWords(name)[k]) || CasedWords(name)[k] == ' '
    ensures Canonical(name) == CasedWords(name)
  {
    CanonicalApplies(name);
    ApplyPairsPlain(CasedWords(name), |Chars|);
    assert Chars[..|Chars|] == Chars;
  }

  /** Splitting lower-case words joined by single spaces gives the words back. */
  lemma SplitLowerWords(ws: seq<string>)
    requires |ws| > 0 && LowerWords(ws)
    ensures Split(Join(ws, " "), " ") == ws
  {
    assert [' '] == " ";
    forall k | 0 <= k < |ws|
      ensures ' ' !in ws[k]
    {
      assert forall j | 0 <= j < |ws[k]| :: ws[k][j] != ' ';
    }
    SplitJoinChar(ws, ' ');
  }

  /** The cased words of lower-case words separated by single spaces: each word capitalised. */
  lemma CasedLowerWords(ws: seq<string>)
    requires |ws| > 0 && LowerWords(ws)
    requires Strip(Join(ws, " ")) == Join(ws, " ")
    ensures CasedWords(Join(ws, " ")) == Join(CapitalisedAll(ws), " ")
  {
    var name := Join(ws, " ");
    SplitLowerWords(ws);
    var tokens := Split(Strip(name), " ");
    assert tokens == ws;
    var cased := CaseTokens(tokens);
    assert cased == CapitalisedAll(ws) by {
      forall k | 0 <= k < |ws|
        ensures cased[k] == CapitalisedAll(ws)[k]
      {
        CaseLowerWord(ws[k]);
      }
    }
  }

  /** Capitalised lower-case words are letters only. */
  lemma CapitalisedLetters(ws: seq<string>)
    requires LowerWords(ws)
    ensures forall j, k | 0 <= j < |ws| && 0 <= k < |CapitalisedAll(ws)[j]| :: IsAlpha(CapitalisedAll(ws)[j][k])
  {
    var caps := CapitalisedAll(ws);
    forall j, k | 0 <= j < |caps| && 0 <= k < |caps[j]|
      ensures IsAlpha(caps[j][k])
    {
      if k > 0 {
        assert caps[j][k] == ws[j][k];
      }
    }
  }

  /** The cased words of lower-case words are letters and spaces. */
  lemma CasedLowerWordsPlain(ws: seq<string>)
    requires |ws| > 0 && LowerWords(ws)
    requires Strip(Join(ws, " ")) == Join(ws, " ")
    ensures var c := CasedWords(Join(ws, " ")); forall k | 0 <= k < |c| :: IsAlpha(c[k]) || c[k] == ' '
  {
    CasedLowerWords(ws);
    CapitalisedLetters(ws);
    JoinAll(CapitalisedAll(ws), " ", (c: char) => IsAlpha(c) || c == ' ');
  }

  /** The canonical name of lower-case words separated by single spaces: each word capitalised. */
  lemma CanonicalLowerWords(ws: seq<string>)
    requires |ws| > 0 && LowerWords(ws)
    requires Strip(Join(ws, " ")) == Join(ws, " ")
    ensures Canonical(Join(ws, " ")) == Join(CapitalisedAll(ws), " ")
  {
    CasedLowerWordsPlain(ws);
    CanonicalPlain(Join(ws, " "));
    CasedLowerWords(ws);
  }

  /** The slug of letter words separated by single spaces: the words joined by `_`. */
  lemma SlugOfWords(ws: seq<string>)
    requires |ws| > 0 && forall j, k | 0 <= j < |ws| && 0 <= k < |ws[j]| :: IsAlpha(ws[j][k])
    ensures Slug(Join(ws, " ")) == Join(ws, "_")
  {
    var c := Join(ws, " ");
    assert [' '] == " ";
    forall k | 0 <= k < |ws|
      ensures ' ' !in ws[k]
    {
      assert forall j | 0 <= j < |ws[k]| :: ws[k][j] != ' ';
    }
    JoinAll(ws, " ", (x: char) => SlugSafe(x) || x == ' ');
    PlainSlug(c);
    SplitJoinChar(ws, ' ');
  }

  /** The slug of lower-case words separated by single spaces: the capitalised words joined by `_`. */
  lemma NameToWikiIdLowerWords(ws: seq<string>)
    requires |ws| > 0 && LowerWords(ws)
    requires Strip(Join(ws, " ")) == Join(ws, " ")
    ensures NameToWikiId(Join(ws, " ")) == Join(CapitalisedAll(ws), "_")
  {
    CanonicalLowerWords(ws);
    CapitalisedLetters(ws);
    SlugOfWords(CapitalisedAll(ws));
  }

  // ---------------------------------------------------------------------------------------
  // `name_to_wiki` is not idempotent
  // ---------------------------------------------------------------------------------------

  /** Text made of ASCII letters only. */
  predicate Letters(w: string) {
    forall j | 0 <= j < |w| :: IsAlpha(w[j])
  }

  /** Two space-free tokens separated by one space split back into the two tokens. */
  lemma TokensOfTwo(u: string, v: string)
    requires |u| > 0 && |v| > 0 && ' ' !in u && ' ' !in v
    requires !IsSpace(u[0]) && !IsSpace(v[|v| - 1])
    ensures Split(Strip(u + " " + v), " ") == [u, v]
  {
    var name := u + " " + v;
    assert [' '] == " ";
    JoinCons(u, [v], " ");
    assert [u] + [v] == [u, v];
    assert name[0] == u[0] && name[|name| - 1] == v[|v| - 1];
    StripTrimmed(name);
    SplitJoinChar([u, v], ' ');
  }

  /** Two tokens cased one by one. */
  lemma CaseTokensTwo(u: string, v: string)
    ensures CaseTokens([u, v]) == [CaseToken(u), CaseToken(v)]
  {
  }

  /** The cased words of two space-free tokens separated by one space: each token cased. */
  lemma CasedTwo(u: string, v: string)
    requires |u| > 0 && |v| > 0 && ' ' !in u && ' ' !in v
    requires !IsSpace(u[0]) && !IsSpace(v[|v| - 1])
    ensures CasedWords(u + " " + v) == CaseToken(u) + " " + CaseToken(v)
  {
    TokensOfTwo(u, v);
    CaseTokensTwo(u, v);
    JoinTwo(CaseToken(u), CaseToken(v), " ");
  }

  /** A token without a lower-case letter is its own upper case, so it is kept as it is. */
  lemma CaseUpperToken(t: string)
    requires forall j | 0 <= j < |t| :: !IsLowerAscii(t[j])
    ensures CaseToken(t) == t
  {
    assert Upper(t) == t;
  }

  /** A capitalised word of letters has a lower-case letter, and capitalising keeps it. */
  lemma CaseCapitalisedWord(w: string)
    requires |w| > 1 && IsUpperAscii(w[0]) && forall j | 1 <= j < |w| :: IsLowerAscii(w[j])
    ensures CaseToken(w) == w
  {
    assert Upper(w)[1] != w[1];
    var r := Capitalize(w);
    forall k | 0 <= k < |w|
      ensures r[k] == w[k]
    {
      assert Lower(r)[k] == Lower(w)[k];
      if k == 0 {
        assert WordStart(w, 0);
      } else {
        assert !WordStart(w, k);
      }
    }
  }

  /** Character `k` of `capitalize(s)`: the lowered character, raised where a word starts. */
  lemma CapitalizeAt(s: string, k: int)
    requires 0 <= k < |s|
    ensures Capitalize(s)[k] == if WordStart(Lower(s), k) then UpperChar(LowerChar(s[k])) else LowerChar(s[k])
  {
  }

  /** In `w'x` words start exactly at `0` and `|w| + 1`, and both are letters. */
  lemma ContractionStarts(w: string, x: char, k: nat)
    requires |w| > 0 && Letters(w) && IsLowerAscii(x) && k < |w| + 2
    ensures var s := w + "'" + [x];
      (WordStart(Lower(s), k) <==> k == 0 || k == |w| + 1)
      && (k == 0 || k == |w| + 1 ==> UpperChar(LowerChar(s[k])) == UpperChar(s[k]))
  {
    var s := w + "'" + [x];
    if k == 0 {
      assert s[0] == w[0];
    } else if k < |w| {
      assert s[k] == w[k] && s[k - 1] == w[k - 1];
    } else if k == |w| {
      assert s[k] == '\'';
    } else {
      assert s[k - 1] == '\'' && s[k] == x;
    }
  }

  /** Character `k` of `capitalize(w'x)`: raised at the two word starts `0` and `|w| + 1`, lowered elsewhere. */
  lemma CapitalizeContractionAt(w: string, x: char, k: nat)
    requires |w| > 0 && Letters(w) && IsLowerAscii(x) && k < |w| + 2
    ensures var s := w + "'" + [x];
      Capitalize(s)[k] == if k == 0 || k == |w| + 1 then UpperChar(s[k]) else LowerChar(s[k])
  {
    ContractionStarts(w, x, k);
    CapitalizeAt(w + "'" + [x], k);
  }

  /** Character `k` of the expected `W'X`, in terms of the characters of `w'x`. */
  lemma ContractionCasedAt(w: string, x: char, k: nat)
    requires |w| > 0 && k < |w| + 2
    ensures var s, e := w + "'" + [x], [UpperChar(w[0])] + Lower(w[1..]) + "'" + [UpperChar(x)];
      |e| == |s| && e[k] == if k == 0 || k == |w| + 1 then UpperChar(s[k]) else LowerChar(s[k])
  {
    var s, lw := w + "'" + [x], Lower(w[1..]);
    var e := [UpperChar(w[0])] + lw + "'" + [UpperChar(x)];
    if 0 < k < |w| {
      assert e[k] == lw[k - 1] == LowerChar(s[k]);
    }
  }

  /** `capitalize(w'x)`: the first letter raised, the rest of `w` lowered, and `x` raised. */
  lemma CapitalizeContraction(w: string, x: char)
    requires |w| > 0 && Letters(w) && IsLowerAscii(x)
    ensures Capitalize(w + "'" + [x]) == [UpperChar(w[0])] + Lower(w[1..]) + "'" + [UpperChar(x)]
  {
    var s := w + "'" + [x];
    var e := [UpperChar(w[0])] + Lower(w[1..]) + "'" + [UpperChar(x)];
    var r := Capitalize(s);
    forall k | 0 <= k < |s|
      ensures r[k] == e[k]
    {
      CapitalizeContractionAt(w, x, k);
      ContractionCasedAt(w, x, k);
    }
    assert r == e;
  }

  /**
   * `capitalize` on a contraction `w'x` whose `x` is lower case: the first letter raised, the
   * rest of `w` lowered, and the `x` after the apostrophe raised as the start of a word.
   */
  lemma CaseContraction(w: string, x: char)
    requires |w| > 0 && Letters(w) && IsLowerAscii(x)
    ensures CaseToken(w + "'" + [x]) == [UpperChar(w[0])] + Lower(w[1..]) + "'" + [UpperChar(x)]
  {
    var s := w + "'" + [x];
    assert s[|w| + 1] == x;
    assert Upper(s)[|w| + 1] != s[|w| + 1];
    CapitalizeContraction(w, x);
  }

  /** A pattern that starts with the only apostrophe of `a'b` can occur only at that apostrophe. */
  lemma QuoteOnlyAt(a: string, b: string, pat: string)
    requires |pat| > 0 && pat[0] == '\'' && '\'' !in a && '\'' !in b
    ensures Contains(a + "'" + b, pat) ==> OccursAt(a + "'" + b, pat, |a|)
  {
    var s := a + "'" + b;
    assert forall k | 0 <= k < |a| :: s[k] == a[k];
    assert forall k | |a| < k < |s| :: s[k] == b[k - |a| - 1];
    var f := Find(s, pat);
    if f >= 0 {
      assert s[f..f + |pat|][0] == s[f];
    }
  }

  /** The apostrophe is not a letter. */
  lemma LettersLackQuote(w: string)
    requires Letters(w)
    ensures '\'' !in w
  {
    assert forall j | 0 <= j < |w| :: w[j] != '\'';
  }

  /** No pattern of the `CHARS` table occurs in `w'x w'`, apart from `'T ` when `x` is `T`. */
  lemma ContractionAbsent(w1: string, t: char, w3: string, k: nat)
    requires Letters(w1) && Letters(w3) && (t == 'T' || t == 't')
    requires k < |Chars| && (t == 't' || (k != 8 && k != 9))
    ensures !Contains(w1 + "'" + [t] + " " + w3, Chars[k].0)
  {
    var s, pat := w1 + "'" + [t] + " " + w3, Chars[k].0;
    if k < 5 || k >= 10 {
      MarkOf(k);
      var c := pat[MarkIndex(k)];
      assert c != '\'';
      assert forall j | 0 <= j < |w1| :: w1[j] != c;
      assert forall j | 0 <= j < |w3| :: w3[j] != c;
      AbsentChar(s, pat, MarkIndex(k));
    } else {
      var b := [t] + " " + w3;
      assert s == w1 + "'" + b;
      LettersLackQuote(w1);
      LettersLackQuote(w3);
      QuoteOnlyAt(w1, b, pat);
      assert s[|w1| + 1] == t != pat[1];
      assert |w1| + |pat| <= |s| ==> s[|w1|..|w1| + |pat|][1] == t;
    }
  }

  /** The `'T ` entry of the `CHARS` table lowers the `T` of a contraction followed by a space. */
  lemma ContractionLowered(w1: string, w3: string)
    requires Letters(w1) && Letters(w3)
    ensures Replace(w1 + "'" + "T" + " " + w3, "'T ", "'t ") == w1 + "'" + "t" + " " + w3
  {
    assert w1 + "'" + "T" + " " + w3 == w1 + "'T " + w3;
    assert w1 + "'" + "t" + " " + w3 == w1 + "'t " + w3;
    LettersLackQuote(w1);
    AbsentChar(w3, "'T ", 0);
    ReplaceOnce(w1, "'T ", w3, "'t ");
  }

  /** Entry `i` of the `CHARS` table on `w'x w'`: only the `'T ` entry changes it, lowering the `T`. */
  lemma ContractionStep(w1: string, t: char, w3: string, i: nat)
    requires Letters(w1) && Letters(w3) && (t == 'T' || t == 't') && i < |Chars|
    ensures |Chars[i].0| > 0
    ensures var s, u := w1 + "'" + [t] + " " + w3, w1 + "'" + "t" + " " + w3;
      Replace(if i <= 8 then s else u, Chars[i].0, Chars[i].1) == if i < 8 then s else u
  {
    CharsReplaceable();
    var s, u := w1 + "'" + [t] + " " + w3, w1 + "'" + "t" + " " + w3;
    if i < 8 || (i == 8 && t == 't') {
      ContractionAbsent(w1, t, w3, i);
      ReplaceIdentity(s, Chars[i].0, Chars[i].1);
    } else if i == 8 {
      ContractionLowered(w1, w3);
    } else {
      assert u == w1 + "'" + ['t'] + " " + w3;
      ContractionAbsent(w1, 't', w3, i);
      ReplaceIdentity(u, Chars[i].0, Chars[i].1);
    }
  }

  /**
   * The first `n` entries of the `CHARS` table on `w'x w'` with `x` either case of `t`: the
   * text unchanged up to the `'T ` entry, the contraction ending in `'t ` from it on.
   */
  lemma {:induction false} CharsOnContractionAt(w1: string, t: char, w3: string, n: nat)
    requires Letters(w1) && Letters(w3) && (t == 'T' || t == 't') && n <= |Chars|
    ensures CharsTargetsPlainAt(n)
    ensures ApplyPairs(w1 + "'" + [t] + " " + w3, Chars[..n])
            == if n <= 8 then w1 + "'" + [t] + " " + w3 else w1 + "'" + "t" + " " + w3
  {
    CharsReplaceable();
    if n > 0 {
      CharsOnContractionAt(w1, t, w3, n - 1);
      ApplyPairsSnoc(w1 + "'" + [t] + " " + w3, Chars, n - 1);
      ContractionStep(w1, t, w3, n - 1);
    }
  }

  /** The `CHARS` table on `w'x w'` with `x` either case of `t`: the contraction ends in `'t `. */
  lemma CharsOnContraction(w1: string, t: char, w3: string)
    requires Letters(w1) && Letters(w3) && (t == 'T' || t == 't')
    ensures ApplyPairs(w1 + "'" + [t] + " " + w3, Chars) == w1 + "'" + "t" + " " + w3
  {
    CharsOnContractionAt(w1, t, w3, |Chars|);
    assert Chars[..|Chars|] == Chars;
  }

  /** Upper-case ASCII letters only, at least one. */
  predicate Capitals(w: string) {
    |w| > 0 && forall j | 0 <= j < |w| :: IsUpperAscii(w[j])
  }

  /**
   * The first round on an all-capitals contraction `W'T` and a lower-case word: the
   * contraction is its own upper case and is kept, the word is capitalised, and the `'T `
   * entry lowers the `T`.
   */
  lemma CanonicalOfCapitalContraction(w1: string, w3: string)
    requires Capitals(w1) && |w3| > 0 && forall j | 0 <= j < |w3| :: IsLowerAscii(w3[j])
    ensures Canonical(w1 + "'" + "T" + " " + w3) == w1 + "'" + "t" + " " + Capitalised(w3)
  {
    CasedCapitalContraction(w1, w3);
    CanonicalApplies(w1 + "'" + "T" + " " + w3);
    var c := Capitalised(w3);
    assert forall j | 1 <= j < |c| :: c[j] == w3[j];
    CharsOnContraction(w1, 'T', c);
  }

  /** The cased words of `W'T w`: the contraction kept as it is, the word capitalised. */
  lemma CasedCapitalContraction(w1: string, w3: string)
    requires Capitals(w1) && |w3| > 0 && forall j | 0 <= j < |w3| :: IsLowerAscii(w3[j])
    ensures CasedWords(w1 + "'" + "T" + " " + w3) == w1 + "'" + "T" + " " + Capitalised(w3)
  {
    var u := w1 + "'" + "T";
    assert forall j | 0 <= j < |u| :: !IsLowerAscii(u[j]);
    assert ' ' !in u && ' ' !in w3 by {
      assert forall j | 0 <= j < |u| :: u[j] != ' ';
      assert forall j | 0 <= j < |w3| :: w3[j] != ' ';
    }
    CaseUpperToken(u);
    CaseLowerWord(w3);
    CasedTwo(u, w3);
  }

  /** The cased words of `W't w`: `capitalize` gives `W'T` with the rest of `W` lowered. */
  lemma CasedLoweredContraction(w1: string, w3: string)
    requires Capitals(w1) && |w3| > 1 && IsUpperAscii(w3[0]) && forall j | 1 <= j < |w3| :: IsLowerAscii(w3[j])
    ensures CasedWords(w1 + "'" + "t" + " " + w3) == [w1[0]] + Lower(w1[1..]) + "'" + "T" + " " + w3
  {
    var u := w1 + "'" + "t";
    assert ' ' !in u && ' ' !in w3 by {
      assert forall j | 0 <= j < |u| :: u[j] != ' ';
      assert forall j | 0 <= j < |w3| :: w3[j] != ' ';
    }
    CaseContraction(w1, 't');
    assert [UpperChar(w1[0])] + Lower(w1[1..]) == [w1[0]] + Lower(w1[1..]);
    CaseCapitalisedWord(w3);
    CasedTwo(u, w3);
  }

  /**
   * The second round: `W't` is not its own upper case any more, so `capitalize` makes it
   * `W'T` with the rest of `W` lowered, and the `'T ` entry then lowers the `T` again.
   */
  lemma CanonicalOfLoweredContraction(w1: string, w3: string)
    requires Capitals(w1) && |w3| > 1 && IsUpperAscii(w3[0]) && forall j | 1 <= j < |w3| :: IsLowerAscii(w3[j])
    ensures Canonical(w1 + "'" + "t" + " " + w3) == [w1[0]] + Lower(w1[1..]) + "'" + "t" + " " + w3
  {
    var w := [w1[0]] + Lower(w1[1..]);
    CasedLoweredContraction(w1, w3);
    assert forall j | 0 <= j < |w| :: IsAlpha(w[j]);
    CanonicalApplies(w1 + "'" + "t" + " " + w3);
    CharsOnContraction(w, 'T', w3);
  }

  /**
   * `name_to_wiki` applied to its own result can change it again: `DON'T stop` becomes
   * `DON't Stop`, and a second round gives `Don't Stop`.
   */
  lemma NameToWikiNotIdempotent()
    ensures Canonical("DON" + "'" + "T" + " " + "stop") == "DON" + "'" + "t" + " " + "Stop"
    ensures Canonical("DON" + "'" + "t" + " " + "Stop") == "Don" + "'" + "t" + " " + "Stop"
    ensures Canonical(Canonical("DON" + "'" + "T" + " " + "stop")) != Canonical("DON" + "'" + "T" + " " + "stop")
  {
    CanonicalOfCapitalContraction("DON", "stop");
    assert Capitalised("stop") == "Stop";
    CanonicalOfLoweredContraction("DON", "Stop");
    assert [UpperChar('D')] + Lower("ON") == "Don";
    assert ("Don" + "'" + "t" + " " + "Stop")[1] != ("DON" + "'" + "t" + " " + "Stop")[1];
  }
}
