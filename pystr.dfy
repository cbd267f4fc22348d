/**
 * The Python `str` methods the scraper is built from (`find`, `in`, `split`, `join`,
 * `replace`, `strip`, `lower`, `upper`, `title`), on strings as sequences of characters.
 * Case mapping acts on the ASCII letters only.
 */
module PyStr {

  /** `pat` occurs in `s` starting at index `i`. */
  predicate OccursAt(s: string, pat: string, i: int) {
    0 <= i && i + |pat| <= |s| && s[i..i + |pat|] == pat
  }

  /** Dropping the first character of `s` shifts every occurrence one place to the left. */
  lemma OccursShift(s: string, pat: string)
    requires |s| > 0
    ensures forall i | 1 <= i :: OccursAt(s, pat, i) == OccursAt(s[1..], pat, i - 1)
  {
    forall i | 1 <= i
      ensures OccursAt(s, pat, i) == OccursAt(s[1..], pat, i - 1)
    {
      if i + |pat| <= |s| {
        assert s[1..][i - 1..i - 1 + |pat|] == s[i..i + |pat|];
      }
    }
  }

  /** `s.find(pat)`: the least index at which `pat` occurs in `s`, or -1 when it does not occur. */
  function Find(s: string, pat: string): (r: int)
    ensures -1 <= r <= |s|
    ensures r >= 0 ==> OccursAt(s, pat, r)
    ensures forall i | 0 <= i && (r < 0 || i < r) :: !OccursAt(s, pat, i)
    decreases |s|
  {
    if |s| < |pat| then -1
    else if s[..|pat|] == pat then 0
    else
      var t := Find(s[1..], pat);
      OccursShift(s, pat);
      if t < 0 then -1 else t + 1
  }

  /** `pat in s`. */
  predicate Contains(s: string, pat: string) {
    Find(s, pat) >= 0
  }

  /** `pat in s` holds exactly when `pat` occurs somewhere in `s`. */
  lemma ContainsIff(s: string, pat: string, i: int)
    ensures OccursAt(s, pat, i) ==> Contains(s, pat)
    ensures Contains(s, pat) ==> OccursAt(s, pat, Find(s, pat))
  {
  }

  /** For a one-character pattern, `[c] in s` is membership of the character. */
  lemma ContainsChar(s: string, c: char)
    ensures Contains(s, [c]) <==> c in s
  {
    if c in s {
      var k :| 0 <= k < |s| && s[k] == c;
      assert s[k..k + 1] == [c];
      assert OccursAt(s, [c], k);
    }
    if Contains(s, [c]) {
      var r := Find(s, [c]);
      assert s[r..r + 1] == [c];
      assert s[r] == c;
    }
  }

  /**
   * Where `split` resumes after the first occurrence of `sep`: just past it, or past the end
   * of `s` when there is none.
   */
  function Resume(s: string, sep: string): (j: int)
    ensures j >= |sep|
    ensures Find(s, sep) >= 0 ==> j == Find(s, sep) + |sep| <= |s|
  {
    var i := Find(s, sep);
    if i < 0 then |s| + |sep| else i + |sep|
  }

  /** `s.split(sep)` for a non-empty separator (Python refuses an empty one). */
  function Split(s: string, sep: string): (r: seq<string>)
    requires |sep| > 0
    ensures |r| >= 1
    decreases |s|
  {
    var i := Find(s, sep);
    if i < 0 then [s] else [s[..i]] + Split(s[Resume(s, sep)..], sep)
  }

  /** No piece that `split` returns holds the separator. */
  lemma {:induction false} SplitPiecesFree(s: string, sep: string)
    requires |sep| > 0
    ensures forall k | 0 <= k < |Split(s, sep)| :: !Contains(Split(s, sep)[k], sep)
    decreases |s|
  {
    var i := Find(s, sep);
    if i >= 0 {
      var head := s[..i];
      assert !Contains(head, sep) by {
        forall j | 0 <= j && j + |sep| <= |head|
          ensures !OccursAt(head, sep, j)
        {
          assert j < i && !OccursAt(s, sep, j);
          assert head[j..j + |sep|] == s[j..j + |sep|];
        }
      }
      SplitPiecesFree(s[i + |sep|..], sep);
    }
  }

  /** `sep.join(ps)`. */
  function Join(ps: seq<string>, sep: string): string {
    if |ps| == 0 then ""
    else if |ps| == 1 then ps[0]
    else ps[0] + sep + Join(ps[1..], sep)
  }

  /** Splitting and joining again with the same separator gives the string back. */
  lemma {:induction false} JoinSplit(s: string, sep: string)
    requires |sep| > 0
    ensures Join(Split(s, sep), sep) == s
    decreases |s|
  {
    var i := Find(s, sep);
    if i >= 0 {
      var head, rest := s[..i], s[i + |sep|..];
      var tail := Split(rest, sep);
      JoinSplit(rest, sep);
      var ps := [head] + tail;
      assert Split(s, sep) == ps;
      assert ps[0] == head && ps[1..] == tail;
      assert Join(ps, sep) == head + sep + Join(tail, sep);
      assert s[i..i + |sep|] == sep;
      assert s == head + s[i..i + |sep|] + rest;
    }
  }

  /** A character that is in no piece and not in the separator is not in the joined string. */
  lemma {:induction false} JoinAvoids(ps: seq<string>, sep: string, c: char)
    requires c !in sep
    requires forall k | 0 <= k < |ps| :: c !in ps[k]
    ensures c !in Join(ps, sep)
  {
    if |ps| > 1 {
      JoinAvoids(ps[1..], sep, c);
    }
  }

  /** Every piece that `split` returns is made of characters of the input. */
  lemma {:induction false} SplitAvoids(s: string, sep: string, c: char)
    requires |sep| > 0
    requires c !in s
    ensures forall k | 0 <= k < |Split(s, sep)| :: c !in Split(s, sep)[k]
    decreases |s|
  {
    var i := Find(s, sep);
    if i >= 0 {
      SplitAvoids(s[i + |sep|..], sep, c);
      assert forall p | p in [s[..i]] :: c !in p;
    }
  }

  /** Every character of a window of `s` is a character of that window. */
  lemma WindowHolds(s: string, i: nat, n: nat, k: nat)
    requires i <= k < i + n <= |s|
    ensures s[k] in s[i..i + n]
  {
    assert s[i..i + n][k - i] == s[k];
  }

  /** An occurrence that crosses a character absent from the pattern lies on one side of it. */
  lemma OccursAcross(a: string, c: char, b: string, pat: string)
    requires |pat| > 0 && c !in pat
    requires !Contains(a, pat) && !Contains(b, pat)
    ensures !Contains(a + [c] + b, pat)
  {
    var s := a + [c] + b;
    forall i | 0 <= i && i + |pat| <= |s|
      ensures !OccursAt(s, pat, i)
    {
      if i + |pat| <= |a| {
        assert s[i..i + |pat|] == a[i..i + |pat|];
        assert !OccursAt(a, pat, i);
      } else if i > |a| {
        var j := i - |a| - 1;
        assert s[i..i + |pat|] == b[j..j + |pat|];
        assert !OccursAt(b, pat, j);
      } else {
        WindowHolds(s, i, |pat|, |a|);
      }
    }
    assert !OccursAt(s, pat, Find(s, pat));
  }

  /** Joining pieces free of `pat` with a one-character separator absent from `pat` creates no `pat`. */
  lemma {:induction false} JoinFree(ps: seq<string>, c: char, pat: string)
    requires |pat| > 0 && c !in pat
    requires forall k | 0 <= k < |ps| :: !Contains(ps[k], pat)
    ensures !Contains(Join(ps, [c]), pat)
  {
    if |ps| == 0 {
      assert Find("", pat) < 0;
    } else if |ps| > 1 {
      JoinFree(ps[1..], c, pat);
      OccursAcross(ps[0], c, Join(ps[1..], [c]), pat);
      assert Join(ps, [c]) == ps[0] + [c] + Join(ps[1..], [c]);
    }
  }

  /** A one-character pattern occurs nowhere in a prefix that lacks the character. */
  lemma CharFreePrefix(s: string, n: nat, c: char)
    requires n <= |s| && c !in s[..n]
    ensures forall k | 0 <= k < n :: !OccursAt(s, [c], k)
  {
    forall k | 0 <= k < n
      ensures !OccursAt(s, [c], k)
    {
      assert s[k] == s[..n][k];
      assert k + 1 <= |s| ==> s[k..k + 1][0] == s[k];
    }
  }

  /** Splitting on a one-character separator undoes a join with it when no piece holds that character. */
  lemma {:induction false} SplitJoinChar(ps: seq<string>, c: char)
    requires |ps| >= 1
    requires forall k | 0 <= k < |ps| :: c !in ps[k]
    ensures Split(Join(ps, [c]), [c]) == ps
  {
    var s := Join(ps, [c]);
    if |ps| == 1 {
      ContainsChar(ps[0], c);
    } else {
      var a, rest := ps[0], Join(ps[1..], [c]);
      assert s == a + [c] + rest;
      assert s[|a|..|a| + 1] == [c];
      assert OccursAt(s, [c], |a|);
      var i := Find(s, [c]);
      assert 0 <= i <= |a|;
      assert s[..|a|] == a;
      CharFreePrefix(s, |a|, c);
      assert i == |a|;
      assert s[i + 1..] == rest && s[..i] == a;
      SplitJoinChar(ps[1..], c);
      assert Split(s, [c]) == [a] + Split(rest, [c]);
      assert ps == [a] + ps[1..];
    }
  }

  /** `s.rfind(c)` for one character: the last index holding `c`, or -1. */
  function LastIndexOf(s: string, c: char): (i: int)
    ensures -1 <= i < |s|
    ensures i < 0 <==> c !in s
    ensures i >= 0 ==> s[i] == c && forall k | i < k < |s| :: s[k] != c
  {
    if s == [] then -1
    else if s[|s| - 1] == c then |s| - 1
    else
      var i := LastIndexOf(s[..|s| - 1], c);
      assert s == s[..|s| - 1] + [s[|s| - 1]];
      i
  }

  /** No `c` follows index `j` of `s`, told on the slice after it. */
  lemma NoneAfter(s: string, c: char, j: int)
    requires 0 <= j < |s| && forall k | j < k < |s| :: s[k] != c
    ensures c !in s[j + 1..]
  {
    var t := s[j + 1..];
    assert forall k | 0 <= k < |t| :: t[k] == s[j + 1 + k];
  }

  /** `rfind` finds the index of a `c` with no `c` after it. */
  lemma LastIndexAt(s: string, c: char, j: int)
    requires 0 <= j < |s| && s[j] == c && c !in s[j + 1..]
    ensures LastIndexOf(s, c) == j
  {
    assert c in s;
    forall k | j < k < |s|
      ensures s[k] != c
    {
      assert s[k] == s[j + 1..][k - j - 1];
    }
  }

  /** What `find` reports for one character: an index holding it with none before it. */
  lemma FindCharFirst(s: string, c: char)
    ensures Find(s, [c]) >= 0 ==> s[Find(s, [c])] == c && c !in s[..Find(s, [c])]
    ensures Find(s, [c]) < 0 <==> c !in s
  {
    ContainsChar(s, c);
    var f := Find(s, [c]);
    if f >= 0 {
      assert s[f..f + 1] == [c];
      forall k | 0 <= k < f
        ensures s[k] != c
      {
        assert !OccursAt(s, [c], k);
        assert s[k..k + 1] == [s[k]];
      }
    }
  }

  /** `find` stops at an occurrence before which the first character of the pattern never appears. */
  lemma FindFirstOccurrence(s: string, pat: string, i: int)
    requires |pat| > 0 && OccursAt(s, pat, i) && pat[0] !in s[..i]
    ensures Find(s, pat) == i
  {
    forall k | 0 <= k < i
      ensures !OccursAt(s, pat, k)
    {
      assert s[..i][k] == s[k];
      if k + |pat| <= |s| {
        assert s[k..k + |pat|][0] == s[k];
      }
    }
  }

  /** A pattern whose first character the string lacks is not found. */
  lemma FindAbsent(s: string, pat: string)
    requires |pat| > 0 && pat[0] !in s
    ensures Find(s, pat) == -1
  {
    forall k | 0 <= k && k + |pat| <= |s|
      ensures !OccursAt(s, pat, k)
    {
      assert s[k..k + |pat|][0] == s[k];
    }
  }

  /** The first index of a character, found by `find`. */
  lemma FindChar(s: string, c: char, i: int)
    requires 0 <= i < |s| && s[i] == c && c !in s[..i]
    ensures Find(s, [c]) == i
  {
    assert s[i..i + 1] == [c];
    assert OccursAt(s, [c], i);
    CharFreePrefix(s, i, c);
  }

  /** Splitting on a character the string lacks gives the string back as the only piece. */
  lemma SplitCharNone(s: string, c: char)
    requires c !in s
    ensures Split(s, [c]) == [s]
  {
    ContainsChar(s, c);
  }

  /** `split` cuts at the first occurrence of a one-character separator. */
  lemma SplitCharFirst(s: string, c: char, i: int)
    requires 0 <= i < |s| && s[i] == c && c !in s[..i]
    ensures Split(s, [c]) == [s[..i]] + Split(s[i + 1..], [c])
  {
    FindChar(s, c, i);
  }

  /**
   * The last piece of `s.split(c)` is what follows the last `c`, and the other pieces joined
   * with `c` are what precedes it.
   */
  lemma SplitCharLast(s: string, c: char, j: int)
    requires 0 <= j < |s| && s[j] == c && c !in s[j + 1..]
    ensures |Split(s, [c])| >= 2
    ensures Split(s, [c])[|Split(s, [c])| - 1] == s[j + 1..]
    ensures Join(Split(s, [c])[..|Split(s, [c])| - 1], [c]) == s[..j]
  {
    var ps := Split(s, [c]);
    ContainsChar(s, c);
    SplitMany(s, [c]);
    SplitLast(s, [c]);
    SplitPiecesFree(s, [c]);
    var last := ps[|ps| - 1];
    ContainsChar(last, c);
    LastCut(s, Join(ps[..|ps| - 1], [c]), c, last, j);
  }

  /** A cut of `s` at a `c` that leaves no `c` after it is the cut at the last `c`. */
  lemma LastCut(s: string, init: string, c: char, last: string, j: int)
    requires s == init + [c] + last && c !in last
    requires 0 <= j < |s| && s[j] == c && c !in s[j + 1..]
    ensures init == s[..j] && last == s[j + 1..]
  {
    if |init| < j {
      assert false;
    }
    forall k | j < k < |s|
      ensures s[k] != c
    {
      assert s[k] == s[j + 1..][k - j - 1];
    }
    assert s[|init|] == c;
    assert s[..j] == init;
  }

  /** The first piece of a split is what precedes the first occurrence of the separator. */
  lemma SplitHead(s: string, sep: string)
    requires |sep| > 0
    ensures Split(s, sep)[0] == if Find(s, sep) < 0 then s else s[..Find(s, sep)]
  {
  }

  /** Unfolding `split` once, at the first occurrence `i` of the separator. */
  lemma SplitAt(s: string, sep: string, i: int)
    requires |sep| > 0 && 0 <= i && i == Find(s, sep)
    ensures Split(s, sep) == [s[..i]] + Split(s[i + |sep|..], sep)
  {
  }

  /** Joining a non-empty list with one more piece in front. */
  lemma JoinCons(p: string, qs: seq<string>, sep: string)
    requires |qs| > 0
    ensures Join([p] + qs, sep) == p + sep + Join(qs, sep)
  {
    assert ([p] + qs)[1..] == qs;
  }

  /** Two pieces joined by a separator. */
  lemma JoinTwo(a: string, b: string, sep: string)
    ensures Join([a, b], sep) == a + sep + b
  {
    JoinCons(a, [b], sep);
  }

  /** Splitting yields more than one piece exactly when the separator occurs. */
  lemma SplitMany(s: string, sep: string)
    requires |sep| > 0
    ensures |Split(s, sep)| > 1 <==> Contains(s, sep)
  {
  }

  /** The last piece of a split follows an occurrence of the separator. */
  lemma SplitLast(s: string, sep: string)
    requires |sep| > 0
    ensures var ps := Split(s, sep);
      |ps| > 1 ==> s == Join(ps[..|ps| - 1], sep) + sep + ps[|ps| - 1]
  {
    var ps := Split(s, sep);
    if |ps| > 1 {
      JoinSplit(s, sep);
      JoinCut(ps, sep, |ps| - 1);
      assert ps[|ps| - 1..] == [ps[|ps| - 1]];
    }
  }

  /** The first piece of a split precedes the first occurrence of the separator. */
  lemma SplitFirst(s: string, sep: string)
    requires |sep| > 0
    ensures var ps := Split(s, sep);
      |ps| > 1 ==> s == ps[0] + sep + Join(ps[1..], sep)
  {
    JoinSplit(s, sep);
  }

  /** Joining the first `k` pieces and the rest separately, then the two with the separator. */
  lemma {:induction false} JoinCut(ps: seq<string>, sep: string, k: int)
    requires 0 < k < |ps|
    ensures Join(ps[..k], sep) + sep + Join(ps[k..], sep) == Join(ps, sep)
  {
    if k > 1 {
      JoinCut(ps[1..], sep, k - 1);
      assert ps[1..][..k - 1] == ps[..k][1..];
      assert ps[1..][k - 1..] == ps[k..];
    }
  }

  /** `s.replace(from, to)` for a non-empty `from`: every non-overlapping occurrence, left to right. */
  function Replace(s: string, from: string, to: string): string
    requires |from| > 0
  {
    Join(Split(s, from), to)
  }

  /** `replace` leaves a string alone when the pattern does not occur or is replaced by itself. */
  lemma ReplaceIdentity(s: string, from: string, to: string)
    requires |from| > 0
    ensures !Contains(s, from) ==> Replace(s, from, to) == s
    ensures from == to ==> Replace(s, from, to) == s
  {
    JoinSplit(s, from);
  }

  /** After `s.replace(c, to)`, with `c` not in `to`, the character `c` is gone. */
  lemma ReplaceRemovesChar(s: string, c: char, to: string)
    requires c !in to
    ensures c !in Replace(s, [c], to)
  {
    var ps := Split(s, [c]);
    SplitPiecesFree(s, [c]);
    forall k | 0 <= k < |ps|
      ensures c !in ps[k]
    {
      ContainsChar(ps[k], c);
    }
    JoinAvoids(ps, to, c);
  }

  /** `replace` brings in no character that neither the string nor the replacement holds. */
  lemma ReplaceKeepsOut(s: string, from: string, to: string, c: char)
    requires |from| > 0 && c !in s && c !in to
    ensures c !in Replace(s, from, to)
  {
    SplitAvoids(s, from, c);
    JoinAvoids(Split(s, from), to, c);
  }

  /** Joining keeps a property that holds of every character of the pieces and of the separator. */
  lemma {:induction false} JoinAll(ps: seq<string>, sep: string, p: char -> bool)
    requires forall k | 0 <= k < |sep| :: p(sep[k])
    requires forall j, k | 0 <= j < |ps| && 0 <= k < |ps[j]| :: p(ps[j][k])
    ensures forall k | 0 <= k < |Join(ps, sep)| :: p(Join(ps, sep)[k])
  {
    if |ps| > 1 {
      JoinAll(ps[1..], sep, p);
      var t := Join(ps[1..], sep);
      assert Join(ps, sep) == ps[0] + sep + t;
      assert forall k | 0 <= k < |t| :: p(t[k]);
    }
  }

  /** Every character of a piece returned by `split` is a character of the input. */
  lemma {:induction false} SplitAll(s: string, sep: string, p: char -> bool)
    requires |sep| > 0
    requires forall k | 0 <= k < |s| :: p(s[k])
    ensures forall j, k | 0 <= j < |Split(s, sep)| && 0 <= k < |Split(s, sep)[j]| :: p(Split(s, sep)[j][k])
    decreases |s|
  {
    var i := Find(s, sep);
    if i >= 0 {
      var rest := s[i + |sep|..];
      SplitAll(rest, sep, p);
      var ps := Split(s, sep);
      assert ps == [s[..i]] + Split(rest, sep);
      forall j, k | 0 <= j < |ps| && 0 <= k < |ps[j]|
        ensures p(ps[j][k])
      {
        if j > 0 {
          assert ps[j] == Split(rest, sep)[j - 1];
        }
      }
    }
  }

  /** `replace` keeps a property of characters that the string and the replacement both have. */
  lemma ReplaceAll(s: string, from: string, to: string, p: char -> bool)
    requires |from| > 0
    requires forall k | 0 <= k < |s| :: p(s[k])
    requires forall k | 0 <= k < |to| :: p(to[k])
    ensures forall k | 0 <= k < |Replace(s, from, to)| :: p(Replace(s, from, to)[k])
  {
    SplitAll(s, from, p);
    JoinAll(Split(s, from), to, p);
  }

  /** Every pattern of a replacement table is non-empty, as `str.replace` needs here. */
  predicate Replaceable(table: seq<(string, string)>) {
    forall k | 0 <= k < |table| :: |table[k].0| > 0
  }

  /** The replacements of `table` applied one after the other: the last pair is applied last. */
  function ApplyPairs(s: string, table: seq<(string, string)>): string
    requires Replaceable(table)
    decreases |table|
  {
    if table == [] then s
    else
      var last := table[|table| - 1];
      Replace(ApplyPairs(s, table[..|table| - 1]), last.0, last.1)
  }

  /** A prefix of the table one pair longer applies that pair last. */
  lemma ApplyPairsSnoc(s: string, table: seq<(string, string)>, n: nat)
    requires Replaceable(table) && n < |table|
    ensures Replaceable(table[..n]) && Replaceable(table[..n + 1])
    ensures ApplyPairs(s, table[..n + 1]) == Replace(ApplyPairs(s, table[..n]), table[n].0, table[n].1)
  {
    assert table[..n + 1][..n] == table[..n];
  }

  /** `replace` keeps a head of `s` that lacks the first character of the pattern. */
  lemma ReplaceKeepsHead(s: string, from: string, to: string, n: nat)
    requires |from| > 0 && n <= |s| && from[0] !in s[..n]
    ensures |Replace(s, from, to)| >= n && Replace(s, from, to)[..n] == s[..n]
  {
    var ps, f := Split(s, from), Find(s, from);
    SplitHead(s, from);
    assert forall k | 0 <= k < n :: s[..n][k] == s[k];
    if f >= 0 {
      assert s[f..f + |from|][0] == s[f];
    }
    assert |ps[0]| >= n && ps[0][..n] == s[..n];
    assert Join(ps, to)[..|ps[0]|] == ps[0];
  }

  /** Replacing a pattern that occurs once, after a prefix that lacks its first character. */
  lemma ReplaceOnce(a: string, pat: string, b: string, to: string)
    requires |pat| > 0 && pat[0] !in a && !Contains(b, pat)
    ensures Replace(a + pat + b, pat, to) == a + to + b
  {
    var s := a + pat + b;
    assert s[|a|..|a| + |pat|] == pat;
    assert OccursAt(s, pat, |a|);
    forall k | 0 <= k < |a|
      ensures !OccursAt(s, pat, k)
    {
      assert s[k] == a[k];
      assert k + |pat| <= |s| ==> s[k..k + |pat|][0] == s[k];
    }
    var i := Find(s, pat);
    assert i == |a|;
    assert s[..i] == a && s[i + |pat|..] == b;
    SplitAt(s, pat, i);
    assert Split(b, pat) == [b];
    JoinCons(a, [b], to);
  }

  /** The loop `for (a, b) in table: s = s.replace(a, b)`. */
  method ReplaceEach(s: string, table: seq<(string, string)>) returns (r: string)
    requires Replaceable(table)
    ensures r == ApplyPairs(s, table)
  {
    r := s;
    for i := 0 to |table|
      invariant r == ApplyPairs(s, table[..i])
    {
      assert table[..i + 1][..i] == table[..i];
      r := Replace(r, table[i].0, table[i].1);
    }
    assert table[..|table|] == table;
  }

  /** Python's `str.isspace` on the ASCII characters. */
  predicate IsSpace(c: char) {
    c == ' ' || 9 <= c as int <= 13 || 28 <= c as int <= 31
  }

  /** `s.lstrip()`: the suffix of `s` that starts at its first character that is not white space. */
  function StripLeft(s: string): (r: string)
    ensures |r| <= |s|
    ensures r != [] ==> !IsSpace(r[0])
    decreases |s|
  {
    if |s| == 0 || !IsSpace(s[0]) then s else StripLeft(s[1..])
  }

  /** `s.rstrip()`: the prefix of `s` that ends at its last character that is not white space. */
  function StripRight(s: string): (r: string)
    ensures |r| <= |s|
    ensures r != [] ==> !IsSpace(r[|r| - 1]) && r[0] == s[0]
    decreases |s|
  {
    if |s| == 0 || !IsSpace(s[|s| - 1]) then s else StripRight(s[..|s| - 1])
  }

  /** Text made of white space only. */
  predicate AllSpace(t: string) {
    forall k | 0 <= k < |t| :: IsSpace(t[k])
  }

  /** `lstrip()` cuts off a prefix of white space. */
  lemma {:induction false} StripLeftCut(s: string)
    ensures var i := |s| - |StripLeft(s)|; StripLeft(s) == s[i..] && AllSpace(s[..i])
    decreases |s|
  {
    if |s| > 0 && IsSpace(s[0]) {
      StripLeftCut(s[1..]);
      var i := |s| - |StripLeft(s)|;
      assert s[1..][i - 1..] == s[i..];
      assert forall k | 1 <= k < i :: s[..i][k] == s[1..][..i - 1][k - 1];
    }
  }

  /** `rstrip()` cuts off a suffix of white space. */
  lemma {:induction false} StripRightCut(s: string)
    ensures var j := |StripRight(s)|; StripRight(s) == s[..j] && AllSpace(s[j..])
    decreases |s|
  {
    if |s| > 0 && IsSpace(s[|s| - 1]) {
      var t := s[..|s| - 1];
      StripRightCut(t);
      var j := |StripRight(s)|;
      assert t[..j] == s[..j];
      assert forall k | 0 <= k < |s| - 1 - j :: s[j..][k] == t[j..][k];
    }
  }

  /**
   * `s.strip()`: the piece of `s` left once white space is cut off at both ends, with no white
   * space at either end of it.
   */
  function Strip(s: string): (r: string)
    ensures r == [] || (!IsSpace(r[0]) && !IsSpace(r[|r| - 1]))
    ensures |r| <= |s|
    ensures exists i, j | 0 <= i <= j <= |s| :: r == s[i..j] && AllSpace(s[..i]) && AllSpace(s[j..])
  {
    var l := StripLeft(s);
    StripLeftCut(s);
    StripRightCut(l);
    var i, j := |s| - |l|, |s| - |l| + |StripRight(l)|;
    assert l[..|StripRight(l)|] == s[i..j];
    assert l[|StripRight(l)|..] == s[j..];
    StripRight(l)
  }

  /** `strip()` only removes characters: one that `s` lacks is not in `s.strip()`. */
  lemma StripKeepsOut(s: string, c: char)
    requires c !in s
    ensures c !in Strip(s)
  {
    StripLeftKeepsOut(s, c);
    StripRightKeepsOut(StripLeft(s), c);
  }

  lemma {:induction false} StripLeftKeepsOut(s: string, c: char)
    requires c !in s
    ensures c !in StripLeft(s)
    decreases |s|
  {
    if |s| > 0 && IsSpace(s[0]) {
      assert forall k | 0 <= k < |s[1..]| :: s[1..][k] == s[k + 1];
      StripLeftKeepsOut(s[1..], c);
    }
  }

  lemma {:induction false} StripRightKeepsOut(s: string, c: char)
    requires c !in s
    ensures c !in StripRight(s)
    decreases |s|
  {
    if |s| > 0 && IsSpace(s[|s| - 1]) {
      assert forall k | 0 <= k < |s| - 1 :: s[..|s| - 1][k] == s[k];
      StripRightKeepsOut(s[..|s| - 1], c);
    }
  }

  /** A string that neither starts nor ends with white space is its own `strip()`. */
  lemma StripTrimmed(s: string)
    requires s == [] || (!IsSpace(s[0]) && !IsSpace(s[|s| - 1]))
    ensures Strip(s) == s
  {
  }

  /** `strip()` is idempotent. */
  lemma StripIdempotent(s: string)
    ensures Strip(Strip(s)) == Strip(s)
  {
    StripTrimmed(Strip(s));
  }

  predicate IsUpperAscii(c: char) { 'A' <= c <= 'Z' }
  predicate IsLowerAscii(c: char) { 'a' <= c <= 'z' }
  predicate IsAlpha(c: char) { IsUpperAscii(c) || IsLowerAscii(c) }
  predicate IsDigit(c: char) { '0' <= c <= '9' }

  function LowerChar(c: char): (d: char)
    ensures !IsUpperAscii(d)
    ensures IsAlpha(c) <==> IsAlpha(d)
  {
    if IsUpperAscii(c) then (c as int + 32) as char else c
  }

  function UpperChar(c: char): (d: char)
    ensures !IsLowerAscii(d)
    ensures IsAlpha(c) <==> IsAlpha(d)
  {
    if IsLowerAscii(c) then (c as int - 32) as char else c
  }

  /** `s.lower()`. */
  function Lower(s: string): (r: string)
    ensures |r| == |s|
    ensures forall k {:trigger r[k]} | 0 <= k < |s| :: r[k] == LowerChar(s[k])
  {
    seq(|s|, k requires 0 <= k < |s| => LowerChar(s[k]))
  }

  /** `s.upper()`. */
  function Upper(s: string): (r: string)
    ensures |r| == |s|
    ensures forall k {:trigger r[k]} | 0 <= k < |s| :: r[k] == UpperChar(s[k])
  {
    seq(|s|, k requires 0 <= k < |s| => UpperChar(s[k]))
  }

  /** `s.title()`: a letter following a letter becomes lower case, any other letter upper case. */
  function Title(s: string): (r: string)
    ensures |r| == |s|
    ensures forall k {:trigger r[k]} | 0 <= k < |s| && !IsAlpha(s[k]) :: r[k] == s[k]
    ensures forall k {:trigger r[k]} | 0 <= k < |s| && IsAlpha(s[k]) ::
              r[k] == if k > 0 && IsAlpha(s[k - 1]) then LowerChar(s[k]) else UpperChar(s[k])
  {
    seq(|s|, k requires 0 <= k < |s| =>
      if !IsAlpha(s[k]) then s[k]
      else if k > 0 && IsAlpha(s[k - 1]) then LowerChar(s[k])
      else UpperChar(s[k]))
  }
}
