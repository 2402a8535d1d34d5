/**
 * Whitespace-separated words, as both summary helpers count them with
 * `String.split("\\s+")`, and the single-space join that rebuilds a text
 * from its words.
 */
module Words {
  import opened JavaString

  /** No character of `w` is a `\s` character. */
  predicate SpaceFree(w: string) {
    forall i :: 0 <= i < |w| ==> !IsRegexSpace(w[i])
  }

  /** A word: a non-empty run of non-`\s` characters. */
  predicate IsWord(w: string) {
    w != [] && SpaceFree(w)
  }

  predicate AllWords(ws: seq<string>) {
    forall i :: 0 <= i < |ws| ==> IsWord(ws[i])
  }

  /** The longest prefix of `s` without a `\s` character. */
  function WordPrefix(s: string): (r: string)
    ensures |r| <= |s| && r == s[..|r|]
    ensures SpaceFree(r)
    ensures |r| == |s| || IsRegexSpace(s[|r|])
  {
    if s == [] || IsRegexSpace(s[0]) then [] else [s[0]] + WordPrefix(s[1..])
  }

  /** The maximal runs of non-`\s` characters of `s`, left to right. */
  function Tokens(s: string): (r: seq<string>)
    ensures AllWords(r)
    decreases |s|
  {
    if s == [] then []
    else if IsRegexSpace(s[0]) then Tokens(s[1..])
    else
      var w := WordPrefix(s);
      [w] + Tokens(s[|w|..])
  }

  /** Words separated by single spaces. */
  function Join(ws: seq<string>): string {
    if ws == [] then []
    else if |ws| == 1 then ws[0]
    else ws[0] + " " + Join(ws[1..])
  }

  /**
   * `String.split("\\s+")` with Java's rules: a string with no match is
   * returned whole (so "" gives [""]), a leading separator yields a leading
   * empty string, and trailing empty strings are dropped.
   */
  function Split(s: string): seq<string> {
    if s == [] then [""]
    else if Tokens(s) == [] then []
    else (if IsRegexSpace(s[0]) then [""] else []) + Tokens(s)
  }

  /** A word on its own is its only token. */
  lemma TokensOfWord(w: string)
    requires IsWord(w)
    ensures Tokens(w) == [w]
  {
    assert WordPrefix(w) == w;
    assert w[|w|..] == [];
  }

  /** A space ends the first word: the word prefix of `a + " " + b` lies in `a`. */
  lemma {:induction false} WordPrefixSpaced(a: string, b: string)
    ensures WordPrefix(a + " " + b) == WordPrefix(a)
    decreases |a|
  {
    if a != [] && !IsRegexSpace(a[0]) {
      assert (a + " " + b)[1..] == a[1..] + " " + b;
      WordPrefixSpaced(a[1..], b);
    }
  }

  /** Tokenising distributes over a single separating space. */
  lemma {:induction false} TokensSpaced(a: string, b: string)
    ensures Tokens(a + " " + b) == Tokens(a) + Tokens(b)
    decreases |a|
  {
    var s := a + " " + b;
    if a == [] {
      assert s[1..] == b;
    } else if IsRegexSpace(a[0]) {
      assert s[1..] == a[1..] + " " + b;
      TokensSpaced(a[1..], b);
    } else {
      var w := WordPrefix(a);
      WordPrefixSpaced(a, b);
      assert s[|w|..] == a[|w|..] + " " + b;
      TokensSpaced(a[|w|..], b);
    }
  }

  /** Splitting a single-space join of words gives the words back. */
  lemma {:induction false} TokensJoin(ws: seq<string>)
    requires AllWords(ws)
    ensures Tokens(Join(ws)) == ws
    decreases |ws|
  {
    if ws == [] {
    } else if |ws| == 1 {
      TokensOfWord(ws[0]);
    } else {
      TokensSpaced(ws[0], Join(ws[1..]));
      TokensOfWord(ws[0]);
      TokensJoin(ws[1..]);
    }
  }

  /** Joining two non-empty word lists puts one space between the two joins. */
  lemma {:induction false} JoinAppend(xs: seq<string>, ys: seq<string>)
    requires xs != [] && ys != []
    ensures Join(xs + ys) == Join(xs) + " " + Join(ys)
    decreases |xs|
  {
    if |xs| == 1 {
      assert (xs + ys)[1..] == ys;
    } else {
      assert (xs + ys)[1..] == xs[1..] + ys;
      JoinAppend(xs[1..], ys);
    }
  }

  /** A text that does not start with `\s` splits into exactly its tokens. */
  lemma SplitUnspaced(s: string)
    requires s != [] && !IsRegexSpace(s[0])
    ensures Split(s) == Tokens(s)
  {
  }

  /** `split("\\s+")` is a left inverse of the single-space join. */
  lemma SplitJoin(ws: seq<string>)
    requires ws != [] && AllWords(ws)
    ensures Split(Join(ws)) == ws
  {
    TokensJoin(ws);
    assert Join(ws) != [] && !IsRegexSpace(Join(ws)[0]) by {
      JoinStartsWithFirst(ws);
    }
  }

  /** The join of words starts with the first word. */
  lemma {:induction false} JoinStartsWithFirst(ws: seq<string>)
    requires ws != [] && AllWords(ws)
    ensures StartsWith(Join(ws), ws[0])
  {
  }

  /** The tokens of each part, in order: what tokenising a join of arbitrary parts gives. */
  function PartTokens(ps: seq<string>): seq<string> {
    if ps == [] then [] else Tokens(ps[0]) + PartTokens(ps[1..])
  }

  /** Tokenising a single-space join of arbitrary parts tokenises each part. */
  lemma {:induction false} TokensOfJoin(ps: seq<string>)
    ensures Tokens(Join(ps)) == PartTokens(ps)
    decreases |ps|
  {
    if |ps| == 1 {
      assert ps[1..] == [];
    } else if |ps| > 1 {
      TokensSpaced(ps[0], Join(ps[1..]));
      TokensOfJoin(ps[1..]);
    }
  }

  /** Parts of at most `k` tokens each give at most `k` tokens per part. */
  lemma {:induction false} PartTokensBound(ps: seq<string>, k: nat)
    requires forall i :: 0 <= i < |ps| ==> |Tokens(ps[i])| <= k
    ensures |PartTokens(ps)| <= k * |ps|
    decreases |ps|
  {
    if ps != [] {
      PartTokensBound(ps[1..], k);
      assert k * |ps| == k + k * |ps[1..]|;
    }
  }

  /** A join ends with the last character of its last part. */
  lemma {:induction false} JoinLast(ws: seq<string>)
    requires ws != [] && ws[|ws| - 1] != []
    ensures Join(ws) != [] && Join(ws)[|Join(ws)| - 1] == ws[|ws| - 1][|ws[|ws| - 1]| - 1]
    decreases |ws|
  {
    if |ws| > 1 {
      JoinLast(ws[1..]);
    }
  }

  /** A join begins with the first character of its first part. */
  lemma JoinFirst(ws: seq<string>)
    requires ws != [] && ws[0] != []
    ensures Join(ws) != [] && Join(ws)[0] == ws[0][0]
  {
  }

  /** Joining a word in front of a non-empty list puts one space between. */
  lemma JoinCons(w: string, ws: seq<string>)
    requires ws != []
    ensures Join([w] + ws) == w + " " + Join(ws)
  {
    assert ([w] + ws)[1..] == ws;
  }
}
