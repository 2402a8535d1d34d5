/**
 * The two summary helpers of the report listener: the check an LLM-written
 * summary must pass (isValidSummary) and the template summary used otherwise
 * (buildSimpleSummary). Counts are rendered by `String.valueOf(long)` and money
 * with two decimals and a point, from integer cents.
 */
module Summary {
  import opened Base
  import opened JavaString
  import opened Words
  import opened Numerals
  import opened Aggregation

  /** The word limit both helpers apply. */
  const MaxWords := 120

  /** `text.trim().split("\\s+").length`. */
  function WordCount(t: string): nat {
    |Split(Trim(t))|
  }

  /**
   * The text names at least one figure of the aggregates: a non-blank top sku,
   * a non-blank top branch, the unit total, or the revenue with two decimals.
   */
  predicate Mentions(t: string, agg: Aggregates) {
    || (agg.topSku.Some? && !IsBlank(agg.topSku.value) && Contains(t, agg.topSku.value))
    || (agg.topBranch.Some? && !IsBlank(agg.topBranch.value) && Contains(t, agg.topBranch.value))
    || Contains(t, LongText(agg.totalUnits))
    || Contains(t, Money2(agg.totalRevenueCents))
  }

  /**
   * isValidSummary: a null or blank text fails, a text of more than 120 words
   * fails, and otherwise the four mentions are tried in order.
   */
  function IsValidSummary(text: Option<string>, agg: Aggregates): (b: bool)
    ensures b ==> text.Some? && !IsBlank(text.value) && WordCount(text.value) <= MaxWords
    ensures b ==> Mentions(text.value, agg)
    ensures (text.Some? && !IsBlank(text.value) && WordCount(text.value) <= MaxWords
             && Contains(text.value, LongText(agg.totalUnits))) ==> b
  {
    if text.None? || IsBlank(text.value) then false
    else if WordCount(text.value) > MaxWords then false
    else if agg.topSku.Some? && !IsBlank(agg.topSku.value) && Contains(text.value, agg.topSku.value) then true
    else if agg.topBranch.Some? && !IsBlank(agg.topBranch.value) && Contains(text.value, agg.topBranch.value) then true
    else if Contains(text.value, LongText(agg.totalUnits)) then true
    else Contains(text.value, Money2(agg.totalRevenueCents))
  }

  /** The order of the checks does not matter: a text passes exactly when it is present, non-blank, short enough, and mentions a figure. */
  lemma IsValidSummaryIff(text: Option<string>, agg: Aggregates)
    ensures IsValidSummary(text, agg) <==>
      (text.Some? && !IsBlank(text.value) && WordCount(text.value) <= MaxWords && Mentions(text.value, agg))
  {
  }

  /** A text of more than 120 words is refused, whatever it mentions. */
  lemma LongTextRefused(t: string, agg: Aggregates)
    requires WordCount(t) > MaxWords
    ensures !IsValidSummary(Some(t), agg)
  {
  }

  /** The words of "Se vendieron %d unidades en el periodo." */
  function HeadlineWords(units: int): seq<string> {
    ["Se", "vendieron", LongText(units), "unidades", "en", "el", "periodo."]
  }

  /** "Se vendieron %d unidades en el periodo." */
  function Headline(units: int): string {
    Join(HeadlineWords(units))
  }

  /** "Ingresos totales: %.2f." */
  function RevenueLine(cents: int): string {
    Join(["Ingresos", "totales:", Money2(cents) + "."])
  }

  /** "SKU más vendido: %s." */
  function SkuLine(sku: string): string {
    Join(["SKU", "más", "vendido:", sku + "."])
  }

  /** "Sucursal destacada: %s." */
  function BranchLine(branch: string): string {
    Join(["Sucursal", "destacada:", branch + "."])
  }

  /** The sentences of the summary: the sku and branch sentences only when those are present. */
  function Sentences(agg: Aggregates): seq<string> {
    [Headline(agg.totalUnits), RevenueLine(agg.totalRevenueCents)]
    + (if agg.topSku.Some? then [SkuLine(agg.topSku.value)] else [])
    + (if agg.topBranch.Some? then [BranchLine(agg.topBranch.value)] else [])
  }

  /** The whole template, sentences separated by one space, before any truncation. */
  function FullSummary(agg: Aggregates): string {
    Join(Sentences(agg))
  }

  /** The fixed words of the headline are words. */
  lemma HeadlineFixedWords()
    ensures IsWord("Se") && IsWord("vendieron") && IsWord("unidades") && IsWord("en") && IsWord("el") && IsWord("periodo.")
  {
  }

  /** Seven words, listed. */
  lemma SevenWords(a: string, b: string, c: string, d: string, e: string, f: string, g: string)
    requires IsWord(a) && IsWord(b) && IsWord(c) && IsWord(d) && IsWord(e) && IsWord(f) && IsWord(g)
    ensures AllWords([a, b, c, d, e, f, g])
  {
  }

  lemma HeadlineTokens(units: int)
    ensures AllWords(HeadlineWords(units))
    ensures Tokens(Headline(units)) == HeadlineWords(units)
    ensures Headline(units) != [] && Headline(units)[0] == 'S'
  {
    var ws := HeadlineWords(units);
    LongTextIsWord(units);
    HeadlineFixedWords();
    SevenWords(ws[0], ws[1], ws[2], ws[3], ws[4], ws[5], ws[6]);
    assert ws == [ws[0], ws[1], ws[2], ws[3], ws[4], ws[5], ws[6]];
    TokensJoin(ws);
    JoinFirst(ws);
  }

  /** The template starts with the headline and ends with a full stop. */
  lemma FullSummaryShape(agg: Aggregates)
    ensures |Sentences(agg)| >= 2 && Sentences(agg)[0] == Headline(agg.totalUnits)
    ensures FullSummary(agg) == Headline(agg.totalUnits) + " " + Join(Sentences(agg)[1..])
    ensures FullSummary(agg) != [] && FullSummary(agg)[0] == 'S'
    ensures FullSummary(agg)[|FullSummary(agg)| - 1] == '.'
  {
    var ps := Sentences(agg);
    HeadlineTokens(agg.totalUnits);
    JoinFirst(ps);
    var last := ps[|ps| - 1];
    var ws := if agg.topBranch.Some? then ["Sucursal", "destacada:", agg.topBranch.value + "."]
      else if agg.topSku.Some? then ["SKU", "más", "vendido:", agg.topSku.value + "."]
      else ["Ingresos", "totales:", Money2(agg.totalRevenueCents) + "."];
    assert last == Join(ws);
    JoinLast(ws);
    JoinLast(ps);
  }

  /** The tokens of the template are the headline's words, then the other sentences' tokens. */
  lemma FullSummaryTokens(agg: Aggregates)
    ensures Tokens(FullSummary(agg)) == HeadlineWords(agg.totalUnits) + Tokens(Join(Sentences(agg)[1..]))
  {
    FullSummaryShape(agg);
    HeadlineTokens(agg.totalUnits);
    TokensSpaced(Headline(agg.totalUnits), Join(Sentences(agg)[1..]));
  }

  /** Cutting a list of words that starts with seven given ones to 120 keeps those seven first. */
  lemma CutWords(words: seq<string>, hw: seq<string>, rest: seq<string>)
    requires words == hw + rest && |hw| == 7 && |words| > MaxWords && AllWords(words)
    ensures AllWords(words[..MaxWords])
    ensures exists more: seq<string> :: more != [] && words[..MaxWords] == hw + more
  {
    var more := rest[..MaxWords - 7];
    assert words[..MaxWords] == hw + more;
  }

  /** The first 120 words of a long template begin with the headline's words. */
  lemma TruncatedWords(agg: Aggregates, words: seq<string>)
    requires words == Split(FullSummary(agg)) && |words| > MaxWords
    ensures AllWords(words[..MaxWords])
    ensures exists more: seq<string> :: more != [] && words[..MaxWords] == HeadlineWords(agg.totalUnits) + more
  {
    var full := FullSummary(agg);
    FullSummaryShape(agg);
    SplitUnspaced(full);
    FullSummaryTokens(agg);
    CutWords(words, HeadlineWords(agg.totalUnits), Tokens(Join(Sentences(agg)[1..])));
  }

  /** A join of words that begins with the headline's words begins with the headline. */
  lemma JoinFromHeadline(units: int, w: seq<string>, more: seq<string>)
    requires more != [] && w == HeadlineWords(units) + more
    ensures StartsWith(Join(w), Headline(units))
  {
    JoinAppend(HeadlineWords(units), more);
  }

  /** Appending " ..." to a join of words adds the single token "...". */
  lemma TokensWithEllipsis(w: seq<string>)
    requires w != [] && AllWords(w)
    ensures Tokens(Join(w) + " ...") == w + ["..."]
  {
    var e := "...";
    assert IsWord(e);
    assert Join(w) + " ..." == Join(w) + " " + e;
    TokensSpaced(Join(w), e);
    TokensJoin(w);
    TokensOfWord(e);
  }

  /** Cutting a long template to its first 120 words and "...": the text, its tokens and its ends. */
  lemma TruncatedShape(agg: Aggregates, words: seq<string>)
    requires words == Split(FullSummary(agg)) && |words| > MaxWords
    ensures var t := Join(words[..MaxWords]) + " ...";
      && Trim(t) == t
      && StartsWith(t, Headline(agg.totalUnits))
      && Tokens(t) == words[..MaxWords] + ["..."]
      && t[0] == 'S' && t[|t| - 1] == '.'
  {
    var w := words[..MaxWords];
    TruncatedWords(agg, words);
    var more :| more != [] && w == HeadlineWords(agg.totalUnits) + more;
    JoinFromHeadline(agg.totalUnits, w, more);
    HeadlineTokens(agg.totalUnits);
    var h := Headline(agg.totalUnits);
    var t := Join(w) + " ...";
    assert t[..|h|] == Join(w)[..|h|];
    assert t[0] == h[0];
    TrimOfTrimmed(t);
    TokensWithEllipsis(w);
  }

  /**
   * buildSimpleSummary: the template; when it has more than 120 words, its
   * first 120 words joined by single spaces, then "...".
   */
  function BuildSimpleSummary(agg: Aggregates): (r: string)
    ensures StartsWith(r, Headline(agg.totalUnits))
    ensures r != [] && r[0] == 'S' && r[|r| - 1] == '.'
    ensures |Tokens(FullSummary(agg))| <= MaxWords ==> r == FullSummary(agg)
    ensures |Tokens(FullSummary(agg))| > MaxWords ==> Tokens(r) == Tokens(FullSummary(agg))[..MaxWords] + ["..."]
  {
    var full := FullSummary(agg);
    FullSummaryShape(agg);
    SplitUnspaced(full);
    var words := Split(full);
    if |words| > MaxWords then
      TruncatedShape(agg, words);
      Trim(Join(words[..MaxWords]) + " ...")
    else
      full
  }

  /** The summary is already trimmed and splits into its tokens. */
  lemma SummaryWordCount(agg: Aggregates)
    ensures WordCount(BuildSimpleSummary(agg)) == |Tokens(BuildSimpleSummary(agg))|
  {
    var r := BuildSimpleSummary(agg);
    TrimOfTrimmed(r);
    SplitUnspaced(r);
  }

  /** The fixed end of the headline, joined. */
  lemma HeadlineTailJoin()
    ensures Join(["unidades", "en", "el", "periodo."]) == "unidades" + " " + ("en" + " " + ("el" + " " + "periodo."))
  {
    JoinCons("el", ["periodo."]);
    assert ["el"] + ["periodo."] == ["el", "periodo."];
    JoinCons("en", ["el", "periodo."]);
    assert ["en"] + ["el", "periodo."] == ["en", "el", "periodo."];
    JoinCons("unidades", ["en", "el", "periodo."]);
    assert ["unidades"] + ["en", "el", "periodo."] == ["unidades", "en", "el", "periodo."];
  }

  /** The characters of the headline's fixed end. */
  lemma HeadlineTailChars()
    ensures " " + ("unidades" + " " + ("en" + " " + ("el" + " " + "periodo."))) == " unidades en el periodo."
  {
  }

  /** The characters of the headline's fixed start. */
  lemma HeadlineHeadChars()
    ensures "Se" + " " + "vendieron" + " " == "Se vendieron "
  {
  }

  /** Three words in front of a joined tail, regrouped around the third. */
  lemma Regroup(a: string, b: string, n: string, j: string)
    ensures a + " " + (b + " " + (n + " " + j)) == (a + " " + b + " ") + n + (" " + j)
  {
  }

  /** The headline's words around the unit total. */
  lemma HeadlineJoin(n: string)
    ensures Join(["Se", "vendieron", n, "unidades", "en", "el", "periodo."])
         == "Se" + " " + ("vendieron" + " " + (n + " " + Join(["unidades", "en", "el", "periodo."])))
  {
    var tail := ["unidades", "en", "el", "periodo."];
    var ws1 := [n] + tail;
    JoinCons(n, tail);
    var ws2 := ["vendieron"] + ws1;
    JoinCons("vendieron", ws1);
    JoinCons("Se", ws2);
    assert ["Se"] + ws2 == ["Se", "vendieron", n, "unidades", "en", "el", "periodo."];
  }

  /** The headline is the sentence "Se vendieron %d unidades en el periodo." */
  lemma HeadlineText(units: int)
    ensures Headline(units) == "Se vendieron " + LongText(units) + " unidades en el periodo."
  {
    var n := LongText(units);
    var j := Join(["unidades", "en", "el", "periodo."]);
    HeadlineJoin(n);
    Regroup("Se", "vendieron", n, j);
    HeadlineTailJoin();
    HeadlineTailChars();
    HeadlineHeadChars();
  }

  /** A text that starts with the headline states the unit total. */
  lemma HeadlineMentionsUnits(r: string, units: int)
    requires StartsWith(r, Headline(units))
    ensures Contains(r, LongText(units))
  {
    var h := Headline(units);
    var n := LongText(units);
    var pre, post := "Se vendieron ", " unidades en el periodo.";
    HeadlineText(units);
    assert r == h + r[|h|..];
    assert r == pre + n + (post + r[|h|..]);
    ContainsInfix(pre, n, post + r[|h|..]);
  }

  /**
   * The template summary passes the LLM check exactly when it was not cut:
   * a cut summary has 121 words, one more than the check allows.
   */
  lemma SimpleSummaryValidIffUncut(agg: Aggregates)
    ensures IsValidSummary(Some(BuildSimpleSummary(agg)), agg) <==> |Tokens(FullSummary(agg))| <= MaxWords
  {
    var r := BuildSimpleSummary(agg);
    SummaryWordCount(agg);
    if |Tokens(FullSummary(agg))| <= MaxWords {
      assert WordCount(r) <= MaxWords;
      NotBlankByFirst(r);
      HeadlineMentionsUnits(r, agg.totalUnits);
    } else {
      assert |Tokens(r)| == MaxWords + 1;
    }
  }

  /** The revenue sentence is three words. */
  lemma RevenueLineTokens(cents: int)
    ensures |Tokens(RevenueLine(cents))| == 3
  {
    Money2IsWord(cents);
    var m := Money2(cents) + ".";
    assert IsWord(m);
    TokensJoin(["Ingresos", "totales:", m]);
  }

  /** With a name free of whitespace, the sku sentence is four words and the branch sentence three. */
  lemma NameSentenceTokens(name: string)
    requires SpaceFree(name)
    ensures |Tokens(SkuLine(name))| == 4 && |Tokens(BranchLine(name))| == 3
  {
    var w := name + ".";
    assert IsWord(w);
    TokensJoin(["SKU", "más", "vendido:", w]);
    TokensJoin(["Sucursal", "destacada:", w]);
  }

  /** With a top sku and a top branch free of whitespace, the template has at most 28 words. */
  lemma PlainNamesShort(agg: Aggregates)
    requires agg.topSku.Some? ==> SpaceFree(agg.topSku.value)
    requires agg.topBranch.Some? ==> SpaceFree(agg.topBranch.value)
    ensures |Tokens(FullSummary(agg))| <= MaxWords
  {
    var ps := Sentences(agg);
    HeadlineTokens(agg.totalUnits);
    RevenueLineTokens(agg.totalRevenueCents);
    if agg.topSku.Some? {
      NameSentenceTokens(agg.topSku.value);
    }
    if agg.topBranch.Some? {
      NameSentenceTokens(agg.topBranch.value);
    }
    forall i | 0 <= i < |ps|
      ensures |Tokens(ps[i])| <= 7
    {
    }
    PartTokensBound(ps, 7);
    TokensOfJoin(ps);
  }

  /**
   * With a top sku and a top branch free of whitespace the template is never
   * cut, and it always passes the LLM check.
   */
  lemma PlainNamesNeverCut(agg: Aggregates)
    requires agg.topSku.Some? ==> SpaceFree(agg.topSku.value)
    requires agg.topBranch.Some? ==> SpaceFree(agg.topBranch.value)
    ensures BuildSimpleSummary(agg) == FullSummary(agg)
    ensures IsValidSummary(Some(BuildSimpleSummary(agg)), agg)
  {
    PlainNamesShort(agg);
    SimpleSummaryValidIffUncut(agg);
  }

  /** Two words in front of a third, regrouped. */
  lemma RegroupLast(a: string, b: string, x: string, y: string)
    ensures a + " " + (b + " " + (x + y)) == (a + " " + b + " ") + x + y
  {
  }

  /** The characters of the revenue sentence's fixed start. */
  lemma RevenueHeadChars()
    ensures "Ingresos" + " " + "totales:" + " " == "Ingresos totales: "
  {
  }

  /** The revenue sentence is "Ingresos totales: %.2f." */
  lemma RevenueLineText(cents: int)
    ensures RevenueLine(cents) == "Ingresos totales: " + Money2(cents) + "."
  {
    var m := Money2(cents);
    JoinCons("totales:", [m + "."]);
    assert ["totales:"] + [m + "."] == ["totales:", m + "."];
    JoinCons("Ingresos", ["totales:", m + "."]);
    assert ["Ingresos"] + ["totales:", m + "."] == ["Ingresos", "totales:", m + "."];
    RegroupLast("Ingresos", "totales:", m, ".");
    RevenueHeadChars();
  }

  /** Without a top sku or branch the template is the headline and the revenue sentence. */
  lemma TwoSentenceSummary(agg: Aggregates)
    requires agg.topSku.None? && agg.topBranch.None?
    ensures FullSummary(agg) == Headline(agg.totalUnits) + " " + RevenueLine(agg.totalRevenueCents)
  {
    var ps := Sentences(agg);
    assert ps == [Headline(agg.totalUnits), RevenueLine(agg.totalRevenueCents)];
    assert ps[1..] == [RevenueLine(agg.totalRevenueCents)];
    FullSummaryShape(agg);
  }

  lemma ZeroNumerals()
    ensures LongText(0) == "0" && Money2(0) == "0.00"
  {
  }

  /** The characters of the headline with a zero total. */
  lemma ZeroHeadlineChars()
    ensures "Se vendieron " + "0" + " unidades en el periodo." == "Se vendieron 0 unidades en el periodo."
  {
  }

  /** The characters of the revenue sentence with zero revenue. */
  lemma ZeroRevenueChars()
    ensures "Ingresos totales: " + "0.00" + "." == "Ingresos totales: 0.00."
  {
  }

  /** With no units sold the headline reads "Se vendieron 0 unidades en el periodo." */
  lemma ZeroHeadline()
    ensures Headline(0) == "Se vendieron 0 unidades en el periodo."
  {
    ZeroNumerals();
    HeadlineText(0);
    ZeroHeadlineChars();
  }

  /** With no revenue the revenue sentence reads "Ingresos totales: 0.00." */
  lemma ZeroRevenueLine()
    ensures RevenueLine(0) == "Ingresos totales: 0.00."
  {
    ZeroNumerals();
    RevenueLineText(0);
    ZeroRevenueChars();
  }

  /** With zero totals and no top sku or branch, the summary is the two fixed sentences with zeros. */
  lemma ZeroSummary(agg: Aggregates)
    requires agg.totalUnits == 0 && agg.totalRevenueCents == 0 && agg.topSku.None? && agg.topBranch.None?
    ensures BuildSimpleSummary(agg) == Headline(0) + " " + RevenueLine(0)
    ensures Headline(0) == "Se vendieron 0 unidades en el periodo." && RevenueLine(0) == "Ingresos totales: 0.00."
  {
    PlainNamesNeverCut(agg);
    TwoSentenceSummary(agg);
    ZeroHeadline();
    ZeroRevenueLine();
  }

  /** With no sales the summary is the two fixed sentences with zeros. */
  lemma EmptySummary()
    ensures BuildSimpleSummary(Aggregate([])) == Headline(0) + " " + RevenueLine(0)
  {
    EmptyAggregate();
    ZeroSummary(Aggregate([]));
  }
}
