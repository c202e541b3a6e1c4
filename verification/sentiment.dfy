/** The news gate: the mean polarity of up to five recent headlines, and a
    filter that blocks buy rows whose mean is below -0.15. The headline source
    and the polarity scorer are parameters. */
module Sentiment {
  import opened Wrappers
  import opened Numerics
  import opened Seqs
  import opened Technical
  import opened Portfolio

  const HeadlinesRead: nat := 5
  const BlockBelow: real := -0.15

  /** A headline counts only when its title is non-empty (a missing title reads
      as the empty string). */
  predicate HasTitle(title: string) {
    title != ""
  }

  /** The headlines looked at: the first five, or all when there are fewer. */
  function Leading(titles: seq<string>): (l: seq<string>)
    ensures |l| <= HeadlinesRead && l <= titles
    ensures |titles| >= HeadlinesRead ==> |l| == HeadlinesRead
    ensures |titles| < HeadlinesRead ==> l == titles
  {
    titles[..if |titles| < HeadlinesRead then |titles| else HeadlinesRead]
  }

  /** The titles that are scored: the non-empty ones among the first five. */
  function Counted(titles: seq<string>): (c: seq<string>)
    ensures |c| <= HeadlinesRead
    ensures forall t :: t in c <==> t in Leading(titles) && HasTitle(t)
  {
    Filter(Leading(titles), HasTitle)
  }

  /** Every non-empty title among the first five is scored as often as it
      appears there; an empty title never is. */
  lemma CountedMultiset(titles: seq<string>)
    ensures forall t :: multiset(Counted(titles))[t] == if HasTitle(t) then multiset(Leading(titles))[t] else 0
  {
    FilterMultiset(Leading(titles), HasTitle);
  }

  function Polarities(titles: seq<string>, polarity: string -> real): (ps: seq<real>)
    ensures |ps| == |titles| && forall i :: 0 <= i < |titles| ==> ps[i] == polarity(titles[i])
  {
    seq(|titles|, i requires 0 <= i < |titles| => polarity(titles[i]))
  }

  datatype NewsScore = NewsScore(score: real, headlines: seq<string>)

  /** `get_news_sentiment`: `news` is `None` when the fetch raised, and every
      such error, an empty feed or a feed without titles scores a neutral 0. */
  function NewsSentiment(news: Option<seq<string>>, polarity: string -> real): (n: NewsScore)
    ensures news.None? || news.value == [] ==> n == NewsScore(0.0, [])
    ensures news.Some? ==> n.headlines == Counted(news.value)
    ensures n.headlines != [] ==> n.score * |n.headlines| as real == Sum(Polarities(n.headlines, polarity))
    ensures n.headlines == [] ==> n.score == 0.0
  {
    if news.None? || news.value == [] then NewsScore(0.0, [])
    else
      var counted := Counted(news.value);
      if |counted| == 0 then NewsScore(0.0, [])
      else NewsScore(Sum(Polarities(counted, polarity)) / |counted| as real, counted)
  }

  /** The mean of polarities in [-1, 1] stays in [-1, 1]. */
  lemma ScoreInRange(news: Option<seq<string>>, polarity: string -> real)
    requires forall t: string :: -1.0 <= polarity(t) <= 1.0
    ensures -1.0 <= NewsSentiment(news, polarity).score <= 1.0
  {
    var n := NewsSentiment(news, polarity);
    if n.headlines != [] {
      var ps := Polarities(n.headlines, polarity);
      SumBounds(ps, -1.0, 1.0);
      var k := |n.headlines| as real;
      assert n.score * k <= k && n.score * k >= -k;
    }
  }

  /** A blocked row always has a headline to show, so the source's
      `headlines[0]` cannot fail. */
  lemma BlockedHasHeadline(news: Option<seq<string>>, polarity: string -> real)
    requires NewsSentiment(news, polarity).score < BlockBelow
    ensures |NewsSentiment(news, polarity).headlines| > 0
  {
  }

  /** Kept unless the news is negative; exactly -0.15 passes. */
  predicate Approved(rec: Recommendation, news: string -> Option<seq<string>>, polarity: string -> real) {
    !(NewsSentiment(news(YahooSymbol(rec.ticker)), polarity).score < BlockBelow)
  }

  /** `filter_stocks`: the buy rows not blocked by their news, in order. */
  function FilterStocks(buys: seq<Recommendation>, news: string -> Option<seq<string>>, polarity: string -> real)
    : (r: seq<Recommendation>)
    ensures forall b :: b in r <==> b in buys && Approved(b, news, polarity)
    ensures IsSubsequence(r, buys)
  {
    FilterIsSubsequence(buys, (b: Recommendation) => Approved(b, news, polarity));
    Filter(buys, (b: Recommendation) => Approved(b, news, polarity))
  }

  /** Rows with no news at all are never blocked. */
  lemma SilentNewsPasses(buys: seq<Recommendation>, news: string -> Option<seq<string>>, polarity: string -> real)
    requires forall i :: 0 <= i < |buys| ==> news(YahooSymbol(buys[i].ticker)) == None
    ensures FilterStocks(buys, news, polarity) == buys
  {
    FilterKeepsAll(buys, (b: Recommendation) => Approved(b, news, polarity));
  }

  /** The threshold is strict: a mean of exactly -0.15 is approved. */
  lemma BoundaryApproved(polarity: string -> real)
    requires polarity("bad") == -0.15
    ensures NewsSentiment(Some(["bad"]), polarity) == NewsScore(-0.15, ["bad"])
    ensures !(NewsSentiment(Some(["bad"]), polarity).score < BlockBelow)
  {
    assert ["bad"][..1] == ["bad"];
    assert Filter(["bad"][1..], HasTitle) == [];
    assert Counted(["bad"]) == ["bad"];
    var ps := Polarities(["bad"], polarity);
    assert ps == [-0.15];
    assert Sum(ps) == Sum([]) + -0.15;
  }
}
