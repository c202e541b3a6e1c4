# Intelligent Investor (India): a Dafny model of the rule engines

The advisor is a rule-based planner for an Indian retail investor. Under its
data-fetching and display glue sit small deterministic engines. This project
models each engine as pure Dafny functions, plus one method for the greedy
stock allocator, and proves what the rules promise.

- **Asset-allocation planner** (`Personalization`). Equity is 100 − age, moved
  ±10 by risk appetite and clamped to [20, 90]. It is split 70/30 or 40/60
  between direct stocks and mutual funds. The rest goes to debt and gold.
- **Valuation engine** (`Valuation`). Missing-data defaults, a sector-dependent
  value score, the four-check "lite" F-score, and the 0.4/0.2/0.4 blend that
  ranks the universe.
- **Technical engine** (`Technical`). The additive 50/30/20 moving-average score,
  the exchange-suffix rule, and the 14-period RSI over a list of closes.
- **Portfolio manager** (`Portfolio`). Holdings valuation, the sell rules, the
  safety-ETF top-up and the greedy stock loop.
- **Mutual-fund splitter, insurance advisor and financial-health check**
  (`MutualFunds`, `Insurance`, `FinancialHealth`).
- **History and news filters** (`History`, `Sentiment`). Keep/reject decisions
  over fetched statements and headline polarities. Both let a row through when
  data is missing.
- **Helpers.** The ".NS" normalisation of the ticker universe (`Universe`) and
  the PEG fallback of the fundamentals loader (`DataLoader`).
- **Top-level flow** (`Advisor`). The premium-text parsing and capital
  deduction, the stock-budget gate, the RSI timing gate and the equal-weight
  redistribution.

Modelling conventions:

- Python floats are exact `real`s.
- A NaN or missing cell is `Option.None`, and every comparison with it is false
  (`Market.Above`, `Market.Below`, `Market.Exceeds`).
- Python's `round` is round-half-to-even (`Numerics.RoundHalfEven`).
- `astype(int)` truncates toward zero (`Numerics.Truncate`).
- A profile key that may be absent is an `Option`; `Profiles.Lacks` is
  `not profile.get(flag)`.
- Network fetches are parameters of the functions that use them:
  - the statements of a ticker are a `History.Financials` value;
  - its headlines are `Option<seq<string>>`;
  - its closes are `Option<seq<real>>`;
  - every fetch function is applied to the exchange-suffixed symbol, as the
    source does.
- The TextBlob polarity scorer is a `string -> real` parameter.
- The user's y/n answer is a string parameter.

Two behaviours of the code are modelled as written and stated as lemmas:

- The safety top-up deducts the full shortfall from the new capital, even when
  that leaves it negative (`Portfolio.SafetyCanOverspend`).
- The quality F-score counts four checks, so it lies in 0..4. The docstring of
  `calculate_piotroski_f_score_lite` says 0-5; the code is followed
  (`Valuation.FScore`).

## Model

| member | source | states |
|---|---|---|
| Numerics.RoundHalfEven | intelligent_investor_India/src/insurance.py:46 | The result is within 0.5 of the input, is even on an exact tie, and leaves whole numbers unchanged. |
| Numerics.RoundTenths | intelligent_investor_India/src/personalization.py:88-92 | `round(x, 1)`: a whole number of tenths, within 0.05 of x, and x itself when x already is a whole number of tenths. |
| Numerics.RoundHundredths | intelligent_investor_India/main.py:166 | `round(x, 2)`: a whole number of hundredths, within 0.005 of x, and x itself when x already is one. |
| Numerics.Truncate | intelligent_investor_India/main.py:168 | `astype(int)`: the integer toward zero, lying within one unit of x on the side of zero. |
| Text.Lower | intelligent_investor_India/src/valuation.py:54 | Lower-casing keeps the length and maps each character through the ASCII lower-case map. |
| Text.LowerIdempotent | intelligent_investor_India/src/valuation.py:54 | Lower-casing twice is the same as lower-casing once. |
| Text.DecimalString | intelligent_investor_India/src/insurance.py:41 | The decimal text of a number is non-empty and made only of digits. |
| Text.DigitsValueOfDecimal | intelligent_investor_India/main.py:48 | `int()` of the decimal text of n gives back n (round trip). |
| Text.DropCommas | intelligent_investor_India/main.py:47 | `.replace(',', '')` leaves no comma and never lengthens the text. |
| Text.FirstNumber | intelligent_investor_India/main.py:47-48 | `re.findall(r'\d+', ...)[0]`: there is no number exactly when the comma-free text has no digit. |
| Text.FirstNumberIgnoresCommas | intelligent_investor_India/main.py:47 | Commas never change the parsed number, so "12,000" parses like "12000". |
| Text.FirstNumberOfEmbedded | intelligent_investor_India/main.py:47-48 | A number written after a digit-free prefix and before a non-digit parses back to itself. |
| Seqs.Filter | intelligent_investor_India/src/history.py:76-90 | An order-preserving filter: never longer, and an element is in the result iff it is in the input and kept. |
| Seqs.FilterMultiset | intelligent_investor_India/src/history.py:76-90 | A kept element occurs in the result exactly as often as in the input; a rejected one never occurs. |
| Seqs.FilterIsSubsequence | intelligent_investor_India/src/history.py:76-90 | The filter result is a subsequence of the input, so the relative order of kept rows is preserved. |
| Seqs.FilterKeepsAll | intelligent_investor_India/src/sentiment.py:59-79 | When every row passes, the filter returns the input unchanged. |
| Seqs.FilterIdempotent | intelligent_investor_India/src/sentiment.py:59-79 | Filtering an already filtered table again changes nothing. |
| Ranking.Insert | intelligent_investor_India/src/valuation.py:115 | Insertion adds exactly one element, keeping all the others (multiset). |
| Ranking.InsertSorted | intelligent_investor_India/src/valuation.py:115 | Inserting into a non-increasing sequence keeps it non-increasing. |
| Ranking.SortDesc | intelligent_investor_India/src/valuation.py:115 | `sort_values(ascending=False)`: a permutation of the input that is ordered by non-increasing key. |
| Ranking.SortDescIdempotent | intelligent_investor_India/src/valuation.py:115 | Sorting an already sorted sequence returns it unchanged. |
| Personalization.EquityPercent | intelligent_investor_India/src/personalization.py:66-73 | Equity lies in [20, 90]. It equals 100 − age ± 10 inside the caps, and hits each cap exactly when the raw value reaches it. |
| Personalization.Split | intelligent_investor_India/src/personalization.py:76-92 | Safe = 100 − equity. "High" splits equity 70/30 into stocks/funds, anything else 40/60, with no rounding loss. |
| Personalization.GetAssetAllocation | intelligent_investor_India/src/personalization.py:57-92 | With age defaulting to 30 and risk to "Medium", the three buckets sum to exactly 100. Stocks + funds equals the clamped equity, split 70/30 only for exactly "High". Safe is at least 10. |
| Personalization.TenthsExact | intelligent_investor_India/src/personalization.py:88-92 | A whole number of tenths survives `round(·, 1)` unchanged. |
| Personalization.AllocationRounding | intelligent_investor_India/src/personalization.py:82-92 | For a whole-number equity, rounding the 70/30, 40/60 and 100 − e outputs to one decimal changes none of them. |
| Personalization.DefaultsApply | intelligent_investor_India/src/personalization.py:62-63 | A profile without age or risk is planned like a 30-year-old "Medium" one, giving 28/42/30. |
| Personalization.OtherRiskIsMedium | intelligent_investor_India/src/personalization.py:68-70 | Only the exact strings "High" and "Low" move equity; any other string behaves like "Medium". |
| Personalization.YoungHighRiskExample | intelligent_investor_India/src/personalization.py:62-92 | Age 25 with "High" risk gives 85% equity, planned as 59.5/25.5/15. |
| DataLoader.DerivePeg | intelligent_investor_India/data/data_loader.py:18-29 | A provided PEG is kept. Otherwise a PEG is derived iff both P/Es are non-zero, forward < trailing and growth > 5%, and then equals trailing/(growth·100). |
| DataLoader.DerivedPegPositive | intelligent_investor_India/data/data_loader.py:22-27 | Every derived PEG is positive, because the branch conditions force both P/Es positive. |
| DataLoader.DerivePegExample | intelligent_investor_India/data/data_loader.py:24-27 | P/E 30 trailing and 20 forward is 50% growth and gives PEG 0.6. |
| Valuation.Clean | intelligent_investor_India/src/valuation.py:17-26 | Missing P/E, P/B and D/E become 999, missing ROE 0 and missing sector "Unknown". Present values are kept, and margin and PEG stay unfilled. |
| Valuation.CleanData | intelligent_investor_India/src/valuation.py:8-28 | Cleaning is row by row and keeps the row count. |
| Valuation.ClassifyIgnoresCase | intelligent_investor_India/src/valuation.py:54 | Sector matching ignores letter case. |
| Valuation.ClassifyOrder | intelligent_investor_India/src/valuation.py:59-83 | The bank branch is taken iff the lower-cased sector mentions "financial" or "bank". The later branches require their own keywords. |
| Valuation.FinancialServicesIsFinancial | intelligent_investor_India/src/valuation.py:59-76 | "Financial Services" takes the bank branch, although it also mentions "services". |
| Valuation.FinancialScore | intelligent_investor_India/src/valuation.py:60-64 | The bank branch scores between 30 (its base) and 100. |
| Valuation.RealEstateScore | intelligent_investor_India/src/valuation.py:67-70 | The real-estate branch scores in [0, 100]. |
| Valuation.TechnologyScore | intelligent_investor_India/src/valuation.py:73-76 | The technology branch scores in [0, 100]. |
| Valuation.GeneralScore | intelligent_investor_India/src/valuation.py:79-83 | The general branch scores in [0, 100]. |
| Valuation.ValueScore | intelligent_investor_India/src/valuation.py:53-85 | The value score is a multiple of 10 in [0, 100] in every branch, and at least 30 for banks. |
| Valuation.BankExample | intelligent_investor_India/src/valuation.py:60-64 | A "Bank" row at P/B 1.2 and ROE 15% scores 100. |
| Valuation.GeneralExample | intelligent_investor_India/src/valuation.py:79-83 | A general row at P/E 30, D/E 50 and ROE 10% scores 30. |
| Valuation.AllDefaultsScoreZero | intelligent_investor_India/src/valuation.py:79-83 | A general row whose four defaulted ratios are all missing scores 0. |
| Valuation.FScore | intelligent_investor_India/src/valuation.py:30-47 | The F-score is in 0..4. It is 4 iff all four checks pass and 0 iff none does. A missing margin and PEG cap it at 2. |
| Valuation.QualityScore | intelligent_investor_India/src/valuation.py:88-89 | The quality score is 25 per F-score point: one of 0, 25, 50, 75, 100, 100 iff F = 4 and 0 iff F = 0. |
| Valuation.Score | intelligent_investor_India/src/valuation.py:109-113 | The row keeps its data, its value score is the sector value score, its quality score the F-score-based one and its tech score the given one. The total is 0.4·value + 0.2·quality + 0.4·tech, in [0, 100] whenever tech is. |
| Valuation.BlendRows | intelligent_investor_India/src/valuation.py:96-113 | Row i is exactly the scoring of input row i with the i-th tech score, or 0 without a tech column. Totals are in [0, 100] when the tech scores are. |
| Valuation.GetBlendedScore | intelligent_investor_India/src/valuation.py:93-115 | The result is a permutation of the blended rows, ordered by non-increasing total score. A missing tech column scores 0, and totals are bounded as above. |
| Valuation.RerankIsIdentity | intelligent_investor_India/src/valuation.py:115 | Ranking an already ranked table changes nothing. |
| Technical.Indicators | intelligent_investor_India/src/technical.py:16-40 | Uptrend iff price > 200-day average. The score is a multiple of 10 in [0, 100] and is 100 iff all three comparisons hold. Without a 200-day column a row is never Uptrend; without a 50-day column the score is 0 or 50. |
| Technical.AddTechnicalIndicators | intelligent_investor_India/src/technical.py:9-42 | The indicators are computed row by row and keep the row count. |
| Technical.YahooSymbol | intelligent_investor_India/src/technical.py:50-51 | The result ends in ".NS" or ".BO". A suffixed ticker is unchanged; any other gets ".NS" appended. |
| Technical.YahooSymbolIdempotent | intelligent_investor_India/src/technical.py:50-51 | Applying the suffix rule twice is the same as once. |
| Technical.Deltas | intelligent_investor_India/src/technical.py:60 | One change fewer than closes, and each close plus its change is the next close. |
| Technical.AverageGain | intelligent_investor_India/src/technical.py:61 | The mean gain over the window is non-negative. |
| Technical.AverageLoss | intelligent_investor_India/src/technical.py:62 | The mean loss over the window is non-negative. |
| Technical.Rsi | intelligent_investor_India/src/technical.py:57-67 | Fewer than period + 1 closes gives 50. Any value lies in [0, 100]; it is below 100 when there were losses and exactly 100 with gains but no losses. NaN happens iff both averages are 0. |
| Technical.RsiIsGainShare | intelligent_investor_India/src/technical.py:60-65 | With losses present, 100 − 100/(1 + gain/loss) equals the closed form 100·gain/(gain + loss). |
| Technical.GainsMinusLosses | intelligent_investor_India/src/technical.py:60-62 | Splitting every change into its gain and loss parts loses nothing: total gains minus total losses is the total change. |
| Technical.Telescope | intelligent_investor_India/src/technical.py:60 | The day-over-day changes of a run of closes add up to its last close minus its first. |
| Technical.AverageDifferenceIsDrift | intelligent_investor_India/src/technical.py:60-62 | Average gain minus average loss is the price move over the window divided by the period. |
| Technical.RsiAboveNeutralIffRose | intelligent_investor_India/src/technical.py:57-67 | Whenever the RSI is a number, it is above 50 exactly when the last close is above the close `period` days earlier. |
| Technical.GetRsi | intelligent_investor_India/src/technical.py:49-70 | A failed fetch is neutral (50); otherwise the result is the RSI of the fetched closes. |
| Universe.WithNseSuffix | intelligent_investor_India/config/universe.py:22 | The result always ends in ".NS". A ".NS" symbol is unchanged; any other, ".BO" included, gets ".NS" appended. |
| Universe.Normalize | intelligent_investor_India/config/universe.py:22 | Normalisation keeps length and order, applying the suffix rule to each symbol. |
| Universe.NormalizeIdempotent | intelligent_investor_India/config/universe.py:22 | Normalising twice is the same as once. |
| Universe.NormalizeKeepsSuffixed | intelligent_investor_India/config/universe.py:22 | A list that is already all ".NS" is unchanged. |
| Universe.GetNifty500Tickers | intelligent_investor_India/config/universe.py:6-28 | A missing file gives the 3-ticker fallback and a read error the empty list. Otherwise the result is the ".NS" normalisation of the file's symbols, one per symbol in file order, each ending in ".NS". |
| Universe.BseSymbolGetsNseSuffix | intelligent_investor_India/config/universe.py:22 | "SBIN.BO" becomes "SBIN.BO.NS". |
| Portfolio.Values | intelligent_investor_India/src/portfolio.py:54 | One shares·avgPrice value per holding, with non-numeric cells counted as 0. |
| Portfolio.ValueMap | intelligent_investor_India/src/portfolio.py:56-58 | The per-ticker map has exactly the holdings' tickers as keys. |
| Portfolio.ValueMapLast | intelligent_investor_India/src/portfolio.py:56-58 | For a duplicated ticker, the map keeps the value of its last row. |
| Portfolio.ValueMapLastAll | intelligent_investor_India/src/portfolio.py:56-58 | Every ticker's map value is the value of its last row. |
| Portfolio.GetCurrentValuation | intelligent_investor_India/src/portfolio.py:43-60 | No holdings gives (0, {}). Otherwise the total is the sum of all row values and the map holds each ticker's last row value. |
| Portfolio.TotalGrowsByNewHolding | intelligent_investor_India/src/portfolio.py:54-58 | Appending a holding adds exactly its value to the total and sets its ticker's map entry. |
| Portfolio.Lookup | intelligent_investor_India/src/portfolio.py:83-86 | A ticker has no scored row iff no row carries it; a found row carries it and comes from the table. |
| Portfolio.SellReasonFor | intelligent_investor_India/src/portfolio.py:94-99 | There is a sell reason iff score < 40, or P/E > 80 and PEG > 4. "Overvalued" is only given to a score of at least 40. |
| Portfolio.PnlPercent | intelligent_investor_India/src/portfolio.py:101-110 | The P&L is defined iff the price is present and avg ≠ 0. It is within half a hundredth of the exact percentage, and has the sign of price − avg when avg > 0. |
| Portfolio.SellOrderFor | intelligent_investor_India/src/portfolio.py:100-111 | The sell row carries the holding's ticker and shares, the reason and the current price. est_value = shares·price exactly when the price is present, and the P&L is as above. |
| Portfolio.SellFor | intelligent_investor_India/src/portfolio.py:72-111 | A holding is sold iff it is not an MF/ETF/Index, has a scored row, and that row has a sell reason. The order's est_value is shares·price. |
| Portfolio.ReviewForSells | intelligent_investor_India/src/portfolio.py:62-113 | At most one sell per holding. Every sell order is the order of a non-safe holding, and every holding that has a sell order contributes it. |
| Portfolio.ReviewForSellsSingleton | intelligent_investor_India/src/portfolio.py:72-111 | Reviewing one holding gives exactly its own sell order, or nothing when it has none. |
| Portfolio.ReviewForSellsAppend | intelligent_investor_India/src/portfolio.py:72-113 | Sells come out in holdings order: reviewing a + b gives the sells of a followed by those of b. |
| Portfolio.NoSellWithoutScoreOrForSafeAssets | intelligent_investor_India/src/portfolio.py:78-84 | Holdings that are all safe assets or unscored produce no sell orders. |
| Portfolio.SafetyBucket | intelligent_investor_India/src/portfolio.py:126-158 | The top-up fires iff 0.2·pool − safe value > 5000. It then emits both the NIFTYBEES and GOLDBEES rows (0.7/0.3 of the shortfall, floor shares at 270/62) and deducts the whole shortfall; otherwise capital is unchanged. |
| Portfolio.SafetyCanOverspend | intelligent_investor_India/src/portfolio.py:134-158 | With 1,000 of new capital, a pool of 101,000 (1,00,000 of it in holdings) and no safe holdings, the shortfall is 20,200 and capital after the top-up is −19,200. |
| Portfolio.TargetPerStock | intelligent_investor_India/src/portfolio.py:166-167 | The target is undefined iff top_n + #holdings = 0. Otherwise it is the smaller of pool/(top_n + #holdings) and capital/3. |
| Portfolio.FloorSharesCost | intelligent_investor_India/src/portfolio.py:186-187 | Whole shares bought with an amount at a positive price never cost more than the amount. |
| Portfolio.BuyDecision | intelligent_investor_India/src/portfolio.py:173-198 | A row is bought iff it is not held above 0.8·target, has a positive price, and floor(min(target − existing, capital)/price) > 0. The buy is exactly that many shares of the row's ticker and sector at its price, costs shares·price (at most the capital and at most target − existing), and has allocation_pct = round(cost/capital·100, 2). |
| Portfolio.SkipStaysSkipped | intelligent_investor_India/src/portfolio.py:183-189 | A row skipped at some capital is still skipped with less capital, because the amount and its floor only shrink. |
| Portfolio.RuleIsSound | intelligent_investor_India/src/portfolio.py:173-198 | The per-row rule keeps the row's ticker, costs between 0 and the capital left, only makes valid buys, and keeps skipping when capital shrinks. |
| Portfolio.GreedyAccounts | intelligent_investor_India/src/portfolio.py:169-198 | After the loop, capital is the starting capital less the cost of the buys; below 2000 at the start nothing is bought. |
| Portfolio.GreedyBounds | intelligent_investor_India/src/portfolio.py:169-198 | With affordable decisions and a non-negative start, the capital left stays between 0 and the start. |
| Portfolio.GreedyValid | intelligent_investor_India/src/portfolio.py:186-198 | When every decision is a valid buy, every buy of the loop is. |
| Portfolio.GreedyInOrder | intelligent_investor_India/src/portfolio.py:169 | The bought tickers are a subsequence of the ranked tickers. |
| Portfolio.GreedyComplete | intelligent_investor_India/src/portfolio.py:169-198 | When the loop ends with at least 2000 left, every row not bought would be skipped with that capital too: nothing buyable is left on the table. |
| Portfolio.BuyLoop | intelligent_investor_India/src/portfolio.py:169-198 | The loop returns exactly the buys and the capital of the row-by-row rule: stop below 2000, otherwise take each ranked row's decision at the capital left and pay for each buy. |
| Portfolio.BuyStocks | intelligent_investor_India/src/portfolio.py:169-198 | The result is the row-by-row rule with `BuyDecision`. Capital = start − spent, nothing is bought below 2000, capital never goes negative, every buy is valid, buys follow the ranking, and with 2000 or more left every row not bought is one `BuyDecision` skips at that capital. |
| Portfolio.BuyableConcat | intelligent_investor_India/src/portfolio.py:144-198 | Safety rows and stock buys together all have whole positive shares at a positive price. |
| Portfolio.SelectAndAllocate | intelligent_investor_India/src/portfolio.py:115-201 | Fails iff top_n + #tickers held = 0. Otherwise the output is the safety rows then the stock buys, and the stock buys and capital left are exactly the row-by-row rule over the table ranked by total score, at the target min(pool/(top_n + #held), capital/3). Stock spending fits the capital left after the top-up, nothing is bought below 2000, buys follow the ranking, and every row has positive shares and price. |
| MutualFunds.RecommendFunds | intelligent_investor_India/src/mutual_funds.py:16-47 | 0, 2 or 4 rows. Index/Flexi halves iff fund capital > 1000, then Liquid/Gold 80/20 iff safe capital > 1000. The amounts sum exactly to the included buckets and are all positive. |
| MutualFunds.FundsDistinct | intelligent_investor_India/src/mutual_funds.py:29-43 | No fund appears twice among the rows. |
| MutualFunds.ExactMinimumSkipped | intelligent_investor_India/src/mutual_funds.py:29 | A bucket of exactly 1,000 is skipped, because the minimum is strict. |
| Insurance.AnnualIncome | intelligent_investor_India/src/insurance.py:6 | Annual income is 12 × monthly income, and 0 when income is missing. |
| Insurance.CalculateNeeds | intelligent_investor_India/src/insurance.py:8-24 | Term cover is 15 × annual income (180 × monthly); health cover is 10 lakh. |
| Insurance.GetRecommendations | intelligent_investor_India/src/insurance.py:26-67 | It fails iff age is missing and a term or health row is due. Rows: Term iff term cover is lacking, then Health and Add-on iff health cover is lacking. Each row has its action, age-based premium text and cover figure. |
| Insurance.TermCoverExample | intelligent_investor_India/src/insurance.py:31-33 | An income of 1,00,000 a month needs 1.8 crore of term cover. |
| FinancialHealth.CheckHealth | intelligent_investor_India/src/financial_health.py:22-64 | Critical iff fund < 6 × expenses, with the emergency alert first and a positive shortfall. Term and health alerts appear iff that cover is lacking, in fixed order, at most 3. Surplus = income − expenses, with missing values as 0. |
| FinancialHealth.CoveredProfileIsHealthy | intelligent_investor_India/src/financial_health.py:35-58 | A fully insured profile with six months saved is healthy, with no alerts. |
| History.GrowthPercent | intelligent_investor_India/src/history.py:53-57 | Growth is 0 for a missing or zero oldest revenue, and NaN only for a missing latest revenue. With a positive oldest revenue it is ≥ 0 iff revenue did not fall. |
| History.CheckStability | intelligent_investor_India/src/history.py:15-72 | Rejected iff statements exist for ≥ 3 years and either income losses or a > 20% revenue collapse occurred; missing, unreadable or short data passes. Rejection for losses happens iff the loss test holds. |
| History.GrowthIsInformational | intelligent_investor_India/src/history.py:49-68 | The oldest revenue, which only feeds the growth message, never changes the verdict. |
| History.CollapseBoundary | intelligent_investor_India/src/history.py:59-66 | 100 → 75 is rejected; 100 → 85 and exactly 100 → 80 pass. |
| History.FilterStocks | intelligent_investor_India/src/history.py:74-90 | A row is kept iff its statements pass, and kept rows stay in their order. |
| History.FetchFailuresPassEverything | intelligent_investor_India/src/history.py:15-32 | When no row's statements could be fetched or read, the filter returns the buy list unchanged. |
| Sentiment.Counted | intelligent_investor_India/src/sentiment.py:29-31 | At most five titles are scored, and a title is scored iff it is non-empty and among the first five. |
| Sentiment.CountedMultiset | intelligent_investor_India/src/sentiment.py:29-45 | A non-empty title among the first five is scored as often as it appears there, and an empty one never, so each repeat weighs in the mean. |
| Sentiment.Polarities | intelligent_investor_India/src/sentiment.py:34-35 | One polarity per title, as the scorer gives it. |
| Sentiment.NewsSentiment | intelligent_investor_India/src/sentiment.py:9-49 | No news or a failed fetch gives (0, []). The counted titles are returned, and the score times their count is their total polarity (the mean); no titled item gives 0. |
| Sentiment.ScoreInRange | intelligent_investor_India/src/sentiment.py:41-45 | The mean lies in [−1, 1] whenever each polarity does. |
| Sentiment.BlockedHasHeadline | intelligent_investor_India/src/sentiment.py:67-70 | A blocked row always has a headline to show. |
| Sentiment.FilterStocks | intelligent_investor_India/src/sentiment.py:51-79 | A row is kept iff its mean polarity is not below −0.15, and kept rows stay in their order. |
| Sentiment.SilentNewsPasses | intelligent_investor_India/src/sentiment.py:21-23 | Rows without any news are never blocked. |
| Sentiment.BoundaryApproved | intelligent_investor_India/src/sentiment.py:67-68 | A mean of exactly −0.15 is approved. |
| Advisor.TotalPremium | intelligent_investor_India/main.py:44-48 | No rows means no premium. |
| Advisor.TotalPremiumAppend | intelligent_investor_India/main.py:44-48 | The premium bill is additive: the bill of a + b is the bill of a plus the bill of b. |
| Advisor.CapitalAfterInsurance | intelligent_investor_India/main.py:35-50 | Capital never grows. It is unchanged iff there are no rows, the answer is not y/Y, or nothing parses; otherwise it drops by exactly the parsed premiums. |
| Advisor.YesInEitherCase | intelligent_investor_India/main.py:43 | "y" and "Y" accept; "yes", "n" and "" do not. |
| Advisor.PremiumTextParses | intelligent_investor_India/main.py:47-48 | A premium text "₹n/year" parses back to n. |
| Advisor.AddOnPremiumParses | intelligent_investor_India/main.py:47-48 | The add-on text "₹3,000/year" parses to 3000. |
| Advisor.TotalPremiumOfThree | intelligent_investor_India/main.py:44-48 | For three rows the total is the sum of their parsed premiums, each missing one counting 0. |
| Advisor.YoungUncoveredPremium | intelligent_investor_India/main.py:43-50 | Under 30 with no cover, the deduction is 12,000 + 15,000 + 3,000 = 30,000. |
| Advisor.StockBudget | intelligent_investor_India/main.py:59 | With a positive stocks share, the budget is positive iff the capital is. |
| Advisor.PremiumsCanExhaustCapital | intelligent_investor_India/main.py:50-63 | A bill of at least the starting capital, once accepted, would stop the plan at the stock-budget gate; the advisor's own rows never bill that much (next rows). |
| Advisor.RowPremium | intelligent_investor_India/src/insurance.py:41-61 | Each insurance row's premium text parses to 3,000 for the add-on and to at most 25,000 for a term or health row. |
| Advisor.InsuranceBillAtMost | intelligent_investor_India/main.py:44-48 | The whole premium bill of the advisor's insurance rows is at most 25,000 + 25,000 + 3,000 = 53,000. |
| Advisor.InsuranceNeverStopsRun | intelligent_investor_India/main.py:35-63 | For every profile the insurance rows are built for, and whatever the y/n answer, the stock budget after the deduction is positive, so the run never stops at the gate. |
| Advisor.RsiGate | intelligent_investor_India/main.py:111-124 | A row is kept iff its RSI is not above 75 (NaN kept), and kept rows stay in their order. |
| Advisor.NoHistoryIsTimely | intelligent_investor_India/main.py:113-115 | A ticker whose closes could not be fetched is never skipped. |
| Advisor.EqualWeight | intelligent_investor_India/main.py:163-168 | Every row is its input row with only est_cost and shares replaced: est_cost = round(budget/n, 2), and with a non-negative est_cost, shares is the whole part of est_cost/price. |
| Advisor.SharesNearTotal | intelligent_investor_India/main.py:166 | An even share within half a paisa of budget/n adds up to the budget within half a paisa per row. |
| Advisor.EqualWeightNearBudget | intelligent_investor_India/main.py:163-168 | With a positive budget, no share count is negative and the n equal costs add up to the budget within 0.005·n. |

## Left out

- Network fetches are not modelled. The fundamentals (`info`), annual statements, price history and news all come from yfinance; they are parameters of the functions that read them.
- TextBlob polarity is a foreign library. It is a `string -> real` parameter; the headline text kept is the raw title, without the formatted polarity suffix.
- Profile JSON load/save, the interactive `input()` prompts and the holdings CSV decoding with encoding fallbacks are file and terminal I/O. The profile and holdings are given values, and the y/n answer is a string parameter.
- `print` output, message strings and the report CSV are display only. Sell reasons, pass notes and insurance details are datatypes carrying the figures those strings show.
- `time.sleep` rate limiting is not modelled.
- The Streamlit app, the chart module, the weekly e-mail, the broker execution module and the settings module are not part of this model; only `STARTING_CAPITAL` (100,000) is used.
- IEEE floating point is replaced by exact reals:
  - a sell row with average price 0 has no P&L (`None`), where numpy would give an infinity;
  - an RSI window without losses gives 100 (infinite RS), and one with neither gains nor losses gives NaN (`None`).
- `sort_values` is not guaranteed stable; the model ranks with a stable insertion sort. The sort key is always `total_score`, the column the scorer produces.
- `\d` also matches non-ASCII digits; the premium parser matches ASCII digits only. Every premium text the advisor builds is ASCII apart from "₹".
- A scored table with a duplicated ticker makes `df_scored.loc[ticker]` return several rows; the sell check uses the first.
- A profile key present with a JSON `null` is modelled like an absent key, and the model goes on with the default where the source raises `TypeError`. This covers `age` (`100 - None` in the allocation planner; the model uses 30), `monthly_income` (`None * 12` when the insurance advisor is built; the model uses 0), and `monthly_expenses` and `current_emergency_fund` (`None * 6`, the `<` comparison and `income - expenses` in the health check; the model uses 0). A null `risk_appetite` or insurance flag behaves in the source as the model has it, as "Medium" and as "not covered".
- The choice between the "Total Revenue"/"Net Income" rows and the first/last row of the statements is part of the fetch. The model receives the chosen revenue and income per year, oldest first.
- `max_sector_weight` is accepted by `Portfolio.SelectAndAllocate` and, as in the source, has no effect.
- Advisor.EqualWeight: requires every price to be positive. The rows reaching it come from `Portfolio.SelectAndAllocate`, whose rows all have positive prices (`Portfolio.BuyableConcat`), so the division by price is always defined.
- Advisor.EqualWeight: the share bound is stated only for a non-negative est_cost; a negative budget is stopped by the stock-budget gate before this step.
- Advisor.TotalPremium: its own contract states only the empty case. Additivity is Advisor.TotalPremiumAppend, and the parsed value of each premium text is stated by Advisor.PremiumTextParses and Advisor.AddOnPremiumParses.
- The advisor flow's sell check is commented out in the advisor script. `Portfolio.ReviewForSells` models the manager's method itself.
- Text.Lower: lower-cases the ASCII letters A–Z only. Python's `str.lower` also folds non-ASCII letters (U+212A KELVIN SIGN becomes "k", U+0130 becomes two characters), so a sector name with such letters may be classified differently.
- Portfolio.SellOrderFor: reads Shares and AvgPrice coerced, with a missing or non-numeric cell counted as 0. That is their state once `get_current_valuation` has run on the same holdings, which rewrites both columns in place. On raw cells the source would give a NaN est_value and P&L for a blank cell, and would raise on text.
- Portfolio.BuyLoop: takes the per-row decision as a parameter. `Portfolio.BuyStocks` runs it with `BuyDecision` at a positive capital, which is the stock loop's own rule; the loop body itself is stated for any decision.
