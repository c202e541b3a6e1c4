/** One row of the fundamentals table the market-data provider returns, and
    the NaN-aware comparisons the scoring rules apply to its cells. A missing
    or non-numeric cell is `None`, and every comparison with it is false. */
module Market {
  import opened Wrappers

  datatype Snapshot = Snapshot(
    ticker: string,
    sector: Option<string>,
    price: Option<real>,
    dma200: Option<real>,
    dma50: Option<real>,
    trailingPe: Option<real>,
    forwardPe: Option<real>,
    pegRatio: Option<real>,
    priceToBook: Option<real>,
    roe: Option<real>,
    profitMargin: Option<real>,
    debtToEquity: Option<real>)

  /** `x > c` on a cell that may be NaN. */
  predicate Above(x: Option<real>, c: real) {
    x.Some? && x.value > c
  }

  /** `x < c` on a cell that may be NaN. */
  predicate Below(x: Option<real>, c: real) {
    x.Some? && x.value < c
  }

  /** `x > y` between two cells that may be NaN. */
  predicate Exceeds(x: Option<real>, y: Option<real>) {
    x.Some? && y.Some? && x.value > y.value
  }
}
