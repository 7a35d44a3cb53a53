/** The data the quality checks run over: one price bar per row of the frame
    that the MetaTrader 5 bridge builds from `copy_rates_from_pos`. */
module Bars {

  /** An optional value. `None` stands for a null (pandas NaN) cell. */
  datatype Option<T> = None | Some(value: T)

  /** One OHLC bar.
      `time` is the bar's opening instant in whole seconds since the epoch
      (the frame converts it with `unit='s'`); prices are reals; `bid` and
      `ask` may be absent; `latencyMs` is the per-bar latency column, taken
      here as given data because it is computed from the wall clock. */
  datatype Bar = Bar(
    time: int,
    open: real,
    high: real,
    low: real,
    close: real,
    tickVolume: int,
    spread: int,
    realVolume: int,
    bid: Option<real>,
    ask: Option<real>,
    latencyMs: real)

  /** A data frame: its rows, the names of its columns, and the names of the
      columns that hold at least one null value. */
  datatype Frame = Frame(bars: seq<Bar>, columns: set<string>, nullColumns: set<string>)

  /** The last row of a non-empty batch. */
  function Last(bars: seq<Bar>): (b: Bar)
    requires |bars| > 0
    ensures b in bars
  {
    bars[|bars| - 1]
  }
}
