/** Market data shared by the live feed, the backtester and the historical store. */
module MarketData {

  /** One bar, stamped with its opening time in microseconds. */
  datatype Candle = Candle(datetime: int, open: real, high: real, low: real, close: real, volume: real)

  datatype Tick = Tick(timestamp: int, price: real, volume: int)
}
