/** The supported chains and their names in request paths. */
module Chains {
  datatype Chain = Ethereum | Polygon | Arbitrum | Optimism | Base | Avalanche | Bsc

  function Name(chain: Chain): string {
    match chain
    case Ethereum => "ethereum"
    case Polygon => "polygon"
    case Arbitrum => "arbitrum"
    case Optimism => "optimism"
    case Base => "base"
    case Avalanche => "avalanche"
    case Bsc => "bsc"
  }
}
