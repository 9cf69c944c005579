/** Decisions on a route and the codes that explain them. */
module Reasons {

  datatype Decision = Execute | Skip | Wait

  datatype ReasonCode =
    | NoReason
    | Executed
    | WaitingLatencyModel
    | WaitingNewBook
    | NoLiveRoute
    | NoGrossEdge
    | TermsStale
    | BelowMarketMinimum
    | InsufficientBalance
    | NegativeNet
    | LedgerApplyFailed
    | TransferFeeMissing
    | RiskDrawdown
    | RiskSpreadOutlier
    | RiskLatency
    | RiskReserve
    | RiskCircuitOpen
    | Custom(text: string)
}
