/** The vocabulary of one auction: its terms, what can happen to it, and what it answers. */
module Auction {
  import opened Bounded
  import opened Schedule

  type Key = U128
  type Participant = U128

  datatype Status = Pending | Live | Cleared | Cancelled {
    predicate Terminal() {
      Cleared? || Cancelled?
    }
  }

  /** The reasons `auction-core` itself gives; `RateLimited` and `Busy` belong to the edge. */
  datatype RejectReason =
    | NotLive
    | PriceMoved(serverPrice: I64)
    | SupplyExhausted
    | InsufficientCollateral
    | ZeroQuantity
    | LimitAboveClock(serverPrice: I64)
    | Unfilled
    | UnknownBid

  datatype Config = Config(
    totalSupply: U64, schedule: PriceSchedule, batchWindow: U64, priceTolerance: U64)
  {
    /** What the engine relies on without enforcing it. */
    predicate WellFormed() {
      && totalSupply > 0
      && schedule.WellFormed()
      && schedule.Ticks()
      && 0 <= schedule.floor
    }

    function PriceAt(ts: U64): I64
      requires schedule.WellFormed()
    {
      Schedule.PriceAt(schedule, ts)
    }
  }

  datatype BidKind = Take(expectedPrice: I64) | Resting(limit: I64)

  datatype Command =
    | Open
    | SetCollateral(participant: Participant, ceiling: I64)
    | SubmitBid(participant: Participant, key: Key, qty: U64, kind: BidKind)
    | CancelResting(participant: Participant, key: Key)
    | Tick
    | Cancel
  {
    /** A resting limit below zero would reserve a negative amount. */
    predicate Admissible() {
      SubmitBid? && kind.Resting? ==> kind.limit >= 0
    }
  }

  datatype LogRecord = LogRecord(seqno: U64, ts: U64, cmd: Command)

  /** Sequence numbers go up by one, from wherever the log starts. */
  ghost predicate Gapless(log: seq<LogRecord>) {
    forall i :: 0 <= i < |log| ==> log[i].seqno == log[0].seqno + i
  }

  datatype Fill = Fill(
    id: nat, seqno: U64, participant: Participant, key: Key, qty: U64, price: I64)

  datatype Outcome =
    | Queued(qty: U64)
    | Resting(qty: U64)
    | Filled(qty: U64, price: I64)
    | Rejected(reason: RejectReason)
    | Cancelled
    | FilledThenCancelled(qty: U64, price: I64)

  datatype Event =
    | Opened(startPrice: I64, supply: U64)
    | CollateralSet(participant: Participant, ceiling: I64)
    | Queued(key: Key, participant: Participant, qty: U64, price: I64)
    | Rested(key: Key, participant: Participant, qty: U64, limit: I64)
    | RestingCancelled(key: Key, participant: Participant, qty: U64)
    | Filled(fill: Fill)
    | Rejected(key: Key, reason: RejectReason)
    | Duplicate(key: Key, outcome: Outcome)
    | Repriced(id: nat, from: I64, to: I64)
    | Cleared(price: I64, filled: U64, unsold: U64)
    | Cancelled

  datatype RestingBid = RestingBid(
    seqno: U64, participant: Participant, key: Key, qty: U64, limit: I64)

  datatype PendingBid = PendingBid(
    seqno: U64, participant: Participant, key: Key, qty: U64,
    priority: I64, reservePrice: I64, restingLimit: Option<I64>)

  datatype OpenWindow = OpenWindow(index: U64, price: I64, bids: seq<PendingBid>)

  datatype Collateral = Collateral(limit: I64, committed: I64)
}
