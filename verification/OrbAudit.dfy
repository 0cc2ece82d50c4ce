/** The audit log the opening-range components share: what each of them writes. */
module OrbAudit {
  import opened Common

  /** Proposal and trade identifiers; the empty identifier the readers skip is not one. */
  type Id = int

  datatype ProposalStatus = Pending | Skipped | Expired | Executed

  datatype BlockReason = UnsupportedMode | EmergencyBlock | NotExecutable | CapConsumed | MissingProtection

  datatype Protection = BracketConfirmed | ExitManagerFallback

  datatype ExitReason = Target | Stop | ForceFlat | MaxHolding | EmergencyExit | ManualClose | EntryCancelled | BrokerFailure

  /** The terms a trade was executed with, as its record and its log line carry them. */
  datatype Terms = Terms(
    trade: Id,
    proposal: Id,
    strategy: string,
    session: string,
    symbol: string,
    quantity: int,
    entry: real,
    stop: real,
    target: real,
    protection: Protection)

  datatype Record =
    | ProposalLogged(proposal: Id, strategy: string, session: string, status: ProposalStatus, executedAs: Option<Id>)
    | PaperExecuted(terms: Terms)
    | PaperRejected(proposal: Id, strategy: string, session: string, block: BlockReason)
    | EntryFilled(trade: Id, price: real, entrySlippage: Option<real>)
    | EntryFailed(trade: Id)
    | EntryCancel(trade: Id)
    | ExitRequested(trade: Id, reason: ExitReason, price: real, order: nat, quantity: int)
    | ExitFilled(trade: Id, reason: ExitReason, price: real, realized: Option<real>, exitSlippage: Option<real>,
                 mfe: Option<real>, mae: Option<real>)
    | ExitFailed(trade: Id, wouldExit: ExitReason)
    | CloseWithoutPrice(trade: Id)
    | EntriesSwitched(strategy: string, disabled: bool)

  class AuditLogger {
    var records: seq<Record>

    constructor ()
      ensures records == []
    {
      records := [];
    }

    method LogDecision(r: Record)
      modifies this
      ensures records == old(records) + [r]
    {
      records := records + [r];
    }
  }
}
