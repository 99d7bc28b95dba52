/**
 * `SettleLoanFlow.call` up to the hand-over to finality: select the loan by
 * id among the unconsumed states, resolve its lender, and build a `PayBack`
 * transaction whose output is `payBack(amountToSettle)`.  The vault query, the
 * directory and the clock reading are parameters.
 */
module SettleLoanFlow {
  import opened Wrappers
  import opened LoanStates
  import opened Ledger
  import LoanContract

  const LENDER_NOT_FOUND := "Transaction not found"

  function Call(
    states: seq<StateAndRef>, txId: Uuid, amountToSettle: int32,
    members: Directory, now: int): (r: Result<Proposal, FlowError>)
    ensures (forall i :: !UniqueMatch(states, txId, i)) ==> r == Failure(RuntimeError(TRANSACTION_NOT_FOUND))
    ensures forall i | UniqueMatch(states, txId, i) ::
      var found := states[i];
      var loan := found.state.contractState;
      && (loan.lender !in members ==> r == Failure(RuntimeError(LENDER_NOT_FOUND)))
      && (r.Success? <==> loan.lender in members)
      && (r.Success? ==>
            && r.value.tx.inputs == [found]
            && r.value.tx.outputs == [LoanStates.PayBack(loan, amountToSettle)]
            && r.value.tx.commands == [LoanContract.PayBack]
            && r.value.tx.signatories == loan.participants
            && r.value.tx.notary == Some(found.state.notaryName)
            && r.value.tx.timeWindow == Some(Between(now, now + ONE_DAY_MILLIS))
            && r.value.counterparty == loan.lender)
  {
    var found :- FindUnconsumedById(states, txId);
    var loan := found.state.contractState;
    var lenderInfo :- LookupMember(members, loan.lender).ToResult(RuntimeError(LENDER_NOT_FOUND));
    var newLoan := LoanStates.PayBack(loan, amountToSettle);
    var builder := EmptyBuilder
      .SetNotary(found.state.notaryName)
      .SetTimeWindowBetween(now, now + ONE_DAY_MILLIS)
      .AddInputState(found)
      .AddOutputState(newLoan)
      .AddCommand(LoanContract.PayBack)
      .AddSignatories(newLoan.participants);
    Success(Proposal(builder, lenderInfo.name))
  }

  /**
   * A built settlement always has the right shape and keeps lender and
   * borrower; for a two-party loan it is accepted exactly when the new
   * (32-bit) `paid` stays within `amount`, and otherwise reports the payback
   * message.  A loan without exactly two participants is always refused.
   */
  lemma SettleAcceptedIffWithinAmount(
    states: seq<StateAndRef>, txId: Uuid, amountToSettle: int32, members: Directory, now: int, i: int)
    requires UniqueMatch(states, txId, i)
    requires Call(states, txId, amountToSettle, members, now).Success?
    ensures var loan := states[i].state.contractState;
      var tx := ToLedgerTransaction(Call(states, txId, amountToSettle, members, now).value.tx);
      && (|loan.participants| == 2 ==>
            && (LoanContract.Verify(tx) == LoanContract.Accepted <==> AddInt32(loan.paid, amountToSettle) <= loan.amount)
            && (InInt32Range(loan.paid as int + amountToSettle as int) ==>
                  (LoanContract.Verify(tx) == LoanContract.Accepted <==>
                     loan.paid as int + amountToSettle as int <= loan.amount as int)))
      && (|loan.participants| != 2 ==>
            LoanContract.Verify(tx) == LoanContract.Fail(LoanContract.OutputStateShouldOnlyHaveTwoParticipants))
  {
  }
}
