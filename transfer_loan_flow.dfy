/**
 * `TransferLoanFlow.call` up to the hand-over to finality: select the loan by
 * id, look up the new lender, and build a `Transfer` transaction whose output
 * is `transferLoan` to the new lender with the caller and the new lender as
 * participants.  The vault query, the caller's member info, the directory and
 * the clock reading are parameters.
 */
module TransferLoanFlow {
  import opened Wrappers
  import opened LoanStates
  import opened Ledger
  import LoanContract

  const NEW_LENDER_NOT_FOUND := "MemberLookup can't find transferTo specified in flow arguments."

  function Call(
    states: seq<StateAndRef>, txId: Uuid, transferTo: MemberName, me: MemberInfo,
    members: Directory, now: int): (r: Result<Proposal, FlowError>)
    ensures (forall i :: !UniqueMatch(states, txId, i)) ==> r == Failure(RuntimeError(TRANSACTION_NOT_FOUND))
    ensures forall i | UniqueMatch(states, txId, i) ::
      var found := states[i];
      var loan := found.state.contractState;
      && (transferTo !in members ==> r == Failure(RuntimeError(NEW_LENDER_NOT_FOUND)))
      && (transferTo in members && (me.ledgerKeys == [] || members[transferTo] == []) ==> r == Failure(EmptyKeyList))
      && (r.Success? <==> transferTo in members && me.ledgerKeys != [] && members[transferTo] != [])
      && (r.Success? ==>
            var newParticipants := [me.ledgerKeys[0], members[transferTo][0]];
            && r.value.tx.inputs == [found]
            && r.value.tx.outputs == [LoanStates.TransferLoan(loan, transferTo, newParticipants)]
            && r.value.tx.commands == [LoanContract.Transfer]
            && r.value.tx.signatories == newParticipants
            && r.value.tx.notary == Some(found.state.notaryName)
            && r.value.tx.timeWindow == Some(Between(now, now + ONE_DAY_MILLIS))
            && r.value.counterparty == transferTo)
  {
    var found :- FindUnconsumedById(states, txId);
    var loan := found.state.contractState;
    var newLender :- LookupMember(members, transferTo).ToResult(RuntimeError(NEW_LENDER_NOT_FOUND));
    var borrowerKey :- FirstKey(me.ledgerKeys);
    var newLenderKey :- FirstKey(newLender.ledgerKeys);
    var newParticipants := [borrowerKey, newLenderKey];
    var newLoan := LoanStates.TransferLoan(loan, newLender.name, newParticipants);
    var builder := EmptyBuilder
      .SetNotary(found.state.notaryName)
      .SetTimeWindowBetween(now, now + ONE_DAY_MILLIS)
      .AddInputState(found)
      .AddOutputState(newLoan)
      .AddCommand(LoanContract.Transfer)
      .AddSignatories(newLoan.participants);
    Success(Proposal(builder, newLender.name))
  }

  /**
   * The new loan keeps id, borrower, amount and paid, has exactly two
   * participants, and the built transaction is always accepted by the contract.
   */
  lemma TransferAlwaysAccepted(
    states: seq<StateAndRef>, txId: Uuid, transferTo: MemberName, me: MemberInfo,
    members: Directory, now: int, i: int)
    requires UniqueMatch(states, txId, i)
    requires Call(states, txId, transferTo, me, members, now).Success?
    ensures var p := Call(states, txId, transferTo, me, members, now).value;
      var loan := states[i].state.contractState;
      && |p.tx.outputs| == 1
      && p.tx.outputs[0].id == loan.id && p.tx.outputs[0].borrower == loan.borrower
      && p.tx.outputs[0].amount == loan.amount && p.tx.outputs[0].paid == loan.paid
      && |p.tx.outputs[0].participants| == 2
      && LoanContract.Verify(ToLedgerTransaction(p.tx)) == LoanContract.Accepted
  {
  }
}
