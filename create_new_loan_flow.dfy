/**
 * `CreateNewLoanFlow.call` up to the hand-over to finality: look up the
 * lender and the notary, build the new loan and a `Create` transaction.
 * The caller's own member info, the directory, the notaries, the fresh id and
 * the clock reading are parameters.
 */
module CreateNewLoanFlow {
  import opened Wrappers
  import opened LoanStates
  import opened Ledger
  import LoanContract

  const NOTARY_NAME := MemberName("CN=NotaryService, OU=Test Dept, O=R3, L=London, C=GB")
  const LENDER_NOT_FOUND := "err"
  const NOTARY_NOT_FOUND := "Notary not found"

  function Call(
    me: MemberInfo, lender: MemberName, amount: int32,
    members: Directory, notaries: set<MemberName>, freshId: Uuid, now: int): (r: Result<Proposal, FlowError>)
    ensures lender !in members ==> r == Failure(RuntimeError(LENDER_NOT_FOUND))
    ensures lender in members && (me.ledgerKeys == [] || members[lender] == []) ==> r == Failure(EmptyKeyList)
    ensures lender in members && me.ledgerKeys != [] && members[lender] != [] && NOTARY_NAME !in notaries ==>
              r == Failure(RuntimeError(NOTARY_NOT_FOUND))
    ensures r.Success? ==>
      && |r.value.tx.outputs| == 1
      && var loan := r.value.tx.outputs[0];
      && loan.lender == lender && loan.borrower == me.name
      && loan.amount == amount && loan.paid == 0 && loan.id == freshId
      && loan.participants == [me.ledgerKeys[0], members[lender][0]]
      && r.value.tx.inputs == []
      && r.value.tx.commands == [LoanContract.Create]
      && r.value.tx.signatories == loan.participants
      && r.value.tx.notary == Some(NOTARY_NAME)
      && r.value.tx.timeWindow == Some(Between(now, now + ONE_DAY_MILLIS))
      && r.value.counterparty == lender
  {
    var lenderInfo :- LookupMember(members, lender).ToResult(RuntimeError(LENDER_NOT_FOUND));
    var borrowerKey :- FirstKey(me.ledgerKeys);
    var lenderKey :- FirstKey(lenderInfo.ledgerKeys);
    var loanState := LoanState(lenderInfo.name, me.name, amount, 0, freshId, [borrowerKey, lenderKey]);
    if NOTARY_NAME !in notaries then Failure(RuntimeError(NOTARY_NOT_FOUND))
    else
      var builder := EmptyBuilder
        .SetNotary(NOTARY_NAME)
        .SetTimeWindowBetween(now, now + ONE_DAY_MILLIS)
        .AddOutputState(loanState)
        .AddCommand(LoanContract.Create)
        .AddSignatories(loanState.participants);
      Success(Proposal(builder, lenderInfo.name))
  }

  /** The flow builds a transaction whenever the lookups succeed, whatever the amount. */
  lemma CreateSucceedsIffLookupsSucceed(
    me: MemberInfo, lender: MemberName, amount: int32,
    members: Directory, notaries: set<MemberName>, freshId: Uuid, now: int)
    ensures Call(me, lender, amount, members, notaries, freshId, now).Success? <==>
              lender in members && me.ledgerKeys != [] && members[lender] != [] && NOTARY_NAME in notaries
  {
  }

  /**
   * Signatories are the new loan's two participants, so the participant and
   * signature checks of `Create` always pass: a built transaction is accepted
   * exactly when the requested amount lies in 1..199.
   */
  lemma CreateAcceptedIffAmountInRange(
    me: MemberInfo, lender: MemberName, amount: int32,
    members: Directory, notaries: set<MemberName>, freshId: Uuid, now: int)
    requires Call(me, lender, amount, members, notaries, freshId, now).Success?
    ensures var tx := ToLedgerTransaction(Call(me, lender, amount, members, notaries, freshId, now).value.tx);
      && (LoanContract.Verify(tx) == LoanContract.Accepted <==> 1 <= amount <= 199)
      && (!(1 <= amount <= 199) ==> LoanContract.Verify(tx) == LoanContract.Fail(LoanContract.LoanAmountInvalid))
  {
  }
}
