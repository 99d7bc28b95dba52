/**
 * The loan contract (`LoanContract.verify`): a deterministic accept/reject
 * decision over a resolved ledger transaction.  Every check runs in the order
 * the contract writes it; the first one that fails decides the rejection.
 */
module LoanContract {
  import opened Wrappers
  import opened LoanStates

  /** The command classes of the contract, plus any command of another contract. */
  datatype Command = Create | PayBack | Exit | Transfer | OtherCommand(className: string)

  /** An input or output state: a loan, or a state of some other type. */
  datatype ContractState = Loan(loan: LoanState) | OtherState(className: string)

  /** What `verify` sees of a transaction: commands, resolved inputs, outputs and signatories. */
  datatype LedgerTransaction = LedgerTransaction(
    commands: seq<Command>,
    inputs: seq<ContractState>,
    outputs: seq<ContractState>,
    signatories: seq<PublicKey>)

  /** One constructor per error-message constant of the contract. */
  datatype Reason =
    | RequireSingleCommand
    | UnknownCommand
    | LoanAmountInvalid
    | OutputStateShouldOnlyHaveTwoParticipants
    | TransactionShouldBeSignedByAllParticipants
    | PaybackAmountOverThanRequiredAmount
    | CreateCommandShouldHaveNoInputStates
    | CreateCommandShouldHaveOnlyOneOutputState
    | BorrowerLenderInvalid
    | InvalidOutputInput

  /** The length of each constant's text. */
  function TextLength(reason: Reason): nat
  {
    match reason
    case RequireSingleCommand => 26
    case UnknownCommand => 20
    case LoanAmountInvalid => 45
    case OutputStateShouldOnlyHaveTwoParticipants => 59
    case TransactionShouldBeSignedByAllParticipants => 61
    case PaybackAmountOverThanRequiredAmount => 57
    case CreateCommandShouldHaveNoInputStates => 55
    case CreateCommandShouldHaveOnlyOneOutputState => 69
    case BorrowerLenderInvalid => 36
    case InvalidOutputInput => 24
  }

  /** The text of each constant; no two texts have the same length. */
  function Text(reason: Reason): (r: string)
    ensures |r| == TextLength(reason)
  {
    match reason
    case RequireSingleCommand => "Requires a single command."
    case UnknownCommand => "Command not allowed."
    case LoanAmountInvalid => "Loan amount must be under 200 and more than 0"
    case OutputStateShouldOnlyHaveTwoParticipants => "The output state should have two and only two participants."
    case TransactionShouldBeSignedByAllParticipants => "The transaction should have been signed by both participants."
    case PaybackAmountOverThanRequiredAmount => "The payback amount needs to be under than the loan amount"
    case CreateCommandShouldHaveNoInputStates => "When command is Create there should be no input states."
    case CreateCommandShouldHaveOnlyOneOutputState => "When command is Create there should be one and only one output state."
    case BorrowerLenderInvalid => "Borrower and lender can't be changed"
    case InvalidOutputInput => "invalid output and input"
  }

  const REQUIREMENT_PREFIX := "Failed requirement: "

  /** Whether a reason is raised through the `using` helper (and so gets its prefix). */
  predicate IsRequirement(reason: Reason)
  {
    reason != RequireSingleCommand && reason != UnknownCommand
  }

  /**
   * The message of the exception thrown for `reason`: the two command checks
   * throw the bare constant, the `using` checks prefix it with "Failed requirement: ".
   */
  function Message(reason: Reason): (r: string)
    ensures IsRequirement(reason) ==>
              |r| == |REQUIREMENT_PREFIX| + |Text(reason)| &&
              r[..|REQUIREMENT_PREFIX|] == REQUIREMENT_PREFIX && r[|REQUIREMENT_PREFIX|..] == Text(reason)
    ensures !IsRequirement(reason) ==> r == Text(reason)
  {
    if IsRequirement(reason) then REQUIREMENT_PREFIX + Text(reason) else Text(reason)
  }

  /** Why a transaction is rejected: a contract exception, or a failing `single()` or cast. */
  datatype Rejection =
    | Contract(reason: Reason)
    | NoSuchElement        // `single()` on an empty list
    | MoreThanOneElement   // `single()` on a list of two or more
    | ClassCast            // `as LoanState` on a state of another type

  datatype Verdict = Accepted | Rejected(rejection: Rejection)

  function Fail(reason: Reason): Verdict
  {
    Rejected(Contract(reason))
  }

  /** `states.single() as LoanState`. */
  function SingleLoan(states: seq<ContractState>): (r: Result<LoanState, Rejection>)
    ensures r.Success? <==> |states| == 1 && states[0].Loan?
    ensures r.Success? ==> states == [Loan(r.value)]
    ensures |states| == 0 ==> r == Failure(NoSuchElement)
    ensures |states| > 1 ==> r == Failure(MoreThanOneElement)
    ensures |states| == 1 && states[0].OtherState? ==> r == Failure(ClassCast)
  {
    if |states| == 0 then Failure(NoSuchElement)
    else if |states| > 1 then Failure(MoreThanOneElement)
    else match states[0]
      case Loan(s) => Success(s)
      case OtherState(_) => Failure(ClassCast)
  }

  /** `signatories.containsAll(keys)`: the keys, as a set, are among the signatories, whatever their order or repetition. */
  function ContainsAll(signatories: seq<PublicKey>, keys: seq<PublicKey>): (r: bool)
    ensures r <==> (set k | k in keys) <= (set k | k in signatories)
  {
    var keySet, signatorySet := set k | k in keys, set k | k in signatories;
    assert forall k :: k in keySet <==> k in keys;
    assert forall k :: k in signatorySet <==> k in signatories;
    forall k | k in keys :: k in signatories
  }

  /** The conditions under which a `Create` is legal, stated without order. */
  predicate CreateRules(tx: LedgerTransaction)
  {
    && |tx.inputs| == 0
    && |tx.outputs| == 1
    && tx.outputs[0].Loan?
    && |tx.outputs[0].loan.participants| == 2
    && ContainsAll(tx.signatories, tx.outputs[0].loan.participants)
    && 1 <= tx.outputs[0].loan.amount <= 199
  }

  /** The conditions under which a `PayBack` is legal, stated without order. */
  predicate PayBackRules(tx: LedgerTransaction)
  {
    && |tx.inputs| == 1 && |tx.outputs| == 1
    && tx.inputs[0].Loan? && tx.outputs[0].Loan?
    && tx.inputs[0].loan.lender == tx.outputs[0].loan.lender
    && tx.inputs[0].loan.borrower == tx.outputs[0].loan.borrower
    && |tx.outputs[0].loan.participants| == 2
    && ContainsAll(tx.signatories, tx.outputs[0].loan.participants)
    && tx.outputs[0].loan.paid <= tx.outputs[0].loan.amount
  }

  /** Accepted exactly when there is one command and that command's rules hold. */
  function Verify(tx: LedgerTransaction): (r: Verdict)
    ensures r == Accepted <==>
      && |tx.commands| == 1
      && match tx.commands[0]
         case Create => CreateRules(tx)
         case PayBack => PayBackRules(tx)
         case Transfer => |tx.inputs| == 1 && |tx.outputs| == 1
         case _ => false
  {
    if |tx.commands| != 1 then Fail(RequireSingleCommand)
    else match tx.commands[0]
      case Create => VerifyCreate(tx)
      case PayBack => VerifyPayBack(tx)
      case Transfer => VerifyTransfer(tx)
      case _ => Fail(UnknownCommand)
  }

  /** `verifyCreate`: legal exactly under `CreateRules`; only the `Create` messages can be reported. */
  function VerifyCreate(tx: LedgerTransaction): (r: Verdict)
    ensures r == Accepted <==> CreateRules(tx)
    ensures r != Fail(CreateCommandShouldHaveOnlyOneOutputState)
    ensures r.Rejected? && r.rejection.Contract? ==>
              r.rejection.reason in {CreateCommandShouldHaveNoInputStates, OutputStateShouldOnlyHaveTwoParticipants,
                                     TransactionShouldBeSignedByAllParticipants, LoanAmountInvalid}
  {
    match SingleLoan(tx.outputs)
    case Failure(e) => Rejected(e)
    case Success(output) =>
      if |tx.inputs| != 0 then Fail(CreateCommandShouldHaveNoInputStates)
      else if |tx.outputs| != 1 then Fail(CreateCommandShouldHaveOnlyOneOutputState)
      else if |output.participants| != 2 then Fail(OutputStateShouldOnlyHaveTwoParticipants)
      else if !ContainsAll(tx.signatories, output.participants) then Fail(TransactionShouldBeSignedByAllParticipants)
      else if !(1 <= output.amount <= 199) then Fail(LoanAmountInvalid)
      else Accepted
  }

  /** `verifyPayback`: legal exactly under `PayBackRules`; cardinality is reported before anything else. */
  function VerifyPayBack(tx: LedgerTransaction): (r: Verdict)
    ensures r == Accepted <==> PayBackRules(tx)
    ensures !(|tx.outputs| == 1 && |tx.inputs| == 1) ==> r == Fail(InvalidOutputInput)
    ensures r.Rejected? ==> r.rejection != NoSuchElement && r.rejection != MoreThanOneElement
  {
    if !(|tx.outputs| == 1 && |tx.inputs| == 1) then Fail(InvalidOutputInput)
    else match (SingleLoan(tx.outputs), SingleLoan(tx.inputs))
      case (Failure(e), _) => Rejected(e)
      case (_, Failure(e)) => Rejected(e)
      case (Success(output), Success(input)) =>
        if !(input.lender == output.lender && input.borrower == output.borrower) then Fail(BorrowerLenderInvalid)
        else if |output.participants| != 2 then Fail(OutputStateShouldOnlyHaveTwoParticipants)
        else if !ContainsAll(tx.signatories, output.participants) then Fail(TransactionShouldBeSignedByAllParticipants)
        else if !(output.paid <= output.amount) then Fail(PaybackAmountOverThanRequiredAmount)
        else Accepted
  }

  /** `verifyTransfer`: only the numbers of inputs and outputs are checked. */
  function VerifyTransfer(tx: LedgerTransaction): (r: Verdict)
    ensures r == Accepted <==> |tx.inputs| == 1 && |tx.outputs| == 1
    ensures r != Accepted ==> r == Fail(InvalidOutputInput)
  {
    if !(|tx.outputs| == 1 && |tx.inputs| == 1) then Fail(InvalidOutputInput)
    else Accepted
  }

  // ---------------------------------------------------------------------------
  // Messages

  /** The reported message names the violated rule unambiguously. */
  lemma MessageIdentifiesReason(a: Reason, b: Reason)
    requires Message(a) == Message(b)
    ensures a == b
  {
    MessageHasLength(a);
    MessageHasLength(b);
    MessageLengthsDistinct(a, b);
  }

  lemma MessageHasLength(reason: Reason)
    ensures |Message(reason)| == (if IsRequirement(reason) then 20 else 0) + TextLength(reason)
  {
    assert |REQUIREMENT_PREFIX| == 20;
  }

  /** Distinct reasons give messages of distinct lengths. */
  lemma MessageLengthsDistinct(a: Reason, b: Reason)
    requires (if IsRequirement(a) then 20 else 0) + TextLength(a) == (if IsRequirement(b) then 20 else 0) + TextLength(b)
    ensures a == b
  {
  }

  // ---------------------------------------------------------------------------
  // The command dispatch

  /** Zero commands, or two or more, are rejected before any command rule runs. */
  lemma NotSingleCommandRejected(tx: LedgerTransaction)
    requires |tx.commands| != 1
    ensures Verify(tx) == Rejected(Contract(RequireSingleCommand))
  {
  }

  /** `Exit`, and any command that is not `Create`, `PayBack` or `Transfer`, is refused whatever the states. */
  lemma UnknownCommandRejected(tx: LedgerTransaction)
    requires |tx.commands| == 1 && (tx.commands[0].Exit? || tx.commands[0].OtherCommand?)
    ensures Verify(tx) == Rejected(Contract(UnknownCommand))
  {
  }

  /** Only a transaction with exactly one command can ever be accepted. */
  lemma AcceptedHasOneKnownCommand(tx: LedgerTransaction)
    requires Verify(tx) == Accepted
    ensures |tx.commands| == 1
    ensures tx.commands[0] in {Create, PayBack, Transfer}
  {
  }

  // ---------------------------------------------------------------------------
  // Create

  lemma CreateAcceptedIff(tx: LedgerTransaction)
    requires tx.commands == [Create]
    ensures Verify(tx) == Accepted <==> CreateRules(tx)
  {
  }

  /**
   * The order of the `Create` checks: the output is taken with `single()`
   * and cast first, then inputs, participant count, signatures and amount.
   */
  lemma CreateFirstFailure(tx: LedgerTransaction)
    requires tx.commands == [Create]
    ensures |tx.outputs| == 0 ==> Verify(tx) == Rejected(NoSuchElement)
    ensures |tx.outputs| > 1 ==> Verify(tx) == Rejected(MoreThanOneElement)
    ensures |tx.outputs| == 1 && tx.outputs[0].OtherState? ==> Verify(tx) == Rejected(ClassCast)
    ensures |tx.outputs| == 1 && tx.outputs[0].Loan? ==>
      var output := tx.outputs[0].loan;
      Verify(tx) ==
        if |tx.inputs| != 0 then Fail(CreateCommandShouldHaveNoInputStates)
        else if |output.participants| != 2 then Fail(OutputStateShouldOnlyHaveTwoParticipants)
        else if !ContainsAll(tx.signatories, output.participants) then Fail(TransactionShouldBeSignedByAllParticipants)
        else if !(1 <= output.amount <= 199) then Fail(LoanAmountInvalid)
        else Accepted
  {
  }

  /** The "one and only one output" check can never fire: `single()` has already failed. */
  lemma CreateOutputCountNeverReported(tx: LedgerTransaction)
    ensures Verify(tx) != Fail(CreateCommandShouldHaveOnlyOneOutputState)
  {
  }

  /** A `Create` with an input and an out-of-range amount reports the input, not the amount: inputs are checked first. */
  lemma CreateWithInputReportsInputFirst(tx: LedgerTransaction, output: LoanState)
    requires tx.commands == [Create] && tx.outputs == [Loan(output)]
    requires |tx.inputs| > 0 && !(1 <= output.amount <= 199)
    ensures Verify(tx) == Fail(CreateCommandShouldHaveNoInputStates)
  {
  }

  // ---------------------------------------------------------------------------
  // PayBack

  lemma PayBackAcceptedIff(tx: LedgerTransaction)
    requires tx.commands == [PayBack]
    ensures Verify(tx) == Accepted <==> PayBackRules(tx)
  {
  }

  /** A wrong number of inputs or outputs is the first thing a `PayBack` reports. */
  lemma PayBackCardinalityFirst(tx: LedgerTransaction)
    requires tx.commands == [PayBack]
    requires |tx.inputs| != 1 || |tx.outputs| != 1
    ensures Verify(tx) == Fail(InvalidOutputInput)
  {
  }

  /**
   * The order of the `PayBack` checks once there is one input and one output:
   * output cast, input cast, lender and borrower, participants, signatures,
   * and last `paid` against `amount`.
   */
  lemma PayBackFirstFailure(tx: LedgerTransaction)
    requires tx.commands == [PayBack] && |tx.inputs| == 1 && |tx.outputs| == 1
    ensures tx.outputs[0].OtherState? || tx.inputs[0].OtherState? ==> Verify(tx) == Rejected(ClassCast)
    ensures tx.outputs[0].Loan? && tx.inputs[0].Loan? ==>
      var output, input := tx.outputs[0].loan, tx.inputs[0].loan;
      Verify(tx) ==
        if !(input.lender == output.lender && input.borrower == output.borrower) then Fail(BorrowerLenderInvalid)
        else if |output.participants| != 2 then Fail(OutputStateShouldOnlyHaveTwoParticipants)
        else if !ContainsAll(tx.signatories, output.participants) then Fail(TransactionShouldBeSignedByAllParticipants)
        else if !(output.paid <= output.amount) then Fail(PaybackAmountOverThanRequiredAmount)
        else Accepted
  {
  }

  /**
   * Nothing ties the output's `paid` or `amount` to the input's: a payback
   * that lowers `paid`, or that changes `amount`, is accepted.
   */
  lemma PayBackIgnoresInputFigures(tx: LedgerTransaction, input: LoanState, output: LoanState)
    requires tx.commands == [PayBack] && tx.inputs == [Loan(input)] && tx.outputs == [Loan(output)]
    requires input.lender == output.lender && input.borrower == output.borrower
    requires |output.participants| == 2 && ContainsAll(tx.signatories, output.participants)
    requires output.paid <= output.amount
    ensures Verify(tx) == Accepted
  {
  }

  /**
   * A payback built with `PayBack` from a two-party loan signed by both parties
   * is accepted exactly when the wrapped new `paid` stays within `amount`;
   * without overflow, exactly when `paid + amountPaid <= amount`.
   */
  lemma PayBackOfStateAcceptedIff(s: LoanState, amountPaid: int32, signatories: seq<PublicKey>)
    requires |s.participants| == 2 && ContainsAll(signatories, s.participants)
    ensures var tx := LedgerTransaction([PayBack], [Loan(s)], [Loan(LoanStates.PayBack(s, amountPaid))], signatories);
      && (Verify(tx) == Accepted <==> AddInt32(s.paid, amountPaid) <= s.amount)
      && (Verify(tx) != Accepted ==> Verify(tx) == Fail(PaybackAmountOverThanRequiredAmount))
      && (InInt32Range(s.paid as int + amountPaid as int) ==>
            (Verify(tx) == Accepted <==> s.paid as int + amountPaid as int <= s.amount as int))
  {
  }

  /**
   * A payback whose sum overflows `Int` wraps to a negative `paid` and is
   * accepted against any non-negative amount.
   */
  lemma PayBackOverflowAccepted(s: LoanState, amountPaid: int32, signatories: seq<PublicKey>)
    requires |s.participants| == 2 && ContainsAll(signatories, s.participants)
    requires s.paid as int + amountPaid as int > INT32_MAX && s.amount >= 0
    ensures LoanStates.PayBack(s, amountPaid).paid < 0
    ensures Verify(LedgerTransaction([PayBack], [Loan(s)], [Loan(LoanStates.PayBack(s, amountPaid))], signatories)) == Accepted
  {
  }

  // ---------------------------------------------------------------------------
  // Transfer

  /** A `Transfer` is accepted exactly when it has one input and one output; no field is checked. */
  lemma TransferAcceptedIff(tx: LedgerTransaction)
    requires tx.commands == [Transfer]
    ensures Verify(tx) == Accepted <==> |tx.inputs| == 1 && |tx.outputs| == 1
    ensures Verify(tx) != Accepted ==> Verify(tx) == Fail(InvalidOutputInput)
  {
  }
}
