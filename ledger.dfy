/**
 * The part of the Corda platform the flows use, as values: vault entries,
 * the member directory, notary lookup, the transaction builder chain, and the
 * resolution of a built transaction into what the contract verifies.
 */
module Ledger {
  import opened Wrappers
  import opened LoanStates
  import LoanContract

  /** A reference to an output of an earlier transaction. */
  datatype StateRef = StateRef(transactionId: seq<bv8>, index: nat)

  /** A loan as stored on the ledger, with the notary that guards it. */
  datatype TransactionState = TransactionState(contractState: LoanState, notaryName: MemberName)

  /** An unconsumed state as returned by `findUnconsumedStatesByType`. */
  datatype StateAndRef = StateAndRef(state: TransactionState, ref: StateRef)

  /** A member of the network: its name and its ledger keys, first key first. */
  datatype MemberInfo = MemberInfo(name: MemberName, ledgerKeys: seq<PublicKey>)

  /** What `memberLookup.lookup` can find: each known name with its ledger keys. */
  type Directory = map<MemberName, seq<PublicKey>>

  /** The exceptions a flow can end with before finality. */
  datatype FlowError =
    | RuntimeError(message: string)  // a `CordaRuntimeException`
    | EmptyKeyList                   // `ledgerKeys.first()` on a member without keys

  const TRANSACTION_NOT_FOUND := "Invalid transaction or transaction not found"

  function LookupMember(members: Directory, name: MemberName): (r: Option<MemberInfo>)
    ensures r.Some? <==> name in members
    ensures r.Some? ==> r.value.name == name && r.value.ledgerKeys == members[name]
  {
    if name in members then Some(MemberInfo(name, members[name])) else None
  }

  /** `ledgerKeys.first()`. */
  function FirstKey(keys: seq<PublicKey>): (r: Result<PublicKey, FlowError>)
    ensures r.Success? <==> keys != []
    ensures r.Success? ==> r.value == keys[0]
    ensures r.Failure? ==> r.error == EmptyKeyList
  {
    if keys == [] then Failure(EmptyKeyList) else Success(keys[0])
  }

  // ---------------------------------------------------------------------------
  // Selecting the loan a flow acts on

  function LoanId(x: StateAndRef): Uuid
  {
    x.state.contractState.id
  }

  /** `states.filter { it.state.contractState.id == id }`. */
  function WithId(states: seq<StateAndRef>, id: Uuid): (r: seq<StateAndRef>)
    ensures |r| <= |states|
    ensures forall x | x in r :: x in states && LoanId(x) == id
    ensures forall j | 0 <= j < |states| && LoanId(states[j]) == id :: states[j] in r
    ensures forall x :: multiset(r)[x] == if LoanId(x) == id then multiset(states)[x] else 0
    ensures r == [] <==> forall j | 0 <= j < |states| :: LoanId(states[j]) != id
    decreases |states|
  {
    if states == [] then []
    else
      assert states == [states[0]] + states[1..];
      assert forall j | 1 <= j < |states| :: states[j] == states[1..][j - 1];
      if LoanId(states[0]) == id then [states[0]] + WithId(states[1..], id)
      else WithId(states[1..], id)
  }

  /** Entry `i` is the one and only entry of `states` carrying `id`. */
  ghost predicate UniqueMatch(states: seq<StateAndRef>, id: Uuid, i: int)
  {
    && 0 <= i < |states|
    && LoanId(states[i]) == id
    && forall j | 0 <= j < |states| && LoanId(states[j]) == id :: j == i
  }

  /** The filter keeps exactly one entry exactly when one entry carries the id, and then keeps that one. */
  lemma {:induction false} WithIdSingleton(states: seq<StateAndRef>, id: Uuid)
    ensures |WithId(states, id)| == 1 <==> exists i :: UniqueMatch(states, id, i)
    ensures forall i | UniqueMatch(states, id, i) :: WithId(states, id) == [states[i]]
    decreases |states|
  {
    if states != [] {
      WithIdSingleton(states[1..], id);
      if LoanId(states[0]) == id {
        WithIdSingletonStep(states, id, true);
      } else {
        WithIdSingletonStep(states, id, false);
      }
    }
  }

  /** The inductive step of `WithIdSingleton`, for a head that does or does not carry the id. */
  lemma WithIdSingletonStep(states: seq<StateAndRef>, id: Uuid, headMatches: bool)
    requires states != [] && headMatches == (LoanId(states[0]) == id)
    requires |WithId(states[1..], id)| == 1 <==> exists i :: UniqueMatch(states[1..], id, i)
    requires forall i | UniqueMatch(states[1..], id, i) :: WithId(states[1..], id) == [states[1..][i]]
    ensures |WithId(states, id)| == 1 <==> exists i :: UniqueMatch(states, id, i)
    ensures forall i | UniqueMatch(states, id, i) :: WithId(states, id) == [states[i]]
  {
    var t := states[1..];
    assert forall j | 1 <= j < |states| :: states[j] == t[j - 1];
    if headMatches {
      assert WithId(states, id) == [states[0]] + WithId(t, id);
      if |WithId(states, id)| == 1 {
        assert UniqueMatch(states, id, 0);
      }
      forall i | UniqueMatch(states, id, i) ensures WithId(states, id) == [states[i]] {
        assert i == 0;
        forall j | 0 <= j < |t| ensures LoanId(t[j]) != id {
          assert states[j + 1] == t[j];
        }
      }
    } else {
      assert WithId(states, id) == WithId(t, id);
      if |WithId(states, id)| == 1 {
        var k :| UniqueMatch(t, id, k);
        assert states[k + 1] == t[k];
        assert UniqueMatch(states, id, k + 1);
      }
      forall i | UniqueMatch(states, id, i) ensures WithId(states, id) == [states[i]] && UniqueMatch(t, id, i - 1) {
        assert i > 0 && t[i - 1] == states[i];
        forall j | 0 <= j < |t| && LoanId(t[j]) == id ensures j == i - 1 {
          assert states[j + 1] == t[j];
        }
        assert UniqueMatch(t, id, i - 1);
        assert WithId(t, id) == [t[i - 1]];
      }
    }
  }

  /**
   * The selection both settle and transfer flows make: the single unconsumed
   * loan with the given id, or "Invalid transaction or transaction not found".
   */
  function FindUnconsumedById(states: seq<StateAndRef>, id: Uuid): (r: Result<StateAndRef, FlowError>)
    ensures r.Success? <==> exists i :: UniqueMatch(states, id, i)
    ensures forall i | UniqueMatch(states, id, i) :: r == Success(states[i])
    ensures r.Failure? ==> r.error == RuntimeError(TRANSACTION_NOT_FOUND)
  {
    WithIdSingleton(states, id);
    var matches := WithId(states, id);
    if |matches| != 1 then Failure(RuntimeError(TRANSACTION_NOT_FOUND))
    else Success(matches[0])
  }

  // ---------------------------------------------------------------------------
  // The transaction builder

  /** The time window, in milliseconds since the epoch. */
  datatype TimeWindow = Between(from: int, until: int)

  /** `Duration.ofDays(1).toMillis()`. */
  const ONE_DAY_MILLIS: int := 86_400_000

  /**
   * A transaction under construction.  An input is recorded by its reference;
   * the state the vault returned with it is kept beside it, which is what the
   * platform resolves the reference to.
   */
  datatype TransactionBuilder = TransactionBuilder(
    notary: Option<MemberName>,
    timeWindow: Option<TimeWindow>,
    inputs: seq<StateAndRef>,
    outputs: seq<LoanState>,
    commands: seq<LoanContract.Command>,
    signatories: seq<PublicKey>)
  {
    function SetNotary(name: MemberName): TransactionBuilder
    {
      this.(notary := Some(name))
    }

    function SetTimeWindowBetween(from: int, until: int): TransactionBuilder
    {
      this.(timeWindow := Some(Between(from, until)))
    }

    function AddInputState(input: StateAndRef): TransactionBuilder
    {
      this.(inputs := inputs + [input])
    }

    function AddOutputState(output: LoanState): TransactionBuilder
    {
      this.(outputs := outputs + [output])
    }

    function AddCommand(command: LoanContract.Command): TransactionBuilder
    {
      this.(commands := commands + [command])
    }

    function AddSignatories(keys: seq<PublicKey>): TransactionBuilder
    {
      this.(signatories := signatories + keys)
    }
  }

  /** `ledgerService.createTransactionBuilder()`. */
  const EmptyBuilder := TransactionBuilder(None, None, [], [], [], [])

  /** The transaction the contract verifies once the builder's inputs are resolved. */
  function ToLedgerTransaction(b: TransactionBuilder): (tx: LoanContract.LedgerTransaction)
    ensures tx.commands == b.commands && tx.signatories == b.signatories
    ensures |tx.inputs| == |b.inputs| && |tx.outputs| == |b.outputs|
    ensures forall i | 0 <= i < |b.inputs| :: tx.inputs[i] == LoanContract.Loan(b.inputs[i].state.contractState)
    ensures forall i | 0 <= i < |b.outputs| :: tx.outputs[i] == LoanContract.Loan(b.outputs[i])
  {
    LoanContract.LedgerTransaction(
      b.commands,
      seq(|b.inputs|, i requires 0 <= i < |b.inputs| => LoanContract.Loan(b.inputs[i].state.contractState)),
      seq(|b.outputs|, i requires 0 <= i < |b.outputs| => LoanContract.Loan(b.outputs[i])),
      b.signatories)
  }

  /** A built, not yet signed transaction and the counterparty finality is run with. */
  datatype Proposal = Proposal(tx: TransactionBuilder, counterparty: MemberName)
}
