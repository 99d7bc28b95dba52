# Corda loan application — verified model

This project models the core of a Corda 5 CorDapp that records a loan
between two parties as an unspent-output state on a shared ledger:

- the loan record `LoanState` and its two "next version" builders,
  `payBack` and `transferLoan` (module `LoanStates`, file `loan_state.dfy`);
- the contract `LoanContract.verify`, the accept/reject decision over a
  resolved ledger transaction, with its ordered checks and error messages
  (module `LoanContract`, file `loan_contract.dfy`);
- the pure part of the three client flows, which select or create a loan,
  look up members and notary, and assemble a transaction
  (`CreateNewLoanFlow`, `SettleLoanFlow`, `TransferLoanFlow`), over a small
  value model of the platform services they call (module `Ledger`).

Kotlin `Int` is modelled as the 32-bit newtype `int32`; `paid + amountPaid`
wraps around exactly as on the JVM (`Wrap32`, `AddInt32`). Ledger keys
and UUIDs are compared for equality only. A `MemberName` stands for an
X.500 name in normal form: two spellings that `MemberX500Name` treats as
equal (attributes in another order, say) are the same `MemberName`, so
the notary's name is one constant. The
accessor `getParticipants` (LoanState.kt:19-21) is the datatype field
`participants`: it hands back the stored list unchanged.

The validator returns `Accepted` or `Rejected(r)`. `r` is either
`Contract(reason)` — one `Reason` constructor per message constant, in
the order the constants are declared (LoanContract.kt:13-26) — or one of the three exceptions the contract can raise
before reaching a message check: `NoSuchElement` and `MoreThanOneElement`
from `single()`, `ClassCast` from `as LoanState`. Verification is a pure
function, so it has no effect other than its verdict.

Behaviour of the code worth knowing:

- Zero or several commands are rejected with "Requires a single command.";
  "Command not allowed." is kept for a single command that is `Exit` or
  foreign. Both messages are thrown bare; only the checks made through
  `using` carry the prefix "Failed requirement: " (`Message`).
- The payback rejection text is "The payback amount needs to be under than
  the loan amount".
- Participants are an ordered list; a key listed twice counts twice.
- `PayBack` does not require `paid` to grow or `amount` to stay fixed
  (`PayBackIgnoresInputFigures`).
- The transfer flow makes the *caller's* first key a participant, not the
  stored borrower's key, and does not add the old lender's key to the
  signatories.
- On a two-party loan signed by both, a payback whose sum is above
  `Int.MAX_VALUE` wraps to a negative `paid` and is accepted against any
  non-negative amount (`PayBackOverflowAccepted`).

## Model

| member | source | states |
|---|---|---|
| `LoanStates.Wrap32` | contracts/src/main/kotlin/com/r3/developers/csdetemplate/utxoexample/states/LoanState.kt:24 | the 32-bit result is congruent to the exact value modulo 2^32 and equals it when it fits in `Int` |
| `LoanStates.PayBack` | contracts/src/main/kotlin/com/r3/developers/csdetemplate/utxoexample/states/LoanState.kt:23-25 | lender, borrower, amount, id and participants are unchanged; new `paid` is old `paid` + `amountPaid` modulo 2^32, exactly that sum when it does not overflow |
| `LoanStates.TransferLoan` | contracts/src/main/kotlin/com/r3/developers/csdetemplate/utxoexample/states/LoanState.kt:27-29 | lender and participants are the given ones; borrower, amount, paid and id are unchanged |
| `LoanStates.PayBackZero` | contracts/src/main/kotlin/com/r3/developers/csdetemplate/utxoexample/states/LoanState.kt:23-25 | `payBack(0)` is the identity |
| `LoanStates.AddInt32Associative` | contracts/src/main/kotlin/com/r3/developers/csdetemplate/utxoexample/states/LoanState.kt:24 | Kotlin `Int` addition is associative, overflow included |
| `LoanStates.PayBackCompose` | contracts/src/main/kotlin/com/r3/developers/csdetemplate/utxoexample/states/LoanState.kt:23-25 | `payBack(a)` then `payBack(b)` equals `payBack(a + b)`, with no overflow assumption |
| `LoanStates.ReplayKeepsIdentity` | contracts/src/main/kotlin/com/r3/developers/csdetemplate/utxoexample/states/LoanState.kt:23-29 | over any sequence of paybacks and transfers the id, borrower and amount never change and `paid` is the start value plus all paybacks modulo 2^32; without transfers lender and participants are unchanged too |
| `LoanContract.ContainsAll` | contracts/src/main/kotlin/com/r3/developers/csdetemplate/utxoexample/contracts/LoanContract.kt:64 | `signatories.containsAll(participants)` holds iff the participants, as a set, are among the signatories |
| `LoanContract.SingleLoan` | contracts/src/main/kotlin/com/r3/developers/csdetemplate/utxoexample/contracts/LoanContract.kt:72-73 | `single() as LoanState` succeeds exactly on a one-element list holding a loan; empty, longer and non-loan lists give their own exception |
| `LoanContract.Text` | contracts/src/main/kotlin/com/r3/developers/csdetemplate/utxoexample/contracts/LoanContract.kt:13-26 | each constant's text, with a length no other constant shares |
| `LoanContract.Message` | contracts/src/main/kotlin/com/r3/developers/csdetemplate/utxoexample/contracts/LoanContract.kt:93-101 | a `using` check throws "Failed requirement: " followed by the constant; the command checks at :37 and :52 throw the bare constant; `MessageIdentifiesReason` shows distinct reasons give distinct messages |
| `LoanContract.Verify` | contracts/src/main/kotlin/com/r3/developers/csdetemplate/utxoexample/contracts/LoanContract.kt:36-55 | accepted iff exactly one command and it is `Create` with `CreateRules`, `PayBack` with `PayBackRules`, or `Transfer` with one input and one output; the rejection reasons are stated by `NotSingleCommandRejected`, `UnknownCommandRejected`, `AcceptedHasOneKnownCommand` |
| `LoanContract.VerifyCreate` | contracts/src/main/kotlin/com/r3/developers/csdetemplate/utxoexample/contracts/LoanContract.kt:57-67 | accepted iff `CreateRules`; the one-output message is never produced and only `Create` messages are; order in `CreateFirstFailure` |
| `LoanContract.VerifyPayBack` | contracts/src/main/kotlin/com/r3/developers/csdetemplate/utxoexample/contracts/LoanContract.kt:69-84 | accepted iff `PayBackRules`; a wrong input or output count gives "invalid output and input", so `single()` never fails; order of the remaining checks in `PayBackFirstFailure` |
| `LoanContract.VerifyTransfer` | contracts/src/main/kotlin/com/r3/developers/csdetemplate/utxoexample/contracts/LoanContract.kt:86-88 | accepted iff one input and one output, otherwise "invalid output and input" |
| `LoanContract.MessageIdentifiesReason` | contracts/src/main/kotlin/com/r3/developers/csdetemplate/utxoexample/contracts/LoanContract.kt:13-26 | no two rejection reasons produce the same exception message |
| `LoanContract.NotSingleCommandRejected` | contracts/src/main/kotlin/com/r3/developers/csdetemplate/utxoexample/contracts/LoanContract.kt:37 | zero or several commands are rejected with "Requires a single command." before any command rule |
| `LoanContract.UnknownCommandRejected` | contracts/src/main/kotlin/com/r3/developers/csdetemplate/utxoexample/contracts/LoanContract.kt:39-54 | a single `Exit` or foreign command is always rejected with "Command not allowed." |
| `LoanContract.AcceptedHasOneKnownCommand` | contracts/src/main/kotlin/com/r3/developers/csdetemplate/utxoexample/contracts/LoanContract.kt:36-55 | an accepted transaction has exactly one command and it is `Create`, `PayBack` or `Transfer` |
| `LoanContract.CreateAcceptedIff` | contracts/src/main/kotlin/com/r3/developers/csdetemplate/utxoexample/contracts/LoanContract.kt:57-67 | `Create` is accepted iff no inputs, one loan output, two participants all among the signatories, and amount in 1..199 |
| `LoanContract.CreateFirstFailure` | contracts/src/main/kotlin/com/r3/developers/csdetemplate/utxoexample/contracts/LoanContract.kt:57-67 | the first failing `Create` check decides the rejection: `single()`, cast, inputs, participants, signatures, amount |
| `LoanContract.CreateOutputCountNeverReported` | contracts/src/main/kotlin/com/r3/developers/csdetemplate/utxoexample/contracts/LoanContract.kt:59-62 | the one-output message is never reported, because `single()` fails first |
| `LoanContract.CreateWithInputReportsInputFirst` | contracts/src/main/kotlin/com/r3/developers/csdetemplate/utxoexample/contracts/LoanContract.kt:59-66 | a `Create` with an input and any amount outside 1..199 reports the no-input message: inputs are checked before the amount |
| `LoanContract.PayBackAcceptedIff` | contracts/src/main/kotlin/com/r3/developers/csdetemplate/utxoexample/contracts/LoanContract.kt:69-84 | `PayBack` is accepted iff one loan input and one loan output, same lender and borrower, two participants all signing, output paid within output amount |
| `LoanContract.PayBackCardinalityFirst` | contracts/src/main/kotlin/com/r3/developers/csdetemplate/utxoexample/contracts/LoanContract.kt:70 | a wrong input or output count is reported as "invalid output and input" before any other `PayBack` check |
| `LoanContract.PayBackFirstFailure` | contracts/src/main/kotlin/com/r3/developers/csdetemplate/utxoexample/contracts/LoanContract.kt:72-83 | with one input and one output, a non-loan state gives the cast failure, then the first failing check decides: lender and borrower, participants, signatures, `paid <= amount` |
| `LoanContract.PayBackIgnoresInputFigures` | contracts/src/main/kotlin/com/r3/developers/csdetemplate/utxoexample/contracts/LoanContract.kt:75-83 | output `paid` and `amount` are not compared with the input's: a decreasing `paid` or a changed amount is accepted |
| `LoanContract.PayBackOfStateAcceptedIff` | contracts/src/main/kotlin/com/r3/developers/csdetemplate/utxoexample/contracts/LoanContract.kt:75-83 | for a two-party loan signed by both, (s, payBack(s, x)) is accepted iff the 32-bit `paid + x` is at most `amount` (iff `paid + x <= amount` without overflow), else the payback message |
| `LoanContract.PayBackOverflowAccepted` | contracts/src/main/kotlin/com/r3/developers/csdetemplate/utxoexample/contracts/LoanContract.kt:83 | on a two-party loan signed by both, a payback whose sum is above `Int.MAX_VALUE` yields a negative `paid` and is accepted against any non-negative amount |
| `LoanContract.TransferAcceptedIff` | contracts/src/main/kotlin/com/r3/developers/csdetemplate/utxoexample/contracts/LoanContract.kt:86-88 | `Transfer` is accepted iff one input and one output, otherwise "invalid output and input"; nothing else is checked |
| `Ledger.LookupMember` | workflows/src/main/kotlin/com/r3/developers/csdetemplate/loanapp/workflows/SettleLoanFlow.kt:64-65 | `memberLookup.lookup` finds a member iff the name is in the directory, and returns that name with its ledger keys |
| `Ledger.FirstKey` | workflows/src/main/kotlin/com/r3/developers/csdetemplate/loanapp/workflows/CreateNewLoanFlow.kt:65 | `ledgerKeys.first()` gives the first key, or fails on an empty list |
| `Ledger.WithId` | workflows/src/main/kotlin/com/r3/developers/csdetemplate/loanapp/workflows/SettleLoanFlow.kt:57 | the filter keeps every entry carrying the id, as often as it occurs, and nothing else (a multiset equation), so it is empty iff none does |
| `Ledger.WithIdSingleton` | workflows/src/main/kotlin/com/r3/developers/csdetemplate/loanapp/workflows/SettleLoanFlow.kt:57-60 | the filter has size one iff exactly one entry carries the id, and then it is that entry |
| `Ledger.FindUnconsumedById` | workflows/src/main/kotlin/com/r3/developers/csdetemplate/loanapp/workflows/TransferLoanFlow.kt:55-59 | selection succeeds iff exactly one unconsumed loan has the id and returns it; otherwise "Invalid transaction or transaction not found" |
| `Ledger.ToLedgerTransaction` | workflows/src/main/kotlin/com/r3/developers/csdetemplate/loanapp/workflows/SettleLoanFlow.kt:71-77 | the verified transaction keeps the builder's commands, signatories, and inputs and outputs in order |
| `CreateNewLoanFlow.Call` | workflows/src/main/kotlin/com/r3/developers/csdetemplate/loanapp/workflows/CreateNewLoanFlow.kt:54-77 | unknown lender gives "err", missing notary "Notary not found"; otherwise one new loan with paid 0, the caller as borrower, the given lender, amount and id, participants [caller key, lender key], no inputs, command `Create`, signatories = participants |
| `CreateNewLoanFlow.CreateSucceedsIffLookupsSucceed` | workflows/src/main/kotlin/com/r3/developers/csdetemplate/loanapp/workflows/CreateNewLoanFlow.kt:55-71 | a transaction is built iff the lookups succeed; the amount is not checked locally |
| `CreateNewLoanFlow.CreateAcceptedIffAmountInRange` | workflows/src/main/kotlin/com/r3/developers/csdetemplate/loanapp/workflows/CreateNewLoanFlow.kt:59-77 | a built create transaction is accepted by the contract iff 1 <= amount <= 199, otherwise rejected with the amount message |
| `SettleLoanFlow.Call` | workflows/src/main/kotlin/com/r3/developers/csdetemplate/loanapp/workflows/SettleLoanFlow.kt:56-77 | no unique loan with the id gives the not-found message, unresolvable lender "Transaction not found"; otherwise input = the found entry, output = payBack(amountToSettle), command `PayBack`, the input's notary, signatories = the loan's participants |
| `SettleLoanFlow.SettleAcceptedIffWithinAmount` | workflows/src/main/kotlin/com/r3/developers/csdetemplate/loanapp/workflows/SettleLoanFlow.kt:67-77 | a built settlement of a two-party loan is accepted iff paid + amountToSettle (32-bit) is within amount; with any other participant count it is rejected |
| `TransferLoanFlow.Call` | workflows/src/main/kotlin/com/r3/developers/csdetemplate/loanapp/workflows/TransferLoanFlow.kt:55-79 | no unique loan gives the not-found message, unknown new lender its lookup message; otherwise input = the found entry, output = transferLoan(new lender, [caller key, new lender key]), command `Transfer`, the input's notary, signatories = the new participants |
| `TransferLoanFlow.TransferAlwaysAccepted` | workflows/src/main/kotlin/com/r3/developers/csdetemplate/loanapp/workflows/TransferLoanFlow.kt:67-79 | a built transfer keeps id, borrower, amount and paid, has two participants, and is always accepted |

## Left out

- Finality (`FinalizeLoanSubFlow`): signature collection, notarisation and session messaging belong to the platform; the consume-once guarantee is the notary's and is not part of this model.
- `ListLoansFlow`: a vault query followed by JSON formatting.
- JSON request parsing, logging and service injection in all flows.
- `MemberX500Name.parse`: names reach the flows already parsed, so a malformed name string is not modelled.
- Clocks and randomness: the fresh UUID is a parameter, and both `Instant.now()` readings of a flow are one `now` parameter.
- The caller's own `myInfo()` lookup in the settle flow: its result is unused there.
- Which states the platform hands to the contract, and its signature checks: `verify` is modelled on the resolved transaction it is given.
- The messages of the JVM exceptions raised by `single()`, `first()` and the cast: they are modelled as distinct error values without text.
- Concurrency and double spending across parallel flows: enforced by the notary, not by this code.
