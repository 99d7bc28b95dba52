/**
 * The loan record (`LoanState`) and the Kotlin `Int` arithmetic it uses.
 *
 * A record is an immutable value; `PayBack` and `TransferLoan` build the
 * next version of it.  Names and keys are opaque values compared only for
 * equality.
 */
module LoanStates {

  const TWO_TO_THE_32: int := 0x1_0000_0000
  const INT32_MIN: int := -0x8000_0000
  const INT32_MAX: int := 0x7fff_ffff

  /** Kotlin `Int`: a two's-complement 32-bit integer. */
  newtype int32 = x: int | -0x8000_0000 <= x < 0x8000_0000

  predicate InInt32Range(x: int)
  {
    INT32_MIN <= x <= INT32_MAX
  }

  /** The 32-bit value congruent to `x`: what a Kotlin `Int` computation yields. */
  function Wrap32(x: int): (r: int32)
    ensures (x - r as int) % TWO_TO_THE_32 == 0
    ensures InInt32Range(x) ==> r as int == x
  {
    ((x + 0x8000_0000) % TWO_TO_THE_32 - 0x8000_0000) as int32
  }

  /** Kotlin `a + b` on `Int`: wraps around on overflow, never throws. */
  function AddInt32(a: int32, b: int32): int32
  {
    Wrap32(a as int + b as int)
  }

  /**
   * An X.500 member name (`MemberX500Name`) in normal form: spellings the
   * platform treats as the same name are the same value here.
   */
  datatype MemberName = MemberName(x500: string)

  /** A ledger signing key (`PublicKey`), compared by equality only. */
  datatype PublicKey = PublicKey(encoded: seq<bv8>)

  /** A `java.util.UUID`. */
  datatype Uuid = Uuid(mostSigBits: bv64, leastSigBits: bv64)

  /**
   * One version of a loan.  `participants` is the list returned by
   * `getParticipants`: the accessor hands back the stored list unchanged.
   */
  datatype LoanState = LoanState(
    lender: MemberName,
    borrower: MemberName,
    amount: int32,
    paid: int32,
    id: Uuid,
    participants: seq<PublicKey>)

  /** `payBack(amountPaid)`: the same loan with `amountPaid` added to `paid`. */
  function PayBack(s: LoanState, amountPaid: int32): (r: LoanState)
    ensures r.lender == s.lender && r.borrower == s.borrower && r.amount == s.amount
    ensures r.id == s.id && r.participants == s.participants
    ensures (r.paid as int - s.paid as int - amountPaid as int) % TWO_TO_THE_32 == 0
    ensures InInt32Range(s.paid as int + amountPaid as int) ==>
              r.paid as int == s.paid as int + amountPaid as int
  {
    s.(paid := AddInt32(s.paid, amountPaid))
  }

  /** `transferLoan(newLender, newParticipants)`: a new lender and participant list, nothing else changed. */
  function TransferLoan(s: LoanState, newLender: MemberName, newParticipants: seq<PublicKey>): (r: LoanState)
    ensures r.lender == newLender && r.participants == newParticipants
    ensures r.borrower == s.borrower && r.amount == s.amount && r.paid == s.paid && r.id == s.id
  {
    s.(lender := newLender, participants := newParticipants)
  }

  // ---------------------------------------------------------------------------
  // Arithmetic behind PayBack

  /** Two integers congruent modulo 2^32 wrap to the same `Int`. */
  lemma WrapCongruent(x: int, y: int)
    requires (x - y) % TWO_TO_THE_32 == 0
    ensures Wrap32(x) == Wrap32(y)
  {
  }

  /** Kotlin `Int` addition is associative, overflow included. */
  lemma AddInt32Associative(a: int32, b: int32, c: int32)
    ensures AddInt32(AddInt32(a, b), c) == AddInt32(a, AddInt32(b, c))
  {
    var ab, bc := AddInt32(a, b) as int, AddInt32(b, c) as int;
    var k1, k2 := (a as int + b as int - ab) / TWO_TO_THE_32, (b as int + c as int - bc) / TWO_TO_THE_32;
    assert a as int + b as int - ab == k1 * TWO_TO_THE_32;
    assert b as int + c as int - bc == k2 * TWO_TO_THE_32;
    WrapCongruent(ab + c as int, a as int + bc);
  }

  // ---------------------------------------------------------------------------
  // Properties of the two builders

  /** `payBack(0)` is the identity. */
  lemma PayBackZero(s: LoanState)
    ensures PayBack(s, 0) == s
  {
  }

  /** Two paybacks equal one payback of their (32-bit) sum. */
  lemma PayBackCompose(s: LoanState, a: int32, b: int32)
    ensures PayBack(PayBack(s, a), b) == PayBack(s, AddInt32(a, b))
  {
    AddInt32Associative(s.paid, a, b);
  }

  /** One step in the life of a loan after its creation. */
  datatype Step =
    | PayBackStep(amountPaid: int32)
    | TransferStep(newLender: MemberName, newParticipants: seq<PublicKey>)

  /** The version of a loan reached by applying the builders of `steps` in order. */
  function Replay(s: LoanState, steps: seq<Step>): LoanState
    decreases |steps|
  {
    if steps == [] then s
    else
      var next := match steps[0]
        case PayBackStep(x) => PayBack(s, x)
        case TransferStep(l, ps) => TransferLoan(s, l, ps);
      Replay(next, steps[1..])
  }

  /** The exact (unwrapped) total of the paybacks in `steps`. */
  function TotalPaidBack(steps: seq<Step>): int
    decreases |steps|
  {
    if steps == [] then 0
    else (if steps[0].PayBackStep? then steps[0].amountPaid as int else 0) + TotalPaidBack(steps[1..])
  }

  /**
   * Whatever sequence of paybacks and transfers a loan goes through, its id,
   * borrower and amount never change, and `paid` is the original value plus
   * every payback, taken modulo 2^32.  Without a transfer the lender and the
   * participants are unchanged too.
   */
  lemma {:induction false} ReplayKeepsIdentity(s: LoanState, steps: seq<Step>)
    ensures Replay(s, steps).id == s.id
    ensures Replay(s, steps).borrower == s.borrower
    ensures Replay(s, steps).amount == s.amount
    ensures Replay(s, steps).paid == Wrap32(s.paid as int + TotalPaidBack(steps))
    ensures (forall i | 0 <= i < |steps| :: steps[i].PayBackStep?) ==>
              Replay(s, steps).lender == s.lender && Replay(s, steps).participants == s.participants
    decreases |steps|
  {
    if steps == [] {
      assert Wrap32(s.paid as int) == s.paid;
    } else {
      var next := match steps[0]
        case PayBackStep(x) => PayBack(s, x)
        case TransferStep(l, ps) => TransferLoan(s, l, ps);
      ReplayKeepsIdentity(next, steps[1..]);
      var head := if steps[0].PayBackStep? then steps[0].amountPaid as int else 0;
      assert (next.paid as int - s.paid as int - head) % TWO_TO_THE_32 == 0;
      var k := (next.paid as int - s.paid as int - head) / TWO_TO_THE_32;
      assert next.paid as int - s.paid as int - head == k * TWO_TO_THE_32;
      WrapCongruent(next.paid as int + TotalPaidBack(steps[1..]), s.paid as int + TotalPaidBack(steps));
      if forall i | 0 <= i < |steps| :: steps[i].PayBackStep? {
        assert forall i | 0 <= i < |steps[1..]| :: steps[1..][i].PayBackStep? by {
          forall i | 0 <= i < |steps[1..]| ensures steps[1..][i].PayBackStep? {
            assert steps[1..][i] == steps[i + 1];
          }
        }
      }
    }
  }
}
