/** The closed set of payment methods an expense can record, with the codes
    stored in the database and the labels shown to the user
    (lib/constants/payment-type.ts). */
module PaymentTypes {
  import opened Wrappers

  datatype PaymentType = Upi | CreditCard | DebitCard | BankTransfer | Cash

  /** The database enum value. */
  function Code(p: PaymentType): string
  {
    match p
    case Upi => "upi"
    case CreditCard => "credit_card"
    case DebitCard => "debit_card"
    case BankTransfer => "bank_transfer"
    case Cash => "cash"
  }

  /** The display label (`PAYMENT_TYPE_LABELS`). */
  function Label(p: PaymentType): string
  {
    match p
    case Upi => "UPI"
    case CreditCard => "Credit Card"
    case DebitCard => "Debit Card"
    case BankTransfer => "Bank Transfer"
    case Cash => "Cash"
  }

  /** `ALL_PAYMENT_TYPES`: every payment type once, in declaration order. */
  function AllPaymentTypes(): (r: seq<PaymentType>)
    ensures |r| == 5
    ensures forall p :: p in r
    ensures forall i, j :: 0 <= i < j < |r| ==> r[i] != r[j]
    ensures r[0] == Upi && r[1] == CreditCard && r[2] == DebitCard && r[3] == BankTransfer && r[4] == Cash
  {
    EveryValueListed();
    [Upi, CreditCard, DebitCard, BankTransfer, Cash]
  }

  lemma EveryValueListed()
    ensures forall p :: p in [Upi, CreditCard, DebitCard, BankTransfer, Cash]
  {
    forall p: PaymentType ensures p in [Upi, CreditCard, DebitCard, BankTransfer, Cash] {
      match p
      case Upi =>
      case CreditCard =>
      case DebitCard =>
      case BankTransfer =>
      case Cash =>
    }
  }

  /** Reads a database code; anything but the five codes is rejected. */
  function FromCode(s: string): (r: Option<PaymentType>)
    ensures r.Some? ==> Code(r.value) == s
    ensures r.None? ==> forall p :: Code(p) != s
  {
    if s == "upi" then Some(Upi)
    else if s == "credit_card" then Some(CreditCard)
    else if s == "debit_card" then Some(DebitCard)
    else if s == "bank_transfer" then Some(BankTransfer)
    else if s == "cash" then Some(Cash)
    else None
  }

  /** Codes and labels are pairwise distinct, and every code reads back. */
  lemma CodesAndLabelsDistinct(p: PaymentType, q: PaymentType)
    ensures Code(p) == Code(q) ==> p == q
    ensures Label(p) == Label(q) ==> p == q
    ensures FromCode(Code(p)) == Some(p)
  {
  }
}
