/**
 * The record shapes and closed enumerations of the order book (src/types.ts):
 * garment types, production statuses, payment methods, the twelve optional
 * measurement fields, and the `Order` record itself.
 */
module Schema {
  import opened Wrappers

  /** No element occurs twice. */
  predicate Distinct<T(==)>(s: seq<T>) {
    forall i, j :: 0 <= i < j < |s| ==> s[i] != s[j]
  }

  // ---------------------------------------------------------------- DressType

  datatype DressType = Shirt | Pant | Kurta | Sherwani | Suit | Pajama

  /** The string each enumeration member stands for at run time. */
  function DressTypeValue(d: DressType): string {
    match d
    case Shirt => "Shirt"
    case Pant => "Pant"
    case Kurta => "Kurta"
    case Sherwani => "Sherwani"
    case Suit => "Suit"
    case Pajama => "Pajama"
  }

  /** Position of a member in the declaration. */
  function DressTypeOrdinal(d: DressType): (k: nat)
    ensures k < 6
  {
    match d
    case Shirt => 0
    case Pant => 1
    case Kurta => 2
    case Sherwani => 3
    case Suit => 4
    case Pajama => 5
  }

  /** The members in declaration order. */
  function AllDressTypes(): (r: seq<DressType>)
    ensures |r| == 6 && Distinct(r)
    ensures forall d: DressType :: r[DressTypeOrdinal(d)] == d
  {
    [Shirt, Pant, Kurta, Sherwani, Suit, Pajama]
  }

  lemma DressTypeValuesDistinct(a: DressType, b: DressType)
    ensures DressTypeValue(a) == DressTypeValue(b) <==> a == b
  {
  }

  // -------------------------------------------------------------- OrderStatus

  /** Production stages; declared in the order the shop works through them. */
  datatype OrderStatus = Measured | Cutting | Stitching | Finishing | Ready | Delivered

  function StatusValue(s: OrderStatus): string {
    match s
    case Measured => "Measured"
    case Cutting => "Cutting"
    case Stitching => "Stitching"
    case Finishing => "Finishing"
    case Ready => "Ready"
    case Delivered => "Delivered"
  }

  /** Position of a member in the declaration. */
  function StatusOrdinal(s: OrderStatus): (k: nat)
    ensures k < 6
  {
    match s
    case Measured => 0
    case Cutting => 1
    case Stitching => 2
    case Finishing => 3
    case Ready => 4
    case Delivered => 5
  }

  /** `Object.values(OrderStatus)`: every member once, in declaration order. */
  function AllStatuses(): (r: seq<OrderStatus>)
    ensures |r| == 6 && Distinct(r)
    ensures forall s: OrderStatus :: r[StatusOrdinal(s)] == s
    ensures r[0] == Measured && r[5] == Delivered
  {
    [Measured, Cutting, Stitching, Finishing, Ready, Delivered]
  }

  lemma StatusValuesDistinct(a: OrderStatus, b: OrderStatus)
    ensures StatusValue(a) == StatusValue(b) <==> a == b
  {
  }

  // ------------------------------------------------------------ PaymentMethod

  datatype PaymentMethod = Cash | CreditCard | DebitCard | Upi

  function PaymentMethodValue(p: PaymentMethod): string {
    match p
    case Cash => "Cash"
    case CreditCard => "Credit Card"
    case DebitCard => "Debit Card"
    case Upi => "UPI"
  }

  function PaymentMethodOrdinal(p: PaymentMethod): (k: nat)
    ensures k < 4
  {
    match p
    case Cash => 0
    case CreditCard => 1
    case DebitCard => 2
    case Upi => 3
  }

  function AllPaymentMethods(): (r: seq<PaymentMethod>)
    ensures |r| == 4 && Distinct(r)
    ensures forall p: PaymentMethod :: r[PaymentMethodOrdinal(p)] == p
  {
    [Cash, CreditCard, DebitCard, Upi]
  }

  lemma PaymentMethodValuesDistinct(a: PaymentMethod, b: PaymentMethod)
    ensures PaymentMethodValue(a) == PaymentMethodValue(b) <==> a == b
  {
  }

  // ------------------------------------------------------------- Measurements

  /** The twelve keys of the `Measurements` interface. */
  datatype Field =
    | Neck | Shoulder | Chest | Waist | Hips | SleeveLength
    | ShirtLength | PantLength | Inseam | Thigh | Biceps | Cuff

  /** The property name each key has in the record. */
  function FieldName(f: Field): string {
    match f
    case Neck => "neck"
    case Shoulder => "shoulder"
    case Chest => "chest"
    case Waist => "waist"
    case Hips => "hips"
    case SleeveLength => "sleeveLength"
    case ShirtLength => "shirtLength"
    case PantLength => "pantLength"
    case Inseam => "inseam"
    case Thigh => "thigh"
    case Biceps => "biceps"
    case Cuff => "cuff"
  }

  /** Reads a property name back as a key; `None` for any string that is not one of the twelve. */
  function FieldOf(name: string): (r: Option<Field>)
    ensures r.Some? ==> FieldName(r.value) == name
  {
    if name == "neck" then Some(Neck)
    else if name == "shoulder" then Some(Shoulder)
    else if name == "chest" then Some(Chest)
    else if name == "waist" then Some(Waist)
    else if name == "hips" then Some(Hips)
    else if name == "sleeveLength" then Some(SleeveLength)
    else if name == "shirtLength" then Some(ShirtLength)
    else if name == "pantLength" then Some(PantLength)
    else if name == "inseam" then Some(Inseam)
    else if name == "thigh" then Some(Thigh)
    else if name == "biceps" then Some(Biceps)
    else if name == "cuff" then Some(Cuff)
    else None
  }

  /** Every key's name reads back as that key, so names and keys are in one-to-one correspondence. */
  lemma FieldNameRoundTrip(f: Field)
    ensures FieldOf(FieldName(f)) == Some(f)
  {
  }

  /**
   * Every measurement is optional: a record holds a value (inches) for some
   * subset of the twelve keys and nothing for the rest.
   */
  type Measurements = map<Field, real>

  /** Any subset of the twelve keys is the key set of some record. */
  lemma AnyFieldSubsetRepresentable(fs: set<Field>) returns (m: Measurements)
    ensures m.Keys == fs
  {
    m := map f | f in fs :: 0.0;
  }

  // -------------------------------------------------------------------- Order

  /**
   * One tailoring order. Dates are millisecond timestamps; `deliveryDate` is
   * `None` when the stored date text does not denote a date. Amounts are whole
   * rupees and nothing ties `amountPaid` to `amountTotal`. Only
   * `materialImage` and `materialNotes` may be absent.
   */
  datatype Order = Order(
    id: string,
    customerId: string,
    customerName: string,
    mobile: string,
    dressType: DressType,
    measurements: Measurements,
    materialImage: Option<string>,
    materialNotes: Option<string>,
    orderDate: int,
    deliveryDate: Option<int>,
    status: OrderStatus,
    amountTotal: int,
    amountPaid: int,
    paymentMethod: PaymentMethod,
    trackingToken: string
  )

  /** Amount still owed on one order; negative when the customer overpaid. */
  function Balance(o: Order): int {
    o.amountTotal - o.amountPaid
  }
}
