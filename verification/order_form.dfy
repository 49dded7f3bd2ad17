/**
 * The three-step intake wizard (src/components/OrderForm.tsx): the form's
 * state, its step counter, measurement edits, and the construction of a new
 * `Order` on submit. Clock readings, the random tracking token and number
 * parsing are parameters.
 */
module OrderForm {
  import opened Wrappers
  import opened Schema
  import opened Catalog
  import opened Digits

  // ------------------------------------------------------------- form state

  /**
   * What the intake form holds. Amounts are kept as the text typed; the
   * delivery date is the timestamp the date input denotes, `None` while it is
   * empty.
   */
  datatype Draft = Draft(
    customerName: string,
    mobile: string,
    dressType: DressType,
    measurements: Measurements,
    deliveryDate: Option<int>,
    amountTotal: string,
    amountPaid: string,
    paymentMethod: PaymentMethod,
    materialNotes: string,
    materialImage: Option<string>
  )

  /** A freshly opened form: a shirt, cash, nothing typed, no measurements, no image. */
  function InitialDraft(): Draft {
    Draft("", "", Shirt, map[], None, "", "", Cash, "", None)
  }

  /** `parseFloat(text) || 0`: a failed parse (NaN) and a zero both give 0. */
  function OrZero<T>(parsed: Option<T>, zero: T): (r: T)
    ensures parsed.None? ==> r == zero
    ensures parsed.Some? ==> r == parsed.value
  {
    parsed.GetOr(zero)
  }

  // ------------------------------------------------------------ step counter

  datatype Button = Back | Next

  /** Where a footer button leads: another step, out of the form, or to submission. */
  datatype WizardResult = AtStep(step: int) | Cancelled | Submitted

  /**
   * The footer: on step 1 the left button is Cancel, otherwise Back; on step 3
   * the right button is Create Order, otherwise Next.
   */
  function Press(step: int, b: Button): (r: WizardResult)
    ensures 1 <= step <= 3 && r.AtStep? ==> 1 <= r.step <= 3
    ensures b == Back ==> (r.AtStep? <==> step > 1) && (r.AtStep? ==> r.step == step - 1)
    ensures b == Next ==> (r.AtStep? <==> step < 3) && (r.AtStep? ==> r.step == step + 1)
    ensures r.Cancelled? <==> b == Back && step <= 1
    ensures r.Submitted? <==> b == Next && step >= 3
  {
    match b
    case Back => if step > 1 then AtStep(step - 1) else Cancelled
    case Next => if step < 3 then AtStep(step + 1) else Submitted
  }

  /** Presses a sequence of footer buttons from `step`, stopping once the form is left. */
  function Run(step: int, presses: seq<Button>): WizardResult
    decreases |presses|
  {
    if |presses| == 0 then AtStep(step)
    else match Press(step, presses[0])
      case AtStep(next) => Run(next, presses[1..])
      case other => other
  }

  /** Whatever buttons are pressed from the first step, the wizard never shows a step outside 1..3. */
  lemma {:induction false} RunStaysInRange(step: int, presses: seq<Button>)
    requires 1 <= step <= 3
    ensures Run(step, presses).AtStep? ==> 1 <= Run(step, presses).step <= 3
    decreases |presses|
  {
    if |presses| > 0 {
      var r := Press(step, presses[0]);
      if r.AtStep? {
        RunStaysInRange(r.step, presses[1..]);
      }
    }
  }

  /** Two Next presses from the first step reach the Create Order button; a third submits. */
  lemma SubmitTakesThreeNexts()
    ensures Run(1, [Next, Next]) == AtStep(3)
    ensures Run(1, [Next, Next, Next]) == Submitted
    ensures Run(1, [Back]) == Cancelled
  {
    assert [Next, Next][1..] == [Next];
    assert [Next, Next, Next][1..] == [Next, Next];
  }

  // ----------------------------------------------------------- measurements

  /** The measurement inputs step 2 renders: the required keys of the chosen garment. */
  function MeasurementInputs(d: Draft): (r: seq<Field>)
    ensures |r| == |RequiredMeasurements(d.dressType)| > 0
    ensures forall i :: 0 <= i < |r| ==> FieldName(r[i]) == RequiredMeasurements(d.dressType)[i]
  {
    RequiredFields(d.dressType)
  }

  /** Typing into one measurement input: that key becomes the parsed value (or 0); nothing else changes. */
  function EditMeasurement(d: Draft, key: Field, parsed: Option<real>): (r: Draft)
    ensures r.measurements.Keys == d.measurements.Keys + {key}
    ensures r.measurements[key] == OrZero(parsed, 0.0)
    ensures forall k :: k in d.measurements && k != key ==> r.measurements[k] == d.measurements[k]
    ensures r.(measurements := d.measurements) == d
  {
    d.(measurements := d.measurements[key := OrZero(parsed, 0.0)])
  }

  /** Picking a garment. Measurements already entered are kept, even those the new garment does not use. */
  function SelectDressType(d: Draft, t: DressType): (r: Draft)
    ensures r.dressType == t
    ensures r.measurements == d.measurements
    ensures r.(dressType := d.dressType) == d
  {
    d.(dressType := t)
  }

  /**
   * A value entered for one garment survives a switch to a garment that does
   * not use it, so a submitted order may hold keys outside its own required list.
   */
  lemma StaleMeasurementSurvives(d: Draft, key: Field, parsed: Option<real>, t: DressType)
    requires key !in RequiredFields(t)
    ensures var e := SelectDressType(EditMeasurement(d, key, parsed), t);
      key in e.measurements && key !in MeasurementInputs(e)
  {
  }

  /** Concretely: a shirt cuff entered, then the garment changed to a kurta. */
  lemma ShirtCuffKeptForKurta(parsed: Option<real>)
    ensures var e := SelectDressType(EditMeasurement(InitialDraft(), Cuff, parsed), Kurta);
      Cuff in e.measurements && Cuff !in RequiredFields(Kurta)
  {
    var d := InitialDraft();
    CuffIsShirtOnly();
    StaleMeasurementSurvives(d, Cuff, parsed, Kurta);
  }

  lemma CuffIsShirtOnly()
    ensures Cuff in RequiredFields(Shirt) && Cuff !in RequiredFields(Kurta)
  {
    ShirtRequires();
    KurtaRequires();
    assert RequiredFields(Shirt)[6] == Cuff;
  }

  // ------------------------------------------------------------ identifiers

  lemma Pow10Values()
    ensures Pow10(4) == 10000 && Pow10(5) == 100000 && Pow10(6) == 1000000 && Pow10(3) == 1000
  {
  }

  /** "ORD-" followed by the last six characters of the clock reading's decimal form. */
  function OrderId(clock: nat): (r: string)
    ensures 5 <= |r| <= 10
    ensures r[..4] == "ORD-"
  {
    "ORD-" + SliceLast(Decimal(clock), 6)
  }

  /** "CUST-" followed by the last four characters of the clock reading's decimal form. */
  function CustomerId(clock: nat): (r: string)
    ensures 6 <= |r| <= 9
    ensures r[..5] == "CUST-"
  {
    "CUST-" + SliceLast(Decimal(clock), 4)
  }

  /** From six-digit readings on, the id carries the reading modulo one million, zero-padded. */
  lemma OrderIdDigits(clock: nat)
    requires clock >= 100000
    ensures OrderId(clock) == "ORD-" + Padded(clock % 1000000, 6)
    ensures Value(OrderId(clock)[4..]) == clock % 1000000
  {
    Pow10Values();
    DecimalLength(clock, 6);
    SliceLastOfDecimal(clock, 6);
    PaddedMod(clock, 6);
    LastDigitsValue(clock, 6);
    assert OrderId(clock)[4..] == SliceLast(Decimal(clock), 6);
  }

  /**
   * Ids are not unique: two readings of at least six digits get the same id
   * exactly when they agree modulo one million (about 16.7 minutes).
   */
  lemma OrderIdCollision(n: nat, m: nat)
    requires n >= 100000 && m >= 100000
    ensures OrderId(n) == OrderId(m) <==> n % 1000000 == m % 1000000
  {
    Pow10Values();
    DecimalLength(n, 6);
    DecimalLength(m, 6);
    LastDigitsAgree(n, m, 6);
    if OrderId(n) == OrderId(m) {
      assert OrderId(n)[4..] == SliceLast(Decimal(n), 6);
      assert OrderId(m)[4..] == SliceLast(Decimal(m), 6);
    }
  }

  /** Customer ids repeat every 10,000 milliseconds in the same way. */
  lemma CustomerIdCollision(n: nat, m: nat)
    requires n >= 1000 && m >= 1000
    ensures CustomerId(n) == CustomerId(m) <==> n % 10000 == m % 10000
  {
    Pow10Values();
    DecimalLength(n, 4);
    DecimalLength(m, 4);
    LastDigitsAgree(n, m, 4);
    if CustomerId(n) == CustomerId(m) {
      assert CustomerId(n)[5..] == SliceLast(Decimal(n), 4);
      assert CustomerId(m)[5..] == SliceLast(Decimal(m), 4);
    }
  }

  // --------------------------------------------------------------- submission

  /**
   * The readings taken while submitting: `Date.now()` for the order id and
   * again for the customer id, `new Date()` for the order date, and the token
   * cut from `Math.random()`.
   */
  datatype SubmitEnv = SubmitEnv(idClock: nat, customerClock: nat, orderDate: int, trackingToken: string)

  /** The order `handleSubmit` hands to the store. `parseAmount` stands for `parseFloat` on the amount text. */
  function Build(d: Draft, env: SubmitEnv, parseAmount: string -> Option<int>): (o: Order)
    ensures o.status == Measured
    ensures o.id == OrderId(env.idClock) && o.customerId == CustomerId(env.customerClock)
    ensures o.customerName == d.customerName && o.mobile == d.mobile
    ensures o.dressType == d.dressType && o.measurements == d.measurements
    ensures o.deliveryDate == d.deliveryDate && o.paymentMethod == d.paymentMethod
    ensures o.materialNotes == Some(d.materialNotes) && o.materialImage == d.materialImage
    ensures o.orderDate == env.orderDate && o.trackingToken == env.trackingToken
    ensures parseAmount(d.amountTotal).Some? ==> o.amountTotal == parseAmount(d.amountTotal).value
    ensures parseAmount(d.amountTotal).None? ==> o.amountTotal == 0
    ensures parseAmount(d.amountPaid).Some? ==> o.amountPaid == parseAmount(d.amountPaid).value
    ensures parseAmount(d.amountPaid).None? ==> o.amountPaid == 0
  {
    Order(
      OrderId(env.idClock),
      CustomerId(env.customerClock),
      d.customerName,
      d.mobile,
      d.dressType,
      d.measurements,
      d.materialImage,
      Some(d.materialNotes),
      env.orderDate,
      d.deliveryDate,
      Measured,
      OrZero(parseAmount(d.amountTotal), 0),
      OrZero(parseAmount(d.amountPaid), 0),
      d.paymentMethod,
      env.trackingToken
    )
  }

  /** Two submissions a million milliseconds apart build orders with the same id. */
  lemma ResubmissionReusesId(d: Draft, env: SubmitEnv, parseAmount: string -> Option<int>)
    requires env.idClock >= 100000
    ensures Build(d, env, parseAmount).id == Build(d, env.(idClock := env.idClock + 1000000), parseAmount).id
  {
    var n := env.idClock;
    DivModUnique(n + 1000000, 1000000, n / 1000000 + 1, n % 1000000);
    OrderIdCollision(n, n + 1000000);
  }
}
