/**
 * The constant tables the order book is driven by (src/constants.ts): the
 * garment picker entries, the canonical status sequence, the payment method
 * list, the garment-type to required-measurement table, and the two seed orders.
 */
module Catalog {
  import opened Wrappers
  import opened Schema

  // ----------------------------------------------------------- garment picker

  /** One entry of the garment picker; the icon is presentation and left out. */
  datatype DressTypeEntry = DressTypeEntry(id: DressType, caption: string)

  function DressTypeEntries(): seq<DressTypeEntry> {
    [
      DressTypeEntry(Shirt, "Formal Shirt"),
      DressTypeEntry(Pant, "Formal Pant"),
      DressTypeEntry(Kurta, "Traditional Kurta"),
      DressTypeEntry(Sherwani, "Wedding Sherwani"),
      DressTypeEntry(Suit, "3-Piece Suit"),
      DressTypeEntry(Pajama, "Pajama / Churidar")
    ]
  }

  function EntryIds(es: seq<DressTypeEntry>): (r: seq<DressType>)
    ensures |r| == |es|
    ensures forall i :: 0 <= i < |es| ==> r[i] == es[i].id
  {
    if |es| == 0 then [] else [es[0].id] + EntryIds(es[1..])
  }

  /** The picker offers every garment type exactly once, in declaration order. */
  lemma DressTypeEntriesCoverEachTypeOnce()
    ensures EntryIds(DressTypeEntries()) == AllDressTypes()
    ensures Distinct(EntryIds(DressTypeEntries()))
    ensures forall d: DressType :: d in EntryIds(DressTypeEntries())
  {
    var ids := EntryIds(DressTypeEntries());
    assert ids == AllDressTypes();
    forall d: DressType
      ensures d in ids
    {
      assert ids[DressTypeOrdinal(d)] == d;
    }
  }

  // ------------------------------------------------------------- status flow

  /** The advisory forward sequence of production stages. Nothing enforces it. */
  function StatusFlow(): seq<OrderStatus> {
    [Measured, Cutting, Stitching, Finishing, Ready, Delivered]
  }

  /** The flow lists every status exactly once, in declaration order, from `Measured` to `Delivered`. */
  lemma StatusFlowIsDeclarationOrder()
    ensures StatusFlow() == AllStatuses()
    ensures |StatusFlow()| == 6 && Distinct(StatusFlow())
    ensures StatusFlow()[0] == Measured && StatusFlow()[|StatusFlow()| - 1] == Delivered
    ensures forall s: OrderStatus :: s in StatusFlow()
  {
    forall s: OrderStatus
      ensures s in StatusFlow()
    {
      assert StatusFlow()[StatusOrdinal(s)] == s;
    }
  }

  // ---------------------------------------------------------- payment methods

  function PaymentMethods(): seq<PaymentMethod> {
    [Cash, CreditCard, DebitCard, Upi]
  }

  /** The payment picker offers each of the four methods once. */
  lemma PaymentMethodsListEachOnce()
    ensures |PaymentMethods()| == 4 && Distinct(PaymentMethods())
    ensures forall p: PaymentMethod :: p in PaymentMethods()
  {
    forall p: PaymentMethod
      ensures p in PaymentMethods()
    {
      assert PaymentMethods()[PaymentMethodOrdinal(p)] == p;
    }
  }

  // ---------------------------------------------------- required measurements

  /** The table as written: property names of the measurements each garment needs. */
  function RequiredMeasurements(d: DressType): seq<string> {
    match d
    case Shirt => ["neck", "shoulder", "chest", "waist", "sleeveLength", "shirtLength", "cuff", "biceps"]
    case Pant => ["waist", "hips", "pantLength", "inseam", "thigh", "cuff"]
    case Kurta => ["neck", "shoulder", "chest", "waist", "sleeveLength", "shirtLength"]
    case Sherwani => ["neck", "shoulder", "chest", "waist", "hips", "sleeveLength", "shirtLength"]
    case Suit => ["neck", "shoulder", "chest", "waist", "hips", "sleeveLength", "shirtLength", "pantLength", "inseam"]
    case Pajama => ["waist", "hips", "pantLength", "cuff"]
  }

  /** Reads a list of property names as keys; `None` as soon as one name is not a key. */
  function ParseFields(names: seq<string>): (r: Option<seq<Field>>)
    ensures r.Some? ==> |r.value| == |names|
    ensures r.Some? ==> forall i :: 0 <= i < |names| ==> FieldName(r.value[i]) == names[i]
    ensures r.None? <==> exists i :: 0 <= i < |names| && FieldOf(names[i]).None?
  {
    if |names| == 0 then Some([])
    else match (FieldOf(names[0]), ParseFields(names[1..]))
      case (Some(f), Some(fs)) =>
        assert forall i :: 1 <= i < |names| ==> names[1..][i - 1] == names[i];
        Some([f] + fs)
      case (None, _) => None
      case (_, None) =>
        assert forall i :: 0 <= i < |names| - 1 ==> names[1..][i] == names[i + 1];
        None
  }

  /**
   * Every list in the table is non-empty, repeats no name, and names only
   * keys of the measurements record.
   */
  lemma RequiredMeasurementsWellFormed(d: DressType)
    ensures |RequiredMeasurements(d)| > 0
    ensures Distinct(RequiredMeasurements(d))
    ensures forall i :: 0 <= i < |RequiredMeasurements(d)| ==> FieldOf(RequiredMeasurements(d)[i]).Some?
    ensures ParseFields(RequiredMeasurements(d)).Some?
  {
    match d
    case Shirt =>
    case Pant =>
    case Kurta =>
    case Sherwani =>
    case Suit =>
    case Pajama =>
  }

  /** The measurement keys a garment type needs, in the table's order. */
  function RequiredFields(d: DressType): (r: seq<Field>)
    ensures |r| == |RequiredMeasurements(d)| > 0
    ensures forall i :: 0 <= i < |r| ==> FieldName(r[i]) == RequiredMeasurements(d)[i]
    ensures Distinct(r)
  {
    RequiredMeasurementsWellFormed(d);
    ParseFields(RequiredMeasurements(d)).value
  }

  /** Two keys with the same property name are the same key. */
  lemma FieldNameInjective(a: Field, b: Field)
    requires FieldName(a) == FieldName(b)
    ensures a == b
  {
    FieldNameRoundTrip(a);
    FieldNameRoundTrip(b);
  }

  /** The key list of a garment type is the one whose names are the table's row. */
  lemma RequiredFieldsAre(d: DressType, fs: seq<Field>)
    requires |fs| == |RequiredMeasurements(d)|
    requires forall i :: 0 <= i < |fs| ==> FieldName(fs[i]) == RequiredMeasurements(d)[i]
    ensures RequiredFields(d) == fs
  {
    var r := RequiredFields(d);
    forall i | 0 <= i < |fs|
      ensures r[i] == fs[i]
    {
      FieldNameInjective(r[i], fs[i]);
    }
  }

  /** The required keys of `d` that `m` holds no value for, in table order. */
  function MissingFields(m: Measurements, fields: seq<Field>): (r: seq<Field>)
    ensures |r| <= |fields|
  {
    if |fields| == 0 then []
    else (if fields[0] in m then [] else [fields[0]]) + MissingFields(m, fields[1..])
  }

  /** A key is reported missing exactly when it is required and `m` holds no value for it. */
  lemma {:induction false} MissingFieldsExact(m: Measurements, fields: seq<Field>, f: Field)
    ensures f in MissingFields(m, fields) <==> f in fields && f !in m
  {
    if |fields| > 0 {
      MissingFieldsExact(m, fields[1..], f);
      assert fields == [fields[0]] + fields[1..];
    }
  }

  /** An order is complete when it holds a value for every measurement its garment needs. */
  predicate Complete(o: Order) {
    forall f :: f in RequiredFields(o.dressType) ==> f in o.measurements
  }

  lemma CompleteIffNothingMissing(o: Order)
    ensures Complete(o) <==> MissingFields(o.measurements, RequiredFields(o.dressType)) == []
  {
    var r := MissingFields(o.measurements, RequiredFields(o.dressType));
    if r != [] {
      MissingFieldsExact(o.measurements, RequiredFields(o.dressType), r[0]);
    }
    if !Complete(o) {
      var f :| f in RequiredFields(o.dressType) && f !in o.measurements;
      MissingFieldsExact(o.measurements, RequiredFields(o.dressType), f);
    }
  }

  // -------------------------------------------------------------- seed orders

  const Day: int := 86400000

  /** Measurements of the seed Sherwani order. */
  function SeedSherwaniMeasurements(): Measurements {
    map[Neck := 16.0, Shoulder := 18.0, Chest := 42.0, Waist := 36.0, SleeveLength := 25.0, ShirtLength := 44.0]
  }

  /** Measurements of the seed Shirt order. */
  function SeedShirtMeasurements(): Measurements {
    map[Neck := 15.5, Shoulder := 17.5, Chest := 40.0, Waist := 34.0, SleeveLength := 24.0, ShirtLength := 28.0]
  }

  /** The two illustrative orders; their dates are offsets from the clock reading `now`. */
  function SeedOrders(now: int): seq<Order> {
    [
      Order(
        "ORD-001", "CUST-1", "Rahul Sharma", "9876543210", Sherwani,
        SeedSherwaniMeasurements(),
        None, Some("Royal Blue Velvet with Gold embroidery"),
        now - Day * 5, Some(now + Day * 2), Stitching,
        15000, 5000, Upi, "abc123xyz"),
      Order(
        "ORD-002", "CUST-2", "Amit Patel", "9123456789", Shirt,
        SeedShirtMeasurements(),
        None, Some("White Linen"),
        now - Day * 2, Some(now + Day * 5), Cutting,
        1200, 1200, CreditCard, "def456uvw")
    ]
  }

  /** The seed has two orders with distinct ids, none delivered, with the listed amounts. */
  lemma SeedOrdersFacts(now: int)
    ensures |SeedOrders(now)| == 2
    ensures SeedOrders(now)[0].id != SeedOrders(now)[1].id
    ensures forall o :: o in SeedOrders(now) ==> o.status != Delivered
    ensures SeedOrders(now)[0].amountTotal == 15000 && SeedOrders(now)[0].amountPaid == 5000
    ensures SeedOrders(now)[1].amountTotal == 1200 && SeedOrders(now)[1].amountPaid == 1200
  {
  }

  /**
   * The seed does not meet the required-measurement table: the Sherwani
   * lacks `hips` and the Shirt lacks `cuff` and `biceps`. Completeness is not
   * an invariant of stored orders.
   */
  lemma SeedOrdersIncomplete(now: int)
    ensures MissingFields(SeedOrders(now)[0].measurements, RequiredFields(Sherwani)) == [Hips]
    ensures MissingFields(SeedOrders(now)[1].measurements, RequiredFields(Shirt)) == [Cuff, Biceps]
    ensures !Complete(SeedOrders(now)[0]) && !Complete(SeedOrders(now)[1])
  {
    var seed := SeedOrders(now);
    SeedMeasurementKeys();
    assert seed[0].dressType == Sherwani && seed[0].measurements == SeedSherwaniMeasurements();
    assert seed[1].dressType == Shirt && seed[1].measurements == SeedShirtMeasurements();
    SeedSherwaniIncomplete(seed[0]);
    SeedShirtIncomplete(seed[1]);
  }

  lemma SeedMeasurementKeys()
    ensures SeedSherwaniMeasurements().Keys == {Neck, Shoulder, Chest, Waist, SleeveLength, ShirtLength}
    ensures SeedShirtMeasurements().Keys == {Neck, Shoulder, Chest, Waist, SleeveLength, ShirtLength}
  {
  }

  lemma SeedSherwaniIncomplete(o: Order)
    requires o.dressType == Sherwani
    requires o.measurements.Keys == {Neck, Shoulder, Chest, Waist, SleeveLength, ShirtLength}
    ensures MissingFields(o.measurements, RequiredFields(Sherwani)) == [Hips]
    ensures !Complete(o)
  {
    SherwaniRequires();
    SherwaniSeedMissing(o.measurements);
    CompleteIffNothingMissing(o);
  }

  lemma SeedShirtIncomplete(o: Order)
    requires o.dressType == Shirt
    requires o.measurements.Keys == {Neck, Shoulder, Chest, Waist, SleeveLength, ShirtLength}
    ensures MissingFields(o.measurements, RequiredFields(Shirt)) == [Cuff, Biceps]
    ensures !Complete(o)
  {
    ShirtRequires();
    ShirtSeedMissing(o.measurements);
    CompleteIffNothingMissing(o);
  }

  lemma SherwaniRequires()
    ensures RequiredFields(Sherwani) == [Neck, Shoulder, Chest, Waist, Hips, SleeveLength, ShirtLength]
  {
    RequiredFieldsAre(Sherwani, [Neck, Shoulder, Chest, Waist, Hips, SleeveLength, ShirtLength]);
  }

  lemma KurtaRequires()
    ensures RequiredFields(Kurta) == [Neck, Shoulder, Chest, Waist, SleeveLength, ShirtLength]
  {
    RequiredFieldsAre(Kurta, [Neck, Shoulder, Chest, Waist, SleeveLength, ShirtLength]);
  }

  lemma ShirtRequires()
    ensures RequiredFields(Shirt) == [Neck, Shoulder, Chest, Waist, SleeveLength, ShirtLength, Cuff, Biceps]
  {
    RequiredFieldsAre(Shirt, [Neck, Shoulder, Chest, Waist, SleeveLength, ShirtLength, Cuff, Biceps]);
  }

  /** One step of `MissingFields`: the head is reported exactly when `m` lacks it. */
  lemma MissingFieldsCons(m: Measurements, f: Field, rest: seq<Field>)
    ensures MissingFields(m, [f] + rest) == (if f in m then [] else [f]) + MissingFields(m, rest)
  {
    assert ([f] + rest)[1..] == rest;
  }

  lemma SherwaniSeedMissing(m: Measurements)
    requires m.Keys == {Neck, Shoulder, Chest, Waist, SleeveLength, ShirtLength}
    ensures MissingFields(m, [Neck, Shoulder, Chest, Waist, Hips, SleeveLength, ShirtLength]) == [Hips]
  {
    MissingFieldsCons(m, ShirtLength, []);
    MissingFieldsCons(m, SleeveLength, [ShirtLength]);
    MissingFieldsCons(m, Hips, [SleeveLength, ShirtLength]);
    MissingFieldsCons(m, Waist, [Hips, SleeveLength, ShirtLength]);
    MissingFieldsCons(m, Chest, [Waist, Hips, SleeveLength, ShirtLength]);
    MissingFieldsCons(m, Shoulder, [Chest, Waist, Hips, SleeveLength, ShirtLength]);
    MissingFieldsCons(m, Neck, [Shoulder, Chest, Waist, Hips, SleeveLength, ShirtLength]);
  }

  lemma ShirtSeedMissing(m: Measurements)
    requires m.Keys == {Neck, Shoulder, Chest, Waist, SleeveLength, ShirtLength}
    ensures MissingFields(m, [Neck, Shoulder, Chest, Waist, SleeveLength, ShirtLength, Cuff, Biceps]) == [Cuff, Biceps]
  {
    MissingFieldsCons(m, Biceps, []);
    MissingFieldsCons(m, Cuff, [Biceps]);
    MissingFieldsCons(m, ShirtLength, [Cuff, Biceps]);
    MissingFieldsCons(m, SleeveLength, [ShirtLength, Cuff, Biceps]);
    MissingFieldsCons(m, Waist, [SleeveLength, ShirtLength, Cuff, Biceps]);
    MissingFieldsCons(m, Chest, [Waist, SleeveLength, ShirtLength, Cuff, Biceps]);
    MissingFieldsCons(m, Shoulder, [Chest, Waist, SleeveLength, ShirtLength, Cuff, Biceps]);
    MissingFieldsCons(m, Neck, [Shoulder, Chest, Waist, SleeveLength, ShirtLength, Cuff, Biceps]);
  }
}
