/** The order store and lifecycle simulator (contexts/OrderContext.tsx).

    The store holds the draft being assembled by the ordering screens, the
    signed-in user's order history (newest first), the one order being tracked,
    and the per-user order lists persisted in the device's key-value store
    (`orders_<userId>`), keyed here by user id. Every asynchronous operation of
    the app is one atomic transition; the five timer callbacks of the
    simulator are one `Step` each. */
module Orders {
  import opened Wrappers
  import opened Types
  import Seqs
  import Text

  datatype OrderState = OrderState(
    draft: Option<OrderDraft>,
    history: seq<Order>,
    active: Option<Order>,
    stored: map<string, seq<Order>>)

  /** The store before anything has been loaded. */
  const Initial := OrderState(None, [], None, map[])

  // ---------------------------------------------------------------------------
  // The draft, viewed field by field

  /** The draft's field names. */
  datatype Field =
    | VehicleIdField | FuelTypeField | DeliveryAddressField | LocationField
    | QuantityLitersField | QuantityRupeesField | PricePerLitreField | FuelCostField
    | ConvenienceFeeField | GstOnFeeField | TotalAmountField | PaymentMethodField

  /** A draft field's value, whatever its type. */
  datatype FieldValue =
    | TextValue(text: string)
    | FuelValue(fuel: FuelType)
    | PlaceValue(place: Location)
    | NumberValue(number: real)

  function TextField(o: Option<string>): Option<FieldValue>
  {
    match o
    case Some(t) => Some(TextValue(t))
    case None => None
  }

  function NumberField(o: Option<real>): Option<FieldValue>
  {
    match o
    case Some(x) => Some(NumberValue(x))
    case None => None
  }

  /** The value a draft holds under field `f`, or `None` when the key is absent. */
  function Get(d: OrderDraft, f: Field): Option<FieldValue>
  {
    match f
    case VehicleIdField => TextField(d.vehicleId)
    case FuelTypeField => if d.fuelType.Some? then Some(FuelValue(d.fuelType.value)) else None
    case DeliveryAddressField => TextField(d.deliveryAddress)
    case LocationField => if d.location.Some? then Some(PlaceValue(d.location.value)) else None
    case QuantityLitersField => NumberField(d.quantityLiters)
    case QuantityRupeesField => NumberField(d.quantityRupees)
    case PricePerLitreField => NumberField(d.pricePerLitre)
    case FuelCostField => NumberField(d.fuelCost)
    case ConvenienceFeeField => NumberField(d.convenienceFee)
    case GstOnFeeField => NumberField(d.gstOnFee)
    case TotalAmountField => NumberField(d.totalAmount)
    case PaymentMethodField => TextField(d.paymentMethod)
  }

  /** Two drafts that agree on every field are the same draft. */
  lemma DraftExtensionality(a: OrderDraft, b: OrderDraft)
    requires forall f :: Get(a, f) == Get(b, f)
    ensures a == b
  {
    assert Get(a, VehicleIdField) == Get(b, VehicleIdField);
    assert Get(a, FuelTypeField) == Get(b, FuelTypeField);
    assert Get(a, DeliveryAddressField) == Get(b, DeliveryAddressField);
    assert Get(a, LocationField) == Get(b, LocationField);
    assert Get(a, QuantityLitersField) == Get(b, QuantityLitersField);
    assert Get(a, QuantityRupeesField) == Get(b, QuantityRupeesField);
    assert Get(a, PricePerLitreField) == Get(b, PricePerLitreField);
    assert Get(a, FuelCostField) == Get(b, FuelCostField);
    assert Get(a, ConvenienceFeeField) == Get(b, ConvenienceFeeField);
    assert Get(a, GstOnFeeField) == Get(b, GstOnFeeField);
    assert Get(a, TotalAmountField) == Get(b, TotalAmountField);
    assert Get(a, PaymentMethodField) == Get(b, PaymentMethodField);
  }

  /** The draft with no fields (`{}`), which is what a `null` draft spreads to. */
  const EmptyDraft := OrderDraft(None, None, None, None, None, None, None, None, None, None, None, None)

  function Pick<T>(base: Option<T>, over: Option<T>): Option<T>
  {
    if over.Some? then over else base
  }

  /** `{ ...base, ...over }`: the fields `over` supplies win, every other field
      keeps its value from `base`. */
  function Merge(base: OrderDraft, over: OrderDraft): (r: OrderDraft)
    ensures forall f :: Get(over, f).Some? ==> Get(r, f) == Get(over, f)
    ensures forall f :: Get(over, f).None? ==> Get(r, f) == Get(base, f)
  {
    OrderDraft(
      Pick(base.vehicleId, over.vehicleId),
      Pick(base.fuelType, over.fuelType),
      Pick(base.deliveryAddress, over.deliveryAddress),
      Pick(base.location, over.location),
      Pick(base.quantityLiters, over.quantityLiters),
      Pick(base.quantityRupees, over.quantityRupees),
      Pick(base.pricePerLitre, over.pricePerLitre),
      Pick(base.fuelCost, over.fuelCost),
      Pick(base.convenienceFee, over.convenienceFee),
      Pick(base.gstOnFee, over.gstOnFee),
      Pick(base.totalAmount, over.totalAmount),
      Pick(base.paymentMethod, over.paymentMethod))
  }

  /** The empty draft is a unit of merging on both sides. */
  lemma MergeUnit(d: OrderDraft)
    ensures Merge(EmptyDraft, d) == d
    ensures Merge(d, EmptyDraft) == d
  {
    DraftExtensionality(Merge(EmptyDraft, d), d);
    DraftExtensionality(Merge(d, EmptyDraft), d);
  }

  /** Merging three updates one after another is merging their combination:
      the order in which the screens' updates are grouped does not matter. */
  lemma MergeAssociative(a: OrderDraft, b: OrderDraft, c: OrderDraft)
    ensures Merge(Merge(a, b), c) == Merge(a, Merge(b, c))
  {
    DraftExtensionality(Merge(Merge(a, b), c), Merge(a, Merge(b, c)));
  }

  /** Repeating the last update changes nothing. */
  lemma MergeRepeat(a: OrderDraft, b: OrderDraft)
    ensures Merge(Merge(a, b), b) == Merge(a, b)
  {
    DraftExtensionality(Merge(Merge(a, b), b), Merge(a, b));
  }

  // ---------------------------------------------------------------------------
  // Draft operations

  /** `updateCurrentOrder(details)`: merges `details` into the draft, a missing
      draft counting as empty. Nothing else in the store changes. */
  function UpdateCurrentOrder(s: OrderState, details: OrderDraft): (r: OrderState)
    ensures r.draft.Some?
    ensures forall f :: Get(details, f).Some? ==> Get(r.draft.value, f) == Get(details, f)
    ensures forall f :: Get(details, f).None? && s.draft.Some? ==> Get(r.draft.value, f) == Get(s.draft.value, f)
    ensures forall f :: Get(details, f).None? && s.draft.None? ==> Get(r.draft.value, f).None?
    ensures r.history == s.history && r.active == s.active && r.stored == s.stored
  {
    s.(draft := Some(Merge(s.draft.GetOr(EmptyDraft), details)))
  }

  /** `clearCurrentOrder()`: drops the draft and nothing else. */
  function ClearCurrentOrder(s: OrderState): (r: OrderState)
    ensures r.draft.None?
    ensures r.history == s.history && r.active == s.active && r.stored == s.stored
  {
    s.(draft := None)
  }

  // ---------------------------------------------------------------------------
  // Placement

  /** JavaScript truthiness of an optional string: present and non-empty. */
  predicate TruthyText(o: Option<string>)
  {
    o.Some? && o.value != ""
  }

  /** A draft placement accepts: a vehicle id, a non-zero total and a delivery
      address, each present and truthy. */
  predicate Ready(d: OrderDraft)
  {
    && TruthyText(d.vehicleId)
    && d.totalAmount.Some? && d.totalAmount.value != 0.0
    && TruthyText(d.deliveryAddress)
  }

  /** The store after `placeOrder`, with the placed order or `None` (`null`). */
  datatype Placement = Placement(state: OrderState, placed: Option<Order>)

  /** `placeOrder()` for the signed-in `user`, with the id and timestamp the
      clock would supply. It rejects, changing nothing, when the draft or the
      user is missing or the draft is not `Ready`. Otherwise the new order is the
      draft with the given id, the user's id, the timestamp and status
      SEARCHING_CAPTAIN; it goes to the front of the history, which is persisted
      under the user's id, becomes the tracked order, and the draft is cleared. */
  function PlaceOrder(s: OrderState, user: Option<UserProfile>, newId: string, now: string): (r: Placement)
    ensures r.placed.None? <==> s.draft.None? || user.None? || !Ready(s.draft.value)
    ensures r.placed.None? ==> r.state == s
    ensures r.placed.Some? ==>
      var o := r.placed.value;
      && o.details == s.draft.value && Ready(o.details)
      && o.id == newId && o.userId == user.value.id && o.orderDate == now
      && o.status == SearchingCaptain && o.deliveryCaptain.None? && o.otp.None?
    ensures r.placed.Some? ==>
      && |r.state.history| == |s.history| + 1
      && r.state.history[0] == r.placed.value
      && r.state.history[1..] == s.history
      && r.state.active == r.placed
      && r.state.draft.None?
      && r.state.stored == s.stored[user.value.id := r.state.history]
  {
    if s.draft.None? || user.None? || !Ready(s.draft.value) then
      Placement(s, None)
    else
      var o := Order(newId, user.value.id, now, SearchingCaptain, s.draft.value, None, None);
      var history := [o] + s.history;
      Placement(OrderState(None, history, Some(o), s.stored[user.value.id := history]), Some(o))
  }

  /** A draft with a zero total, or with an empty address or vehicle id, is
      rejected: these are falsy in the app's check, not merely absent. */
  lemma PlaceOrderRejectsFalsyFields(s: OrderState, user: Option<UserProfile>, newId: string, now: string)
    requires s.draft.Some?
    requires s.draft.value.totalAmount == Some(0.0)
             || s.draft.value.deliveryAddress == Some("")
             || s.draft.value.vehicleId == Some("")
    ensures PlaceOrder(s, user, newId, now) == Placement(s, None)
  {
  }

  // ---------------------------------------------------------------------------
  // Lookup and tracking

  /** The test `o.id === id`, as a value. */
  function HasId(id: string): Order -> bool
  {
    (o: Order) => o.id == id
  }

  /** `getOrderById(id)`: the first order in the history with that id. */
  function GetOrderById(s: OrderState, id: string): (r: Option<Order>)
    ensures r.None? <==> forall i :: 0 <= i < |s.history| ==> s.history[i].id != id
    ensures r.Some? ==> r.value in s.history && r.value.id == id
    ensures forall i :: 0 <= i < |s.history| && s.history[i].id == id
                        && (forall j :: 0 <= j < i ==> s.history[j].id != id)
                        ==> r == Some(s.history[i])
  {
    Seqs.FindFirst(s.history, HasId(id))
  }

  /** Right after a placement, looking up the new id finds the new order. */
  lemma PlacedOrderIsFound(s: OrderState, user: Option<UserProfile>, newId: string, now: string)
    requires PlaceOrder(s, user, newId, now).placed.Some?
    ensures GetOrderById(PlaceOrder(s, user, newId, now).state, newId) == PlaceOrder(s, user, newId, now).placed
  {
  }

  /** `trackOrder(id)`: the first order in the history with that id becomes the
      tracked order if it is neither COMPLETED nor CANCELLED; otherwise nothing
      is tracked. Only the tracked order changes. */
  function TrackOrder(s: OrderState, id: string): (r: OrderState)
    ensures r.active.Some? ==> r.active.value in s.history && r.active.value.id == id
                               && !IsTerminal(r.active.value.status)
    ensures forall i :: 0 <= i < |s.history| && s.history[i].id == id
                        && (forall j :: 0 <= j < i ==> s.history[j].id != id)
                        ==> r.active == (if IsTerminal(s.history[i].status) then None else Some(s.history[i]))
    ensures (forall i :: 0 <= i < |s.history| ==> s.history[i].id != id) ==> r.active.None?
    ensures r.draft == s.draft && r.history == s.history && r.stored == s.stored
  {
    var found := GetOrderById(s, id);
    if found.Some? && !IsTerminal(found.value.status) then s.(active := found)
    else s.(active := None)
  }

  // ---------------------------------------------------------------------------
  // The lifecycle simulator

  /** The statuses a tracked order passes through, one timer apart. */
  const Lifecycle: seq<OrderStatus> := [SearchingCaptain, CaptainAssigned, EnRoute, Arrived, Fuelling, Completed]

  /** The status the simulator's timer moves `status` to, if it schedules one. */
  function NextStatus(status: OrderStatus): Option<OrderStatus>
  {
    match status
    case SearchingCaptain => Some(CaptainAssigned)
    case CaptainAssigned => Some(EnRoute)
    case EnRoute => Some(Arrived)
    case Arrived => Some(Fuelling)
    case Fuelling => Some(Completed)
    case _ => None
  }

  /** The simulator moves a status exactly one place along `Lifecycle`, and
      nothing else: COMPLETED, CANCELLED, PENDING and CONFIRMED have no
      successor, and no status has CANCELLED as successor. */
  lemma NextStatusFollowsLifecycle(status: OrderStatus, next: OrderStatus)
    ensures NextStatus(status) == Some(next) <==>
            exists k :: 0 <= k < |Lifecycle| - 1 && Lifecycle[k] == status && Lifecycle[k + 1] == next
    ensures NextStatus(status).None? <==> status in {Completed, Cancelled, Pending, Confirmed}
    ensures NextStatus(status) != Some(Cancelled)
  {
    if NextStatus(status) == Some(next) {
      match status
      case SearchingCaptain => assert Lifecycle[0] == status && Lifecycle[1] == next;
      case CaptainAssigned => assert Lifecycle[1] == status && Lifecycle[2] == next;
      case EnRoute => assert Lifecycle[2] == status && Lifecycle[3] == next;
      case Arrived => assert Lifecycle[3] == status && Lifecycle[4] == next;
      case Fuelling => assert Lifecycle[4] == status && Lifecycle[5] == next;
    }
  }

  const MockCaptainPhoto := "https://picsum.photos/seed/captain/100/100"

  /** The fixed captain the simulator assigns, standing wherever the caller says. */
  function MockCaptain(location: Location): DeliveryCaptain
  {
    DeliveryCaptain("capt001", "Ramesh Kumar", 4.8, "MH 01 DR 1234", MockCaptainPhoto, Some(location))
  }

  /** The rewrite one timer applies to the tracked order and to every history
      entry with its id: the next status, and on entering CAPTAIN_ASSIGNED also
      the captain and the OTP. */
  function Advance(from: OrderStatus, next: OrderStatus, captainLocation: Location, code: nat): Order -> Order
  {
    if from == SearchingCaptain then
      (o: Order) => o.(status := next, deliveryCaptain := Some(MockCaptain(captainLocation)), otp := Some(Text.NatToDecimal(code)))
    else
      (o: Order) => o.(status := next)
  }

  /** One firing of the simulator's timer for the tracked order. `captainLocation`
      and `code` stand for what the app computes from floating-point
      arithmetic and `Math.random()`; `code` is `Math.floor(1000 + r * 9000)`
      for some `r` in [0, 1), hence in [1000, 9999]. `None` means no timer is
      scheduled: nothing is tracked, or its status has no successor. */
  function Step(s: OrderState, captainLocation: Location, code: nat): (r: Option<OrderState>)
    requires 1000 <= code <= 9999
    ensures r.None? <==> s.active.None? || s.active.value.status in {Completed, Cancelled, Pending, Confirmed}
    ensures r.Some? ==>
      var a := s.active.value;
      && r.value.active.Some?
      && var b := r.value.active.value;
      && (exists k :: 0 <= k < |Lifecycle| - 1 && Lifecycle[k] == a.status && Lifecycle[k + 1] == b.status)
      && b.status != Cancelled
      && b.id == a.id && b.userId == a.userId && b.orderDate == a.orderDate && b.details == a.details
      && |r.value.history| == |s.history|
      && (forall i :: 0 <= i < |s.history| && s.history[i].id != a.id ==> r.value.history[i] == s.history[i])
      && (forall i :: 0 <= i < |s.history| && s.history[i].id == a.id ==>
            var h, h' := s.history[i], r.value.history[i];
            && h'.status == b.status
            && h'.id == h.id && h'.userId == h.userId && h'.orderDate == h.orderDate && h'.details == h.details)
    ensures r.Some? && s.active.value.status == SearchingCaptain ==>
      var b := r.value.active.value;
      && b.deliveryCaptain == Some(MockCaptain(captainLocation))
      && b.otp.Some? && |b.otp.value| == 4 && Text.AllDigits(b.otp.value)
      && 1000 <= Text.DecimalValue(b.otp.value) <= 9999
      && (forall i :: 0 <= i < |s.history| && s.history[i].id == b.id ==>
            r.value.history[i].deliveryCaptain == b.deliveryCaptain && r.value.history[i].otp == b.otp)
    ensures r.Some? && s.active.value.status != SearchingCaptain ==>
      var a, b := s.active.value, r.value.active.value;
      && b.deliveryCaptain == a.deliveryCaptain && b.otp == a.otp
      && (forall i :: 0 <= i < |s.history| && s.history[i].id == a.id ==>
            r.value.history[i].deliveryCaptain == s.history[i].deliveryCaptain
            && r.value.history[i].otp == s.history[i].otp)
    ensures r.Some? ==> r.value.draft == s.draft && r.value.stored == s.stored
  {
    match s.active
    case None => None
    case Some(a) =>
      NextStatusFollowsLifecycle(a.status, Cancelled);
      match NextStatus(a.status)
      case None => None
      case Some(next) =>
        NextStatusFollowsLifecycle(a.status, next);
        Text.FourDigits(code);
        Text.DecimalRoundTrip(code);
        var f := Advance(a.status, next, captainLocation, code);
        Some(s.(active := Some(f(a)), history := Seqs.MapWhere(s.history, HasId(a.id), f)))
  }

  /** Every history entry with the tracked order's id carries its status. */
  ghost predicate InLockstep(s: OrderState)
  {
    s.active.Some? ==>
      forall i :: 0 <= i < |s.history| && s.history[i].id == s.active.value.id ==>
        s.history[i].status == s.active.value.status
  }

  /** Whatever the store looked like before, a step leaves the tracked order
      and its history entries in lockstep. */
  lemma StepSynchronizes(s: OrderState, captainLocation: Location, code: nat)
    requires 1000 <= code <= 9999
    requires Step(s, captainLocation, code).Some?
    ensures InLockstep(Step(s, captainLocation, code).value)
  {
  }

  /** `n` timer firings in a row, or `None` if the timer stops earlier. */
  function Run(s: OrderState, n: nat, captainLocation: Location, code: nat): Option<OrderState>
    requires 1000 <= code <= 9999
    decreases n
  {
    if n == 0 then Some(s)
    else
      match Step(s, captainLocation, code)
      case None => None
      case Some(t) => Run(t, n - 1, captainLocation, code)
  }

  /** A tracked order at position `k` of the lifecycle reaches COMPLETED after
      `5 - k` firings (and not before, by `RunPosition`), in lockstep with its
      history entries, and then the timer stops. */
  lemma {:induction false} RunToCompletion(s: OrderState, k: nat, captainLocation: Location, code: nat)
    requires 1000 <= code <= 9999
    requires k < |Lifecycle| - 1
    requires s.active.Some? && s.active.value.status == Lifecycle[k]
    ensures Run(s, 5 - k, captainLocation, code).Some?
    ensures var t := Run(s, 5 - k, captainLocation, code).value;
      && t.active.Some? && t.active.value.id == s.active.value.id
      && t.active.value.status == Completed
      && InLockstep(t)
      && Step(t, captainLocation, code).None?
    decreases |Lifecycle| - k
  {
    var t := Step(s, captainLocation, code);
    assert t.Some?;
    var b := t.value.active.value;
    assert b.status == Lifecycle[k + 1] by {
      var j :| 0 <= j < |Lifecycle| - 1 && Lifecycle[j] == s.active.value.status && Lifecycle[j + 1] == b.status;
      assert j == k;
    }
    if k + 1 < |Lifecycle| - 1 {
      RunToCompletion(t.value, k + 1, captainLocation, code);
    } else {
      StepSynchronizes(s, captainLocation, code);
    }
  }

  /** After `j` firings a tracked order that started at position `k` of the
      lifecycle is at position `k + j`, so it is COMPLETED only once all
      `5 - k` firings have happened and not before. */
  lemma {:induction false} RunPosition(s: OrderState, k: nat, j: nat, captainLocation: Location, code: nat)
    requires 1000 <= code <= 9999
    requires k + j < |Lifecycle|
    requires s.active.Some? && s.active.value.status == Lifecycle[k]
    ensures Run(s, j, captainLocation, code).Some?
    ensures var t := Run(s, j, captainLocation, code).value;
      && t.active.Some? && t.active.value.id == s.active.value.id
      && t.active.value.status == Lifecycle[k + j]
    ensures k + j < |Lifecycle| - 1 ==> Run(s, j, captainLocation, code).value.active.value.status != Completed
    decreases j
  {
    if j > 0 {
      var t := Step(s, captainLocation, code);
      assert t.Some?;
      var b := t.value.active.value;
      assert b.status == Lifecycle[k + 1] by {
        var i :| 0 <= i < |Lifecycle| - 1 && Lifecycle[i] == s.active.value.status && Lifecycle[i + 1] == b.status;
        assert i == k;
      }
      RunPosition(t.value, k + 1, j - 1, captainLocation, code);
    }
  }

  /** A placed order, tracked by the simulator, has a captain and a four-digit
      OTP after the first firing and is COMPLETED after the fifth. */
  lemma PlacedOrderLifecycle(s: OrderState, user: Option<UserProfile>, newId: string, now: string, captainLocation: Location, code: nat)
    requires 1000 <= code <= 9999
    requires PlaceOrder(s, user, newId, now).placed.Some?
    ensures var p := PlaceOrder(s, user, newId, now).state;
      && Step(p, captainLocation, code).Some?
      && var a := Step(p, captainLocation, code).value.active.value;
      && a.id == newId && a.status == CaptainAssigned
      && a.deliveryCaptain.Some? && a.otp.Some? && a.otp.value != ""
    ensures var p := PlaceOrder(s, user, newId, now).state;
      && Run(p, 5, captainLocation, code).Some?
      && var z := Run(p, 5, captainLocation, code).value;
      && z.active.Some? && z.active.value.status == Completed
      && |z.history| > 0 && z.history[0].id == newId && z.history[0].status == Completed
  {
    var p := PlaceOrder(s, user, newId, now).state;
    assert p.active.value.status == Lifecycle[0];
    RunToCompletion(p, 0, captainLocation, code);
    var t := Step(p, captainLocation, code).value;
    var b := t.active.value;
    assert b.status == Lifecycle[1] by {
      var j :| 0 <= j < |Lifecycle| - 1 && Lifecycle[j] == p.active.value.status && Lifecycle[j + 1] == b.status;
      assert j == 0;
    }
    var z := Run(p, 5, captainLocation, code).value;
    assert |z.history| == |p.history| by {
      RunKeepsHistoryLength(p, 5, captainLocation, code);
    }
    RunKeepsIds(p, 5, captainLocation, code);
  }

  /** The simulator never adds or drops history entries. */
  lemma {:induction false} RunKeepsHistoryLength(s: OrderState, n: nat, captainLocation: Location, code: nat)
    requires 1000 <= code <= 9999
    requires Run(s, n, captainLocation, code).Some?
    ensures |Run(s, n, captainLocation, code).value.history| == |s.history|
    decreases n
  {
    if n > 0 {
      RunKeepsHistoryLength(Step(s, captainLocation, code).value, n - 1, captainLocation, code);
    }
  }

  /** The simulator never changes an id, neither of the tracked order nor of a
      history entry. */
  lemma {:induction false} RunKeepsIds(s: OrderState, n: nat, captainLocation: Location, code: nat)
    requires 1000 <= code <= 9999
    requires Run(s, n, captainLocation, code).Some?
    ensures var t := Run(s, n, captainLocation, code).value;
      && |t.history| == |s.history|
      && (forall i :: 0 <= i < |s.history| ==> t.history[i].id == s.history[i].id)
      && (s.active.Some? ==> t.active.Some? && t.active.value.id == s.active.value.id)
    decreases n
  {
    if n > 0 {
      RunKeepsIds(Step(s, captainLocation, code).value, n - 1, captainLocation, code);
    }
  }

  // ---------------------------------------------------------------------------
  // Sign-in changes

  /** The effect that runs when the signed-in user changes: with a user, the
      history is reloaded from that user's persisted list (empty when there is
      none) and the draft and tracked order are kept; with no user, history,
      tracked order and draft are all cleared. */
  function OnUserChange(s: OrderState, user: Option<UserProfile>): (r: OrderState)
    ensures user.None? ==> r.history == [] && r.active.None? && r.draft.None?
    ensures user.Some? && user.value.id in s.stored ==> r.history == s.stored[user.value.id]
    ensures user.Some? && user.value.id !in s.stored ==> r.history == []
    ensures user.Some? ==> r.active == s.active && r.draft == s.draft
    ensures r.stored == s.stored
  {
    if user.Some? then
      s.(history := if user.value.id in s.stored then s.stored[user.value.id] else [])
    else
      s.(history := [], active := None, draft := None)
  }

  // ---------------------------------------------------------------------------
  // The store's invariant

  /** Every order the store knows of, in memory or persisted, passed placement's
      check. */
  ghost predicate Valid(s: OrderState)
  {
    && (forall i :: 0 <= i < |s.history| ==> Ready(s.history[i].details))
    && (s.active.Some? ==> Ready(s.active.value.details))
    && (forall uid, i :: uid in s.stored && 0 <= i < |s.stored[uid]| ==> Ready(s.stored[uid][i].details))
  }

  /** The store starts `Valid` and every operation keeps it so. */
  lemma OperationsPreserveValid(s: OrderState, details: OrderDraft, user: Option<UserProfile>,
                                newId: string, now: string, id: string, captainLocation: Location, code: nat)
    requires Valid(s)
    requires 1000 <= code <= 9999
    ensures Valid(Initial)
    ensures Valid(UpdateCurrentOrder(s, details))
    ensures Valid(ClearCurrentOrder(s))
    ensures Valid(PlaceOrder(s, user, newId, now).state)
    ensures Valid(TrackOrder(s, id))
    ensures Step(s, captainLocation, code).Some? ==> Valid(Step(s, captainLocation, code).value)
    ensures Valid(OnUserChange(s, user))
  {
    var p := PlaceOrder(s, user, newId, now);
    if p.placed.Some? {
      forall uid, i | uid in p.state.stored && 0 <= i < |p.state.stored[uid]|
        ensures Ready(p.state.stored[uid][i].details)
      {
        if uid == user.value.id {
          if i > 0 {
            assert p.state.stored[uid][i] == s.history[i - 1];
          }
        }
      }
    }
    if user.Some? && user.value.id in s.stored {
      var h := OnUserChange(s, user).history;
      forall i | 0 <= i < |h|
        ensures Ready(h[i].details)
      {
        assert h[i] == s.stored[user.value.id][i];
      }
    }
  }
}
