/** The records and enumerations of the app (types.ts), as immutable datatypes.
    Money and coordinates are JavaScript numbers in the app; here they are
    `real`, and nothing in the model does arithmetic on them. */
module Types {
  import opened Wrappers

  datatype FuelType = Petrol | Diesel

  datatype VehicleType = Car | Bike

  /** A registered vehicle (types.ts `Vehicle`). */
  datatype Vehicle = Vehicle(
    id: string,
    nickname: string,
    registrationNumber: string,
    fuelType: FuelType,
    vehicleType: VehicleType)

  /** A vehicle before the registry gives it an id (`Omit<Vehicle, 'id'>`). */
  datatype VehicleData = VehicleData(
    nickname: string,
    registrationNumber: string,
    fuelType: FuelType,
    vehicleType: VehicleType)
  {
    /** `{ ...data, id }` */
    function WithId(id: string): (v: Vehicle)
      ensures v.id == id
      ensures v.nickname == nickname && v.registrationNumber == registrationNumber
      ensures v.fuelType == fuelType && v.vehicleType == vehicleType
    {
      Vehicle(id, nickname, registrationNumber, fuelType, vehicleType)
    }
  }

  /** A signed-in person (types.ts `UserProfile`); `fullName` is empty until the
      profile is completed. */
  datatype UserProfile = UserProfile(
    id: string,
    mobileNumber: string,
    fullName: string,
    email: Option<string>)

  datatype Location = Location(lat: real, lng: real)

  /** The delivery agent attached to an order (types.ts `DeliveryCaptain`). */
  datatype DeliveryCaptain = DeliveryCaptain(
    id: string,
    name: string,
    rating: real,
    vehicleNumber: string,
    photoUrl: string,
    currentLocation: Option<Location>)

  /** types.ts `OrderStatus`. */
  datatype OrderStatus =
    | Pending
    | Confirmed
    | SearchingCaptain
    | CaptainAssigned
    | EnRoute
    | Arrived
    | Fuelling
    | Completed
    | Cancelled

  /** COMPLETED and CANCELLED: the statuses no timer ever leaves. */
  predicate IsTerminal(status: OrderStatus)
  {
    status == Completed || status == Cancelled
  }

  /** The order fields the ordering screens fill in before placement
      (`Partial<Order>`): every field may be absent. */
  datatype OrderDraft = OrderDraft(
    vehicleId: Option<string>,
    fuelType: Option<FuelType>,
    deliveryAddress: Option<string>,
    location: Option<Location>,
    quantityLiters: Option<real>,
    quantityRupees: Option<real>,
    pricePerLitre: Option<real>,
    fuelCost: Option<real>,
    convenienceFee: Option<real>,
    gstOnFee: Option<real>,
    totalAmount: Option<real>,
    paymentMethod: Option<string>)

  /** A placed order (types.ts `Order`): the draft it was built from plus what
      placement and the lifecycle simulator add. */
  datatype Order = Order(
    id: string,
    userId: string,
    orderDate: string,
    status: OrderStatus,
    details: OrderDraft,
    deliveryCaptain: Option<DeliveryCaptain>,
    otp: Option<string>)
}
