/** The Spring booking example's service (org.jboss.seam.example.spring.BookingService):
    the date rules a booking must meet, and the guards around storing and removing
    bookings and looking up hotels. The JPA store behind the service is two maps. */
module SpringBooking {
  import opened Wrappers

  /** A point in time, in milliseconds. */
  type Millis = int

  /** One day in milliseconds, the amount Calendar.add(DAY_OF_MONTH, -1) goes back. */
  const DayMillis: Millis := 86_400_000

  /** An entity id (a non-null Long). */
  type Id = int

  datatype Hotel = Hotel(name: string, city: string)

  datatype Booking = Booking(username: string, hotelId: Id, checkinDate: Millis, checkoutDate: Millis)

  /** The exceptions the service throws. */
  datatype ServiceError =
    | ValidationException(message: string)
    | IllegalArgumentException(message: string)

  const FutureCheckinMessage := "Check in date must be a future date"
  const CheckoutOrderMessage := "Check out date must be later than check in date"
  const NullBookingIdMessage := "BookingId cannot be null"
  const NullHotelIdMessage := "hotelId cannot be null"

  /** The dates a booking may have at time now: check-in no earlier than one day before
      now, and check-out strictly after check-in. */
  ghost predicate Acceptable(booking: Booking, now: Millis)
  {
    now - DayMillis <= booking.checkinDate < booking.checkoutDate
  }

  /** validateBooking: rejects a check-in earlier than one day before now, and otherwise a
      check-out that is not after the check-in. */
  function ValidateBooking(booking: Booking, now: Millis): (r: Outcome<ServiceError>)
    ensures r == Pass <==> Acceptable(booking, now)
    ensures r == Fail(ValidationException(FutureCheckinMessage)) <==>
              booking.checkinDate < now - DayMillis
    ensures r == Fail(ValidationException(CheckoutOrderMessage)) <==>
              now - DayMillis <= booking.checkinDate && booking.checkoutDate <= booking.checkinDate
  {
    var yesterday := now - DayMillis;
    if booking.checkinDate < yesterday then
      Fail(ValidationException(FutureCheckinMessage))
    else if !(booking.checkinDate < booking.checkoutDate) then
      Fail(ValidationException(CheckoutOrderMessage))
    else
      Pass
  }

  /** The service and the store its JPA template works on. */
  class BookingService {
    var hotels: map<Id, Hotel>
    var bookings: map<Id, Booking>
    /** The next id the store generates for a persisted booking. */
    var nextBookingId: Id

    /** Every stored booking has an id the generator has already handed out. */
    ghost predicate Valid()
      reads this
    {
      forall id :: id in bookings ==> id < nextBookingId
    }

    constructor (hotels: map<Id, Hotel>)
      ensures Valid() && this.hotels == hotels && bookings == map[] && nextBookingId == 0
    {
      this.hotels := hotels;
      bookings := map[];
      nextBookingId := 0;
    }

    /** persist: stores a new booking under a freshly generated id. */
    method Persist(booking: Booking) returns (id: Id)
      requires Valid()
      modifies this
      ensures Valid() && hotels == old(hotels)
      ensures id !in old(bookings) && bookings == old(bookings)[id := booking]
    {
      id := nextBookingId;
      bookings := bookings[id := booking];
      nextBookingId := nextBookingId + 1;
    }

    /** bookHotel: validates the booking and persists it only when it is valid. */
    method BookHotel(booking: Booking, now: Millis) returns (r: Result<Id, ServiceError>)
      requires Valid()
      modifies this
      ensures Valid() && hotels == old(hotels)
      ensures r.Failure? <==> !Acceptable(booking, now)
      ensures r.Failure? ==> && ValidateBooking(booking, now) == Fail(r.error)
                             && bookings == old(bookings)
                             && nextBookingId == old(nextBookingId)
      ensures r.Success? ==> r.value !in old(bookings) && bookings == old(bookings)[r.value := booking]
    {
      var validation := ValidateBooking(booking, now);
      if validation.Fail? {
        return Failure(validation.error);
      }
      var id := Persist(booking);
      r := Success(id);
    }

    /** cancelBooking: refuses a null id, and removes the booking with that id if there
        is one. */
    method CancelBooking(bookingId: Option<Id>) returns (r: Outcome<ServiceError>)
      requires Valid()
      modifies this
      ensures Valid() && hotels == old(hotels) && nextBookingId == old(nextBookingId)
      ensures bookingId.None? ==> r == Fail(IllegalArgumentException(NullBookingIdMessage))
                                  && bookings == old(bookings)
      ensures bookingId.Some? ==> r == Pass && bookings == old(bookings) - {bookingId.value}
      ensures bookingId.Some? && bookingId.value !in old(bookings) ==> bookings == old(bookings)
    {
      if bookingId.None? {
        return Fail(IllegalArgumentException(NullBookingIdMessage));
      }
      var id := bookingId.value;
      if id in bookings {
        bookings := bookings - {id};
      }
      r := Pass;
    }

    /** findHotelById: refuses a null id, and otherwise finds the hotel with that id, or
        nothing. */
    function FindHotelById(hotelId: Option<Id>): (r: Result<Option<Hotel>, ServiceError>)
      reads this
      ensures r.Failure? <==> hotelId.None?
      ensures r.Failure? ==> r.error == IllegalArgumentException(NullHotelIdMessage)
      ensures r.Success? ==> && (r.value.Some? <==> hotelId.value in hotels)
                             && (r.value.Some? ==> r.value.value == hotels[hotelId.value])
    {
      if hotelId.None? then
        Failure(IllegalArgumentException(NullHotelIdMessage))
      else if hotelId.value in hotels then
        Success(Some(hotels[hotelId.value]))
      else
        Success(None)
    }
  }
}
