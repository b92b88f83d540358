/** The home page's date-range availability filter: the overlap test between a
    search window and a car's booked slots, the per-car check that stops at the first
    conflict, the filter over the car list, and the page state it updates. Timestamps
    are minutes on one absolute time line. */
module Availability {
  import opened Wrappers
  import Seqs

  /** One booked slot of a car, as stored on the car record. */
  datatype Slot = Slot(from: int, to: int)

  datatype Car = Car(
    id: string,
    name: string,
    image: string,
    fuelType: string,
    capacity: int,
    rentPerHour: int,
    bookedTimeSlots: Option<seq<Slot>>)

  const EndNotAfterStartMessage := "End date/time must be after start date/time"

  /** moment's `x.isBetween(lo, hi, undefined, "[]")`: inclusive at both ends. */
  predicate IsBetweenInclusive(x: int, lo: int, hi: int)
  {
    lo <= x && x <= hi
  }

  /** The four-clause overlap test between the selected window and one booked slot. */
  predicate HasOverlap(selectedFrom: int, selectedTo: int, booking: Slot)
  {
    IsBetweenInclusive(selectedFrom, booking.from, booking.to) ||
    IsBetweenInclusive(selectedTo, booking.from, booking.to) ||
    IsBetweenInclusive(booking.from, selectedFrom, selectedTo) ||
    IsBetweenInclusive(booking.to, selectedFrom, selectedTo)
  }

  /** The slots a car has; a missing list is treated like an empty one. */
  function SlotsOf(car: Car): (slots: seq<Slot>)
    ensures car.bookedTimeSlots.None? ==> slots == []
  {
    car.bookedTimeSlots.GetOr([])
  }

  /** Reference definition: a car is available when none of its slots overlaps the window. */
  predicate CarAvailable(car: Car, selectedFrom: int, selectedTo: int)
  {
    forall k :: 0 <= k < |SlotsOf(car)| ==> !HasOverlap(selectedFrom, selectedTo, SlotsOf(car)[k])
  }

  /** The cars the filter keeps, in list order. */
  function AvailableCars(cars: seq<Car>, selectedFrom: int, selectedTo: int): seq<Car>
  {
    Seqs.Filter(cars, (car: Car) => CarAvailable(car, selectedFrom, selectedTo))
  }

  /** The body of the filter callback: scan the slots, stop at the first overlap. */
  method IsCarAvailable(car: Car, selectedFrom: int, selectedTo: int) returns (isAvailable: bool)
    ensures isAvailable <==> CarAvailable(car, selectedFrom, selectedTo)
  {
    isAvailable := true;
    if car.bookedTimeSlots.Some? && |car.bookedTimeSlots.value| > 0 {
      var slots := car.bookedTimeSlots.value;
      assert slots == SlotsOf(car);
      var i := 0;
      while i < |slots|
        invariant 0 <= i <= |slots|
        invariant isAvailable
        invariant forall k :: 0 <= k < i ==> !HasOverlap(selectedFrom, selectedTo, slots[k])
      {
        if HasOverlap(selectedFrom, selectedTo, slots[i]) {
          isAvailable := false;
          break;
        }
        i := i + 1;
      }
    }
  }

  /** `cars.filter(...)` with the per-car check as its callback. */
  method FilterAvailable(cars: seq<Car>, selectedFrom: int, selectedTo: int) returns (available: seq<Car>)
    ensures available == AvailableCars(cars, selectedFrom, selectedTo)
  {
    ghost var p := (car: Car) => CarAvailable(car, selectedFrom, selectedTo);
    available := [];
    var i := 0;
    while i < |cars|
      invariant 0 <= i <= |cars|
      invariant available == Seqs.Filter(cars[..i], p)
    {
      var keep := IsCarAvailable(cars[i], selectedFrom, selectedTo);
      assert cars[..i + 1][..i] == cars[..i];
      if keep {
        available := available + [cars[i]];
      }
      i := i + 1;
    }
    assert cars[..i] == cars;
  }

  /** For a well-formed slot and a well-formed window, the four-clause test is the usual
      closed-interval intersection test. */
  lemma OverlapIsIntervalIntersection(selectedFrom: int, selectedTo: int, booking: Slot)
    requires booking.from <= booking.to && selectedFrom <= selectedTo
    ensures HasOverlap(selectedFrom, selectedTo, booking) <==>
            booking.from <= selectedTo && selectedFrom <= booking.to
  {
  }

  /** The test does not depend on which window is the search window. */
  lemma OverlapIsSymmetric(a: Slot, b: Slot)
    ensures HasOverlap(a.from, a.to, b) <==> HasOverlap(b.from, b.to, a)
  {
  }

  /** Windows that only touch at an endpoint conflict. */
  lemma TouchingEndpointsConflict(selectedFrom: int, selectedTo: int, booking: Slot)
    requires booking.from <= booking.to && selectedFrom <= selectedTo
    requires booking.to == selectedFrom || booking.from == selectedTo
    ensures HasOverlap(selectedFrom, selectedTo, booking)
  {
  }

  /** A car without booked slots is always kept. */
  lemma CarWithoutSlotsIsKept(cars: seq<Car>, car: Car, selectedFrom: int, selectedTo: int)
    requires car in cars
    requires car.bookedTimeSlots.None? || car.bookedTimeSlots == Some([])
    ensures car in AvailableCars(cars, selectedFrom, selectedTo)
  {
    Seqs.FilterMembership(cars, (c: Car) => CarAvailable(c, selectedFrom, selectedTo), car);
  }

  /** A car is dropped exactly when some slot of it overlaps the window; every occurrence of
      a kept car survives, and the kept cars appear in the order of the input list. */
  lemma AvailableCarsCharacterized(cars: seq<Car>, car: Car, selectedFrom: int, selectedTo: int)
    ensures car in AvailableCars(cars, selectedFrom, selectedTo) <==>
            car in cars && !exists k :: 0 <= k < |SlotsOf(car)| && HasOverlap(selectedFrom, selectedTo, SlotsOf(car)[k])
    ensures Seqs.IsSubsequence(AvailableCars(cars, selectedFrom, selectedTo), cars)
    ensures multiset(AvailableCars(cars, selectedFrom, selectedTo))[car] ==
            if CarAvailable(car, selectedFrom, selectedTo) then multiset(cars)[car] else 0
  {
    var p := (c: Car) => CarAvailable(c, selectedFrom, selectedTo);
    Seqs.FilterMembership(cars, p, car);
    Seqs.FilterCounts(cars, p, car);
    Seqs.FilterIsSubsequence(cars, p);
  }

  /** The state of the home page that the filter handlers read and write. */
  class HomePage {
    var cars: seq<Car>
    var filteredCars: seq<Car>
    var error: Option<string>
    var filterStartDateTime: Option<int>
    var filterEndDateTime: Option<int>
    var showFilter: bool

    constructor ()
      ensures cars == [] && filteredCars == [] && error == None
      ensures filterStartDateTime == None && filterEndDateTime == None && !showFilter
    {
      cars, filteredCars, error := [], [], None;
      filterStartDateTime, filterEndDateTime, showFilter := None, None, false;
    }

    /** A successful load of the car list shows every car. */
    method CarsLoaded(carsList: seq<Car>)
      modifies this
      ensures cars == carsList && filteredCars == carsList
      ensures error == old(error) && showFilter == old(showFilter)
      ensures filterStartDateTime == old(filterStartDateTime) && filterEndDateTime == old(filterEndDateTime)
    {
      cars, filteredCars := carsList, carsList;
    }

    method SetFilterStart(start: Option<int>)
      modifies this
      ensures filterStartDateTime == start
      ensures cars == old(cars) && filteredCars == old(filteredCars) && error == old(error)
      ensures filterEndDateTime == old(filterEndDateTime) && showFilter == old(showFilter)
    {
      filterStartDateTime := start;
    }

    method SetFilterEnd(end: Option<int>)
      modifies this
      ensures filterEndDateTime == end
      ensures cars == old(cars) && filteredCars == old(filteredCars) && error == old(error)
      ensures filterStartDateTime == old(filterStartDateTime) && showFilter == old(showFilter)
    {
      filterEndDateTime := end;
    }

    /** The button that opens and closes the filter panel. */
    method ToggleFilter()
      modifies this
      ensures showFilter == !old(showFilter)
      ensures cars == old(cars) && filteredCars == old(filteredCars) && error == old(error)
      ensures filterStartDateTime == old(filterStartDateTime) && filterEndDateTime == old(filterEndDateTime)
    {
      showFilter := !showFilter;
    }

    /** `handleFilter`: with a bound missing every car is shown; an end at or before the
        start sets the error and changes nothing else; otherwise the available cars are
        shown and the filter panel closes. The error is not cleared on success. */
    method HandleFilter()
      modifies this
      ensures cars == old(cars)
      ensures filterStartDateTime == old(filterStartDateTime) && filterEndDateTime == old(filterEndDateTime)
      ensures filterStartDateTime.None? || filterEndDateTime.None? ==>
                filteredCars == cars && error == old(error) && showFilter == old(showFilter)
      ensures filterStartDateTime.Some? && filterEndDateTime.Some? &&
              filterEndDateTime.value <= filterStartDateTime.value ==>
                error == Some(EndNotAfterStartMessage) &&
                filteredCars == old(filteredCars) && showFilter == old(showFilter)
      ensures filterStartDateTime.Some? && filterEndDateTime.Some? &&
              filterStartDateTime.value < filterEndDateTime.value ==>
                filteredCars == AvailableCars(cars, filterStartDateTime.value, filterEndDateTime.value) &&
                !showFilter && error == old(error)
    {
      if filterStartDateTime.None? || filterEndDateTime.None? {
        filteredCars := cars;
        return;
      }
      var selectedFrom := filterStartDateTime.value;
      var selectedTo := filterEndDateTime.value;
      if selectedTo <= selectedFrom {
        error := Some(EndNotAfterStartMessage);
        return;
      }
      var available := FilterAvailable(cars, selectedFrom, selectedTo);
      filteredCars := available;
      showFilter := false;
    }

    /** `clearFilter`: both bounds reset, every car shown, error cleared. */
    method ClearFilter()
      modifies this
      ensures filterStartDateTime == None && filterEndDateTime == None
      ensures cars == old(cars) && filteredCars == cars && error == None
      ensures showFilter == old(showFilter)
    {
      filterStartDateTime, filterEndDateTime := None, None;
      filteredCars := cars;
      error := None;
    }
  }
}
