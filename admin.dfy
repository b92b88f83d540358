/** The admin dashboard's car deletion: the list loses the deleted car only after the user
    confirms and the server reports success. */
module Admin {
  import opened Wrappers
  import Seqs
  import Text

  datatype Car = Car(id: string, name: string, image: string, fuelType: string, capacity: int, rentPerHour: int)

  /** What the delete endpoint answered, or a thrown error. */
  datatype DeleteResponse = Replied(success: bool, error: string) | Threw

  const DeleteFailedMessage := "Failed to delete car"

  /** `cars.filter((c) => c._id !== carId)` */
  function RemoveCar(cars: seq<Car>, carId: string): seq<Car>
  {
    Seqs.Filter(cars, (c: Car) => c.id != carId)
  }

  /** No car with the id remains; every other car stays, as often as it occurs and in its
      original order. */
  lemma RemoveCarKeepsOthers(cars: seq<Car>, carId: string, c: Car)
    ensures c in RemoveCar(cars, carId) <==> c in cars && c.id != carId
    ensures Seqs.IsSubsequence(RemoveCar(cars, carId), cars)
    ensures multiset(RemoveCar(cars, carId))[c] == if c.id != carId then multiset(cars)[c] else 0
  {
    Seqs.FilterMembership(cars, (x: Car) => x.id != carId, c);
    Seqs.FilterCounts(cars, (x: Car) => x.id != carId, c);
    Seqs.FilterIsSubsequence(cars, (x: Car) => x.id != carId);
  }

  /** Removing an id no car has changes nothing, and removing twice is removing once. */
  lemma RemoveCarAbsentAndIdempotent(cars: seq<Car>, carId: string)
    ensures (forall k :: 0 <= k < |cars| ==> cars[k].id != carId) ==> RemoveCar(cars, carId) == cars
    ensures RemoveCar(RemoveCar(cars, carId), carId) == RemoveCar(cars, carId)
  {
    if forall k :: 0 <= k < |cars| ==> cars[k].id != carId {
      Seqs.FilterKeepsAll(cars, (x: Car) => x.id != carId);
    }
    Seqs.FilterIdempotent(cars, (x: Car) => x.id != carId);
  }

  class AdminPage {
    var cars: seq<Car>
    var error: Option<string>

    constructor ()
      ensures cars == [] && error == None
    {
      cars, error := [], None;
    }

    /** `handleDeleteCar`: nothing is sent when the confirmation is declined; on success the
        car leaves the list; on a failed reply or a thrown error the list is kept and the
        error is set. */
    method HandleDeleteCar(carId: string, confirmed: bool, response: DeleteResponse) returns (requestSent: bool)
      modifies this
      ensures requestSent == confirmed
      ensures !confirmed ==> cars == old(cars) && error == old(error)
      ensures confirmed && response.Replied? && response.success ==>
                cars == RemoveCar(old(cars), carId) && error == old(error)
      ensures confirmed && response.Replied? && !response.success ==>
                cars == old(cars) && error == Some(Text.OrElse(response.error, DeleteFailedMessage))
      ensures confirmed && response.Threw? ==>
                cars == old(cars) && error == Some(DeleteFailedMessage)
    {
      if !confirmed {
        return false;
      }
      requestSent := true;
      match response {
        case Replied(success, err) =>
          if success {
            cars := RemoveCar(cars, carId);
          } else {
            error := Some(Text.OrElse(err, DeleteFailedMessage));
          }
        case Threw =>
          error := Some(DeleteFailedMessage);
      }
    }
  }
}
