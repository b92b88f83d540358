/** The reviews carousel: one review shown at a time, moved by the arrows and the dots. */
module Reviews {
  import Carousel

  datatype Review = Review(name: string, rating: nat, comment: string, date: string, avatar: string)

  const AllReviews: seq<Review> := [
    Review("Rajesh Kumar", 5, "Excellent service! The car was in perfect condition and the booking process was seamless. Highly recommend!", "2 weeks ago", "RK"),
    Review("Priya Sharma", 5, "Great experience renting from CarRent. Professional staff and well-maintained vehicles. Will use again!", "1 month ago", "PS"),
    Review("Amit Patel", 4, "Very satisfied with the service. The driver was punctual and courteous. Good value for money.", "3 weeks ago", "AP"),
    Review("Sneha Reddy", 5, "Best car rental service in the city! Clean cars, fair prices, and excellent customer support.", "1 week ago", "SR")
  ]

  class ReviewsSection {
    var currentReview: nat

    ghost predicate Valid()
      reads this
    {
      currentReview < |AllReviews|
    }

    constructor ()
      ensures Valid() && currentReview == 0
    {
      currentReview := 0;
    }

    /** The previous-review arrow. */
    method PreviousClick()
      requires Valid()
      modifies this
      ensures Valid() && currentReview == Carousel.Prev(old(currentReview), |AllReviews|)
    {
      currentReview := (currentReview - 1 + |AllReviews|) % |AllReviews|;
    }

    /** The next-review arrow. */
    method NextClick()
      requires Valid()
      modifies this
      ensures Valid() && currentReview == Carousel.Next(old(currentReview), |AllReviews|)
    {
      currentReview := (currentReview + 1) % |AllReviews|;
    }

    /** The dot for review `index`; one dot is drawn per review. */
    method DotClick(index: nat)
      requires index < |AllReviews|
      modifies this
      ensures Valid() && currentReview == index
    {
      currentReview := index;
    }

    /** The review on screen. */
    function Current(): (r: Review)
      requires Valid()
      reads this
      ensures r in AllReviews
    {
      AllReviews[currentReview]
    }

    /** The dots drawn highlighted: exactly the current one. */
    function ActiveDots(): (s: set<nat>)
      requires Valid()
      reads this
      ensures s == {currentReview} && |s| == 1
    {
      Carousel.ActiveIndicators(currentReview, |AllReviews|)
    }
  }
}
