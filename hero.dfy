/** The hero banner: a slide index advanced by a timer and set by the indicators. */
module Hero {
  import Carousel

  datatype Slide = Slide(title: string, subtitle: string, image: string, cta: string)

  const Slides: seq<Slide> := [
    Slide("Rent Your Dream Car", "Premium vehicles at affordable prices", "/hero-car-1.jpg", "Browse Cars"),
    Slide("Flexible Rental Plans", "Hourly, daily, or weekly rentals available", "/hero-car-2.jpg", "View Plans"),
    Slide("24/7 Customer Support", "We're here to help anytime you need", "/hero-car-3.jpg", "Contact Us")
  ]

  class HeroSection {
    var currentSlide: nat

    ghost predicate Valid()
      reads this
    {
      currentSlide < |Slides|
    }

    constructor ()
      ensures Valid() && currentSlide == 0
    {
      currentSlide := 0;
    }

    /** One firing of the interval timer. */
    method Tick()
      requires Valid()
      modifies this
      ensures Valid() && currentSlide == Carousel.Next(old(currentSlide), |Slides|)
    {
      currentSlide := (currentSlide + 1) % |Slides|;
    }

    /** The indicator for slide `index`; one indicator is drawn per slide. */
    method IndicatorClick(index: nat)
      requires index < |Slides|
      modifies this
      ensures Valid() && currentSlide == index
    {
      currentSlide := index;
    }

    /** `slides[currentSlide]`, always in bounds. */
    function Current(): (s: Slide)
      requires Valid()
      reads this
      ensures s in Slides
    {
      Slides[currentSlide]
    }

    /** The indicators drawn highlighted: exactly the current one. */
    function ActiveIndicators(): (s: set<nat>)
      requires Valid()
      reads this
      ensures s == {currentSlide} && |s| == 1
    {
      Carousel.ActiveIndicators(currentSlide, |Slides|)
    }
  }
}
