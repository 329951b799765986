/** The home page's testimonial carousel: which testimonial is shown, and
    whether the five-second autoplay is still running. */
module Carousel {
  import Cyclic

  datatype Testimonial = Testimonial(id: int, quote: string, author: string, role: string)

  const Testimonials: seq<Testimonial> := [
    Testimonial(1,
      "S.C.E.A.R. has transformed how our students engage with Roman history. Their demonstrations bring the past to life in ways textbooks simply cannot.",
      "Dr. Maria Collins", "History Professor, University of Oxford"),
    Testimonial(2,
      "Joining S.C.E.A.R. connected me with passionate individuals who share my love for Roman history. The training and events are meticulously researched and incredibly immersive.",
      "Thomas Harding", "Member since 2018"),
    Testimonial(3,
      "Our museum exhibition on Roman military life was enhanced tremendously by S.C.E.A.R.'s contributions. Their attention to historical detail is unmatched.",
      "Jonathan Pierce", "Curator, National History Museum"),
    Testimonial(4,
      "The educational workshops provided by S.C.E.A.R. were engaging and informative. Our students were captivated by the authentic demonstrations and hands-on activities.",
      "Sarah Mitchell", "Headteacher, Westfield Academy")
  ]

  /** `testimonials.length` */
  const Count: int := 4

  lemma CountIsLength()
    ensures Count == |Testimonials|
  {
  }

  class TestimonialCarousel {
    var activeIndex: int
    var isAutoPlaying: bool

    /** The shown testimonial is one of the list. */
    predicate Valid()
      reads this
    {
      0 <= activeIndex < Count
    }

    /** The carousel as mounted: the first testimonial, autoplay on. */
    constructor ()
      ensures Valid() && activeIndex == 0 && isAutoPlaying
    {
      activeIndex := 0;
      isAutoPlaying := true;
    }

    /** The interval callback. The interval exists only while autoplay is on
        (it is cleared when autoplay goes off), so a tick moves to the next
        testimonial exactly when autoplay is on, and never changes autoplay. */
    method Tick()
      requires Valid()
      modifies this
      ensures Valid()
      ensures isAutoPlaying == old(isAutoPlaying)
      ensures activeIndex == if old(isAutoPlaying) then Cyclic.NextIndex(old(activeIndex), Count) else old(activeIndex)
    {
      if isAutoPlaying {
        activeIndex := Cyclic.NextIndex(activeIndex, Count);
      }
    }

    /** The right-arrow button: autoplay stops, the next testimonial is shown,
        the first after the last. */
    method Next()
      requires Valid()
      modifies this
      ensures Valid() && !isAutoPlaying
      ensures activeIndex == Cyclic.NextIndex(old(activeIndex), Count)
      ensures activeIndex == if old(activeIndex) == Count - 1 then 0 else old(activeIndex) + 1
    {
      isAutoPlaying := false;
      activeIndex := Cyclic.NextIndex(activeIndex, Count);
    }

    /** The left-arrow button: autoplay stops, the previous testimonial is
        shown, the last before the first. */
    method Prev()
      requires Valid()
      modifies this
      ensures Valid() && !isAutoPlaying
      ensures activeIndex == Cyclic.PrevIndex(old(activeIndex), Count)
      ensures activeIndex == if old(activeIndex) == 0 then Count - 1 else old(activeIndex) - 1
    {
      isAutoPlaying := false;
      activeIndex := Cyclic.PrevIndex(activeIndex, Count);
    }

    /** A dot under the carousel; there is one per testimonial. */
    method DotClick(index: int)
      requires 0 <= index < Count
      modifies this
      ensures Valid() && !isAutoPlaying
      ensures activeIndex == index
    {
      isAutoPlaying := false;
      activeIndex := index;
    }
  }

  /** Next then previous, or previous then next, shows the testimonial the
      visitor started from; autoplay is off afterwards either way. */
  method NextThenPrev(c: TestimonialCarousel)
    requires c.Valid()
    modifies c
    ensures c.Valid() && c.activeIndex == old(c.activeIndex) && !c.isAutoPlaying
  {
    c.Next();
    c.Prev();
    Cyclic.StepsAreInverse(old(c.activeIndex), Count);
  }

  method PrevThenNext(c: TestimonialCarousel)
    requires c.Valid()
    modifies c
    ensures c.Valid() && c.activeIndex == old(c.activeIndex) && !c.isAutoPlaying
  {
    c.Prev();
    c.Next();
    Cyclic.StepsAreInverse(old(c.activeIndex), Count);
  }
}
