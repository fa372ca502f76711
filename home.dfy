/**
  The home page: the three-slide hero carousel with its previous/next buttons,
  and the redirect applied when a product's "View Details" link is clicked.
*/
module Home {

  datatype Slide = Slide(title: string, description: string)

  const Slides: seq<Slide> := [
    Slide("Seamless Student Trading",
          "A simple platform built for UNIJOS students to buy, sell, and connect easily"),
    Slide("Fast and Reliable Experience",
          "Enjoy quick browsing, smooth listings, and dependable access — anytime, anywhere"),
    Slide("Easy to Use",
          "Post, find, and connect with just a few clicks. No tech skills required")
  ]

  /** `nextSlide`'s update: from the last slide back to the first, otherwise one on. */
  function NextIndex(i: nat): (j: nat)
    requires i < |Slides|
    ensures j < |Slides|
    ensures j == (i + 1) % |Slides|
  {
    if i == |Slides| - 1 then 0 else i + 1
  }

  /** `prevSlide`'s update: from the first slide to the last, otherwise one back. */
  function PrevIndex(i: nat): (j: nat)
    requires i < |Slides|
    ensures j < |Slides|
    ensures j == (i + |Slides| - 1) % |Slides|
  {
    if i == 0 then |Slides| - 1 else i - 1
  }

  /** Previous undoes next, and next undoes previous. */
  lemma NextPrevInverse(i: nat)
    requires i < |Slides|
    ensures PrevIndex(NextIndex(i)) == i
    ensures NextIndex(PrevIndex(i)) == i
  {
  }

  /** The slide reached by pressing "next" `n` times. */
  function NextTimes(i: nat, n: nat): (j: nat)
    requires i < |Slides|
    ensures j < |Slides|
  {
    if n == 0 then i else NextIndex(NextTimes(i, n - 1))
  }

  /** Pressing "next" `n` times advances by `n` modulo the number of slides. */
  lemma {:induction false} NextTimesIsModular(i: nat, n: nat)
    requires i < |Slides|
    ensures NextTimes(i, n) == (i + n) % |Slides|
  {
    if n > 0 {
      NextTimesIsModular(i, n - 1);
    }
  }

  /** A full round of "next" presses comes back to the starting slide. */
  lemma FullCycle(i: nat)
    requires i < |Slides|
    ensures NextTimes(i, |Slides|) == i
  {
    NextTimesIsModular(i, |Slides|);
  }

  function DigitChar(d: nat): char
    requires d < 10
  {
    ('0' as int + d) as char
  }

  /** Decimal rendering of a product id, as a template literal writes it. */
  function NatToString(n: nat): (s: string)
    ensures |s| >= 1
    decreases n
  {
    if n < 10 then [DigitChar(n)] else NatToString(n / 10) + [DigitChar(n % 10)]
  }

  /**
    Where a product click leads: signed-out visitors are sent to '/signup'
    instead of following the link; otherwise the link's own target.
  */
  function ProductClickTarget(isLoggedIn: bool, productId: nat): (target: string)
    ensures !isLoggedIn <==> target == "/signup"
  {
    if !isLoggedIn then "/signup" else "/products/" + NatToString(productId)
  }

  /** The page's state: the slide shown, the slide direction, and the sign-in flag. */
  class HomePage {
    var currentSlide: nat
    var direction: int
    var isLoggedIn: bool

    /** Nothing in the page ever sets the sign-in flag, so it stays false. */
    ghost predicate Valid()
      reads this
    {
      currentSlide < |Slides| && -1 <= direction <= 1 && !isLoggedIn
    }

    constructor ()
      ensures Valid()
      ensures currentSlide == 0 && direction == 0 && !isLoggedIn
    {
      currentSlide, direction, isLoggedIn := 0, 0, false;
    }

    method NextSlide()
      requires Valid()
      modifies this
      ensures Valid()
      ensures direction == 1
      ensures currentSlide == NextIndex(old(currentSlide))
      ensures isLoggedIn == old(isLoggedIn)
    {
      direction := 1;
      currentSlide := NextIndex(currentSlide);
    }

    method PrevSlide()
      requires Valid()
      modifies this
      ensures Valid()
      ensures direction == -1
      ensures currentSlide == PrevIndex(old(currentSlide))
      ensures isLoggedIn == old(isLoggedIn)
    {
      direction := -1;
      currentSlide := PrevIndex(currentSlide);
    }

    /** `handleProductClick`: every product click ends on the signup page. */
    method HandleProductClick(productId: nat) returns (target: string)
      requires Valid()
      ensures target == "/signup"
    {
      target := ProductClickTarget(isLoggedIn, productId);
    }

    function CurrentSlide(): (s: Slide)
      reads this
      requires Valid()
      ensures s in Slides
    {
      Slides[currentSlide]
    }
  }
}
