/**
 * The testimonials carousel (components/testimonials-section.tsx): a timer advances the shown
 * testimonial cyclically, and the dots below jump to one and mark the current one.
 */
module Testimonials {
  import opened Seqs

  /** The number of testimonials in the carousel. */
  const TestimonialCount: nat := 3

  /** The timer tick: `(prev + 1) % testimonials.length`. */
  function NextIndex(prev: nat, n: nat): (next: nat)
    requires n > 0
    ensures next < n
    ensures prev + 1 < n ==> next == prev + 1
    ensures prev + 1 == n ==> next == 0
  {
    (prev + 1) % n
  }

  /** The index after `k` ticks starting from `start`. */
  function AfterTicks(start: nat, k: nat, n: nat): nat
    requires n > 0
  {
    if k == 0 then start else NextIndex(AfterTicks(start, k - 1, n), n)
  }

  /** Reference definition of the cyclic position `a` modulo `n`: take off whole laps. */
  function Wrap(a: nat, n: nat): (r: nat)
    requires n > 0
    decreases a
  {
    if a < n then a else Wrap(a - n, n)
  }

  /** One tick moves the wrapped position one place on. */
  lemma {:induction false} NextIndexWraps(a: nat, n: nat)
    requires n > 0
    ensures NextIndex(Wrap(a, n), n) == Wrap(a + 1, n)
    decreases a
  {
    if a >= n {
      NextIndexWraps(a - n, n);
    } else if a + 1 == n {
      assert Wrap(a + 1, n) == Wrap(0, n);
    }
  }

  /** `k` ticks from a valid index move it `k` places forward, cyclically. */
  lemma {:induction false} AfterTicksIsRotation(start: nat, k: nat, n: nat)
    requires start < n
    ensures AfterTicks(start, k, n) == Wrap(start + k, n)
  {
    if k > 0 {
      AfterTicksIsRotation(start, k - 1, n);
      NextIndexWraps(start + k - 1, n);
    }
  }

  /** After one tick per testimonial the carousel is back where it started. */
  lemma FullCycle(start: nat, n: nat)
    requires start < n
    ensures AfterTicks(start, n, n) == start
  {
    AfterTicksIsRotation(start, n, n);
  }

  /** The dots, one per testimonial: `true` for the one drawn as active (`index === currentIndex`). */
  function Dots(current: nat, n: nat): (dots: seq<bool>)
    ensures |dots| == n
  {
    if n == 0 then [] else Dots(current, n - 1) + [n - 1 == current]
  }

  lemma {:induction false} DotsBeforeCurrentOff(current: nat, n: nat)
    requires n <= current
    ensures Filter(IsSet(), Dots(current, n)) == []
  {
    if n > 0 {
      DotsBeforeCurrentOff(current, n - 1);
      FilterConcat(IsSet(), Dots(current, n - 1), [false]);
    }
  }

  /** Exactly one dot is active while the index is valid. */
  lemma {:induction false} OneActiveDot(current: nat, n: nat)
    requires current < n
    ensures |Filter(IsSet(), Dots(current, n))| == 1
    ensures Dots(current, n)[current]
  {
    var prefix := Dots(current, n - 1);
    FilterConcat(IsSet(), prefix, [n - 1 == current]);
    if n - 1 == current {
      DotsBeforeCurrentOff(current, n - 1);
      assert Filter(IsSet(), [true]) == [true];
    } else {
      OneActiveDot(current, n - 1);
      assert Filter(IsSet(), [false]) == [];
      assert Dots(current, n)[current] == prefix[current];
    }
  }

  class TestimonialsCarousel {
    var currentIndex: nat

    constructor ()
      ensures currentIndex == 0
    {
      currentIndex := 0;
    }

    predicate Valid()
      reads this
    {
      currentIndex < TestimonialCount
    }

    method Tick()
      requires Valid()
      modifies this
      ensures Valid()
      ensures currentIndex == NextIndex(old(currentIndex), TestimonialCount)
    {
      currentIndex := (currentIndex + 1) % TestimonialCount;
    }

    /** Clicking the dot of `index` shows that testimonial. */
    method DotClick(index: nat)
      requires index < TestimonialCount
      modifies this
      ensures Valid()
      ensures currentIndex == index
    {
      currentIndex := index;
    }
  }
}
