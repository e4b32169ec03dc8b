/** The `selected` property of the tutorial's `motion-carousel` element:
    setting it wraps around at either end when stepping past the first or
    last slide, clamps other requests to the slides there are, and records
    the change only when the index actually changes. */
module Carousel {
  function Min(a: int, b: int): (m: int) { if a <= b then a else b }
  function Max(a: int, b: int): (m: int) { if a >= b then a else b }

  /** The index the setter stores for a request of `i`, when the current
      index is `current` and the last slide's index is `max`. */
  function NextSelected(current: int, i: int, max: int): (r: int)
    ensures max >= 0 ==> 0 <= r <= max
  {
    var wrapToStart := current == max && i > current;
    var wrapToEnd := current == 0 && i < current;
    if wrapToStart then 0 else if wrapToEnd then max else Min(max, Max(0, i))
  }

  /** The two wrap-around cases cannot both apply. */
  lemma WrapsExclusive(current: int, i: int, max: int)
    ensures !((current == max && i > current) && (current == 0 && i < current))
  {
  }

  /** Stepping past the last slide goes to the first, and stepping before
      the first goes to the last; otherwise the request is clamped. */
  lemma NextSelectedCases(current: int, i: int, max: int)
    ensures current == max && i > current ==> NextSelected(current, i, max) == 0
    ensures current == 0 && i < current ==> NextSelected(current, i, max) == max
    ensures !(current == max && i > current) && !(current == 0 && i < current) ==>
      NextSelected(current, i, max) == (if i < 0 then Min(max, 0) else if i > max then max else i)
  {
  }

  /** A request for a slide that exists is granted as asked. */
  lemma ExistingSlideKept(current: int, i: int, max: int)
    requires 0 <= i <= max
    ensures NextSelected(current, i, max) == i
  {
  }

  /** From a valid index, stepping forward or back moves around the ring of
      slides. */
  lemma StepsAreCyclic(current: int, max: int)
    requires 0 <= current <= max
    ensures NextSelected(current, current + 1, max) == (current + 1) % (max + 1)
    ensures NextSelected(current, current - 1, max) == (current - 1) % (max + 1)
  {
    RingEnds(max + 1);
    if current < max {
      RingInside(current + 1, max + 1);
    }
    if current > 0 {
      RingInside(current - 1, max + 1);
    }
  }

  lemma RingInside(k: int, n: int)
    requires 0 <= k < n
    ensures k % n == k
  {
  }

  lemma RingEnds(n: int)
    requires n > 0
    ensures n % n == 0 && (-1) % n == n - 1
  {
  }

  /** Without children the last index is -1, and the setter stores -1 except
      when it already holds -1 and is asked for a larger index. */
  lemma WithoutChildren(current: int, i: int)
    ensures NextSelected(current, i, -1) == (if current == -1 && i > -1 then 0 else -1)
  {
  }

  class MotionCarousel {
    /** The element's number of child elements: the slides. */
    var childElementCount: nat
    var selectedIndex: int
    var isAdvancing: bool
    /** The `requestUpdate(name, oldValue)` calls made so far. */
    var updateRequests: seq<(string, int)>

    constructor (childElementCount: nat)
      ensures this.childElementCount == childElementCount
      ensures selectedIndex == 0 && !isAdvancing && updateRequests == []
    {
      this.childElementCount := childElementCount;
      selectedIndex := 0;
      isAdvancing := false;
      updateRequests := [];
    }

    /** The `selected` getter. */
    function Selected(): (index: int)
      reads this
    {
      selectedIndex
    }

    /** The `selected` setter. With at least one slide the stored index
        afterwards is a valid one, whatever it was before. */
    method SetSelected(i: int)
      modifies this`selectedIndex, this`isAdvancing, this`updateRequests
      ensures childElementCount >= 1 ==> 0 <= selectedIndex < childElementCount
      ensures var next := NextSelected(old(selectedIndex), i, childElementCount - 1);
        if next != old(selectedIndex) then
          && selectedIndex == next
          && isAdvancing == (i > old(selectedIndex))
          && updateRequests == old(updateRequests) + [("selected", old(selectedIndex))]
        else
          && selectedIndex == old(selectedIndex)
          && isAdvancing == old(isAdvancing)
          && updateRequests == old(updateRequests)
    {
      var max := childElementCount - 1;
      var previous := Selected();
      var selected := NextSelected(previous, i, max);
      if selected != previous {
        selectedIndex := selected;
        isAdvancing := i > previous;
        updateRequests := updateRequests + [("selected", previous)];
      }
    }
  }

  /** Wrapping from the last slide to the first counts as advancing, since
      the flag compares the request with the old index, not the result. */
  method WrapForwardIsAdvancing() {
    var carousel := new MotionCarousel(3);
    carousel.SetSelected(2);
    assert carousel.selectedIndex == 2 && carousel.isAdvancing;
    carousel.SetSelected(3);
    assert carousel.selectedIndex == 0 && carousel.isAdvancing;
    carousel.SetSelected(0);
    assert carousel.updateRequests == [("selected", 0), ("selected", 2)];
  }
}
