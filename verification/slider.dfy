/**
 * `TestimonialsSlider` of script.js: an index into a ring of slides, moved by
 * the next and previous buttons and by the dots, and the view `updateSlider`
 * derives from it: the track's translation and which dot is active.
 */
module Slider {
  import opened Selection

  /** The slide after `i` in a ring of `n`: `(i + 1) % n`. */
  function NextIndex(i: int, n: int): (r: int)
    requires 0 <= i < n
    ensures 0 <= r < n
    ensures r == if i == n - 1 then 0 else i + 1
  {
    (i + 1) % n
  }

  /** The slide before `i` in a ring of `n`: `(i - 1 + n) % n`, whose operand is never negative. */
  function PrevIndex(i: int, n: int): (r: int)
    requires 0 <= i < n
    ensures 0 <= r < n
    ensures r == if i == 0 then n - 1 else i - 1
  {
    (i - 1 + n) % n
  }

  /** `prev` undoes `next`, and `next` undoes `prev`. */
  lemma PrevUndoesNext(i: int, n: int)
    requires 0 <= i < n
    ensures PrevIndex(NextIndex(i, n), n) == i
    ensures NextIndex(PrevIndex(i, n), n) == i
  {
  }

  /** The index after `k` presses of next (or `k` autoplay ticks). */
  function Forward(i: int, n: int, k: nat): (r: int)
    requires 0 <= i < n
    ensures 0 <= r < n
  {
    if k == 0 then i else NextIndex(Forward(i, n, k - 1), n)
  }

  /** Short of the end of the ring, `k` presses of next move `k` places. */
  lemma {:induction false} ForwardWithin(i: int, n: int, k: nat)
    requires 0 <= i && i + k < n
    ensures Forward(i, n, k) == i + k
  {
    if k > 0 {
      ForwardWithin(i, n, k - 1);
    }
  }

  /** Pressing next `a` times and then `b` times is pressing it `a + b` times. */
  lemma {:induction false} ForwardAdditive(i: int, n: int, a: nat, b: nat)
    requires 0 <= i < n
    ensures Forward(i, n, a + b) == Forward(Forward(i, n, a), n, b)
  {
    if b > 0 {
      ForwardAdditive(i, n, a, b - 1);
    }
  }

  /** `n` presses of next bring the slider back where it was. */
  lemma FullTurn(i: int, n: int)
    requires 0 <= i < n
    ensures Forward(i, n, n) == i
  {
    ForwardWithin(i, n, n - 1 - i);
    assert Forward(i, n, n - i) == 0;
    ForwardAdditive(i, n, n - i, i);
    if i > 0 {
      ForwardWithin(0, n, i);
    }
  }

  /** The slider: its slides' count, the current index, the dots and the track's translation. */
  class TestimonialsSlider {
    const totalSlides: int
    var currentIndex: int
    /** Which dots carry `active`. */
    const dots: array<bool>
    /** The track's `translateX`, in percent to the left. */
    var offset: int

    ghost predicate Valid()
      reads this
    {
      totalSlides > 0 && dots.Length == totalSlides && 0 <= currentIndex < totalSlides
    }

    /** `init()` with `total` cards, then `createDots()`: one dot per slide, the first one active. */
    constructor (total: int)
      requires total > 0
      ensures Valid() && totalSlides == total && currentIndex == 0 && offset == 0
      ensures fresh(dots) && dots[..] == OnlyAt(total, 0)
    {
      totalSlides := total;
      currentIndex := 0;
      offset := 0;
      var created := new bool[total];
      var i := 0;
      while i < total
        invariant 0 <= i <= total
        invariant forall j :: 0 <= j < i ==> created[j] == (j == 0)
      {
        created[i] := i == 0;
        i := i + 1;
      }
      dots := created;
    }

    /** `updateSlider()`: translate the track to the current slide and mark only its dot. */
    method UpdateSlider()
      requires Valid()
      modifies this`offset, dots
      ensures offset == currentIndex * 100
      ensures dots[..] == OnlyAt(totalSlides, currentIndex)
    {
      offset := currentIndex * 100;
      var index := 0;
      while index < dots.Length
        invariant 0 <= index <= dots.Length
        invariant offset == currentIndex * 100
        invariant forall j :: 0 <= j < index ==> dots[j] == (j == currentIndex)
      {
        dots[index] := index == currentIndex;
        index := index + 1;
      }
    }

    /** `next()`. */
    method Next()
      requires Valid()
      modifies this`currentIndex, this`offset, dots
      ensures Valid() && currentIndex == NextIndex(old(currentIndex), totalSlides)
      ensures offset == currentIndex * 100 && dots[..] == OnlyAt(totalSlides, currentIndex)
    {
      currentIndex := (currentIndex + 1) % totalSlides;
      UpdateSlider();
    }

    /** `prev()`. */
    method Prev()
      requires Valid()
      modifies this`currentIndex, this`offset, dots
      ensures Valid() && currentIndex == PrevIndex(old(currentIndex), totalSlides)
      ensures offset == currentIndex * 100 && dots[..] == OnlyAt(totalSlides, currentIndex)
    {
      currentIndex := (currentIndex - 1 + totalSlides) % totalSlides;
      UpdateSlider();
    }

    /** `goToSlide(index)`, called only by the dot at `index`. */
    method GoToSlide(index: int)
      requires Valid() && 0 <= index < totalSlides
      modifies this`currentIndex, this`offset, dots
      ensures Valid() && currentIndex == index
      ensures offset == currentIndex * 100 && dots[..] == OnlyAt(totalSlides, currentIndex)
    {
      currentIndex := index;
      UpdateSlider();
    }
  }
}
