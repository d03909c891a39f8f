/** The stacked loan carousel on the landing page: the current slide index,
    the buttons that step it forwards and backwards, and the place each
    slide takes in the stack. */
module Carousel {
  import opened Common

  /** The slides, by number. */
  const Slides: seq<nat> := [1, 2, 3, 4]

  /** The remainder of the `%` operator the page uses: its sign follows the
      dividend, unlike Dafny's, whose remainder is never negative. */
  function JsRem(a: int, n: int): (r: int)
    requires n > 0
    ensures a >= 0 ==> r == a % n
    ensures -n < r < n
  {
    if a >= 0 then a % n else -((-a) % n)
  }

  /** The index after the "next" button. */
  function NextIndex(i: int): int {
    JsRem(i + 1, |Slides|)
  }

  /** The index after the "previous" button. */
  function PrevIndex(i: int): int {
    JsRem(i - 1 + |Slides|, |Slides|)
  }

  predicate InRange(i: int) {
    0 <= i < |Slides|
  }

  /** Both buttons keep the index on a slide; "next" after the last slide
      goes to the first and "previous" before the first to the last. */
  lemma StepsStayInRange(i: int)
    requires InRange(i)
    ensures InRange(NextIndex(i)) && InRange(PrevIndex(i))
    ensures NextIndex(i) == (if i == 3 then 0 else i + 1)
    ensures PrevIndex(i) == (if i == 0 then 3 else i - 1)
  {
  }

  /** Each button undoes the other. */
  lemma PrevUndoesNext(i: int)
    requires InRange(i)
    ensures PrevIndex(NextIndex(i)) == i
    ensures NextIndex(PrevIndex(i)) == i
  {
    StepsStayInRange(i);
  }

  /** Four presses of "next" come back to the same slide, and no fewer do. */
  lemma FourNextsCycle(i: int)
    requires InRange(i)
    ensures NextIndex(NextIndex(NextIndex(NextIndex(i)))) == i
    ensures NextIndex(i) != i && NextIndex(NextIndex(i)) != i && NextIndex(NextIndex(NextIndex(i))) != i
  {
    StepsStayInRange(i);
    StepsStayInRange(NextIndex(i));
    StepsStayInRange(NextIndex(NextIndex(i)));
    StepsStayInRange(NextIndex(NextIndex(NextIndex(i))));
  }

  /** The component's state. */
  class Carousel {
    var index: int

    constructor()
      ensures index == 0
    {
      index := 0;
    }

    method Next()
      modifies this
      ensures index == NextIndex(old(index))
      ensures old(InRange(index)) ==> InRange(index)
    {
      ghost var before := index;
      index := JsRem(index + 1, |Slides|);
      if InRange(before) {
        StepsStayInRange(before);
      }
    }

    method Prev()
      modifies this
      ensures index == PrevIndex(old(index))
      ensures old(InRange(index)) ==> InRange(index)
    {
      ghost var before := index;
      index := JsRem(index - 1 + |Slides|, |Slides|);
      if InRange(before) {
        StepsStayInRange(before);
      }
    }
  }

  // ---------------------------------------------------------------------
  // The stack
  // ---------------------------------------------------------------------

  /** How far behind the current slide the slide at position idx sits. */
  function Order(idx: int, index: int): int {
    JsRem(idx - index + |Slides|, |Slides|)
  }

  /** On slides, the distance counts forward from the index, wrapping past
      the last slide. */
  lemma OrderValue(idx: int, index: int)
    requires InRange(idx) && InRange(index)
    ensures Order(idx, index) == if idx >= index then idx - index else idx - index + 4
  {
  }

  /** The slide o places behind the slide at the index. */
  function Behind(o: int, index: int): int {
    JsRem(index + o, |Slides|)
  }

  /** The places in the stack are a permutation of 0..3. Every slide gets
      a place, and the current slide alone is in front ... */
  lemma OrderInRange(index: int)
    requires InRange(index)
    ensures forall idx :: InRange(idx) ==> InRange(Order(idx, index))
    ensures forall idx :: InRange(idx) ==> (Order(idx, index) == 0 <==> idx == index)
  {
    forall idx | InRange(idx) ensures InRange(Order(idx, index)) && (Order(idx, index) == 0 <==> idx == index) {
      OrderValue(idx, index);
    }
  }

  /** ... every place is taken ... */
  lemma OrderOnto(index: int)
    requires InRange(index)
    ensures forall o :: InRange(o) ==> InRange(Behind(o, index)) && Order(Behind(o, index), index) == o
  {
    forall o | InRange(o) ensures InRange(Behind(o, index)) && Order(Behind(o, index), index) == o {
      BehindPlace(o, index);
    }
  }

  /** ... and no two slides share one. */
  lemma OrderInjective(index: int)
    requires InRange(index)
    ensures forall a, b :: InRange(a) && InRange(b) && a != b ==> Order(a, index) != Order(b, index)
  {
    forall a, b | InRange(a) && InRange(b) && a != b ensures Order(a, index) != Order(b, index) {
      OrderDistinct(a, b, index);
    }
  }

  lemma BehindPlace(o: int, index: int)
    requires InRange(o) && InRange(index)
    ensures InRange(Behind(o, index)) && Order(Behind(o, index), index) == o
  {
    var b := Behind(o, index);
    assert b == if index + o < 4 then index + o else index + o - 4;
    OrderValue(b, index);
  }

  lemma OrderDistinct(a: int, b: int, index: int)
    requires InRange(a) && InRange(b) && a != b && InRange(index)
    ensures Order(a, index) != Order(b, index)
  {
    OrderValue(a, index);
    OrderValue(b, index);
  }

  /** A slide's placement: its box, stacking level and opacity, and whether
      the white veil covers it. */
  datatype Style = Style(left: string, top: string, width: string, height: string,
                         zIndex: int, opacity: real, veiled: bool)

  function StyleFor(order: int): Style {
    if order == 0 then Style("0%", "0%", "60%", "100%", 40, 1.0, false)
    else if order == 1 then Style("45%", "10%", "45%", "70%", 30, 0.75, true)
    else if order == 2 then Style("28%", "20%", "45%", "65%", 20, 0.75, true)
    else Style("12%", "30%", "42%", "60%", 10, 0.75, true)
  }

  /** The front slide alone is on top, fully opaque and unveiled; the others
      step back 30, 20, 10 at three-quarters opacity under the veil. */
  lemma StyleByOrder(order: int)
    requires InRange(order)
    ensures var s := StyleFor(order);
      && s.zIndex == 40 - 10 * order
      && (s.opacity == 1.0 <==> order == 0)
      && (order != 0 ==> s.opacity == 0.75)
      && (s.veiled <==> order != 0)
  {
  }

  /** One rendered slide: its number, picture and style. */
  datatype SlideView = SlideView(slide: nat, src: string, alt: string, style: Style)

  function View(index: int): seq<SlideView> {
    seq(|Slides|, idx requires 0 <= idx < |Slides| =>
      SlideView(Slides[idx],
                "/images/home/prestito-slide-" + NatToString(Slides[idx]) + ".jpg",
                "Prestito UniCredit slide " + NatToString(Slides[idx]),
                StyleFor(Order(idx, index))))
  }

  /** Exactly the slide at the index is shown in front, and the stacking
      levels of the four slides are all different. */
  lemma ActiveSlide(index: int)
    requires InRange(index)
    ensures forall idx :: InRange(idx) ==> (View(index)[idx].style.zIndex == 40 <==> idx == index)
    ensures forall idx :: InRange(idx) ==> (View(index)[idx].style.veiled <==> idx != index)
    ensures forall a, b :: InRange(a) && InRange(b) && a != b ==>
      View(index)[a].style.zIndex != View(index)[b].style.zIndex
  {
    forall idx | InRange(idx)
      ensures View(index)[idx].style.zIndex == 40 <==> idx == index
      ensures View(index)[idx].style.veiled <==> idx != index
    {
      SlideStyle(idx, index);
      OrderValue(idx, index);
    }
    forall a, b | InRange(a) && InRange(b) && a != b
      ensures View(index)[a].style.zIndex != View(index)[b].style.zIndex
    {
      SlideStyle(a, index);
      SlideStyle(b, index);
      OrderDistinct(a, b, index);
    }
  }

  /** The style of the slide at idx follows from its place in the stack. */
  lemma SlideStyle(idx: int, index: int)
    requires InRange(idx) && InRange(index)
    ensures InRange(Order(idx, index))
    ensures View(index)[idx].style.zIndex == 40 - 10 * Order(idx, index)
    ensures View(index)[idx].style.veiled <==> Order(idx, index) != 0
  {
    OrderValue(idx, index);
    StyleByOrder(Order(idx, index));
  }

  /** The counter under the stack: the slide's position, a slash, the count. */
  function Counter(index: int): string
    requires index >= 0
  {
    NatToString(index + 1) + "/" + NatToString(|Slides|)
  }

  /** On a slide the counter reads "1/4" to "4/4". */
  lemma CounterText(index: int)
    requires InRange(index)
    ensures Counter(index) == [('1' as int + index) as char, '/', '4']
  {
  }
}
