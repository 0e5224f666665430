/**
 * The home page's background carousel: the image URLs in `order_index` order, advanced one image
 * every five seconds while there is at least one image, and set directly by an indicator click.
 */
module HeroSection {
  import opened Seqs
  import opened Store
  import opened HeroSectionEditor

  /** The URLs a successful fetch returns, in `order_index` order. */
  function Urls(rows: seq<ImageRow>): (r: seq<string>)
    ensures |r| == |rows|
    ensures forall k :: 0 <= k < |r| ==> r[k] == Ordered(rows)[k].fields.url
  {
    Map(Ordered(rows), (img: ImageRow) => img.fields.url)
  }

  /** `(prev + 1) % backgroundImages.length` */
  function Next(current: int, n: nat): (r: int)
    requires n > 0
    ensures 0 <= r < n
    ensures 0 <= current < n - 1 ==> r == current + 1
    ensures current == n - 1 ==> r == 0
  {
    (current + 1) % n
  }

  /** The index shown after `k` ticks of the interval. */
  function AfterTicks(current: int, n: nat, k: nat): int
    requires n > 0
  {
    if k == 0 then current else Next(AfterTicks(current, n, k - 1), n)
  }

  /** Ticks add up: `a` ticks followed by `b` ticks are `a + b` ticks. */
  lemma {:induction false} TicksCompose(current: int, n: nat, a: nat, b: nat)
    requires n > 0
    ensures AfterTicks(current, n, a + b) == AfterTicks(AfterTicks(current, n, a), n, b)
  {
    if b > 0 {
      TicksCompose(current, n, a, b - 1);
    }
  }

  /** Before the end of the list each tick moves to the next image. */
  lemma {:induction false} TicksAdvance(current: int, n: nat, k: nat)
    requires n > 0 && 0 <= current && current + k < n
    ensures AfterTicks(current, n, k) == current + k
  {
    if k > 0 {
      TicksAdvance(current, n, k - 1);
    }
  }

  /** From any image, the first image comes back after the remaining images have been shown. */
  lemma {:induction false} TicksWrapToFirst(current: int, n: nat)
    requires n > 0 && 0 <= current < n
    ensures AfterTicks(current, n, n - current) == 0
  {
    TicksAdvance(current, n, n - current - 1);
  }

  /** After as many ticks as there are images the image shown first is shown again. */
  lemma {:induction false} FullCycleReturns(current: int, n: nat)
    requires n > 0 && 0 <= current < n
    ensures AfterTicks(current, n, n) == current
  {
    TicksCompose(current, n, n - current, current);
    TicksWrapToFirst(current, n);
    TicksAdvance(0, n, current);
  }

  /** Every image is shown within one cycle, whatever image is shown first. */
  lemma {:induction false} EveryImageShown(current: int, n: nat, target: int)
    requires n > 0 && 0 <= current < n && 0 <= target < n
    ensures var k := if target >= current then target - current else n - current + target;
      k < n && AfterTicks(current, n, k) == target
  {
    if target >= current {
      TicksAdvance(current, n, target - current);
    } else {
      TicksCompose(current, n, n - current, target);
      TicksWrapToFirst(current, n);
      TicksAdvance(0, n, target);
    }
  }

  class Carousel {
    var images: seq<string>
    var current: int
    var loading: bool

    constructor ()
      ensures images == [] && current == 0 && loading
    {
      images := [];
      current := 0;
      loading := true;
    }

    /** The shown index is one of the images, once there are images and while it is kept by the methods below. */
    predicate Valid()
      reads this
    {
      0 <= current && (images != [] ==> current < |images|)
    }

    /** The fetch on mount: the URLs in order on success, the list unchanged on error. */
    method Fetch(table: Table<HeroImage>, fails: bool)
      modifies this
      ensures images == if fails then old(images) else Urls(table.rows)
      ensures current == old(current) && !loading
    {
      loading := true;
      if !fails {
        images := Urls(table.rows);
      }
      loading := false;
    }

    /** One interval tick; no interval runs without images. */
    method Tick()
      requires |images| > 0 && Valid()
      modifies this
      ensures images == old(images) && loading == old(loading)
      ensures current == Next(old(current), |images|)
      ensures Valid()
    {
      current := (current + 1) % |images|;
    }

    /** A click on the indicator of image `i`. */
    method Click(i: nat)
      requires i < |images|
      modifies this
      ensures images == old(images) && loading == old(loading)
      ensures current == i && Valid()
    {
      current := i;
    }
  }
}
