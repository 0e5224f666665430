/**
 * The back-office editor of the home page's background images: the list in `order_index`
 * order, adding an image at the end, moving an image one place by exchanging `order_index`
 * with its neighbour, and editing, saving and deleting. The editor ignores every store error.
 */
module HeroSectionEditor {
  import opened Wrappers
  import opened Seqs
  import opened Sorting
  import opened Store

  /** A `hero_images` row besides its id. */
  datatype HeroImage = HeroImage(url: string, alt: Option<string>, orderIndex: int)

  type ImageRow = Row<HeroImage>

  /** The key of `order('order_index', { ascending: true })`. */
  function ByOrderIndex(): ImageRow -> int {
    (img: ImageRow) => img.fields.orderIndex
  }

  /** The images a successful fetch returns: all of them, in ascending `order_index`. */
  function Ordered(rows: seq<ImageRow>): (r: seq<ImageRow>)
    ensures multiset(r) == multiset(rows)
  {
    SortBy(rows, ByOrderIndex())
  }

  lemma {:induction false} OrderedIsSorted(rows: seq<ImageRow>)
    ensures var r := Ordered(rows);
      forall i, j :: 0 <= i < j < |r| ==> r[i].fields.orderIndex <= r[j].fields.orderIndex
  {
    SortBySorted(rows, ByOrderIndex());
  }

  function OrderIndices(images: seq<ImageRow>): (r: seq<int>)
    ensures |r| == |images|
    ensures forall k :: 0 <= k < |images| ==> r[k] == images[k].fields.orderIndex
  {
    Map(images, (img: ImageRow) => img.fields.orderIndex)
  }

  /** The `order_index` of a new image: one more than the largest, or 1 for the first image. */
  function NextOrderIndex(images: seq<ImageRow>): (n: int)
    ensures images == [] ==> n == 1
    ensures forall k :: 0 <= k < |images| ==> images[k].fields.orderIndex < n
    ensures images != [] ==> exists k :: 0 <= k < |images| && n == images[k].fields.orderIndex + 1
  {
    if images == [] then 1 else MaxOf(OrderIndices(images)) + 1
  }

  datatype Direction = Up | Down

  /** The guard of `moveImage`: the first image cannot move up, the last cannot move down. */
  predicate CanMove(n: nat, index: nat, d: Direction) {
    !(d == Up && index == 0) && !(d == Down && index == n - 1)
  }

  function Neighbour(index: nat, d: Direction): int {
    if d == Up then index - 1 else index + 1
  }

  /** The images with the `order_index` values at `i` and `j` exchanged. */
  function SwappedOrderIndex(images: seq<ImageRow>, i: nat, j: nat): seq<ImageRow>
    requires i < |images| && j < |images|
  {
    var a := images[i].fields.orderIndex;
    var b := images[j].fields.orderIndex;
    images[i := images[i].(fields := images[i].fields.(orderIndex := b))]
          [j := images[j].(fields := images[j].fields.(orderIndex := a))]
  }

  /**
   * A move exchanges exactly two `order_index` values: every image keeps its id, url and alt
   * and its place in the list, and images other than the two keep everything.
   */
  lemma {:induction false} SwapKeepsImages(images: seq<ImageRow>, i: nat, j: nat)
    requires i < |images| && j < |images| && i != j
    ensures var s := SwappedOrderIndex(images, i, j);
      && |s| == |images|
      && (forall k :: 0 <= k < |images| ==>
            s[k].id == images[k].id && s[k].fields.url == images[k].fields.url && s[k].fields.alt == images[k].fields.alt)
      && (forall k :: 0 <= k < |images| && k != i && k != j ==> s[k] == images[k])
      && s[i].fields.orderIndex == images[j].fields.orderIndex
      && s[j].fields.orderIndex == images[i].fields.orderIndex
  {
  }

  /** Taken together, the `order_index` values after a move are the ones before it. */
  lemma {:induction false} SwapPermutesIndices(images: seq<ImageRow>, i: nat, j: nat)
    requires i < |images| && j < |images|
    ensures multiset(OrderIndices(SwappedOrderIndex(images, i, j))) == multiset(OrderIndices(images))
  {
    var a := OrderIndices(images);
    var t := a[i := a[j]];
    assert OrderIndices(SwappedOrderIndex(images, i, j)) == t[j := a[i]];
    ReplaceInMultiset(a, i, a[j]);
    ReplaceInMultiset(t, j, a[i]);
  }

  lemma ReplaceInMultiset(a: seq<int>, i: nat, v: int)
    requires i < |a|
    ensures multiset(a[i := v]) == multiset(a) - multiset{a[i]} + multiset{v}
  {
  }

  /** Moving an image down and then the image below it up again restores every `order_index`. */
  lemma {:induction false} SwapTwiceRestores(images: seq<ImageRow>, i: nat, j: nat)
    requires i < |images| && j < |images|
    ensures SwappedOrderIndex(SwappedOrderIndex(images, i, j), j, i) == images
  {
    var s := SwappedOrderIndex(SwappedOrderIndex(images, i, j), j, i);
    forall k | 0 <= k < |images| ensures s[k] == images[k] {
    }
  }

  function SetOrderIndex(v: int): HeroImage -> HeroImage {
    (h: HeroImage) => h.(orderIndex := v)
  }

  /** `updateImage(id, url, alt, order_index)`: the whole row is written. */
  function Overwrite(url: string, alt: Option<string>, orderIndex: int): HeroImage -> HeroImage {
    (h: HeroImage) => HeroImage(url, alt, orderIndex)
  }

  /** `im.id === id ? { ...im, url: val } : im` */
  function SetUrl(v: string): HeroImage -> HeroImage {
    (h: HeroImage) => h.(url := v)
  }

  /** `im.id === id ? { ...im, alt: val } : im` */
  function SetAlt(v: string): HeroImage -> HeroImage {
    (h: HeroImage) => h.(alt := Some(v))
  }

  class Editor {
    var images: seq<ImageRow>
    var loading: bool
    var newUrl: string
    var newAlt: string

    constructor ()
      ensures images == [] && loading && newUrl == "" && newAlt == ""
    {
      images := [];
      loading := true;
      newUrl := "";
      newAlt := "";
    }

    /** `fetchImages`: on success the list is replaced by the stored images in order; on error it stays. */
    method FetchImages(table: Table<HeroImage>, fails: bool)
      modifies this
      ensures images == if fails then old(images) else Ordered(table.rows)
      ensures !loading && newUrl == old(newUrl) && newAlt == old(newAlt)
    {
      loading := true;
      if !fails {
        images := Ordered(table.rows);
      }
      loading := false;
    }

    /** `addImage`: nothing for an empty URL; otherwise an insert at the end (its error ignored), cleared inputs and a refetch. */
    method AddImage(table: Table<HeroImage>, newId: string, now: int, refusal: Option<StoreError>, fetchFails: bool)
      modifies this, table
      ensures old(newUrl) == "" ==>
        table.rows == old(table.rows) && images == old(images) && loading == old(loading)
        && newUrl == old(newUrl) && newAlt == old(newAlt)
      ensures old(newUrl) != "" ==>
        var added := HeroImage(old(newUrl), if old(newAlt) == "" then None else Some(old(newAlt)), NextOrderIndex(old(images)));
        && table.rows == (if refusal.Some? then old(table.rows) else old(table.rows) + [Row(newId, now, added)])
        && images == (if fetchFails then old(images) else Ordered(table.rows))
        && newUrl == "" && newAlt == "" && !loading
    {
      if newUrl == "" {
        return;
      }
      var maxOrder := if |images| > 0 then MaxOf(OrderIndices(images)) else 0;
      var added := HeroImage(newUrl, if newAlt == "" then None else Some(newAlt), maxOrder + 1);
      assert added.orderIndex == NextOrderIndex(images);
      var _ := table.Insert(added, newId, now, refusal);
      ghost var inserted := table.rows;
      newUrl := "";
      newAlt := "";
      FetchImages(table, fetchFails);
      assert table.rows == inserted;
    }

    /** `updateImage`: the row with that id is overwritten (the error ignored), then a refetch. */
    method UpdateImage(table: Table<HeroImage>, id: string, url: string, alt: Option<string>, orderIndex: int,
                       refusal: Option<StoreError>, fetchFails: bool)
      modifies this, table
      ensures table.rows == if refusal.Some? then old(table.rows) else UpdateWhereId(old(table.rows), id, Overwrite(url, alt, orderIndex))
      ensures images == if fetchFails then old(images) else Ordered(table.rows)
      ensures !loading && newUrl == old(newUrl) && newAlt == old(newAlt)
    {
      var _ := table.Update(id, Overwrite(url, alt, orderIndex), refusal);
      FetchImages(table, fetchFails);
    }

    /** `deleteImage`: the row with that id is deleted (the error ignored), then a refetch. */
    method DeleteImage(table: Table<HeroImage>, id: string, refusal: Option<StoreError>, fetchFails: bool)
      modifies this, table
      ensures table.rows == if refusal.Some? then old(table.rows) else DeleteWhereId(old(table.rows), id)
      ensures images == if fetchFails then old(images) else Ordered(table.rows)
      ensures !loading && newUrl == old(newUrl) && newAlt == old(newAlt)
    {
      var _ := table.Delete(id, refusal);
      FetchImages(table, fetchFails);
    }

    /**
     * `moveImage(index, direction)`. The exchange happens on the list's own image objects, so the
     * list holds the exchanged values even when the refetch fails; each of the two store updates
     * may be refused on its own.
     */
    method MoveImage(table: Table<HeroImage>, index: nat, d: Direction,
                     first: Option<StoreError>, second: Option<StoreError>, fetchFails: bool)
      requires index < |images|
      modifies this, table
      ensures !CanMove(|old(images)|, index, d) ==>
        table.rows == old(table.rows) && images == old(images) && loading == old(loading)
      ensures CanMove(|old(images)|, index, d) ==>
        var j := Neighbour(index, d);
        && 0 <= j < |old(images)|
        && var swapped := SwappedOrderIndex(old(images), index, j);
        && var afterFirst := if first.Some? then old(table.rows)
                             else UpdateWhereId(old(table.rows), swapped[index].id, SetOrderIndex(swapped[index].fields.orderIndex));
        && table.rows == (if second.Some? then afterFirst
                          else UpdateWhereId(afterFirst, swapped[j].id, SetOrderIndex(swapped[j].fields.orderIndex)))
        && images == (if fetchFails then swapped else Ordered(table.rows))
        && !loading
      ensures newUrl == old(newUrl) && newAlt == old(newAlt)
    {
      if (d == Up && index == 0) || (d == Down && index == |images| - 1) {
        return;
      }
      var swapIndex := if d == Up then index - 1 else index + 1;
      var temp := images[index].fields.orderIndex;
      images := images[index := images[index].(fields := images[index].fields.(orderIndex := images[swapIndex].fields.orderIndex))];
      images := images[swapIndex := images[swapIndex].(fields := images[swapIndex].fields.(orderIndex := temp))];
      var _ := table.Update(images[index].id, SetOrderIndex(images[index].fields.orderIndex), first);
      var _ := table.Update(images[swapIndex].id, SetOrderIndex(images[swapIndex].fields.orderIndex), second);
      FetchImages(table, fetchFails);
    }

    /** Typing in an image's URL field: only the images with that id change, and only their URL. */
    method EditUrl(id: string, v: string)
      modifies this
      ensures images == UpdateWhereId(old(images), id, SetUrl(v))
      ensures loading == old(loading) && newUrl == old(newUrl) && newAlt == old(newAlt)
    {
      images := UpdateWhereId(images, id, SetUrl(v));
    }

    /** Typing in an image's alt field: only the images with that id change, and only their alt text. */
    method EditAlt(id: string, v: string)
      modifies this
      ensures images == UpdateWhereId(old(images), id, SetAlt(v))
      ensures loading == old(loading) && newUrl == old(newUrl) && newAlt == old(newAlt)
    {
      images := UpdateWhereId(images, id, SetAlt(v));
    }
  }

  /** A local edit changes the edited field of the images with that id and nothing else. */
  lemma {:induction false} LocalEditsTouchOneImage(images: seq<ImageRow>, id: string, v: string)
    ensures var u := UpdateWhereId(images, id, SetUrl(v));
      forall k :: 0 <= k < |images| ==>
        u[k] == (if images[k].id == id then images[k].(fields := images[k].fields.(url := v)) else images[k])
    ensures var a := UpdateWhereId(images, id, SetAlt(v));
      forall k :: 0 <= k < |images| ==>
        a[k].id == images[k].id && a[k].fields.url == images[k].fields.url
        && a[k].fields.orderIndex == images[k].fields.orderIndex
        && a[k].fields.alt == (if images[k].id == id then Some(v) else images[k].fields.alt)
  {
  }

  /** A new image is placed after every image shown when it was added. */
  lemma {:induction false} AddedImageSortsLast(rows: seq<ImageRow>, added: ImageRow)
    requires forall k :: 0 <= k < |rows| ==> rows[k].fields.orderIndex < added.fields.orderIndex
    ensures Ordered(rows + [added]) == Ordered(rows) + [added]
  {
    SortByAppendLargest(rows, added, ByOrderIndex());
  }
}
