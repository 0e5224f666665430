/** The back-office form that creates or edits a package. */
module PackageForm {
  import opened Wrappers
  import opened JsText
  import opened Store
  import opened CatalogForm

  /** The columns the form writes; the rating is sent as a number. */
  datatype Package = Package(
    title: string, description: string, duration: string, groupSize: string, rating: JsNumber, price: string,
    image: string, highlights: seq<string>)

  /** The record the form is opened with (`initialData`); every column may be missing. */
  datatype Initial = Initial(
    id: Option<string>, title: Option<string>, description: Option<string>, duration: Option<string>,
    groupSize: Option<string>, rating: Option<int>, price: Option<string>, image: Option<string>,
    highlights: Option<seq<string>>)

  const Blank := Initial(None, None, None, None, None, None, None, None, None)

  /** The form's state: one text per input, and the rating as it was loaded until it is edited. */
  datatype Fields = Fields(
    title: string, description: string, duration: string, groupSize: string, rating: InputValue, price: string,
    image: string, highlights: string)

  /** `initialData?.rating || ''`: a missing rating, and the rating 0, start as the empty text. */
  function InitialRating(r: Option<int>): (v: InputValue)
    ensures r.Some? && r.value != 0 ==> v == NumberValue(r.value)
    ensures r.None? || r.value == 0 ==> v == TextValue("")
  {
    if r.Some? && r.value != 0 then NumberValue(r.value) else TextValue("")
  }

  function InitialFields(init: Initial): (f: Fields)
    ensures f.title == TextOrEmpty(init.title) && f.description == TextOrEmpty(init.description)
    ensures f.duration == TextOrEmpty(init.duration) && f.groupSize == TextOrEmpty(init.groupSize)
    ensures f.rating == InitialRating(init.rating) && f.price == TextOrEmpty(init.price)
    ensures f.image == TextOrEmpty(init.image) && f.highlights == JoinedField(init.highlights)
  {
    Fields(TextOrEmpty(init.title), TextOrEmpty(init.description), TextOrEmpty(init.duration),
           TextOrEmpty(init.groupSize), InitialRating(init.rating), TextOrEmpty(init.price),
           TextOrEmpty(init.image), JoinedField(init.highlights))
  }

  datatype Field = Title | Description | Duration | GroupSize | Rating | Price | Image | Highlights

  function Read(f: Fields, x: Field): InputValue {
    match x
    case Title => TextValue(f.title)
    case Description => TextValue(f.description)
    case Duration => TextValue(f.duration)
    case GroupSize => TextValue(f.groupSize)
    case Rating => f.rating
    case Price => TextValue(f.price)
    case Image => TextValue(f.image)
    case Highlights => TextValue(f.highlights)
  }

  /** `handleChange`: the named input takes the text, the others keep theirs. */
  function Change(f: Fields, x: Field, v: string): (r: Fields)
    ensures Read(r, x) == TextValue(v)
    ensures forall y :: y != x ==> Read(r, y) == Read(f, y)
  {
    match x
    case Title => f.(title := v)
    case Description => f.(description := v)
    case Duration => f.(duration := v)
    case GroupSize => f.(groupSize := v)
    case Rating => f.(rating := TextValue(v))
    case Price => f.(price := v)
    case Image => f.(image := v)
    case Highlights => f.(highlights := v)
  }

  /** `dataToSend`: the texts as they are, the highlights split and trimmed, `Number(form.rating)`. */
  function Payload(f: Fields): (p: Package)
    ensures p.title == f.title && p.description == f.description && p.duration == f.duration
    ensures p.groupSize == f.groupSize && p.price == f.price && p.image == f.image
    ensures p.rating == NumberOf(f.rating)
    ensures p.highlights == SavedList(f.highlights)
  {
    Package(f.title, f.description, f.duration, f.groupSize, NumberOf(f.rating), f.price, f.image,
            SavedList(f.highlights))
  }

  /** The `initialData` of a stored package with an integer rating. */
  function Opened(id: string, p: Package, rating: int): Initial {
    Initial(Some(id), Some(p.title), Some(p.description), Some(p.duration), Some(p.groupSize), Some(rating),
            Some(p.price), Some(p.image), Some(p.highlights))
  }

  /** Opening a stored package and saving it unedited writes the same package back, the rating 0 included. */
  lemma {:induction false} UneditedSaveKeepsPackage(id: string, p: Package, rating: int)
    requires p.rating == Num(rating)
    requires |p.highlights| >= 1 && Representable(p.highlights)
    ensures Payload(InitialFields(Opened(id, p, rating))) == p
  {
    UneditedListSurvives(p.highlights);
    if rating == 0 {
      assert Trim("") == "";
    }
  }

  class Form {
    const initialId: Option<string>
    var fields: Fields
    var loading: bool

    constructor (init: Initial)
      ensures initialId == init.id && fields == InitialFields(init) && !loading
    {
      initialId := init.id;
      fields := InitialFields(init);
      loading := false;
    }

    method HandleChange(x: Field, v: string)
      modifies this
      ensures fields == Change(old(fields), x, v) && loading == old(loading)
    {
      fields := Change(fields, x, v);
    }

    /**
     * `handleSubmit`: the package is updated by id or inserted; `onSuccess` runs, as
     * `succeeded` says, exactly when the store reports no error, and `loading` ends false.
     */
    method HandleSubmit(table: Table<Package>, newId: string, now: int, refusal: Option<StoreError>)
      returns (succeeded: bool)
      modifies this, table
      ensures succeeded <==> refusal.None?
      ensures Editing(initialId) ==>
        table.rows == if refusal.Some? then old(table.rows) else UpdateWhereId(old(table.rows), initialId.value, Replace(Payload(fields)))
      ensures !Editing(initialId) ==>
        table.rows == if refusal.Some? then old(table.rows) else old(table.rows) + [Row(newId, now, Payload(fields))]
      ensures fields == old(fields) && !loading
    {
      loading := true;
      var error := Save(table, initialId, Payload(fields), newId, now, refusal);
      succeeded := error.None?;
      loading := false;
    }
  }
}
