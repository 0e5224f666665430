/** The back-office form that creates or edits an experience. */
module ExperienceForm {
  import opened Wrappers
  import opened JsText
  import opened Store
  import opened CatalogForm

  /** The columns the form writes. */
  datatype Experience = Experience(
    title: string, description: string, image: string, category: string, duration: string, price: string,
    highlights: seq<string>)

  /** The record the form is opened with (`initialData`); every column may be missing. */
  datatype Initial = Initial(
    id: Option<string>, title: Option<string>, description: Option<string>, image: Option<string>,
    category: Option<string>, duration: Option<string>, price: Option<string>, highlights: Option<seq<string>>)

  const Blank := Initial(None, None, None, None, None, None, None, None)

  /** The form's state: one text per input. */
  datatype Fields = Fields(
    title: string, description: string, image: string, category: string, duration: string, price: string,
    highlights: string)

  function InitialFields(init: Initial): (f: Fields)
    ensures f.title == TextOrEmpty(init.title) && f.description == TextOrEmpty(init.description)
    ensures f.image == TextOrEmpty(init.image) && f.category == TextOrEmpty(init.category)
    ensures f.duration == TextOrEmpty(init.duration) && f.price == TextOrEmpty(init.price)
    ensures f.highlights == JoinedField(init.highlights)
  {
    Fields(TextOrEmpty(init.title), TextOrEmpty(init.description), TextOrEmpty(init.image),
           TextOrEmpty(init.category), TextOrEmpty(init.duration), TextOrEmpty(init.price),
           JoinedField(init.highlights))
  }

  datatype Field = Title | Description | Image | Category | Duration | Price | Highlights

  function Read(f: Fields, x: Field): string {
    match x
    case Title => f.title
    case Description => f.description
    case Image => f.image
    case Category => f.category
    case Duration => f.duration
    case Price => f.price
    case Highlights => f.highlights
  }

  /** `handleChange`: the named input takes the text, the others keep theirs. */
  function Change(f: Fields, x: Field, v: string): (r: Fields)
    ensures Read(r, x) == v
    ensures forall y :: y != x ==> Read(r, y) == Read(f, y)
  {
    match x
    case Title => f.(title := v)
    case Description => f.(description := v)
    case Image => f.(image := v)
    case Category => f.(category := v)
    case Duration => f.(duration := v)
    case Price => f.(price := v)
    case Highlights => f.(highlights := v)
  }

  /** `dataToSend`: the texts as they are and the highlights split on commas and trimmed. */
  function Payload(f: Fields): (e: Experience)
    ensures e.title == f.title && e.description == f.description && e.image == f.image
    ensures e.category == f.category && e.duration == f.duration && e.price == f.price
    ensures e.highlights == SavedList(f.highlights)
  {
    Experience(f.title, f.description, f.image, f.category, f.duration, f.price, SavedList(f.highlights))
  }

  function Opened(id: string, e: Experience): Initial {
    Initial(Some(id), Some(e.title), Some(e.description), Some(e.image), Some(e.category), Some(e.duration),
            Some(e.price), Some(e.highlights))
  }

  /** Opening a stored experience and saving it unedited writes the same experience back. */
  lemma {:induction false} UneditedSaveKeepsExperience(id: string, e: Experience)
    requires |e.highlights| >= 1 && Representable(e.highlights)
    ensures Payload(InitialFields(Opened(id, e))) == e
  {
    UneditedListSurvives(e.highlights);
  }

  class Form {
    const initialId: Option<string>
    var fields: Fields
    var loading: bool

    constructor (init: Initial)
      ensures initialId == init.id && fields == InitialFields(init) && !loading
    {
      initialId := init.id;
      fields := InitialFields(init);
      loading := false;
    }

    method HandleChange(x: Field, v: string)
      modifies this
      ensures fields == Change(old(fields), x, v) && loading == old(loading)
    {
      fields := Change(fields, x, v);
    }

    /**
     * `handleSubmit`: the experience is updated by id or inserted; `onSuccess` runs, as
     * `succeeded` says, exactly when the store reports no error, and `loading` ends false.
     */
    method HandleSubmit(table: Table<Experience>, newId: string, now: int, refusal: Option<StoreError>)
      returns (succeeded: bool)
      modifies this, table
      ensures succeeded <==> refusal.None?
      ensures Editing(initialId) ==>
        table.rows == if refusal.Some? then old(table.rows) else UpdateWhereId(old(table.rows), initialId.value, Replace(Payload(fields)))
      ensures !Editing(initialId) ==>
        table.rows == if refusal.Some? then old(table.rows) else old(table.rows) + [Row(newId, now, Payload(fields))]
      ensures fields == old(fields) && !loading
    {
      loading := true;
      var error := Save(table, initialId, Payload(fields), newId, now, refusal);
      succeeded := error.None?;
      loading := false;
    }
  }
}
