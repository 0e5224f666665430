/** The back-office form that creates or edits a destination. */
module DestinationForm {
  import opened Wrappers
  import opened JsText
  import opened Store
  import opened CatalogForm

  /** The columns the form writes. */
  datatype Destination = Destination(
    name: string, region: string, activities: seq<string>, image: string, description: string, highlights: seq<string>)

  /** The record the form is opened with (`initialData`); every column may be missing. */
  datatype Initial = Initial(
    id: Option<string>, name: Option<string>, region: Option<string>, activities: Option<seq<string>>,
    image: Option<string>, description: Option<string>, highlights: Option<seq<string>>)

  /** No `initialData`: the form creates a new destination. */
  const Blank := Initial(None, None, None, None, None, None, None)

  /** The form's state: one text per input. */
  datatype Fields = Fields(
    name: string, region: string, activities: string, image: string, description: string, highlights: string)

  function InitialFields(init: Initial): (f: Fields)
    ensures f.name == TextOrEmpty(init.name) && f.region == TextOrEmpty(init.region)
    ensures f.image == TextOrEmpty(init.image) && f.description == TextOrEmpty(init.description)
    ensures f.activities == JoinedField(init.activities) && f.highlights == JoinedField(init.highlights)
  {
    Fields(TextOrEmpty(init.name), TextOrEmpty(init.region), JoinedField(init.activities),
           TextOrEmpty(init.image), TextOrEmpty(init.description), JoinedField(init.highlights))
  }

  /** The `name` attributes of the form's inputs. */
  datatype Field = Name | Region | Activities | Image | Description | Highlights

  function Read(f: Fields, x: Field): string {
    match x
    case Name => f.name
    case Region => f.region
    case Activities => f.activities
    case Image => f.image
    case Description => f.description
    case Highlights => f.highlights
  }

  /** `handleChange`: the named input takes the text, the others keep theirs. */
  function Change(f: Fields, x: Field, v: string): (r: Fields)
    ensures Read(r, x) == v
    ensures forall y :: y != x ==> Read(r, y) == Read(f, y)
  {
    match x
    case Name => f.(name := v)
    case Region => f.(region := v)
    case Activities => f.(activities := v)
    case Image => f.(image := v)
    case Description => f.(description := v)
    case Highlights => f.(highlights := v)
  }

  /** `dataToSend`: the texts as they are and the two list fields split on commas and trimmed. */
  function Payload(f: Fields): (d: Destination)
    ensures d.name == f.name && d.region == f.region && d.image == f.image && d.description == f.description
    ensures d.activities == SavedList(f.activities) && d.highlights == SavedList(f.highlights)
  {
    Destination(f.name, f.region, SavedList(f.activities), f.image, f.description, SavedList(f.highlights))
  }

  /** The `initialData` of a stored destination. */
  function Opened(id: string, d: Destination): Initial {
    Initial(Some(id), Some(d.name), Some(d.region), Some(d.activities), Some(d.image), Some(d.description), Some(d.highlights))
  }

  /** Opening a stored destination and saving it unedited writes the same destination back. */
  lemma {:induction false} UneditedSaveKeepsDestination(id: string, d: Destination)
    requires |d.activities| >= 1 && Representable(d.activities)
    requires |d.highlights| >= 1 && Representable(d.highlights)
    ensures Payload(InitialFields(Opened(id, d))) == d
  {
    UneditedListSurvives(d.activities);
    UneditedListSurvives(d.highlights);
  }

  class Form {
    const initialId: Option<string>
    var fields: Fields
    var loading: bool

    constructor (init: Initial)
      ensures initialId == init.id && fields == InitialFields(init) && !loading
    {
      initialId := init.id;
      fields := InitialFields(init);
      loading := false;
    }

    method HandleChange(x: Field, v: string)
      modifies this
      ensures fields == Change(old(fields), x, v) && loading == old(loading)
    {
      fields := Change(fields, x, v);
    }

    /**
     * `handleSubmit`: the destination is updated by id or inserted; `onSuccess` runs, as
     * `succeeded` says, exactly when the store reports no error, and `loading` ends false.
     */
    method HandleSubmit(table: Table<Destination>, newId: string, now: int, refusal: Option<StoreError>)
      returns (succeeded: bool)
      modifies this, table
      ensures succeeded <==> refusal.None?
      ensures Editing(initialId) ==>
        table.rows == if refusal.Some? then old(table.rows) else UpdateWhereId(old(table.rows), initialId.value, Replace(Payload(fields)))
      ensures !Editing(initialId) ==>
        table.rows == if refusal.Some? then old(table.rows) else old(table.rows) + [Row(newId, now, Payload(fields))]
      ensures fields == old(fields) && !loading
    {
      loading := true;
      var error := Save(table, initialId, Payload(fields), newId, now, refusal);
      succeeded := error.None?;
      loading := false;
    }
  }
}
