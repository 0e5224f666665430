/**
 * What the back office's destination, package and experience forms share: list columns edited
 * as one comma-separated text field, initial values read from the record being edited with `||`,
 * and a save that updates the record by id when it has one and inserts a new record otherwise.
 */
module CatalogForm {
  import opened Wrappers
  import opened JsText
  import opened Seqs
  import opened Store

  /** `initialData?.x || ''` for a text column: a missing or empty value becomes the empty text. */
  function TextOrEmpty(v: Option<string>): (r: string)
    ensures v.Some? ==> r == v.value
    ensures v.None? ==> r == ""
  {
    if v.Some? then v.value else ""
  }

  /** `initialData?.xs?.join(', ') || ''`: the list as one text field. */
  function JoinedField(list: Option<seq<string>>): (r: string)
    ensures list.None? ==> r == ""
    ensures list.Some? && |list.value| == 1 ==> r == list.value[0]
  {
    if list.None? then "" else Join(list.value, ", ")
  }

  function Trimmed(): string -> string {
    (s: string) => Trim(s)
  }

  /** `field.split(',').map((x) => x.trim())`: the list saved from a text field. */
  function SavedList(field: string): (r: seq<string>)
    ensures |r| >= 1
    ensures forall k :: 0 <= k < |r| ==> IsTrimmed(r[k]) && ',' !in r[k]
  {
    var parts := Split(field, ',');
    var r := Map(parts, Trimmed());
    forall k | 0 <= k < |r| ensures IsTrimmed(r[k]) && ',' !in r[k] {
      TrimResult(parts[k]);
      TrimmedIsPart(parts[k], ',');
    }
    r
  }

  /** `trim` only removes characters. */
  lemma {:induction false} TrimmedIsPart(s: string, c: char)
    requires c !in s
    ensures c !in Trim(s)
  {
    var t := TrimStart(s);
    assert t == s[|s| - |t|..];
    assert c !in t by {
      forall j | 0 <= j < |t| ensures t[j] != c {
        assert t[j] == s[|s| - |t| + j];
      }
    }
    var r := TrimEnd(t);
    forall j | 0 <= j < |r| ensures r[j] != c {
      assert r[j] == t[j];
    }
  }

  /** An empty list field is saved as a list holding one empty item, not as an empty list. */
  lemma EmptyFieldSavesOneEmptyItem()
    ensures SavedList("") == [""]
  {
    assert Split("", ',') == [""];
  }

  /** An empty list therefore does not survive an unedited save. */
  lemma EmptyListBecomesOneEmptyItem()
    ensures SavedList(JoinedField(Some([]))) == [""]
  {
    EmptyFieldSavesOneEmptyItem();
  }

  /** Items that can be told apart once joined: no comma inside and no white space at either end. */
  predicate Representable(xs: seq<string>) {
    forall k :: 0 <= k < |xs| ==> ',' !in xs[k] && IsTrimmed(xs[k])
  }

  function Spaced(): string -> string {
    (s: string) => " " + s
  }

  /** Joining with ", " is joining with "," after putting a space in front of every item but the first. */
  lemma {:induction false} SpaceAfterComma(xs: seq<string>)
    requires |xs| >= 1
    ensures " " + Join(xs, ", ") == Join(Map(xs, Spaced()), ",")
  {
    var m := Map(xs, Spaced());
    if |xs| > 1 {
      SpaceAfterComma(xs[1..]);
      assert Map(xs[1..], Spaced()) == m[1..];
      assert " " + Join(xs, ", ") == (" " + xs[0]) + "," + (" " + Join(xs[1..], ", "));
    }
  }

  /** The pieces `split(',')` cuts a ", "-joined text into: the items, all but the first after a space. */
  function Pieces(xs: seq<string>): (r: seq<string>)
    requires |xs| >= 1
    ensures |r| == |xs| && r[0] == xs[0]
    ensures forall k :: 1 <= k < |xs| ==> r[k] == " " + xs[k]
  {
    [xs[0]] + Map(xs[1..], Spaced())
  }

  lemma {:induction false} JoinAsPieces(xs: seq<string>)
    requires |xs| >= 1
    ensures Join(xs, ", ") == Join(Pieces(xs), ",")
  {
    if |xs| > 1 {
      SpaceAfterComma(xs[1..]);
      assert Pieces(xs)[1..] == Map(xs[1..], Spaced());
    }
  }

  lemma {:induction false} TrimmedPieces(xs: seq<string>)
    requires |xs| >= 1 && Representable(xs)
    ensures Map(Pieces(xs), Trimmed()) == xs
  {
    var p := Pieces(xs);
    var r := Map(p, Trimmed());
    forall k | 0 <= k < |xs| ensures r[k] == xs[k] {
      TrimOfTrimmed(xs[k]);
      if k > 0 {
        TrimSkipsLeadingSpace(" ", xs[k]);
      }
    }
  }

  /**
   * Saving an unedited form gives back every list it was opened with, provided the list has an
   * item and no item has a comma or white space at its ends.
   */
  lemma {:induction false} UneditedListSurvives(xs: seq<string>)
    requires |xs| >= 1 && Representable(xs)
    ensures SavedList(JoinedField(Some(xs))) == xs
  {
    var p := Pieces(xs);
    JoinAsPieces(xs);
    forall k | 0 <= k < |p| ensures ',' !in p[k] {
      if k > 0 {
        assert p[k] == [' '] + xs[k];
      }
    }
    SplitOfJoin(p, ',');
    TrimmedPieces(xs);
  }

  /** `initialData?.id`: the form edits an existing record exactly when it was given a non-empty id. */
  predicate Editing(id: Option<string>) {
    id.Some? && id.value != ""
  }

  function Replace<R>(data: R): R -> R {
    (old_: R) => data
  }

  /**
   * The store call of `handleSubmit`: `update(dataToSend).eq('id', id)` when editing, otherwise
   * `insert([dataToSend])`; the error the store answers with is returned.
   */
  method Save<R>(table: Table<R>, id: Option<string>, data: R, newId: string, now: int, refusal: Option<StoreError>)
    returns (error: Option<StoreError>)
    modifies table
    ensures error == refusal
    ensures Editing(id) ==>
      table.rows == if refusal.Some? then old(table.rows) else UpdateWhereId(old(table.rows), id.value, Replace(data))
    ensures !Editing(id) ==>
      table.rows == if refusal.Some? then old(table.rows) else old(table.rows) + [Row(newId, now, data)]
  {
    if id.Some? && id.value != "" {
      error := table.Update(id.value, Replace(data), refusal);
    } else {
      var r := table.Insert(data, newId, now, refusal);
      error := if r.Err? then Some(r.error) else None;
    }
  }
}
