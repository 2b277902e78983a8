/** The answers of a model as values, and the form to which they are brought before they are checked. */
module Answers {
  import opened Wrappers

  datatype Value =
    | Text(text: string)
    | Number(number: real)
    | Flag(flag: bool)
    | Nothing
    | Moment(iso: string)
    | FilePath(path: string)
    | Items(items: seq<Value>)
    | Fields(fields: seq<Field>)

  /** A named part of an answer. */
  datatype Field = Field(name: string, value: Value)

  function NormalisedItems(items: seq<Value>): seq<Value>
  {
    if items == [] then [] else [Normalised(items[0])] + NormalisedItems(items[1..])
  }

  function NormalisedFields(fields: seq<Field>): seq<Field>
  {
    if fields == [] then []
    else [Field(fields[0].name, Normalised(fields[0].value))] + NormalisedFields(fields[1..])
  }

  /** Dates and paths written out as text, at every depth. */
  function Normalised(value: Value): Value
  {
    match value
    case Moment(iso) => Text(iso)
    case FilePath(path) => Text(path)
    case Items(items) => Items(NormalisedItems(items))
    case Fields(fields) => Fields(NormalisedFields(fields))
    case _ => value
  }

  lemma {:induction false} NormalisedItemsTwice(items: seq<Value>)
    ensures NormalisedItems(NormalisedItems(items)) == NormalisedItems(items)
  {
    if items != [] {
      NormalisedTwice(items[0]);
      NormalisedItemsTwice(items[1..]);
      assert NormalisedItems(items)[1..] == NormalisedItems(items[1..]);
    }
  }

  lemma {:induction false} NormalisedFieldsTwice(fields: seq<Field>)
    ensures NormalisedFields(NormalisedFields(fields)) == NormalisedFields(fields)
  {
    if fields != [] {
      NormalisedTwice(fields[0].value);
      NormalisedFieldsTwice(fields[1..]);
      assert NormalisedFields(fields)[1..] == NormalisedFields(fields[1..]);
    }
  }

  /** A normalised value is its own normal form. */
  lemma {:induction false} NormalisedTwice(value: Value)
    ensures Normalised(Normalised(value)) == Normalised(value)
  {
    match value
    case Items(items) => NormalisedItemsTwice(items);
    case Fields(fields) => NormalisedFieldsTwice(fields);
    case _ =>
  }

  /** The part of an answer to which a path of positions leads, if there is one. */
  function PartAt(value: Value, path: seq<nat>): Option<Value>
    decreases |path|
  {
    if path == [] then Some(value)
    else
      match value
      case Items(items) => if path[0] < |items| then PartAt(items[path[0]], path[1..]) else None
      case Fields(fields) => if path[0] < |fields| then PartAt(fields[path[0]].value, path[1..]) else None
      case _ => None
  }

  /** A part as it is written out: its own kind of list or record, and text for a date or a path. */
  ghost predicate WrittenOut(part: Value, written: Value)
  {
    match part
    case Moment(iso) => written == Text(iso)
    case FilePath(path) => written == Text(path)
    case Items(items) => written.Items? && |written.items| == |items|
    case Fields(fields) =>
      && written.Fields? && |written.fields| == |fields|
      && forall i :: 0 <= i < |fields| ==> written.fields[i].name == fields[i].name
    case _ => written == part
  }

  lemma {:induction false} NormalisedItemsAt(items: seq<Value>)
    ensures |NormalisedItems(items)| == |items|
    ensures forall i :: 0 <= i < |items| ==> NormalisedItems(items)[i] == Normalised(items[i])
  {
    if items != [] {
      NormalisedItemsAt(items[1..]);
    }
  }

  lemma {:induction false} NormalisedFieldsAt(fields: seq<Field>)
    ensures |NormalisedFields(fields)| == |fields|
    ensures forall i :: 0 <= i < |fields| ==>
              NormalisedFields(fields)[i] == Field(fields[i].name, Normalised(fields[i].value))
  {
    if fields != [] {
      NormalisedFieldsAt(fields[1..]);
    }
  }

  /** The normal form of an answer has the same parts at the same places, each written out. */
  lemma {:induction false} PartsAreWrittenOut(value: Value, path: seq<nat>)
    ensures var part, written := PartAt(value, path), PartAt(Normalised(value), path);
            if part.None? then written.None? else written.Some? && WrittenOut(part.value, written.value)
    decreases |path|
  {
    match value
    case Items(items) =>
      NormalisedItemsAt(items);
      if path != [] && path[0] < |items| {
        PartsAreWrittenOut(items[path[0]], path[1..]);
      }
    case Fields(fields) =>
      NormalisedFieldsAt(fields);
      if path != [] && path[0] < |fields| {
        PartsAreWrittenOut(fields[path[0]].value, path[1..]);
      }
    case _ =>
  }
}
