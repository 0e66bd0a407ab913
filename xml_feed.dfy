/** The output of `xml2js.parseString(xml, { explicitArray: false })` as far as
    the handlers read it, and the single-versus-many normalisation that each
    handler performs on it. */
module XmlFeed {
  import opened Wrappers
  import opened Js

  /** Where `data.<response>.<container>.<item>` leads:
      - `NullDocument`: an empty reply, which xml2js turns into `null`;
      - `NoContainer`: the response element or the container is missing, or
        the container is empty with no text at all;
      - `MissingItem`: the container is there but holds no item element; this
        includes a container holding only whitespace, such as an indented
        empty one, which xml2js turns into that (truthy) whitespace string;
      - `One`: exactly one item, which `explicitArray: false` leaves unwrapped;
      - `Many`: an array of items, in document order. */
  datatype Feed<R> = NullDocument | NoContainer | MissingItem | One(item: R) | Many(items: seq<R>)

  /** The TypeError the handlers run into: reading the response element of a
      `null` document, or reading a field of the `undefined` item. */
  datatype Fault = ReadOfNull | ReadOfUndefined

  /** How xml2js with `explicitArray: false` lays out a container with the
      given items when the container holds no whitespace text of its own:
      no item leaves an empty, falsy container; one item is not wrapped in an
      array; several are. */
  function Collapse<R>(items: seq<R>): (f: Feed<R>)
    ensures !f.NullDocument? && !f.MissingItem?
    ensures f.NoContainer? <==> items == []
    ensures f.Many? ==> |f.items| >= 2
  {
    if |items| == 0 then NoContainer
    else if |items| == 1 then One(items[0])
    else Many(items)
  }

  /** `Array.isArray(x) ? x : [x]` behind the truthiness test of the container;
      the fault is what the handler's next property read throws. */
  function Normalise<R>(feed: Feed<R>): (r: Result<seq<R>, Fault>)
    ensures r.Failure? <==> feed.NullDocument? || feed.MissingItem?
    ensures r == Failure(ReadOfNull) <==> feed.NullDocument?
  {
    match feed
    case NullDocument => Failure(ReadOfNull)
    case NoContainer => Success([])
    case MissingItem => Failure(ReadOfUndefined)
    case One(item) => Success([item])
    case Many(items) => Success(items)
  }

  /** Whatever number of items the container holds, normalisation recovers
      them all, in document order. */
  lemma NormaliseCollapse<R>(items: seq<R>)
    ensures Normalise(Collapse(items)) == Success(items)
  {
    if |items| == 1 {
      assert [items[0]] == items;
    }
  }

  /** A single unwrapped item counts exactly as a one-element array. */
  lemma NormaliseSingle<R>(item: R)
    ensures Normalise(One(item)) == Normalise(Many([item]))
    ensures Normalise(One(item)) == Success([item])
  {
  }

  /** `item.<key>` of a parsed item: the text of that child element, or
      `undefined` when the item has none. */
  function Field(item: map<string, string>, key: string): (v: Option<string>)
    ensures v.Some? <==> key in item
    ensures v.Some? ==> v.value == item[key]
  {
    if key in item then Some(item[key]) else None
  }

  /** The TypeError message: `data.<root>` on a null document, or
      `sub.<field>` on the undefined item. */
  function FaultMessage(fault: Fault, root: string, field: string): string
  {
    match fault
    case ReadOfNull => CannotRead("null", root)
    case ReadOfUndefined => CannotRead("undefined", field)
  }
}
