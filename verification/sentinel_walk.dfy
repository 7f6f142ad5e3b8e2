/** The document walk shared by the meta-popup and delivery-chain extractions: every member
    of an object whose key starts with a sentinel prefix is converted (and not searched
    further), every other object or array value is searched, array elements are searched in
    order, and the first conversion that throws ends the walk. */
module SentinelWalk {
  import opened Wrappers
  import opened Text
  import opened Json

  /** The walk over one value. */
  function Walk<T, E>(j: Json, prefix: string, convert: Field -> Result<seq<T>, E>): Result<seq<T>, E>
    decreases j
  {
    match j
    case JObj(fields) => WalkFields(fields, prefix, convert)
    case JArr(items) => WalkItems(items, prefix, convert)
    case _ => Success([])
  }

  function WalkItems<T, E>(items: seq<Json>, prefix: string, convert: Field -> Result<seq<T>, E>): Result<seq<T>, E>
    decreases items
  {
    if |items| == 0 then Success([])
    else
      var first :- Walk(items[0], prefix, convert);
      var rest :- WalkItems(items[1..], prefix, convert);
      Success(first + rest)
  }

  function WalkFields<T, E>(fields: seq<Field>, prefix: string, convert: Field -> Result<seq<T>, E>): Result<seq<T>, E>
    decreases fields
  {
    if |fields| == 0 then Success([])
    else
      var first :-
        if StartsWith(fields[0].key, prefix) then convert(fields[0])
        else if IsObjectLike(fields[0].value) then Walk(fields[0].value, prefix, convert)
        else Success([]);
      var rest :- WalkFields(fields[1..], prefix, convert);
      Success(first + rest)
  }

  // ---------------------------------------------------------------------------------------
  // Reference: the sentinel members in walk order, then their conversions

  /** The sentinel members of a document in the order the walk meets them. */
  function Sentinels(j: Json, prefix: string): seq<Field>
    decreases j
  {
    match j
    case JObj(fields) => FieldSentinels(fields, prefix)
    case JArr(items) => ItemSentinels(items, prefix)
    case _ => []
  }

  function ItemSentinels(items: seq<Json>, prefix: string): seq<Field>
    decreases items
  {
    if |items| == 0 then [] else Sentinels(items[0], prefix) + ItemSentinels(items[1..], prefix)
  }

  function FieldSentinels(fields: seq<Field>, prefix: string): seq<Field>
    decreases fields
  {
    if |fields| == 0 then []
    else
      (if StartsWith(fields[0].key, prefix) then [fields[0]] else Sentinels(fields[0].value, prefix))
        + FieldSentinels(fields[1..], prefix)
  }

  /** Every listed member has a sentinel key. */
  predicate AllSentinels(fs: seq<Field>, prefix: string) {
    forall i :: 0 <= i < |fs| ==> StartsWith(fs[i].key, prefix)
  }

  lemma {:induction false} SentinelsAreSentinels(j: Json, prefix: string)
    ensures AllSentinels(Sentinels(j, prefix), prefix)
    decreases j
  {
    match j
    case JObj(fields) => FieldSentinelsAreSentinels(fields, prefix);
    case JArr(items) => ItemSentinelsAreSentinels(items, prefix);
    case _ =>
  }

  lemma {:induction false} ItemSentinelsAreSentinels(items: seq<Json>, prefix: string)
    ensures AllSentinels(ItemSentinels(items, prefix), prefix)
    decreases items
  {
    if |items| > 0 {
      SentinelsAreSentinels(items[0], prefix);
      ItemSentinelsAreSentinels(items[1..], prefix);
    }
  }

  lemma {:induction false} FieldSentinelsAreSentinels(fields: seq<Field>, prefix: string)
    ensures AllSentinels(FieldSentinels(fields, prefix), prefix)
    decreases fields
  {
    if |fields| > 0 {
      if !StartsWith(fields[0].key, prefix) {
        SentinelsAreSentinels(fields[0].value, prefix);
      }
      FieldSentinelsAreSentinels(fields[1..], prefix);
    }
  }

  /** The conversions of a list of members, in order; the first failure ends the list. */
  function Convert<T, E>(fs: seq<Field>, convert: Field -> Result<seq<T>, E>): Result<seq<T>, E> {
    if |fs| == 0 then Success([])
    else
      var first :- convert(fs[0]);
      var rest :- Convert(fs[1..], convert);
      Success(first + rest)
  }

  /** Running one computation after another, stopping at the first failure. */
  function Then<T, E>(a: Result<seq<T>, E>, b: Result<seq<T>, E>): Result<seq<T>, E> {
    var x :- a;
    var y :- b;
    Success(x + y)
  }

  lemma ThenAssociative<T, E>(a: Result<seq<T>, E>, b: Result<seq<T>, E>, c: Result<seq<T>, E>)
    ensures Then(Then(a, b), c) == Then(a, Then(b, c))
  {
    if a.Success? && b.Success? && c.Success? {
      assert (a.value + b.value) + c.value == a.value + (b.value + c.value);
    }
  }

  lemma {:induction false} ConvertAppend<T, E>(a: seq<Field>, b: seq<Field>, convert: Field -> Result<seq<T>, E>)
    ensures Convert(a + b, convert) == Then(Convert(a, convert), Convert(b, convert))
    decreases |a|
  {
    if |a| == 0 {
      assert a + b == b;
      if Convert(b, convert).Success? {
        assert [] + Convert(b, convert).value == Convert(b, convert).value;
      }
    } else {
      assert (a + b)[0] == a[0];
      assert (a + b)[1..] == a[1..] + b;
      ConvertAppend(a[1..], b, convert);
      var head := convert(a[0]);
      if head.Success? {
        ThenAssociative(Success(head.value), Convert(a[1..], convert), Convert(b, convert));
      }
    }
  }

  lemma ConvertSingle<T, E>(f: Field, convert: Field -> Result<seq<T>, E>)
    ensures Convert([f], convert) == convert(f)
  {
    assert [f][1..] == [];
    if convert(f).Success? {
      assert convert(f).value + [] == convert(f).value;
    }
  }

  /** The walk is the conversion of the document's sentinel members: it finds exactly those
      members, in order, and converts nothing else. */
  lemma {:induction false} WalkIsConvert<T, E>(j: Json, prefix: string, convert: Field -> Result<seq<T>, E>)
    ensures Walk(j, prefix, convert) == Convert(Sentinels(j, prefix), convert)
    decreases j
  {
    match j
    case JObj(fields) => WalkFieldsIsConvert(fields, prefix, convert);
    case JArr(items) => WalkItemsIsConvert(items, prefix, convert);
    case _ =>
  }

  lemma {:induction false} WalkItemsIsConvert<T, E>(items: seq<Json>, prefix: string, convert: Field -> Result<seq<T>, E>)
    ensures WalkItems(items, prefix, convert) == Convert(ItemSentinels(items, prefix), convert)
    decreases items
  {
    if |items| > 0 {
      WalkIsConvert(items[0], prefix, convert);
      WalkItemsIsConvert(items[1..], prefix, convert);
      ConvertAppend(Sentinels(items[0], prefix), ItemSentinels(items[1..], prefix), convert);
      assert WalkItems(items, prefix, convert)
        == Then(Walk(items[0], prefix, convert), WalkItems(items[1..], prefix, convert));
    }
  }

  lemma {:induction false} WalkFieldsIsConvert<T, E>(fields: seq<Field>, prefix: string, convert: Field -> Result<seq<T>, E>)
    ensures WalkFields(fields, prefix, convert) == Convert(FieldSentinels(fields, prefix), convert)
    decreases fields
  {
    if |fields| > 0 {
      var f := fields[0];
      WalkFieldsIsConvert(fields[1..], prefix, convert);
      var own := if StartsWith(f.key, prefix) then [f] else Sentinels(f.value, prefix);
      var first :=
        if StartsWith(f.key, prefix) then convert(f)
        else if IsObjectLike(f.value) then Walk(f.value, prefix, convert)
        else Success([]);
      assert WalkFields(fields, prefix, convert) == Then(first, WalkFields(fields[1..], prefix, convert));
      if StartsWith(f.key, prefix) {
        ConvertSingle(f, convert);
      } else {
        WalkIsConvert(f.value, prefix, convert);
      }
      ConvertAppend(own, FieldSentinels(fields[1..], prefix), convert);
    }
  }

  /** The conversion of a list fails exactly when some member's conversion fails. */
  lemma {:induction false} ConvertFailsIff<T, E>(fs: seq<Field>, convert: Field -> Result<seq<T>, E>)
    ensures Convert(fs, convert).Failure? <==> exists i :: 0 <= i < |fs| && convert(fs[i]).Failure?
    decreases |fs|
  {
    if |fs| > 0 {
      ConvertFailsIff(fs[1..], convert);
      if exists i :: 1 <= i < |fs| && convert(fs[i]).Failure? {
        var i :| 1 <= i < |fs| && convert(fs[i]).Failure?;
        assert fs[1..][i - 1] == fs[i];
      }
      if exists i :: 0 <= i < |fs[1..]| && convert(fs[1..][i]).Failure? {
        var i :| 0 <= i < |fs[1..]| && convert(fs[1..][i]).Failure?;
        assert fs[1..][i] == fs[i + 1];
      }
    }
  }

  /** Everything a successful conversion yields comes from the conversion of one member. */
  lemma {:induction false} ConvertedFrom<T, E>(fs: seq<Field>, convert: Field -> Result<seq<T>, E>, x: T)
    requires Convert(fs, convert).Success? && x in Convert(fs, convert).value
    ensures exists i :: 0 <= i < |fs| && convert(fs[i]).Success? && x in convert(fs[i]).value
    decreases |fs|
  {
    if x !in convert(fs[0]).value {
      ConvertedFrom(fs[1..], convert, x);
      var i :| 0 <= i < |fs[1..]| && convert(fs[1..][i]).Success? && x in convert(fs[1..][i]).value;
      assert fs[i + 1] == fs[1..][i];
    }
  }

  /** A conversion that never fails makes the walk succeed. */
  lemma WalkSucceeds<T, E>(j: Json, prefix: string, convert: Field -> Result<seq<T>, E>)
    requires forall f :: convert(f).Success?
    ensures Walk(j, prefix, convert).Success?
  {
    WalkIsConvert(j, prefix, convert);
    ConvertFailsIff(Sentinels(j, prefix), convert);
  }
}
