/** `extractLinkedIds` of the frontend data service: the ids of the medication, manufacturer
    and units a document refers to, read from its string values. */
module LinkedIds {
  import opened Wrappers
  import opened Text
  import opened Seqs
  import opened Json

  /** The linked ids found: absent fields are `undefined` in the source. */
  datatype Links = Links(medikament: Option<string>, hersteller: Option<string>, unit: Option<seq<string>>)

  const NoLinks := Links(None, None, None)

  /** What one string value contributes: the first `MED-` string becomes the medication, the
      first `HERSTELLER-` string the manufacturer, and every `UNIT-` string not yet listed is
      appended to the units. The prefix tests are case-sensitive. */
  function Note(ids: Links, s: string): Links {
    if StartsWith(s, "MED-") && ids.medikament.None? then ids.(medikament := Some(s))
    else if StartsWith(s, "HERSTELLER-") && ids.hersteller.None? then ids.(hersteller := Some(s))
    else if StartsWith(s, "UNIT-") then
      var units := ids.unit.GetOr([]);
      ids.(unit := Some(if s in units then units else units + [s]))
    else ids
  }

  /** The walk of the source: strings are noted, arrays and objects are searched element by
      element (object values only, never keys), everything else is skipped. */
  function Search(j: Json, ids: Links): Links
    decreases j
  {
    match j
    case JStr(s) => Note(ids, s)
    case JArr(items) => SearchItems(items, ids)
    case JObj(fields) => SearchFields(fields, ids)
    case _ => ids
  }

  function SearchItems(items: seq<Json>, ids: Links): Links
    decreases items
  {
    if |items| == 0 then ids else SearchItems(items[1..], Search(items[0], ids))
  }

  function SearchFields(fields: seq<Field>, ids: Links): Links
    decreases fields
  {
    if |fields| == 0 then ids else SearchFields(fields[1..], Search(fields[0].value, ids))
  }

  /** `extractLinkedIds(data)`. */
  function ExtractLinkedIds(data: Json): Links {
    Search(data, NoLinks)
  }

  // ---------------------------------------------------------------------------------------
  // Reference: the string values of a document in depth-first order

  function Strings(j: Json): seq<string>
    decreases j
  {
    match j
    case JStr(s) => [s]
    case JArr(items) => ItemStrings(items)
    case JObj(fields) => FieldStrings(fields)
    case _ => []
  }

  function ItemStrings(items: seq<Json>): seq<string>
    decreases items
  {
    if |items| == 0 then [] else Strings(items[0]) + ItemStrings(items[1..])
  }

  function FieldStrings(fields: seq<Field>): seq<string>
    decreases fields
  {
    if |fields| == 0 then [] else Strings(fields[0].value) + FieldStrings(fields[1..])
  }

  /** Noting a sequence of strings in order. */
  function NoteAll(ids: Links, ss: seq<string>): Links
    decreases |ss|
  {
    if |ss| == 0 then ids else NoteAll(Note(ids, ss[0]), ss[1..])
  }

  lemma {:induction false} NoteAllAppend(ids: Links, a: seq<string>, b: seq<string>)
    ensures NoteAll(ids, a + b) == NoteAll(NoteAll(ids, a), b)
    decreases |a|
  {
    if |a| == 0 {
      assert a + b == b;
    } else {
      assert (a + b)[1..] == a[1..] + b;
      NoteAllAppend(Note(ids, a[0]), a[1..], b);
    }
  }

  /** Noting a last string after the others. */
  lemma NoteAllSnoc(ids: Links, ss: seq<string>, s: string)
    ensures NoteAll(ids, ss + [s]) == Note(NoteAll(ids, ss), s)
  {
    NoteAllAppend(ids, ss, [s]);
  }

  /** The walk notes exactly the document's string values, in depth-first order. */
  lemma {:induction false} SearchIsNoteAll(j: Json, ids: Links)
    ensures Search(j, ids) == NoteAll(ids, Strings(j))
    decreases j
  {
    match j
    case JStr(s) =>
    case JArr(items) => SearchItemsIsNoteAll(items, ids);
    case JObj(fields) => SearchFieldsIsNoteAll(fields, ids);
    case _ =>
  }

  lemma {:induction false} SearchItemsIsNoteAll(items: seq<Json>, ids: Links)
    ensures SearchItems(items, ids) == NoteAll(ids, ItemStrings(items))
    decreases items
  {
    if |items| > 0 {
      SearchIsNoteAll(items[0], ids);
      SearchItemsIsNoteAll(items[1..], Search(items[0], ids));
      NoteAllAppend(ids, Strings(items[0]), ItemStrings(items[1..]));
    }
  }

  lemma {:induction false} SearchFieldsIsNoteAll(fields: seq<Field>, ids: Links)
    ensures SearchFields(fields, ids) == NoteAll(ids, FieldStrings(fields))
    decreases fields
  {
    if |fields| > 0 {
      SearchIsNoteAll(fields[0].value, ids);
      SearchFieldsIsNoteAll(fields[1..], Search(fields[0].value, ids));
      NoteAllAppend(ids, Strings(fields[0].value), FieldStrings(fields[1..]));
    }
  }

  /** Object keys play no part: two objects with the same values in the same order link the
      same ids whatever their keys. */
  lemma KeysIgnored(a: seq<Field>, b: seq<Field>)
    requires |a| == |b|
    requires forall i :: 0 <= i < |a| ==> a[i].value == b[i].value
    ensures ExtractLinkedIds(JObj(a)) == ExtractLinkedIds(JObj(b))
  {
    assert FieldStrings(a) == FieldStrings(b) by {
      SameValuesSameStrings(a, b);
    }
    SearchIsNoteAll(JObj(a), NoLinks);
    SearchIsNoteAll(JObj(b), NoLinks);
  }

  lemma {:induction false} SameValuesSameStrings(a: seq<Field>, b: seq<Field>)
    requires |a| == |b|
    requires forall i :: 0 <= i < |a| ==> a[i].value == b[i].value
    ensures FieldStrings(a) == FieldStrings(b)
    decreases |a|
  {
    if |a| > 0 {
      SameValuesSameStrings(a[1..], b[1..]);
    }
  }

  // ---------------------------------------------------------------------------------------
  // What the result means

  /** The first string of `ss` starting with `prefix`. */
  function FirstWithPrefix(ss: seq<string>, prefix: string): (r: Option<string>)
    ensures r.Some? ==> StartsWith(r.value, prefix) && r.value in ss
    ensures r.None? <==> forall i :: 0 <= i < |ss| ==> !StartsWith(ss[i], prefix)
    ensures r.Some? ==> exists i ::
      0 <= i < |ss| && ss[i] == r.value && forall j :: 0 <= j < i ==> !StartsWith(ss[j], prefix)
  {
    if |ss| == 0 then None
    else if StartsWith(ss[0], prefix) then Some(ss[0])
    else
      var r := FirstWithPrefix(ss[1..], prefix);
      assert forall i :: 1 <= i < |ss| ==> ss[i] == ss[1..][i - 1];
      if r.Some? then
        assert exists i ::
          0 <= i < |ss| && ss[i] == r.value && forall j :: 0 <= j < i ==> !StartsWith(ss[j], prefix) by {
          var i :| 0 <= i < |ss[1..]| && ss[1..][i] == r.value &&
            forall j :: 0 <= j < i ==> !StartsWith(ss[1..][j], prefix);
          assert ss[i + 1] == r.value;
        }
        r
      else r
  }

  /** No string starts with both a `MED-` and a `HERSTELLER-` prefix. */
  lemma PrefixesExclusive(s: string)
    ensures !(StartsWith(s, "MED-") && StartsWith(s, "HERSTELLER-"))
  {
    if StartsWith(s, "MED-") {
      assert s[0] == 'M';
    }
  }

  /** Noting keeps a medication or manufacturer already found; otherwise it becomes the first
      matching string. */
  lemma {:induction false} NoteAllFirsts(ids: Links, ss: seq<string>)
    ensures NoteAll(ids, ss).medikament
      == if ids.medikament.Some? then ids.medikament else FirstWithPrefix(ss, "MED-")
    ensures NoteAll(ids, ss).hersteller
      == if ids.hersteller.Some? then ids.hersteller else FirstWithPrefix(ss, "HERSTELLER-")
    decreases |ss|
  {
    if |ss| > 0 {
      PrefixesExclusive(ss[0]);
      NoteAllFirsts(Note(ids, ss[0]), ss[1..]);
    }
  }

  /** The strings of `ss` starting with `UNIT-`. */
  predicate IsUnitId(s: string) {
    StartsWith(s, "UNIT-")
  }

  /** The units noted from nothing. */
  function UnitsOf(ss: seq<string>): seq<string> {
    NoteAll(NoLinks, ss).unit.GetOr([])
  }

  /** One more string adds itself to the units exactly when it is a new unit id. */
  lemma UnitsSnoc(ss: seq<string>, s: string)
    ensures NoteAll(NoLinks, ss + [s]).unit.Some? <==> NoteAll(NoLinks, ss).unit.Some? || IsUnitId(s)
    ensures UnitsOf(ss + [s]) == if IsUnitId(s) && s !in UnitsOf(ss) then UnitsOf(ss) + [s] else UnitsOf(ss)
  {
    NoteAllSnoc(NoLinks, ss, s);
    if IsUnitId(s) {
      assert s[0] == 'U';
    }
  }

  /** The unit field is absent exactly when no string is a unit id. */
  lemma {:induction false} UnitsAbsent(ss: seq<string>)
    ensures NoteAll(NoLinks, ss).unit.None? <==> forall i :: 0 <= i < |ss| ==> !IsUnitId(ss[i])
    decreases |ss|
  {
    if |ss| > 0 {
      var init := ss[..|ss| - 1];
      assert ss == init + [ss[|ss| - 1]];
      UnitsSnoc(init, ss[|ss| - 1]);
      UnitsAbsent(init);
    }
  }

  /** The units are exactly the unit ids among the strings, each listed once. */
  lemma {:induction false} UnitsMembers(ss: seq<string>)
    ensures NoDuplicates(UnitsOf(ss))
    ensures forall s :: s in UnitsOf(ss) <==> s in ss && IsUnitId(s)
    decreases |ss|
  {
    if |ss| > 0 {
      var init := ss[..|ss| - 1];
      assert ss == init + [ss[|ss| - 1]];
      UnitsSnoc(init, ss[|ss| - 1]);
      UnitsMembers(init);
    }
  }

  /** Units in first-mention order. */
  predicate InMentionOrder(ss: seq<string>, units: seq<string>)
    requires forall s :: s in units ==> s in ss
  {
    forall a, b :: 0 <= a < b < |units| ==> FirstIndex(ss, units[a]) < FirstIndex(ss, units[b])
  }

  /** The units are listed in the order the strings first mention them. */
  lemma {:induction false} UnitsOrder(ss: seq<string>)
    ensures forall s :: s in UnitsOf(ss) ==> s in ss
    ensures var units := UnitsOf(ss);
      forall a, b :: 0 <= a < b < |units| ==> FirstIndex(ss, units[a]) < FirstIndex(ss, units[b])
    decreases |ss|
  {
    UnitsMembers(ss);
    if |ss| > 0 {
      var init := ss[..|ss| - 1];
      var s := ss[|ss| - 1];
      assert ss == init + [s];
      UnitsOrder(init);
      UnitsOrderStep(init, s);
    }
  }

  /** Appending one string keeps the units in first-mention order. */
  lemma UnitsOrderStep(init: seq<string>, s: string)
    requires forall x :: x in UnitsOf(init) ==> x in init
    requires InMentionOrder(init, UnitsOf(init))
    ensures forall x :: x in UnitsOf(init + [s]) ==> x in init + [s]
    ensures InMentionOrder(init + [s], UnitsOf(init + [s]))
  {
    var ss := init + [s];
    UnitsSnoc(init, s);
    UnitsMembers(ss);
    UnitsMembers(init);
    var units0 := UnitsOf(init);
    var units := UnitsOf(ss);
    forall x | x in init
      ensures FirstIndex(ss, x) == FirstIndex(init, x) < |init|
    {
      FirstIndexAppend(init, [s], x);
    }
    if IsUnitId(s) && s !in units0 {
      assert s !in init;
      assert FirstIndex(ss, s) == |init|;
      forall a, b | 0 <= a < b < |units|
        ensures FirstIndex(ss, units[a]) < FirstIndex(ss, units[b])
      {
        assert units[a] == units0[a] && units[a] in init;
        if b < |units0| {
          assert units[b] == units0[b] && units[b] in init;
        }
      }
    } else {
      forall a, b | 0 <= a < b < |units|
        ensures FirstIndex(ss, units[a]) < FirstIndex(ss, units[b])
      {
        assert units[a] in init && units[b] in init;
      }
    }
  }

  /** `extractLinkedIds`: the medication and manufacturer are the first `MED-` and
      `HERSTELLER-` string values in depth-first order, and the units are the distinct `UNIT-`
      string values in order of first occurrence, absent when there is none. */
  lemma ExtractLinkedIdsMeaning(data: Json)
    ensures ExtractLinkedIds(data).medikament == FirstWithPrefix(Strings(data), "MED-")
    ensures ExtractLinkedIds(data).hersteller == FirstWithPrefix(Strings(data), "HERSTELLER-")
    ensures ExtractLinkedIds(data).unit.None? <==> forall i :: 0 <= i < |Strings(data)| ==> !IsUnitId(Strings(data)[i])
    ensures var units := ExtractLinkedIds(data).unit.GetOr([]);
      NoDuplicates(units)
      && (forall s :: s in units <==> s in Strings(data) && IsUnitId(s))
      && (forall a, b :: 0 <= a < b < |units| ==> FirstIndex(Strings(data), units[a]) < FirstIndex(Strings(data), units[b]))
  {
    SearchIsNoteAll(data, NoLinks);
    NoteAllFirsts(NoLinks, Strings(data));
    UnitsAbsent(Strings(data));
    UnitsMembers(Strings(data));
    UnitsOrder(Strings(data));
  }
}
