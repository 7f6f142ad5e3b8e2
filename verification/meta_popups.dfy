/** Meta popups: notices embedded anywhere in a product document under keys starting with
    `_meta_popup_`, collected in document order and shown highest priority first, and the list
    of popups the user has dismissed, kept in browser storage. */
module MetaPopups {
  import opened Wrappers
  import opened Text
  import opened Json
  import opened Sorting
  import opened Seqs
  import opened SentinelWalk

  /** A popup as shown. `author`, `kind` (the source's `type`) and `priority` keep whatever
      value the document supplied, since the source copies them unchecked. */
  datatype Popup = Popup(id: string, author: Json, message: string, kind: Json, dismissible: bool, priority: Json)

  /** The `TypeError` raised by `message.trim()` when the message chosen for the popup `id` is
      not a string; it ends the whole extraction. */
  datatype Failure = MessageNotText(id: string)

  const PopupPrefix := "_meta_popup_"

  predicate IsSentinel(key: string) {
    StartsWith(key, PopupPrefix)
  }

  /** `key.replace("_meta_popup_", "")` on a sentinel key: the first occurrence of the prefix is
      the prefix itself, so the id is what follows it. */
  function PopupId(key: string): (id: string)
    requires IsSentinel(key)
    ensures PopupPrefix + id == key
  {
    key[|PopupPrefix|..]
  }

  /** The message an object sentinel supplies: `message || value || ""`. */
  function ChosenMessage(value: Json): Json {
    JsOr(Get(value, "message"), Some(MemberOr(value, "value", JStr("")))).GetOr(JStr(""))
  }

  /** What one sentinel member contributes: an object (or array) describes a popup with
      defaults for every missing part, a string is the message of a popup authored by its id,
      and anything else is ignored. Blank messages are dropped. */
  function FromSentinel(id: string, value: Json): (r: Result<Option<Popup>, Failure>)
    ensures r.Success? && r.value.Some? ==> r.value.value.id == id && !IsBlank(r.value.value.message)
    ensures r.Failure? <==> IsObjectLike(value) && !ChosenMessage(value).JStr?
    ensures r.Failure? ==> r.error == MessageNotText(id)
    ensures value.JStr? ==>
      r == if IsBlank(value.s) then Success(None)
           else Success(Some(Popup(id, JStr(id), value.s, JStr("info"), true, JNum(0))))
    ensures !IsObjectLike(value) && !value.JStr? ==> r == Success(None)
    ensures IsObjectLike(value) && GetText(value, "message").Some? ==>
      r.Success? && (r.value.Some? <==> !IsBlank(GetText(value, "message").value)) &&
      (r.value.Some? ==> r.value.value.message == GetText(value, "message").value)
    ensures r.Success? && r.value.Some? ==>
      (!r.value.value.dismissible <==> IsObjectLike(value) && Get(value, "dismissible") == Some(JBool(false)))
  {
    if IsObjectLike(value) then
      var message := ChosenMessage(value);
      if !message.JStr? then Failure(MessageNotText(id))
      else if (TrimEmptyIffBlank(message.s); Trim(message.s) == []) then Success(None)
      else
        Success(Some(Popup(
          id,
          JsOr(Get(value, "author"), Some(MemberOr(value, "title", JStr("System")))).GetOr(JStr("System")),
          message.s,
          MemberOr(value, "type", JStr("info")),
          Get(value, "dismissible") != Some(JBool(false)),
          MemberOr(value, "priority", JNum(0)))))
    else if value.JStr? then
      TrimEmptyIffBlank(value.s);
      if Trim(value.s) == [] then Success(None)
      else Success(Some(Popup(id, JStr(id), value.s, JStr("info"), true, JNum(0))))
    else Success(None)
  }

  function AsSeq(p: Option<Popup>): seq<Popup> {
    if p.Some? then [p.value] else []
  }

  /** The popups one sentinel member contributes. */
  function PopupsOf(f: Field): Result<seq<Popup>, Failure> {
    if IsSentinel(f.key) then
      var p :- FromSentinel(PopupId(f.key), f.value);
      Success(AsSeq(p))
    else Success([])
  }

  /** `searchForMetaPopups(data)`: the popups in the order the walk meets their sentinels. */
  function Collect(data: Json): Result<seq<Popup>, Failure> {
    Walk(data, PopupPrefix, PopupsOf)
  }

  /** Every collected popup comes from a sentinel member of the document whose key is the
      prefix followed by the popup's id, and has a message that is not blank. */
  lemma CollectedFromSentinels(data: Json, p: Popup)
    requires Collect(data).Success? && p in Collect(data).value
    ensures !IsBlank(p.message)
    ensures exists i ::
      0 <= i < |Sentinels(data, PopupPrefix)| && Sentinels(data, PopupPrefix)[i].key == PopupPrefix + p.id &&
      FromSentinel(p.id, Sentinels(data, PopupPrefix)[i].value) == Success(Some(p))
  {
    var fs := Sentinels(data, PopupPrefix);
    WalkIsConvert(data, PopupPrefix, PopupsOf);
    SentinelsAreSentinels(data, PopupPrefix);
    ConvertedFrom(fs, PopupsOf, p);
    var i :| 0 <= i < |fs| && PopupsOf(fs[i]).Success? && p in PopupsOf(fs[i]).value;
    assert fs[i].key == PopupPrefix + p.id;
  }

  /** The extraction fails exactly when a sentinel object of the document has a message that
      is not a string. */
  lemma CollectFailsIff(data: Json)
    ensures Collect(data).Failure? <==>
      exists i :: 0 <= i < |Sentinels(data, PopupPrefix)| &&
        IsObjectLike(Sentinels(data, PopupPrefix)[i].value) && !ChosenMessage(Sentinels(data, PopupPrefix)[i].value).JStr?
  {
    var fs := Sentinels(data, PopupPrefix);
    WalkIsConvert(data, PopupPrefix, PopupsOf);
    SentinelsAreSentinels(data, PopupPrefix);
    ConvertFailsIff(fs, PopupsOf);
  }

  /** The sort key of `(b.priority || 0) - (a.priority || 0)`: highest priority first. */
  function ByPriority(p: Popup): Rank {
    Rank(PriorityValue(p.priority), 0)
  }

  /** The number a priority stands for in the subtraction: numbers as they are, booleans as 1
      and 0, and text by `Number(text)`. Values whose conversion gives `NaN` rank as 0. */
  function PriorityValue(j: Json): int {
    match j
    case JNum(n) => n
    case JBool(b) => if b then 1 else 0
    case JStr(s) => TextNumber(s).GetOr(0)
    case _ => 0
  }

  /** A priority written as the decimal text of a number ranks as that number. */
  lemma PriorityTextIsNumber(n: int)
    ensures PriorityValue(JStr(IntToDec(n))) == PriorityValue(JNum(n))
  {
    TextNumberOfDecimal(n);
  }

  /** `extractMetaPopups(data)`: every popup of the document, highest priority first, popups
      of equal priority in document order. */
  function ExtractMetaPopups(data: Json): (r: Result<seq<Popup>, Failure>)
    ensures r.Success? <==> Collect(data).Success?
    ensures r.Success? ==> SortedDesc(r.value, ByPriority)
    ensures r.Success? ==> multiset(r.value) == multiset(Collect(data).value)
    ensures r.Success? ==> forall p :: p in r.value ==> !IsBlank(p.message)
  {
    var popups :- Collect(data);
    SortSorted(popups, ByPriority);
    var sorted := Sort(popups, ByPriority);
    forall p | p in sorted ensures !IsBlank(p.message) {
      assert p in multiset(popups);
      CollectedFromSentinels(data, p);
    }
    Success(sorted)
  }

  /** Popups of equal priority are shown in the order the document holds them. */
  lemma ExtractKeepsDocumentOrder(data: Json, k: Rank)
    requires Collect(data).Success?
    ensures WithRank(ExtractMetaPopups(data).value, ByPriority, k) == WithRank(Collect(data).value, ByPriority, k)
  {
    SortStable(Collect(data).value, ByPriority, k);
  }

  // ---------------------------------------------------------------------------------------
  // Dismissed popups

  /** The storage slot of the dismissed ids: absent, a stored list, or content that does not
      parse. */
  datatype Slot = Missing | Stored(ids: seq<string>) | Unreadable

  /** `getDismissedPopups()`: the stored list, or nothing. */
  function Dismissed(slot: Slot): seq<string> {
    if slot.Stored? then slot.ids else []
  }

  /** `dismissPopup(id)`: the id is appended to the stored list unless already listed. */
  function Dismiss(slot: Slot, id: string): (r: Slot)
    ensures id in Dismissed(r)
    ensures forall x :: x in Dismissed(r) <==> x == id || x in Dismissed(slot)
    ensures NoDuplicates(Dismissed(slot)) ==> NoDuplicates(Dismissed(r))
    ensures id in Dismissed(slot) ==> r == slot
    ensures id !in Dismissed(slot) ==> Dismissed(r) == Dismissed(slot) + [id]
  {
    var dismissed := Dismissed(slot);
    if id in dismissed then slot else Stored(dismissed + [id])
  }

  /** Dismissing twice is dismissing once. */
  lemma DismissIdempotent(slot: Slot, id: string)
    ensures Dismiss(Dismiss(slot, id), id) == Dismiss(slot, id)
  {
  }

  /** `clearDismissedPopups()`: the slot is removed. */
  function ClearDismissed(slot: Slot): (r: Slot)
    ensures Dismissed(r) == []
  {
    Missing
  }

  /** Dismissals after a clear are listed in the order they were made, without repeats. */
  function DismissAll(slot: Slot, ids: seq<string>): Slot
    decreases |ids|
  {
    if |ids| == 0 then slot else DismissAll(Dismiss(slot, ids[0]), ids[1..])
  }

  lemma {:induction false} DismissAllKeepsNoDuplicates(slot: Slot, ids: seq<string>)
    requires NoDuplicates(Dismissed(slot))
    ensures NoDuplicates(Dismissed(DismissAll(slot, ids)))
    ensures forall x :: x in Dismissed(DismissAll(slot, ids)) <==> x in ids || x in Dismissed(slot)
    decreases |ids|
  {
    if |ids| > 0 {
      DismissAllKeepsNoDuplicates(Dismiss(slot, ids[0]), ids[1..]);
      assert forall x :: x in ids <==> x == ids[0] || x in ids[1..];
    }
  }
}
