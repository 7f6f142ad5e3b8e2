/** Delivery chains: supply-chain hand-overs embedded in a product document under keys
    starting with `_meta_lieferkette`, one chain per sentinel member, and the delivery state a
    timestamp stands for. Date parsing (`new Date(x).getTime()`) and `JSON.parse` are
    parameters: `time` answers `None` for an invalid date, `parse` answers `None` for text
    that is not JSON. */
module Delivery {
  import opened Wrappers
  import opened Text
  import opened Json
  import opened Sorting
  import opened Seqs
  import opened SentinelWalk

  /** One hand-over: who received the unit and when. `location` and `status` are only set
      by the extended object form. */
  datatype DeliveryEntry = DeliveryEntry(
    id: string, recipient: string, timestamp: Json, location: Option<Json>, status: Option<Json>)

  datatype DeliveryChain = DeliveryChain(id: string, title: Json, entries: seq<DeliveryEntry>, totalDeliveries: int)

  /** No trailing underscore: `_meta_lieferkette_produktion` is the chain `_produktion`. */
  const ChainPrefix := "_meta_lieferkette"

  /** `key.replace("_meta_lieferkette", "") || "default"` on a sentinel key. */
  function ChainId(key: string): (id: string)
    requires StartsWith(key, ChainPrefix)
    ensures id != []
    ensures key == ChainPrefix ==> id == "default"
    ensures key != ChainPrefix ==> ChainPrefix + id == key
  {
    var rest := key[|ChainPrefix|..];
    assert key == ChainPrefix + rest;
    if rest == [] then "default" else rest
  }

  lemma ChainIdExamples()
    ensures ChainId("_meta_lieferkette_produktion") == "_produktion"
    ensures ChainId("_meta_lieferkette") == "default"
  {
    assert "_meta_lieferkette_produktion" == ChainPrefix + "_produktion";
  }

  function EntryId(chainId: string, key: string): string {
    chainId + "_" + key
  }

  /** Members of a chain object that describe the chain rather than a hand-over. */
  predicate IsHeading(key: string) {
    key == "title" || key == "description"
  }

  /** A member of a chain object that yields an entry: not a heading, and holding a string or
      an object (or array). */
  predicate IsDelivery(f: Field) {
    !IsHeading(f.key) && (f.value.JStr? || IsObjectLike(f.value))
  }

  /** The entry of one member of a chain object: a string is the timestamp; an object supplies
      `timestamp || datum || ""`, `location || ort` and `status`. */
  function EntryOf(chainId: string, f: Field): (r: DeliveryEntry)
    requires IsDelivery(f)
    ensures r.recipient == f.key && r.id == EntryId(chainId, f.key)
  {
    if f.value.JStr? then DeliveryEntry(EntryId(chainId, f.key), f.key, f.value, None, None)
    else
      DeliveryEntry(
        EntryId(chainId, f.key), f.key,
        MemberOr(f.value, "timestamp", MemberOr(f.value, "datum", JStr(""))),
        JsOr(Get(f.value, "location"), Get(f.value, "ort")),
        Get(f.value, "status"))
  }

  /** The entries of a chain object's members, in member order. */
  function EntryList(chainId: string, fs: seq<Field>): (r: seq<DeliveryEntry>)
    ensures |r| == |Filter(fs, IsDelivery)|
    ensures forall i :: 0 <= i < |r| ==>
      IsDelivery(Filter(fs, IsDelivery)[i]) && r[i] == EntryOf(chainId, Filter(fs, IsDelivery)[i])
  {
    if |fs| == 0 then []
    else
      var rest := EntryList(chainId, fs[1..]);
      assert Filter(fs, IsDelivery) == (if IsDelivery(fs[0]) then [fs[0]] else []) + Filter(fs[1..], IsDelivery);
      if IsDelivery(fs[0]) then [EntryOf(chainId, fs[0])] + rest else rest
  }

  /** The order of `dateB - dateA`: newest first. Dates that do not parse are ranked below
      every valid date. */
  function ByTime(time: Json -> Option<int>): DeliveryEntry -> Rank {
    (e: DeliveryEntry) => TimeRank(time(e.timestamp))
  }

  function TimeRank(t: Option<int>): Rank {
    if t.Some? then Rank(1, t.value) else Rank(0, 0)
  }

  /** `Lieferkette <id>`, the title a chain gets when none is given. */
  function DefaultTitle(chainId: string): string {
    "Lieferkette " + chainId
  }

  /** The chain of an object sentinel: its entries newest first, its own title or the default. */
  function ObjectChain(chainId: string, value: Json, time: Json -> Option<int>): (r: DeliveryChain)
    requires IsObjectLike(value)
    ensures r.id == chainId && r.totalDeliveries == |r.entries|
    ensures SortedDesc(r.entries, ByTime(time))
    ensures multiset(r.entries) == multiset(EntryList(chainId, Entries(value)))
    ensures r.title == if Get(value, "title").Some? && Truthy(Get(value, "title").value)
                       then Get(value, "title").value else JStr(DefaultTitle(chainId))
  {
    var entries := EntryList(chainId, Entries(value));
    SortSorted(entries, ByTime(time));
    var sorted := Sort(entries, ByTime(time));
    DeliveryChain(chainId, MemberOr(value, "title", JStr(DefaultTitle(chainId))), sorted, |sorted|)
  }

  /** Entries dated alike keep the order of the members. */
  lemma ObjectChainIsStable(chainId: string, value: Json, time: Json -> Option<int>, k: Rank)
    requires IsObjectLike(value)
    ensures WithRank(ObjectChain(chainId, value, time).entries, ByTime(time), k)
      == WithRank(EntryList(chainId, Entries(value)), ByTime(time), k)
  {
    SortStable(EntryList(chainId, Entries(value)), ByTime(time), k);
  }

  /** Every entry of an object sentinel's chain is a hand-over member of the object, named
      after its key; headings and members of other types give none. */
  lemma ObjectChainEntries(chainId: string, value: Json, time: Json -> Option<int>, e: DeliveryEntry)
    requires IsObjectLike(value) && e in ObjectChain(chainId, value, time).entries
    ensures !IsHeading(e.recipient) && e.id == EntryId(chainId, e.recipient)
    ensures exists i :: 0 <= i < |Entries(value)| && Entries(value)[i].key == e.recipient && IsDelivery(Entries(value)[i])
  {
    var fs := Entries(value);
    var list := EntryList(chainId, fs);
    assert e in multiset(list);
    var i :| 0 <= i < |list| && list[i] == e;
    var f := Filter(fs, IsDelivery)[i];
    assert e == EntryOf(chainId, f);
    FilterMember(fs, IsDelivery, i);
    var j :| 0 <= j < |fs| && fs[j] == f;
    assert fs[j].key == e.recipient && IsDelivery(fs[j]);
  }

  /** An element of a filtered list is an element of the list. */
  lemma {:induction false} FilterMember<T>(s: seq<T>, p: T -> bool, i: nat)
    requires i < |Filter(s, p)|
    ensures p(Filter(s, p)[i])
    ensures exists j :: 0 <= j < |s| && s[j] == Filter(s, p)[i]
  {
    if p(s[0]) {
      if i > 0 {
        FilterMember(s[1..], p, i - 1);
        var j :| 0 <= j < |s[1..]| && s[1..][j] == Filter(s[1..], p)[i - 1];
        assert s[j + 1] == s[1..][j];
      }
    } else {
      FilterMember(s[1..], p, i);
      var j :| 0 <= j < |s[1..]| && s[1..][j] == Filter(s[1..], p)[i];
      assert s[j + 1] == s[1..][j];
    }
  }

  // ---------------------------------------------------------------------------------------
  // String sentinels

  /** `String(v)` for a JSON value: arrays join their elements with commas (`null` elements
      as the empty string), objects read `[object Object]`. */
  function JsString(j: Json): string
    decreases j
  {
    match j
    case JNull => "null"
    case JBool(b) => if b then "true" else "false"
    case JNum(n) => IntToDec(n)
    case JStr(s) => s
    case JArr(items) => Join(ItemTexts(items), ",")
    case JObj(_) => "[object Object]"
  }

  function ItemTexts(items: seq<Json>): (r: seq<string>)
    ensures |r| == |items|
    decreases items
  {
    if |items| == 0 then []
    else [if items[0].JNull? then "" else JsString(items[0])] + ItemTexts(items[1..])
  }

  /** The plain entries of a parsed string sentinel: one per member, the value rendered as
      text, in member order and not sorted. */
  function PlainEntries(chainId: string, fs: seq<Field>): (r: seq<DeliveryEntry>)
    ensures |r| == |fs|
    ensures forall i :: 0 <= i < |fs| ==>
      r[i] == DeliveryEntry(EntryId(chainId, fs[i].key), fs[i].key, JStr(JsString(fs[i].value)), None, None)
  {
    if |fs| == 0 then []
    else
      var entry := DeliveryEntry(EntryId(chainId, fs[0].key), fs[0].key, JStr(JsString(fs[0].value)), None, None);
      [entry] + PlainEntries(chainId, fs[1..])
  }

  /** The chain of text that is not JSON, or that parses to `null` (on which `Object.entries`
      throws): a single entry from "System" holding the raw text. */
  function SystemChain(chainId: string, text: string): DeliveryChain {
    DeliveryChain(chainId, JStr(DefaultTitle(chainId)),
      [DeliveryEntry(EntryId(chainId, "info"), "System", JStr(text), None, None)], 1)
  }

  /** What a string sentinel contributes: a parsed object or array gives one plain chain, a
      parsed primitive gives none, and anything that throws gives the system chain. */
  function StringChains(chainId: string, text: string, parse: string -> Option<Json>): (r: seq<DeliveryChain>)
    ensures |r| <= 1
    ensures forall c :: c in r ==> c.id == chainId && c.totalDeliveries == |c.entries|
    ensures |r| == 0 <==> parse(text).Some? && !IsObjectLike(parse(text).value) && !parse(text).value.JNull?
    ensures parse(text).None? || parse(text) == Some(JNull) ==> r == [SystemChain(chainId, text)]
    ensures parse(text).Some? && IsObjectLike(parse(text).value) ==>
      r[0].entries == PlainEntries(chainId, Entries(parse(text).value)) && r[0].title == JStr(DefaultTitle(chainId))
  {
    match parse(text)
    case None => [SystemChain(chainId, text)]
    case Some(JNull) => [SystemChain(chainId, text)]
    case Some(parsed) =>
      if IsObjectLike(parsed) then
        var entries := PlainEntries(chainId, Entries(parsed));
        [DeliveryChain(chainId, JStr(DefaultTitle(chainId)), entries, |entries|)]
      else []
  }

  // ---------------------------------------------------------------------------------------
  // The extraction

  /** The chains one member contributes; the conversion never throws, since the source
      catches every failure of a string sentinel. */
  function ChainsOf(parse: string -> Option<Json>, time: Json -> Option<int>): Field -> Result<seq<DeliveryChain>, ()> {
    f => Success(MemberChains(f, parse, time))
  }

  function MemberChains(f: Field, parse: string -> Option<Json>, time: Json -> Option<int>): (r: seq<DeliveryChain>)
    ensures forall c :: c in r ==> c.totalDeliveries == |c.entries|
    ensures forall c :: c in r ==> StartsWith(f.key, ChainPrefix) && c.id == ChainId(f.key)
  {
    if !StartsWith(f.key, ChainPrefix) then []
    else if IsObjectLike(f.value) then [ObjectChain(ChainId(f.key), f.value, time)]
    else if f.value.JStr? then StringChains(ChainId(f.key), f.value.s, parse)
    else []
  }

  /** `extractDeliveryChains(data)`: the chains of every sentinel, in document order. */
  function ExtractDeliveryChains(data: Json, parse: string -> Option<Json>, time: Json -> Option<int>): (r: seq<DeliveryChain>)
    ensures forall c :: c in r ==> c.totalDeliveries == |c.entries|
    ensures forall c :: c in r ==>
      exists i :: 0 <= i < |Sentinels(data, ChainPrefix)| && c in MemberChains(Sentinels(data, ChainPrefix)[i], parse, time)
  {
    var convert := ChainsOf(parse, time);
    WalkSucceeds(data, ChainPrefix, convert);
    var chains := Walk(data, ChainPrefix, convert).value;
    forall c | c in chains
      ensures c.totalDeliveries == |c.entries|
      ensures exists i :: 0 <= i < |Sentinels(data, ChainPrefix)| && c in MemberChains(Sentinels(data, ChainPrefix)[i], parse, time)
    {
      WalkedChainFromMember(data, parse, time, c);
    }
    chains
  }

  lemma WalkedChainFromMember(data: Json, parse: string -> Option<Json>, time: Json -> Option<int>, c: DeliveryChain)
    requires Walk(data, ChainPrefix, ChainsOf(parse, time)).Success?
    requires c in Walk(data, ChainPrefix, ChainsOf(parse, time)).value
    ensures exists i :: 0 <= i < |Sentinels(data, ChainPrefix)| && c in MemberChains(Sentinels(data, ChainPrefix)[i], parse, time)
  {
    var convert := ChainsOf(parse, time);
    var fs := Sentinels(data, ChainPrefix);
    WalkIsConvert(data, ChainPrefix, convert);
    ConvertedFrom(fs, convert, c);
    var i :| 0 <= i < |fs| && convert(fs[i]).Success? && c in convert(fs[i]).value;
    assert convert(fs[i]).value == MemberChains(fs[i], parse, time);
  }

  /** The chains are exactly those of the document's sentinel members, in order. */
  lemma ExtractIsSentinelChains(data: Json, parse: string -> Option<Json>, time: Json -> Option<int>)
    ensures ExtractDeliveryChains(data, parse, time) == AllChains(Sentinels(data, ChainPrefix), parse, time)
  {
    var convert := ChainsOf(parse, time);
    WalkIsConvert(data, ChainPrefix, convert);
    ConvertIsAllChains(Sentinels(data, ChainPrefix), parse, time);
  }

  function AllChains(fs: seq<Field>, parse: string -> Option<Json>, time: Json -> Option<int>): seq<DeliveryChain> {
    if |fs| == 0 then [] else MemberChains(fs[0], parse, time) + AllChains(fs[1..], parse, time)
  }

  lemma {:induction false} ConvertIsAllChains(fs: seq<Field>, parse: string -> Option<Json>, time: Json -> Option<int>)
    ensures Convert(fs, ChainsOf(parse, time)) == Success(AllChains(fs, parse, time))
    decreases |fs|
  {
    if |fs| > 0 {
      ConvertIsAllChains(fs[1..], parse, time);
    }
  }

  // ---------------------------------------------------------------------------------------
  // Delivery state

  datatype DeliveryState = Pending | InTransit | Delivered

  /** The badge shown for a state: the state and its text and background colours. */
  datatype Badge = Badge(status: DeliveryState, color: string, bgColor: string)

  const HourMs := 60 * 60 * 1000

  /** `getDeliveryStatus(timestamp)` at time `now` (milliseconds), given the parsed time of
      the timestamp. The hours elapsed are compared with 0 and 24; an invalid date compares
      false with both and counts as delivered. */
  function GetDeliveryStatus(at: Option<int>, now: int): (r: Badge)
    ensures r.status == Pending <==> at.Some? && now < at.value
    ensures r.status == InTransit <==> at.Some? && at.value <= now < at.value + 24 * HourMs
    ensures r.status == Delivered <==> at.None? || at.value + 24 * HourMs <= now
    ensures r.status == Pending ==> r == Badge(Pending, "text-blue-700", "bg-blue-50")
    ensures r.status == InTransit ==> r == Badge(InTransit, "text-amber-700", "bg-amber-50")
    ensures r.status == Delivered ==> r == Badge(Delivered, "text-emerald-700", "bg-emerald-50")
  {
    var diff := if at.Some? then Some(now - at.value) else None;
    if diff.Some? && diff.value < 0 then Badge(Pending, "text-blue-700", "bg-blue-50")
    else if diff.Some? && diff.value < 24 * HourMs then Badge(InTransit, "text-amber-700", "bg-amber-50")
    else Badge(Delivered, "text-emerald-700", "bg-emerald-50")
  }

  function Stage(s: DeliveryState): nat {
    match s
    case Pending => 0
    case InTransit => 1
    case Delivered => 2
  }

  /** As time passes a delivery only moves forward: pending, then in transit, then delivered. */
  lemma StatusOnlyAdvances(at: Option<int>, now: int, later: int)
    requires now <= later
    ensures Stage(GetDeliveryStatus(at, now).status) <= Stage(GetDeliveryStatus(at, later).status)
  {
  }
}
