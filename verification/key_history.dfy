/** The change history of one key of a product document: the dotted identifier a document path
    is reduced to (`buildKeyIdentifier`), and `fetchKeyHistory`, which reads the local demo table
    or asks the backend and answers a placeholder history whenever neither has one. */
module KeyHistory {
  import opened Wrappers
  import opened Text
  import opened Seqs
  import opened Config

  /** `HistoryEntry`; the optional members are `None` when absent. */
  datatype HistoryEntry = HistoryEntry(
    value: string, timestamp: string, user: Option<string>, source: Option<string>, reason: Option<string>)

  /** `HistoryResponse`. */
  datatype HistoryResponse = HistoryResponse(key: string, currentValue: string, history: seq<HistoryEntry>, totalChanges: int)

  // ---------------------------------------------------------------------------------------
  // buildKeyIdentifier

  /** `/^\d+$/`: a non-empty run of ASCII digits and nothing else (the position of an array
      element in the path). */
  predicate IsIndex(segment: string) {
    |segment| > 0 && forall i :: 0 <= i < |segment| ==> IsDigit(segment[i])
  }

  function NotIndex(): string -> bool {
    (segment: string) => !IsIndex(segment)
  }

  /** `buildKeyIdentifier(path, keyName)`: the path without its array positions, then the key,
      joined by dots. */
  function BuildKeyIdentifier(path: seq<string>, keyName: string): (r: string)
    ensures |r| >= |keyName| && r[|r| - |keyName|..] == keyName
  {
    var parts := Filter(path, NotIndex()) + [keyName];
    JoinEndsWith(parts, ".");
    Join(parts, ".")
  }

  /** A path of array positions only (or no path) leaves just the key, even an all-digit
      one. */
  lemma AllIndexPath(path: seq<string>, keyName: string)
    requires forall i :: 0 <= i < |path| ==> IsIndex(path[i])
    ensures BuildKeyIdentifier(path, keyName) == keyName
  {
    FilterNone(path, NotIndex());
    assert Filter(path, NotIndex()) + [keyName] == [keyName];
  }

  /** Without dots inside the segments, the identifier splits back at its dots into the kept
      segments and the key, so there is one dot per kept segment. */
  lemma KeyIdentifierSplits(path: seq<string>, keyName: string)
    requires '.' !in keyName && forall i :: 0 <= i < |path| ==> '.' !in path[i]
    ensures Split(BuildKeyIdentifier(path, keyName), '.') == Filter(path, NotIndex()) + [keyName]
    ensures CountChar(BuildKeyIdentifier(path, keyName), '.') == |Filter(path, NotIndex())|
  {
    var parts := Filter(path, NotIndex()) + [keyName];
    KeptPiecesUndotted(path, keyName);
    SplitJoin(parts, '.');
    JoinCountChar(parts, '.');
  }

  lemma KeptPiecesUndotted(path: seq<string>, keyName: string)
    requires '.' !in keyName && forall i :: 0 <= i < |path| ==> '.' !in path[i]
    ensures var parts := Filter(path, NotIndex()) + [keyName];
      forall k :: 0 <= k < |parts| ==> '.' !in parts[k]
  {
    var kept := Filter(path, NotIndex());
    forall k | 0 <= k < |kept| ensures '.' !in kept[k] {
      assert kept[k] in path;
    }
  }

  /** The identifier forgets array positions: inserting one anywhere in the path changes
      nothing. */
  lemma {:induction false} IndexSegmentsIgnored(before: seq<string>, index: string, after: seq<string>, keyName: string)
    requires IsIndex(index)
    ensures BuildKeyIdentifier(before + [index] + after, keyName) == BuildKeyIdentifier(before + after, keyName)
  {
    FilterAppend(before + [index], after, NotIndex());
    FilterAppend(before, [index], NotIndex());
    FilterAppend(before, after, NotIndex());
    assert Filter([index], NotIndex()) == [];
    assert Filter(before + [index], NotIndex()) == Filter(before, NotIndex());
    assert Filter(before + [index] + after, NotIndex()) == Filter(before + after, NotIndex());
  }

  // ---------------------------------------------------------------------------------------
  // fetchKeyHistory

  /** The answer for a key nobody has a history of. */
  function Placeholder(keyPath: string): HistoryResponse {
    HistoryResponse(keyPath, "Unbekannt", [], 0)
  }

  /** The local demo table: `productId.keyPath` to the history of that key. */
  type HistoryTable = seq<(string, HistoryResponse)>

  /** `demoHistoryData[key]` over an object literal: the entry under exactly this key. No
      property the object inherits has a '.' in its name, so a lookup key (which always holds
      one) finds only the table's own entries. */
  function Lookup(table: HistoryTable, key: string): (r: Option<HistoryResponse>)
    ensures r.Some? <==> exists i :: 0 <= i < |table| && table[i].0 == key
    ensures r.Some? ==> exists i :: 0 <= i < |table| && table[i].0 == key && table[i].1 == r.value
  {
    if |table| == 0 then None
    else if table[0].0 == key then Some(table[0].1)
    else
      var r := Lookup(table[1..], key);
      assert forall i :: 1 <= i < |table| ==> table[i] == table[1..][i - 1];
      r
  }

  /** The key of the local table holding the history of `keyPath` in `productId`. */
  function HistoryKey(productId: string, keyPath: string): (k: string)
    ensures '.' in k
  {
    assert (productId + "." + keyPath)[|productId|] == '.';
    productId + "." + keyPath
  }

  /** What `apiClient.getHistory(productId, keyPath)` did: answered with an error and/or data
      (`None` data stands for `null`), or threw. */
  datatype HistoryOutcome = Answered(data: Option<HistoryResponse>, error: Option<string>) | Threw

  /** `if (response.error) throw …`, or a throw of the client itself. */
  predicate Failed(outcome: HistoryOutcome) {
    outcome.Threw? || (outcome.error.Some? && outcome.error.value != "")
  }

  /** `fetchKeyHistory(productId, keyPath)`; `None` is the `null` an API answer without data
      passes on. */
  function FetchKeyHistory(source: DataSource, table: HistoryTable, productId: string, keyPath: string, outcome: HistoryOutcome): (r: Option<HistoryResponse>)
    ensures source == Local ==> r.Some?
    ensures source == Local ==>
      (r == Some(Placeholder(keyPath)) && forall i :: 0 <= i < |table| ==> table[i].0 != productId + "." + keyPath) ||
      (exists i :: 0 <= i < |table| && table[i].0 == productId + "." + keyPath && r == Some(table[i].1))
    ensures source == Local && (exists i :: 0 <= i < |table| && table[i].0 == productId + "." + keyPath) ==>
      r == Some(Lookup(table, productId + "." + keyPath).value)
    ensures source == Api && Failed(outcome) ==> r == Some(Placeholder(keyPath))
    ensures source == Api && !Failed(outcome) ==> r == outcome.data
  {
    match source
    case Local =>
      var found := Lookup(table, HistoryKey(productId, keyPath));
      if found.None? then Some(Placeholder(keyPath)) else found
    case Api =>
      if Failed(outcome) then Some(Placeholder(keyPath)) else outcome.data
  }
}
