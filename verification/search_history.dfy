/** The search history and autocompletion store (`SearchCacheService`): the searches made so
    far, most recent first, the key-value patterns learnt from them, and the suggestions offered
    while a query is typed. Time is an explicit argument; the browser-storage copy is the
    snapshot `LoadFromStorage` reads. */
module SearchHistory {
  import opened Wrappers
  import opened Text
  import opened Seqs
  import opened Sorting
  import OrderedMap

  datatype SearchType = Simple | KeyValue

  datatype SearchEntry = SearchEntry(
    query: string, kind: SearchType, timestamp: int, resultCount: int, successful: bool, frequency: int)

  datatype Category = Recent | Frequent | Suggested

  datatype Suggestion = Suggestion(
    query: string, kind: SearchType, frequency: int, lastUsed: int, resultCount: int, category: Category)

  /** The values seen for one (lower-case) key, in the order they were first seen. */
  datatype Pattern = Pattern(key: string, values: seq<string>, frequency: int, lastUsed: int)

  datatype Store = Store(history: seq<SearchEntry>, patterns: OrderedMap.OMap<Pattern>)

  const MaxHistorySize := 100
  const MaxSuggestions := 10
  const ThirtyDaysMs := 30 * 24 * 60 * 60 * 1000

  /** `detectSearchType`: a query containing a colon is a key-value search. */
  function DetectSearchType(query: string): SearchType {
    if ':' in query then KeyValue else Simple
  }

  /** An entry records the search `query` of type `kind`, ignoring case. */
  predicate SameSearch(e: SearchEntry, query: string, kind: SearchType) {
    Lower(e.query) == Lower(query) && e.kind == kind
  }

  /** `findIndex` of the entry recording the same search. */
  function FindEntry(h: seq<SearchEntry>, query: string, kind: SearchType): (r: Option<nat>)
    ensures r.Some? ==> r.value < |h| && SameSearch(h[r.value], query, kind)
    ensures forall i :: 0 <= i < |h| && (r.None? || i < r.value) ==> !SameSearch(h[i], query, kind)
  {
    if |h| == 0 then None
    else if SameSearch(h[0], query, kind) then Some(0)
    else
      var rest := FindEntry(h[1..], query, kind);
      assert forall i :: 1 <= i < |h| ==> h[i] == h[1..][i - 1];
      if rest.Some? then Some(rest.value + 1) else None
  }

  /** No search is recorded twice. */
  predicate Unique(h: seq<SearchEntry>) {
    forall i, j :: 0 <= i < j < |h| ==> !SameSearch(h[i], h[j].query, h[j].kind)
  }

  /** A repeated search: counted once more, with the new time and outcome, keeping its text. */
  function Refreshed(e: SearchEntry, resultCount: int, successful: bool, now: int): SearchEntry {
    e.(frequency := e.frequency + 1, timestamp := now, resultCount := resultCount, successful := successful)
  }

  /** The history after the search `t` of type `kind`: a repeat is refreshed and moved to the
      front, keeping its text; a new search goes in front and the history is cut to its bound. */
  function Touch(h: seq<SearchEntry>, t: string, kind: SearchType, resultCount: int, successful: bool, now: int): (r: seq<SearchEntry>)
    ensures |r| > 0 && SameSearch(r[0], t, kind) && r[0].timestamp == now
    ensures r[0].resultCount == resultCount && r[0].successful == successful
    ensures |h| <= MaxHistorySize ==> |r| <= MaxHistorySize
    ensures FindEntry(h, t, kind).Some? ==>
      var i := FindEntry(h, t, kind).value;
      |r| == |h| && r[0] == Refreshed(h[i], resultCount, successful, now) && r[1..] == h[..i] + h[i + 1..]
    ensures FindEntry(h, t, kind).None? ==>
      r == [SearchEntry(t, kind, now, resultCount, successful, 1)] + Take(h, MaxHistorySize - 1)
  {
    match FindEntry(h, t, kind)
    case Some(i) =>
      assert [Refreshed(h[i], resultCount, successful, now)] + h[..i] + h[i + 1..]
        == [Refreshed(h[i], resultCount, successful, now)] + (h[..i] + h[i + 1..]);
      [Refreshed(h[i], resultCount, successful, now)] + h[..i] + h[i + 1..]
    case None =>
      var entry := SearchEntry(t, kind, now, resultCount, successful, 1);
      assert Take([entry] + h, MaxHistorySize) == [entry] + Take(h, MaxHistorySize - 1);
      Take([entry] + h, MaxHistorySize)
  }

  /** `addSearch(query, resultCount, successful)` at time `now`: a blank query changes nothing;
      otherwise the trimmed query is recorded in front of the history, and a key-value search
      also teaches its pattern. */
  function AddSearch(st: Store, query: string, resultCount: int, successful: bool, now: int): (r: Store)
    requires OrderedMap.Valid(st.patterns)
    ensures OrderedMap.Valid(r.patterns)
    ensures IsBlank(query) ==> r == st
    ensures !IsBlank(query) ==>
      r.history == Touch(st.history, Trim(query), DetectSearchType(Trim(query)), resultCount, successful, now)
    ensures !IsBlank(query) ==> (DetectSearchType(Trim(query)) == KeyValue <==> ':' in query)
    ensures r.patterns == if !IsBlank(query) && ':' in query then RecordPattern(st.patterns, Trim(query), now) else st.patterns
  {
    TrimEmptyIffBlank(query);
    var t := Trim(query);
    if t == [] then st
    else
      var kind := DetectSearchType(t);
      TrimColon(query);
      Store(Touch(st.history, t, kind, resultCount, successful, now),
        if kind == KeyValue then RecordPattern(st.patterns, t, now) else st.patterns)
  }

  /** Trimming removes whitespace only, so it keeps every colon. */
  lemma TrimColon(s: string)
    ensures ':' in Trim(s) <==> ':' in s
  {
    assert !IsSpace(':');
    TrimKeeps(s, ':');
  }

  /** Recording a search keeps the history free of repeats. */
  lemma TouchKeepsUnique(h: seq<SearchEntry>, t: string, kind: SearchType, resultCount: int, successful: bool, now: int)
    requires Unique(h)
    ensures Unique(Touch(h, t, kind, resultCount, successful, now))
  {
    var r := Touch(h, t, kind, resultCount, successful, now);
    match FindEntry(h, t, kind)
    case Some(i) =>
      var rest := h[..i] + h[i + 1..];
      assert forall j :: 0 <= j < |rest| ==> rest[j] == h[if j < i then j else j + 1];
      forall a, b | 0 <= a < b < |r| ensures !SameSearch(r[a], r[b].query, r[b].kind) {
        assert r[b] == rest[b - 1];
        if a > 0 {
          assert r[a] == rest[a - 1];
        }
      }
    case None =>
      forall a, b | 0 <= a < b < |r| ensures !SameSearch(r[a], r[b].query, r[b].kind) {
        assert r[b] == h[b - 1];
        if a > 0 {
          assert r[a] == h[a - 1];
        }
      }
  }

  lemma AddSearchKeepsUnique(st: Store, query: string, resultCount: int, successful: bool, now: int)
    requires OrderedMap.Valid(st.patterns) && Unique(st.history)
    ensures Unique(AddSearch(st, query, resultCount, successful, now).history)
  {
    if !IsBlank(query) {
      TouchKeepsUnique(st.history, Trim(query), DetectSearchType(Trim(query)), resultCount, successful, now);
    }
  }

  /** Repeating a search straight away refreshes the entry the first search put in front:
      the history keeps its length and the search is counted once more. */
  lemma TouchAgain(h: seq<SearchEntry>, t: string, kind: SearchType, c1: int, s1: bool, n1: int, c2: int, s2: bool, n2: int)
    ensures var first := Touch(h, t, kind, c1, s1, n1);
      Touch(first, t, kind, c2, s2, n2) == [Refreshed(first[0], c2, s2, n2)] + first[1..]
  {
    var first := Touch(h, t, kind, c1, s1, n1);
    TouchFront(first, t, kind, c2, s2, n2);
  }

  /** Repeating the search at the front of the history refreshes it in place. */
  lemma TouchFront(h: seq<SearchEntry>, t: string, kind: SearchType, c: int, s: bool, n: int)
    requires |h| > 0 && SameSearch(h[0], t, kind)
    ensures Touch(h, t, kind, c, s, n) == [Refreshed(h[0], c, s, n)] + h[1..]
  {
    assert FindEntry(h, t, kind) == Some(0);
    var r := Touch(h, t, kind, c, s, n);
    assert h[..0] + h[1..] == h[1..];
    assert r == [r[0]] + r[1..];
  }

  lemma AddSearchAgain(st: Store, query: string, c1: int, s1: bool, n1: int, c2: int, s2: bool, n2: int)
    requires OrderedMap.Valid(st.patterns) && !IsBlank(query)
    ensures var first := AddSearch(st, query, c1, s1, n1).history;
      var second := AddSearch(AddSearch(st, query, c1, s1, n1), query, c2, s2, n2).history;
      second == [Refreshed(first[0], c2, s2, n2)] + first[1..]
  {
    TouchAgain(st.history, Trim(query), DetectSearchType(Trim(query)), c1, s1, n1, c2, s2, n2);
  }

  /** The frequencies of the history added up (`totalSearches`). */
  function TotalFrequency(h: seq<SearchEntry>): int {
    if |h| == 0 then 0 else h[0].frequency + TotalFrequency(h[1..])
  }

  /** While the history is below its bound, every search adds exactly one to the total number
      of searches, whether it is new or a repeat. */
  lemma TouchCountsOnce(h: seq<SearchEntry>, t: string, kind: SearchType, resultCount: int, successful: bool, now: int)
    requires |h| < MaxHistorySize
    ensures TotalFrequency(Touch(h, t, kind, resultCount, successful, now)) == TotalFrequency(h) + 1
  {
    var r := Touch(h, t, kind, resultCount, successful, now);
    assert TotalFrequency(r) == r[0].frequency + TotalFrequency(r[1..]);
    match FindEntry(h, t, kind)
    case Some(i) =>
      TouchRepeatCounts(h, t, kind, resultCount, successful, now, i);
    case None =>
      assert r[1..] == h;
  }

  /** A repeated search adds one to the total whatever the length of the history. */
  lemma TouchRepeatCounts(h: seq<SearchEntry>, t: string, kind: SearchType, resultCount: int, successful: bool, now: int, i: nat)
    requires FindEntry(h, t, kind) == Some(i)
    ensures TotalFrequency(Touch(h, t, kind, resultCount, successful, now)) == TotalFrequency(h) + 1
  {
    var r := Touch(h, t, kind, resultCount, successful, now);
    var rest := h[..i] + h[i + 1..];
    assert r[1..] == rest;
    TakenOut(h, i);
    assert TotalFrequency(r) == r[0].frequency + TotalFrequency(rest);
  }

  /** Taking entry `i` out of the history removes its count from the total. */
  lemma {:induction false} TakenOut(h: seq<SearchEntry>, i: nat)
    requires i < |h|
    ensures TotalFrequency(h[..i] + h[i + 1..]) + h[i].frequency == TotalFrequency(h)
    decreases i
  {
    var rest := h[..i] + h[i + 1..];
    if i == 0 {
      assert rest == h[1..];
    } else {
      var tail := h[1..];
      TakenOut(tail, i - 1);
      assert rest[1..] == tail[..i - 1] + tail[i..];
      assert rest[0] == h[0] && tail[i - 1] == h[i];
    }
  }

  lemma AddSearchCountsOnce(st: Store, query: string, resultCount: int, successful: bool, now: int)
    requires OrderedMap.Valid(st.patterns) && !IsBlank(query) && |st.history| < MaxHistorySize
    ensures TotalFrequency(AddSearch(st, query, resultCount, successful, now).history) == TotalFrequency(st.history) + 1
  {
    TouchCountsOnce(st.history, Trim(query), DetectSearchType(Trim(query)), resultCount, successful, now);
  }

  // ---------------------------------------------------------------------------------------
  // Key-value patterns

  /** The lower-cased key and the value a key-value search records, when `^(.+?):(.+)$`
      matches and neither trimmed part is empty. */
  function PatternParts(query: string): (r: Option<(string, string)>)
    ensures r.Some? ==> r.value.0 != [] && r.value.1 != []
    ensures r.Some? ==> exists key, value ::
      IsKeyValueMatch(query, key, value, false) && r.value == (Lower(Trim(key)), Trim(value))
    ensures r.None? ==> forall key, value ::
      IsKeyValueMatch(query, key, value, false) ==> Lower(Trim(key)) == [] || Trim(value) == []
  {
    match SplitKeyValue(query, false)
    case None =>
      forall key, value | IsKeyValueMatch(query, key, value, false) ensures false {
        SplitKeyValueMatches(query, false, key, value);
      }
      None
    case Some(parts) =>
      SplitKeyValueMatches(query, false, parts.0, parts.1);
      forall key, value | IsKeyValueMatch(query, key, value, false) ensures key == parts.0 && value == parts.1 {
        SplitKeyValueMatches(query, false, key, value);
      }
      var key := Lower(Trim(parts.0));
      var value := Trim(parts.1);
      if key == [] || value == [] then None else Some((key, value))
  }

  /** A pattern as kept: stored under its own key, with at least one value, no value twice and
      no empty value. */
  predicate PatternWellFormed(k: string, p: Pattern) {
    p.key == k && |p.values| > 0 && NoDuplicates(p.values) && forall i :: 0 <= i < |p.values| ==> p.values[i] != []
  }

  predicate PatternsWellFormed(ps: OrderedMap.OMap<Pattern>) {
    forall k :: k in ps.entries ==> PatternWellFormed(k, ps.entries[k])
  }

  /** The pattern of `key` once `value` is seen at time `now`: the value is appended unless
      already known, and the key is counted once more. */
  function Learnt(ps: OrderedMap.OMap<Pattern>, key: string, value: string, now: int): (p: Pattern)
    ensures p.lastUsed == now
    ensures p.frequency == if key in ps.entries then ps.entries[key].frequency + 1 else 1
    ensures forall v :: v in p.values <==> v == value || (key in ps.entries && v in ps.entries[key].values)
    ensures key in ps.entries ==> ps.entries[key].values <= p.values
    ensures value != [] && (key in ps.entries ==> PatternWellFormed(key, ps.entries[key])) ==> PatternWellFormed(key, p)
  {
    if key in ps.entries then
      var p := ps.entries[key];
      var values := if value in p.values then p.values else p.values + [value];
      p.(values := values, frequency := p.frequency + 1, lastUsed := now)
    else
      Pattern(key, [value], 1, now)
  }

  /** `extractKeyValuePattern(query)` at time `now`: only the key of the query changes, and a
      new key joins the end of the key order. */
  function RecordPattern(ps: OrderedMap.OMap<Pattern>, query: string, now: int): (r: OrderedMap.OMap<Pattern>)
    requires OrderedMap.Valid(ps)
    ensures OrderedMap.Valid(r)
    ensures PatternParts(query).None? ==> r == ps
    ensures PatternParts(query).Some? ==>
      var key := PatternParts(query).value.0;
      r.entries == ps.entries[key := Learnt(ps, key, PatternParts(query).value.1, now)] &&
      r.keys == (if key in ps.entries then ps.keys else ps.keys + [key])
    ensures PatternsWellFormed(ps) ==> PatternsWellFormed(r)
  {
    match PatternParts(query)
    case None => ps
    case Some((key, value)) => OrderedMap.Set(ps, key, Learnt(ps, key, value, now))
  }

  // ---------------------------------------------------------------------------------------
  // Suggestions

  function AsSuggestion(e: SearchEntry, c: Category): Suggestion {
    Suggestion(e.query, e.kind, e.frequency, e.timestamp, e.resultCount, c)
  }

  function AsSuggestions(es: seq<SearchEntry>, c: Category): (r: seq<Suggestion>)
    ensures |r| == |es| && forall i :: 0 <= i < |es| ==> r[i] == AsSuggestion(es[i], c)
  {
    seq(|es|, i requires 0 <= i < |es| => AsSuggestion(es[i], c))
  }

  function IsSuccessful(): SearchEntry -> bool {
    (e: SearchEntry) => e.successful
  }

  function InCategory(c: Category): Suggestion -> bool {
    (s: Suggestion) => s.category == c
  }

  /** `r` shows in category `c`, in history order, the entries of some prefix of `h` that
      satisfy `p`: the first `|r|` such entries and no others. */
  ghost predicate ShowsLeading(r: seq<Suggestion>, h: seq<SearchEntry>, p: SearchEntry -> bool, c: Category) {
    exists j :: 0 <= j <= |h| && r == AsSuggestions(Filter(h[..j], p), c)
  }

  lemma ShowingLeading(shown: seq<SearchEntry>, h: seq<SearchEntry>, p: SearchEntry -> bool, c: Category)
    requires LeadingMatches(shown, h, p)
    ensures ShowsLeading(AsSuggestions(shown, c), h, p, c)
  {
    var j :| 0 <= j <= |h| && shown == Filter(h[..j], p);
  }

  /** The length of such a selection fixes it: two of the same length are equal. */
  lemma ShowsLeadingDetermined(a: seq<Suggestion>, b: seq<Suggestion>, h: seq<SearchEntry>, p: SearchEntry -> bool, c: Category)
    requires ShowsLeading(a, h, p, c) && ShowsLeading(b, h, p, c) && |a| == |b|
    ensures a == b
  {
    var ja :| 0 <= ja <= |h| && a == AsSuggestions(Filter(h[..ja], p), c);
    var jb :| 0 <= jb <= |h| && b == AsSuggestions(Filter(h[..jb], p), c);
    assert LeadingMatches(Filter(h[..ja], p), h, p);
    assert LeadingMatches(Filter(h[..jb], p), h, p);
    LeadingMatchesDetermined(Filter(h[..ja], p), Filter(h[..jb], p), h, p);
  }

  /** `s` shows a successful search of the history. */
  predicate SuccessfulIn(h: seq<SearchEntry>, s: Suggestion) {
    exists e :: e in h && e.successful && s == AsSuggestion(e, Recent)
  }

  /** `getRecentSearches(limit)`: the latest successful searches, as many as the limit allows
      (a negative limit leaves out that many from the end, as `slice` does). */
  function RecentSearches(st: Store, limit: int): (r: seq<Suggestion>)
    ensures limit >= 0 ==>
      |r| == if limit < Count(st.history, IsSuccessful()) then limit else Count(st.history, IsSuccessful())
    ensures limit < 0 ==>
      |r| == if Count(st.history, IsSuccessful()) + limit > 0 then Count(st.history, IsSuccessful()) + limit else 0
    ensures ShowsLeading(r, st.history, IsSuccessful(), Recent)
    ensures forall i :: 0 <= i < |r| ==> r[i].category == Recent && SuccessfulIn(st.history, r[i])
  {
    var successful := Filter(st.history, IsSuccessful());
    var shown := SliceTo(successful, limit);
    FilterPrefixIsLeading(st.history, IsSuccessful(), |shown|);
    ShowingLeading(shown, st.history, IsSuccessful(), Recent);
    forall i | 0 <= i < |shown| ensures shown[i] in st.history && shown[i].successful {
      assert shown[i] == successful[i];
    }
    AsSuggestions(shown, Recent)
  }

  /** `s` shows a search of the history whose lower-cased text starts with `q`. */
  predicate RecentMatch(h: seq<SearchEntry>, q: string, s: Suggestion) {
    exists e :: e in h && StartsWith(Lower(e.query), q) && s == AsSuggestion(e, Recent)
  }

  /** `s` shows a search of the history made more than twice whose lower-cased text
      contains `q`. */
  predicate FrequentMatch(h: seq<SearchEntry>, q: string, s: Suggestion) {
    exists e :: e in h && e.frequency > 2 && Contains(Lower(e.query), q) && s == AsSuggestion(e, Frequent)
  }

  function PrefixOf(q: string): SearchEntry -> bool {
    (e: SearchEntry) => StartsWith(Lower(e.query), q)
  }

  /** The first three searches, most recent first, whose text starts with `q`. */
  function ExactMatches(h: seq<SearchEntry>, q: string): (r: seq<Suggestion>)
    ensures |r| == if Count(h, PrefixOf(q)) < 3 then Count(h, PrefixOf(q)) else 3
    ensures ShowsLeading(r, h, PrefixOf(q), Recent)
    ensures forall i :: 0 <= i < |r| ==> r[i].category == Recent && RecentMatch(h, q, r[i])
  {
    var matches := Filter(h, PrefixOf(q));
    var shown := Take(matches, 3);
    TakeFilterLeading(h, PrefixOf(q), 3);
    ShowingLeading(shown, h, PrefixOf(q), Recent);
    forall i | 0 <= i < |shown| ensures RecentMatch(h, q, AsSuggestion(shown[i], Recent)) {
      assert shown[i] == matches[i];
    }
    AsSuggestions(shown, Recent)
  }

  /** A frequent search matching `q` whose text no suggestion taken so far has. */
  function FrequentFor(q: string, taken: seq<Suggestion>): SearchEntry -> bool {
    (e: SearchEntry) =>
      e.frequency > 2 && Contains(Lower(e.query), q) && forall i :: 0 <= i < |taken| ==> taken[i].query != e.query
  }

  /** The first two frequent searches containing `q` whose text is not already suggested. */
  function FrequentMatches(h: seq<SearchEntry>, q: string, taken: seq<Suggestion>): (r: seq<Suggestion>)
    ensures |r| == if Count(h, FrequentFor(q, taken)) < 2 then Count(h, FrequentFor(q, taken)) else 2
    ensures ShowsLeading(r, h, FrequentFor(q, taken), Frequent)
    ensures forall i :: 0 <= i < |r| ==> r[i].category == Frequent && FrequentMatch(h, q, r[i])
    ensures forall i, j :: 0 <= i < |r| && 0 <= j < |taken| ==> r[i].query != taken[j].query
  {
    var matches := Filter(h, FrequentFor(q, taken));
    var shown := Take(matches, 2);
    TakeFilterLeading(h, FrequentFor(q, taken), 2);
    ShowingLeading(shown, h, FrequentFor(q, taken), Frequent);
    forall i | 0 <= i < |shown|
      ensures FrequentMatch(h, q, AsSuggestion(shown[i], Frequent)) && FrequentFor(q, taken)(shown[i])
    {
      assert shown[i] == matches[i];
    }
    AsSuggestions(shown, Frequent)
  }

  function KeyStartsWith(q: string): string -> bool {
    (k: string) => StartsWith(k, q)
  }

  function ValueStartsWith(partial: string): string -> bool {
    (v: string) => StartsWith(Lower(v), partial)
  }

  /** `pattern.values[0] || ""`. */
  function MostCommonValue(p: Pattern): string {
    if |p.values| > 0 then p.values[0] else ""
  }

  /** A completion offered by the completer: a key-value search that has no result count. */
  predicate IsCompletion(s: Suggestion) {
    s.category == Suggested && s.kind == KeyValue && s.resultCount == 0
  }

  function KeySuggestion(ps: OrderedMap.OMap<Pattern>, key: string): (s: Suggestion)
    requires key in ps.entries
    ensures IsCompletion(s)
  {
    var p := ps.entries[key];
    Suggestion(key + ":" + MostCommonValue(p), KeyValue, p.frequency, p.lastUsed, 0, Suggested)
  }

  /** `s` completes a known key starting with `q` by the key's first value. */
  predicate CompletesKey(ps: OrderedMap.OMap<Pattern>, q: string, s: Suggestion) {
    exists k :: k in ps.entries && StartsWith(k, q) && s == KeySuggestion(ps, k)
  }

  /** `r` completes each of `keys`, in order. */
  predicate CompletesEach(ps: OrderedMap.OMap<Pattern>, keys: seq<string>, r: seq<Suggestion>) {
    |r| == |keys| && forall i :: 0 <= i < |r| ==> keys[i] in ps.entries && r[i] == KeySuggestion(ps, keys[i])
  }

  /** `r` completes, in learnt order, the keys starting with `q` among some prefix of the learnt
      keys: the first `|r|` such keys and no others. */
  ghost predicate CompletesLeadingKeys(ps: OrderedMap.OMap<Pattern>, q: string, r: seq<Suggestion>) {
    exists j :: 0 <= j <= |ps.keys| && CompletesEach(ps, Filter(ps.keys[..j], KeyStartsWith(q)), r)
  }

  lemma CompletingLeadingKeys(ps: OrderedMap.OMap<Pattern>, q: string, keys: seq<string>, r: seq<Suggestion>)
    requires LeadingMatches(keys, ps.keys, KeyStartsWith(q)) && CompletesEach(ps, keys, r)
    ensures CompletesLeadingKeys(ps, q, r)
  {
    var j :| 0 <= j <= |ps.keys| && keys == Filter(ps.keys[..j], KeyStartsWith(q));
  }

  /** `getKeySuggestions(q)`: the first three known keys, in the order they were learnt, that
      start with `q`, each completed with its first value. */
  function KeySuggestions(ps: OrderedMap.OMap<Pattern>, q: string): (r: seq<Suggestion>)
    requires OrderedMap.Valid(ps)
    ensures |r| == if Count(ps.keys, KeyStartsWith(q)) < 3 then Count(ps.keys, KeyStartsWith(q)) else 3
    ensures CompletesLeadingKeys(ps, q, r)
    ensures forall i :: 0 <= i < |r| ==> IsCompletion(r[i]) && CompletesKey(ps, q, r[i])
  {
    var keys := Take(Filter(ps.keys, KeyStartsWith(q)), 3);
    assert forall i :: 0 <= i < |keys| ==> keys[i] in ps.keys && StartsWith(keys[i], q);
    KeysComplete(ps, q, keys);
    TakeFilterLeading(ps.keys, KeyStartsWith(q), 3);
    var r := seq(|keys|, i requires 0 <= i < |keys| => KeySuggestion(ps, keys[i]));
    CompletingLeadingKeys(ps, q, keys, r);
    r
  }

  lemma KeysComplete(ps: OrderedMap.OMap<Pattern>, q: string, keys: seq<string>)
    requires forall i :: 0 <= i < |keys| ==> keys[i] in ps.entries && StartsWith(keys[i], q)
    ensures forall i :: 0 <= i < |keys| ==> CompletesKey(ps, q, KeySuggestion(ps, keys[i]))
  {
    forall i | 0 <= i < |keys| ensures CompletesKey(ps, q, KeySuggestion(ps, keys[i])) {
      var k := keys[i];
      assert k in ps.entries && StartsWith(k, q);
    }
  }

  /** The completion of `key:` by `value` that `getKeyValueSuggestions` offers. */
  function ValueSuggestion(key: string, p: Pattern, value: string): (s: Suggestion)
    ensures IsCompletion(s)
  {
    Suggestion(key + ":" + value, KeyValue, p.frequency, p.lastUsed, 0, Suggested)
  }

  /** Up to five values of `p`, in the order they were learnt, whose lower-cased text starts
      with `partial`, each completing `key:`. */
  function ValueCompletions(key: string, p: Pattern, partial: string): (r: seq<Suggestion>)
    ensures |r| == if Count(p.values, ValueStartsWith(partial)) < 5 then Count(p.values, ValueStartsWith(partial)) else 5
    ensures CompletesLeadingValues(key, p, partial, r)
    ensures forall i :: 0 <= i < |r| ==> IsCompletion(r[i])
    ensures forall i :: 0 <= i < |r| ==>
      exists v :: v in p.values && StartsWith(Lower(v), partial) && r[i] == ValueSuggestion(key, p, v)
  {
    var values := FirstMatchingValues(p, partial);
    var r := Completing(key, p, values);
    CompletingLeadingValues(key, p, partial, values);
    forall i | 0 <= i < |r|
      ensures exists v :: v in p.values && StartsWith(Lower(v), partial) && r[i] == ValueSuggestion(key, p, v)
    {
      assert r[i] == ValueSuggestion(key, p, values[i]);
    }
    r
  }

  /** `r` completes `key:`, in learnt order, by the values starting with `partial` among some
      prefix of the pattern's values: the first `|r|` such values and no others. */
  ghost predicate CompletesLeadingValues(key: string, p: Pattern, partial: string, r: seq<Suggestion>) {
    exists j :: 0 <= j <= |p.values| && r == Completing(key, p, Filter(p.values[..j], ValueStartsWith(partial)))
  }

  lemma CompletingLeadingValues(key: string, p: Pattern, partial: string, values: seq<string>)
    requires LeadingMatches(values, p.values, ValueStartsWith(partial))
    ensures CompletesLeadingValues(key, p, partial, Completing(key, p, values))
  {
    var j :| 0 <= j <= |p.values| && values == Filter(p.values[..j], ValueStartsWith(partial));
  }

  /** The completion of `key:` by each of `values`, in order. */
  function Completing(key: string, p: Pattern, values: seq<string>): (r: seq<Suggestion>)
    ensures |r| == |values|
    ensures forall i :: 0 <= i < |r| ==> r[i] == ValueSuggestion(key, p, values[i])
  {
    if |values| == 0 then [] else [ValueSuggestion(key, p, values[0])] + Completing(key, p, values[1..])
  }

  /** The first five values of `p` whose lower-cased text starts with `partial`. */
  function FirstMatchingValues(p: Pattern, partial: string): (values: seq<string>)
    ensures |values| == if Count(p.values, ValueStartsWith(partial)) < 5 then Count(p.values, ValueStartsWith(partial)) else 5
    ensures LeadingMatches(values, p.values, ValueStartsWith(partial))
    ensures forall i :: 0 <= i < |values| ==> values[i] in p.values && StartsWith(Lower(values[i]), partial)
  {
    var kept := Filter(p.values, ValueStartsWith(partial));
    var values := Take(kept, 5);
    TakeFilterLeading(p.values, ValueStartsWith(partial), 5);
    forall i | 0 <= i < |values| ensures values[i] in p.values && StartsWith(Lower(values[i]), partial) {
      assert values[i] == kept[i];
      assert ValueStartsWith(partial)(kept[i]);
    }
    values
  }

  /** `getKeyValueSuggestions(q)`: for `key:partial` (`^(.+?):(.*)$`), the completions the
      trimmed key's pattern offers; nothing when the query does not split or the key is
      unknown. */
  function KeyValueSuggestions(ps: OrderedMap.OMap<Pattern>, q: string): (r: seq<Suggestion>)
    ensures |r| <= 5
    ensures forall i :: 0 <= i < |r| ==> IsCompletion(r[i])
    ensures SplitKeyValue(q, true).None? ==> r == []
    ensures SplitKeyValue(q, true).Some? ==>
      var parts := SplitKeyValue(q, true).value;
      r == if Lower(Trim(parts.0)) in ps.entries then ValueCompletions(parts.0, ps.entries[Lower(Trim(parts.0))], Lower(parts.1)) else []
  {
    match SplitKeyValue(q, true)
    case None => []
    case Some(parts) =>
      var normalized := Lower(Trim(parts.0));
      if normalized !in ps.entries then [] else ValueCompletions(parts.0, ps.entries[normalized], Lower(parts.1))
  }

  /** The key or key-value completions for the query `q`. */
  function Completions(ps: OrderedMap.OMap<Pattern>, q: string): (r: seq<Suggestion>)
    requires OrderedMap.Valid(ps)
    ensures forall i :: 0 <= i < |r| ==> IsCompletion(r[i])
  {
    if ':' in q then KeyValueSuggestions(ps, q) else KeySuggestions(ps, q)
  }

  /** Where a suggestion for `q` comes from, by category. */
  predicate Origin(st: Store, q: string, s: Suggestion) {
    match s.category
    case Recent => RecentMatch(st.history, q, s)
    case Frequent => FrequentMatch(st.history, q, s)
    case Suggested => IsCompletion(s)
  }

  /** The prefix matches, completions and frequent searches for the lower-cased, trimmed,
      non-blank query `q`, before ordering. */
  function Candidates(st: Store, q: string): (r: seq<Suggestion>)
    requires OrderedMap.Valid(st.patterns)
    ensures Count(r, InCategory(Recent)) <= 3 && Count(r, InCategory(Frequent)) <= 2
    ensures forall s :: s in r ==> Origin(st, q, s)
    ensures forall a, b :: a in r && b in r && a.category == Frequent && b.category != Frequent ==> a.query != b.query
    ensures Filter(r, InCategory(Recent)) == ExactMatches(st.history, q)
    ensures Filter(r, InCategory(Suggested)) == Completions(st.patterns, q)
    ensures Filter(r, InCategory(Frequent)) ==
      FrequentMatches(st.history, q, ExactMatches(st.history, q) + Completions(st.patterns, q))
  {
    var exact := ExactMatches(st.history, q);
    var completions := Completions(st.patterns, q);
    var frequent := FrequentMatches(st.history, q, exact + completions);
    CandidateCounts(exact, completions, frequent);
    CandidateGroups(exact, completions, frequent);
    CandidateOrigins(st, q, exact, completions, frequent);
    FrequentKeptApart(exact, completions, frequent);
    exact + completions + frequent
  }

  lemma CandidateOrigins(st: Store, q: string, exact: seq<Suggestion>, completions: seq<Suggestion>, frequent: seq<Suggestion>)
    requires forall i :: 0 <= i < |exact| ==> exact[i].category == Recent && RecentMatch(st.history, q, exact[i])
    requires forall i :: 0 <= i < |completions| ==> IsCompletion(completions[i])
    requires forall i :: 0 <= i < |frequent| ==> frequent[i].category == Frequent && FrequentMatch(st.history, q, frequent[i])
    ensures forall s :: s in exact + completions + frequent ==> Origin(st, q, s)
  {
    forall s | s in exact + completions + frequent ensures Origin(st, q, s) {
      if s in frequent {
        var i :| 0 <= i < |frequent| && frequent[i] == s;
      } else if s in exact {
        var i :| 0 <= i < |exact| && exact[i] == s;
      } else {
        assert s in completions;
        var i :| 0 <= i < |completions| && completions[i] == s;
      }
    }
  }

  /** Frequent searches picked against the suggestions taken before them share no text with
      those, wherever they end up. */
  lemma FrequentKeptApart(exact: seq<Suggestion>, completions: seq<Suggestion>, frequent: seq<Suggestion>)
    requires forall i :: 0 <= i < |frequent| ==> frequent[i].category == Frequent
    requires forall i :: 0 <= i < |exact| ==> exact[i].category == Recent
    requires forall i :: 0 <= i < |completions| ==> IsCompletion(completions[i])
    requires forall i, j :: 0 <= i < |frequent| && 0 <= j < |exact + completions| ==>
      frequent[i].query != (exact + completions)[j].query
    ensures var all := exact + completions + frequent;
      forall a, b :: a in all && b in all && a.category == Frequent && b.category != Frequent ==> a.query != b.query
  {
    var taken := exact + completions;
    forall a, b | a in taken + frequent && b in taken + frequent && a.category == Frequent && b.category != Frequent
      ensures a.query != b.query
    {
      assert a !in exact && a !in completions;
      assert b !in frequent;
      var i :| 0 <= i < |frequent| && frequent[i] == a;
      var j :| 0 <= j < |taken| && taken[j] == b;
    }
  }

  /** Filtering three joined groups filters each. */
  lemma FilterThree(a: seq<Suggestion>, b: seq<Suggestion>, c: seq<Suggestion>, p: Suggestion -> bool)
    ensures Filter(a + b + c, p) == Filter(a, p) + Filter(b, p) + Filter(c, p)
  {
    FilterAppend(a + b, c, p);
    FilterAppend(a, b, p);
  }

  /** Each category of the gathered candidates is exactly its group. */
  lemma CandidateGroups(exact: seq<Suggestion>, completions: seq<Suggestion>, frequent: seq<Suggestion>)
    requires forall i :: 0 <= i < |exact| ==> exact[i].category == Recent
    requires forall i :: 0 <= i < |completions| ==> completions[i].category == Suggested
    requires forall i :: 0 <= i < |frequent| ==> frequent[i].category == Frequent
    ensures Filter(exact + completions + frequent, InCategory(Recent)) == exact
    ensures Filter(exact + completions + frequent, InCategory(Suggested)) == completions
    ensures Filter(exact + completions + frequent, InCategory(Frequent)) == frequent
  {
    RecentGroup(exact, completions, frequent);
    SuggestedGroup(exact, completions, frequent);
    FrequentGroup(exact, completions, frequent);
  }

  lemma RecentGroup(exact: seq<Suggestion>, completions: seq<Suggestion>, frequent: seq<Suggestion>)
    requires forall i :: 0 <= i < |exact| ==> exact[i].category == Recent
    requires forall i :: 0 <= i < |completions| ==> completions[i].category == Suggested
    requires forall i :: 0 <= i < |frequent| ==> frequent[i].category == Frequent
    ensures Filter(exact + completions + frequent, InCategory(Recent)) == exact
  {
    FilterThree(exact, completions, frequent, InCategory(Recent));
    FilterAll(exact, InCategory(Recent));
    FilterNone(completions, InCategory(Recent));
    FilterNone(frequent, InCategory(Recent));
  }

  lemma SuggestedGroup(exact: seq<Suggestion>, completions: seq<Suggestion>, frequent: seq<Suggestion>)
    requires forall i :: 0 <= i < |exact| ==> exact[i].category == Recent
    requires forall i :: 0 <= i < |completions| ==> completions[i].category == Suggested
    requires forall i :: 0 <= i < |frequent| ==> frequent[i].category == Frequent
    ensures Filter(exact + completions + frequent, InCategory(Suggested)) == completions
  {
    FilterThree(exact, completions, frequent, InCategory(Suggested));
    FilterNone(exact, InCategory(Suggested));
    FilterAll(completions, InCategory(Suggested));
    FilterNone(frequent, InCategory(Suggested));
  }

  lemma FrequentGroup(exact: seq<Suggestion>, completions: seq<Suggestion>, frequent: seq<Suggestion>)
    requires forall i :: 0 <= i < |exact| ==> exact[i].category == Recent
    requires forall i :: 0 <= i < |completions| ==> completions[i].category == Suggested
    requires forall i :: 0 <= i < |frequent| ==> frequent[i].category == Frequent
    ensures Filter(exact + completions + frequent, InCategory(Frequent)) == frequent
  {
    FilterThree(exact, completions, frequent, InCategory(Frequent));
    FilterNone(exact, InCategory(Frequent));
    FilterNone(completions, InCategory(Frequent));
    FilterAll(frequent, InCategory(Frequent));
  }

  /** The category counts of the three candidate groups. */
  lemma CandidateCounts(exact: seq<Suggestion>, completions: seq<Suggestion>, frequent: seq<Suggestion>)
    requires |exact| <= 3 && |frequent| <= 2
    requires forall i :: 0 <= i < |exact| ==> exact[i].category == Recent
    requires forall i :: 0 <= i < |completions| ==> completions[i].category == Suggested
    requires forall i :: 0 <= i < |frequent| ==> frequent[i].category == Frequent
    ensures Count(exact + completions + frequent, InCategory(Recent)) <= 3
    ensures Count(exact + completions + frequent, InCategory(Frequent)) <= 2
  {
    FilterAppend(exact + completions, frequent, InCategory(Recent));
    FilterAppend(exact, completions, InCategory(Recent));
    FilterNone(completions, InCategory(Recent));
    FilterNone(frequent, InCategory(Recent));
    FilterAppend(exact + completions, frequent, InCategory(Frequent));
    FilterAppend(exact, completions, InCategory(Frequent));
    FilterNone(exact, InCategory(Frequent));
    FilterNone(completions, InCategory(Frequent));
  }

  function CategoryPriority(c: Category): int {
    match c
    case Recent => 3
    case Frequent => 2
    case Suggested => 1
  }

  /** The comparator of `getSuggestions`: category first, then `0.7 * frequency +
      0.3 * lastUsed / 10^6`, here scaled by 10^7 to stay in the integers. */
  function ByCategory(s: Suggestion): Rank {
    Rank(CategoryPriority(s.category), 7000000 * s.frequency + 3 * s.lastUsed)
  }

  /** Ordering and then cutting to the limit keeps the order, adds nothing and counts no
      category up. */
  lemma OrderedPrefix(c: seq<Suggestion>, limit: int)
    ensures var r := SliceTo(Sort(c, ByCategory), limit);
      SortedDesc(r, ByCategory) && (forall s :: s in r ==> s in c) &&
      Count(r, InCategory(Recent)) <= Count(c, InCategory(Recent)) &&
      Count(r, InCategory(Frequent)) <= Count(c, InCategory(Frequent))
  {
    var sorted := Sort(c, ByCategory);
    var r := SliceTo(sorted, limit);
    SortSorted(c, ByCategory);
    SortCount(c, ByCategory, InCategory(Recent));
    SortCount(c, ByCategory, InCategory(Frequent));
    CountPrefix(sorted, |r|, InCategory(Recent));
    CountPrefix(sorted, |r|, InCategory(Frequent));
    forall s | s in r ensures s in c {
      assert s in multiset(sorted);
    }
  }

  /** Recent suggestions rank above all others, so a sorted list holds them at its front and
      any prefix of it keeps as many of them as fit. */
  lemma {:induction false} RecentLead(t: seq<Suggestion>, n: nat)
    requires SortedDesc(t, ByCategory) && n <= |t|
    ensures Count(t[..n], InCategory(Recent)) ==
      if n < Count(t, InCategory(Recent)) then n else Count(t, InCategory(Recent))
  {
    if n == 0 {
      assert t[..n] == [];
    } else if t[0].category == Recent {
      var rest := t[1..];
      assert SortedDesc(rest, ByCategory) by {
        forall i, j | 0 <= i < j < |rest| ensures RankGe(ByCategory(rest[i]), ByCategory(rest[j])) {
          assert rest[i] == t[i + 1] && rest[j] == t[j + 1];
        }
      }
      RecentLead(rest, n - 1);
      assert t[..n][1..] == rest[..n - 1];
      assert t[..n][0] == t[0];
    } else {
      forall i | 0 <= i < |t| ensures !InCategory(Recent)(t[i]) {
        if i > 0 {
          assert RankGe(ByCategory(t[0]), ByCategory(t[i]));
        }
      }
      FilterNone(t, InCategory(Recent));
      forall i | 0 <= i < n ensures !InCategory(Recent)(t[..n][i]) {
        assert t[..n][i] == t[i];
      }
      FilterNone(t[..n], InCategory(Recent));
    }
  }

  /** `getSuggestions(currentQuery, limit)`: for a blank query the recent searches; otherwise
      at most `limit` of the gathered candidates, ordered by category and score: as many recent
      prefix matches as fit (at most three), every candidate when the limit allows, and at
      most two frequent searches whose text no other suggestion has. */
  function GetSuggestions(st: Store, currentQuery: string, limit: int): (r: seq<Suggestion>)
    requires OrderedMap.Valid(st.patterns)
    ensures IsBlank(currentQuery) ==> r == RecentSearches(st, limit)
    ensures limit >= 0 ==> |r| <= limit
    ensures !IsBlank(currentQuery) ==> SortedDesc(r, ByCategory)
    ensures !IsBlank(currentQuery) ==> Count(r, InCategory(Recent)) <= 3 && Count(r, InCategory(Frequent)) <= 2
    ensures !IsBlank(currentQuery) ==> forall s :: s in r ==> Origin(st, Lower(Trim(currentQuery)), s)
    ensures !IsBlank(currentQuery) ==>
      forall a, b :: a in r && b in r && a.category == Frequent && b.category != Frequent ==> a.query != b.query
    ensures !IsBlank(currentQuery) ==> forall s :: s in r ==> s in Candidates(st, Lower(Trim(currentQuery)))
    ensures !IsBlank(currentQuery) && limit >= |Candidates(st, Lower(Trim(currentQuery)))| ==>
      multiset(r) == multiset(Candidates(st, Lower(Trim(currentQuery))))
    ensures !IsBlank(currentQuery) && limit >= 0 ==>
      var matches := Count(st.history, PrefixOf(Lower(Trim(currentQuery))));
      var recent := if matches < 3 then matches else 3;
      Count(r, InCategory(Recent)) == if limit < recent then limit else recent
    ensures !IsBlank(currentQuery) && limit >= 0 ==>
      |r| == if limit < |Candidates(st, Lower(Trim(currentQuery)))| then limit
             else |Candidates(st, Lower(Trim(currentQuery)))|
    ensures !IsBlank(currentQuery) ==> multiset(r) <= multiset(Candidates(st, Lower(Trim(currentQuery))))
    ensures !IsBlank(currentQuery) ==>
      forall s, c :: s in r && c in multiset(Candidates(st, Lower(Trim(currentQuery)))) - multiset(r) ==>
        RankGe(ByCategory(s), ByCategory(c))
  {
    TrimEmptyIffBlank(currentQuery);
    var q := Lower(Trim(currentQuery));
    if q == [] then RecentSearches(st, limit)
    else
      var candidates := Candidates(st, q);
      OrderedPrefix(candidates, limit);
      var sorted := Sort(candidates, ByCategory);
      var r := SliceTo(sorted, limit);
      SortSorted(candidates, ByCategory);
      SortCount(candidates, ByCategory, InCategory(Recent));
      RecentLead(sorted, |r|);
      TopDominates(candidates, ByCategory, |r|);
      r
  }

  // ---------------------------------------------------------------------------------------
  // Removal, statistics, storage

  function OtherQuery(query: string): SearchEntry -> bool {
    (e: SearchEntry) => e.query != query
  }

  function IsQuery(query: string): SearchEntry -> bool {
    (e: SearchEntry) => e.query == query
  }

  /** Two entries recording different searches. */
  function Distinguished(): (SearchEntry, SearchEntry) -> bool {
    (a: SearchEntry, b: SearchEntry) => !SameSearch(a, b.query, b.kind)
  }

  /** `removeSearch(query)`: every entry with exactly this text (case-sensitive) goes; the
      patterns stay. */
  function RemoveSearch(st: Store, query: string): (r: Store)
    ensures r.patterns == st.patterns
    ensures forall e :: e in r.history <==> e in st.history && e.query != query
    ensures |r.history| + |Filter(st.history, IsQuery(query))| == |st.history|
    ensures r.history == Filter(st.history, OtherQuery(query))
  {
    FilterComplement(st.history, OtherQuery(query), IsQuery(query));
    Store(Filter(st.history, OtherQuery(query)), st.patterns)
  }

  /** Removing a search keeps the history free of repeats. */
  lemma RemoveSearchKeepsUnique(st: Store, query: string)
    requires Unique(st.history)
    ensures Unique(RemoveSearch(st, query).history)
  {
    FilterPairwise(st.history, OtherQuery(query), Distinguished());
  }

  /** Removing twice is removing once. */
  lemma RemoveSearchIdempotent(st: Store, query: string)
    ensures RemoveSearch(RemoveSearch(st, query), query) == RemoveSearch(st, query)
  {
    var h := RemoveSearch(st, query).history;
    FilterAll(h, OtherQuery(query));
  }

  /** `clearHistory()`. */
  function ClearHistory(st: Store): (r: Store)
    ensures r.history == [] && r.patterns.keys == [] && r.patterns.entries == map[]
    ensures OrderedMap.Valid(r.patterns)
  {
    Store([], OrderedMap.Empty())
  }

  function IsKind(kind: SearchType): SearchEntry -> bool {
    (e: SearchEntry) => e.kind == kind
  }

  /** `getStats()` without the floating-point success rate. */
  datatype Stats = Stats(
    totalEntries: nat, totalSearches: int, successfulSearches: nat, keyValueSearches: nat, simpleSearches: int,
    uniqueKeys: nat)

  function GetStats(st: Store): (r: Stats)
    requires OrderedMap.Valid(st.patterns)
    ensures r.totalEntries == |st.history|
    ensures r.simpleSearches == Count(st.history, IsKind(Simple))
    ensures r.keyValueSearches + r.simpleSearches == r.totalEntries
    ensures r.successfulSearches <= r.totalEntries
    ensures r.uniqueKeys == |st.patterns.entries|
    ensures r.totalSearches == TotalFrequency(st.history)
    ensures r.successfulSearches == Count(st.history, IsSuccessful())
  {
    var keyValue := Count(st.history, IsKind(KeyValue));
    FilterComplement(st.history, IsKind(KeyValue), IsKind(Simple));
    OrderedMap.KeysCount(st.patterns);
    Stats(|st.history|, TotalFrequency(st.history), Count(st.history, IsSuccessful()), keyValue,
      |st.history| - keyValue, |st.patterns.keys|)
  }

  /** The stored copy: the history and the pattern map's entries. */
  datatype Snapshot = Snapshot(history: seq<SearchEntry>, patterns: seq<(string, Pattern)>)

  function Recent30(now: int): SearchEntry -> bool {
    (e: SearchEntry) => e.timestamp > now - ThirtyDaysMs
  }

  /** Pair `i` is the last one with its key, so it holds the value `new Map` keeps. */
  predicate LastPair(pairs: seq<(string, Pattern)>, i: int)
    requires 0 <= i < |pairs|
  {
    forall j :: i < j < |pairs| ==> pairs[j].0 != pairs[i].0
  }

  /** `new Map(entries)`: later duplicates overwrite the value, the first keeps the place. */
  function MapFrom(pairs: seq<(string, Pattern)>): (r: OrderedMap.OMap<Pattern>)
    ensures OrderedMap.Valid(r)
    ensures forall k :: k in r.entries <==> exists i :: 0 <= i < |pairs| && pairs[i].0 == k
  {
    if |pairs| == 0 then OrderedMap.Empty()
    else
      var init := MapFrom(pairs[..|pairs| - 1]);
      var last := pairs[|pairs| - 1];
      assert forall i :: 0 <= i < |pairs| - 1 ==> pairs[..|pairs| - 1][i] == pairs[i];
      OrderedMap.Set(init, last.0, last.1)
  }
  /** Each key of `new Map(entries)` holds the value of the last pair with that key. */
  lemma {:induction false} MapFromValues(pairs: seq<(string, Pattern)>)
    ensures forall i :: 0 <= i < |pairs| && LastPair(pairs, i) ==>
      pairs[i].0 in MapFrom(pairs).entries && MapFrom(pairs).entries[pairs[i].0] == pairs[i].1
  {
    if |pairs| > 0 {
      var init := pairs[..|pairs| - 1];
      var last := pairs[|pairs| - 1];
      MapFromValues(init);
      forall i | 0 <= i < |pairs| && LastPair(pairs, i)
        ensures pairs[i].0 in MapFrom(pairs).entries && MapFrom(pairs).entries[pairs[i].0] == pairs[i].1
      {
        if i < |pairs| - 1 {
          assert init[i] == pairs[i];
          assert pairs[i].0 != last.0;
          assert LastPair(init, i);
        }
      }
    }
  }


  /** `loadFromStorage()` at time `now`: nothing stored leaves the store empty; otherwise the
      stored patterns and the searches of the last thirty days are taken over. */
  function LoadFromStorage(stored: Option<Snapshot>, now: int): (r: Store)
    ensures OrderedMap.Valid(r.patterns)
    ensures stored.None? ==> r.history == [] && r.patterns.keys == []
    ensures forall e :: e in r.history ==> e.timestamp > now - ThirtyDaysMs
    ensures stored.Some? ==> forall e :: e in r.history <==> e in stored.value.history && e.timestamp > now - ThirtyDaysMs
    ensures stored.Some? ==> forall k :: k in r.patterns.entries <==>
      exists i :: 0 <= i < |stored.value.patterns| && stored.value.patterns[i].0 == k
    ensures stored.Some? ==> r.history == Filter(stored.value.history, Recent30(now))
    ensures stored.Some? ==> forall i :: 0 <= i < |stored.value.patterns| && LastPair(stored.value.patterns, i) ==>
      r.patterns.entries[stored.value.patterns[i].0] == stored.value.patterns[i].1
  {
    if stored.None? then Store([], OrderedMap.Empty())
    else
      MapFromValues(stored.value.patterns);
      Store(Filter(stored.value.history, Recent30(now)), MapFrom(stored.value.patterns))
  }

  // ---------------------------------------------------------------------------------------
  // Popular keys and values

  function FrequencyOf(ps: OrderedMap.OMap<Pattern>): string -> Rank {
    (k: string) => if k in ps.entries then Rank(ps.entries[k].frequency, 0) else Rank(0, 0)
  }

  /** `getPopularKeys()`: the ten most frequent keys, ties in the order they were learnt. */
  function PopularKeys(ps: OrderedMap.OMap<Pattern>): (r: seq<string>)
    requires OrderedMap.Valid(ps)
    ensures |r| == if |ps.keys| < 10 then |ps.keys| else 10
    ensures forall i :: 0 <= i < |r| ==> r[i] in ps.entries
    ensures SortedDesc(r, FrequencyOf(ps))
    ensures forall k, i :: k in ps.keys && k !in r && 0 <= i < |r| ==>
      ps.entries[r[i]].frequency >= ps.entries[k].frequency
    ensures NoDuplicates(r)
  {
    TopKeys(ps);
    SortedKeysDistinct(ps);
    Take(Sort(ps.keys, FrequencyOf(ps)), 10)
  }

  /** The ten first keys by frequency are known keys, in frequency order, and at least as
      frequent as any key left out. */
  lemma TopKeys(ps: OrderedMap.OMap<Pattern>)
    requires OrderedMap.Valid(ps)
    ensures var r := Take(Sort(ps.keys, FrequencyOf(ps)), 10);
      (forall i :: 0 <= i < |r| ==> r[i] in ps.entries)
      && SortedDesc(r, FrequencyOf(ps))
      && forall k, i :: k in ps.keys && k !in r && 0 <= i < |r| ==>
           ps.entries[r[i]].frequency >= ps.entries[k].frequency
  {
    var sorted := Sort(ps.keys, FrequencyOf(ps));
    SortSorted(ps.keys, FrequencyOf(ps));
    var r := Take(sorted, 10);
    TopKeysKnown(ps, sorted, r);
    TopKeysDominate(ps, sorted, r);
    forall i, j | 0 <= i < j < |r| ensures RankGe(FrequencyOf(ps)(r[i]), FrequencyOf(ps)(r[j])) {
      assert r[i] == sorted[i] && r[j] == sorted[j];
    }
  }

  /** Sorting the keys by frequency repeats none of them, and neither does a prefix. */
  lemma SortedKeysDistinct(ps: OrderedMap.OMap<Pattern>)
    requires OrderedMap.Valid(ps)
    ensures NoDuplicates(Take(Sort(ps.keys, FrequencyOf(ps)), 10))
  {
    var sorted := Sort(ps.keys, FrequencyOf(ps));
    assert NoDuplicates(ps.keys);
    NoDuplicatesMultiset(ps.keys);
    NoDuplicatesMultiset(sorted);
    var r := Take(sorted, 10);
    forall i, j | 0 <= i < j < |r| ensures r[i] != r[j] {
      assert r[i] == sorted[i] && r[j] == sorted[j];
    }
  }

  /** A prefix of the keys sorted by frequency holds known keys only... */
  lemma TopKeysKnown(ps: OrderedMap.OMap<Pattern>, sorted: seq<string>, r: seq<string>)
    requires OrderedMap.Valid(ps)
    requires multiset(sorted) == multiset(ps.keys) && |r| <= |sorted| && r == sorted[..|r|]
    ensures forall i :: 0 <= i < |r| ==> r[i] in ps.entries
  {
    forall i | 0 <= i < |r| ensures r[i] in ps.entries {
      assert r[i] == sorted[i];
      assert sorted[i] in multiset(ps.keys);
    }
  }

  /** ...and no key left out of it is more frequent than one kept. */
  lemma TopKeysDominate(ps: OrderedMap.OMap<Pattern>, sorted: seq<string>, r: seq<string>)
    requires OrderedMap.Valid(ps)
    requires multiset(sorted) == multiset(ps.keys) && |r| <= |sorted| && r == sorted[..|r|]
    requires forall i :: 0 <= i < |r| ==> r[i] in ps.entries
    requires SortedDesc(sorted, FrequencyOf(ps))
    ensures forall k, i :: k in ps.keys && k !in r && 0 <= i < |r| ==>
      ps.entries[r[i]].frequency >= ps.entries[k].frequency
  {
    forall k, i | k in ps.keys && k !in r && 0 <= i < |r|
      ensures ps.entries[r[i]].frequency >= ps.entries[k].frequency
    {
      assert k in multiset(sorted);
      var j :| 0 <= j < |sorted| && sorted[j] == k;
      assert j >= |r|;
      assert r[i] == sorted[i];
      assert RankGe(FrequencyOf(ps)(sorted[i]), FrequencyOf(ps)(sorted[j]));
    }
  }

  /** `getPopularValuesForKey(key)`: the first five values learnt for the key, ignoring case. */
  function PopularValuesForKey(ps: OrderedMap.OMap<Pattern>, key: string): (r: seq<string>)
    ensures Lower(key) !in ps.entries ==> r == []
    ensures Lower(key) in ps.entries ==>
      |r| == (if |ps.entries[Lower(key)].values| < 5 then |ps.entries[Lower(key)].values| else 5) &&
      r == ps.entries[Lower(key)].values[..|r|]
  {
    if Lower(key) in ps.entries then Take(ps.entries[Lower(key)].values, 5) else []
  }

  /** The store as the service keeps it: patterns stored under their own keys, no search
      recorded twice, and at most a hundred searches. */
  ghost predicate WellFormed(st: Store) {
    OrderedMap.Valid(st.patterns) && PatternsWellFormed(st.patterns) && Unique(st.history)
    && |st.history| <= MaxHistorySize
  }

  lemma AddSearchKeepsWellFormed(st: Store, query: string, resultCount: int, successful: bool, now: int)
    requires WellFormed(st)
    ensures WellFormed(AddSearch(st, query, resultCount, successful, now))
  {
    AddSearchKeepsUnique(st, query, resultCount, successful, now);
  }

  lemma RemoveAndClearKeepWellFormed(st: Store, query: string)
    requires WellFormed(st)
    ensures WellFormed(RemoveSearch(st, query)) && WellFormed(ClearHistory(st))
  {
    RemoveSearchKeepsUnique(st, query);
  }
}
