/** The suggestion drop-down of the search bar: keyboard movement of the highlighted row,
    the age shown next to a suggestion, and the grouping of the rows by category. */
module SuggestionList {
  import opened Wrappers
  import opened Text
  import opened Seqs
  import opened Sorting
  import opened SearchHistory
  import OrderedMap

  // ---------------------------------------------------------------------------------------
  // Keyboard

  datatype Key = ArrowDown | ArrowUp | Enter | Escape | OtherKey

  /** The highlighted row after a key press, and the query chosen by it, if any. */
  datatype KeyOutcome = KeyOutcome(hovered: int, chosen: Option<string>)

  /** JavaScript's `%` on a positive divisor: the remainder takes the sign of the dividend. */
  function JsRem(a: int, n: int): (r: int)
    requires n > 0
    ensures a >= 0 ==> 0 <= r < n
    ensures a < 0 ==> -n < r <= 0
  {
    ModBounds(if a >= 0 then a else -a, n);
    if a >= 0 then a % n else -((-a) % n)
  }

  lemma ModBounds(a: int, n: int)
    requires a >= 0 && n > 0
    ensures 0 <= a % n < n
  {
  }

  /** The key handler of the list; `hovered` is the highlighted row (-1 for none). Keys do
      nothing while the list is hidden or empty. */
  function HandleKey(visible: bool, rows: seq<Suggestion>, hovered: int, key: Key): (o: KeyOutcome)
    ensures !visible || |rows| == 0 ==> o == KeyOutcome(hovered, None)
    ensures visible && |rows| > 0 && (key == ArrowDown || key == ArrowUp) && hovered >= -1 ==>
      0 <= o.hovered < |rows| && o.chosen.None?
    ensures o.chosen.Some? <==> visible && key == Enter && 0 <= hovered < |rows|
    ensures o.chosen.Some? ==> o.chosen.value == rows[hovered].query && o.hovered == hovered
    ensures visible && |rows| > 0 && key == Escape ==> o == KeyOutcome(-1, None)
    ensures key == OtherKey ==> o == KeyOutcome(hovered, None)
  {
    var n := |rows|;
    if !visible || n == 0 then KeyOutcome(hovered, None)
    else
      match key
      case ArrowDown => KeyOutcome(JsRem(hovered + 1, n), None)
      case ArrowUp => KeyOutcome(JsRem(hovered - 1 + n, n), None)
      case Enter =>
        if 0 <= hovered < n then KeyOutcome(hovered, Some(rows[hovered].query)) else KeyOutcome(hovered, None)
      case Escape => KeyOutcome(-1, None)
      case OtherKey => KeyOutcome(hovered, None)
  }

  lemma ModOfSmall(a: int, n: int)
    requires 0 <= a < n
    ensures a % n == a
  {
  }

  lemma ModOfSelf(n: int)
    requires n > 0
    ensures n % n == 0
  {
  }

  /** Down moves to the next row and wraps from the last row to the first; from no
      highlight it goes to the first row. */
  lemma ArrowDownIsNext(rows: seq<Suggestion>, hovered: int)
    requires |rows| > 0 && -1 <= hovered < |rows|
    ensures HandleKey(true, rows, hovered, ArrowDown).hovered == if hovered == |rows| - 1 then 0 else hovered + 1
  {
    var n := |rows|;
    if hovered == n - 1 {
      ModOfSelf(n);
    } else {
      ModOfSmall(hovered + 1, n);
    }
  }

  /** Up moves to the previous row and wraps from the first row to the last. */
  lemma ArrowUpIsPrevious(rows: seq<Suggestion>, hovered: int)
    requires 0 <= hovered < |rows|
    ensures HandleKey(true, rows, hovered, ArrowUp).hovered == if hovered == 0 then |rows| - 1 else hovered - 1
  {
    var n := |rows|;
    if hovered == 0 {
      ModOfSmall(n - 1, n);
    } else {
      assert (hovered - 1 + n) % n == hovered - 1 by {
        assert hovered - 1 + n == (hovered - 1) + n * 1;
        ModShift(hovered - 1, n);
      }
    }
  }

  lemma ModShift(a: int, n: int)
    requires 0 <= a < n
    ensures (a + n) % n == a
  {
  }

  /** Up undoes Down and Down undoes Up on a highlighted row. */
  lemma ArrowsInverse(rows: seq<Suggestion>, hovered: int)
    requires 0 <= hovered < |rows|
    ensures HandleKey(true, rows, HandleKey(true, rows, hovered, ArrowDown).hovered, ArrowUp).hovered == hovered
    ensures HandleKey(true, rows, HandleKey(true, rows, hovered, ArrowUp).hovered, ArrowDown).hovered == hovered
  {
    ArrowDownIsNext(rows, hovered);
    ArrowUpIsPrevious(rows, hovered);
    ArrowUpIsPrevious(rows, HandleKey(true, rows, hovered, ArrowDown).hovered);
    ArrowDownIsNext(rows, HandleKey(true, rows, hovered, ArrowUp).hovered);
  }

  // ---------------------------------------------------------------------------------------
  // Age of a suggestion

  const MinuteMs := 60 * 1000
  const HourMs := 60 * MinuteMs
  const DayMs := 24 * HourMs

  /** The age `formatTimestamp` shows, before it is rendered as text. */
  datatype Age = JustNow | Minutes(m: int) | Hours(h: int) | Days(d: int)

  /** The age of `timestamp` at `now`, in whole (floored) minutes, hours or days; a timestamp
      in the future is "just now". */
  function AgeOf(now: int, timestamp: int): (a: Age)
    ensures var diff := now - timestamp;
      (a.JustNow? <==> diff < MinuteMs) &&
      (a.Minutes? ==> 1 <= a.m < 60 && a.m * MinuteMs <= diff < (a.m + 1) * MinuteMs) &&
      (a.Hours? ==> 1 <= a.h < 24 && a.h * HourMs <= diff < (a.h + 1) * HourMs) &&
      (a.Days? ==> 1 <= a.d && a.d * DayMs <= diff < (a.d + 1) * DayMs)
  {
    var diff := now - timestamp;
    var minutes := diff / MinuteMs;
    var hours := diff / HourMs;
    var days := diff / DayMs;
    if minutes < 1 then JustNow
    else if minutes < 60 then Minutes(minutes)
    else if hours < 24 then Hours(hours)
    else Days(days)
  }

  /** `formatTimestamp(timestamp)` with the clock as an argument. */
  function FormatTimestamp(now: int, timestamp: int): (r: string)
    ensures AgeOf(now, timestamp).JustNow? ==> r == "gerade eben"
    ensures AgeOf(now, timestamp).Minutes? ==> r == "vor " + NatToDec(AgeOf(now, timestamp).m) + "min"
    ensures AgeOf(now, timestamp).Hours? ==> r == "vor " + NatToDec(AgeOf(now, timestamp).h) + "h"
    ensures AgeOf(now, timestamp).Days? ==> r == "vor " + NatToDec(AgeOf(now, timestamp).d) + "d"
  {
    match AgeOf(now, timestamp)
    case JustNow => "gerade eben"
    case Minutes(m) => "vor " + NatToDec(m) + "min"
    case Hours(h) => "vor " + NatToDec(h) + "h"
    case Days(d) => "vor " + NatToDec(d) + "d"
  }

  // ---------------------------------------------------------------------------------------
  // Grouping

  /** The rows of one category in list order: what the `reduce` pushes into `acc[c]`. */
  function Members(rows: seq<Suggestion>, c: Category): seq<Suggestion> {
    if |rows| == 0 then [] else (if rows[0].category == c then [rows[0]] else []) + Members(rows[1..], c)
  }

  lemma {:induction false} MembersIff(rows: seq<Suggestion>, c: Category, x: Suggestion)
    ensures x in Members(rows, c) <==> x in rows && x.category == c
    decreases |rows|
  {
    if |rows| > 0 {
      MembersIff(rows[1..], c, x);
      assert rows == [rows[0]] + rows[1..];
    }
  }

  lemma {:induction false} MembersNone(rows: seq<Suggestion>, c: Category)
    requires forall k :: 0 <= k < |rows| ==> rows[k].category != c
    ensures Members(rows, c) == []
    decreases |rows|
  {
    if |rows| > 0 {
      MembersNone(rows[1..], c);
    }
  }

  /** A rendered group: its category and its rows. */
  datatype Group = Group(category: Category, rows: seq<Suggestion>)

  function GroupOf(rows: seq<Suggestion>, c: Category): seq<Group> {
    var members := Members(rows, c);
    if |members| == 0 then [] else [Group(c, members)]
  }

  /** The groups of the list, in the order recent, frequent, suggested; a category without
      rows has no group. */
  function Groups(rows: seq<Suggestion>): (g: seq<Group>)
    ensures forall i :: 0 <= i < |g| ==> |g[i].rows| > 0 && g[i].rows == Members(rows, g[i].category)
    ensures forall i, j :: 0 <= i < j < |g| ==> CategoryPriority(g[i].category) > CategoryPriority(g[j].category)
  {
    GroupOf(rows, Recent) + GroupOf(rows, Frequent) + GroupOf(rows, Suggested)
  }

  /** A category has a group exactly when some row has that category. */
  lemma GroupedIff(rows: seq<Suggestion>, c: Category)
    ensures (exists i :: 0 <= i < |Groups(rows)| && Groups(rows)[i].category == c) <==> exists x :: x in rows && x.category == c
  {
    var g := Groups(rows);
    var m := Members(rows, c);
    if exists x :: x in rows && x.category == c {
      var x :| x in rows && x.category == c;
      MembersIff(rows, c, x);
      assert |m| > 0;
      var i := match c case Recent => 0 case Frequent => |GroupOf(rows, Recent)| case Suggested => |GroupOf(rows, Recent)| + |GroupOf(rows, Frequent)|;
      assert g[i].category == c;
    }
    if exists i :: 0 <= i < |g| && g[i].category == c {
      var i :| 0 <= i < |g| && g[i].category == c;
      var x := g[i].rows[0];
      MembersIff(rows, c, x);
    }
  }

  /** The rows in the order the groups show them. */
  function Shown(g: seq<Group>): seq<Suggestion> {
    if |g| == 0 then [] else g[0].rows + Shown(g[1..])
  }

  /** Every row is shown exactly once, whatever the order of the list. */
  lemma ShownIsPermutation(rows: seq<Suggestion>)
    ensures multiset(Shown(Groups(rows))) == multiset(rows)
  {
    ShownMembers(rows);
    MembersPartition(rows);
  }

  lemma ShownMembers(rows: seq<Suggestion>)
    ensures Shown(Groups(rows)) == Members(rows, Recent) + Members(rows, Frequent) + Members(rows, Suggested)
  {
    var a := GroupOf(rows, Recent);
    var b := GroupOf(rows, Frequent);
    var c := GroupOf(rows, Suggested);
    assert Groups(rows) == a + (b + c);
    ShownAppend(a, b + c);
    ShownAppend(b, c);
    ShownOne(rows, Recent);
    ShownOne(rows, Frequent);
    ShownOne(rows, Suggested);
    assert Shown(Groups(rows)) == Members(rows, Recent) + (Members(rows, Frequent) + Members(rows, Suggested));
  }

  lemma ShownOne(rows: seq<Suggestion>, c: Category)
    ensures Shown(GroupOf(rows, c)) == Members(rows, c)
  {
    var g := GroupOf(rows, c);
    if |g| == 1 {
      assert Shown(g) == g[0].rows + Shown(g[1..]);
      assert g[0].rows + [] == g[0].rows;
    }
  }

  lemma {:induction false} ShownAppend(a: seq<Group>, b: seq<Group>)
    ensures Shown(a + b) == Shown(a) + Shown(b)
    decreases |a|
  {
    if |a| == 0 {
      assert a + b == b;
    } else {
      assert (a + b)[1..] == a[1..] + b;
      ShownAppend(a[1..], b);
    }
  }

  /** The three categories split the list. */
  lemma {:induction false} MembersPartition(rows: seq<Suggestion>)
    ensures multiset(Members(rows, Recent) + Members(rows, Frequent) + Members(rows, Suggested)) == multiset(rows)
    decreases |rows|
  {
    if |rows| > 0 {
      var h, t := rows[0], rows[1..];
      MembersPartition(t);
      Regroup(h, h.category, Members(t, Recent), Members(t, Frequent), Members(t, Suggested),
        Members(rows, Recent), Members(rows, Frequent), Members(rows, Suggested), rows, t);
    }
  }

  lemma InsertMultiset<T>(x: seq<T>, h: T, y: seq<T>)
    ensures multiset(x + [h] + y) == multiset([h]) + multiset(x + y)
  {
    calc {
      multiset(x + [h] + y);
      multiset(x) + multiset([h]) + multiset(y);
      multiset([h]) + multiset(x + y);
    }
  }

  /** Putting the head into the group of its category keeps the three groups a split of the
      list. */
  lemma Regroup<T>(h: T, cat: Category, a: seq<T>, b: seq<T>, c: seq<T>,
                   ra: seq<T>, rb: seq<T>, rc: seq<T>, rows: seq<T>, t: seq<T>)
    requires ra == (if cat == Recent then [h] else []) + a
    requires rb == (if cat == Frequent then [h] else []) + b
    requires rc == (if cat == Suggested then [h] else []) + c
    requires |rows| > 0 && h == rows[0] && t == rows[1..]
    requires multiset(a + b + c) == multiset(t)
    ensures multiset(ra + rb + rc) == multiset(rows)
  {
    assert rows == [h] + t;
    assert multiset(rows) == multiset([h]) + multiset(t);
    match cat
    case Recent =>
      assert ra + rb + rc == [h] + (a + b + c);
    case Frequent =>
      assert ra + rb + rc == a + [h] + (b + c);
      InsertMultiset(a, h, b + c);
      assert a + (b + c) == a + b + c;
    case Suggested =>
      assert ra + rb + rc == (a + b) + [h] + c;
      InsertMultiset(a + b, h, c);
  }

  /** The list is in category order: recent rows first, then frequent, then suggested. */
  predicate InCategoryOrder(rows: seq<Suggestion>) {
    forall i, j :: 0 <= i < j < |rows| ==> CategoryPriority(rows[i].category) >= CategoryPriority(rows[j].category)
  }

  /** For a list in category order the groups show the rows in list order, so the row the
      keyboard highlights (by list position) is the row shown at that position. */
  lemma {:induction false} OrderedListShownInOrder(rows: seq<Suggestion>)
    requires InCategoryOrder(rows)
    ensures Shown(Groups(rows)) == rows
    decreases |rows|
  {
    ShownMembers(rows);
    if |rows| > 0 {
      var h, t := rows[0], rows[1..];
      assert rows == [h] + t;
      assert InCategoryOrder(t);
      OrderedListShownInOrder(t);
      ShownMembers(t);
      forall k | 0 <= k < |t| ensures CategoryPriority(t[k].category) <= CategoryPriority(h.category) {
        assert t[k] == rows[k + 1];
      }
      if h.category != Recent {
        MembersNone(t, Recent);
      }
      if h.category == Suggested {
        MembersNone(t, Frequent);
      }
      Reorder(h, Members(t, Recent), Members(t, Frequent), Members(t, Suggested),
        Members(rows, Recent), Members(rows, Frequent), Members(rows, Suggested), rows, t);
    }
  }

  lemma Reorder(h: Suggestion, a: seq<Suggestion>, b: seq<Suggestion>, c: seq<Suggestion>,
                ra: seq<Suggestion>, rb: seq<Suggestion>, rc: seq<Suggestion>, rows: seq<Suggestion>, t: seq<Suggestion>)
    requires ra == (if h.category == Recent then [h] else []) + a
    requires rb == (if h.category == Frequent then [h] else []) + b
    requires rc == (if h.category == Suggested then [h] else []) + c
    requires rows == [h] + t && a + b + c == t
    requires h.category != Recent ==> a == []
    requires h.category == Suggested ==> b == []
    ensures ra + rb + rc == rows
  {
    match h.category
    case Recent =>
      assert ra + rb + rc == [h] + (a + b + c);
    case Frequent =>
      assert ra + rb + rc == [h] + (b + c);
    case Suggested =>
      assert ra + rb + rc == [h] + c;
  }

  /** Every list `getSuggestions` returns is in category order, so its groups show it in list
      order. */
  lemma SuggestionsShownInOrder(st: Store, currentQuery: string, limit: int)
    requires OrderedMap.Valid(st.patterns)
    ensures Shown(Groups(GetSuggestions(st, currentQuery, limit))) == GetSuggestions(st, currentQuery, limit)
  {
    var r := GetSuggestions(st, currentQuery, limit);
    if IsBlank(currentQuery) {
      assert forall i :: 0 <= i < |r| ==> r[i].category == Recent;
    } else {
      assert forall i, j :: 0 <= i < j < |r| ==> RankGe(ByCategory(r[i]), ByCategory(r[j]));
    }
    OrderedListShownInOrder(r);
  }
}
