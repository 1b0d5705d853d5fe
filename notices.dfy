/**
 * The notices page: a fixed list of notices, narrowed by a search box and a
 * category selector, then shown pinned first and newest first.
 */
module Notices {
  import opened Text
  import opened Filtering

  /** The `category` field of a notice. */
  datatype Category = Academic | Hostel | Clubs | Placement | General

  /** The string the page stores in `category` and compares against the selector. */
  function CategoryName(c: Category): string
  {
    match c
    case Academic => "Academic"
    case Hostel => "Hostel"
    case Clubs => "Clubs"
    case Placement => "Placement"
    case General => "General"
  }

  /** The selector value that shows every category. */
  const AllCategories: string := "All"

  /** The selector's options, in the order the page lists them. */
  const Categories: seq<string> := [AllCategories, "Academic", "Hostel", "Clubs", "Placement", "General"]

  /** The badge style of each category. */
  const CategoryColors: map<string, string> := map[
    "Academic" := "badge-primary",
    "Hostel" := "bg-orange-100 text-orange-800",
    "Clubs" := "bg-purple-100 text-purple-800",
    "Placement" := "bg-green-100 text-green-800",
    "General" := "bg-gray-100 text-gray-800"]

  /**
   * The style table has an entry for every category a notice can have, and
   * its keys are exactly the selector's options other than "All".
   */
  lemma CategoryColorsTotal()
    ensures forall c: Category :: CategoryName(c) in CategoryColors && CategoryName(c) in Categories
    ensures forall name :: name in CategoryColors <==> name in Categories && name != AllCategories
  {
    forall name ensures name in CategoryColors <==> name in Categories && name != AllCategories {
      assert Categories == [AllCategories] + ["Academic", "Hostel", "Clubs", "Placement", "General"];
    }
  }

  /** One notice. `date` is the calendar date written as the integer yyyymmdd. */
  datatype Notice = Notice(
    id: int,
    title: string,
    content: string,
    category: Category,
    author: string,
    date: int,
    isNew: bool,
    isPinned: bool)

  /** The badge style a notice is drawn with: the table entry for its category. */
  function BadgeColor(n: Notice): (r: string)
    ensures CategoryName(n.category) in CategoryColors && r == CategoryColors[CategoryName(n.category)]
  {
    CategoryColorsTotal();
    CategoryColors[CategoryName(n.category)]
  }

  /** The search box test: title or content contains the query, ignoring case. */
  predicate MatchesSearch(n: Notice, query: string)
  {
    Includes(ToLower(n.title), ToLower(query)) || Includes(ToLower(n.content), ToLower(query))
  }

  /** The selector test: the selector shows everything, or names this notice's category. */
  predicate MatchesCategory(n: Notice, selected: string)
  {
    selected == AllCategories || CategoryName(n.category) == selected
  }

  predicate Matches(n: Notice, query: string, selected: string)
  {
    MatchesSearch(n, query) && MatchesCategory(n, selected)
  }

  /** `filteredNotices`: the notices that pass both tests, in list order. */
  function FilteredNotices(notices: seq<Notice>, query: string, selected: string): seq<Notice>
  {
    Filter(notices, (n: Notice) => Matches(n, query, selected))
  }

  /** The result keeps notices in list order and adds or repeats nothing. */
  lemma FilteredNoticesIsSubsequence(notices: seq<Notice>, query: string, selected: string)
    ensures IsSubsequence(FilteredNotices(notices, query, selected), notices)
  {
    FilterIsSubsequence(notices, (n: Notice) => Matches(n, query, selected));
  }

  /**
   * Sound and complete: a notice is shown exactly when (its lower-cased title
   * or content contains the lower-cased query) and (the selector is "All" or
   * equals its category); a shown notice is shown as often as it is listed.
   */
  lemma FilteredNoticesSoundComplete(notices: seq<Notice>, query: string, selected: string)
    ensures forall n :: n in FilteredNotices(notices, query, selected) <==>
      n in notices
      && (Includes(ToLower(n.title), ToLower(query)) || Includes(ToLower(n.content), ToLower(query)))
      && (selected == "All" || CategoryName(n.category) == selected)
    ensures forall n ::
      multiset(FilteredNotices(notices, query, selected))[n] == if Matches(n, query, selected) then multiset(notices)[n] else 0
  {
    FilterMembers(notices, (n: Notice) => Matches(n, query, selected));
    forall n ensures multiset(FilteredNotices(notices, query, selected))[n]
      == if Matches(n, query, selected) then multiset(notices)[n] else 0
    {
      FilterMultiplicity(notices, (n: Notice) => Matches(n, query, selected), n);
    }
  }

  /** The page's initial state (empty search, selector "All") lists every notice. */
  lemma InitialStateShowsAllNotices(notices: seq<Notice>)
    ensures FilteredNotices(notices, "", AllCategories) == notices
  {
    forall n | n in notices ensures Matches(n, "", AllCategories) {
      IncludesEmpty(ToLower(n.title));
    }
    FilterKeepsAll(notices, (n: Notice) => Matches(n, "", AllCategories));
  }

  /** Queries that differ only in the case of ASCII letters give the same list. */
  lemma NoticeSearchIgnoresCase(notices: seq<Notice>, query1: string, query2: string, selected: string)
    requires EqualUpToCase(query1, query2)
    ensures FilteredNotices(notices, query1, selected) == FilteredNotices(notices, query2, selected)
  {
    ToLowerIffEqualUpToCase(query1, query2);
    FilterCongruent(notices, (n: Notice) => Matches(n, query1, selected), (n: Notice) => Matches(n, query2, selected));
  }

  /** A selector value that is neither "All" nor a category name shows nothing. */
  lemma UnknownCategoryShowsNothing(notices: seq<Notice>, query: string, selected: string)
    requires selected != AllCategories
    requires forall c: Category :: CategoryName(c) != selected
    ensures FilteredNotices(notices, query, selected) == []
  {
    FilterKeepsNone(notices, (n: Notice) => Matches(n, query, selected));
  }

  /**
   * The comparator handed to `sort`: negative when `a` goes first. Pinned
   * notices go before unpinned ones, and within each group the later date
   * goes first. Dates are yyyymmdd integers, so `b.date - a.date` has the
   * sign of the difference of the two instants.
   */
  function Compare(a: Notice, b: Notice): (r: int)
    ensures r < 0 <==> (a.isPinned && !b.isPinned) || (a.isPinned == b.isPinned && a.date > b.date)
    ensures r == 0 <==> a.isPinned == b.isPinned && a.date == b.date
    ensures r > 0 <==> (!a.isPinned && b.isPinned) || (a.isPinned == b.isPinned && a.date < b.date)
  {
    if a.isPinned && !b.isPinned then -1
    else if !a.isPinned && b.isPinned then 1
    else b.date - a.date
  }

  /**
   * The comparator is consistent, as `sort` requires: swapping the arguments
   * flips the sign, and "goes no later than" is transitive.
   */
  lemma CompareConsistent(a: Notice, b: Notice, c: Notice)
    ensures Compare(a, b) < 0 <==> Compare(b, a) > 0
    ensures Compare(a, b) == 0 <==> Compare(b, a) == 0
    ensures Compare(a, b) <= 0 && Compare(b, c) <= 0 ==> Compare(a, c) <= 0
    ensures Compare(a, b) == 0 && Compare(b, c) == 0 ==> Compare(a, c) == 0
  {
  }

  /** `a` must be placed before `b`. */
  predicate Precedes(a: Notice, b: Notice)
  {
    Compare(a, b) < 0
  }

  /** `a` and `b` have the same sort key (pinned flag and date). */
  predicate SameKey(a: Notice, b: Notice)
  {
    Compare(a, b) == 0
  }

  /** Ordered by the comparator: no notice is placed after one it precedes. */
  predicate Sorted(r: seq<Notice>)
  {
    forall i, j :: 0 <= i < j < |r| ==> Compare(r[i], r[j]) <= 0
  }

  /** The notices of `s` that share `z`'s sort key, in their order in `s`. */
  function Tied(s: seq<Notice>, z: Notice): seq<Notice>
  {
    Filter(s, (y: Notice) => SameKey(y, z))
  }

  /**
   * Inserting `x` into a sorted list from the right: `x` moves left past the
   * notices it precedes, and stops behind the first one it does not.
   */
  function Insert(t: seq<Notice>, x: Notice): seq<Notice>
  {
    if |t| == 0 then [x]
    else if Precedes(x, t[|t| - 1]) then Insert(t[..|t| - 1], x) + [t[|t| - 1]]
    else t + [x]
  }

  /** The stable sort of `s` by the comparator: each notice inserted in turn. */
  function StableSort(s: seq<Notice>): seq<Notice>
  {
    if |s| == 0 then [] else Insert(StableSort(s[..|s| - 1]), s[|s| - 1])
  }

  /** Sorting a list that ends with `x` inserts `x` into the sorted rest. */
  lemma StableSortSnoc(t: seq<Notice>, x: Notice)
    ensures StableSort(t + [x]) == Insert(StableSort(t), x)
  {
    assert (t + [x])[..|t|] == t;
  }

  lemma {:induction false} InsertPermutes(t: seq<Notice>, x: Notice)
    ensures multiset(Insert(t, x)) == multiset(t) + multiset{x}
  {
    if |t| > 0 && Precedes(x, t[|t| - 1]) {
      InsertPermutes(t[..|t| - 1], x);
      assert t == t[..|t| - 1] + [t[|t| - 1]];
    }
  }

  /** The sort output is a permutation of its input. */
  lemma {:induction false} StableSortPermutes(s: seq<Notice>)
    ensures multiset(StableSort(s)) == multiset(s)
  {
    if |s| > 0 {
      StableSortPermutes(s[..|s| - 1]);
      InsertPermutes(StableSort(s[..|s| - 1]), s[|s| - 1]);
      assert s == s[..|s| - 1] + [s[|s| - 1]];
    }
  }

  /** A sorted list `t` stays sorted when `x` is appended and every notice of `t` goes no later than `x`. */
  lemma SortedSnoc(t: seq<Notice>, x: Notice)
    requires Sorted(t)
    requires forall y :: y in t ==> Compare(y, x) <= 0
    ensures Sorted(t + [x])
  {
    var r := t + [x];
    forall i, j | 0 <= i < j < |r| ensures Compare(r[i], r[j]) <= 0 {
      if j == |t| {
        assert r[i] in t;
      }
    }
  }

  lemma {:induction false} InsertSorted(t: seq<Notice>, x: Notice)
    requires Sorted(t)
    ensures Sorted(Insert(t, x))
  {
    if |t| == 0 {
    } else {
      var init, last := t[..|t| - 1], t[|t| - 1];
      if Precedes(x, last) {
        assert Sorted(init);
        InsertSorted(init, x);
        InsertPermutes(init, x);
        forall y | y in Insert(init, x) ensures Compare(y, last) <= 0 {
          assert y in multiset(Insert(init, x));
          if y != x {
            var i :| 0 <= i < |init| && init[i] == y;
            assert Compare(t[i], t[|t| - 1]) <= 0;
          }
        }
        SortedSnoc(Insert(init, x), last);
      } else {
        forall y | y in t ensures Compare(y, x) <= 0 {
          var i :| 0 <= i < |t| && t[i] == y;
          if i < |t| - 1 {
            assert Compare(t[i], t[|t| - 1]) <= 0;
          }
        }
        SortedSnoc(t, x);
      }
    }
  }

  /** The sort output is ordered by the comparator. */
  lemma {:induction false} StableSortSorted(s: seq<Notice>)
    ensures Sorted(StableSort(s))
  {
    if |s| > 0 {
      StableSortSorted(s[..|s| - 1]);
      InsertSorted(StableSort(s[..|s| - 1]), s[|s| - 1]);
    }
  }

  /** Inserting `x` puts it behind every notice of `t` with the same key. */
  lemma {:induction false} InsertTied(t: seq<Notice>, x: Notice, z: Notice)
    ensures Tied(Insert(t, x), z) == Tied(t, z) + Keep(x, (y: Notice) => SameKey(y, z))
  {
    var p := (y: Notice) => SameKey(y, z);
    if |t| == 0 {
      FilterCons(x, [], p);
      assert [x] + [] == [x];
    } else {
      var init, last := t[..|t| - 1], t[|t| - 1];
      assert t == init + [last];
      if Precedes(x, last) {
        var a, k1, k2 := Filter(init, p), Keep(x, p), Keep(last, p);
        assert k1 == [] || k2 == [];
        assert (a + k1) + k2 == (a + k2) + k1;
        calc {
          Tied(Insert(t, x), z);
          Filter(Insert(init, x) + [last], p);
          { FilterSnoc(Insert(init, x), last, p); }
          Filter(Insert(init, x), p) + k2;
          { InsertTied(init, x, z); }
          (a + k1) + k2;
          (a + k2) + k1;
          { FilterSnoc(init, last, p); }
          Filter(t, p) + k1;
        }
      } else {
        FilterSnoc(t, x, p);
      }
    }
  }

  /** The sort is stable: notices with the same key keep their input order. */
  lemma {:induction false} StableSortTied(s: seq<Notice>, z: Notice)
    ensures Tied(StableSort(s), z) == Tied(s, z)
  {
    if |s| > 0 {
      var init, last := s[..|s| - 1], s[|s| - 1];
      var p := (y: Notice) => SameKey(y, z);
      assert s == init + [last];
      calc {
        Tied(StableSort(s), z);
        Tied(Insert(StableSort(init), last), z);
        { InsertTied(StableSort(init), last, z); }
        Tied(StableSort(init), z) + Keep(last, p);
        { StableSortTied(init, z); }
        Tied(init, z) + Keep(last, p);
        { FilterSnoc(init, last, p); }
        Tied(s, z);
      }
    }
  }

  /**
   * What the page shows: every pinned notice before every unpinned one, and
   * among adjacent notices with the same pinned flag, dates never increase.
   */
  lemma SortedOrder(r: seq<Notice>)
    requires Sorted(r)
    ensures forall i, j :: 0 <= i < j < |r| && r[j].isPinned ==> r[i].isPinned
    ensures forall i :: 0 <= i < |r| - 1 && r[i].isPinned == r[i + 1].isPinned ==> r[i].date >= r[i + 1].date
  {
    forall i, j | 0 <= i < j < |r| ensures r[j].isPinned ==> r[i].isPinned {
      assert Compare(r[i], r[j]) <= 0;
    }
    forall i | 0 <= i < |r| - 1 ensures r[i].isPinned == r[i + 1].isPinned ==> r[i].date >= r[i + 1].date {
      assert Compare(r[i], r[i + 1]) <= 0;
    }
  }

  /** The sort output: a permutation, ordered, pinned first, newest first, and stable. */
  lemma StableSortSpec(s: seq<Notice>)
    ensures multiset(StableSort(s)) == multiset(s)
    ensures Sorted(StableSort(s))
    ensures forall i, j :: 0 <= i < j < |StableSort(s)| && StableSort(s)[j].isPinned ==> StableSort(s)[i].isPinned
    ensures forall z :: Tied(StableSort(s), z) == Tied(s, z)
  {
    StableSortPermutes(s);
    StableSortSorted(s);
    SortedOrder(StableSort(s));
    forall z ensures Tied(StableSort(s), z) == Tied(s, z) {
      StableSortTied(s, z);
    }
  }

  /** `y`, a member of `r`, goes no later than the last notice of a sorted `r`. */
  lemma SortedLast(r: seq<Notice>, y: Notice)
    requires Sorted(r) && y in r
    ensures Compare(y, r[|r| - 1]) <= 0
  {
    var i :| 0 <= i < |r| && r[i] == y;
    if i < |r| - 1 {
      assert Compare(r[i], r[|r| - 1]) <= 0;
    }
  }

  /** A notice belongs to the list of notices tied with it exactly when it is listed. */
  lemma TiedMember(s: seq<Notice>, z: Notice, y: Notice)
    ensures y in Tied(s, z) <==> y in s && SameKey(y, z)
  {
    FilterMembers(s, (y: Notice) => SameKey(y, z));
  }

  /** The last notices of two sorted lists with the same tied classes have the same key. */
  lemma LastSameKey(r1: seq<Notice>, r2: seq<Notice>)
    requires Sorted(r1) && Sorted(r2) && |r1| > 0 && |r2| > 0
    requires forall z :: Tied(r1, z) == Tied(r2, z)
    ensures SameKey(r1[|r1| - 1], r2[|r2| - 1])
  {
    var u, v := r1[|r1| - 1], r2[|r2| - 1];
    TiedMember(r1, u, u);
    TiedMember(r2, u, u);
    var y2 :| y2 in r2 && SameKey(y2, u);
    SortedLast(r2, y2);
    TiedMember(r2, v, v);
    TiedMember(r1, v, v);
    var y1 :| y1 in r1 && SameKey(y1, v);
    SortedLast(r1, y1);
  }

  /** Equal lists with equal last elements have equal fronts. */
  lemma CancelLast(a: seq<Notice>, b: seq<Notice>, c: seq<Notice>)
    requires a + c == b + c
    ensures a == b
  {
    assert a == (a + c)[..|a|];
    assert b == (b + c)[..|b|];
  }

  /** The last notices of two sorted lists with the same tied classes are equal. */
  lemma LastEqual(r1: seq<Notice>, r2: seq<Notice>)
    requires Sorted(r1) && Sorted(r2) && |r1| > 0 && |r2| > 0
    requires forall z :: Tied(r1, z) == Tied(r2, z)
    ensures r1[|r1| - 1] == r2[|r2| - 1]
  {
    var init1, u := r1[..|r1| - 1], r1[|r1| - 1];
    var init2, v := r2[..|r2| - 1], r2[|r2| - 1];
    assert r1 == init1 + [u] && r2 == init2 + [v];
    LastSameKey(r1, r2);
    var pu := (y: Notice) => SameKey(y, u);
    FilterSnoc(init1, u, pu);
    FilterSnoc(init2, v, pu);
    var w1, w2 := Tied(r1, u), Tied(r2, u);
    assert w1 == Tied(init1, u) + [u] && w2 == Tied(init2, u) + [v];
    assert w1 == w2;
    assert w1[|w1| - 1] == u && w2[|w2| - 1] == v;
  }

  /** Dropping the same last notice from two lists with the same tied classes keeps them the same. */
  lemma TiedDropLast(init1: seq<Notice>, init2: seq<Notice>, u: Notice)
    requires forall z :: Tied(init1 + [u], z) == Tied(init2 + [u], z)
    ensures forall z :: Tied(init1, z) == Tied(init2, z)
  {
    forall z ensures Tied(init1, z) == Tied(init2, z) {
      var pz := (y: Notice) => SameKey(y, z);
      FilterSnoc(init1, u, pz);
      FilterSnoc(init2, u, pz);
      assert Tied(init1 + [u], z) == Tied(init2 + [u], z);
      CancelLast(Tied(init1, z), Tied(init2, z), Keep(u, pz));
    }
  }

  /**
   * A sorted list is determined by its tied classes: two sorted lists that
   * list the notices of each key in the same order are equal.
   */
  lemma {:induction false} SortedTiedUnique(r1: seq<Notice>, r2: seq<Notice>)
    requires Sorted(r1) && Sorted(r2)
    requires forall z :: Tied(r1, z) == Tied(r2, z)
    ensures r1 == r2
    decreases |r1| + |r2|
  {
    if |r1| == 0 && |r2| > 0 {
      TiedMember(r2, r2[0], r2[0]);
      TiedMember(r1, r2[0], r2[0]);
      assert false;
    } else if |r1| > 0 && |r2| == 0 {
      TiedMember(r1, r1[0], r1[0]);
      TiedMember(r2, r1[0], r1[0]);
      assert false;
    } else if |r1| > 0 && |r2| > 0 {
      var init1, init2 := r1[..|r1| - 1], r2[..|r2| - 1];
      LastEqual(r1, r2);
      var u := r1[|r1| - 1];
      assert r1 == init1 + [u] && r2 == init2 + [u];
      TiedDropLast(init1, init2, u);
      SortedTiedUnique(init1, init2);
    }
  }

  /**
   * `StableSort` is the only stable sort by the comparator: any ordering of
   * `s` that is sorted and keeps each key's notices in their order in `s` is
   * `StableSort(s)`.
   */
  lemma StableSortUnique(s: seq<Notice>, r: seq<Notice>)
    requires Sorted(r)
    requires forall z :: Tied(r, z) == Tied(s, z)
    ensures r == StableSort(s)
  {
    StableSortSpec(s);
    SortedTiedUnique(r, StableSort(s));
  }

  /**
   * Where inserting `x` puts it: behind the first `j` notices, when `x`
   * precedes every notice from `j` on and `j` is the front or `x` does not
   * precede the notice just before it.
   */
  lemma {:induction false} InsertAt(t: seq<Notice>, x: Notice, j: int)
    requires 0 <= j <= |t|
    requires forall k :: j <= k < |t| ==> Precedes(x, t[k])
    requires j == 0 || !Precedes(x, t[j - 1])
    ensures Insert(t, x) == t[..j] + [x] + t[j..]
  {
    if j < |t| {
      var init, last := t[..|t| - 1], t[|t| - 1];
      assert init[..j] == t[..j];
      assert init[j..] + [last] == t[j..];
      calc {
        Insert(t, x);
        Insert(init, x) + [last];
        { InsertAt(init, x, j); }
        (init[..j] + [x] + init[j..]) + [last];
        t[..j] + [x] + (init[j..] + [last]);
      }
    }
  }

  /** A list that agrees with `t` before `j`, holds `x` at `j`, and agrees with `t` shifted by one after `j`. */
  lemma Assemble(a: array<Notice>, t: seq<Notice>, j: int, x: Notice)
    requires |t| < a.Length && 0 <= j <= |t|
    requires forall k :: 0 <= k < j ==> a[k] == t[k]
    requires a[j] == x
    requires forall k :: j < k <= |t| ==> a[k] == t[k - 1]
    ensures a[..|t| + 1] == t[..j] + [x] + t[j..]
  {
  }

  /**
   * Moves `a[i]` left into the sorted prefix `a[..i]`, shifting right the
   * notices it precedes.
   */
  method InsertInPlace(a: array<Notice>, i: int)
    requires 0 <= i < a.Length
    modifies a
    ensures a[..i + 1] == Insert(old(a[..i]), old(a[i]))
    ensures a[i + 1..] == old(a[i + 1..])
  {
    ghost var t := a[..i];
    var x := a[i];
    var j := i;
    while j > 0 && Precedes(x, a[j - 1])
      invariant 0 <= j <= i
      invariant forall k :: 0 <= k < j ==> a[k] == t[k]
      invariant forall k :: j < k <= i ==> a[k] == t[k - 1]
      invariant forall k :: i < k < a.Length ==> a[k] == old(a[k])
      invariant forall k :: j <= k < i ==> Precedes(x, t[k])
    {
      a[j] := a[j - 1];
      j := j - 1;
    }
    InsertAt(t, x, j);
    a[j] := x;
    Assemble(a, t, j, x);
  }

  /**
   * Insertion sort in place, the stable sort that the page's
   * `[...filteredNotices].sort(comparator)` performs on its copy.
   */
  method SortInPlace(a: array<Notice>)
    modifies a
    ensures a[..] == StableSort(old(a[..]))
  {
    ghost var s := a[..];
    var i := 0;
    while i < a.Length
      invariant 0 <= i <= a.Length
      invariant a[..i] == StableSort(s[..i])
      invariant a[i..] == s[i..]
    {
      InsertInPlace(a, i);
      assert s[..i + 1][..i] == s[..i];
      i := i + 1;
    }
    assert s[..a.Length] == s;
  }

  /**
   * `sortedNotices`: a fresh copy of the filtered notices, sorted. The
   * filtered array itself is left as it was.
   */
  method SortedNotices(filtered: array<Notice>) returns (sorted: array<Notice>)
    ensures fresh(sorted)
    ensures filtered[..] == old(filtered[..])
    ensures sorted[..] == StableSort(filtered[..])
    ensures multiset(sorted[..]) == multiset(filtered[..])
    ensures Sorted(sorted[..])
    ensures forall z :: Tied(sorted[..], z) == Tied(filtered[..], z)
  {
    sorted := new Notice[filtered.Length](i reads filtered requires 0 <= i < filtered.Length => filtered[i]);
    assert sorted[..] == filtered[..];
    SortInPlace(sorted);
    StableSortSpec(filtered[..]);
  }
}
