/** The gallery's projection: the items shown are the gallery items that match
    the search box and the category buttons, in the order the sort menu asks
    for; and the lightbox's previous/next steps over that projection. */
module Gallery {
  import opened Wrappers
  import opened Text
  import opened Sequences
  import Cyclic

  /** One photograph of the gallery. `date` is the instant the page obtains
      from `new Date(...)`, kept as an abstract integer key. */
  datatype Item = Item(
    id: int,
    title: string,
    description: string,
    category: string,
    image: string,
    date: int,
    location: string,
    photographer: string,
    tags: seq<string>,
    likes: int,
    views: int)

  /** The category button that switches category filtering off. */
  const AllCategories: string := "All"

  /** The values of the sort menu; "newest" is selected when the page opens. */
  const Newest: string := "newest"
  const Oldest: string := "oldest"
  const Popular: string := "popular"
  const Views: string := "views"

  /** An order-preserving key for a "Month Year" date. */
  function MonthKey(year: int, month: int): int
  {
    year * 12 + (month - 1)
  }

  const GalleryItems: seq<Item> := [
    Item(1, "Legion Formation",
      "Members demonstrating the famous Roman testudo (tortoise) formation at the Annual Roman Festival.",
      "formations", "https://images.pexels.com/photos/5599591/pexels-photo-5599591.jpeg",
      MonthKey(2024, 6), "Hyde Park, London", "Marcus Aurelius",
      ["formation", "shield", "demonstration", "festival"], 245, 1200),
    Item(2, "Authentic Armor",
      "A detailed view of our historically accurate lorica segmentata (segmented armor) worn by legionaries.",
      "equipment", "https://images.pexels.com/photos/5599613/pexels-photo-5599613.jpeg",
      MonthKey(2024, 5), "S.C.E.A.R. Workshop", "Julius Caesar",
      ["armor", "equipment", "historical", "detail"], 189, 980),
    Item(3, "School Demonstration",
      "Educational demonstration at Westfield Academy, showcasing Roman military techniques to students.",
      "education", "https://images.pexels.com/photos/6499182/pexels-photo-6499182.jpeg",
      MonthKey(2024, 4), "Westfield Academy", "Claudius Maximus",
      ["education", "demonstration", "students", "teaching"], 156, 850),
    Item(4, "Training Session",
      "Members practicing with gladius and scutum during our weekly training session.",
      "training", "https://images.pexels.com/photos/5599609/pexels-photo-5599609.jpeg",
      MonthKey(2024, 3), "Training Grounds", "Titus Pullo",
      ["training", "weapons", "practice", "skills"], 178, 920),
    Item(5, "Museum Exhibition",
      "S.C.E.A.R. members participating in the \"Rome: Empire of Power\" exhibition.",
      "events", "https://images.pexels.com/photos/5599612/pexels-photo-5599612.jpeg",
      MonthKey(2024, 2), "National History Museum", "Lucius Vorenus",
      ["museum", "exhibition", "display", "history"], 201, 1100),
    Item(6, "Auxiliary Reenactment",
      "Members portraying Roman auxiliary units from the eastern provinces of the empire.",
      "reenactment", "https://images.pexels.com/photos/5599592/pexels-photo-5599592.jpeg",
      MonthKey(2024, 1), "Roman Festival", "Gaius Marius",
      ["auxiliary", "reenactment", "costume", "festival"], 167, 890),
    Item(7, "Standard Bearers",
      "Our dedicated signiferi carrying the legion standards during a ceremonial march.",
      "reenactment", "https://images.pexels.com/photos/5599588/pexels-photo-5599588.jpeg",
      MonthKey(2023, 12), "City Center", "Scipio Africanus",
      ["standards", "ceremony", "march", "tradition"], 198, 950),
    Item(8, "Summer Camp",
      "Young history enthusiasts learning about Roman military life at our annual summer camp.",
      "education", "https://images.pexels.com/photos/5599590/pexels-photo-5599590.jpeg",
      MonthKey(2023, 8), "Summer Camp Grounds", "Cato the Elder",
      ["camp", "youth", "learning", "summer"], 234, 1150)
  ]

  /** No two entries share an identifier. */
  predicate UniqueIds(s: seq<Item>)
  {
    forall i, j :: 0 <= i < j < |s| ==> s[i].id != s[j].id
  }

  lemma GalleryItemsHaveUniqueIds()
    ensures UniqueIds(GalleryItems)
  {
  }

  // ---------------------------------------------------------------------------
  // Filter

  /** Some tag includes the (already lower-cased) query, ignoring case. */
  predicate AnyTagContains(tags: seq<string>, q: string)
  {
    exists i :: 0 <= i < |tags| && Contains(ToLower(tags[i]), q)
  }

  /** The search half of the filter: the lower-cased query is included in the
      lower-cased title, description or some tag. */
  predicate MatchesSearch(item: Item, query: string)
  {
    var q := ToLower(query);
    Contains(ToLower(item.title), q)
    || Contains(ToLower(item.description), q)
    || AnyTagContains(item.tags, q)
  }

  /** The category half of the filter: "All", or exactly the item's category. */
  predicate MatchesCategory(item: Item, category: string)
  {
    category == AllCategories || item.category == category
  }

  predicate Matches(item: Item, query: string, category: string)
  {
    MatchesSearch(item, query) && MatchesCategory(item, category)
  }

  /** `items.filter(...)`: keeps exactly the matching items, each as often
      as it occurs, in their order. */
  function Filter(items: seq<Item>, query: string, category: string): (r: seq<Item>)
    ensures forall x :: x in r <==> x in items && Matches(x, query, category)
    ensures forall x :: multiset(r)[x] == if Matches(x, query, category) then multiset(items)[x] else 0
    ensures IsSubsequence(r, items)
  {
    if items == [] then []
    else
      assert items == [items[0]] + items[1..];
      var rest := Filter(items[1..], query, category);
      if Matches(items[0], query, category) then [items[0]] + rest else rest
  }

  /** A subsequence of a list without repeated identifiers has none either. */
  lemma {:induction false} SubsequenceKeepsIdsUnique(a: seq<Item>, b: seq<Item>)
    requires IsSubsequence(a, b) && UniqueIds(b)
    ensures UniqueIds(a)
    decreases |b|
  {
    if a != [] && b != [] {
      assert UniqueIds(b[1..]) by {
        forall i, j | 0 <= i < j < |b| - 1 ensures b[1..][i].id != b[1..][j].id {
          assert b[1..][i] == b[i + 1] && b[1..][j] == b[j + 1];
        }
      }
      if a[0] == b[0] {
        SubsequenceKeepsIdsUnique(a[1..], b[1..]);
        SubsequenceMembers(a[1..], b[1..]);
        forall i, j | 0 <= i < j < |a| ensures a[i].id != a[j].id {
          if i == 0 {
            assert a[j] == a[1..][j - 1];
            assert a[j] in b[1..];
            var k :| 0 <= k < |b| - 1 && b[1..][k] == a[j];
            assert b[k + 1] == a[j];
          } else {
            assert a[i] == a[1..][i - 1] && a[j] == a[1..][j - 1];
          }
        }
      } else {
        SubsequenceKeepsIdsUnique(a, b[1..]);
      }
    }
  }

  /** The displayed list never repeats an item of a gallery without repeated identifiers. */
  lemma FilterKeepsIdsUnique(items: seq<Item>, query: string, category: string)
    requires UniqueIds(items)
    ensures UniqueIds(Filter(items, query, category))
  {
    SubsequenceKeepsIdsUnique(Filter(items, query, category), items);
  }

  /** An empty query matches every item (`''.includes` is always true), so only
      the category decides; with category "All" only the query decides. */
  lemma EmptyQueryAndAllCategory(item: Item, query: string, category: string)
    ensures Matches(item, "", category) <==> MatchesCategory(item, category)
    ensures Matches(item, query, AllCategories) <==> MatchesSearch(item, query)
  {
    assert ToLower("") == "";
    ContainsEmpty(ToLower(item.title));
  }

  /** With the filters at their defaults nothing is filtered out. */
  lemma {:induction false} DefaultFilterKeepsAll(items: seq<Item>)
    ensures Filter(items, "", AllCategories) == items
  {
    if items != [] {
      EmptyQueryAndAllCategory(items[0], "", AllCategories);
      DefaultFilterKeepsAll(items[1..]);
      assert [items[0]] + items[1..] == items;
    }
  }

  // ---------------------------------------------------------------------------
  // Sort

  /** The value each sort option orders by, smallest first: later dates for
      "newest", earlier dates for "oldest", more likes for "popular", more views
      for "views"; every item ties under any other value. */
  function Rank(key: string, x: Item): int
  {
    if key == Newest then -x.date
    else if key == Oldest then x.date
    else if key == Popular then -x.likes
    else if key == Views then -x.views
    else 0
  }

  /** The comparator passed to `sort`. */
  function Compare(key: string, a: Item, b: Item): (r: int)
    ensures r == Rank(key, a) - Rank(key, b)
  {
    if key == Newest then b.date - a.date
    else if key == Oldest then a.date - b.date
    else if key == Popular then b.likes - a.likes
    else if key == Views then b.views - a.views
    else 0
  }

  /** Every earlier entry compares at most equal to every later one. */
  predicate SortedBy(key: string, s: seq<Item>)
  {
    forall i, j :: 0 <= i < j < |s| ==> Compare(key, s[i], s[j]) <= 0
  }

  /** The entries of `s` whose sort value is `v`, in their order in `s`. */
  function WithRank(key: string, s: seq<Item>, v: int): (r: seq<Item>)
    ensures forall x :: x in r <==> x in s && Rank(key, x) == v
  {
    if s == [] then []
    else if Rank(key, s[0]) == v then [s[0]] + WithRank(key, s[1..], v)
    else WithRank(key, s[1..], v)
  }

  /** `r` keeps, for every sort value, the order `s` had among the entries of
      that value: the stability section 23.1.3.30 of ECMA-262, 2023 edition,
      requires of `Array.prototype.sort`. */
  ghost predicate StableWith(key: string, r: seq<Item>, s: seq<Item>)
  {
    forall v :: WithRank(key, r, v) == WithRank(key, s, v)
  }

  lemma WithRankCons(key: string, x: Item, s: seq<Item>, v: int)
    ensures WithRank(key, [x] + s, v) == if Rank(key, x) == v then [x] + WithRank(key, s, v) else WithRank(key, s, v)
  {
    assert ([x] + s)[1..] == s;
  }

  lemma SortedTail(key: string, s: seq<Item>)
    requires SortedBy(key, s) && s != []
    ensures SortedBy(key, s[1..])
  {
    forall i, j | 0 <= i < j < |s| - 1 ensures Compare(key, s[1..][i], s[1..][j]) <= 0 {
      assert s[1..][i] == s[i + 1] && s[1..][j] == s[j + 1];
    }
  }

  /** The first entry of a sorted list has the least sort value. */
  lemma SortedHeadIsLeast(key: string, s: seq<Item>, y: Item)
    requires SortedBy(key, s) && y in s
    ensures Rank(key, s[0]) <= Rank(key, y)
  {
    var k :| 0 <= k < |s| && s[k] == y;
    assert k == 0 || Compare(key, s[0], s[k]) <= 0;
  }

  /** An entry that sorts no later than every entry of a sorted list can head it. */
  lemma SortedCons(key: string, y: Item, s: seq<Item>)
    requires SortedBy(key, s)
    requires forall z :: z in s ==> Rank(key, y) <= Rank(key, z)
    ensures SortedBy(key, [y] + s)
  {
    var r := [y] + s;
    forall i, j | 0 <= i < j < |r| ensures Compare(key, r[i], r[j]) <= 0 {
      if i == 0 {
        assert r[j] == s[j - 1];
      } else {
        assert r[i] == s[i - 1] && r[j] == s[j - 1];
      }
    }
  }

  /** Inserts `x` into a sorted list before the first entry it does not follow. */
  function Insert(key: string, x: Item, s: seq<Item>): (r: seq<Item>)
    ensures multiset(r) == multiset(s) + multiset{x}
  {
    if s == [] || Compare(key, x, s[0]) <= 0 then [x] + s
    else
      assert s == [s[0]] + s[1..];
      [s[0]] + Insert(key, x, s[1..])
  }

  lemma MultisetMembers(a: seq<Item>, b: seq<Item>, x: Item)
    requires multiset(a) == multiset(b) + multiset{x}
    ensures forall z :: z in a ==> z == x || z in b
  {
    forall z | z in a ensures z == x || z in b {
      assert z in multiset(a);
    }
  }

  /** Inserting into a sorted list keeps it sorted. */
  lemma {:induction false} InsertSorted(key: string, x: Item, s: seq<Item>)
    requires SortedBy(key, s)
    ensures SortedBy(key, Insert(key, x, s))
  {
    if s == [] || Compare(key, x, s[0]) <= 0 {
      forall z | z in s ensures Rank(key, x) <= Rank(key, z) {
        SortedHeadIsLeast(key, s, z);
      }
      SortedCons(key, x, s);
    } else {
      SortedTail(key, s);
      InsertSorted(key, x, s[1..]);
      var tail := Insert(key, x, s[1..]);
      MultisetMembers(tail, s[1..], x);
      forall z | z in tail ensures Rank(key, s[0]) <= Rank(key, z) {
        if z != x {
          SortedHeadIsLeast(key, s, z);
        }
      }
      SortedCons(key, s[0], tail);
    }
  }

  /** Insertion puts `x` in front of the entries that share its sort value. */
  lemma {:induction false} InsertStable(key: string, x: Item, s: seq<Item>, v: int)
    requires SortedBy(key, s)
    ensures WithRank(key, Insert(key, x, s), v) ==
              if Rank(key, x) == v then [x] + WithRank(key, s, v) else WithRank(key, s, v)
  {
    if s == [] || Compare(key, x, s[0]) <= 0 {
      WithRankCons(key, x, s, v);
    } else {
      assert s == [s[0]] + s[1..];
      SortedTail(key, s);
      InsertStable(key, x, s[1..], v);
      WithRankCons(key, s[0], Insert(key, x, s[1..]), v);
    }
  }

  /** Inserting an item whose identifier is new keeps identifiers unique. */
  lemma {:induction false} InsertKeepsIdsUnique(key: string, x: Item, s: seq<Item>)
    requires UniqueIds(s) && forall y :: y in s ==> y.id != x.id
    ensures UniqueIds(Insert(key, x, s))
  {
    if s != [] && Compare(key, x, s[0]) > 0 {
      TailKeepsIdsUnique(s);
      InsertKeepsIdsUnique(key, x, s[1..]);
      var tail := Insert(key, x, s[1..]);
      MultisetMembers(tail, s[1..], x);
      var r := [s[0]] + tail;
      forall i, j | 0 <= i < j < |r| ensures r[i].id != r[j].id {
        if i == 0 {
          assert r[j] in tail;
          if r[j] != x {
            var k :| 0 <= k < |s| - 1 && s[1..][k] == r[j];
            assert s[k + 1] == r[j];
          }
        } else {
          assert r[i] == tail[i - 1] && r[j] == tail[j - 1];
        }
      }
    }
  }

  /** `s.sort(comparator)`: a stable insertion sort. */
  function Sort(key: string, s: seq<Item>): (r: seq<Item>)
    ensures multiset(r) == multiset(s)
    ensures SortedBy(key, r)
  {
    if s == [] then []
    else
      assert s == [s[0]] + s[1..];
      InsertSorted(key, s[0], Sort(key, s[1..]));
      Insert(key, s[0], Sort(key, s[1..]))
  }

  /** Sorting keeps, for each sort value, the order its entries had. */
  lemma {:induction false} SortStable(key: string, s: seq<Item>)
    ensures StableWith(key, Sort(key, s), s)
  {
    if s != [] {
      SortStable(key, s[1..]);
      forall v ensures WithRank(key, Sort(key, s), v) == WithRank(key, s, v) {
        InsertStable(key, s[0], Sort(key, s[1..]), v);
      }
    }
  }

  lemma TailKeepsIdsUnique(s: seq<Item>)
    requires UniqueIds(s) && s != []
    ensures UniqueIds(s[1..])
  {
    forall i, j | 0 <= i < j < |s| - 1 ensures s[1..][i].id != s[1..][j].id {
      assert s[1..][i] == s[i + 1] && s[1..][j] == s[j + 1];
    }
  }

  /** Sorting a list without repeated identifiers repeats none. */
  lemma {:induction false} SortKeepsIdsUnique(key: string, s: seq<Item>)
    requires UniqueIds(s)
    ensures UniqueIds(Sort(key, s))
  {
    if s != [] {
      TailKeepsIdsUnique(s);
      SortKeepsIdsUnique(key, s[1..]);
      var rest := Sort(key, s[1..]);
      forall y | y in rest ensures y.id != s[0].id {
        assert y in multiset(rest);
        var k :| 0 <= k < |s| - 1 && s[1..][k] == y;
        assert s[k + 1] == y;
      }
      InsertKeepsIdsUnique(key, s[0], rest);
    }
  }

  /** Sortedness and stability leave only one possible arrangement, so the
      result of `sort` is determined by the comparator alone. */
  lemma {:induction false} SortedStableUnique(key: string, r: seq<Item>, t: seq<Item>)
    requires SortedBy(key, r) && SortedBy(key, t) && StableWith(key, r, t)
    ensures r == t
    decreases |r| + |t|
  {
    if r != [] {
      assert r[0] in WithRank(key, r, Rank(key, r[0]));
    }
    if t != [] {
      assert t[0] in WithRank(key, t, Rank(key, t[0]));
    }
    if r != [] && t != [] {
      var m := Rank(key, r[0]);
      SortedHeadIsLeast(key, r, t[0]);
      SortedHeadIsLeast(key, t, r[0]);
      assert Rank(key, t[0]) == m;
      var a, b := WithRank(key, r[1..], m), WithRank(key, t[1..], m);
      assert WithRank(key, r, m) == [r[0]] + a;
      assert WithRank(key, t, m) == [t[0]] + b;
      assert [r[0]] + a == [t[0]] + b;
      assert r[0] == ([r[0]] + a)[0] == ([t[0]] + b)[0] == t[0];
      assert a == ([r[0]] + a)[1..] == ([t[0]] + b)[1..] == b;
      forall v ensures WithRank(key, r[1..], v) == WithRank(key, t[1..], v) {
        assert WithRank(key, r, v) == WithRank(key, t, v);
      }
      SortedTail(key, r);
      SortedTail(key, t);
      SortedStableUnique(key, r[1..], t[1..]);
      assert r == [r[0]] + r[1..] && t == [t[0]] + t[1..];
    }
  }

  /** Every arrangement that is sorted and keeps ties in their order is the one
      `Sort` produces: `Sort` meets the requirements of section 23.1.3.30 of
      ECMA-262 and nothing else does. */
  lemma SortIsTheStableSort(key: string, s: seq<Item>, r: seq<Item>)
    requires SortedBy(key, r) && StableWith(key, r, s)
    ensures r == Sort(key, s)
  {
    SortStable(key, s);
    SortedStableUnique(key, r, Sort(key, s));
  }

  /** Sorting an already sorted list changes nothing; so sorting twice is sorting once. */
  lemma SortIdempotent(key: string, s: seq<Item>)
    ensures SortedBy(key, s) ==> Sort(key, s) == s
    ensures Sort(key, Sort(key, s)) == Sort(key, s)
  {
    if SortedBy(key, s) {
      SortIsTheStableSort(key, s, s);
    }
    SortIsTheStableSort(key, Sort(key, s), Sort(key, s));
  }

  /** The comparator of an unknown sort value always answers 0, so the filtered
      order is kept. */
  lemma UnknownKeyKeepsOrder(key: string, s: seq<Item>)
    requires key != Newest && key != Oldest && key != Popular && key != Views
    ensures Sort(key, s) == s
  {
    SortIsTheStableSort(key, s, s);
  }

  /** What each sort option orders by, in the terms of the item fields. */
  lemma SortedMeaning(key: string, r: seq<Item>)
    requires SortedBy(key, r)
    ensures key == Newest ==> forall i, j :: 0 <= i < j < |r| ==> r[i].date >= r[j].date
    ensures key == Oldest ==> forall i, j :: 0 <= i < j < |r| ==> r[i].date <= r[j].date
    ensures key == Popular ==> forall i, j :: 0 <= i < j < |r| ==> r[i].likes >= r[j].likes
    ensures key == Views ==> forall i, j :: 0 <= i < j < |r| ==> r[i].views >= r[j].views
  {
    forall i, j | 0 <= i < j < |r| ensures Compare(key, r[i], r[j]) <= 0 {
    }
  }

  // ---------------------------------------------------------------------------
  // Projection

  lemma PermutationMembers(a: seq<Item>, b: seq<Item>)
    requires multiset(a) == multiset(b)
    ensures forall x :: x in a <==> x in b
  {
    forall x ensures x in a <==> x in b {
      assert x in a <==> x in multiset(a);
    }
  }

  /** `filteredAndSortedItems`: filter, then sort the matches. */
  function Project(items: seq<Item>, query: string, category: string, key: string): (r: seq<Item>)
    ensures forall x :: x in r <==> x in items && Matches(x, query, category)
    ensures multiset(r) == multiset(Filter(items, query, category))
    ensures SortedBy(key, r)
    ensures StableWith(key, r, Filter(items, query, category))
    ensures UniqueIds(items) ==> UniqueIds(r)
  {
    var f := Filter(items, query, category);
    var r := Sort(key, f);
    PermutationMembers(r, f);
    SortStable(key, f);
    if UniqueIds(items) then
      FilterKeepsIdsUnique(items, query, category);
      SortKeepsIdsUnique(key, f);
      r
    else r
  }

  /** With the default filters the projection shows every gallery item, and
      with an unknown sort value in the gallery's own order. */
  lemma DefaultProjectionShowsAll(items: seq<Item>, key: string)
    ensures multiset(Project(items, "", AllCategories, key)) == multiset(items)
    ensures key != Newest && key != Oldest && key != Popular && key != Views ==>
              Project(items, "", AllCategories, key) == items
  {
    DefaultFilterKeepsAll(items);
    if key != Newest && key != Oldest && key != Popular && key != Views {
      UnknownKeyKeepsOrder(key, items);
    }
  }

  // ---------------------------------------------------------------------------
  // Lightbox navigation

  /** `findIndex(item => item.id === id)`: the first position with that
      identifier, or -1. */
  function FindIndex(s: seq<Item>, id: int): (i: int)
    ensures -1 <= i < |s|
    ensures 0 <= i ==> s[i].id == id && forall k :: 0 <= k < i ==> s[k].id != id
    ensures i == -1 <==> forall k :: 0 <= k < |s| ==> s[k].id != id
  {
    if s == [] then -1
    else if s[0].id == id then 0
    else
      var j := FindIndex(s[1..], id);
      assert forall k :: 1 <= k < |s| ==> s[k] == s[1..][k - 1];
      if j == -1 then -1 else j + 1
  }

  /** `s[i]`: `undefined` outside the list. */
  function At(s: seq<Item>, i: int): (r: Option<Item>)
    ensures r.Some? <==> 0 <= i < |s|
    ensures r.Some? ==> r.value == s[i]
  {
    if 0 <= i < |s| then Some(s[i]) else None
  }

  /** The previous-image button: the entry before the focused one, wrapping to
      the last. With an empty list the index is `NaN` and the result
      `undefined`, which closes the lightbox. */
  function StepBack(p: seq<Item>, focused: Item): Option<Item>
  {
    if |p| == 0 then None
    else At(p, Cyclic.PrevIndex(FindIndex(p, focused.id), |p|))
  }

  /** The next-image button: the entry after the focused one, wrapping to the first. */
  function StepForward(p: seq<Item>, focused: Item): Option<Item>
  {
    if |p| == 0 then None
    else At(p, Cyclic.NextIndex(FindIndex(p, focused.id), |p|))
  }

  /** In a list without repeated identifiers, the steps from entry `k` land on
      the neighbouring entries, wrapping at both ends; the result is always an
      entry of the list. */
  lemma StepsFromEntry(p: seq<Item>, k: int)
    requires UniqueIds(p) && 0 <= k < |p|
    ensures FindIndex(p, p[k].id) == k
    ensures StepForward(p, p[k]) == Some(p[if k == |p| - 1 then 0 else k + 1])
    ensures StepBack(p, p[k]) == Some(p[if k == 0 then |p| - 1 else k - 1])
  {
  }

  /** Next from the last entry shows the first; previous from the first shows the last. */
  lemma StepsWrapAround(p: seq<Item>)
    requires UniqueIds(p) && |p| > 0
    ensures StepForward(p, p[|p| - 1]) == Some(p[0])
    ensures StepBack(p, p[0]) == Some(p[|p| - 1])
  {
    StepsFromEntry(p, |p| - 1);
    StepsFromEntry(p, 0);
  }

  /** Next then previous, or previous then next, over an unchanged list shows
      the image the lightbox started on. */
  lemma StepsAreInverse(p: seq<Item>, x: Item)
    requires UniqueIds(p) && x in p
    ensures StepForward(p, x).Some? && StepBack(p, StepForward(p, x).value) == Some(x)
    ensures StepBack(p, x).Some? && StepForward(p, StepBack(p, x).value) == Some(x)
  {
    var k :| 0 <= k < |p| && p[k] == x;
    StepsFromEntry(p, k);
    var n := if k == |p| - 1 then 0 else k + 1;
    var b := if k == 0 then |p| - 1 else k - 1;
    StepsFromEntry(p, n);
    StepsFromEntry(p, b);
  }

  /** On a one-image list both buttons show that image, whatever is focused. */
  lemma SingleEntrySteps(p: seq<Item>, x: Item)
    requires |p| == 1
    ensures StepForward(p, x) == StepBack(p, x) == Some(p[0])
  {
    Cyclic.StepsFromMissing(1);
  }

  /** When the focused image is no longer in the list (`findIndex` gives -1),
      next shows the first entry and previous the second to last (the only
      entry, for a single one); an empty list closes the lightbox. */
  lemma StepsFromMissingEntry(p: seq<Item>, x: Item)
    requires forall k :: 0 <= k < |p| ==> p[k].id != x.id
    ensures |p| == 0 ==> StepForward(p, x) == None && StepBack(p, x) == None
    ensures |p| > 0 ==> StepForward(p, x) == Some(p[0])
    ensures |p| > 0 ==> StepBack(p, x) == Some(p[if |p| >= 2 then |p| - 2 else 0])
  {
    if |p| > 0 {
      Cyclic.StepsFromMissing(|p|);
    }
  }

  /** Whenever the focused image has its identifier in the list, both steps
      land on an entry of the list. */
  lemma StepsStayInList(p: seq<Item>, x: Item)
    requires exists k :: 0 <= k < |p| && p[k].id == x.id
    ensures StepForward(p, x).Some? && StepForward(p, x).value in p
    ensures StepBack(p, x).Some? && StepBack(p, x).value in p
  {
    var i := FindIndex(p, x.id);
    Cyclic.StepsStayInRange(i, |p|);
  }
}
