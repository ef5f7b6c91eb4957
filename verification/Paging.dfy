/** Filtered, sorted listings read page by page, and the separate count. */
module Paging {
  import opened Text

  /** A stored item: its id (never empty), its sort key, and what a query's filters look at. */
  datatype Item<D> = Item(id: string, key: int, data: D)

  datatype Page<D> = Page(items: seq<Item<D>>, next: Option<string>)

  datatype Order = Ascending | Descending

  // ---------- filtering and stable sorting ----------

  function Filter<D>(store: seq<Item<D>>, wanted: D -> bool): (r: seq<Item<D>>)
    ensures forall x :: x in r ==> x in store && wanted(x.data)
    ensures |r| <= |store|
  {
    if store == [] then []
    else (if wanted(store[0].data) then [store[0]] else []) + Filter(store[1..], wanted)
  }

  lemma {:induction false} FilterHasAll<D>(store: seq<Item<D>>, wanted: D -> bool, x: Item<D>)
    requires x in store && wanted(x.data)
    ensures x in Filter(store, wanted)
  {
    if store[0] != x { FilterHasAll(store[1..], wanted, x); }
  }

  /** `a` may stand before `b`. */
  predicate Before<D>(order: Order, a: Item<D>, b: Item<D>)
  {
    if order.Ascending? then a.key <= b.key else a.key >= b.key
  }

  predicate SortedBy<D>(order: Order, items: seq<Item<D>>)
  {
    forall i, j :: 0 <= i < j < |items| ==> Before(order, items[i], items[j])
  }

  /** Puts `x` in front of the items it may precede, so equal keys keep their order. */
  function Insert<D>(order: Order, x: Item<D>, items: seq<Item<D>>): (r: seq<Item<D>>)
    ensures multiset(r) == multiset([x] + items)
  {
    if items == [] || Before(order, x, items[0]) then [x] + items
    else
      assert items == [items[0]] + items[1..];
      [items[0]] + Insert(order, x, items[1..])
  }

  /** Python's `sort` with a key; `reverse` keeps equal keys in their original order too. */
  function StableSort<D>(order: Order, items: seq<Item<D>>): (r: seq<Item<D>>)
    ensures multiset(r) == multiset(items)
  {
    if items == [] then []
    else
      assert items == [items[0]] + items[1..];
      Insert(order, items[0], StableSort(order, items[1..]))
  }

  lemma InsertKeepsItems<D>(order: Order, x: Item<D>, items: seq<Item<D>>, y: Item<D>)
    requires y in Insert(order, x, items)
    ensures y == x || exists k :: 0 <= k < |items| && items[k] == y
  {
    assert y in multiset(Insert(order, x, items));
    assert y in multiset([x] + items);
  }

  lemma {:induction false} InsertSorted<D>(order: Order, x: Item<D>, items: seq<Item<D>>)
    requires SortedBy(order, items)
    ensures SortedBy(order, Insert(order, x, items))
  {
    if items != [] && !Before(order, x, items[0]) {
      InsertSorted(order, x, items[1..]);
      forall y | y in Insert(order, x, items[1..]) ensures Before(order, items[0], y) {
        InsertKeepsItems(order, x, items[1..], y);
      }
    }
  }

  lemma {:induction false} StableSortSorted<D>(order: Order, items: seq<Item<D>>)
    ensures SortedBy(order, StableSort(order, items))
  {
    if items != [] {
      StableSortSorted(order, items[1..]);
      InsertSorted(order, items[0], StableSort(order, items[1..]));
    }
  }

  /** Items with one key, in order of appearance. */
  function WithKey<D>(items: seq<Item<D>>, key: int): seq<Item<D>>
  {
    if items == [] then [] else (if items[0].key == key then [items[0]] else []) + WithKey(items[1..], key)
  }

  lemma WithKeyCons<D>(x: Item<D>, items: seq<Item<D>>, key: int)
    ensures WithKey([x] + items, key) == (if x.key == key then [x] else []) + WithKey(items, key)
  {
    assert ([x] + items)[1..] == items;
  }

  lemma InsertStep<D>(order: Order, x: Item<D>, items: seq<Item<D>>)
    requires items != [] && !Before(order, x, items[0])
    ensures Insert(order, x, items) == [items[0]] + Insert(order, x, items[1..])
  {
  }

  lemma InsertInFront<D>(order: Order, x: Item<D>, items: seq<Item<D>>)
    requires items == [] || Before(order, x, items[0])
    ensures Insert(order, x, items) == [x] + items
  {
  }

  /** An item passed over on the way in has another key. */
  lemma {:induction false} InsertStable<D>(order: Order, x: Item<D>, items: seq<Item<D>>, key: int)
    ensures WithKey(Insert(order, x, items), key) == (if x.key == key then [x] else []) + WithKey(items, key)
  {
    hide Insert, WithKey;
    if items == [] || Before(order, x, items[0]) {
      InsertInFront(order, x, items);
      WithKeyCons(x, items, key);
    } else {
      InsertStep(order, x, items);
      InsertStable(order, x, items[1..], key);
      WithKeyCons(items[0], Insert(order, x, items[1..]), key);
      WithKeyCons(items[0], items[1..], key);
      assert items == [items[0]] + items[1..];
    }
  }

  /** Sorting keeps the order of items with equal keys. */
  lemma {:induction false} StableSortStable<D>(order: Order, items: seq<Item<D>>, key: int)
    ensures WithKey(StableSort(order, items), key) == WithKey(items, key)
  {
    if items != [] {
      StableSortStable(order, items[1..], key);
      InsertStable(order, items[0], StableSort(order, items[1..]), key);
    }
  }

  function Listing<D>(store: seq<Item<D>>, wanted: D -> bool, order: Order): seq<Item<D>>
  {
    StableSort(order, Filter(store, wanted))
  }

  // ---------- one page ----------

  predicate UniqueIds<D>(items: seq<Item<D>>)
  {
    forall i, j :: 0 <= i < j < |items| ==> items[i].id != items[j].id
  }

  /** Index of the first item with this id, or 0: an absent or unknown page id means the beginning. */
  function StartIndex<D>(all: seq<Item<D>>, pageId: Option<string>): (i: nat)
    ensures i <= |all|
    ensures i > 0 ==> i < |all| && pageId.Some? && all[i].id == pageId.value
  {
    if pageId.None? || pageId.value == "" then 0
    else match IndexOf(all, pageId.value, 0) case Some(i) => i case None => 0
  }

  function IndexOf<D>(all: seq<Item<D>>, id: string, from: nat): (r: Option<nat>)
    requires from <= |all|
    ensures r.Some? ==> from <= r.value < |all| && all[r.value].id == id
    ensures r.Some? ==> forall j :: from <= j < r.value ==> all[j].id != id
    ensures r.None? ==> forall j :: from <= j < |all| ==> all[j].id != id
    decreases |all| - from
  {
    if from == |all| then None else if all[from].id == id then Some(from) else IndexOf(all, id, from + 1)
  }

  /** From the start index on: up to `limit` items, and the id of the first one left out. */
  function PageAt<D>(all: seq<Item<D>>, start: nat, limit: int): (page: Page<D>)
    requires start <= |all|
    ensures |page.items| <= Max(0, limit) && start + |page.items| <= |all|
    ensures page.items == all[start..start + |page.items|]
    ensures page.next.Some? <==> |all| - start > Max(0, limit)
    ensures page.next.Some? ==> |page.items| == Max(0, limit) && page.next.value == all[start + |page.items|].id
    ensures page.next.None? ==> start + |page.items| == |all|
  {
    var end := Min(start + Max(0, limit), |all|);
    Page(all[start..end], if end < |all| then Some(all[end].id) else None)
  }

  method Search<D>(all: seq<Item<D>>, pageId: Option<string>, limit: int) returns (page: Page<D>)
    ensures page == PageAt(all, StartIndex(all, pageId), limit)
    ensures |page.items| <= Max(0, limit)
    ensures page.next.Some? <==> |all| - StartIndex(all, pageId) > Max(0, limit)
  {
    var items: seq<Item<D>> := [];
    var startIndex := 0;
    if pageId.Some? && pageId.value != "" {
      for i := 0 to |all|
        invariant startIndex == 0
        invariant IndexOf(all, pageId.value, 0) == IndexOf(all, pageId.value, i)
      {
        if all[i].id == pageId.value {
          startIndex := i;
          break;
        }
      }
    }
    assert startIndex == StartIndex(all, pageId);
    var next: Option<string> := None;
    for i := startIndex to |all|
      invariant items == all[startIndex..i] && next.None?
      invariant |items| <= Max(0, limit)
    {
      if |items| >= limit {
        next := Some(all[i].id);
        break;
      }
      items := items + [all[i]];
    }
    page := Page(items, next);
  }

  /** The matching events collected by a loop. */
  method Collect<D>(store: seq<Item<D>>, wanted: D -> bool) returns (all: seq<Item<D>>)
    ensures all == Filter(store, wanted)
  {
    hide Filter;
    all := [];
    assert store[0..] == store;
    for i := 0 to |store|
      invariant all + Filter(store[i..], wanted) == Filter(store, wanted)
    {
      if !wanted(store[i].data) {
        FilterSkips(store, wanted, i);
        continue;
      }
      FilterKeeps(store, wanted, i, all);
      all := all + [store[i]];
    }
    assert store[|store|..] == [] && Filter(store[|store|..], wanted) == [];
  }

  lemma FilterSkips<D>(store: seq<Item<D>>, wanted: D -> bool, i: nat)
    requires i < |store| && !wanted(store[i].data)
    ensures Filter(store[i..], wanted) == Filter(store[i + 1..], wanted)
  {
    hide Filter;
    FilterStep(store, wanted, i);
  }

  lemma FilterKeeps<D>(store: seq<Item<D>>, wanted: D -> bool, i: nat, all: seq<Item<D>>)
    requires i < |store| && wanted(store[i].data)
    ensures all + Filter(store[i..], wanted) == (all + [store[i]]) + Filter(store[i + 1..], wanted)
  {
    hide Filter;
    FilterStep(store, wanted, i);
  }

  lemma FilterStep<D>(store: seq<Item<D>>, wanted: D -> bool, i: nat)
    requires i < |store|
    ensures Filter(store[i..], wanted) ==
            (if wanted(store[i].data) then [store[i]] else []) + Filter(store[i + 1..], wanted)
  {
    assert store[i..][1..] == store[i + 1..];
  }

  /** The count service: its own loop over the store. */
  method Count<D>(store: seq<Item<D>>, wanted: D -> bool) returns (count: nat)
    ensures count == |Filter(store, wanted)|
  {
    count := 0;
    for i := 0 to |store|
      invariant count + |Filter(store[i..], wanted)| == |Filter(store, wanted)|
    {
      FilterStep(store, wanted, i);
      if !wanted(store[i].data) { continue; }
      count := count + 1;
    }
  }

  /** A whole search: collect the matching items, sort them, cut the page out. */
  method SearchStore<D>(store: seq<Item<D>>, wanted: D -> bool, order: Order, pageId: Option<string>, limit: int)
    returns (page: Page<D>)
    ensures var listing := Listing(store, wanted, order); page == PageAt(listing, StartIndex(listing, pageId), limit)
  {
    var all := Collect(store, wanted);
    all := StableSort(order, all);
    page := Search(all, pageId, limit);
  }

  // ---------- sorting first, filtering afterwards ----------

  lemma FilterCons<D>(x: Item<D>, items: seq<Item<D>>, wanted: D -> bool)
    ensures Filter([x] + items, wanted) ==
            if wanted(x.data) then [x] + Filter(items, wanted) else Filter(items, wanted)
  {
    assert ([x] + items)[1..] == items;
  }

  lemma {:induction false} FilterInsert<D>(order: Order, x: Item<D>, items: seq<Item<D>>, wanted: D -> bool)
    requires SortedBy(order, items)
    ensures Filter(Insert(order, x, items), wanted) ==
            if wanted(x.data) then Insert(order, x, Filter(items, wanted)) else Filter(items, wanted)
  {
    hide Insert, Filter;
    if items == [] || Before(order, x, items[0]) {
      InsertInFront(order, x, items);
      FilterCons(x, items, wanted);
      var kept := Filter(items, wanted);
      if kept != [] { FirstIsBefore(order, x, items, kept[0]); }
      InsertInFront(order, x, kept);
    } else {
      InsertStep(order, x, items);
      FilterInsert(order, x, items[1..], wanted);
      FilterCons(items[0], Insert(order, x, items[1..]), wanted);
      FilterCons(items[0], items[1..], wanted);
      assert items == [items[0]] + items[1..];
      if wanted(items[0].data) && wanted(x.data) {
        var kept := [items[0]] + Filter(items[1..], wanted);
        InsertStep(order, x, kept);
        assert kept[1..] == Filter(items[1..], wanted);
      }
    }
  }

  lemma FirstIsBefore<D>(order: Order, x: Item<D>, items: seq<Item<D>>, y: Item<D>)
    requires SortedBy(order, items) && items != [] && Before(order, x, items[0]) && y in items
    ensures Before(order, x, y)
  {
  }

  /** Filtering before or after a stable sort gives the same listing. */
  lemma {:induction false} SortThenFilter<D>(store: seq<Item<D>>, wanted: D -> bool, order: Order)
    ensures Filter(StableSort(order, store), wanted) == Listing(store, wanted, order)
  {
    hide Insert, Filter, StableSort;
    if store == [] {
      NothingListed(store, wanted, order);
    } else {
      SortThenFilter(store[1..], wanted, order);
      StableSortSorted(order, store[1..]);
      FilterInsert(order, store[0], StableSort(order, store[1..]), wanted);
      FilterCons(store[0], store[1..], wanted);
      assert store == [store[0]] + store[1..];
      SortCons(order, store[0], store[1..]);
      SortCons(order, store[0], Filter(store[1..], wanted));
    }
  }

  lemma NothingListed<D>(store: seq<Item<D>>, wanted: D -> bool, order: Order)
    requires store == []
    ensures Filter(StableSort(order, store), wanted) == Listing(store, wanted, order)
  {
  }

  lemma SortCons<D>(order: Order, x: Item<D>, items: seq<Item<D>>)
    ensures StableSort(order, [x] + items) == Insert(order, x, StableSort(order, items))
  {
    assert ([x] + items)[1..] == items;
  }

  /** The search over event files: it sorts first and then keeps the files in the time range. */
  method SearchFiles<D>(files: seq<Item<D>>, inRange: D -> bool, order: Order, pageId: Option<string>, limit: int)
    returns (page: Page<D>)
    ensures var listing := Listing(files, inRange, order); page == PageAt(listing, StartIndex(listing, pageId), limit)
  {
    var sorted := StableSort(order, files);
    var kept := Collect(sorted, inRange);
    SortThenFilter(files, inRange, order);
    page := Search(kept, pageId, limit);
  }

  /** Ascending keys never fall and descending ones never rise. */
  lemma ListingKeys<D>(store: seq<Item<D>>, wanted: D -> bool, order: Order, i: nat, j: nat)
    requires i < j < |Listing(store, wanted, order)|
    ensures var listing := Listing(store, wanted, order);
            if order.Ascending? then listing[i].key <= listing[j].key else listing[i].key >= listing[j].key
  {
    hide StableSort, Filter;
    StableSortSorted(order, Filter(store, wanted));
  }

  /** A page id starts the page at its item; an unknown one starts it at the beginning. */
  lemma PageStarts<D>(all: seq<Item<D>>, pageId: string, i: nat)
    requires UniqueIds(all) && pageId != ""
    ensures i < |all| && all[i].id == pageId ==> StartIndex(all, Some(pageId)) == i
    ensures (forall j :: 0 <= j < |all| ==> all[j].id != pageId) ==> StartIndex(all, Some(pageId)) == 0
  {
    if i < |all| && all[i].id == pageId {
      var found := IndexOf(all, pageId, 0);
      assert found.Some? ==> all[found.value].id == all[i].id;
    }
  }

  // ---------- following the pages ----------

  /** All pages from `pageId` on, by following `next`; `fuel` pages at most. */
  function Follow<D>(all: seq<Item<D>>, pageId: Option<string>, limit: int, fuel: nat): Option<seq<Item<D>>>
    decreases fuel
  {
    if fuel == 0 then None
    else
      var page := PageAt(all, StartIndex(all, pageId), limit);
      if page.next.None? then Some(page.items)
      else
        match Follow(all, page.next, limit, fuel - 1)
        case None => None
        case Some(rest) => Some(page.items + rest)
  }

  /** A page's `next` leads exactly to where it stopped. */
  lemma NextContinues<D>(all: seq<Item<D>>, start: nat, limit: int)
    requires UniqueIds(all) && (forall x :: x in all ==> x.id != "") && start <= |all|
    requires PageAt(all, start, limit).next.Some?
    ensures StartIndex(all, PageAt(all, start, limit).next) == start + Max(0, limit) < |all|
  {
    var end := start + Max(0, limit);
    assert all[end] in all;
    var found := IndexOf(all, all[end].id, 0);
    assert found.Some? ==> all[found.value].id == all[end].id;
  }

  lemma FollowLast<D>(all: seq<Item<D>>, pageId: Option<string>, limit: int, fuel: nat)
    requires fuel > 0 && PageAt(all, StartIndex(all, pageId), limit).next.None?
    ensures Follow(all, pageId, limit, fuel) == Some(all[StartIndex(all, pageId)..])
  {
    assert all[StartIndex(all, pageId)..|all|] == all[StartIndex(all, pageId)..];
  }

  lemma FollowOne<D>(all: seq<Item<D>>, pageId: Option<string>, limit: int, fuel: nat, next: nat)
    requires limit >= 1 && fuel > 0 && PageAt(all, StartIndex(all, pageId), limit).next.Some?
    requires next == StartIndex(all, pageId) + limit < |all|
    requires Follow(all, PageAt(all, StartIndex(all, pageId), limit).next, limit, fuel - 1) == Some(all[next..])
    ensures Follow(all, pageId, limit, fuel) == Some(all[StartIndex(all, pageId)..])
  {
    hide Follow, StartIndex;
    FollowUnfold(all, pageId, limit, fuel);
    SliceJoin(all, StartIndex(all, pageId), next);
  }

  lemma FollowUnfold<D>(all: seq<Item<D>>, pageId: Option<string>, limit: int, fuel: nat)
    requires fuel > 0
    ensures var page := PageAt(all, StartIndex(all, pageId), limit);
            page.next.Some? && Follow(all, page.next, limit, fuel - 1).Some? ==>
            Follow(all, pageId, limit, fuel) == Some(page.items + Follow(all, page.next, limit, fuel - 1).value)
  {
    hide PageAt, StartIndex;
  }

  lemma SliceJoin<T>(s: seq<T>, from: nat, mid: nat)
    requires from <= mid <= |s|
    ensures s[from..mid] + s[mid..] == s[from..]
  {
  }

  /** With a positive limit, following the pages ends and yields the rest of the listing, once each. */
  lemma {:induction false} FollowFrom<D>(all: seq<Item<D>>, pageId: Option<string>, limit: int, fuel: nat)
    requires UniqueIds(all) && (forall x :: x in all ==> x.id != "") && limit >= 1
    requires fuel > |all| - StartIndex(all, pageId)
    ensures Follow(all, pageId, limit, fuel) == Some(all[StartIndex(all, pageId)..])
    decreases fuel
  {
    hide StartIndex, PageAt, Follow, UniqueIds;
    var start := StartIndex(all, pageId);
    if PageAt(all, start, limit).next.None? {
      FollowLast(all, pageId, limit, fuel);
    } else {
      NextContinues(all, start, limit);
      FollowFrom(all, PageAt(all, start, limit).next, limit, fuel - 1);
      FollowOne(all, pageId, limit, fuel, start + limit);
    }
  }

  /** Following the pages from the beginning never ends iff the limit is not positive and the listing
      is not empty; otherwise it yields exactly the whole listing. */
  lemma PagesMakeTheListing<D>(all: seq<Item<D>>, limit: int)
    requires UniqueIds(all) && forall x :: x in all ==> x.id != ""
    ensures (exists fuel :: Follow(all, None, limit, fuel).Some?) <==> limit >= 1 || all == []
    ensures limit >= 1 || all == [] ==> Follow(all, None, limit, |all| + 1) == Some(all)
  {
    if limit >= 1 {
      FollowFrom(all, None, limit, |all| + 1);
      assert all[0..] == all;
    } else if all == [] {
      assert Follow(all, None, limit, 1) == Some([]);
    } else {
      forall fuel: nat ensures Follow(all, None, limit, fuel).None? { StuckPage(all, None, limit, fuel); }
    }
  }

  /** A page without room for an item names its own first item as the next page, for ever. */
  lemma {:induction false} StuckPage<D>(all: seq<Item<D>>, pageId: Option<string>, limit: int, fuel: nat)
    requires UniqueIds(all) && (forall x :: x in all ==> x.id != "") && limit <= 0
    requires StartIndex(all, pageId) < |all|
    ensures Follow(all, pageId, limit, fuel).None?
    decreases fuel
  {
    hide StartIndex;
    if fuel > 0 {
      NextContinues(all, StartIndex(all, pageId), limit);
      StuckPage(all, PageAt(all, StartIndex(all, pageId), limit).next, limit, fuel - 1);
    }
  }

  /** The listing holds exactly the stored items the filters want. */
  lemma ListingMembers<D>(store: seq<Item<D>>, wanted: D -> bool, order: Order, x: Item<D>)
    ensures x in Listing(store, wanted, order) <==> x in store && wanted(x.data)
  {
    var matching := Filter(store, wanted);
    assert x in StableSort(order, matching) <==> x in multiset(StableSort(order, matching));
    assert x in matching <==> x in multiset(matching);
    if x in store && wanted(x.data) { FilterHasAll(store, wanted, x); }
  }

  lemma ListingUnique<D>(store: seq<Item<D>>, wanted: D -> bool, order: Order)
    requires UniqueIds(store)
    ensures UniqueIds(Listing(store, wanted, order))
    ensures |Listing(store, wanted, order)| == |Filter(store, wanted)|
  {
    var listing, matching := Listing(store, wanted, order), Filter(store, wanted);
    FilterUnique(store, wanted);
    SameItemsUnique(matching, listing);
    assert |multiset(listing)| == |multiset(matching)|;
  }

  /** Over an unchanged store: the pages concatenate to the sorted, stable listing of exactly the
      matching items, each once, and there are as many as the count says. */
  lemma SearchAgreesWithCount<D>(store: seq<Item<D>>, wanted: D -> bool, order: Order, limit: int)
    requires UniqueIds(store) && (forall x :: x in store ==> x.id != "") && limit >= 1
    ensures var listing := Listing(store, wanted, order);
            && Follow(listing, None, limit, |listing| + 1) == Some(listing)
            && SortedBy(order, listing) && UniqueIds(listing)
            && (forall x :: x in listing <==> x in store && wanted(x.data))
            && |listing| == |Filter(store, wanted)|
  {
    hide UniqueIds, SortedBy, Follow, Filter, StableSort;
    var listing := Listing(store, wanted, order);
    StableSortSorted(order, Filter(store, wanted));
    ListingUnique(store, wanted, order);
    forall x ensures x in listing <==> x in store && wanted(x.data) { ListingMembers(store, wanted, order, x); }
    forall x | x in listing ensures x.id != "" { ListingMembers(store, wanted, order, x); }
    PagesMakeTheListing(listing, limit);
  }

  lemma {:induction false} FilterUnique<D>(store: seq<Item<D>>, wanted: D -> bool)
    requires UniqueIds(store)
    ensures UniqueIds(Filter(store, wanted))
  {
    if store != [] {
      assert forall i, j :: 0 <= i < j < |store[1..]| ==>
          store[1..][i] == store[i + 1] && store[1..][j] == store[j + 1];
      FilterUnique(store[1..], wanted);
      forall x | x in store[1..] ensures x.id != store[0].id {
        var i :| 0 <= i < |store[1..]| && store[1..][i] == x;
        assert store[i + 1] == x;
      }
    }
  }

  /** Rearranging items with unique ids keeps the ids unique. */
  lemma SameItemsUnique<D>(a: seq<Item<D>>, b: seq<Item<D>>)
    requires UniqueIds(a) && multiset(a) == multiset(b)
    ensures UniqueIds(b)
  {
    forall i, j | 0 <= i < j < |b| ensures b[i].id != b[j].id {
      if b[i].id == b[j].id {
        assert b[i] in multiset(b) && b[j] in multiset(b);
        assert b[i] in a && b[j] in a;
        if b[i] == b[j] {
          TwiceInMultiset(b, i, j);
          OnceInMultiset(a, b[i]);
        }
      }
    }
  }

  lemma TwiceInMultiset<D>(b: seq<Item<D>>, i: nat, j: nat)
    requires i < j < |b| && b[i] == b[j]
    ensures multiset(b)[b[i]] >= 2
  {
    assert b == b[..i] + [b[i]] + b[i + 1..j] + [b[j]] + b[j + 1..];
  }

  lemma OnceInMultiset<D>(a: seq<Item<D>>, x: Item<D>)
    requires UniqueIds(a)
    ensures multiset(a)[x] <= 1
  {
    if x in a {
      var i :| 0 <= i < |a| && a[i] == x;
      assert x !in a[..i] && x !in a[i + 1..];
      assert a == a[..i] + [x] + a[i + 1..];
    }
  }
}
