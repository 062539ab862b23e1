/** The forum index: visible top-level categories with their visible children, thread counts and
    recent threads, assembled with grouping maps that are emptied as they are used. */
module ForumIndex {
  import opened Common
  import opened AuthUsers
  import opened Permissions

  /** A category as the index lists it. */
  datatype Listing = Listing(category: Category, parent: Option<Id>, slug: string, name: string)
  {
    function Id(): Id { category.id }
  }

  datatype Thread = Thread(
    id: Id, categoryId: Id, title: string,
    categorySlug: string, categoryName: Option<string>, tags: seq<string>)

  datatype Subcategory = Subcategory(listing: Listing, threadCount: nat)

  datatype Item = Item(listing: Listing, threadCount: nat, subcategories: seq<Subcategory>, recent: seq<Thread>)

  /** What the repositories answer: thread counts and recent threads for given categories, and
      the tags of given threads. */
  datatype Source = Source(
    counts: seq<Id> -> seq<(Id, nat)>,
    recent: seq<Id> -> seq<Thread>,
    tags: seq<Id> -> map<Id, seq<string>>)

  function Filter<T>(s: seq<T>, p: T -> bool): (r: seq<T>)
    ensures forall x <- r :: x in s && p(x)
    ensures forall x <- s :: p(x) ==> x in r
  {
    if s == [] then []
    else Filter(s[..|s| - 1], p) + (if p(s[|s| - 1]) then [s[|s| - 1]] else [])
  }

  function Map<T, U>(s: seq<T>, f: T -> U): seq<U> { seq(|s|, i requires 0 <= i < |s| => f(s[i])) }

  function Flatten<T>(s: seq<seq<T>>): seq<T> {
    if s == [] then [] else Flatten(s[..|s| - 1]) + s[|s| - 1]
  }

  predicate Distinct(listings: seq<Listing>) {
    forall i, j :: 0 <= i < j < |listings| ==> listings[i].Id() != listings[j].Id()
  }

  // ── What the index should be ───────────────────────────────────────────────

  function ListVisible(actor: Option<AuthUser>, all: seq<Listing>): seq<Listing> {
    Filter(all, (c: Listing) => CanViewCategory(actor, c.category).None?)
  }

  function TopLevel(visible: seq<Listing>): seq<Listing> { Filter(visible, (c: Listing) => c.parent.None?) }

  function ParentOf(c: Listing): Option<Id> { c.parent }

  function CategoryOf(t: Thread): Option<Id> { Some(t.categoryId) }

  /** The rows whose key is `k`, in their order. */
  function Members<V>(rows: seq<V>, key: V -> Option<Id>, k: Id): seq<V> {
    Filter(rows, (v: V) => key(v) == Some(k))
  }

  function Children(visible: seq<Listing>, parent: Id): seq<Listing> { Members(visible, ParentOf, parent) }

  function ThreadsIn(recent: seq<Thread>, category: Id): seq<Thread> { Members(recent, CategoryOf, category) }

  /** The count reported for a category, zero when none is; a later report replaces an earlier. */
  function CountOf(counts: seq<(Id, nat)>, id: Id): nat {
    if counts == [] then 0
    else if counts[|counts| - 1].0 == id then counts[|counts| - 1].1
    else CountOf(counts[..|counts| - 1], id)
  }

  function Relabelled(t: Thread, c: Listing): Thread {
    t.(categorySlug := c.slug, categoryName := Some(c.name))
  }

  function ItemOf(visible: seq<Listing>, counts: seq<(Id, nat)>, recent: seq<Thread>, c: Listing): Item {
    Item(c, CountOf(counts, c.Id()),
         Map(Children(visible, c.Id()), (s: Listing) => Subcategory(s, CountOf(counts, s.Id()))),
         Map(ThreadsIn(recent, c.Id()), (t: Thread) => Relabelled(t, c)))
  }

  function Untagged(visible: seq<Listing>, source: Source): seq<Item> {
    var counts := source.counts(Map(visible, (c: Listing) => c.Id()));
    var recent := source.recent(Map(TopLevel(visible), (c: Listing) => c.Id()));
    Map(TopLevel(visible), (c: Listing) => ItemOf(visible, counts, recent, c))
  }

  function Tagged(item: Item, tags: map<Id, seq<string>>): Item {
    item.(recent := Map(item.recent, (t: Thread) => t.(tags := if t.id in tags then tags[t.id] else [])))
  }

  function ThreadIds(items: seq<Item>): seq<Id> {
    Flatten(Map(items, (item: Item) => Map(item.recent, (t: Thread) => t.id)))
  }

  function Index(visible: seq<Listing>, source: Source): seq<Item> {
    var items := Untagged(visible, source);
    var tags := source.tags(ThreadIds(items));
    Map(items, (item: Item) => Tagged(item, tags))
  }

  // ── How it is assembled ────────────────────────────────────────────────────

  lemma FilterSnoc<T>(s: seq<T>, x: T, p: T -> bool)
    ensures Filter(s + [x], p) == Filter(s, p) + (if p(x) then [x] else [])
  {
    assert (s + [x])[..|s|] == s;
  }

  function Group<V>(groups: map<Id, seq<V>>, key: Id): seq<V> { if key in groups then groups[key] else [] }

  function Nested(visible: seq<Listing>): seq<Listing> { Filter(visible, (c: Listing) => c.parent.Some?) }

  lemma MembersSnoc<V>(rows: seq<V>, x: V, key: V -> Option<Id>, k: Id)
    ensures Members(rows + [x], key, k) == Members(rows, key, k) + (if key(x) == Some(k) then [x] else [])
  {
    FilterSnoc(rows, x, (v: V) => key(v) == Some(k));
  }

  lemma {:induction false} GroupedChildren(visible: seq<Listing>, k: Id)
    ensures Members(Nested(visible), ParentOf, k) == Members(visible, ParentOf, k)
  {
    if visible != [] {
      var n := |visible| - 1;
      var c := visible[n];
      GroupedChildren(visible[..n], k);
      assert visible == visible[..n] + [c];
      MembersSnoc(visible[..n], c, ParentOf, k);
      MembersSnoc(Nested(visible[..n]), c, ParentOf, k);
      assert ParentOf(c) == c.parent;
      hide Members;
      assert Nested(visible) == Nested(visible[..n]) + (if c.parent.Some? then [c] else []);
      if c.parent.None? { assert Nested(visible) == Nested(visible[..n]); }
    }
  }

  method GroupBy<V>(rows: seq<V>, key: V -> Option<Id>) returns (groups: map<Id, seq<V>>)
    ensures forall k: Id :: Group(groups, k) == Members(rows, key, k)
  {
    groups := map[];
    for i := 0 to |rows|
      invariant forall k: Id :: Group(groups, k) == Members(rows[..i], key, k)
    {
      assert rows[..i + 1] == rows[..i] + [rows[i]];
      forall k: Id
        ensures Members(rows[..i + 1], key, k)
             == Members(rows[..i], key, k) + (if key(rows[i]) == Some(k) then [rows[i]] else [])
      {
        MembersSnoc(rows[..i], rows[i], key, k);
      }
      if key(rows[i]).Some? {
        var k := key(rows[i]).value;
        groups := groups[k := Group(groups, k) + [rows[i]]];
      }
    }
    assert rows[..|rows|] == rows;
  }

  method CollectCounts(pairs: seq<(Id, nat)>) returns (counts: map<Id, nat>)
    ensures forall id: Id :: (if id in counts then counts[id] else 0) == CountOf(pairs, id)
  {
    counts := map[];
    for i := 0 to |pairs|
      invariant forall id: Id :: (if id in counts then counts[id] else 0) == CountOf(pairs[..i], id)
    {
      assert pairs[..i + 1][..i] == pairs[..i];
      counts := counts[pairs[i].0 := pairs[i].1];
    }
    assert pairs[..|pairs|] == pairs;
  }

  lemma {:induction false} FilterKeepsDistinct(s: seq<Listing>, p: Listing -> bool)
    requires Distinct(s)
    ensures Distinct(Filter(s, p))
  {
    if s != [] {
      var n := |s| - 1;
      FilterKeepsDistinct(s[..n], p);
      forall i | 0 <= i < |Filter(s[..n], p)| ensures Filter(s[..n], p)[i].Id() != s[n].Id() {
        assert Filter(s[..n], p)[i] in s[..n];
      }
    }
  }

  lemma {:induction false} FlattenHas<T>(s: seq<seq<T>>, i: nat, j: nat)
    requires i < |s| && j < |s[i]|
    ensures s[i][j] in Flatten(s)
  {
    if i < |s| - 1 {
      FlattenHas(s[..|s| - 1], i, j);
    }
  }

  lemma NothingToTag(items: seq<Item>, tags: map<Id, seq<string>>)
    requires ThreadIds(items) == []
    ensures Map(items, (item: Item) => Tagged(item, tags)) == items
  {
    var ids := Map(items, (item: Item) => Map(item.recent, (t: Thread) => t.id));
    forall i | 0 <= i < |items| ensures Tagged(items[i], tags) == items[i] {
      if items[i].recent != [] { FlattenHas(ids, i, 0); }
    }
  }

  method GetForumIndex(actor: Option<AuthUser>, all: seq<Listing>, source: Source) returns (index: seq<Item>)
    requires Distinct(all)
    ensures index == Index(ListVisible(actor, all), source)
  {
    var visible := ListVisible(actor, all);
    if visible == [] {
      return [];
    }
    var pairs := source.counts(Map(visible, (c: Listing) => c.Id()));
    var recent := source.recent(Map(TopLevel(visible), (c: Listing) => c.Id()));
    FilterKeepsDistinct(all, (c: Listing) => CanViewCategory(actor, c.category).None?);
    var items := Assemble(visible, pairs, recent);
    var ids := ThreadIds(items);
    if ids == [] {
      NothingToTag(items, source.tags(ids));
      return items;
    }
    var tags := source.tags(ids);
    index := Map(items, (item: Item) => Tagged(item, tags));
  }

  method BuildItem(c: Listing, subs: seq<Listing>, threads: seq<Thread>, counts: map<Id, nat>,
                   ghost visible: seq<Listing>, ghost pairs: seq<(Id, nat)>, ghost recent: seq<Thread>)
      returns (item: Item)
    requires forall id: Id :: (if id in counts then counts[id] else 0) == CountOf(pairs, id)
    requires subs == Children(visible, c.Id()) && threads == ThreadsIn(recent, c.Id())
    ensures item == ItemOf(visible, pairs, recent, c)
  {
    hide CountOf, Children, ThreadsIn;
    var subcategories := Map(subs, (s: Listing) => Subcategory(s, if s.Id() in counts then counts[s.Id()] else 0));
    return Item(c, if c.Id() in counts then counts[c.Id()] else 0, subcategories,
                Map(threads, (t: Thread) => Relabelled(t, c)));
  }

  /** One pass over the top-level categories, each taking its groups out of the maps. */
  method TakeGroups(parents: seq<Listing>, subs: map<Id, seq<Listing>>, threads: map<Id, seq<Thread>>,
                    counts: map<Id, nat>,
                    ghost visible: seq<Listing>, ghost pairs: seq<(Id, nat)>, ghost recent: seq<Thread>)
      returns (items: seq<Item>)
    requires Distinct(parents)
    requires forall id: Id :: (if id in counts then counts[id] else 0) == CountOf(pairs, id)
    requires forall k: Id :: Group(subs, k) == Children(visible, k) && Group(threads, k) == ThreadsIn(recent, k)
    ensures |items| == |parents|
    ensures forall i :: 0 <= i < |items| ==> items[i] == ItemOf(visible, pairs, recent, parents[i])
  {
    hide CountOf, Children, ThreadsIn, ItemOf;
    var subsByParent, threadsByCategory := subs, threads;
    items := [];
    for i := 0 to |parents|
      invariant |items| == i
      invariant forall j :: 0 <= j < i ==> items[j] == ItemOf(visible, pairs, recent, parents[j])
      invariant forall j :: i <= j < |parents| ==>
        && Group(subsByParent, parents[j].Id()) == Children(visible, parents[j].Id())
        && Group(threadsByCategory, parents[j].Id()) == ThreadsIn(recent, parents[j].Id())
    {
      var c := parents[i];
      var item := BuildItem(c, Group(subsByParent, c.Id()), Group(threadsByCategory, c.Id()), counts,
                            visible, pairs, recent);
      subsByParent := subsByParent - {c.Id()};
      threadsByCategory := threadsByCategory - {c.Id()};
      items := items + [item];
    }
  }

  method Assemble(visible: seq<Listing>, pairs: seq<(Id, nat)>, recent: seq<Thread>) returns (items: seq<Item>)
    requires Distinct(visible)
    ensures items == Map(TopLevel(visible), (c: Listing) => ItemOf(visible, pairs, recent, c))
  {
    var counts := CollectCounts(pairs);
    var threads := GroupBy(recent, CategoryOf);
    var subs := GroupBy(Nested(visible), ParentOf);
    FilterKeepsDistinct(visible, (c: Listing) => c.parent.None?);
    forall k: Id ensures Group(subs, k) == Children(visible, k) {
      GroupedChildren(visible, k);
    }
    items := TakeGroups(TopLevel(visible), subs, threads, counts, visible, pairs, recent);
  }

  // ── What a reader of the index sees ────────────────────────────────────────

  /** The count of a category is the last one reported for it, and zero if none was. */
  lemma {:induction false} CountIsLastReport(counts: seq<(Id, nat)>, id: Id)
    ensures (forall i :: 0 <= i < |counts| ==> counts[i].0 != id) ==> CountOf(counts, id) == 0
    ensures forall i :: 0 <= i < |counts| && counts[i].0 == id && (forall j :: i < j < |counts| ==> counts[j].0 != id) ==>
              CountOf(counts, id) == counts[i].1
  {
    if counts != [] {
      CountIsLastReport(counts[..|counts| - 1], id);
    }
  }

  /** The selected elements stand at these increasing places of the list, and every place that is
      selected is among them. */
  ghost predicate StandAt<T>(s: seq<T>, p: T -> bool, selected: seq<T>, at: seq<nat>) {
    && |at| == |selected| && (forall i :: 0 <= i < |at| ==> at[i] < |s| && selected[i] == s[at[i]])
    && (forall i, j :: 0 <= i < j < |at| ==> at[i] < at[j])
    && (forall k: nat :: k < |s| ==> (k in at <==> p(s[k])))
  }

  lemma TakenOneMore<T>(s: seq<T>, x: T, p: T -> bool, selected: seq<T>, at: seq<nat>)
    requires StandAt(s, p, selected, at) && p(x)
    ensures StandAt(s + [x], p, selected + [x], at + [|s|])
  {
    forall k: nat | k < |s| + 1 ensures k in at + [|s|] <==> p((s + [x])[k]) {
      assert k in at + [|s|] <==> k in at || k == |s|;
      if k < |s| { assert (s + [x])[k] == s[k]; }
    }
  }

  lemma LeftOneMore<T>(s: seq<T>, x: T, p: T -> bool, selected: seq<T>, at: seq<nat>)
    requires StandAt(s, p, selected, at) && !p(x)
    ensures StandAt(s + [x], p, selected, at)
  {
    forall k: nat | k < |s| + 1 ensures k in at <==> p((s + [x])[k]) {
      if k < |s| { assert (s + [x])[k] == s[k]; }
    }
  }

  /** A selection keeps the order and the number of what it selects. */
  lemma {:induction false} FilterPlaces<T>(s: seq<T>, p: T -> bool) returns (at: seq<nat>)
    ensures StandAt(s, p, Filter(s, p), at)
  {
    if s == [] {
      at := [];
    } else {
      var n := |s| - 1;
      at := FilterPlaces(s[..n], p);
      FilterSnoc(s[..n], s[n], p);
      hide Filter, StandAt;
      assert s == s[..n] + [s[n]];
      if p(s[n]) {
        TakenOneMore(s[..n], s[n], p, Filter(s[..n], p), at);
        at := at + [n];
      } else {
        LeftOneMore(s[..n], s[n], p, Filter(s[..n], p), at);
        assert Filter(s[..n], p) + [] == Filter(s[..n], p);
      }
    }
  }

  lemma IndexItems(visible: seq<Listing>, source: Source, i: nat)
    requires i < |TopLevel(visible)|
    ensures |Index(visible, source)| == |TopLevel(visible)|
    ensures var item, c := Index(visible, source)[i], TopLevel(visible)[i];
            var counts := source.counts(Map(visible, (v: Listing) => v.Id()));
            && item.listing == c && item.threadCount == CountOf(counts, c.Id())
            && |item.subcategories| == |Children(visible, c.Id())|
            && (forall j :: 0 <= j < |item.subcategories| ==>
                  && item.subcategories[j].listing == Children(visible, c.Id())[j]
                  && item.subcategories[j].threadCount == CountOf(counts, Children(visible, c.Id())[j].Id()))
  {
  }

  ghost predicate ShownAt(items: seq<Item>, c: Listing, i: nat, j: nat) {
    i < |items| && j < |items[i].subcategories| && items[i].subcategories[j].listing == c
  }

  /** Where a nested category is listed: only under its parent, at its place among the siblings. */
  lemma ShownUnderParent(visible: seq<Listing>, source: Source, c: Listing, i: nat, j: nat)
    requires c.parent.Some?
    ensures |Index(visible, source)| == |TopLevel(visible)|
    ensures ShownAt(Index(visible, source), c, i, j)
            <==> && i < |TopLevel(visible)| && TopLevel(visible)[i].Id() == c.parent.value
                 && j < |Children(visible, c.parent.value)| && Children(visible, c.parent.value)[j] == c
  {
    if i < |TopLevel(visible)| {
      IndexItems(visible, source, i);
      var p := TopLevel(visible)[i].Id();
      MembersAre(visible, ParentOf, p);
      hide Index, Filter;
      if ShownAt(Index(visible, source), c, i, j) {
        assert c == Children(visible, p)[j] && ParentOf(c) == Some(p);
      }
    }
  }

  predicate ParentVisible(visible: seq<Listing>, c: Listing)
    requires c.parent.Some?
  {
    exists p <- visible :: p.parent.None? && p.Id() == c.parent.value
  }

  lemma ParentPlace(visible: seq<Listing>, c: Listing, i: nat)
    requires c.parent.Some? && i < |TopLevel(visible)| && TopLevel(visible)[i].Id() == c.parent.value
    ensures ParentVisible(visible, c)
  {
    assert TopLevel(visible)[i] in TopLevel(visible);
  }

  lemma FindParent(visible: seq<Listing>, c: Listing) returns (i: nat)
    requires c.parent.Some? && ParentVisible(visible, c)
    ensures i < |TopLevel(visible)| && TopLevel(visible)[i].Id() == c.parent.value
  {
    var p :| p in visible && p.parent.None? && p.Id() == c.parent.value;
    assert p in TopLevel(visible);
    i :| i < |TopLevel(visible)| && TopLevel(visible)[i] == p;
  }

  lemma FindSibling(visible: seq<Listing>, c: Listing) returns (j: nat)
    requires c.parent.Some? && c in visible
    ensures j < |Children(visible, c.parent.value)| && Children(visible, c.parent.value)[j] == c
  {
    MembersAre(visible, ParentOf, c.parent.value);
    assert ParentOf(c) == Some(c.parent.value);
    j :| j < |Children(visible, c.parent.value)| && Children(visible, c.parent.value)[j] == c;
  }

  /** A visible nested category is listed in exactly one place, under its own parent, if that
      parent is a visible top-level category, and nowhere otherwise. */
  lemma ChildShownOnce(visible: seq<Listing>, source: Source, c: Listing) returns (i0: nat, j0: nat)
    requires Distinct(visible) && c in visible && c.parent.Some?
    ensures ParentVisible(visible, c) ==> i0 < |TopLevel(visible)| && TopLevel(visible)[i0].Id() == c.parent.value
    ensures forall i: nat, j: nat :: ShownAt(Index(visible, source), c, i, j)
                                     <==> ParentVisible(visible, c) && i == i0 && j == j0
  {
    FilterKeepsDistinct(visible, (p: Listing) => p.parent.None?);
    MembersDistinct(visible, ParentOf, c.parent.value);
    j0 := FindSibling(visible, c);
    i0 := 0;
    if ParentVisible(visible, c) { i0 := FindParent(visible, c); }
    assert Distinct(TopLevel(visible)) && Distinct(Children(visible, c.parent.value));
    hide ParentVisible, ShownAt, TopLevel, Children, Index;
    forall i: nat, j: nat
      ensures ShownAt(Index(visible, source), c, i, j) <==> ParentVisible(visible, c) && i == i0 && j == j0
    {
      ShownUnderParent(visible, source, c, i, j);
      if ShownAt(Index(visible, source), c, i, j) { ParentPlace(visible, c, i); }
    }
  }

  lemma MembersAre<V>(rows: seq<V>, key: V -> Option<Id>, k: Id)
    ensures forall v <- Members(rows, key, k) :: v in rows && key(v) == Some(k)
    ensures forall v <- rows :: key(v) == Some(k) ==> v in Members(rows, key, k)
  {
  }

  lemma {:induction false} MembersDistinct(visible: seq<Listing>, key: Listing -> Option<Id>, k: Id)
    requires Distinct(visible)
    ensures Distinct(Members(visible, key, k))
  {
    if visible != [] {
      var n := |visible| - 1;
      MembersDistinct(visible[..n], key, k);
      assert visible == visible[..n] + [visible[n]];
      MembersSnoc(visible[..n], visible[n], key, k);
      MembersAre(visible[..n], key, k);
      forall i | 0 <= i < |Members(visible[..n], key, k)|
        ensures Members(visible[..n], key, k)[i].Id() != visible[n].Id()
      {
        assert Members(visible[..n], key, k)[i] in visible[..n];
      }
    }
  }

  /** Every category that passes its visibility check is shown: a top-level one as an item, a nested
      one under its parent if that is shown as an item too. */
  lemma AllVisibleShown(actor: Option<AuthUser>, all: seq<Listing>, source: Source, c: Listing) returns (i: nat, j: nat)
    requires Distinct(all) && c in all && CanViewCategory(actor, c.category).None?
    ensures var index := Index(ListVisible(actor, all), source);
            && (c.parent.None? ==> i < |index| && index[i].listing == c)
            && (c.parent.Some?
                && (exists p <- all :: p.parent.None? && p.Id() == c.parent.value && CanViewCategory(actor, p.category).None?)
                ==> ShownAt(index, c, i, j) && index[i].listing.Id() == c.parent.value)
  {
    var visible := ListVisible(actor, all);
    FilterKeepsDistinct(all, (v: Listing) => CanViewCategory(actor, v.category).None?);
    i, j := 0, 0;
    if c.parent.None? {
      assert c in TopLevel(visible);
      i :| i < |TopLevel(visible)| && TopLevel(visible)[i] == c;
      IndexItems(visible, source, i);
    } else if p :| p in all && p.parent.None? && p.Id() == c.parent.value && CanViewCategory(actor, p.category).None? {
      assert p in visible && ParentVisible(visible, c);
      i, j := ChildShownOnce(visible, source, c);
      IndexItems(visible, source, i);
    }
  }

  /** A category is in the index, as an item or under one, only if its own visibility check
      passes. */
  lemma NothingHiddenShown(actor: Option<AuthUser>, all: seq<Listing>, source: Source, i: nat)
    requires i < |Index(ListVisible(actor, all), source)|
    ensures var item := Index(ListVisible(actor, all), source)[i];
            && item.listing in all && CanViewCategory(actor, item.listing.category).None?
            && forall s <- item.subcategories :: s.listing in all && CanViewCategory(actor, s.listing.category).None?
  {
    var visible := ListVisible(actor, all);
    IndexItems(visible, source, i);
    var c := TopLevel(visible)[i];
    MembersAre(visible, ParentOf, c.Id());
    var item := Index(visible, source)[i];
    forall j | 0 <= j < |item.subcategories| ensures item.subcategories[j].listing in visible {
      assert Children(visible, c.Id())[j] in Children(visible, c.Id());
    }
  }

  /** The threads of an item are exactly the recent threads of its category, in order, relabelled
      with its slug and name and carrying their own tags. */
  lemma ThreadsRelabelled(visible: seq<Listing>, source: Source, i: nat, k: nat)
    requires i < |TopLevel(visible)|
    ensures |Index(visible, source)| == |TopLevel(visible)|
    ensures var item, c := Index(visible, source)[i], TopLevel(visible)[i];
            var own := ThreadsIn(source.recent(Map(TopLevel(visible), (p: Listing) => p.Id())), c.Id());
            && |item.recent| == |own|
            && (k < |own| ==>
                  && item.recent[k].id == own[k].id && item.recent[k].title == own[k].title
                  && item.recent[k].categoryId == c.Id() && item.recent[k].categorySlug == c.slug
                  && item.recent[k].categoryName == Some(c.name)
                  && var tags := source.tags(ThreadIds(Untagged(visible, source)));
                     item.recent[k].tags == if own[k].id in tags then tags[own[k].id] else [])
  {
    var recent := source.recent(Map(TopLevel(visible), (p: Listing) => p.Id()));
    var own := ThreadsIn(recent, TopLevel(visible)[i].Id());
    MembersAre(recent, CategoryOf, TopLevel(visible)[i].Id());
    if k < |own| { assert own[k] in own && CategoryOf(own[k]) == Some(own[k].categoryId); }
  }
}
