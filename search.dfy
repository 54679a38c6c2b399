/** The command palette of the dashboard's header (`Search`): grouped results
    narrowed by a case-insensitive substring query, a keyboard cursor over
    the flattened result list, and the absolute index that ties each
    rendered button to a cursor position. */
module Search {
  import opened Seqs
  import opened Text

  datatype SearchItem = SearchItem(id: string, name: string, href: string)

  datatype SearchGroup = SearchGroup(category: string, items: seq<SearchItem>)

  /** The keys `handleKeyDown` distinguishes; every other key is `Other`. */
  datatype Key = ArrowDown | ArrowUp | Enter | Escape | Other

  // ---------------------------------------------------------------------------
  // Filtering

  /** `item.name.toLowerCase().includes(query.toLowerCase())` */
  predicate Matches(item: SearchItem, query: string)
  {
    Contains(Lower(item.name), Lower(query))
  }

  /** The item test of the filter, as a function value. */
  function Matcher(query: string): SearchItem -> bool
  {
    (item: SearchItem) => Matches(item, query)
  }

  predicate NonEmpty(group: SearchGroup)
  {
    |group.items| > 0
  }

  /** `searchResults.map((group) => ({ ...group, items: group.items.filter(...) }))` */
  function NarrowAll(groups: seq<SearchGroup>, query: string): (r: seq<SearchGroup>)
  {
    seq(|groups|, i requires 0 <= i < |groups| => groups[i].(items := Filter(groups[i].items, Matcher(query))))
  }

  /** What the query effect stores in `filteredResults`: every group unchanged
      for the empty query, otherwise each group narrowed to its matching items
      and the groups left empty dropped. */
  function FilterGroups(groups: seq<SearchGroup>, query: string): seq<SearchGroup>
  {
    if query == [] then groups
    else Filter(NarrowAll(groups, query), NonEmpty)
  }

  /** `groups.flatMap((group) => group.items)` */
  function Flatten(groups: seq<SearchGroup>): seq<SearchItem>
  {
    if groups == [] then [] else groups[0].items + Flatten(groups[1..])
  }

  lemma {:induction false} FlattenAppend(a: seq<SearchGroup>, b: seq<SearchGroup>)
    ensures Flatten(a + b) == Flatten(a) + Flatten(b)
  {
    if a == [] {
      assert a + b == b;
    } else {
      assert (a + b)[1..] == a[1..] + b;
      FlattenAppend(a[1..], b);
    }
  }

  /** Filtering group by group and dropping empty groups lists exactly the
      matching items of the whole list, in their order. */
  lemma {:induction false} NarrowFlatten(groups: seq<SearchGroup>, query: string)
    ensures Flatten(Filter(NarrowAll(groups, query), NonEmpty)) == Filter(Flatten(groups), Matcher(query))
  {
    if groups != [] {
      var n := NarrowAll(groups, query);
      assert n[1..] == NarrowAll(groups[1..], query);
      NarrowFlatten(groups[1..], query);
      FilterAppend(groups[0].items, Flatten(groups[1..]), Matcher(query));
      var rest := Filter(n[1..], NonEmpty);
      if NonEmpty(n[0]) {
        assert ([n[0]] + rest)[1..] == rest;
      }
    }
  }

  /** The query effect: the empty query keeps the groups as they are; any
      other query keeps, in order, exactly the matching items, and never a
      group without items; the result never has more items than the input. */
  lemma FilterGroupsSpec(groups: seq<SearchGroup>, query: string)
    ensures query == [] ==> FilterGroups(groups, query) == groups
    ensures query != [] ==> Flatten(FilterGroups(groups, query)) == Filter(Flatten(groups), Matcher(query))
    ensures query != [] ==> forall g | g in FilterGroups(groups, query) :: |g.items| > 0
    ensures query != [] ==> IsSubsequence(FilterGroups(groups, query), NarrowAll(groups, query))
    ensures |Flatten(FilterGroups(groups, query))| <= |Flatten(groups)|
  {
    if query != [] {
      NarrowFlatten(groups, query);
      FilterCounts(NarrowAll(groups, query), NonEmpty);
      FilterIsSubsequence(NarrowAll(groups, query), NonEmpty);
    }
  }

  // ---------------------------------------------------------------------------
  // The absolute index of a rendered item

  function ItemsLength(group: SearchGroup): int
  {
    |group.items|
  }

  /** `groups.reduce((acc, g) => acc + g.items.length, 0)` */
  function ItemCount(groups: seq<SearchGroup>): int
  {
    SumInt(groups, ItemsLength)
  }

  lemma {:induction false} ItemCountIsLength(groups: seq<SearchGroup>)
    ensures ItemCount(groups) == |Flatten(groups)|
  {
    if groups != [] {
      var init, last := groups[..|groups| - 1], groups[|groups| - 1];
      assert groups == init + [last];
      ItemCountIsLength(init);
      FlattenAppend(init, [last]);
      assert Flatten([last]) == last.items + Flatten([]);
    }
  }

  /** `filteredResults.slice(0, groupIndex).reduce(...) + itemIndex` */
  function AbsoluteIndex(groups: seq<SearchGroup>, g: nat, i: nat): int
    requires g <= |groups|
  {
    ItemCount(groups[..g]) + i
  }

  /** The button of item `i` of group `g` stands at its own position of the
      flattened list that the keyboard cursor walks. */
  lemma AbsoluteIndexPosition(groups: seq<SearchGroup>, g: nat, i: nat)
    requires g < |groups| && i < |groups[g].items|
    ensures 0 <= AbsoluteIndex(groups, g, i) < |Flatten(groups)|
    ensures Flatten(groups)[AbsoluteIndex(groups, g, i)] == groups[g].items[i]
  {
    ItemCountIsLength(groups[..g]);
    assert groups == groups[..g] + ([groups[g]] + groups[g + 1..]);
    FlattenAppend(groups[..g], [groups[g]] + groups[g + 1..]);
    assert ([groups[g]] + groups[g + 1..])[1..] == groups[g + 1..];
  }

  /** Distinct buttons have distinct absolute indices, increasing in the
      order they are rendered, so at most one button is highlighted. */
  lemma AbsoluteIndexIncreasing(groups: seq<SearchGroup>, g1: nat, i1: nat, g2: nat, i2: nat)
    requires g1 < |groups| && i1 < |groups[g1].items|
    requires g2 < |groups| && i2 < |groups[g2].items|
    requires g1 < g2 || (g1 == g2 && i1 < i2)
    ensures AbsoluteIndex(groups, g1, i1) < AbsoluteIndex(groups, g2, i2)
  {
    if g1 < g2 {
      ItemCountIsLength(groups[..g1]);
      ItemCountIsLength(groups[..g2]);
      assert groups[..g2] == groups[..g1] + ([groups[g1]] + groups[g1 + 1..g2]);
      FlattenAppend(groups[..g1], [groups[g1]] + groups[g1 + 1..g2]);
      assert ([groups[g1]] + groups[g1 + 1..g2])[1..] == groups[g1 + 1..g2];
    }
  }

  // ---------------------------------------------------------------------------
  // The keyboard cursor

  /** ArrowDown: one step further while not on the last item. */
  function ArrowDownIndex(prev: int, count: nat): (next: int)
    ensures prev <= next <= prev + 1
    ensures next == prev <==> prev >= count - 1
    ensures -1 <= prev < count ==> -1 <= next < count
  {
    if prev < count - 1 then prev + 1 else prev
  }

  /** ArrowUp: one step back while above the first item; 0 and -1 stay put. */
  function ArrowUpIndex(prev: int): (next: int)
    ensures prev - 1 <= next <= prev
    ensures next == prev <==> prev <= 0
    ensures prev >= -1 ==> next >= -1
  {
    if prev > 0 then prev - 1 else prev
  }

  /** The cursor after a run of keys over a list of `count` items. */
  function Moves(index: int, keys: seq<Key>, count: nat): int
    decreases keys
  {
    if keys == [] then index
    else
      var next := match keys[0]
        case ArrowDown => ArrowDownIndex(index, count)
        case ArrowUp => ArrowUpIndex(index)
        case _ => index;
      Moves(next, keys[1..], count)
  }

  /** Whatever keys are pressed, the cursor stays in [-1, count - 1]. */
  lemma {:induction false} MovesStayInRange(index: int, keys: seq<Key>, count: nat)
    requires -1 <= index < count
    ensures -1 <= Moves(index, keys, count) < count
    decreases keys
  {
    if keys != [] {
      var next := match keys[0]
        case ArrowDown => ArrowDownIndex(index, count)
        case ArrowUp => ArrowUpIndex(index)
        case _ => index;
      MovesStayInRange(next, keys[1..], count);
    }
  }

  /** With no results the cursor never leaves -1. */
  lemma {:induction false} NoResultsNoCursor(keys: seq<Key>)
    ensures Moves(-1, keys, 0) == -1
  {
    if keys != [] {
      NoResultsNoCursor(keys[1..]);
    }
  }

  /** Enter: the href of the highlighted item when the cursor is on one. */
  function Selection(activeIndex: int, allItems: seq<SearchItem>): (r: Option<string>)
    ensures r.Some? <==> 0 <= activeIndex < |allItems|
    ensures r.Some? ==> r.value == allItems[activeIndex].href
  {
    if activeIndex >= 0 && activeIndex < |allItems| then Some(allItems[activeIndex].href) else None
  }

  // ---------------------------------------------------------------------------
  // The query effect as written

  /** The cursor after the query effect runs. The effect depends on
      `searchResults`, an array built afresh on every render, so it runs
      after every render, not only when the query changes; a non-empty
      query then resets the cursor each time. */
  function CursorAfterEffect(query: string, activeIndex: int): (r: int)
    ensures query != [] ==> r == -1
    ensures query == [] ==> r == activeIndex
  {
    if query == [] then activeIndex else -1
  }

  /** With the query "brake" and two matching items, ArrowDown moves the
      cursor to 0, and the render it causes runs the effect, which puts the
      cursor back to -1: Enter then selects nothing. */
  lemma ArrowDownUndoneByEffect()
    ensures ArrowDownIndex(-1, 2) == 0
    ensures CursorAfterEffect("brake", ArrowDownIndex(-1, 2)) == -1
    ensures Selection(CursorAfterEffect("brake", ArrowDownIndex(-1, 2)), [SearchItem("1", "Brake Pad (Front)", "/inventory/1"),
      SearchItem("2", "Brake Pad (Rear)", "/inventory/2")]).None?
  {
  }

  // ---------------------------------------------------------------------------
  // The palette's state

  /** The component's state: `open`, `query`, `activeIndex` and
      `filteredResults`, over the fixed `searchResults`; `visited` records
      the routes `router.push` was given. The query effect runs when the
      query changes. */
  class Palette {
    const searchResults: seq<SearchGroup>
    var open: bool
    var query: string
    var activeIndex: int
    var filteredResults: seq<SearchGroup>
    var visited: seq<string>

    /** The results shown are those of the current query, and the cursor is
        on one of them or at -1. */
    ghost predicate Valid()
      reads this
    {
      && filteredResults == FilterGroups(searchResults, query)
      && -1 <= activeIndex < |Flatten(filteredResults)|
    }

    /** Mount: closed, empty query, no cursor, and the first run of the
        query effect has shown every group. */
    constructor (searchResults: seq<SearchGroup>)
      ensures Valid()
      ensures this.searchResults == searchResults
      ensures !open && query == [] && activeIndex == -1 && filteredResults == searchResults && visited == []
    {
      this.searchResults := searchResults;
      open := false;
      query := [];
      activeIndex := -1;
      filteredResults := searchResults;
      visited := [];
    }

    /** Clicking the header's search box opens the dialog. */
    method ShowDialog()
      modifies this
      ensures open
      ensures query == old(query) && activeIndex == old(activeIndex)
      ensures filteredResults == old(filteredResults) && visited == old(visited)
    {
      open := true;
    }

    /** Cmd+K or Ctrl+K toggles the dialog. */
    method ToggleShortcut()
      modifies this
      ensures open == !old(open)
      ensures query == old(query) && activeIndex == old(activeIndex)
      ensures filteredResults == old(filteredResults) && visited == old(visited)
    {
      open := !open;
    }

    /** Typing in the dialog's input, followed by the query effect: the empty
        query shows every group and leaves the cursor where it was; any other
        query shows its matches and resets the cursor to -1. */
    method SetQuery(q: string)
      requires Valid()
      modifies this
      ensures Valid()
      ensures query == q && filteredResults == FilterGroups(searchResults, q)
      ensures activeIndex == if q == [] then old(activeIndex) else -1
      ensures open == old(open) && visited == old(visited)
    {
      FilterGroupsSpec(searchResults, query);
      query := q;
      if q == [] {
        filteredResults := searchResults;
        return;
      }
      filteredResults := FilterGroups(searchResults, q);
      activeIndex := -1;
    }

    /** `handleSelect`: close the dialog and go to `href`. */
    method Select(href: string)
      modifies this
      ensures !open && visited == old(visited) + [href]
      ensures query == old(query) && activeIndex == old(activeIndex) && filteredResults == old(filteredResults)
    {
      open := false;
      visited := visited + [href];
    }

    /** `handleKeyDown` */
    method KeyDown(key: Key)
      requires Valid()
      modifies this
      ensures Valid()
      ensures key == ArrowDown ==> activeIndex == ArrowDownIndex(old(activeIndex), |Flatten(filteredResults)|)
      ensures key == ArrowUp ==> activeIndex == ArrowUpIndex(old(activeIndex))
      ensures key != ArrowDown && key != ArrowUp ==> activeIndex == old(activeIndex)
      ensures var sel := Selection(old(activeIndex), Flatten(filteredResults));
        && visited == (if key == Enter && sel.Some? then old(visited) + [sel.value] else old(visited))
        && open == (if key == Escape || (key == Enter && sel.Some?) then false else old(open))
      ensures query == old(query) && filteredResults == old(filteredResults)
    {
      var allItems := Flatten(filteredResults);
      match key {
        case ArrowDown =>
          activeIndex := ArrowDownIndex(activeIndex, |allItems|);
        case ArrowUp =>
          activeIndex := ArrowUpIndex(activeIndex);
        case Enter =>
          if activeIndex >= 0 && activeIndex < |allItems| {
            Select(allItems[activeIndex].href);
          }
        case Escape =>
          open := false;
        case Other =>
      }
    }

    /** Hovering the button of item `i` of group `g` puts the cursor on it. */
    method MouseEnter(g: nat, i: nat)
      requires Valid()
      requires g < |filteredResults| && i < |filteredResults[g].items|
      modifies this
      ensures open == old(open) && query == old(query) && filteredResults == old(filteredResults) && visited == old(visited)
      ensures Valid()
      ensures activeIndex == AbsoluteIndex(filteredResults, g, i)
      ensures 0 <= activeIndex && Flatten(filteredResults)[activeIndex] == filteredResults[g].items[i]
    {
      AbsoluteIndexPosition(filteredResults, g, i);
      activeIndex := AbsoluteIndex(filteredResults, g, i);
    }

    /** Clicking the button of item `i` of group `g` selects its href. */
    method Click(g: nat, i: nat)
      requires g < |filteredResults| && i < |filteredResults[g].items|
      modifies this
      ensures !open && visited == old(visited) + [old(filteredResults)[g].items[i].href]
      ensures query == old(query) && activeIndex == old(activeIndex) && filteredResults == old(filteredResults)
    {
      Select(filteredResults[g].items[i].href);
    }
  }
}
