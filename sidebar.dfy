/**
 * The navigation sidebar (`src/components/app-sidebar.tsx`): the item table,
 * the effect that picks the active item from the current path, the click
 * handler, and which items are drawn active.
 */
module Sidebar {
  import opened Wrappers

  datatype Item = Item(title: string, url: string, id: string)
  datatype Section = Section(title: string, url: string, items: seq<Item>)

  const AboutTitle: string := "关于本项目"

  /** Lines 30-70: one section of six pages. */
  const Nav: seq<Section> := [Section("HairVision", "/", [
    Item(AboutTitle, "/", "about"),
    Item("示例模型", "/ModelEx", "model-ex"),
    Item("跑起来", "/Run3dgs", "run-3dgs"),
    Item("发型分类", "/Classify", "classify"),
    Item("优化文件格式", "/Develop", "develop"),
    Item("KsplatViewer", "/Viewer", "viewer")])]

  /** The items of all sections, in the order the effect visits them. */
  function AllItems(sections: seq<Section>): seq<Item>
    decreases |sections|
  {
    if sections == [] then [] else sections[0].items + AllItems(sections[1..])
  }

  lemma {:induction false} AllItemsAppend(sections: seq<Section>, s: Section)
    ensures AllItems(sections + [s]) == AllItems(sections) + s.items
    decreases |sections|
  {
    if sections == [] {
      assert [s][1..] == [];
    } else {
      assert (sections + [s])[1..] == sections[1..] + [s];
      AllItemsAppend(sections[1..], s);
    }
  }

  /** The title of the first item whose url is `path`. */
  function FirstMatch(items: seq<Item>, path: string): (title: Option<string>)
    ensures title.None? <==> forall i :: 0 <= i < |items| ==> items[i].url != path
    ensures title.Some? ==> exists k :: (0 <= k < |items| && items[k].url == path && items[k].title == title.value
      && forall j :: 0 <= j < k ==> items[j].url != path)
    decreases |items|
  {
    if items == [] then None
    else if items[0].url == path then Some(items[0].title)
    else
      var rest := FirstMatch(items[1..], path);
      assert forall i :: 1 <= i < |items| ==> items[i] == items[1..][i - 1];
      if rest.Some? then
        ghost var k :| 0 <= k < |items[1..]| && items[1..][k].url == path && items[1..][k].title == rest.value
          && forall j :: 0 <= j < k ==> items[1..][j].url != path;
        assert items[k + 1].url == path && items[k + 1].title == rest.value;
        rest
      else rest
  }

  /**
   * Lines 78-89: the nested loop over sections and their items stops at the
   * first item whose url is the current path (the separate test for `/` at
   * lines 80-83 picks the same item as the general one).
   */
  method Lookup(sections: seq<Section>, path: string) returns (found: Option<string>)
    ensures found == FirstMatch(AllItems(sections), path)
  {
    var s := 0;
    while s < |sections|
      invariant 0 <= s <= |sections|
      invariant NoMatch(AllItems(sections[..s]), path)
    {
      var items := sections[s].items;
      ghost var before := AllItems(sections[..s]);
      var i := 0;
      while i < |items|
        invariant 0 <= i <= |items|
        invariant NoMatch(before + items[..i], path)
      {
        if path == "/" && items[i].url == "/" {
          found := Some(items[i].title);
          FoundHere(before + items[..i], items[i], path, sections, s, i);
          return;
        }
        if path == items[i].url {
          found := Some(items[i].title);
          FoundHere(before + items[..i], items[i], path, sections, s, i);
          return;
        }
        NotHere(before, items, i, path);
        i := i + 1;
      }
      SectionDone(sections, s, path);
      s := s + 1;
    }
    assert sections[..s] == sections;
    found := None;
  }

  predicate NoMatch(items: seq<Item>, path: string) {
    forall i :: 0 <= i < |items| ==> items[i].url != path
  }

  /** A searched prefix without a match, extended by a non-matching item, still has none. */
  lemma NotHere(before: seq<Item>, items: seq<Item>, i: nat, path: string)
    requires i < |items| && NoMatch(before + items[..i], path) && items[i].url != path
    ensures NoMatch(before + items[..i + 1], path)
  {
    assert before + items[..i + 1] == (before + items[..i]) + [items[i]];
  }

  /** A whole section searched without a match extends the match-free prefix of sections. */
  lemma SectionDone(sections: seq<Section>, s: nat, path: string)
    requires s < |sections|
    requires NoMatch(AllItems(sections[..s]) + sections[s].items[..|sections[s].items|], path)
    ensures NoMatch(AllItems(sections[..s + 1]), path)
  {
    assert sections[s].items[..|sections[s].items|] == sections[s].items;
    assert sections[..s + 1] == sections[..s] + [sections[s]];
    AllItemsAppend(sections[..s], sections[s]);
  }

  /** The loop's hit is the first match of all the items. */
  lemma FoundHere(seen: seq<Item>, item: Item, path: string, sections: seq<Section>, s: nat, i: nat)
    requires s < |sections| && i < |sections[s].items| && item == sections[s].items[i]
    requires seen == AllItems(sections[..s]) + sections[s].items[..i]
    requires NoMatch(seen, path) && item.url == path
    ensures FirstMatch(AllItems(sections), path) == Some(item.title)
  {
    var items := sections[s].items;
    var before, after := sections[..s], sections[s + 1..];
    assert sections == before + [sections[s]] + after;
    AllItemsSplit(before, sections[s], after);
    var rest := items[i + 1..] + AllItems(after);
    assert items == items[..i] + [item] + items[i + 1..];
    assert AllItems(before) + items + AllItems(after) == seen + [item] + rest;
    FirstMatchAfter(seen, item, rest, path);
  }

  lemma AllItemsSplit(before: seq<Section>, s: Section, after: seq<Section>)
    ensures AllItems(before + [s] + after) == AllItems(before) + s.items + AllItems(after)
    decreases |before|
  {
    if before == [] {
      assert [s] + after == before + [s] + after;
      assert ([s] + after)[1..] == after;
    } else {
      assert (before + [s] + after)[1..] == before[1..] + [s] + after;
      AllItemsSplit(before[1..], s, after);
    }
  }

  /** A match right after a match-free prefix is the first match, whatever follows. */
  lemma FirstMatchAfter(seen: seq<Item>, item: Item, rest: seq<Item>, path: string)
    requires FirstMatch(seen, path).None? && item.url == path
    ensures FirstMatch(seen + [item] + rest, path) == Some(item.title)
  {
    var all := seen + [item] + rest;
    var r := FirstMatch(all, path);
    assert all[|seen|] == item;
    assert r.Some?;
    var k :| 0 <= k < |all| && all[k].url == path && all[k].title == r.value
      && forall j :: 0 <= j < k ==> all[j].url != path;
  }

  // ---------------------------------------------------------------- the table

  lemma AboutFirst()
    ensures AllItems(Nav) == Nav[0].items
    ensures Nav[0].items[0] == Item(AboutTitle, "/", "about")
  {
    assert Nav[1..] == [];
  }

  /** Path `/` selects the about page (lines 38-40, 80-83). */
  lemma RootSelectsAbout()
    ensures FirstMatch(AllItems(Nav), "/") == Some(AboutTitle)
  {
    AboutFirst();
    FirstMatchAfter([], Nav[0].items[0], Nav[0].items[1..], "/");
    assert [] + [Nav[0].items[0]] + Nav[0].items[1..] == Nav[0].items;
  }

  /** The six titles differ, so at most one item is drawn active. */
  lemma TitlesDistinct()
    ensures forall i, j :: 0 <= i < j < |AllItems(Nav)| ==> AllItems(Nav)[i].title != AllItems(Nav)[j].title
  {
    AboutFirst();
    var items := Nav[0].items;
    assert items[0].title[0] == '关' && items[1].title[0] == '示' && items[2].title[0] == '跑';
    assert items[3].title[0] == '发' && items[4].title[0] == '优' && items[5].title[0] == 'K';
  }

  // ---------------------------------------------------------------- the component

  class AppSidebar {
    var activeItemId: string

    constructor ()
      ensures activeItemId == ""
    {
      activeItemId := "";
    }

    /** Line 119: whether an item is drawn active. */
    function IsActive(item: Item): bool
      reads this
    {
      item.title == activeItemId
    }

    /**
     * Lines 76-94: the item matching the path becomes active; without one, an
     * empty choice falls back to the first section's first item.
     */
    method Effect(path: string)
      modifies this
      ensures FirstMatch(AllItems(Nav), path).Some? ==> activeItemId == FirstMatch(AllItems(Nav), path).value
      ensures FirstMatch(AllItems(Nav), path).None? ==>
        activeItemId == if old(activeItemId) == "" then AboutTitle else old(activeItemId)
    {
      var found := Lookup(Nav, path);
      if found.Some? {
        activeItemId := found.value;
        return;
      }
      if activeItemId == "" && |Nav| > 0 && |Nav[0].items| > 0 {
        AboutFirst();
        activeItemId := Nav[0].items[0].title;
      }
    }

    /** Lines 96-98. */
    method HandleMenuItemClick(title: string)
      modifies this
      ensures activeItemId == title
    {
      activeItemId := title;
    }

    /** Whatever was clicked, at most one of the table's items is drawn active. */
    lemma AtMostOneActive()
      ensures forall i, j :: (0 <= i < |AllItems(Nav)| && 0 <= j < |AllItems(Nav)|
        && IsActive(AllItems(Nav)[i]) && IsActive(AllItems(Nav)[j])) ==> i == j
    {
      TitlesDistinct();
    }
  }
}
