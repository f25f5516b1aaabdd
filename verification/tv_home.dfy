/**
 * The TV home screen (src/components/TVHome.jsx): rows of items, a focused
 * (section, item) pair moved by the D-pad, selection with Enter, and the
 * flattened list of every item handed to the search overlay.
 */
module TvHome {
  import opened Wrappers
  import Text
  import Episodes

  /** A row of the screen; items are represented by their ids. */
  datatype Section = Section(title: string, kind: Option<string>, items: seq<string>)

  /** An entry of the search list: the item and the type it is tagged with. */
  datatype Entry = Entry(item: string, kind: string)

  /** `section.type || section.title` */
  function KindOf(s: Section): string {
    if s.kind.Some? && s.kind.value != "" then s.kind.value else s.title
  }

  function ItemCounts(sections: seq<Section>): (r: seq<nat>)
    ensures |r| == |sections| && forall k :: 0 <= k < |r| ==> r[k] == |sections[k].items|
  {
    seq(|sections|, k requires 0 <= k < |sections| => |sections[k].items|)
  }

  function Tagged(items: seq<string>, kind: string): (r: seq<Entry>)
    ensures |r| == |items| && forall j :: 0 <= j < |r| ==> r[j] == Entry(items[j], kind)
  {
    seq(|items|, j requires 0 <= j < |items| => Entry(items[j], kind))
  }

  /** allContent: every item of every section, sections in order. */
  function AllContent(sections: seq<Section>): (r: seq<Entry>)
    ensures |r| == Episodes.Sum(ItemCounts(sections))
  {
    if sections == [] then []
    else
      var last := sections[|sections| - 1];
      assert ItemCounts(sections[..|sections| - 1]) == ItemCounts(sections)[..|sections| - 1];
      AllContent(sections[..|sections| - 1]) + Tagged(last.items, KindOf(last))
  }

  /** Item j of section k sits after the items of the earlier sections, tagged with its section's type. */
  lemma {:induction false} AllContentAt(sections: seq<Section>, k: nat, j: nat)
    requires k < |sections| && j < |sections[k].items|
    ensures Episodes.Sum(ItemCounts(sections)[..k]) + j < |AllContent(sections)|
    ensures AllContent(sections)[Episodes.Sum(ItemCounts(sections)[..k]) + j] == Entry(sections[k].items[j], KindOf(sections[k]))
  {
    if k == |sections| - 1 {
      LastSectionAt(sections, j);
    } else {
      AllContentAt(sections[..|sections| - 1], k, j);
      EarlierSectionAt(sections, k, j);
    }
  }

  /** AllContentAt for the last section. */
  lemma LastSectionAt(sections: seq<Section>, j: nat)
    requires sections != [] && j < |sections[|sections| - 1].items|
    ensures Episodes.Sum(ItemCounts(sections)[..|sections| - 1]) + j < |AllContent(sections)|
    ensures AllContent(sections)[Episodes.Sum(ItemCounts(sections)[..|sections| - 1]) + j]
         == Entry(sections[|sections| - 1].items[j], KindOf(sections[|sections| - 1]))
  {
    var n := |sections|;
    var front := AllContent(sections[..n - 1]);
    var back := Tagged(sections[n - 1].items, KindOf(sections[n - 1]));
    AllContentLast(sections);
    assert Episodes.Sum(ItemCounts(sections)[..n - 1]) == |front|;
    assert (front + back)[|front| + j] == back[j];
  }

  /** AllContentAt for an earlier section follows from the same fact about the sections before the last. */
  lemma EarlierSectionAt(sections: seq<Section>, k: nat, j: nat)
    requires k < |sections| - 1 && j < |sections[k].items|
    requires Episodes.Sum(ItemCounts(sections[..|sections| - 1])[..k]) + j < |AllContent(sections[..|sections| - 1])|
    requires AllContent(sections[..|sections| - 1])[Episodes.Sum(ItemCounts(sections[..|sections| - 1])[..k]) + j]
          == Entry(sections[k].items[j], KindOf(sections[k]))
    ensures Episodes.Sum(ItemCounts(sections)[..k]) + j < |AllContent(sections)|
    ensures AllContent(sections)[Episodes.Sum(ItemCounts(sections)[..k]) + j] == Entry(sections[k].items[j], KindOf(sections[k]))
  {
    var n := |sections|;
    var front := AllContent(sections[..n - 1]);
    var back := Tagged(sections[n - 1].items, KindOf(sections[n - 1]));
    AllContentLast(sections);
    assert ItemCounts(sections[..n - 1])[..k] == ItemCounts(sections)[..k];
    var i := Episodes.Sum(ItemCounts(sections)[..k]) + j;
    assert (front + back)[i] == front[i];
  }

  /** The last section's items come after all the others'. */
  lemma AllContentLast(sections: seq<Section>)
    requires sections != []
    ensures AllContent(sections) == AllContent(sections[..|sections| - 1])
      + Tagged(sections[|sections| - 1].items, KindOf(sections[|sections| - 1]))
    ensures ItemCounts(sections[..|sections| - 1]) == ItemCounts(sections)[..|sections| - 1]
  {
  }

  /** What a selection hands to onSelectItem. */
  datatype Selection = Selection(item: string, section: int, index: int)

  class TvHomeFocus {
    const sections: seq<Section>
    var sectionIndex: int
    var itemIndex: int
    var showSearch: bool

    /** With at least one section, the focus is on an existing section, and the item index is -1, 0 or an existing item. */
    ghost predicate Valid()
      reads this
    {
      |sections| > 0 ==>
        && 0 <= sectionIndex < |sections|
        && -1 <= itemIndex
        && (itemIndex > 0 ==> itemIndex < |sections[sectionIndex].items|)
    }

    constructor (sections: seq<Section>)
      ensures Valid()
      ensures this.sections == sections && sectionIndex == 0 && itemIndex == 0 && !showSearch
    {
      this.sections := sections;
      sectionIndex := 0;
      itemIndex := 0;
      showSearch := false;
    }

    /** The focused item, when the focus names one. */
    function CurrentItem(): (r: Option<string>)
      reads this
      ensures r.Some? <==> 0 <= sectionIndex < |sections| && 0 <= itemIndex < |sections[sectionIndex].items|
    {
      if 0 <= sectionIndex < |sections| && 0 <= itemIndex < |sections[sectionIndex].items| then
        Some(sections[sectionIndex].items[itemIndex])
      else None
    }

    /** One key press. */
    method HandleKey(key: string, ctrl: bool, hasHandler: bool) returns (selected: Option<Selection>)
      requires Valid()
      modifies this`sectionIndex, this`itemIndex, this`showSearch
      ensures Valid()
      ensures key == "/" || (Text.Lower(key) == "s" && ctrl) ==>
        showSearch && sectionIndex == old(sectionIndex) && itemIndex == old(itemIndex) && selected.None?
      ensures key != "/" && !(Text.Lower(key) == "s" && ctrl) ==> showSearch == old(showSearch)
      ensures key == "ArrowUp" ==> sectionIndex == (if old(sectionIndex) - 1 > 0 then old(sectionIndex) - 1 else 0) && itemIndex == 0
      ensures key == "ArrowDown" ==>
        sectionIndex == (if old(sectionIndex) + 1 < |sections| - 1 then old(sectionIndex) + 1 else |sections| - 1) && itemIndex == 0
      ensures key == "ArrowLeft" || key == "ArrowRight" ==> sectionIndex == old(sectionIndex)
      ensures key == "ArrowLeft" && 0 <= old(sectionIndex) < |sections| ==>
        itemIndex == (if old(itemIndex) - 1 > 0 then old(itemIndex) - 1 else 0)
      ensures key == "ArrowRight" && 0 <= old(sectionIndex) < |sections| ==>
        var last := |sections[old(sectionIndex)].items| - 1;
        itemIndex == (if old(itemIndex) + 1 < last then old(itemIndex) + 1 else last)
      ensures selected.Some? <==> (key == "Enter" || key == " ") && hasHandler && old(CurrentItem()).Some?
      ensures selected.Some? ==> selected.value == Selection(old(CurrentItem()).value, sectionIndex, itemIndex)
      ensures key !in {"ArrowUp", "ArrowDown", "ArrowLeft", "ArrowRight"} ==>
        sectionIndex == old(sectionIndex) && itemIndex == old(itemIndex)
      ensures (key == "ArrowLeft" || key == "ArrowRight") && !(0 <= old(sectionIndex) < |sections|) ==> itemIndex == old(itemIndex)
    {
      selected := None;
      if key == "/" || (Text.Lower(key) == "s" && ctrl) {
        showSearch := true;
        return;
      }
      selected := MoveOrSelect(key, hasHandler);
    }

    /** The keys other than the search shortcut: the arrows move the focus, Enter and space select. */
    method MoveOrSelect(key: string, hasHandler: bool) returns (selected: Option<Selection>)
      requires Valid()
      modifies this`sectionIndex, this`itemIndex
      ensures Valid()
      ensures key == "ArrowUp" ==> sectionIndex == (if old(sectionIndex) - 1 > 0 then old(sectionIndex) - 1 else 0) && itemIndex == 0
      ensures key == "ArrowDown" ==>
        sectionIndex == (if old(sectionIndex) + 1 < |sections| - 1 then old(sectionIndex) + 1 else |sections| - 1) && itemIndex == 0
      ensures key == "ArrowLeft" || key == "ArrowRight" ==> sectionIndex == old(sectionIndex)
      ensures key == "ArrowLeft" && 0 <= old(sectionIndex) < |sections| ==>
        itemIndex == (if old(itemIndex) - 1 > 0 then old(itemIndex) - 1 else 0)
      ensures key == "ArrowRight" && 0 <= old(sectionIndex) < |sections| ==>
        var last := |sections[old(sectionIndex)].items| - 1;
        itemIndex == (if old(itemIndex) + 1 < last then old(itemIndex) + 1 else last)
      ensures selected.Some? <==> (key == "Enter" || key == " ") && hasHandler && old(CurrentItem()).Some?
      ensures selected.Some? ==> selected.value == Selection(old(CurrentItem()).value, sectionIndex, itemIndex)
      ensures key !in {"ArrowUp", "ArrowDown", "ArrowLeft", "ArrowRight"} ==>
        sectionIndex == old(sectionIndex) && itemIndex == old(itemIndex)
      ensures (key == "ArrowLeft" || key == "ArrowRight") && !(0 <= old(sectionIndex) < |sections|) ==> itemIndex == old(itemIndex)
    {
      selected := None;
      if key == "ArrowUp" {
        sectionIndex := if sectionIndex - 1 > 0 then sectionIndex - 1 else 0;
        itemIndex := 0;
      } else if key == "ArrowDown" {
        sectionIndex := if sectionIndex + 1 < |sections| - 1 then sectionIndex + 1 else |sections| - 1;
        itemIndex := 0;
      } else if key == "ArrowLeft" {
        if 0 <= sectionIndex < |sections| {
          itemIndex := if itemIndex - 1 > 0 then itemIndex - 1 else 0;
        }
      } else if key == "ArrowRight" {
        if 0 <= sectionIndex < |sections| {
          var last := |sections[sectionIndex].items| - 1;
          itemIndex := if itemIndex + 1 < last then itemIndex + 1 else last;
        }
      } else if key == "Enter" || key == " " {
        var current := CurrentItem();
        if current.Some? && hasHandler {
          selected := Some(Selection(current.value, sectionIndex, itemIndex));
        }
      }
    }
  }
}
