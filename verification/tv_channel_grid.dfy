/**
 * The channel grid of the TV live screen (src/components/TVChannelGrid.jsx):
 * a two-mode focus, on the category list or on the channels of the current
 * category, driven by the D-pad.
 */
module TvChannelGrid {
  import opened Wrappers

  datatype FocusMode = CategoryMode | ChannelMode

  /** The argument of onCategoryChange. */
  datatype CategoryRequest = Prev | Next

  class ChannelGridFocus {
    var categoryCount: nat
    var currentCategoryIndex: int
    var channelCount: nat
    var focusMode: FocusMode
    var selectedChannelIndex: int

    constructor (categoryCount: nat, currentCategoryIndex: int, channelCount: nat)
      ensures this.categoryCount == categoryCount && this.currentCategoryIndex == currentCategoryIndex
      ensures this.channelCount == channelCount
      ensures focusMode == ChannelMode && selectedChannelIndex == 0
    {
      this.categoryCount := categoryCount;
      this.currentCategoryIndex := currentCategoryIndex;
      this.channelCount := channelCount;
      focusMode := ChannelMode;
      selectedChannelIndex := 0;
    }

    /**
     * One key press: the category change requested of the parent, and the
     * channel index handed to onChannelSelect.
     */
    method HandleKey(key: string) returns (request: Option<CategoryRequest>, selected: Option<nat>)
      modifies this`focusMode, this`selectedChannelIndex
      ensures old(focusMode) == CategoryMode ==> selected.None?
      ensures old(focusMode) == CategoryMode && key == "ArrowUp" ==>
        (request == Some(Prev) <==> currentCategoryIndex > 0)
      ensures old(focusMode) == CategoryMode && key == "ArrowUp" ==>
        selectedChannelIndex == (if request.Some? then 0 else old(selectedChannelIndex))
      ensures old(focusMode) == CategoryMode && key == "ArrowDown" ==>
        (request == Some(Next) <==> currentCategoryIndex < categoryCount - 1)
      ensures old(focusMode) == CategoryMode && key == "ArrowDown" ==>
        selectedChannelIndex == (if request.Some? then 0 else old(selectedChannelIndex))
      ensures old(focusMode) == CategoryMode && key in ["ArrowLeft", "ArrowRight", "Enter"] ==>
        focusMode == ChannelMode && selectedChannelIndex == 0 && request.None?
      ensures old(focusMode) == CategoryMode && key in ["ArrowUp", "ArrowDown"] ==> focusMode == CategoryMode
      ensures old(focusMode) == ChannelMode ==> request.None?
      ensures old(focusMode) == ChannelMode && key == "ArrowUp" ==>
        focusMode == CategoryMode && selectedChannelIndex == old(selectedChannelIndex)
      ensures old(focusMode) == ChannelMode && key == "ArrowLeft" ==>
        selectedChannelIndex == (if old(selectedChannelIndex) - 1 > 0 then old(selectedChannelIndex) - 1 else 0)
      ensures old(focusMode) == ChannelMode && key == "ArrowRight" ==>
        selectedChannelIndex == (if old(selectedChannelIndex) + 1 < channelCount - 1 then old(selectedChannelIndex) + 1 else channelCount - 1)
      ensures old(focusMode) == ChannelMode && key != "ArrowUp" ==> focusMode == ChannelMode
      ensures old(focusMode) == ChannelMode && key == "ArrowDown" ==> selectedChannelIndex == old(selectedChannelIndex)
      ensures key != "Enter" ==> selected.None?
      ensures old(focusMode) == ChannelMode && key == "Enter" ==>
        && (selected.Some? <==> 0 <= old(selectedChannelIndex) < channelCount)
        && (selected.Some? ==> selected.value == old(selectedChannelIndex))
        && selectedChannelIndex == old(selectedChannelIndex)
      ensures key !in ["ArrowUp", "ArrowDown", "ArrowLeft", "ArrowRight", "Enter"] ==>
        focusMode == old(focusMode) && selectedChannelIndex == old(selectedChannelIndex) && request.None? && selected.None?
    {
      request, selected := None, None;
      if focusMode == CategoryMode {
        if key == "ArrowUp" {
          if currentCategoryIndex > 0 {
            request := Some(Prev);
            selectedChannelIndex := 0;
          }
        } else if key == "ArrowDown" {
          if currentCategoryIndex < categoryCount - 1 {
            request := Some(Next);
            selectedChannelIndex := 0;
          }
        } else if key == "ArrowLeft" || key == "ArrowRight" {
          focusMode := ChannelMode;
          selectedChannelIndex := 0;
        } else if key == "Enter" {
          focusMode := ChannelMode;
          selectedChannelIndex := 0;
        }
      } else {
        if key == "ArrowUp" {
          focusMode := CategoryMode;
        } else if key == "ArrowLeft" {
          selectedChannelIndex := if selectedChannelIndex - 1 > 0 then selectedChannelIndex - 1 else 0;
        } else if key == "ArrowRight" {
          selectedChannelIndex := if selectedChannelIndex + 1 < channelCount - 1 then selectedChannelIndex + 1 else channelCount - 1;
        } else if key == "Enter" {
          if 0 <= selectedChannelIndex < channelCount {
            selected := Some(selectedChannelIndex);
          }
        }
      }
    }
  }
}
