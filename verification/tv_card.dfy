/**
 * A focusable row of cards on the TV screens (src/components/TVCard.jsx):
 * the focused card moves with the arrow keys (wrapping sideways, four
 * cards to a row vertically), Enter opens it and Back leaves the row.
 */
module TvCard {
  import opened Wrappers

  datatype CardItem = CardItem(title: string, videoUrl: Option<string>)

  /** Key codes of the remote. */
  const KeyLeft := 37
  const KeyUp := 38
  const KeyRight := 39
  const KeyDown := 40
  const KeyEnter := 13
  const KeyBack := 8

  /** What Enter does: hand the card to onItemSelect, or open its video when there is no handler. */
  datatype CardAction = NoAction | SelectItem(index: nat) | OpenVideo(videoUrl: string, title: string)

  class TvCardRow {
    const items: seq<CardItem>
    const focusable: bool
    const hasSelectHandler: bool
    var focusedIndex: int
    var isActive: bool

    /** The focus is -1 (none), a card, or 0 of an empty row. */
    ghost predicate Valid()
      reads this
    {
      -1 <= focusedIndex && (focusedIndex < |items| || focusedIndex == 0)
    }

    /** Mounting, including the auto-focus effect of a row that starts focused. */
    constructor (items: seq<CardItem>, focusable: bool, hasSelectHandler: bool, startFocused: bool)
      ensures Valid()
      ensures this.items == items && this.focusable == focusable && this.hasSelectHandler == hasSelectHandler
      ensures isActive == startFocused && focusedIndex == (if startFocused then 0 else -1)
    {
      this.items := items;
      this.focusable := focusable;
      this.hasSelectHandler := hasSelectHandler;
      isActive := startFocused;
      focusedIndex := if startFocused then 0 else -1;
    }

    method HandleKey(keyCode: int) returns (action: CardAction)
      requires Valid()
      modifies this`focusedIndex, this`isActive
      ensures Valid()
      ensures !focusable || !old(isActive) ==>
        focusedIndex == old(focusedIndex) && isActive == old(isActive) && action == NoAction
      ensures focusable && old(isActive) ==> (
        var i, n := old(focusedIndex), |items|;
        && (keyCode == KeyLeft ==> focusedIndex == (if i > 0 then i - 1 else n - 1))
        && (keyCode == KeyRight ==> focusedIndex == (if i < n - 1 then i + 1 else 0))
        && (keyCode == KeyUp ==> focusedIndex == (if i - 4 >= 0 then i - 4 else i))
        && (keyCode == KeyDown ==> focusedIndex == (if i + 4 < n then i + 4 else i))
        && (keyCode == KeyBack ==> !isActive && focusedIndex == -1)
        && (keyCode != KeyBack ==> isActive)
        && (keyCode == KeyEnter ==> focusedIndex == i)
        && (keyCode != KeyEnter ==> action == NoAction)
        && (keyCode == KeyEnter && 0 <= i < n && hasSelectHandler ==> action == SelectItem(i))
        && (keyCode == KeyEnter && 0 <= i < n && !hasSelectHandler && items[i].videoUrl.Some? && items[i].videoUrl.value != ""
            ==> action == OpenVideo(items[i].videoUrl.value, items[i].title))
        && (keyCode == KeyEnter && 0 <= i < n && !hasSelectHandler && !(items[i].videoUrl.Some? && items[i].videoUrl.value != "")
            ==> action == NoAction)
        && (keyCode == KeyEnter && !(0 <= i < n) ==> action == NoAction)
        && (keyCode !in {KeyLeft, KeyRight, KeyUp, KeyDown, KeyBack} ==> focusedIndex == i))
    {
      action := NoAction;
      if !focusable || !isActive {
        return;
      }
      var n := |items|;
      if keyCode == KeyLeft {
        focusedIndex := if focusedIndex > 0 then focusedIndex - 1 else n - 1;
      } else if keyCode == KeyRight {
        focusedIndex := if focusedIndex < n - 1 then focusedIndex + 1 else 0;
      } else if keyCode == KeyUp {
        var newIndex := focusedIndex - 4;
        focusedIndex := if newIndex >= 0 then newIndex else focusedIndex;
      } else if keyCode == KeyDown {
        var newIndex := focusedIndex + 4;
        focusedIndex := if newIndex < n then newIndex else focusedIndex;
      } else if keyCode == KeyEnter {
        if focusedIndex >= 0 && focusedIndex < n {
          if hasSelectHandler {
            action := SelectItem(focusedIndex);
          } else {
            var item := items[focusedIndex];
            if item.videoUrl.Some? && item.videoUrl.value != "" {
              action := OpenVideo(item.videoUrl.value, item.title);
            }
          }
        }
      } else if keyCode == KeyBack {
        isActive := false;
        focusedIndex := -1;
      }
    }
  }

  /** Left then right returns to the same card of a non-empty row. */
  method LeftThenRight(row: TvCardRow)
    requires row.Valid() && row.focusable && row.isActive && 0 <= row.focusedIndex < |row.items|
    modifies row
    ensures row.focusedIndex == old(row.focusedIndex)
  {
    var _ := row.HandleKey(KeyLeft);
    var _ := row.HandleKey(KeyRight);
  }
}
