/**
 * The TV top menu (src/components/TVNavigation.jsx): eight entries, a
 * focused entry moved with wrap-around, Enter to open it, Back to go back.
 */
module TvNavigation {
  import opened Wrappers

  datatype MenuItem = MenuItem(path: string, caption: string)

  const MenuItems: seq<MenuItem> := [
    MenuItem("/", "Inicio"),
    MenuItem("/tv", "TV en Vivo"),
    MenuItem("/movies", "Películas"),
    MenuItem("/series", "Series"),
    MenuItem("/animes", "Animes"),
    MenuItem("/doramas", "Doramas"),
    MenuItem("/novelas", "Novelas"),
    MenuItem("/documentales", "Documentales")
  ]

  /** Where a key press navigates: a path, or one step back in the history. */
  datatype Navigation = Stay | GoTo(path: string) | GoBack

  class TvMenu {
    var focusedIndex: int

    ghost predicate Valid()
      reads this
    {
      0 <= focusedIndex < |MenuItems|
    }

    constructor ()
      ensures Valid() && focusedIndex == 0
    {
      focusedIndex := 0;
    }

    method HandleKey(keyCode: int) returns (nav: Navigation)
      requires Valid()
      modifies this
      ensures Valid()
      ensures keyCode == 37 ==> focusedIndex == (if old(focusedIndex) > 0 then old(focusedIndex) - 1 else 7) && nav == Stay
      ensures keyCode == 39 ==> focusedIndex == (if old(focusedIndex) < 7 then old(focusedIndex) + 1 else 0) && nav == Stay
      ensures keyCode == 13 ==> focusedIndex == old(focusedIndex) && nav == GoTo(MenuItems[focusedIndex].path)
      ensures keyCode == 8 ==> focusedIndex == old(focusedIndex) && nav == GoBack
      ensures keyCode !in {37, 39, 13, 8} ==> focusedIndex == old(focusedIndex) && nav == Stay
    {
      nav := Stay;
      if keyCode == 37 {
        focusedIndex := if focusedIndex > 0 then focusedIndex - 1 else |MenuItems| - 1;
      } else if keyCode == 39 {
        focusedIndex := if focusedIndex < |MenuItems| - 1 then focusedIndex + 1 else 0;
      } else if keyCode == 13 {
        nav := GoTo(MenuItems[focusedIndex].path);
      } else if keyCode == 8 {
        nav := GoBack;
      }
    }
  }

  /** Left followed by right comes back to the same entry. */
  method LeftThenRight(menu: TvMenu)
    requires menu.Valid()
    modifies menu
    ensures menu.Valid() && menu.focusedIndex == old(menu.focusedIndex)
  {
    var _ := menu.HandleKey(37);
    var _ := menu.HandleKey(39);
  }

  /** Any sequence of key presses keeps the focus on one of the eight entries. */
  method PressAll(menu: TvMenu, keys: seq<int>)
    requires menu.Valid()
    modifies menu
    ensures menu.Valid() && 0 <= menu.focusedIndex <= 7
  {
    var i := 0;
    while i < |keys|
      invariant 0 <= i <= |keys|
      invariant menu.Valid()
    {
      var _ := menu.HandleKey(keys[i]);
      i := i + 1;
    }
  }
}
