/**
 * The overlay's colour picker (entrypoints/content/components/FontColor.tsx):
 * a fixed table of six colours and a checkbox toggle over the list of
 * allowed colour values, written through to `chrome.storage.local`.
 */
module FontColor {
  import opened Wrappers
  import opened ChromeStorage
  import Text

  datatype ColorOption = ColorOption(name: string, value: string, code: string)

  const COLOR_OPTIONS: seq<ColorOption> := [
    ColorOption("赤", "red", "#FF0000"),
    ColorOption("青", "blue", "#0000FF"),
    ColorOption("黄色", "yellow", "#FFFF00"),
    ColorOption("紫", "purple", "#800080"),
    ColorOption("黒", "black", "#000000"),
    ColorOption("白", "white", "#FFFFFF")
  ]

  const SELECTED_KEY := "selectedColors"

  /** The hex code the table gives a colour value, if it lists one. */
  function CodeOf(value: string): Option<string> {
    Lookup(COLOR_OPTIONS, value)
  }

  function Lookup(options: seq<ColorOption>, value: string): Option<string> {
    if options == [] then None
    else if options[0].value == value then Some(options[0].code)
    else Lookup(options[1..], value)
  }

  /** A code is found exactly for the listed values, and it is the code listed beside the value. */
  lemma {:induction false} LookupSpec(options: seq<ColorOption>, value: string)
    ensures Lookup(options, value).Some? <==> exists i :: 0 <= i < |options| && options[i].value == value
    ensures Lookup(options, value).Some? ==>
      exists i :: 0 <= i < |options| && options[i].value == value && options[i].code == Lookup(options, value).value
  {
    if options != [] && options[0].value != value {
      LookupSpec(options[1..], value);
      assert forall i :: 1 <= i < |options| ==> options[i] == options[1..][i - 1];
      if Lookup(options, value).Some? {
        var i :| 0 <= i < |options[1..]| && options[1..][i].value == value && options[1..][i].code == Lookup(options, value).value;
        assert options[i + 1] == options[1..][i];
      }
    }
  }

  /** The table's six values and six codes are each pairwise distinct. */
  lemma ColorTableDistinct()
    ensures forall i, j :: 0 <= i < j < |COLOR_OPTIONS| ==> COLOR_OPTIONS[i].value != COLOR_OPTIONS[j].value
    ensures forall i, j :: 0 <= i < j < |COLOR_OPTIONS| ==> COLOR_OPTIONS[i].code != COLOR_OPTIONS[j].code
  {
  }

  /** The name-to-hex mapping the table fixes. */
  lemma ColorTable()
    ensures CodeOf("red") == Some("#FF0000") && CodeOf("blue") == Some("#0000FF")
    ensures CodeOf("yellow") == Some("#FFFF00") && CodeOf("purple") == Some("#800080")
    ensures CodeOf("black") == Some("#000000") && CodeOf("white") == Some("#FFFFFF")
  {
  }

  /** `handleColorToggle`'s new list: drop every copy of a present colour, append an absent one. */
  function Toggle(selected: seq<string>, c: string): (r: seq<string>)
    ensures c in selected ==> r == Text.RemoveAll(selected, c)
    ensures c !in selected ==> r == selected + [c]
    ensures (c in r) == (c !in selected)
    ensures forall d :: d != c ==> (d in r <==> d in selected)
  {
    if c in selected then Text.RemoveAll(selected, c) else selected + [c]
  }

  /** Toggling an absent colour twice restores the list. */
  lemma ToggleAbsentTwice(selected: seq<string>, c: string)
    requires c !in selected
    ensures Toggle(Toggle(selected, c), c) == selected
  {
    Text.RemoveAllConcat(selected, [c], c);
    Text.RemoveAllAbsent(selected, c);
  }

  /** Removal keeps the other colours in their order; their multiplicities are untouched. */
  lemma TogglePresentKeepsOthers(selected: seq<string>, c: string)
    requires c in selected
    ensures multiset(Toggle(selected, c)) == multiset(selected)[c := 0]
  {
    Text.RemoveAllMultiset(selected, c);
  }

  /** A list without repeats stays without repeats. */
  lemma ToggleKeepsDistinct(selected: seq<string>, c: string)
    requires forall i, j :: 0 <= i < j < |selected| ==> selected[i] != selected[j]
    ensures var r := Toggle(selected, c); forall i, j :: 0 <= i < j < |r| ==> r[i] != r[j]
  {
    var r := Toggle(selected, c);
    if c in selected {
      Text.RemoveAllMultiset(selected, c);
      DistinctIffCountsAtMostOne(selected);
      DistinctIffCountsAtMostOne(r);
    }
  }

  lemma {:induction false} DistinctIffCountsAtMostOne(s: seq<string>)
    ensures (forall i, j :: 0 <= i < j < |s| ==> s[i] != s[j]) <==> (forall x :: multiset(s)[x] <= 1)
  {
    if s != [] {
      DistinctIffCountsAtMostOne(s[1..]);
      assert s == [s[0]] + s[1..];
      if forall i, j :: 0 <= i < j < |s| ==> s[i] != s[j] {
        assert s[0] !in s[1..];
        assert forall i, j :: 0 <= i < j < |s[1..]| ==> s[1..][i] != s[1..][j] by {
          forall i, j | 0 <= i < j < |s[1..]| ensures s[1..][i] != s[1..][j] {
            assert s[1..][i] == s[i + 1] && s[1..][j] == s[j + 1];
          }
        }
      }
      if forall x :: multiset(s)[x] <= 1 {
        assert forall x :: multiset(s[1..])[x] <= 1 by {
          forall x ensures multiset(s[1..])[x] <= 1 {
            assert multiset(s)[x] == multiset([s[0]])[x] + multiset(s[1..])[x];
          }
        }
        assert multiset(s)[s[0]] == 1 + multiset(s[1..])[s[0]];
        forall i, j | 0 <= i < j < |s| ensures s[i] != s[j] {
          if i == 0 {
            assert s[j] in s[1..];
          } else {
            assert s[i] == s[1..][i - 1] && s[j] == s[1..][j - 1];
          }
        }
      }
    }
  }

  class ColorSelector {
    var selectedColors: seq<string>
    const storage: LocalArea

    constructor (initialColors: seq<string>, storage: LocalArea)
      ensures selectedColors == initialColors && this.storage == storage
    {
      selectedColors := initialColors;
      this.storage := storage;
    }

    /** The effect on `initialColors`: the state is reset to the new initial list. */
    method SyncInitial(initialColors: seq<string>)
      modifies this
      ensures selectedColors == initialColors
    {
      selectedColors := initialColors;
    }

    /** `handleColorToggle(c)`: the new list becomes the state, the callback's argument and the stored value. */
    method HandleColorToggle(c: string) returns (notified: seq<string>)
      modifies this, storage
      ensures selectedColors == Toggle(old(selectedColors), c)
      ensures notified == selectedColors
      ensures storage.entries == old(storage.entries)[SELECTED_KEY := TextList(selectedColors)]
    {
      var updated := Toggle(selectedColors, c);
      selectedColors := updated;
      notified := updated;
      storage.Set(SELECTED_KEY, TextList(updated));
    }
  }
}
