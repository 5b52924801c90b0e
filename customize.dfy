/**
  The appearance panel: the ten theme presets, the margin options, the
  lookup of the current theme's name, the show-more toggle and how many
  presets it shows, and what a click on a margin option does.
*/
module Customize {
  import opened Wrappers
  import opened Payloads

  datatype ThemePreset = ThemePreset(name: string, foreground: string, background: string)

  const ThemePresets: seq<ThemePreset> := [
    ThemePreset("Classic Black", "#000000", "#FFFFFF"),
    ThemePreset("Ocean Blue", "#2563eb", "#f8fafc"),
    ThemePreset("Royal Purple", "#7c3aed", "#faf5ff"),
    ThemePreset("Forest Green", "#059669", "#f0fdf4"),
    ThemePreset("Sunset Red", "#dc2626", "#fff7ed"),
    ThemePreset("Minimal Gray", "#334155", "#f1f5f9"),
    ThemePreset("Cyber Pink", "#db2777", "#fdf2f8"),
    ThemePreset("Deep Ocean", "#0f766e", "#ecfdf5"),
    ThemePreset("Warm Amber", "#b45309", "#fffbeb"),
    ThemePreset("Berry", "#9d174d", "#fdf2f8")
  ]

  datatype MarginOption = MarginOption(value: string, caption: string)

  const MarginOptions: seq<MarginOption> := [
    MarginOption("0", "None"),
    MarginOption("1", "Small"),
    MarginOption("4", "Medium"),
    MarginOption("8", "Large")
  ]

  /** The margin values offered are exactly 0, 1, 4 and 8, in that order. */
  lemma MarginOptionValues()
    ensures |MarginOptions| == 4
    ensures MarginOptions[0].value == "0" && MarginOptions[1].value == "1"
    ensures MarginOptions[2].value == "4" && MarginOptions[3].value == "8"
  {
  }

  /** The button of a preset is highlighted when both of its colours are the current ones. */
  predicate Matches(p: ThemePreset, c: Customization) {
    p.foreground == c.foregroundColor && p.background == c.backgroundColor
  }

  /** `Array.prototype.find` over the presets: the index of the first one that matches. */
  function FindPreset(presets: seq<ThemePreset>, c: Customization): (r: Option<nat>)
    ensures r.None? <==> forall i :: 0 <= i < |presets| ==> !Matches(presets[i], c)
    ensures r.Some? ==> r.value < |presets| && Matches(presets[r.value], c)
    ensures r.Some? ==> forall i :: 0 <= i < r.value ==> !Matches(presets[i], c)
  {
    if presets == [] then None
    else if Matches(presets[0], c) then Some(0)
    else
      var rest := FindPreset(presets[1..], c);
      if rest.None? then None else Some(rest.value + 1)
  }

  /** `getCurrentThemeName`: the name of the first matching preset, or "" when none matches. */
  function CurrentThemeName(c: Customization): (name: string)
    ensures name == "" <==> forall i :: 0 <= i < |ThemePresets| ==> !Matches(ThemePresets[i], c)
    ensures name != "" ==> exists i :: 0 <= i < |ThemePresets| && Matches(ThemePresets[i], c) && ThemePresets[i].name == name
  {
    PresetNamesNonEmpty();
    match FindPreset(ThemePresets, c)
    case None => ""
    case Some(i) => ThemePresets[i].name
  }

  /** Every preset has a name. */
  lemma PresetNamesNonEmpty()
    ensures forall i :: 0 <= i < |ThemePresets| ==> ThemePresets[i].name != ""
  {
    forall i | 0 <= i < |ThemePresets| ensures |ThemePresets[i].name| >= 5 {
      if i < 5 {
        if i == 0 {} else if i == 1 {} else if i == 2 {} else if i == 3 {} else {}
      } else {
        if i == 5 {} else if i == 6 {} else if i == 7 {} else if i == 8 {} else {}
      }
    }
  }

  /** No two presets share a foreground colour. */
  lemma PresetForegroundsDistinct()
    ensures forall i, j :: 0 <= i < j < |ThemePresets| ==> ThemePresets[i].foreground != ThemePresets[j].foreground
  {
    var codes := ["00", "25", "7c", "05", "dc", "33", "db", "0f", "b4", "9d"];
    forall i | 0 <= i < |ThemePresets|
      ensures |ThemePresets[i].foreground| == 7 && ThemePresets[i].foreground[1..3] == codes[i]
    {
      if i < 5 {
        if i == 0 {} else if i == 1 {} else if i == 2 {} else if i == 3 {} else {}
      } else {
        if i == 5 {} else if i == 6 {} else if i == 7 {} else if i == 8 {} else {}
      }
    }
    forall i, j | 0 <= i < j < |ThemePresets|
      ensures ThemePresets[i].foreground != ThemePresets[j].foreground
    {
      assert codes[i] != codes[j];
    }
  }

  /** The colour pairs of the presets are pairwise distinct, so at most one button is highlighted. */
  lemma AtMostOnePresetMatches(c: Customization, i: nat, j: nat)
    requires i < |ThemePresets| && j < |ThemePresets|
    requires Matches(ThemePresets[i], c) && Matches(ThemePresets[j], c)
    ensures i == j
  {
    PresetForegroundsDistinct();
  }

  /** After applying preset `i` through the theme handler, the panel names that preset. */
  lemma ApplyingPresetNamesIt(c: Customization, i: nat)
    requires i < |ThemePresets|
    ensures CurrentThemeName(WithTheme(c, ThemePresets[i].foreground, ThemePresets[i].background)) == ThemePresets[i].name
  {
    var p := ThemePresets[i];
    var d := WithTheme(c, p.foreground, p.background);
    var r := FindPreset(ThemePresets, d);
    assert Matches(ThemePresets[i], d);
    assert r.Some?;
    AtMostOnePresetMatches(d, i, r.value);
  }

  /** The preset list cut with JavaScript `slice(0, end)`: `end` is clamped to the length. */
  function ShownPresets(expanded: bool): (shown: seq<ThemePreset>)
    ensures |shown| == (if expanded then |ThemePresets| else 5)
    ensures shown <= ThemePresets
  {
    var end := if expanded then 12 else 5;
    ThemePresets[..if end < |ThemePresets| then end else |ThemePresets|]
  }

  /** Expanded shows every preset; collapsed shows the first five, which include the initial theme. */
  lemma ShownPresetsCover()
    ensures ShownPresets(true) == ThemePresets
    ensures Matches(ShownPresets(false)[0], InitialCustomization)
  {
  }

  /** The label the show-more button carries in each state. */
  function ToggleLabel(expanded: bool): (caption: string)
    ensures caption == "Less" <==> expanded
    ensures caption == "More" <==> !expanded
  {
    if expanded then "Less" else "More"
  }

  /** The panel's own state: whether it is expanded and the label on its toggle. */
  class CustomizePanel {
    var expanded: bool
    var statusLabel: string

    ghost predicate Valid()
      reads this
    {
      statusLabel == ToggleLabel(expanded)
    }

    constructor ()
      ensures Valid() && !expanded && statusLabel == "More"
    {
      expanded := false;
      statusLabel := "More";
    }

    /** `handle_ShowMore_ShowLess`: flips the flag and sets the label from the new value. */
    method ToggleShowMore()
      requires Valid()
      modifies this
      ensures Valid()
      ensures expanded == !old(expanded)
      ensures statusLabel == (if expanded then "Less" else "More")
    {
      var next := !expanded;
      statusLabel := if next then "Less" else "More";
      expanded := next;
    }

    /** The presets on screen. */
    function Shown(): (shown: seq<ThemePreset>)
      reads this
      ensures |shown| == (if expanded then 10 else 5)
    {
      ShownPresets(expanded)
    }
  }

  /** Two clicks on the toggle bring the panel back to where it was. */
  method ToggleTwice(panel: CustomizePanel)
    requires panel.Valid()
    modifies panel
    ensures panel.Valid()
    ensures panel.expanded == old(panel.expanded) && panel.statusLabel == old(panel.statusLabel)
  {
    panel.ToggleShowMore();
    panel.ToggleShowMore();
  }

  /** What a click on a margin option produces: the new settings, or the error the handler throws. */
  datatype MarginClick = Applied(settings: Customization) | Thrown(message: string)

  /**
    As written the margin buttons call a name the panel never receives, so
    the click throws and the settings stay as they were.
  */
  function MarginClickAsWritten(c: Customization, value: string): (r: MarginClick)
    ensures r.Thrown?
  {
    Thrown("handleMarginChange is not defined")
  }

  /** With the handler passed in, a click applies `handleMarginChange`. */
  function CorrectedMarginClick(c: Customization, value: string): (r: MarginClick)
    ensures r.Applied? && MarginParam(r.settings) == value
    ensures r.settings.margin == value && (r.settings.hasMargin <==> value != "0")
    ensures r.settings.foregroundColor == c.foregroundColor && r.settings.backgroundColor == c.backgroundColor
    ensures r.settings.isTransparent == c.isTransparent && r.settings.eyeStyle == c.eyeStyle
    ensures r.settings.hasLogo == c.hasLogo && r.settings.logoUrl == c.logoUrl && r.settings.logoSize == c.logoSize
  {
    MarginParamIsChosenMargin(c, value);
    Applied(WithMargin(c, value))
  }

  /** As written, picking "8" never reaches the URL: no click on any option yields settings. */
  lemma MarginClickIsLost(c: Customization)
    ensures forall k :: 0 <= k < |MarginOptions| ==> !MarginClickAsWritten(c, MarginOptions[k].value).Applied?
  {
  }

  /** Corrected, each margin option ends up as the URL's `margin` parameter. */
  lemma CorrectedMarginClickReachesUrl(c: Customization, k: nat)
    requires k < |MarginOptions|
    ensures CorrectedMarginClick(c, MarginOptions[k].value).Applied?
    ensures MarginParam(CorrectedMarginClick(c, MarginOptions[k].value).settings) == MarginOptions[k].value
  {
    MarginParamIsChosenMargin(c, MarginOptions[k].value);
  }
}
