/** The chart colour palette: a fixed list of base colours repeated cyclically. */
module ChartConfig {

  /** The `main` shades of primary, secondary, success, warning and info, in that order. */
  const BaseColors: seq<string> := [
    "rgba(99, 102, 241, 0.8)",
    "rgba(168, 85, 247, 0.8)",
    "rgba(34, 197, 94, 0.8)",
    "rgba(251, 146, 60, 0.8)",
    "rgba(59, 130, 246, 0.8)"
  ]

  /** Every entry is the base colour its position selects, cycling through the base list. */
  predicate Cycles(palette: seq<string>) {
    forall i :: 0 <= i < |palette| ==> palette[i] == BaseColors[i % |BaseColors|]
  }

  /** `generateColorPalette(count)`: one colour per index below `count`; nothing for count <= 0. */
  method GenerateColorPalette(count: int := 5) returns (palette: seq<string>)
    ensures |palette| == if count > 0 then count else 0
    ensures Cycles(palette)
  {
    palette := [];
    var i := 0;
    while i < count
      invariant 0 <= i && |palette| == i
      invariant i <= (if count > 0 then count else 0)
      invariant Cycles(palette)
    {
      palette := palette + [BaseColors[i % |BaseColors|]];
      i := i + 1;
    }
  }

  /** A cycling palette repeats with period five. */
  lemma CyclesPeriodic(palette: seq<string>, i: nat)
    requires Cycles(palette)
    requires i + |BaseColors| < |palette|
    ensures palette[i] == palette[i + |BaseColors|]
  {
    assert (i + 5) % 5 == i % 5;
  }

  /** The first five colours of a cycling palette are the base colours, all different. */
  lemma CyclesStartsWithBase(palette: seq<string>)
    requires Cycles(palette) && |palette| >= |BaseColors|
    ensures palette[..|BaseColors|] == BaseColors
    ensures forall i, j :: 0 <= i < j < |BaseColors| ==> palette[i] != palette[j]
  {
    assert forall i :: 0 <= i < |BaseColors| ==> i % |BaseColors| == i;
  }

  /** The default call, `generateColorPalette()`, yields exactly the base colours in order. */
  method DefaultPalette() returns (palette: seq<string>)
    ensures palette == BaseColors
  {
    palette := GenerateColorPalette();
    CyclesStartsWithBase(palette);
  }
}
