/** Text measurement with a cache.  The cache key leaves the typography out. */
module Metrics {

  datatype TextRotation = Upright | Rotate270

  datatype TextBox = TextBox(width: int, height: int)

  datatype TextKey = TextKey(text: string, fontPx: nat, rotation: TextRotation)

  datatype Typography = Typography(
    titleFontPx: nat, subtitleFontPx: nat, axisTickFontPx: nat, axisLabelFontPx: nat, movementLabelFontPx: nat,
    avgAdvanceEm: real, lineHeightEm: real)

  function Ceil(x: real): int {
    -((-x).Floor)
  }

  /** The measurement itself. */
  function DirectBox(key: TextKey, t: Typography): TextBox {
    var width := Ceil(|key.text| as real * key.fontPx as real * t.avgAdvanceEm);
    var height := Ceil(key.fontPx as real * t.lineHeightEm);
    match key.rotation
    case Upright => TextBox(width, height)
    case Rotate270 => TextBox(height, width)
  }

  /** `n` is the least whole number of pixels that holds `x`. */
  predicate HoldsExactly(n: int, x: real) {
    n as real - 1.0 < x <= n as real
  }

  /** An upright text takes as many average advances as it has characters, and one line; turned, the same box
      the other way round. */
  lemma BoxHoldsText(text: string, fontPx: nat, t: Typography)
    ensures
      var upright, turned := DirectBox(TextKey(text, fontPx, Upright), t), DirectBox(TextKey(text, fontPx, Rotate270), t);
      && HoldsExactly(upright.width, |text| as real * (fontPx as real * t.avgAdvanceEm))
      && HoldsExactly(upright.height, fontPx as real * t.lineHeightEm)
      && turned.width == upright.height && turned.height == upright.width
  {
    CeilHolds(|text| as real * fontPx as real * t.avgAdvanceEm);
    CeilHolds(fontPx as real * t.lineHeightEm);
    MulAssociates(|text| as real, fontPx as real, t.avgAdvanceEm);
  }

  lemma CeilHolds(x: real)
    ensures HoldsExactly(Ceil(x), x)
  {
  }

  lemma MulAssociates(a: real, b: real, c: real)
    ensures a * b * c == a * (b * c)
  {
  }

  class FontMetricsCache {
    var cache: map<TextKey, TextBox>

    constructor ()
      ensures cache == map[]
    {
      cache := map[];
    }

    /** Every cached box is what this typography would measure. */
    ghost predicate AgreesWith(t: Typography)
      reads this
    {
      forall key :: key in cache ==> cache[key] == DirectBox(key, t)
    }

    method Measure(text: string, fontPx: nat, rotation: TextRotation, t: Typography) returns (box: TextBox)
      modifies this
      ensures
        var key := TextKey(text, fontPx, rotation);
        && box == (if key in old(cache) then old(cache)[key] else DirectBox(key, t))
        && cache == old(cache)[key := box]
      ensures old(AgreesWith(t)) ==> box == DirectBox(TextKey(text, fontPx, rotation), t) && AgreesWith(t)
    {
      var key := TextKey(text, fontPx, rotation);
      if key in cache {
        return cache[key];
      }
      box := DirectBox(key, t);
      cache := cache[key := box];
    }
  }

  /** One engine has one theme; with two, the second measurement repeats the first one's answer, so it
      is right exactly when the two typographies measure the text alike. */
  method MeasureUnderTwoThemes(text: string, fontPx: nat, rotation: TextRotation, t: Typography, t': Typography)
    returns (second: TextBox, right: bool)
    ensures var key := TextKey(text, fontPx, rotation);
      second == DirectBox(key, t) && (right <==> DirectBox(key, t) == DirectBox(key, t'))
  {
    var metrics := new FontMetricsCache();
    var first := metrics.Measure(text, fontPx, rotation, t);
    second := metrics.Measure(text, fontPx, rotation, t');
    right := second == DirectBox(TextKey(text, fontPx, rotation), t');
  }
}
