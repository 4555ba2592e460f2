/** The masking of `src/components/KeyDisplay.tsx`: a hidden key shows as
    eight bullets, or, when longer than eight characters, as its first and
    last four characters around eight bullets. */
module KeyDisplay {

  /** U+2022 BULLET. */
  const Bullet: char := '\U{2022}'

  /** How many characters are kept at each end of a long key. */
  const VisibleChars: nat := 4

  /** `'•'.repeat(n)`. */
  function Bullets(n: nat): (r: string)
    ensures |r| == n && forall i :: 0 <= i < n ==> r[i] == Bullet
  {
    seq(n, _ => Bullet)
  }

  /** `displayValue()`. */
  function DisplayValue(value: string, isVisible: bool, showFullKey: bool): (r: string)
    ensures isVisible || showFullKey ==> r == value
    ensures !isVisible && !showFullKey && |value| <= 8 ==> r == Bullets(8)
    ensures !isVisible && !showFullKey && |value| > 8 ==>
      |r| == 16 && r[..4] == value[..4] && r[4..12] == Bullets(8) && r[12..] == value[|value| - 4..]
  {
    if isVisible || showFullKey then value
    else if |value| <= 8 then Bullets(8)
    else value[..VisibleChars] + Bullets(8) + value[|value| - VisibleChars..]
  }

  /** A masked key shows nothing of a short value, and of a long one only its
      first and last four characters: two values that agree there are
      masked alike, and every other position is a bullet. */
  lemma MaskRevealsAtMostEight(v: string, w: string)
    ensures |v| <= 8 && |w| <= 8 ==> DisplayValue(v, false, false) == DisplayValue(w, false, false)
    ensures |v| > 8 && |w| > 8 && v[..4] == w[..4] && v[|v| - 4..] == w[|w| - 4..] ==>
      DisplayValue(v, false, false) == DisplayValue(w, false, false)
    ensures var r := DisplayValue(v, false, false);
            forall i :: 0 <= i < |r| && r[i] != Bullet ==> |v| > 8 && (i < 4 || 12 <= i)
  {
    var r := DisplayValue(v, false, false);
    if |v| > 8 {
      forall i | 4 <= i < 12 ensures r[i] == Bullet { assert r[i] == r[4..12][i - 4]; }
      if |w| > 8 && v[..4] == w[..4] && v[|v| - 4..] == w[|w| - 4..] {
        var s := DisplayValue(w, false, false);
        assert r == r[..4] + r[4..12] + r[12..];
        assert s == s[..4] + s[4..12] + s[12..];
      }
    }
  }

  /** `toggleVisibility`: flips whether the key is shown. */
  function ToggleVisibility(isVisible: bool): (r: bool)
    ensures r != isVisible
  {
    !isVisible
  }
}
