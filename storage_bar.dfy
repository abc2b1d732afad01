/** The storage quota bar: a colour by how full the quota is, a bar whose
    width is the percentage capped at 100, and a warning from 80 percent on. */
module StorageBar {
  import opened Wrappers

  datatype BarColor = Red | Yellow | Green

  /** `getColorClass`. */
  function ColorOf(percentage: real): (r: BarColor)
    ensures r == Red <==> percentage >= 90.0
    ensures r == Yellow <==> 70.0 <= percentage < 90.0
    ensures r == Green <==> percentage < 70.0
  {
    if percentage >= 90.0 then Red
    else if percentage >= 70.0 then Yellow
    else Green
  }

  /** How alarming a colour is. */
  function Severity(c: BarColor): nat {
    match c
    case Green => 0
    case Yellow => 1
    case Red => 2
  }

  /** A fuller quota never shows a calmer colour. */
  lemma ColorMonotone(p: real, q: real)
    requires p <= q
    ensures Severity(ColorOf(p)) <= Severity(ColorOf(q))
  {
  }

  /** `Math.min(percentage, 100)`, the bar's width in percent. */
  function BarWidth(percentage: real): (r: real)
    ensures r <= 100.0 && r <= percentage
    ensures r == percentage || r == 100.0
    ensures r == 100.0 <==> percentage >= 100.0
  {
    if percentage <= 100.0 then percentage else 100.0
  }

  const AlmostFull := "Storage almost full!"
  const RunningLow := "Storage running low"

  /** The warning line under the bar: none below 80 percent, "almost full"
      from 90 percent on, "running low" in between. */
  function Warning(percentage: real): (r: Option<string>)
    ensures r.None? <==> percentage < 80.0
    ensures r == Some(AlmostFull) <==> percentage >= 90.0
    ensures r == Some(RunningLow) <==> 80.0 <= percentage < 90.0
  {
    if percentage >= 80.0 then
      Some(if percentage >= 90.0 then AlmostFull else RunningLow)
    else None
  }

  /** The warning agrees with the colour: "almost full" exactly on red, and
      never a warning on green. */
  lemma WarningMatchesColor(percentage: real)
    ensures Warning(percentage) == Some(AlmostFull) <==> ColorOf(percentage) == Red
    ensures ColorOf(percentage) == Green ==> Warning(percentage).None?
    ensures Warning(percentage) == Some(RunningLow) ==> ColorOf(percentage) == Yellow
  {
  }
}
