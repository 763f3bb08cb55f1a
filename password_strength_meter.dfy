/**
 * The strength meter under the signup password field: four bars, the first
 * `score` of them filled in one colour that rises with the score, and the
 * strength label below them. Nothing is shown while the field is empty.
 */
module PasswordStrengthMeter {
  import opened JsValues
  import Schemas

  const BarCount := 4
  const Unfilled := "bg-sand"

  /** The colour of every filled bar for a score of 1 to 4. */
  function FillColor(score: nat): (color: string)
    ensures color != Unfilled
  {
    if score <= 1 then "bg-red-500"
    else if score == 2 then "bg-gold"
    else if score == 3 then "bg-green-500"
    else "bg-green-600"
  }

  /** `getBarColor(index)`: sand for a zero score or a bar at or past the score, the score's colour otherwise. */
  function BarColor(score: nat, index: int): (color: string)
    ensures color != Unfilled <==> 0 < score && index < score
    ensures color != Unfilled ==> color == FillColor(score)
  {
    if score == 0 then Unfilled
    else if index >= score then Unfilled
    else FillColor(score)
  }

  /** The text colour of the label: red up to 1, gold at 2, green from 3. */
  function LabelColor(score: nat): (color: string)
    ensures score <= 1 ==> color == "text-red-500"
    ensures score == 2 ==> color == "text-gold"
    ensures score >= 3 ==> color == "text-green-600"
  {
    if score <= 1 then "text-red-500" else if score == 2 then "text-gold" else "text-green-600"
  }

  datatype Label = Label(text: string, color: string)

  /** What is rendered: the colours of the four bars, and the label if it is not empty. */
  datatype View = View(bars: seq<string>, caption: Option<Label>)

  /** The component for `password`: nothing for an empty password. */
  function Meter(password: string): (view: Option<View>)
    ensures view.None? <==> password == ""
    ensures view.Some? ==> |view.value.bars| == BarCount
    ensures view.Some? ==> forall i :: 0 <= i < BarCount ==>
              view.value.bars[i] == BarColor(Schemas.StrengthScore(password), i)
    ensures view.Some? ==> (view.value.caption.Some? <==> Schemas.StrengthScore(password) > 0)
    ensures view.Some? && view.value.caption.Some? ==>
              view.value.caption.value == Label(Schemas.StrengthLabels[Schemas.StrengthScore(password)],
                                              LabelColor(Schemas.StrengthScore(password)))
  {
    if password == "" then None
    else
      var score := Schemas.StrengthScore(password);
      var text := Schemas.StrengthLabels[score];
      Some(View([BarColor(score, 0), BarColor(score, 1), BarColor(score, 2), BarColor(score, 3)],
                if text != "" then Some(Label(text, LabelColor(score))) else None))
  }

  /** The number of filled bars in `bars`. */
  function FilledCount(bars: seq<string>): nat
  {
    if bars == [] then 0 else (if bars[0] != Unfilled then 1 else 0) + FilledCount(bars[1..])
  }

  /** Bars filled exactly below `score` number `score`. */
  lemma {:induction false} FilledPrefix(bars: seq<string>, score: nat)
    requires score <= |bars|
    requires forall i :: 0 <= i < |bars| ==> (bars[i] != Unfilled <==> i < score)
    ensures FilledCount(bars) == score
  {
    if bars != [] {
      FilledPrefix(bars[1..], if score == 0 then 0 else score - 1);
    }
  }

  /** Exactly `score` of the four bars are filled, all in the score's colour. */
  lemma FilledBarsShowScore(password: string)
    requires password != ""
    ensures FilledCount(Meter(password).value.bars) == Schemas.StrengthScore(password)
    ensures forall i :: 0 <= i < BarCount && Meter(password).value.bars[i] != Unfilled ==>
              Meter(password).value.bars[i] == FillColor(Schemas.StrengthScore(password))
  {
    FilledPrefix(Meter(password).value.bars, Schemas.StrengthScore(password));
  }

  /** A password the form accepts fills at least two bars. */
  lemma AcceptedPasswordFillsTwoBars(password: string)
    requires Schemas.PasswordIssues(password) == []
    ensures Meter(password).Some?
    ensures FilledCount(Meter(password).value.bars) >= 2
  {
    Schemas.AcceptedPasswordScore(password);
    FilledBarsShowScore(password);
  }
}
