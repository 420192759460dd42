/** The voice selector (client/src/components/voice-selector.tsx): one optional vocal
    gender and one optional vocal style, each chosen by clicking an option button
    and cleared by clicking the chosen one again. */
module VoiceSelector {
  import opened Wrappers
  import opened Schema

  /** The gender buttons, in display order. */
  const GenderOptions: seq<Gender> := [Male, Female]

  /** The style buttons, in display order. */
  const StyleOptions: seq<VocalStyle> := [Warm, Powerful, Soft, Energetic, Soulful, Gritty]

  /** The button list offers every option exactly once, in the server's order. */
  lemma OptionsEnumerated()
    ensures forall g: Gender :: g in GenderOptions
    ensures |GenderOptions| == 2 && GenderOptions[0] != GenderOptions[1]
    ensures forall v: VocalStyle :: v in StyleOptions
    ensures |StyleOptions| == |VOCAL_STYLES|
    ensures forall i :: 0 <= i < |StyleOptions| ==> StyleOptions[i].Name() == VOCAL_STYLES[i]
    ensures forall i, j :: 0 <= i < j < |StyleOptions| ==> StyleOptions[i] != StyleOptions[j]
  {
    forall g: Gender
      ensures g in GenderOptions
    {
      match g
      case Male => assert GenderOptions[0] == g;
      case Female => assert GenderOptions[1] == g;
    }
    forall v: VocalStyle
      ensures v in StyleOptions
    {
      match v
      case Warm => assert StyleOptions[0] == v;
      case Powerful => assert StyleOptions[1] == v;
      case Soft => assert StyleOptions[2] == v;
      case Energetic => assert StyleOptions[3] == v;
      case Soulful => assert StyleOptions[4] == v;
      case Gritty => assert StyleOptions[5] == v;
    }
  }

  /** Clicking an option button: the chosen option is cleared, any other is chosen. */
  function Toggle<T(==)>(selected: Option<T>, option: T): (r: Option<T>)
    ensures r.None? <==> selected == Some(option)
    ensures r.Some? ==> r.value == option
  {
    if selected == Some(option) then None else Some(option)
  }

  /** Clicking the same button twice restores a selection that was empty or that
      option, and clears any other. */
  lemma ToggleTwice<T>(selected: Option<T>, option: T)
    ensures selected.None? || selected == Some(option) ==> Toggle(Toggle(selected, option), option) == selected
    ensures selected.Some? && selected != Some(option) ==> Toggle(Toggle(selected, option), option) == None
  {
  }

  /** The two selections. */
  datatype Voice = Voice(gender: Option<Gender>, style: Option<VocalStyle>)

  /** A click on a gender button; the style is untouched. */
  function ClickGender(v: Voice, g: Gender): (r: Voice)
    ensures r.style == v.style
    ensures r.gender == Toggle(v.gender, g)
  {
    v.(gender := Toggle(v.gender, g))
  }

  /** A click on a style button; the gender is untouched. */
  function ClickStyle(v: Voice, s: VocalStyle): (r: Voice)
    ensures r.gender == v.gender
    ensures r.style == Toggle(v.style, s)
  {
    v.(style := Toggle(v.style, s))
  }

  /** The two groups are independent: clicks on one never disturb the other, so gender
      and style clicks can be made in either order. */
  lemma ClicksCommute(v: Voice, g: Gender, s: VocalStyle)
    ensures ClickGender(ClickStyle(v, s), g) == ClickStyle(ClickGender(v, g), s)
  {
  }
}
