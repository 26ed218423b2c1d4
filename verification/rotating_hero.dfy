/** The rotating hero banner: three fixed texts, an index into them and a
    visibility flag for the fade. A periodic tick fades the text out; the
    fade's completion advances the index cyclically and fades back in.
    The timers themselves are not modelled, only the transitions. */
module RotatingHero {

  datatype HeroText = HeroText(title: string, description: string, color: string)

  const HeroTexts: seq<HeroText> := [
    HeroText(
      "Website Personal",
      "Mau buat website personal tapi gatau caranya? Minta sini aja!",
      "from-blue-600 to-purple-600"),
    HeroText(
      "Foto Estetik",
      "Mau foto-foto buat jadi bahan konten estetik? Beli disini aja!",
      "from-purple-600 to-pink-600"),
    HeroText(
      "Kelas Online",
      "Mau belajar macam-macam? Beli kelas disini aja!",
      "from-green-600 to-blue-600")
  ]

  datatype HeroState = HeroState(index: int, visible: bool)

  /** The index selects an existing text. */
  predicate Valid(s: HeroState) {
    0 <= s.index < |HeroTexts|
  }

  const Initial: HeroState := HeroState(0, true)

  /** JavaScript's `%`, which truncates toward zero, so a negative dividend
      gives a non-positive remainder. */
  function JsRem(a: int, n: int): (r: int)
    requires n > 0
    ensures a >= 0 ==> r == a % n
    ensures a < 0 ==> -n < r <= 0 && exists q :: a == q * n + r
  {
    if a >= 0 then a % n
    else
      var q := (-a) / n;
      assert a == -q * n - ((-a) % n);
      -((-a) % n)
  }

  /** The interval tick: the text fades out; the index stays. */
  function FadeOut(s: HeroState): (r: HeroState)
    ensures r.index == s.index && !r.visible
  {
    s.(visible := false)
  }

  /** The fade-out's completion: `(prevIndex + 1) % heroTexts.length`, and
      the text is visible again. From the last text it wraps to the first. */
  function Advance(s: HeroState): (r: HeroState)
    ensures r.visible
    ensures Valid(s) ==> Valid(r)
    ensures Valid(s) && s.index < |HeroTexts| - 1 ==> r.index == s.index + 1
    ensures Valid(s) && s.index == |HeroTexts| - 1 ==> r.index == 0
  {
    HeroState(JsRem(s.index + 1, |HeroTexts|), true)
  }

  /** The text on screen; in range for every valid state. */
  function CurrentText(s: HeroState): (t: HeroText)
    requires Valid(s)
    ensures t in HeroTexts
  {
    HeroTexts[s.index]
  }

  /** One flag per progress indicator: whether it is highlighted. */
  function Indicators(s: HeroState): (r: seq<bool>)
    ensures |r| == |HeroTexts|
    ensures forall i :: 0 <= i < |r| ==> (r[i] <==> i == s.index)
    ensures Valid(s) ==> (set i | 0 <= i < |r| && r[i]) == {s.index}
  {
    seq(|HeroTexts|, i => i == s.index)
  }

  /** Exactly one indicator is highlighted, the current one. */
  lemma OneIndicatorHighlighted(s: HeroState)
    requires Valid(s)
    ensures (set i | 0 <= i < |HeroTexts| && Indicators(s)[i]) == {s.index}
    ensures |set i | 0 <= i < |HeroTexts| && Indicators(s)[i]| == 1
  {
  }

  /** The highlighted indicator belongs to the text on screen. */
  lemma HighlightedIsCurrent(s: HeroState, i: int)
    requires Valid(s) && 0 <= i < |HeroTexts| && Indicators(s)[i]
    ensures HeroTexts[i] == CurrentText(s)
  {
  }

  datatype Event = Tick | FadeDone

  function Apply(s: HeroState, e: Event): HeroState {
    match e
    case Tick => FadeOut(s)
    case FadeDone => Advance(s)
  }

  function Run(s: HeroState, events: seq<Event>): HeroState
    decreases |events|
  {
    if |events| == 0 then s else Run(Apply(s, events[0]), events[1..])
  }

  /** Whatever the order of ticks and completions, the index stays in range,
      so the displayed text always exists. */
  lemma {:induction false} RunStaysValid(s: HeroState, events: seq<Event>)
    requires Valid(s)
    ensures Valid(Run(s, events))
    decreases |events|
  {
    if |events| > 0 {
      RunStaysValid(Apply(s, events[0]), events[1..]);
    }
  }

  lemma InitialValid()
    ensures Valid(Initial) && Initial.index == 0 && Initial.visible
  {
  }

  /** A full rotation: a tick followed by its completion. */
  function Rotate(s: HeroState): HeroState {
    Apply(Apply(s, Tick), FadeDone)
  }

  function RotateN(s: HeroState, n: nat): HeroState
    decreases n
  {
    if n == 0 then s else Rotate(RotateN(s, n - 1))
  }

  /** After n rotations the index has moved n places round the cycle. */
  lemma {:induction false} RotateNIndex(s: HeroState, n: nat)
    requires Valid(s)
    ensures Valid(RotateN(s, n))
    ensures RotateN(s, n).index == (s.index + n) % |HeroTexts|
    decreases n
  {
    if n > 0 {
      RotateNIndex(s, n - 1);
    }
  }

  /** Three rotations come back to the starting text, and on the way every
      text is shown. */
  lemma ThreeRotationsCycle(s: HeroState)
    requires Valid(s)
    ensures RotateN(s, 3).index == s.index
    ensures {RotateN(s, 0).index, RotateN(s, 1).index, RotateN(s, 2).index} == {0, 1, 2}
  {
  }
}
