/** src/pages/SubmitBike.tsx: the four-step listing wizard. Its state is a
    step counter moved by the Back and Continue buttons and a form record
    whose fields `update` overwrites one at a time; submitting does nothing. */
module SubmitBike {
  import opened Decimal

  /** `STEPS`: the titles of the four steps, in order. */
  const STEPS: seq<string> := ["Bike Info", "Components", "Condition & Photos", "Pricing"]

  /** Index of the last step (`STEPS.length - 1`). */
  const LAST_STEP: nat := |STEPS| - 1

  /** `FormData`: every field is text except the list of image URLs. */
  datatype FormData = FormData(
    brand: string, model: string, year: string, category: string, suspension: string,
    wheelSize: string, frameMaterial: string,
    fork: string, shock: string, drivetrain: string, weightKg: string,
    condition: string, description: string, images: seq<string>,
    startingBid: string, reservePrice: string, buyItNowPrice: string)

  /** The text fields, the keys the step panels pass to `update`. */
  datatype Key =
    | Brand | Model | Year | Category | Suspension | WheelSize | FrameMaterial
    | Fork | Shock | Drivetrain | WeightKg
    | Condition | Description
    | StartingBid | ReservePrice | BuyItNowPrice

  /** The value of text field `k`. */
  function Get(d: FormData, k: Key): string {
    match k
    case Brand => d.brand
    case Model => d.model
    case Year => d.year
    case Category => d.category
    case Suspension => d.suspension
    case WheelSize => d.wheelSize
    case FrameMaterial => d.frameMaterial
    case Fork => d.fork
    case Shock => d.shock
    case Drivetrain => d.drivetrain
    case WeightKg => d.weightKg
    case Condition => d.condition
    case Description => d.description
    case StartingBid => d.startingBid
    case ReservePrice => d.reservePrice
    case BuyItNowPrice => d.buyItNowPrice
  }

  /** `{ ...prev, [key]: value }`: field `k` becomes `v`, every other field and
      the image list are unchanged. */
  function Set(d: FormData, k: Key, v: string): (r: FormData)
    ensures Get(r, k) == v
    ensures forall k' :: k' != k ==> Get(r, k') == Get(d, k')
    ensures r.images == d.images
  {
    match k
    case Brand => d.(brand := v)
    case Model => d.(model := v)
    case Year => d.(year := v)
    case Category => d.(category := v)
    case Suspension => d.(suspension := v)
    case WheelSize => d.(wheelSize := v)
    case FrameMaterial => d.(frameMaterial := v)
    case Fork => d.(fork := v)
    case Shock => d.(shock := v)
    case Drivetrain => d.(drivetrain := v)
    case WeightKg => d.(weightKg := v)
    case Condition => d.(condition := v)
    case Description => d.(description := v)
    case StartingBid => d.(startingBid := v)
    case ReservePrice => d.(reservePrice := v)
    case BuyItNowPrice => d.(buyItNowPrice := v)
  }

  /** A record is determined by its text fields and its image list. */
  lemma Extensionality(a: FormData, b: FormData)
    requires forall k :: Get(a, k) == Get(b, k)
    requires a.images == b.images
    ensures a == b
  {
    assert Get(a, Brand) == Get(b, Brand) && Get(a, Model) == Get(b, Model);
    assert Get(a, Year) == Get(b, Year) && Get(a, Category) == Get(b, Category);
    assert Get(a, Suspension) == Get(b, Suspension) && Get(a, WheelSize) == Get(b, WheelSize);
    assert Get(a, FrameMaterial) == Get(b, FrameMaterial) && Get(a, Fork) == Get(b, Fork);
    assert Get(a, Shock) == Get(b, Shock) && Get(a, Drivetrain) == Get(b, Drivetrain);
    assert Get(a, WeightKg) == Get(b, WeightKg) && Get(a, Condition) == Get(b, Condition);
    assert Get(a, Description) == Get(b, Description) && Get(a, StartingBid) == Get(b, StartingBid);
    assert Get(a, ReservePrice) == Get(b, ReservePrice) && Get(a, BuyItNowPrice) == Get(b, BuyItNowPrice);
  }

  /** Writing a field twice keeps only the second value, and writing back the
      value a field already has changes nothing. */
  lemma SetTwice(d: FormData, k: Key, v: string, w: string)
    ensures Set(Set(d, k, v), k, w) == Set(d, k, w)
    ensures Set(d, k, Get(d, k)) == d
  {
    Extensionality(Set(Set(d, k, v), k, w), Set(d, k, w));
    Extensionality(Set(d, k, Get(d, k)), d);
  }

  /** `initial`: every text field empty and no images. */
  function Initial(): (d: FormData)
    ensures forall k :: Get(d, k) == []
    ensures d.images == []
  {
    FormData("", "", "", "", "", "", "", "", "", "", "", "", "", [], "", "", "")
  }

  /** The wizard's state: the step index and the form record. */
  datatype Wizard = Wizard(step: int, data: FormData)

  /** What the user can do: click Back, click Continue, submit the form, or
      edit one field through its step panel. */
  datatype Event = Back | Continue | Submit | Edit(key: Key, value: string)

  /** The Back button is `disabled={step === 0}`. */
  predicate BackEnabled(step: int) { step != 0 }

  /** Continue is rendered while `step < STEPS.length - 1`; Submit otherwise. */
  predicate ContinueShown(step: int) { step < LAST_STEP }

  /** The effect of one event. A click on the disabled Back button, or on a
      Continue button that is not rendered, changes nothing; `handleSubmit`
      changes nothing. Only Back and Continue move the step, by one, and only
      an edit changes the record. */
  function Next(w: Wizard, e: Event): (r: Wizard)
    ensures e.Edit? ==> r.step == w.step && r.data == Set(w.data, e.key, e.value)
    ensures !e.Edit? ==> r.data == w.data
    ensures e.Back? ==> r.step == if BackEnabled(w.step) then w.step - 1 else w.step
    ensures e.Continue? ==> r.step == if ContinueShown(w.step) then w.step + 1 else w.step
    ensures e.Submit? ==> r == w
  {
    match e
    case Back => if w.step == 0 then w else w.(step := w.step - 1)
    case Continue => if w.step < |STEPS| - 1 then w.(step := w.step + 1) else w
    case Submit => w
    case Edit(k, v) => w.(data := Set(w.data, k, v))
  }

  /** The state after a sequence of events, first event first. */
  function Run(w: Wizard, es: seq<Event>): Wizard
    decreases |es|
  {
    if es == [] then w else Run(Next(w, es[0]), es[1..])
  }

  /** Starting anywhere in 0..3, no sequence of events leaves that range; in
      particular the wizard, which starts at step 0, always shows a step. */
  lemma {:induction false} RunStaysInRange(w: Wizard, es: seq<Event>)
    requires 0 <= w.step <= LAST_STEP
    ensures 0 <= Run(w, es).step <= LAST_STEP
    decreases |es|
  {
    if es != [] {
      RunStaysInRange(Next(w, es[0]), es[1..]);
    }
  }

  /** `n` clicks on Continue from step 0 reach step `n`, capped at the last
      step. */
  lemma {:induction false} ContinueClicks(w: Wizard, n: nat)
    requires 0 <= w.step <= LAST_STEP
    ensures Run(w, seq(n, _ => Continue)).step == if w.step + n <= LAST_STEP then w.step + n else LAST_STEP
    ensures Run(w, seq(n, _ => Continue)).data == w.data
    decreases n
  {
    var es := seq(n, _ => Continue);
    if n > 0 {
      assert es[0] == Continue;
      assert es[1..] == seq(n - 1, _ => Continue);
      ContinueClicks(Next(w, Continue), n - 1);
    }
  }

  /** `{step === i && <StepN .../>}` for each of the four panels. */
  function PanelsShown(step: int): seq<bool> {
    [step == 0, step == 1, step == 2, step == 3]
  }

  /** For every step in range exactly one panel is rendered, the one at that
      index; outside the range none is. */
  lemma ExactlyOnePanel(step: int)
    ensures |PanelsShown(step)| == |STEPS|
    ensures 0 <= step <= LAST_STEP ==>
      PanelsShown(step)[step] && forall i :: 0 <= i < 4 && i != step ==> !PanelsShown(step)[i]
    ensures !(0 <= step <= LAST_STEP) ==> forall i :: 0 <= i < 4 ==> !PanelsShown(step)[i]
  {
  }

  /** How step `i` of the indicator is drawn. */
  datatype Mark = Done | Active | Upcoming

  /** `done = i < step`, `active = i === step`; a done step shows a tick and is
      never the active one. */
  function StepMark(i: nat, step: int): (m: Mark)
    ensures m == Done <==> i < step
    ensures m == Active <==> i == step
  {
    if i < step then Done else if i == step then Active else Upcoming
  }

  /** The text inside indicator circle `i`: a tick for a done step, otherwise
      the step's 1-based number. */
  function IndicatorGlyph(i: nat, step: int): (g: string)
    ensures g == "\U{2713}" <==> StepMark(i, step) == Done
    ensures StepMark(i, step) != Done ==> AllDigits(g) && DigitsValue(g) == i + 1
  {
    ReadBack(i + 1);
    if i < step then "\U{2713}" else NatToString(i + 1)
  }

  /** At a step in range, the steps before it are done, it alone is active,
      and the rest are upcoming. */
  lemma IndicatorAtStep(step: int)
    requires 0 <= step <= LAST_STEP
    ensures forall i: nat :: i < |STEPS| ==> (StepMark(i, step) == Active <==> i == step)
    ensures forall i: nat :: i < step ==> StepMark(i, step) == Done
    ensures forall i: nat :: step < i < |STEPS| ==> StepMark(i, step) == Upcoming
  {
  }

  /** The wizard's page state. */
  class SubmitBikePage {
    var step: int
    var data: FormData

    ghost predicate Valid()
      reads this
    {
      0 <= step <= LAST_STEP
    }

    function State(): Wizard
      reads this
    {
      Wizard(step, data)
    }

    constructor ()
      ensures Valid()
      ensures step == 0 && data == Initial()
    {
      step := 0;
      data := Initial();
    }

    /** `update(key, value)`. */
    method Update(k: Key, v: string)
      requires Valid()
      modifies this
      ensures Valid()
      ensures State() == Next(old(State()), Edit(k, v))
    {
      data := Set(data, k, v);
    }

    /** A click on Back; nothing happens while it is disabled. */
    method ClickBack()
      requires Valid()
      modifies this
      ensures Valid()
      ensures State() == Next(old(State()), Back)
    {
      if step != 0 {
        step := step - 1;
      }
    }

    /** A click on Continue; nothing happens when it is not rendered. */
    method ClickContinue()
      requires Valid()
      modifies this
      ensures Valid()
      ensures State() == Next(old(State()), Continue)
    {
      if step < |STEPS| - 1 {
        step := step + 1;
      }
    }

    /** `handleSubmit`: prevents the default action and changes no state. */
    method HandleSubmit()
      requires Valid()
      ensures State() == Next(State(), Submit)
    {
    }
  }
}
