/** src/components/Dropdown.tsx: the selected-option lookup, the rendered
    button and listbox, and the `open` flag that the button, an option and a
    mousedown outside the component change. */
module Dropdown {
  import opened Common

  /** `DropdownOption`; `text` is the option's `label`. */
  datatype DropdownOption = DropdownOption(text: string, value: string)

  /** The `placeholder` default. */
  const DEFAULT_PLACEHOLDER: string := "Select..."

  /** `option.value === value`: an absent `value` matches no option. */
  predicate Matches(o: DropdownOption, value: Option<string>) {
    value == Some(o.value)
  }

  /** `options.find(o => o.value === value)`, as an index: the first option
      whose value is `value`, or none when no option has it. */
  function FindSelected(options: seq<DropdownOption>, value: Option<string>): (r: Option<nat>)
    ensures r.Some? ==>
      && r.value < |options|
      && Matches(options[r.value], value)
      && forall j :: 0 <= j < r.value ==> !Matches(options[j], value)
    ensures r.None? ==> forall j :: 0 <= j < |options| ==> !Matches(options[j], value)
  {
    if options == [] then None
    else if Matches(options[0], value) then Some(0)
    else
      match FindSelected(options[1..], value)
      case None => None
      case Some(k) => Some(k + 1)
  }

  /** The button's text: the selected option's label, else the placeholder,
      which defaults to "Select..." when the prop is absent. */
  function ButtonText(options: seq<DropdownOption>, value: Option<string>, placeholder: Option<string>): string {
    match FindSelected(options, value)
    case Some(i) => options[i].text
    case None => placeholder.GetOr(DEFAULT_PLACEHOLDER)
  }

  /** The button shows the label of the first option marked `aria-selected`,
      and the placeholder when none is; with no `value` it always shows the
      placeholder. */
  lemma ButtonTextMeaning(options: seq<DropdownOption>, value: Option<string>, placeholder: Option<string>)
    ensures forall i :: 0 <= i < |options| && FirstMatch(options, value, i) ==>
      ButtonText(options, value, placeholder) == options[i].text
    ensures (forall i :: 0 <= i < |options| ==> !Matches(options[i], value)) ==>
      ButtonText(options, value, placeholder) == placeholder.GetOr(DEFAULT_PLACEHOLDER)
    ensures value.None? ==> ButtonText(options, value, placeholder) == placeholder.GetOr(DEFAULT_PLACEHOLDER)
  {
  }

  /** Option `i` matches `value` and no earlier option does. */
  predicate FirstMatch(options: seq<DropdownOption>, value: Option<string>, i: nat)
    requires i < |options|
  {
    Matches(options[i], value) && forall j :: 0 <= j < i ==> !Matches(options[j], value)
  }

  /** Option values are the list's keys, so they are expected to be distinct. */
  predicate DistinctValues(options: seq<DropdownOption>) {
    forall i, j :: 0 <= i < j < |options| ==> options[i].value != options[j].value
  }

  /** With distinct values at most one option is marked `aria-selected`. */
  lemma AtMostOneMarked(options: seq<DropdownOption>, value: Option<string>)
    requires DistinctValues(options)
    ensures forall i, j ::
      (0 <= i < |options| && 0 <= j < |options| && Matches(options[i], value) && Matches(options[j], value)) ==> i == j
  {
  }

  /** Choosing option `i` and passing its value back as `value` (what a
      controlling parent does with `onChange`) makes the button show that
      option's label, provided the values are distinct. */
  lemma ChosenOptionIsShown(options: seq<DropdownOption>, i: nat, placeholder: Option<string>)
    requires i < |options| && DistinctValues(options)
    ensures ButtonText(options, Some(options[i].value), placeholder) == options[i].text
  {
    var value := Some(options[i].value);
    var k := FindSelected(options, value);
    assert Matches(options[i], value);
    assert k.Some?;
    assert k.value == i;
  }

  /** One `<li role="option">`. */
  datatype Item = Item(text: string, selected: bool)

  /** What the component renders: the button's text, `aria-expanded` and
      `disabled`, and the listbox when it is open. */
  datatype DropdownView = DropdownView(
    buttonText: string, expanded: bool, disabled: bool, listbox: Option<seq<Item>>)

  /** The rendering for the given props and `open` flag: the listbox exists
      exactly while open and lists every option, in order, under its own
      label, marked selected exactly when its value is `value`. */
  function Render(options: seq<DropdownOption>, value: Option<string>, placeholder: Option<string>,
                  disabled: bool, open: bool): (v: DropdownView)
    ensures v.expanded == open && v.disabled == disabled
    ensures v.listbox.Some? <==> open
    ensures v.listbox.Some? ==>
      && |v.listbox.value| == |options|
      && forall i :: 0 <= i < |options| ==>
        v.listbox.value[i].text == options[i].text
        && (v.listbox.value[i].selected <==> Matches(options[i], value))
  {
    var items := seq(|options|, i requires 0 <= i < |options| => Item(options[i].text, Matches(options[i], value)));
    DropdownView(ButtonText(options, value, placeholder), open, disabled, if open then Some(items) else None)
  }

  /** A mounted dropdown: its props and the `open` state. */
  class DropdownWidget {
    const options: seq<DropdownOption>
    const value: Option<string>
    const placeholder: Option<string>
    const disabled: bool
    var open: bool

    /** Mounting: `disabled` defaults to false, and the listbox starts closed. */
    constructor (options: seq<DropdownOption>, value: Option<string>,
                 placeholder: Option<string>, disabled: Option<bool>)
      ensures this.options == options && this.value == value && this.placeholder == placeholder
      ensures this.disabled == disabled.GetOr(false)
      ensures !open
    {
      this.options := options;
      this.value := value;
      this.placeholder := placeholder;
      this.disabled := disabled.GetOr(false);
      open := false;
    }

    /** What is on the screen now. */
    function View(): DropdownView
      reads this
    {
      Render(options, value, placeholder, disabled, open)
    }

    /** A click on the button toggles the listbox; a disabled button receives
        no click. */
    method ClickButton()
      modifies this
      ensures open == if disabled then old(open) else !old(open)
    {
      if !disabled {
        open := !open;
      }
    }

    /** A click on option `i`: `onChange` is called with exactly that
        option's value and the listbox closes. Without an open listbox, or
        past the last option, there is nothing to click. */
    method ClickOption(i: nat) returns (changed: Option<string>)
      modifies this
      ensures old(open) && i < |options| ==> changed == Some(options[i].value) && !open
      ensures !(old(open) && i < |options|) ==> changed == None && open == old(open)
    {
      if open && i < |options| {
        changed := Some(options[i].value);
        open := false;
      } else {
        changed := None;
      }
    }

    /** The document's `mousedown` listener: a press outside the component
        closes the listbox, one inside leaves it as it is. */
    method MouseDown(inside: bool)
      modifies this
      ensures open == (old(open) && inside)
    {
      if !inside {
        open := false;
      }
    }
  }
}
