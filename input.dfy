/** src/components/Input.tsx: the input's id, derived from the label when no
    id is given, and the accessibility attributes that tie the label and the
    error message to it. */
module Input {
  import opened Common

  /** `.replace(/\s+/g, "-")`: every maximal run of whitespace becomes a single
      "-". The result has no whitespace and is no longer than `s`. */
  function ReplaceSpaceRuns(s: string): (r: string)
    ensures HasNoSpace(r)
    ensures |r| <= |s|
    decreases |s|
  {
    if s == [] then []
    else if IsSpace(s[0]) then
      var n := LeadingSpaces(s);
      "-" + ReplaceSpaceRuns(s[n..])
    else
      [s[0]] + ReplaceSpaceRuns(s[1..])
  }

  predicate NoUpper(s: string) {
    forall k :: 0 <= k < |s| ==> !IsUpper(s[k])
  }

  /** The replacement adds no upper-case letter. */
  lemma {:induction false} NoUpperKept(s: string)
    requires NoUpper(s)
    ensures NoUpper(ReplaceSpaceRuns(s))
    decreases |s|
  {
    if s != [] {
      if IsSpace(s[0]) {
        var n := LeadingSpaces(s);
        NoUpperKept(s[n..]);
      } else {
        NoUpperKept(s[1..]);
      }
    }
  }

  /** The leading run of a non-empty blank `w` followed by `b` is all of `w`
      when `b` does not start with whitespace. */
  lemma LeadingRun(w: string, b: string)
    requires w != [] && IsBlank(w)
    requires b != [] ==> !IsSpace(b[0])
    ensures LeadingSpaces(w + b) == |w|
  {
    var s := w + b;
    assert s[..|w|] == w;
  }

  /** A whitespace run followed by text that does not start with whitespace
      becomes one "-". */
  lemma RunBecomesDash(w: string, b: string)
    requires w != [] && IsBlank(w)
    requires b != [] ==> !IsSpace(b[0])
    ensures ReplaceSpaceRuns(w + b) == "-" + ReplaceSpaceRuns(b)
  {
    LeadingRun(w, b);
    assert (w + b)[0] == w[0];
    assert (w + b)[|w|..] == b;
  }

  /** A character that is not whitespace is kept as it is. */
  lemma KeepsWordChar(c: char, t: string)
    requires !IsSpace(c)
    ensures ReplaceSpaceRuns([c] + t) == [c] + ReplaceSpaceRuns(t)
  {
    assert ([c] + t)[1..] == t;
  }

  /** A word without whitespace is kept as it is in front of any text. */
  lemma {:induction false} WordKept(a: string, rest: string)
    requires HasNoSpace(a)
    ensures ReplaceSpaceRuns(a + rest) == a + ReplaceSpaceRuns(rest)
    decreases |a|
  {
    if a == [] {
      assert a + rest == rest;
    } else {
      var t := a[1..] + rest;
      var tail := ReplaceSpaceRuns(rest);
      assert ReplaceSpaceRuns(a + rest) == [a[0]] + ReplaceSpaceRuns(t) by {
        assert a + rest == [a[0]] + t;
        KeepsWordChar(a[0], t);
      }
      WordKept(a[1..], rest);
      assert [a[0]] + (a[1..] + tail) == a + tail;
    }
  }

  /** A string without whitespace is left as it is. */
  lemma SpaceFreeUnchanged(s: string)
    requires HasNoSpace(s)
    ensures ReplaceSpaceRuns(s) == s
  {
    WordKept(s, []);
    assert s + [] == s;
  }

  /** A word, a whitespace run of any length and the text after it: the word
      is kept, the run becomes one "-", and the rest is rewritten on its own. */
  lemma WordRunRest(a: string, w: string, b: string)
    requires HasNoSpace(a)
    requires w != [] && IsBlank(w)
    requires b != [] ==> !IsSpace(b[0])
    ensures ReplaceSpaceRuns(a + w + b) == a + "-" + ReplaceSpaceRuns(b)
  {
    assert a + w + b == a + (w + b);
    WordKept(a, w + b);
    RunBecomesDash(w, b);
  }

  /** `toLowerCase` leaves whitespace where it was. */
  lemma LowerKeepsSpaces(s: string)
    ensures forall k :: 0 <= k < |s| ==> (IsSpace(Lower(s)[k]) <==> IsSpace(s[k]))
  {
  }

  /** `id ?? label?.toLowerCase().replace(/\s+/g, "-")`: a given `id`, even an
      empty one, wins; otherwise a given label, even an empty one, yields the
      lower-cased label with its whitespace runs replaced; with neither the id
      is absent. A derived id has no whitespace and no upper-case letter. */
  function InputId(id: Option<string>, text: Option<string>): (r: Option<string>)
    ensures id.Some? ==> r == id
    ensures id.None? ==> (r.Some? <==> text.Some?)
    ensures id.None? && text.Some? ==>
      && HasNoSpace(r.value)
      && NoUpper(r.value)
      && r.value == ReplaceSpaceRuns(Lower(text.value))
  {
    if id.Some? then id
    else if text.Some? then
      NoUpperKept(Lower(text.value));
      Some(ReplaceSpaceRuns(Lower(text.value)))
    else None
  }

  /** A label without whitespace gives the id that is its lower-cased text. */
  lemma SingleWordId(text: string)
    requires HasNoSpace(text)
    ensures InputId(None, Some(text)) == Some(Lower(text))
  {
    LowerKeepsSpaces(text);
    SpaceFreeUnchanged(Lower(text));
  }

  /** The text a template literal makes of an id: "undefined" when absent. */
  function IdText(id: Option<string>): string {
    id.GetOr("undefined")
  }

  /** The `<label>` element: its `htmlFor` and text. */
  datatype LabelElement = LabelElement(htmlFor: Option<string>, text: string)

  /** The `<span role="alert">` element: its id and text. */
  datatype Alert = Alert(id: string, text: string)

  /** What the component renders besides the `<input>`'s passed-through props. */
  datatype InputView = InputView(
    labelElement: Option<LabelElement>,
    id: Option<string>,
    ariaInvalid: bool,
    describedBy: Option<string>,
    alert: Option<Alert>)

  /** A JavaScript string is truthy exactly when it is present and non-empty. */
  predicate Truthy(s: Option<string>) {
    s.Some? && s.value != []
  }

  /** The rendering for props `id`, `label` (here `text`) and `error`. The
      label element appears exactly for a non-empty label and points at the
      input's id, which then always exists. `aria-invalid` holds, the alert
      appears and `aria-describedby` is set exactly for a non-empty error,
      and `aria-describedby` then names the alert. */
  function Render(id: Option<string>, text: Option<string>, error: Option<string>): (v: InputView)
    ensures v.id == InputId(id, text)
    ensures v.labelElement.Some? <==> Truthy(text)
    ensures v.labelElement.Some? ==>
      v.labelElement.value.htmlFor == v.id && v.id.Some? && v.labelElement.value.text == text.value
    ensures v.ariaInvalid <==> Truthy(error)
    ensures v.describedBy.Some? <==> Truthy(error)
    ensures v.alert.Some? <==> Truthy(error)
    ensures v.alert.Some? ==>
      v.describedBy == Some(v.alert.value.id) && v.alert.value.text == error.value
  {
    var inputId := InputId(id, text);
    var errorId := IdText(inputId) + "-error";
    InputView(
      if Truthy(text) then Some(LabelElement(inputId, text.value)) else None,
      inputId,
      Truthy(error),
      if Truthy(error) then Some(errorId) else None,
      if Truthy(error) then Some(Alert(errorId, error.value)) else None)
  }

  /** With neither an id nor a label, an error still gets its alert, and both
      the alert's id and `aria-describedby` are "undefined-error". */
  lemma ErrorWithoutId(error: string)
    requires error != []
    ensures Render(None, None, Some(error)).describedBy == Some("undefined-error")
    ensures Render(None, None, Some(error)).alert == Some(Alert("undefined-error", error))
  {
    assert IdText(None) + "-error" == "undefined-error";
  }
}
