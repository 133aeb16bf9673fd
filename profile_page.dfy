/**
 * The profile page's form validator: a per-field rule table applied to the
 * trimmed value, the error styling and inline message it leaves on each
 * input, whole-form validation, and the gating of the update button.
 */
module ProfilePage {
  import opened Text

  const RequiredMessage := "This field is required"
  const NameTooShort := "Name must be at least 2 characters long"
  const UsernameTooShort := "Username must be at least 3 characters long"
  const UsernameBadChars := "Username can only contain letters, numbers, hyphens, and underscores"
  const EmailInvalid := "Please enter a valid email address"
  const UpdatingCaption := "<i class=\"bi bi-arrow-clockwise me-2\"></i>Updating..."

  /** The outcome of one field's rule: valid, or invalid with the message shown under it. */
  datatype Verdict = Verdict(isValid: bool, message: string)

  predicate UsernameChar(c: char)
  {
    IsAsciiAlnum(c) || c == '_' || c == '-'
  }

  /** The username pattern `^[a-zA-Z0-9_-]+$`. */
  predicate UsernamePattern(s: string)
  {
    |s| > 0 && forall i :: 0 <= i < |s| ==> UsernameChar(s[i])
  }

  /** The email pattern's character class `[^\s@]`. */
  predicate EmailChar(c: char)
  {
    !IsSpace(c) && c != '@'
  }

  predicate EmailChars(s: string)
  {
    forall i :: 0 <= i < |s| ==> EmailChar(s[i])
  }

  /**
   * `s` read against `^[^\s@]+@[^\s@]+\.[^\s@]+$` with its '@' at `i` and the
   * dot between the two domain runs at `k`: a non-empty local part, then a
   * domain with no whitespace or '@' holding a dot that is neither its first
   * nor its last character.
   */
  predicate EmailSplitAt(s: string, i: int, k: int)
  {
    0 < i && i + 1 < k && k + 1 < |s| &&
    s[i] == '@' && s[k] == '.' && EmailChars(s[..i]) && EmailChars(s[i + 1..])
  }

  /** The email pattern `^[^\s@]+@[^\s@]+\.[^\s@]+$`. */
  predicate EmailPattern(s: string)
  {
    exists i, k | 0 < i < |s| && i + 1 < k < |s| :: EmailSplitAt(s, i, k)
  }

  /**
   * The rule table of `validateInput`, on the raw value of the input named
   * `name`: the required check first, then the rule of the field, if it has one.
   */
  function ValidateValue(name: string, raw: string): (v: Verdict)
    ensures v.isValid <==> v.message == ""
  {
    var value := Trim(raw);
    if value == [] then Verdict(false, RequiredMessage)
    else if name == "name" then
      if |value| < 2 then Verdict(false, NameTooShort) else Verdict(true, "")
    else if name == "username" then
      if |value| < 3 then Verdict(false, UsernameTooShort)
      else if !UsernamePattern(value) then Verdict(false, UsernameBadChars)
      else Verdict(true, "")
    else if name == "email" then
      if !EmailPattern(value) then Verdict(false, EmailInvalid) else Verdict(true, "")
    else Verdict(true, "")
  }

  /**
   * The rules, field by field: a blank value is required whatever the field;
   * a name needs two characters; a username needs three, all from the
   * allowed set, and a short one gets the length message before any charset
   * message; an email must have the local@domain.tld shape; any other
   * field only needs to be non-blank.
   */
  lemma ValidateValueRules(name: string, raw: string)
    ensures var v := ValidateValue(name, raw);
            (Trim(raw) == "" ==> v == Verdict(false, RequiredMessage)) &&
            (name != "name" && name != "username" && name != "email" ==> (v.isValid <==> Trim(raw) != "")) &&
            (name == "name" && Trim(raw) != "" ==>
               v == (if |Trim(raw)| >= 2 then Verdict(true, "") else Verdict(false, NameTooShort))) &&
            (name == "username" ==> (v.isValid <==> |Trim(raw)| >= 3 && UsernamePattern(Trim(raw)))) &&
            (name == "username" && 0 < |Trim(raw)| < 3 ==> v.message == UsernameTooShort) &&
            (name == "username" && |Trim(raw)| >= 3 && !UsernamePattern(Trim(raw)) ==> v.message == UsernameBadChars) &&
            (name == "email" ==> (v.isValid <==> EmailPattern(Trim(raw)))) &&
            (name == "email" && Trim(raw) != "" && !v.isValid ==> v.message == EmailInvalid)
  {
  }

  /**
   * A required `<input>` of the profile form: its `name` attribute, its value,
   * its class list and the texts of the `.invalid-feedback` elements under its
   * parent, in document order.
   */
  datatype Field = Field(name: string, value: string, classes: set<string>, feedback: seq<string>)

  function FieldVerdict(f: Field): Verdict
  {
    ValidateValue(f.name, f.value)
  }

  /** The input's classes once the previous styling is replaced by the one for `ok`. */
  function StyledClasses(classes: set<string>, ok: bool): (r: set<string>)
    ensures ("is-valid" in r <==> ok) && ("is-invalid" in r <==> !ok)
    ensures r - {"is-valid", "is-invalid"} == classes - {"is-valid", "is-invalid"}
  {
    classes - {"is-valid", "is-invalid"} + {if ok then "is-valid" else "is-invalid"}
  }

  /** `removeErrorMessage`: the parent's first `.invalid-feedback` node, if any, is removed. */
  function RemoveErrorMessage(feedback: seq<string>): (r: seq<string>)
    ensures |r| == if feedback == [] then 0 else |feedback| - 1
    ensures r == feedback[|feedback| - |r|..]
  {
    if feedback == [] then [] else feedback[1..]
  }

  /** `showErrorMessage`: the existing error node is removed, then one holding `message` is appended. */
  function ShowErrorMessage(feedback: seq<string>, message: string): (r: seq<string>)
    ensures |r| >= 1 && r[|r| - 1] == message
    ensures r[..|r| - 1] == RemoveErrorMessage(feedback)
  {
    RemoveErrorMessage(feedback) + [message]
  }

  /** The field as `validateInput` leaves it: restyled, its error node replaced or removed. */
  function Validated(f: Field): (g: Field)
    ensures g.name == f.name && g.value == f.value
    ensures g.classes == StyledClasses(f.classes, FieldVerdict(f).isValid)
  {
    var v := FieldVerdict(f);
    var classes := StyledClasses(f.classes, v.isValid);
    if v.isValid then f.(classes := classes, feedback := RemoveErrorMessage(f.feedback))
    else f.(classes := classes, feedback := ShowErrorMessage(f.feedback, v.message))
  }

  /**
   * Validation leaves exactly one error node, holding the rule's message, under
   * an invalid field and none under a valid one, provided the parent held at
   * most one before.
   */
  lemma ValidatedFeedback(f: Field)
    requires |f.feedback| <= 1
    ensures var v := FieldVerdict(f);
            Validated(f).feedback == if v.isValid then [] else [v.message]
  {
  }

  /** Validating twice is the same as validating once. */
  lemma ValidatedIdempotent(f: Field)
    requires |f.feedback| <= 1
    ensures Validated(Validated(f)) == Validated(f)
  {
    ValidatedFeedback(f);
    var g := Validated(f);
    assert FieldVerdict(g) == FieldVerdict(f);
    assert StyledClasses(g.classes, FieldVerdict(f).isValid) == g.classes;
  }

  /** Every field passes its rule. */
  predicate AllValid(fields: seq<Field>)
  {
    forall i :: 0 <= i < |fields| ==> FieldVerdict(fields[i]).isValid
  }

  /** A prefix one field longer is all valid exactly when the shorter one is and the new field is. */
  lemma AllValidSnoc(fields: seq<Field>, n: nat)
    requires n < |fields|
    ensures AllValid(fields[..n + 1]) == (AllValid(fields[..n]) && FieldVerdict(fields[n]).isValid)
  {
    assert fields[..n + 1] == fields[..n] + [fields[n]];
  }

  /** Validating one field does not change whether the form is all valid. */
  lemma AllValidAfterValidated(fields: seq<Field>, k: nat)
    requires k < |fields|
    ensures AllValid(fields[k := Validated(fields[k])]) == AllValid(fields)
  {
    var after := fields[k := Validated(fields[k])];
    assert forall i :: 0 <= i < |fields| ==> FieldVerdict(after[i]) == FieldVerdict(fields[i]);
  }

  /** `f` applied to every element of `s`, in order. */
  function MapSeq<T, U>(f: T -> U, s: seq<T>): (r: seq<U>)
    ensures |r| == |s|
    decreases |s|
  {
    if s == [] then [] else MapSeq(f, s[..|s| - 1]) + [f(s[|s| - 1])]
  }

  /** Each element of `MapSeq(f, s)` is `f` of the element at the same position. */
  lemma {:induction false} MapSeqAt<T, U>(f: T -> U, s: seq<T>, i: nat)
    requires i < |s|
    ensures MapSeq(f, s)[i] == f(s[i])
    decreases |s|
  {
    var m := |s| - 1;
    if i < m {
      MapSeqAt(f, s[..m], i);
      assert s[..m][i] == s[i];
    }
  }

  /**
   * In a sequence whose first `n` elements are mapped and the rest untouched,
   * mapping element `n` gives the sequence with `n + 1` mapped.
   */
  lemma MapSeqStep<T>(f: T -> T, s: seq<T>, n: nat)
    requires n < |s|
    ensures (MapSeq(f, s[..n]) + s[n..])[n] == s[n]
    ensures (MapSeq(f, s[..n]) + s[n..])[n := f(s[n])] == MapSeq(f, s[..n + 1]) + s[n + 1..]
  {
    assert s[..n + 1][..n] == s[..n];
    var done := MapSeq(f, s[..n]);
    assert (done + s[n..])[n := f(s[n])] == (done + [f(s[n])]) + s[n + 1..];
  }

  /** Every field validated once, in order. */
  function ValidatedAll(fields: seq<Field>): seq<Field>
  {
    MapSeq(Validated, fields)
  }

  /** Validation keeps every parent at no more than one error node. */
  lemma ValidatedAllBounded(fields: seq<Field>)
    requires forall i :: 0 <= i < |fields| ==> |fields[i].feedback| <= 1
    ensures forall i :: 0 <= i < |fields| ==> |ValidatedAll(fields)[i].feedback| <= 1
  {
    forall i | 0 <= i < |fields| ensures |ValidatedAll(fields)[i].feedback| <= 1 {
      MapSeqAt(Validated, fields, i);
      ValidatedFeedback(fields[i]);
    }
  }

  /** The update button `#updateBtn`. */
  datatype Button = Button(disabled: bool, classes: set<string>, caption: string)

  /** The `#profileForm`: its required inputs, in document order, and its update button. */
  class ProfileForm {
    var fields: seq<Field>
    var updateBtn: Button

    /** Each parent holds at most one error node. */
    ghost predicate Valid()
      reads this
    {
      forall i :: 0 <= i < |fields| ==> |fields[i].feedback| <= 1
    }

    constructor (fields: seq<Field>, updateBtn: Button)
      requires forall i :: 0 <= i < |fields| ==> |fields[i].feedback| <= 1
      ensures this.fields == fields && this.updateBtn == updateBtn && Valid()
    {
      this.fields := fields;
      this.updateBtn := updateBtn;
    }

    /**
     * `validateInput` on the input at position `k`; it touches no other input,
     * and leaves at most one error node under this one.
     */
    method ValidateInput(k: nat) returns (ok: bool)
      requires k < |fields| && |fields[k].feedback| <= 1
      modifies this`fields
      ensures ok == FieldVerdict(old(fields[k])).isValid
      ensures fields == old(fields)[k := Validated(old(fields[k]))]
      ensures |fields[k].feedback| <= 1
    {
      ValidatedFeedback(fields[k]);
      ok := FieldVerdict(fields[k]).isValid;
      fields := fields[k := Validated(fields[k])];
    }

    /**
     * One turn of `validateForm`'s loop: the input at position `n`, the first
     * not yet validated, is validated, and the running verdict `okSoFar` of
     * the inputs before it is extended by its verdict.
     */
    method ValidateNext(ghost original: seq<Field>, n: nat, okSoFar: bool) returns (ok: bool)
      requires n < |original| && |original[n].feedback| <= 1
      requires fields == ValidatedAll(original[..n]) + original[n..]
      requires okSoFar == AllValid(original[..n])
      modifies this`fields
      ensures fields == ValidatedAll(original[..n + 1]) + original[n + 1..]
      ensures ok == AllValid(original[..n + 1])
    {
      MapSeqStep(Validated, original, n);
      AllValidSnoc(original, n);
      var valid := ValidateInput(n);
      ok := okSoFar && valid;
    }

    /**
     * The `forEach` of `validateForm`: every input is validated in turn, none
     * skipped after a failure, and the result is whether all of them passed.
     */
    method ValidateEach() returns (ok: bool)
      requires Valid()
      modifies this`fields
      ensures ok == AllValid(old(fields))
      ensures fields == ValidatedAll(old(fields))
    {
      ghost var original := fields;
      ok := true;
      var n := 0;
      while n < |fields|
        invariant 0 <= n <= |original|
        invariant fields == ValidatedAll(original[..n]) + original[n..]
        invariant ok == AllValid(original[..n])
      {
        ok := ValidateNext(original, n, ok);
        n := n + 1;
      }
      assert original[..n] == original;
    }

    /**
     * `validateForm`: validates every input and reports whether all of them
     * passed; each input is left with at most one error node.
     */
    method ValidateForm() returns (ok: bool)
      requires Valid()
      modifies this`fields
      ensures Valid()
      ensures ok == AllValid(old(fields))
      ensures fields == ValidatedAll(old(fields))
    {
      ok := ValidateEach();
      ValidatedAllBounded(old(fields));
    }

    /**
     * `updateFormState`: re-validates the form; the button is disabled exactly
     * when the form is invalid and carries `btn-primary` when it is valid,
     * `btn-secondary` when it is not.
     */
    method UpdateFormState()
      requires Valid()
      modifies this
      ensures Valid()
      ensures fields == ValidatedAll(old(fields))
      ensures updateBtn.disabled == !AllValid(old(fields))
      ensures ("btn-primary" in updateBtn.classes <==> AllValid(old(fields))) &&
              ("btn-secondary" in updateBtn.classes <==> !AllValid(old(fields)))
      ensures updateBtn.classes - {"btn-primary", "btn-secondary"} == old(updateBtn.classes) - {"btn-primary", "btn-secondary"}
      ensures updateBtn.caption == old(updateBtn.caption)
    {
      var ok := ValidateForm();
      var classes := if ok then updateBtn.classes - {"btn-secondary"} + {"btn-primary"}
                     else updateBtn.classes - {"btn-primary"} + {"btn-secondary"};
      updateBtn := updateBtn.(disabled := !ok, classes := classes);
    }

    /** The `input` listener of input number `k`: validate it, then update the button. */
    method OnInput(k: nat)
      requires Valid() && k < |fields|
      modifies this
      ensures Valid()
      ensures fields == ValidatedAll(old(fields)[k := Validated(old(fields[k]))])
      ensures updateBtn.disabled == !AllValid(old(fields))
      ensures ("btn-primary" in updateBtn.classes <==> AllValid(old(fields))) &&
              ("btn-secondary" in updateBtn.classes <==> !AllValid(old(fields)))
      ensures updateBtn.classes - {"btn-primary", "btn-secondary"} == old(updateBtn.classes) - {"btn-primary", "btn-secondary"}
      ensures updateBtn.caption == old(updateBtn.caption)
    {
      var _ := ValidateInput(k);
      AllValidAfterValidated(old(fields), k);
      UpdateFormState();
    }

    /** The `blur` listener of input number `k`: validate it alone. */
    method OnBlur(k: nat)
      requires Valid() && k < |fields|
      modifies this`fields
      ensures Valid()
      ensures fields == old(fields)[k := Validated(old(fields[k]))]
    {
      var _ := ValidateInput(k);
    }

    /**
     * The form's `submit` listener: the default submission is cancelled and the
     * form re-validated; when it is valid the button shows the loading state,
     * is disabled, and the native submission follows (`submitting`).
     */
    method Submit() returns (submitting: bool)
      requires Valid()
      modifies this
      ensures Valid()
      ensures fields == ValidatedAll(old(fields))
      ensures submitting == AllValid(old(fields))
      ensures submitting ==>
                updateBtn == Button(true, old(updateBtn.classes) + {"loading"}, UpdatingCaption)
      ensures !submitting ==> updateBtn == old(updateBtn)
    {
      submitting := ValidateForm();
      if submitting {
        updateBtn := Button(true, updateBtn.classes + {"loading"}, UpdatingCaption);
      }
    }
  }
}
