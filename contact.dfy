/**
  The contact form: a change filter that keeps the budget numeric and
  clears a field's error when the field is edited, a validator that
  rebuilds the error map from scratch, and the submit flow with the
  e-mail send reduced to a success or failure outcome.

  As written, the form's inputs are named `name`, `email` and `message`
  (the service and budget inputs are commented out), while the
  validator requires `name`, `email`, `service` and `idea`.  No input
  ever writes `service`, so it stays empty and the form never validates.
 */
module Contact {

  type FormData = map<string, string>
  type Errors = map<string, string>

  const FillThisField := "Fill this field"

  /** The fields whose trimmed value must be non-empty, in checking order. */
  const Required: seq<string> := ["name", "email", "service", "idea"]

  /** The names of the inputs rendered by the form. */
  const InputNames: set<string> := {"name", "email", "message"}

  const EmptyForm: FormData := map["name" := "", "email" := "", "service" := "", "budget" := "", "idea" := ""]

  /** The keys validation reads; they are present from the first render
      on, since fields are only ever overwritten or added. */
  predicate WellFormed(fd: FormData) {
    (forall f :: f in Required ==> f in fd) && "budget" in fd
  }

  // ---- the change filter ----

  predicate IsAsciiDigit(c: char) {
    '0' <= c <= '9'
  }

  /** The test `/^\d+$/`: one or more ASCII digits and nothing else. */
  predicate AllDigits(s: string) {
    |s| > 0 && forall i :: 0 <= i < |s| ==> IsAsciiDigit(s[i])
  }

  /** A change the filter drops: a non-empty, not all-digit budget. */
  predicate Rejected(name: string, value: string) {
    name == "budget" && value != "" && !AllDigits(value)
  }

  /** The form data after a change event. */
  function ChangeFormData(fd: FormData, name: string, value: string): FormData {
    if Rejected(name, value) then fd else fd[name := value]
  }

  /** The error map after a change event: a present, non-empty error of
      the edited field is blanked (not removed). */
  function ChangeErrors(errors: Errors, name: string, value: string): Errors {
    if Rejected(name, value) then errors
    else if name in errors && errors[name] != "" then errors[name := ""]
    else errors
  }

  /** A change updates exactly the named field, or nothing if filtered. */
  lemma ChangeTouchesOneField(fd: FormData, name: string, value: string)
    ensures Rejected(name, value) ==> ChangeFormData(fd, name, value) == fd
    ensures !Rejected(name, value) ==>
      name in ChangeFormData(fd, name, value) && ChangeFormData(fd, name, value)[name] == value &&
      ChangeFormData(fd, name, value).Keys == fd.Keys + {name}
    ensures forall f :: f in fd && f != name ==>
      f in ChangeFormData(fd, name, value) && ChangeFormData(fd, name, value)[f] == fd[f]
  {
  }

  /** A budget change is accepted exactly when it is empty or all digits;
      every other field accepts any value. */
  lemma BudgetFilter(name: string, value: string)
    ensures !Rejected(name, value) <==> (name != "budget" || value == "" || AllDigits(value))
    ensures Rejected("budget", "12a")
    ensures !Rejected("budget", "120") && !Rejected("budget", "")
  {
    assert !AllDigits("12a") by { assert !IsAsciiDigit("12a"[2]); }
  }

  /** A change leaves the errors of the other fields untouched, and the
      edited field has no non-empty error afterwards unless filtered. */
  lemma ChangeClearsOwnError(errors: Errors, name: string, value: string)
    ensures ChangeErrors(errors, name, value).Keys == errors.Keys
    ensures forall f :: f in errors && f != name ==> ChangeErrors(errors, name, value)[f] == errors[f]
    ensures !Rejected(name, value) && name in errors ==> ChangeErrors(errors, name, value)[name] == ""
    ensures Rejected(name, value) ==> ChangeErrors(errors, name, value) == errors
  {
  }

  // ---- trimming ----

  /** The characters String.prototype.trim removes: white space and line
      terminators. */
  predicate IsWhitespace(c: char) {
    || c == ' ' || c == '\t' || c == '\n' || c == '\r'
    || c == '\U{000B}' || c == '\U{000C}' || c == '\U{00A0}' || c == '\U{1680}'
    || ('\U{2000}' <= c <= '\U{200A}')
    || c == '\U{2028}' || c == '\U{2029}' || c == '\U{202F}' || c == '\U{205F}'
    || c == '\U{3000}' || c == '\U{FEFF}'
  }

  function TrimStart(s: string): (r: string)
    ensures |r| <= |s|
    ensures r == s[|s| - |r|..]
    ensures forall i :: 0 <= i < |s| - |r| ==> IsWhitespace(s[i])
    ensures r != [] ==> !IsWhitespace(r[0])
  {
    if s != [] && IsWhitespace(s[0]) then TrimStart(s[1..]) else s
  }

  function TrimEnd(s: string): (r: string)
    ensures |r| <= |s|
    ensures r == s[..|r|]
    ensures forall i :: |r| <= i < |s| ==> IsWhitespace(s[i])
    ensures r != [] ==> !IsWhitespace(r[|r| - 1])
  {
    if s != [] && IsWhitespace(s[|s| - 1]) then TrimEnd(s[..|s| - 1]) else s
  }

  /** String.prototype.trim: what remains is no longer than the value and
      neither starts nor ends with white space. */
  function Trim(s: string): (r: string)
    ensures |r| <= |s|
    ensures r != [] ==> !IsWhitespace(r[0]) && !IsWhitespace(r[|r| - 1])
  {
    TrimEnd(TrimStart(s))
  }

  /** Trimming keeps exactly the middle of the value: what precedes it and
      what follows it is white space. */
  lemma TrimMeaning(s: string)
    ensures var k := |s| - |TrimStart(s)|;
      && k + |Trim(s)| <= |s|
      && Trim(s) == s[k..k + |Trim(s)|]
      && (forall i :: 0 <= i < k ==> IsWhitespace(s[i]))
      && (forall i :: k + |Trim(s)| <= i < |s| ==> IsWhitespace(s[i]))
  {
    var a := TrimStart(s);
    var k := |s| - |a|;
    var r := TrimEnd(a);
    assert r == s[k..k + |r|];
    forall i | k + |r| <= i < |s|
      ensures IsWhitespace(s[i])
    {
      assert s[i] == a[i - k];
    }
  }

  /** A value is blank for the validator iff its trimmed value is empty. */
  predicate Blank(s: string) {
    Trim(s) == ""
  }

  /** Blank means: made of white space only; otherwise trimming keeps a
      non-empty middle that starts and ends with a visible character. */
  lemma BlankIffAllWhitespace(s: string)
    ensures Blank(s) <==> forall i :: 0 <= i < |s| ==> IsWhitespace(s[i])
    ensures !Blank(s) ==> !IsWhitespace(Trim(s)[0]) && !IsWhitespace(Trim(s)[|Trim(s)| - 1])
  {
  }

  // ---- validation ----

  /** The error map validation produces, stated field by field. */
  ghost predicate IsValidationResult(fd: FormData, errs: Errors)
    requires WellFormed(fd)
  {
    && (forall f :: f in errs <==>
         (f in Required && Blank(fd[f])) ||
         (f == "budget" && fd["service"] != "other" && Blank(fd["budget"])))
    && (forall f :: f in errs ==> errs[f] == FillThisField)
  }

  /** Whether the form may be sent. */
  predicate Validates(fd: FormData)
    requires WellFormed(fd)
  {
    (forall f :: f in Required ==> !Blank(fd[f])) &&
    (fd["service"] == "other" || !Blank(fd["budget"]))
  }

  /** Builds the error map: one entry per blank required field, in order,
      then the budget rule. */
  method BuildErrors(fd: FormData) returns (errs: Errors)
    requires WellFormed(fd)
    ensures IsValidationResult(fd, errs)
    ensures |errs| == 0 <==> Validates(fd)
  {
    errs := map[];
    for k := 0 to |Required|
      invariant forall f :: f in errs <==> f in Required[..k] && Blank(fd[f])
      invariant forall f :: f in errs ==> errs[f] == FillThisField
    {
      assert Required[..k + 1] == Required[..k] + [Required[k]];
      var f := Required[k];
      if Blank(fd[f]) {
        errs := errs[f := FillThisField];
      }
    }
    assert Required[..|Required|] == Required;
    assert "budget" !in Required;
    ghost var fromRequired := errs;
    if fd["service"] != "other" && Blank(fd["budget"]) {
      errs := errs["budget" := FillThisField];
    }
    forall f
      ensures f in errs <==>
        (f in Required && Blank(fd[f])) ||
        (f == "budget" && fd["service"] != "other" && Blank(fd["budget"]))
    {
      if f == "budget" {
        assert f !in fromRequired;
      } else {
        assert f in errs <==> f in fromRequired;
      }
    }
    assert forall f :: f in errs ==> errs[f] == FillThisField;
    assert IsValidationResult(fd, errs);
    if Validates(fd) {
      assert errs.Keys == {};
    } else if exists f :: f in Required && Blank(fd[f]) {
      var f :| f in Required && Blank(fd[f]);
      assert f in errs;
    } else {
      assert "budget" in errs;
    }
  }

  /** The data the form can hold: the initial data changed by events
      from its own inputs, in any order. */
  function ApplyChanges(fd: FormData, changes: seq<(string, string)>): FormData
    decreases |changes|
  {
    if changes == [] then fd
    else ApplyChanges(ChangeFormData(fd, changes[0].0, changes[0].1), changes[1..])
  }

  /** Changes from the rendered inputs never write `service` and never
      remove a key. */
  lemma {:induction false} InputsNeverSetService(fd: FormData, changes: seq<(string, string)>)
    requires WellFormed(fd)
    requires forall k :: 0 <= k < |changes| ==> changes[k].0 in InputNames
    ensures WellFormed(ApplyChanges(fd, changes))
    ensures ApplyChanges(fd, changes)["service"] == fd["service"]
    decreases |changes|
  {
    if changes != [] {
      var next := ChangeFormData(fd, changes[0].0, changes[0].1);
      InputsNeverSetService(next, changes[1..]);
    }
  }

  /** As written the form never validates: from the empty form, through
      any edits of the rendered inputs, `service` stays "" and is blank. */
  lemma FormNeverValidates(changes: seq<(string, string)>)
    requires forall k :: 0 <= k < |changes| ==> changes[k].0 in InputNames
    ensures WellFormed(ApplyChanges(EmptyForm, changes))
    ensures !Validates(ApplyChanges(EmptyForm, changes))
  {
    InputsNeverSetService(EmptyForm, changes);
    assert "service" in Required;
  }

  /** The edited message goes to a field the validator never reads. */
  lemma MessageIsNotValidated()
    ensures "message" in InputNames && "message" !in Required
    ensures "idea" in Required && "idea" !in InputNames
  {
  }

  // ---- the component ----

  datatype Status = Idle | Sending | Success | Error

  /** The form's state: data, errors and the status line. */
  class ContactForm {
    var formData: FormData
    var errors: Errors
    var status: Status

    ghost predicate Valid()
      reads this
    {
      WellFormed(formData)
    }

    constructor ()
      ensures formData == EmptyForm && errors == map[] && status == Idle && Valid()
    {
      formData := EmptyForm;
      errors := map[];
      status := Idle;
    }

    method HandleChange(name: string, value: string)
      requires Valid()
      modifies this
      ensures Valid()
      ensures formData == ChangeFormData(old(formData), name, value)
      ensures errors == ChangeErrors(old(errors), name, value)
      ensures status == old(status)
    {
      if name == "budget" && value != "" && !AllDigits(value) {
        return;
      }
      formData := formData[name := value];
      if name in errors && errors[name] != "" {
        errors := errors[name := ""];
      }
    }

    /** Replaces the errors by a freshly built map and reports success. */
    method ValidateForm() returns (ok: bool)
      requires Valid()
      modifies this`errors
      ensures IsValidationResult(formData, errors)
      ensures ok <==> Validates(formData)
      ensures ok <==> |errors| == 0
    {
      var newErrors := BuildErrors(formData);
      errors := newErrors;
      ok := |newErrors| == 0;
    }

    /** The submit handler up to the send: sets the status to sending
      only when validation passes; returns whether the send starts.  The
      submit button is disabled while a send is running. */
    method HandleSubmit() returns (sending: bool)
      requires Valid() && status != Sending
      modifies this`errors, this`status
      ensures Valid()
      ensures IsValidationResult(formData, errors)
      ensures sending <==> Validates(formData)
      ensures status == if sending then Sending else old(status)
    {
      sending := ValidateForm();
      if sending {
        status := Sending;
      }
    }

    /** The send started by a submit finished: on success the fields are
      reset, on failure only the status changes. */
    method SendFinished(succeeded: bool)
      requires Valid() && status == Sending
      modifies this`formData, this`status
      ensures Valid()
      ensures status == if succeeded then Success else Error
      ensures formData == if succeeded then EmptyForm else old(formData)
    {
      if succeeded {
        status := Success;
        formData := EmptyForm;
      } else {
        status := Error;
      }
    }
  }
}
