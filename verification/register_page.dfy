/** The registration page: a form of four text fields, the password confirmation check, the
  * request it posts and the message it makes of a refusal. */
module Registration {
  import opened Wrappers
  import opened Text
  import opened Seqs
  import opened FormErrors

  /** The fields the form starts with. */
  const FormFields: set<string> := {"username", "email", "password", "confirmPassword"}

  /** The form as it starts, and as a successful registration leaves it. */
  function EmptyForm(): (form: map<string, string>)
    ensures form.Keys == FormFields
    ensures forall f | f in form :: form[f] == ""
  {
    map["username" := "", "email" := "", "password" := "", "confirmPassword" := ""]
  }

  /** `handleChange`: the input's value under the input's name; every other field is kept. */
  function HandleChange(form: map<string, string>, name: string, value: string): (r: map<string, string>)
    ensures r.Keys == form.Keys + {name}
    ensures r[name] == value
    ensures forall f | f in form && f != name :: r[f] == form[f]
  {
    form[name := value]
  }

  /** The body posted to the registration endpoint. */
  datatype RegisterPayload = RegisterPayload(username: string, email: string, password: string)

  /** What the endpoint answered: success, or an error with the body of the response, if any. */
  datatype RegisterOutcome = Registered | Refused(data: Option<ErrorData>)

  const PasswordMismatchMessage := "Passwords do not match"
  const RegisteredMessage := "Registration successful! You can now log in."
  const RegisterFailedMessage := "Registration failed. Please try again."

  /** Whether a field of the error body holds a list of messages. */
  predicate IsListField(entry: (string, FieldValue))
  {
    entry.1.Messages?
  }

  /** The lines `handleSubmit` makes of an error body: one per field holding a list, in order;
    * other fields are skipped. */
  function ListFieldLines(entries: seq<(string, FieldValue)>): seq<string>
  {
    FieldLines(Filter(entries, IsListField))
  }

  /** Adding a field to the body adds its line when it holds a list, and nothing otherwise. */
  lemma ListFieldLinesAppend(entries: seq<(string, FieldValue)>, e: (string, FieldValue))
    ensures ListFieldLines(entries + [e]) ==
      ListFieldLines(entries) + (if IsListField(e) then [FieldLine(e.0, e.1)] else [])
  {
    FilterAppend(entries, e, IsListField);
    if IsListField(e) {
      FieldLinesAppend(Filter(entries, IsListField), e);
    }
  }

  lemma ListFieldLinesStep(entries: seq<(string, FieldValue)>, i: nat)
    requires i < |entries|
    ensures ListFieldLines(entries[..i + 1]) ==
      ListFieldLines(entries[..i]) + (if IsListField(entries[i]) then [FieldLine(entries[i].0, entries[i].1)] else [])
  {
    assert entries[..i + 1] == entries[..i] + [entries[i]];
    ListFieldLinesAppend(entries[..i], entries[i]);
  }

  /** The loop over the fields of the error body. */
  method CollectListErrors(entries: seq<(string, FieldValue)>) returns (lines: seq<string>)
    ensures lines == ListFieldLines(entries)
  {
    lines := [];
    for i := 0 to |entries|
      invariant lines == ListFieldLines(entries[..i])
    {
      var (field, value) := entries[i];
      ListFieldLinesStep(entries, i);
      if value.Messages? {
        lines := lines + [field + ": " + Join(", ", value.messages)];
      }
    }
    assert entries[..|entries|] == entries;
  }

  /** The error `handleSubmit` shows for a refused registration. A text body has no fields that
    * hold a list, so it gets the default message like a missing one. */
  function RegisterErrorMessage(data: Option<ErrorData>): (r: string)
    ensures data.None? || data.value.Text? ==> r == RegisterFailedMessage
    // an object body: its list fields' lines, one per line, or the default when it has none
    ensures data.Some? && data.value.Fields? && ListFieldLines(data.value.entries) != [] ==>
      r == Join("\n", ListFieldLines(data.value.entries))
    ensures data.Some? && data.value.Fields? && ListFieldLines(data.value.entries) == [] ==> r == RegisterFailedMessage
  {
    if data.Some? && data.value.Fields? && ListFieldLines(data.value.entries) != [] then
      Join("\n", ListFieldLines(data.value.entries))
    else RegisterFailedMessage
  }

  /** The default message has no colon, so no field line can be mistaken for it. */
  lemma DefaultHasNoColon()
    ensures ':' !in RegisterFailedMessage
  {
  }

  /** The default message is shown exactly when no field of the body holds a list. */
  lemma DefaultErrorIffNoListField(entries: seq<(string, FieldValue)>)
    ensures RegisterErrorMessage(Some(Fields(entries))) == RegisterFailedMessage <==>
      forall e | e in entries :: !IsListField(e)
  {
    var lines := ListFieldLines(entries);
    var listed := Filter(entries, IsListField);
    if lines != [] {
      var m := RegisterErrorMessage(Some(Fields(entries)));
      var field := listed[0].0;
      assert listed[0] in listed;
      JoinStartsWithFirst("\n", lines);
      assert m[..|field| + 2] == field + ": ";
      assert m[|field|] == ':';
      assert ':' in m;
      DefaultHasNoColon();
    } else {
      assert listed == [];
    }
  }

  /** Every field holding a list is reported, with its name, in the message. */
  lemma EveryListFieldReported(entries: seq<(string, FieldValue)>, e: (string, FieldValue))
    requires e in entries && IsListField(e)
    ensures Contains(RegisterErrorMessage(Some(Fields(entries))), FieldLine(e.0, e.1))
  {
    var listed := Filter(entries, IsListField);
    assert e in listed;
    var k :| 0 <= k < |listed| && listed[k] == e;
    JoinContainsPart("\n", ListFieldLines(entries), k);
  }

  /** `RegisterPage`: the form's fields, the loading flag and the two messages. */
  class RegisterPage {
    var formData: map<string, string>
    var isLoading: bool
    var error: Option<string>
    var successMessage: Option<string>

    /** The form always holds the four fields its submit handler reads. */
    ghost predicate Valid()
      reads this
    {
      FormFields <= formData.Keys
    }

    constructor()
      ensures Valid()
      ensures formData == EmptyForm() && !isLoading && error.None? && successMessage.None?
    {
      formData, isLoading, error, successMessage := EmptyForm(), false, None, None;
    }

    /** An input's change event. */
    method Change(name: string, value: string)
      requires Valid()
      modifies this
      ensures Valid()
      ensures formData == HandleChange(old(formData), name, value)
      ensures isLoading == old(isLoading) && error == old(error) && successMessage == old(successMessage)
    {
      formData := HandleChange(formData, name, value);
    }

    /** `handleSubmit`; `outcome` is the endpoint's answer to the post. The answer is the
      * request sent, if any. */
    method HandleSubmit(outcome: RegisterOutcome) returns (request: Option<RegisterPayload>)
      requires Valid()
      modifies this
      ensures Valid() && !isLoading
      // the two passwords differ: nothing is sent and the form is kept
      ensures old(formData)["password"] != old(formData)["confirmPassword"] ==>
        && request.None?
        && error == Some(PasswordMismatchMessage)
        && formData == old(formData) && successMessage == old(successMessage)
      // otherwise the name, address and password are sent, without the confirmation
      ensures old(formData)["password"] == old(formData)["confirmPassword"] ==>
        && request == Some(RegisterPayload(old(formData)["username"], old(formData)["email"], old(formData)["password"]))
        && (outcome.Registered? ==>
              error.None? && successMessage == Some(RegisteredMessage) && formData == EmptyForm())
        && (outcome.Refused? ==>
              error == Some(RegisterErrorMessage(outcome.data))
              && formData == old(formData) && successMessage == old(successMessage))
    {
      isLoading, error := true, None;
      if formData["password"] != formData["confirmPassword"] {
        error, isLoading := Some(PasswordMismatchMessage), false;
        return None;
      }
      request := Some(RegisterPayload(formData["username"], formData["email"], formData["password"]));
      match outcome {
        case Registered =>
          successMessage := Some(RegisteredMessage);
          formData := EmptyForm();
        case Refused(data) =>
          var message := RefusalMessage(data);
          error := Some(message);
      }
      isLoading := false;
    }
  }

  /** The `catch` block of `handleSubmit`. */
  method RefusalMessage(data: Option<ErrorData>) returns (message: string)
    ensures message == RegisterErrorMessage(data)
  {
    message := RegisterFailedMessage;
    if data.Some? && data.value.Fields? {
      var lines := CollectListErrors(data.value.entries);
      if |lines| > 0 {
        message := Join("\n", lines);
      }
    }
  }
}
