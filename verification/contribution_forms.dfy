/** The two contribution forms of the main page: the validation queue, which posts one vote for
  * the item on screen and drops it from the queue, and the text contribution form, which checks
  * its two texts, posts them trimmed and turns a refusal into one line of text. */
module ContributionForms {
  import opened Wrappers
  import opened Text
  import opened FormErrors

  /** An item of the validation queue as the form keeps it. */
  datatype QueueItem = QueueItem(id: nat, original: string, translation: string, isAudio: bool, submittedBy: string)

  /** The body `handleValidate` posts to the validations endpoint. */
  datatype ValidationRequest = ValidationRequest(contribution: nat, isValid: bool, feedback: string)

  /** `items.filter((_, idx) => idx !== i)`: the list without its `i`-th element; an index past
    * the end removes nothing. */
  function RemoveAt<T>(s: seq<T>, i: nat): (r: seq<T>)
    ensures i < |s| ==> |r| == |s| - 1 && multiset(r) + multiset{s[i]} == multiset(s)
    ensures i < |s| ==> forall k | 0 <= k < |r| :: r[k] == if k < i then s[k] else s[k + 1]
    ensures i >= |s| ==> r == s
  {
    if i < |s| then
      assert s == s[..i] + [s[i]] + s[i + 1..];
      s[..i] + s[i + 1..]
    else s
  }

  const LoadFailedMessage := "Failed to load items for validation. Please try again later."

  /** `ValidationForm`: the queue of items waiting for a vote, the item on screen, the feedback
    * typed for a rejection and the flags the buttons read. */
  class ValidationForm {
    var items: seq<QueueItem>
    var current: nat
    var feedback: string
    var isSubmitting: bool
    var error: Option<string>

    constructor()
      ensures items == [] && current == 0 && feedback == "" && !isSubmitting && error.None?
    {
      items, current, feedback, isSubmitting, error := [], 0, "", false, None;
    }

    /** The item on screen is the first one: no handler ever moves the index off zero. */
    ghost predicate OnFirst()
      reads this
    {
      current == 0
    }

    /** The end of the fetch effect: the fetched items of the language, or none and a message
      * when the request failed. */
    method LoadItems(fetched: Option<seq<QueueItem>>)
      modifies this
      ensures fetched.Some? ==> items == fetched.value && error.None?
      ensures fetched.None? ==> items == [] && error == Some(LoadFailedMessage)
      ensures current == old(current) && feedback == old(feedback) && isSubmitting == old(isSubmitting)
    {
      match fetched
      case Some(loaded) =>
        items, error := loaded, None;
      case None =>
        items, error := [], Some(LoadFailedMessage);
    }

    /** `handleValidate(isValid)`. `accepted` is whether the validations endpoint accepted the
      * post. The answer is the request sent, if any, and whether the error alert was shown. */
    method HandleValidate(isValid: bool, accepted: bool) returns (request: Option<ValidationRequest>, alerted: bool)
      modifies this
      // an empty queue does nothing at all
      ensures old(items) == [] ==>
        && request.None? && !alerted
        && items == old(items) && current == old(current) && feedback == old(feedback)
        && isSubmitting == old(isSubmitting)
      // an index past the end reads `undefined`, so `item.id` throws and the alert shows
      ensures old(items) != [] && old(current) >= |old(items)| ==>
        && request.None? && alerted
        && items == old(items) && current == old(current) && feedback == old(feedback)
      // otherwise the vote for the item on screen is posted; a rejection carries the feedback
      ensures old(items) != [] && old(current) < |old(items)| ==>
        request == Some(ValidationRequest(old(items)[old(current)].id, isValid, if isValid then "" else old(feedback)))
      // an accepted vote removes exactly that item and clears the feedback
      ensures old(current) < |old(items)| && accepted ==>
        && !alerted
        && items == RemoveAt(old(items), old(current))
        && current == (if old(current) >= |items| then 0 else old(current))
        && feedback == ""
      // a refused one leaves the queue as it was
      ensures old(current) < |old(items)| && !accepted ==>
        alerted && items == old(items) && current == old(current) && feedback == old(feedback)
      ensures old(items) != [] ==> !isSubmitting
      ensures error == old(error)
      ensures old(OnFirst()) ==> OnFirst()
    {
      request, alerted := None, false;
      if items == [] {
        return;
      }
      isSubmitting := true;
      if current >= |items| {
        alerted := true;
      } else {
        var item := items[current];
        request := Some(ValidationRequest(item.id, isValid, if isValid then "" else feedback));
        if accepted {
          var remaining := RemoveAt(items, current);
          items := remaining;
          if current >= |remaining| {
            current := 0;
          }
          feedback := "";
        } else {
          alerted := true;
        }
      }
      isSubmitting := false;
    }
  }

  /** The body `handleSubmit` posts to the text contributions endpoint. */
  datatype TextPayload = TextPayload(
    originalText: string, translatedText: string, context: string, contentType: string,
    language: nat, kind: string, anonymous: bool)

  /** What the endpoint answered: the created contribution, or an error with the HTTP status and
    * body of the response, when there was a response. */
  datatype SubmitOutcome = Created | Failed(status: Option<int>, data: Option<ErrorData>)

  const FillBothMessage := "Please fill in both original text and translation fields."
  const SubmitFailedPrefix := "Failed to submit contribution. "
  const InvalidDataMessage := "Invalid data provided. Please check all fields and try again."
  const LoginNeededMessage := "You need to be logged in to submit contributions."
  const ForbiddenMessage := "You do not have permission to submit contributions."
  const TryAgainMessage := "Failed to submit contribution. Please try again."

  /** The message `handleSubmit` shows for a refused submission: the body of the response when
    * there is one, else a message chosen by the status. */
  function SubmitErrorMessage(status: Option<int>, data: Option<ErrorData>): (r: string)
    ensures data.Some? && Truthy(data.value) ==> |r| >= |SubmitFailedPrefix| && r[..|SubmitFailedPrefix|] == SubmitFailedPrefix
    ensures data.Some? && data.value.Text? && Truthy(data.value) ==> r == SubmitFailedPrefix + data.value.body
    ensures data.Some? && data.value.Fields? && Truthy(data.value) ==>
      r == SubmitFailedPrefix + Join("; ", FieldLines(data.value.entries))
    ensures (data.None? || !Truthy(data.value)) ==>
      r == (if status == Some(400) then InvalidDataMessage
            else if status == Some(401) then LoginNeededMessage
            else if status == Some(403) then ForbiddenMessage
            else TryAgainMessage)
  {
    if data.Some? && Truthy(data.value) then
      match data.value
      case Fields(entries) => SubmitFailedPrefix + Join("; ", FieldLines(entries))
      case Text(body) => SubmitFailedPrefix + body
    else if status == Some(400) then InvalidDataMessage
    else if status == Some(401) then LoginNeededMessage
    else if status == Some(403) then ForbiddenMessage
    else TryAgainMessage
  }

  /** Every field of an object body is reported, with its name, in the message. */
  lemma SubmitErrorNamesEveryField(status: Option<int>, entries: seq<(string, FieldValue)>, k: nat)
    requires k < |entries|
    ensures Contains(SubmitErrorMessage(status, Some(Fields(entries))), FieldLine(entries[k].0, entries[k].1))
  {
    var lines := FieldLines(entries);
    JoinContainsPart("; ", lines, k);
    var i: nat :| i <= |Join("; ", lines)| && OccursAt(Join("; ", lines), lines[k], i);
    OccursAfter(SubmitFailedPrefix, Join("; ", lines), lines[k], i);
  }

  /** The loop over `Object.entries(errorData)` that collects one line per field. */
  method CollectFieldErrors(entries: seq<(string, FieldValue)>) returns (errors: seq<string>)
    ensures errors == FieldLines(entries)
  {
    errors := [];
    for i := 0 to |entries|
      invariant errors == FieldLines(entries[..i])
    {
      var (field, messages) := entries[i];
      match messages {
        case Messages(ms) =>
          errors := errors + [field + ": " + Join(", ", ms)];
        case Single(text) =>
          errors := errors + [field + ": " + text];
      }
    }
    assert entries[..|entries|] == entries;
  }

  /** The `catch` block of `handleSubmit`: the message for a refused submission. */
  method FailureMessage(status: Option<int>, data: Option<ErrorData>) returns (message: string)
    ensures message == SubmitErrorMessage(status, data)
  {
    if data.Some? && Truthy(data.value) {
      message := SubmitFailedPrefix;
      match data.value {
        case Fields(entries) =>
          var errors := CollectFieldErrors(entries);
          message := message + Join("; ", errors);
        case Text(body) =>
          message := message + body;
      }
    } else if status == Some(400) {
      message := InvalidDataMessage;
    } else if status == Some(401) {
      message := LoginNeededMessage;
    } else if status == Some(403) {
      message := ForbiddenMessage;
    } else {
      message := TryAgainMessage;
    }
  }

  /** `TextContributionForm`: the fields of the form and the flags of a submission. */
  class TextContributionForm {
    var contentType: string
    var originalText: string
    var translatedText: string
    var context: string
    var isAnonymous: bool
    var isSubmitting: bool
    var submitError: Option<string>
    var submitSuccess: bool

    constructor()
      ensures contentType == "sentence" && originalText == "" && translatedText == "" && context == ""
      ensures !isAnonymous && !isSubmitting && submitError.None? && !submitSuccess
    {
      contentType, originalText, translatedText, context := "sentence", "", "", "";
      isAnonymous, isSubmitting, submitError, submitSuccess := false, false, None, false;
    }

    /** `handleSubmit` for the language with id `language`; `outcome` is the endpoint's answer to
      * the post. The answer is the request sent, if any. */
    method HandleSubmit(language: nat, outcome: SubmitOutcome) returns (request: Option<TextPayload>)
      modifies this
      // either text blank after trimming: nothing is sent and the form says so
      ensures Trim(old(originalText)) == "" || Trim(old(translatedText)) == "" ==>
        && request.None?
        && submitError == Some(FillBothMessage)
        && originalText == old(originalText) && translatedText == old(translatedText) && context == old(context)
        && isAnonymous == old(isAnonymous) && isSubmitting == old(isSubmitting) && submitSuccess == old(submitSuccess)
      // otherwise the three texts are sent trimmed, with the chosen type and anonymity
      ensures Trim(old(originalText)) != "" && Trim(old(translatedText)) != "" ==>
        && request == Some(TextPayload(Trim(old(originalText)), Trim(old(translatedText)), Trim(old(context)),
                                       old(contentType), language, "text", old(isAnonymous)))
        && !isSubmitting
        && (outcome.Created? ==>
              && submitSuccess && submitError.None?
              && originalText == "" && translatedText == "" && context == "" && !isAnonymous)
        && (outcome.Failed? ==>
              && submitError == Some(SubmitErrorMessage(outcome.status, outcome.data))
              && submitSuccess == old(submitSuccess)
              && originalText == old(originalText) && translatedText == old(translatedText)
              && context == old(context) && isAnonymous == old(isAnonymous))
      ensures contentType == old(contentType)
    {
      var original, translated, trimmedContext := Trim(originalText), Trim(translatedText), Trim(context);
      if original == "" || translated == "" {
        submitError := Some(FillBothMessage);
        return None;
      }
      isSubmitting, submitError := true, None;
      request := Some(TextPayload(original, translated, trimmedContext, contentType, language, "text", isAnonymous));
      match outcome {
        case Created =>
          submitSuccess := true;
          originalText, translatedText, context, isAnonymous := "", "", "", false;
        case Failed(status, data) =>
          var message := FailureMessage(status, data);
          submitError := Some(message);
      }
      isSubmitting := false;
    }
  }
}
