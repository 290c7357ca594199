/** The error bodies the API sends back for a refused form, and how the forms turn one field of
  * such a body into a line of text. */
module FormErrors {
  import opened Text

  /** The value of one field of an error body: a list of messages, as Django REST Framework
    * sends them, or any other value, held as the text JavaScript makes of it. */
  datatype FieldValue = Messages(messages: seq<string>) | Single(text: string)

  /** `err.response.data`: an object whose entries are in insertion order, or a bare string. */
  datatype ErrorData = Fields(entries: seq<(string, FieldValue)>) | Text(body: string)

  /** JavaScript truthiness of the data: an object is truthy even when empty, a string only when
    * it is not empty. */
  predicate Truthy(data: ErrorData)
  {
    data.Fields? || data.body != ""
  }

  /** `${field}: ${messages.join(', ')}`, or `${field}: ${value}` for a value that is not a list. */
  function FieldLine(field: string, value: FieldValue): (r: string)
    ensures |r| >= |field| + 2 && r[..|field| + 2] == field + ": "
  {
    match value
    case Messages(ms) => field + ": " + Join(", ", ms)
    case Single(text) => field + ": " + text
  }

  /** One line per field of an error body, in the order of its entries. */
  function FieldLines(entries: seq<(string, FieldValue)>): (r: seq<string>)
    ensures |r| == |entries|
    ensures forall i | 0 <= i < |entries| :: r[i] == FieldLine(entries[i].0, entries[i].1)
  {
    seq(|entries|, i requires 0 <= i < |entries| => FieldLine(entries[i].0, entries[i].1))
  }

  /** One more field adds its line at the end. */
  lemma FieldLinesAppend(entries: seq<(string, FieldValue)>, e: (string, FieldValue))
    ensures FieldLines(entries + [e]) == FieldLines(entries) + [FieldLine(e.0, e.1)]
  {
    var longer := entries + [e];
    assert longer[|entries|] == e;
    forall i | 0 <= i < |entries|
      ensures FieldLines(longer)[i] == FieldLines(entries)[i]
    {
      assert longer[i] == entries[i];
    }
  }
}
