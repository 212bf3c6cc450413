/**
 * The conversation values exchanged with the agent runner (the `google.genai.types`
 * objects the workflow inspects), reduced to the attributes the core reads.
 * A `None` or empty `parts` list is the empty sequence: the source skips both alike.
 */
module Content {
  import opened Wrappers

  /** Name of the reserved function call the framework emits when a tool asks for confirmation. */
  const ConfirmationToolName: string := "adk_request_confirmation"

  datatype FunctionCall = FunctionCall(id: string, name: string)

  /** A function response; its `response` mapping is what `{"confirmed": ...}` carries. */
  datatype FunctionResponse = FunctionResponse(id: string, name: string, confirmed: bool)

  datatype Part = Part(
    text: Option<string>,
    functionCall: Option<FunctionCall>,
    functionResponse: Option<FunctionResponse>)

  datatype Message = Message(role: string, parts: seq<Part>)

  /** An event of the runner's stream: the turn it belongs to and, possibly, some content. */
  datatype Event = Event(invocationId: string, content: Option<Message>)

  /** Python truthiness of `part.text`: present and not empty. */
  predicate HasText(p: Part) {
    p.text.Some? && p.text.value != ""
  }

  /** The parts of an event, or none when `event.content` is missing. */
  function PartsOf(e: Event): seq<Part> {
    if e.content.Some? then e.content.value.parts else []
  }

  /** The texts a stream loop prints for one event (`if part.text: print(...)`), in part order. */
  function TextsOfParts(parts: seq<Part>): (texts: seq<string>)
    ensures |texts| <= |parts|
    ensures forall t :: t in texts ==> t != ""
    // every part with a text prints it, and nothing else is printed
    ensures forall i :: 0 <= i < |parts| && HasText(parts[i]) ==> parts[i].text.value in texts
    ensures forall t :: t in texts ==> exists i :: 0 <= i < |parts| && HasText(parts[i]) && parts[i].text.value == t
  {
    if parts == [] then []
    else (if HasText(parts[0]) then [parts[0].text.value] else []) + TextsOfParts(parts[1..])
  }

  /** The printed texts keep part order: the texts of a concatenation are those of each half, in turn. */
  lemma {:induction false} TextsOfPartsAppend(a: seq<Part>, b: seq<Part>)
    ensures TextsOfParts(a + b) == TextsOfParts(a) + TextsOfParts(b)
  {
    if a == [] {
      assert a + b == b;
    } else {
      assert (a + b)[1..] == a[1..] + b;
      TextsOfPartsAppend(a[1..], b);
    }
  }

  /** The texts printed for a whole stream, event by event, in arrival order. */
  function TextsOf(events: seq<Event>): seq<string> {
    if events == [] then [] else TextsOfParts(PartsOf(events[0])) + TextsOf(events[1..])
  }

  lemma {:induction false} TextsOfAppend(a: seq<Event>, b: seq<Event>)
    ensures TextsOf(a + b) == TextsOf(a) + TextsOf(b)
  {
    if a == [] {
      assert a + b == b;
    } else {
      assert (a + b)[1..] == a[1..] + b;
      TextsOfAppend(a[1..], b);
    }
  }
}
