/** The voice query component
    (React/React-Frontend/vite-project/src/components/SpeechToText.jsx).

    The speech engine owns `transcript`; the component keeps an editable
    copy `voiceInput` and the text it shows as the answer, `responseData`.
    Sending posts `{question: voiceInput}` to the backend and shows its
    `reply`, a fallback text or an error text. When the browser has no
    speech recognition the component shows only a notice, so none of its
    controls exist. */
module VoiceQuery {
  import opened Wrappers
  import Strings

  const Fallback := "No response from backend."
  const ServerError := "Error contacting server."

  /** The characters JavaScript's `String.prototype.trim` removes:
      the white space and line terminator characters. */
  predicate JsWhitespace(c: char)
  {
    || c == '\t' || c == '\n' || c == '\U{B}' || c == '\U{C}' || c == '\r'
    || c == ' ' || c == '\U{A0}' || c == '\U{1680}'
    || ('\U{2000}' <= c <= '\U{200A}')
    || c == '\U{2028}' || c == '\U{2029}' || c == '\U{202F}' || c == '\U{205F}'
    || c == '\U{3000}' || c == '\U{FEFF}'
  }

  /** `!s.trim()`: the input is empty or white space only. */
  function IsBlank(s: string): (blank: bool)
    ensures blank <==> forall k :: 0 <= k < |s| ==> JsWhitespace(s[k])
  {
    Strings.Strip(s, JsWhitespace) == ""
  }

  /** How the request ended: `fetch` or `res.json()` threw, or the body
      parsed as a JSON object with string fields. The HTTP status plays no
      part. */
  datatype FetchOutcome = Threw | Parsed(body: map<string, string>)

  /** `data.reply || "No response from backend."`, or the error text when
      the request threw: a truthy `reply` is shown as it is; a missing or
      empty one gives the fallback, whatever else the body holds. */
  function ResponseText(outcome: FetchOutcome): (text: string)
    ensures text != ""
    ensures outcome.Threw? ==> text == ServerError
    ensures outcome.Parsed? && "reply" in outcome.body && outcome.body["reply"] != "" ==>
      text == outcome.body["reply"]
    ensures outcome.Parsed? && ("reply" !in outcome.body || outcome.body["reply"] == "") ==>
      text == Fallback
  {
    match outcome
    case Threw => ServerError
    case Parsed(body) => if "reply" in body && body["reply"] != "" then body["reply"] else Fallback
  }

  class SpeechToText {
    /** `browserSupportsSpeechRecognition` */
    const supported: bool
    var transcript: string
    var listening: bool
    var voiceInput: string
    var responseData: string

    /** Both pieces of component state start empty. */
    constructor (supported: bool)
      ensures this.supported == supported
      ensures transcript == "" && !listening && voiceInput == "" && responseData == ""
    {
      this.supported := supported;
      transcript, listening := "", false;
      voiceInput, responseData := "", "";
    }

    /** The engine reports transcript `t`. The effect on `[transcript]` runs
        when the value changed and then overwrites `voiceInput`, dropping
        any edit the user made. */
    method TranscriptChanged(t: string)
      modifies this
      ensures transcript == t
      ensures voiceInput == if t != old(transcript) then t else old(voiceInput)
      ensures listening == old(listening) && responseData == old(responseData)
    {
      if t != transcript {
        transcript := t;
        voiceInput := t;
      }
    }

    /** The text field's `onChange`: `voiceInput` becomes the typed text. */
    method Edit(text: string)
      modifies this
      ensures voiceInput == if supported then text else old(voiceInput)
      ensures transcript == old(transcript) && listening == old(listening)
      ensures responseData == old(responseData)
    {
      if supported {
        voiceInput := text;
      }
    }

    /** The "Start" button: the engine starts listening. */
    method StartListening()
      modifies this
      ensures listening == (supported || old(listening))
      ensures transcript == old(transcript) && voiceInput == old(voiceInput)
      ensures responseData == old(responseData)
    {
      if supported {
        listening := true;
      }
    }

    /** The "Stop" button: the engine stops listening. */
    method StopListening()
      modifies this
      ensures listening == (!supported && old(listening))
      ensures transcript == old(transcript) && voiceInput == old(voiceInput)
      ensures responseData == old(responseData)
    {
      if supported {
        listening := false;
      }
    }

    /** The "Reset" button: the engine clears the transcript, which
        overwrites `voiceInput` only if the transcript was not empty. */
    method ResetTranscript()
      modifies this
      ensures transcript == if supported then "" else old(transcript)
      ensures voiceInput ==
        if supported && old(transcript) != "" then "" else old(voiceInput)
      ensures listening == old(listening) && responseData == old(responseData)
    {
      if supported {
        TranscriptChanged("");
      }
    }

    /** `fetchFunction`, with the backend as `backend`, which maps the
        question posted to how the request ends. A blank input sends
        nothing and changes nothing; otherwise `question` is the input
        itself, untrimmed, and `responseData` shows what came back. */
    method Submit(backend: string -> FetchOutcome) returns (question: Option<string>)
      modifies this
      ensures question == if supported && !IsBlank(voiceInput) then Some(voiceInput) else None
      ensures responseData ==
        if question.Some? then ResponseText(backend(question.value)) else old(responseData)
      ensures voiceInput == old(voiceInput) && transcript == old(transcript)
      ensures listening == old(listening)
    {
      var input := voiceInput;
      var blank := IsBlank(input);
      if !supported || blank {
        return None;
      }
      question := Some(input);
      responseData := ResponseText(backend(input));
    }
  }

  /** Sending "What is 2+2?" to a backend that replies `{"reply": "4"}`
      shows "4"; a backend that replies `{}` gives the fallback; an
      unreachable one gives the error text. */
  method SubmitExamples() returns (four: string, empty: string, unreachable: string)
    ensures four == "4" && empty == Fallback && unreachable == ServerError
  {
    var a := new SpeechToText(true);
    a.Edit("What is 2+2?");
    var q := a.Submit(_ => Parsed(map["reply" := "4"]));
    four := a.responseData;
    var b := new SpeechToText(true);
    b.Edit("What is 2+2?");
    q := b.Submit(_ => Parsed(map[]));
    empty := b.responseData;
    var c := new SpeechToText(true);
    c.Edit("What is 2+2?");
    q := c.Submit(_ => Threw);
    unreachable := c.responseData;
  }
}
