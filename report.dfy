/**
 * The report generator `generate_report_with_gemini` (src/main.py:110-144). The
 * vendor client is abstracted: the model receives the request the code would send
 * and what the response stream delivered, chunk by chunk, before it ended or raised.
 */
module Report {
  import opened Wrappers

  newtype byte = b: int | 0 <= b < 256

  type Bytes = seq<byte>

  const MODEL_NAME: string := "gemini-2.0-flash"
  const IMAGE_MIME_TYPE: string := "image/png"

  /** Stands for the fixed error text returned when no Gemini key is saved. */
  const KEY_MISSING_REPORT: string := "Error: Gemini API token not saved."
  /** Stands for the prefix of the text returned when the vendor call raises. */
  const API_ERROR_PREFIX: string := "Error contacting Gemini API: "

  /** One user turn: the instruction text and the image blob tagged with its MIME type. */
  datatype Request = Request(apiKey: string, model: string, instruction: string, image: Bytes, mimeType: string)

  /**
   * What the response stream delivered: the chunk texts in arrival order, then
   * None for a normal end or Some(details) for an exception raised while building
   * the client, sending the request or reading a chunk.
   */
  datatype StreamOutcome = StreamOutcome(chunks: seq<string>, raised: Option<string>)

  /** The chunk texts joined in arrival order. */
  function Concat(chunks: seq<string>): string
    decreases |chunks|
  {
    if chunks == [] then [] else chunks[0] + Concat(chunks[1..])
  }

  lemma {:induction false} ConcatAppend(chunks: seq<string>, c: string)
    ensures Concat(chunks + [c]) == Concat(chunks) + c
    decreases |chunks|
  {
    if chunks == [] {
      assert chunks + [c] == [c];
      assert Concat([c]) == c + Concat([]);
    } else {
      assert (chunks + [c])[0] == chunks[0];
      assert (chunks + [c])[1..] == chunks[1..] + [c];
      ConcatAppend(chunks[1..], c);
    }
  }

  /** Concatenation is a fold: splitting the stream splits the report. */
  lemma {:induction false} ConcatSplit(a: seq<string>, b: seq<string>)
    ensures Concat(a + b) == Concat(a) + Concat(b)
    decreases |a|
  {
    if a == [] {
      assert a + b == b;
    } else {
      assert (a + b)[0] == a[0];
      assert (a + b)[1..] == a[1..] + b;
      ConcatSplit(a[1..], b);
    }
  }

  /** The text the generator returns, as a function of the key and the stream. */
  function ReportFor(apiKey: string, reply: StreamOutcome): string
  {
    if apiKey == [] then KEY_MISSING_REPORT
    else if reply.raised.Some? then API_ERROR_PREFIX + reply.raised.value
    else Concat(reply.chunks)
  }

  /**
   * Fails closed without building a client when the key is empty. Otherwise
   * `request` is the request the code builds; it is never sent when building the
   * client raises, which `reply.raised` then records. The streamed chunks are
   * accumulated in order, or the error text is returned if anything raised (a
   * partial report is dropped).
   */
  method GenerateReport(apiKey: string, image: Bytes, instruction: string, reply: StreamOutcome)
    returns (report: string, request: Option<Request>)
    ensures apiKey == [] ==> report == KEY_MISSING_REPORT && request == None
    ensures apiKey != [] ==> request == Some(Request(apiKey, MODEL_NAME, instruction, image, IMAGE_MIME_TYPE))
    ensures apiKey != [] && reply.raised.Some? ==> report == API_ERROR_PREFIX + reply.raised.value
    ensures apiKey != [] && reply.raised.None? ==> report == Concat(reply.chunks)
    ensures report == ReportFor(apiKey, reply)
  {
    if apiKey == [] {
      return KEY_MISSING_REPORT, None;
    }
    request := Some(Request(apiKey, MODEL_NAME, instruction, image, IMAGE_MIME_TYPE));
    var fullReport := "";
    var i := 0;
    while i < |reply.chunks|
      invariant 0 <= i <= |reply.chunks|
      invariant fullReport == Concat(reply.chunks[..i])
    {
      ConcatAppend(reply.chunks[..i], reply.chunks[i]);
      assert reply.chunks[..i + 1] == reply.chunks[..i] + [reply.chunks[i]];
      fullReport := fullReport + reply.chunks[i];
      i := i + 1;
    }
    assert reply.chunks[..i] == reply.chunks;
    if reply.raised.Some? {
      report := API_ERROR_PREFIX + reply.raised.value;
    } else {
      report := fullReport;
    }
  }
}
