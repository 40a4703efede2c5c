/** The chat request side of the pet: history entries, the payload the
    worker sends, the text the worker hands back for every outcome of the
    request, and the text of the history viewer. */
module Chat {
  import opened Maybe
  import opened Text

  datatype Role = User | Assistant

  /** One `{"role": ..., "content": ...}` element of the chat history. */
  datatype Entry = Entry(role: Role, content: string)

  /** One element of the `messages` list of the request payload. */
  datatype Message = Message(role: string, content: string)

  function RoleName(role: Role): string {
    match role
    case User => "user"
    case Assistant => "assistant"
  }

  function AsMessage(e: Entry): Message {
    Message(RoleName(e.role), e.content)
  }

  /** How many history entries go out with each request (`chat_history[-10:]`). */
  const ContextSize: nat := 10
  /** How many history entries are written to disk (`chat_history[-50:]`). */
  const PersistedSize: nat := 50

  /** The conversation context of a request: the latest entries of the history. */
  function Context(history: seq<Entry>): (c: seq<Entry>)
    ensures |c| == if |history| < ContextSize then |history| else ContextSize
    ensures c == history[|history| - |c|..]
  {
    Last(history, ContextSize)
  }

  /** What `save_history` writes: the latest entries of the history. */
  function Persisted(history: seq<Entry>): (p: seq<Entry>)
    ensures |p| == if |history| < PersistedSize then |history| else PersistedSize
    ensures p == history[|history| - |p|..]
  {
    Last(history, PersistedSize)
  }

  /** `full_messages` of `AIWorker.run`: the system prompt, then the context in order. */
  function PayloadMessages(prompt: string, context: seq<Entry>): (ms: seq<Message>)
    ensures |ms| == |context| + 1
    ensures ms[0] == Message("system", prompt)
    ensures forall i :: 0 <= i < |context| ==> ms[i + 1] == AsMessage(context[i])
  {
    [Message("system", prompt)] + seq(|context|, i requires 0 <= i < |context| => AsMessage(context[i]))
  }

  /** What the HTTP call of the worker came back with.
      `HttpErr.errorMessage` is `error.message` of the response body when the
      body is a JSON object carrying one, and `None` otherwise; `Exn` carries
      `str(e)` of whatever the request or the decoding of a 200 reply raised,
      and also of the `TypeError` that slicing a non-string `error.message`
      (`null` or a number) raises on a non-200 reply. */
  datatype Outcome =
    | Ok(content: string)
    | HttpErr(status: nat, errorMessage: Option<string>, body: string)
    | Exn(message: string)

  const ApiErrorPrefix: string := "API错误("
  const ApiErrorSeparator: string := "): "
  const NetworkErrorPrefix: string := "网络异常: "
  const Ellipsis: string := "..."
  /** How many characters of an error message reach the bubble. */
  const ErrorExcerpt: nat := 50

  /** The message an HTTP error is reported with: the server's
      `error.message` when there is one, else the raw response text. */
  function ServerMessage(o: Outcome): string
    requires o.HttpErr?
  {
    o.errorMessage.GetOr(o.body)
  }

  /** The string `AIWorker.run` emits on `finished` for an outcome. */
  function ReplyText(o: Outcome): (r: string)
    ensures o.Ok? ==> r == o.content
    ensures o.HttpErr? ==>
              && StartsWith(r, ApiErrorPrefix) && EndsWith(r, Ellipsis)
              && |r| <= |ApiErrorPrefix| + |NatToString(o.status)| + |ApiErrorSeparator| + ErrorExcerpt + |Ellipsis|
    ensures o.Exn? ==>
              && StartsWith(r, NetworkErrorPrefix) && EndsWith(r, Ellipsis)
              && |r| <= |NetworkErrorPrefix| + ErrorExcerpt + |Ellipsis|
  {
    match o
    case Ok(content) => content
    case HttpErr(status, _, _) =>
      ApiErrorPrefix + NatToString(status) + ApiErrorSeparator + Take(ServerMessage(o), ErrorExcerpt) + Ellipsis
    case Exn(message) =>
      NetworkErrorPrefix + Take(message, ErrorExcerpt) + Ellipsis
  }

  /** Reads an HTTP-error reply back into its status code and message excerpt. */
  function ParseApiError(r: string): Option<(nat, string)> {
    if StartsWith(r, ApiErrorPrefix) && EndsWith(r, Ellipsis)
       && |ApiErrorPrefix| + |Ellipsis| <= |r| then
      var inner := r[|ApiErrorPrefix|..|r| - |Ellipsis|];
      match Find(inner, ApiErrorSeparator)
      case None => None
      case Some(i) =>
        if forall k :: 0 <= k < i ==> IsDigit(inner[k]) then
          Some((ParseNat(inner[..i]), inner[i + |ApiErrorSeparator|..]))
        else None
    else None
  }

  /** Reads a network-error reply back into its message excerpt. */
  function ParseNetworkError(r: string): Option<string> {
    if StartsWith(r, NetworkErrorPrefix) && EndsWith(r, Ellipsis)
       && |NetworkErrorPrefix| + |Ellipsis| <= |r| then
      Some(r[|NetworkErrorPrefix|..|r| - |Ellipsis|])
    else None
  }

  /** In `digits + "): " + rest` the first `"): "` is the one after the digits. */
  lemma FindSeparatorAfterDigits(digits: string, rest: string)
    requires forall k :: 0 <= k < |digits| ==> IsDigit(digits[k])
    ensures Find(digits + ApiErrorSeparator + rest, ApiErrorSeparator) == Some(|digits|)
  {
    var s := digits + ApiErrorSeparator + rest;
    assert OccursAt(s, ApiErrorSeparator, |digits|) by {
      assert s[|digits|..|digits| + 3] == ApiErrorSeparator;
    }
    var i := Find(s, ApiErrorSeparator).value;
    if i < |digits| {
      OccurrenceStartsWith(s, ApiErrorSeparator, i);
      assert false;
    }
  }

  /** An HTTP-error reply gives back the status code and exactly the first
      fifty characters of the server's message. */
  lemma ApiErrorRoundTrip(status: nat, errorMessage: Option<string>, body: string)
    ensures var o := HttpErr(status, errorMessage, body);
            ParseApiError(ReplyText(o)) == Some((status, Take(ServerMessage(o), ErrorExcerpt)))
  {
    var o := HttpErr(status, errorMessage, body);
    var digits := NatToString(status);
    var excerpt := Take(ServerMessage(o), ErrorExcerpt);
    var r := ReplyText(o);
    var inner := r[|ApiErrorPrefix|..|r| - |Ellipsis|];
    assert inner == digits + ApiErrorSeparator + excerpt;
    FindSeparatorAfterDigits(digits, excerpt);
    assert inner[..|digits|] == digits;
    assert inner[|digits| + |ApiErrorSeparator|..] == excerpt;
    ParseNatToString(status);
  }

  /** A network-error reply gives back exactly the first fifty characters of the exception text. */
  lemma NetworkErrorRoundTrip(message: string)
    ensures ParseNetworkError(ReplyText(Exn(message))) == Some(Take(message, ErrorExcerpt))
  {
    var r := ReplyText(Exn(message));
    assert r[|NetworkErrorPrefix|..|r| - |Ellipsis|] == Take(message, ErrorExcerpt);
  }

  // ---------------------------------------------------------------------------
  // History viewer
  // ---------------------------------------------------------------------------

  /** Who the viewer says spoke an entry: "我" (me) for the user, the pet's name otherwise. */
  function Speaker(role: Role, petName: string): string {
    if role == User then "我" else petName
  }

  /** The viewer's paragraph for one entry: `【speaker】: content` and a blank line. */
  function EntryText(e: Entry, petName: string): string {
    "【" + Speaker(e.role, petName) + "】: " + e.content + "\n\n"
  }

  /** The whole transcript: the paragraphs of the entries, in order. */
  function Transcript(history: seq<Entry>, petName: string): string {
    if history == [] then "" else EntryText(history[0], petName) + Transcript(history[1..], petName)
  }

  /** The transcript of a concatenation is the concatenation of the transcripts. */
  lemma {:induction false} TranscriptAppend(a: seq<Entry>, b: seq<Entry>, petName: string)
    ensures Transcript(a + b, petName) == Transcript(a, petName) + Transcript(b, petName)
  {
    if a == [] {
      assert a + b == b;
    } else {
      assert (a + b)[1..] == a[1..] + b;
      TranscriptAppend(a[1..], b, petName);
    }
  }

  /** Adding one entry at the end adds its paragraph at the end. */
  lemma TranscriptSnoc(history: seq<Entry>, e: Entry, petName: string)
    ensures Transcript(history + [e], petName) == Transcript(history, petName) + EntryText(e, petName)
  {
    TranscriptAppend(history, [e], petName);
    assert [e][1..] == [];
  }

  /** `HistoryDialog.__init__`'s loop building the text shown in the viewer:
      one paragraph per entry, in history order. */
  method HistoryText(history: seq<Entry>, petName: string) returns (content: string)
    ensures content == Transcript(history, petName)
    ensures history == [] ==> content == ""
    ensures |history| > 0 ==> EndsWith(content, EntryText(history[|history| - 1], petName))
  {
    content := "";
    var i := 0;
    while i < |history|
      invariant 0 <= i <= |history|
      invariant content == Transcript(history[..i], petName)
    {
      TranscriptSnoc(history[..i], history[i], petName);
      assert history[..i + 1] == history[..i] + [history[i]];
      content := content + EntryText(history[i], petName);
      i := i + 1;
    }
    assert history[..i] == history;
    if |history| > 0 {
      var n := |history| - 1;
      var last := EntryText(history[n], petName);
      TranscriptSnoc(history[..n], history[n], petName);
      assert history[..n] + [history[n]] == history;
      AppendParts(Transcript(history[..n], petName), last);
    }
  }
}
