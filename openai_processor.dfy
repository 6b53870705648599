/** The data side of OpenAIProcessor.process_transcript
    (src/yt_transcript/openai_processor.py): the caption texts are joined
    into one string with single spaces, in list order, and wrapped in a
    two-message chat request for a fixed model. Sending the request is
    not modelled. */
module OpenAIProcessor {

  import opened Options

  /** One caption entry as returned by the transcript extractor. The
      timings are carried along but never used by the processor. */
  datatype CaptionEntry = CaptionEntry(text: string, start: real, duration: real)

  /** The texts of the entries, in list order. */
  function Texts(entries: seq<CaptionEntry>): (texts: seq<string>)
    ensures |texts| == |entries|
    ensures forall i :: 0 <= i < |entries| ==> texts[i] == entries[i].text
  {
    seq(|entries|, i requires 0 <= i < |entries| => entries[i].text)
  }

  /** ' '.join(parts): the parts with one space between neighbours. The
      join of n >= 1 parts is as long as the parts together plus n - 1
      separators. */
  function JoinWithSpace(parts: seq<string>): (joined: string)
    ensures 0 < |parts| ==> |joined| == TotalLength(parts) + |parts| - 1
  {
    if |parts| == 0 then ""
    else if |parts| == 1 then parts[0]
    else parts[0] + " " + JoinWithSpace(parts[1..])
  }

  /** The sum of the lengths of the parts. */
  function TotalLength(parts: seq<string>): (total: nat)
  {
    if |parts| == 0 then 0 else |parts[0]| + TotalLength(parts[1..])
  }

  /** Where the i-th part begins in the joined string: the lengths of the
      parts before it and one separator after each of them. */
  function Offset(parts: seq<string>, i: nat): (o: nat)
    requires i <= |parts|
  {
    TotalLength(parts[..i]) + i
  }

  /** The offset of part i, seen from the tail of the list. */
  lemma {:induction false} OffsetStep(parts: seq<string>, i: nat)
    requires 0 < i <= |parts|
    ensures Offset(parts, i) == |parts[0]| + 1 + Offset(parts[1..], i - 1)
  {
    assert parts[..i][0] == parts[0];
    assert parts[..i][1..] == parts[1..][..i - 1];
  }

  /** Every part appears in the join, unchanged, at its offset, and unless
      it is the last one it is followed by a single space. Together with
      the length of the join this fixes every character of the join: the parts in list
      order, separated by single spaces. */
  lemma {:induction false} JoinPlacesParts(parts: seq<string>, i: nat)
    requires i < |parts|
    ensures var o := Offset(parts, i);
      && o + |parts[i]| <= |JoinWithSpace(parts)|
      && JoinWithSpace(parts)[o..o + |parts[i]|] == parts[i]
      && (i + 1 < |parts| ==> o + |parts[i]| < |JoinWithSpace(parts)| && JoinWithSpace(parts)[o + |parts[i]|] == ' ')
  {
    var j := JoinWithSpace(parts);
    if i == 0 {
      assert Offset(parts, 0) == 0 by {
        assert parts[..0] == [];
      }
      if |parts| == 1 {
        assert j == parts[0];
      } else {
        var tail := " " + JoinWithSpace(parts[1..]);
        assert j == parts[0] + tail;
        assert j[..|parts[0]|] == parts[0];
        assert j[|parts[0]|] == tail[0] == ' ';
      }
    } else {
      var head := parts[0] + " ";
      var rest := JoinWithSpace(parts[1..]);
      assert j == head + rest;
      OffsetStep(parts, i);
      JoinPlacesParts(parts[1..], i - 1);
      var o' := Offset(parts[1..], i - 1);
      assert parts[1..][i - 1] == parts[i];
      SliceAfterHead(head, rest, o', o' + |parts[i]|);
    }
  }

  /** A slice of head + rest past the head is the matching slice of rest. */
  lemma SliceAfterHead(head: string, rest: string, lo: nat, hi: nat)
    requires lo <= hi <= |rest|
    ensures (head + rest)[|head| + lo..|head| + hi] == rest[lo..hi]
    ensures hi < |rest| ==> (head + rest)[|head| + hi] == rest[hi]
  {
  }

  /** Adding a part at the end of a non-empty list adds a space and that
      part at the end of the join: the parts are taken in list order.
      (Appending to the empty list gives the part alone, with no space.) */
  lemma {:induction false} JoinAppend(parts: seq<string>, t: string)
    requires 0 < |parts|
    ensures JoinWithSpace(parts + [t]) == JoinWithSpace(parts) + " " + t
  {
    if |parts| == 1 {
      assert parts + [t] == [parts[0], t];
    } else {
      assert (parts + [t])[1..] == parts[1..] + [t];
      JoinAppend(parts[1..], t);
    }
  }

  /** full_text: the entries' texts joined with single spaces. No entries
      give the empty text; n >= 1 entries give the total length of their
      texts plus n - 1 separators. */
  function FullText(entries: seq<CaptionEntry>): (fullText: string)
    ensures |entries| == 0 ==> fullText == ""
    ensures 0 < |entries| ==> |fullText| == TotalLength(Texts(entries)) + |entries| - 1
  {
    JoinWithSpace(Texts(entries))
  }

  /** An empty caption list gives an empty text, and the processor raises
      no error for it; a single entry gives exactly its own text. */
  lemma FullTextSmallCases(e: CaptionEntry)
    ensures FullText([]) == ""
    ensures FullText([e]) == e.text
  {
    assert Texts([e]) == [e.text];
  }

  /** The speaker of a chat message. */
  datatype Role = System | User

  /** The role's name on the wire. */
  function RoleName(r: Role): (name: string)
    ensures name == "system" <==> r == System
    ensures name == "user" <==> r == User
  {
    match r
    case System => "system"
    case User => "user"
  }

  datatype ChatMessage = ChatMessage(role: Role, content: string)

  /** A chat-completion request: the model and the messages in order. */
  datatype ChatRequest = ChatRequest(model: string, messages: seq<ChatMessage>)

  /** A message as the dictionary handed to the client: exactly the keys
      "role" and "content", with the role's wire name and the text. */
  function WireMessage(m: ChatMessage): (d: map<string, string>)
    ensures d.Keys == {"role", "content"}
    ensures d["role"] == RoleName(m.role) && d["content"] == m.content
  {
    map["role" := RoleName(m.role), "content" := m.content]
  }

  /** The messages list handed to the client, one dictionary per message,
      in order. */
  function WireMessages(messages: seq<ChatMessage>): (ds: seq<map<string, string>>)
    ensures |ds| == |messages|
    ensures forall i :: 0 <= i < |messages| ==> ds[i] == WireMessage(messages[i])
  {
    seq(|messages|, i requires 0 <= i < |messages| => WireMessage(messages[i]))
  }

  /** The dictionary loses nothing: distinct messages give distinct
      dictionaries. */
  lemma {:induction false} WireMessageInjective(m1: ChatMessage, m2: ChatMessage)
    requires WireMessage(m1) == WireMessage(m2)
    ensures m1 == m2
  {
    assert RoleName(m1.role) == WireMessage(m1)["role"] == RoleName(m2.role);
  }

  const Model: string := "gpt-3.5-turbo"

  const SystemInstruction: string :=
    "You are a helpful assistant that processes YouTube video transcripts into clear, well-formatted text."

  /** The fixed text placed before the transcript in the user message. */
  const UserPreamble: string := "Process this transcript into clear, well-formatted text:\n\n"

  /** The request built around an already joined transcript text. */
  function RequestFor(fullText: string): (req: ChatRequest)
    ensures req.model == Model && |req.messages| == 2
    ensures req.messages[0].role == System && req.messages[1].role == User
    ensures req.messages[0].content == SystemInstruction
    ensures UserPreamble <= req.messages[1].content
    ensures req.messages[1].content[|UserPreamble|..] == fullText
  {
    ChatRequest(Model, [ChatMessage(System, SystemInstruction), ChatMessage(User, UserPreamble + fullText)])
  }

  /** The request process_transcript sends for a list of caption entries:
      it has the processor's shape and carries full_text. */
  function BuildRequest(entries: seq<CaptionEntry>): (req: ChatRequest)
    ensures TranscriptTextOf(req) == Some(FullText(entries))
  {
    TranscriptTextOfRequest(FullText(entries));
    RequestFor(FullText(entries))
  }

  /** The inverse of RequestFor: the transcript text carried by a request,
      or None when the request does not have the processor's shape. */
  function TranscriptTextOf(req: ChatRequest): (r: Option<string>)
    ensures r.Some? ==> req.model == Model && |req.messages| == 2
  {
    if req.model == Model && |req.messages| == 2
       && req.messages[0] == ChatMessage(System, SystemInstruction)
       && req.messages[1].role == User && UserPreamble <= req.messages[1].content
    then Some(req.messages[1].content[|UserPreamble|..])
    else None
  }

  /** Reading the transcript text back out of its request gives it
      unchanged. */
  lemma {:induction false} TranscriptTextOfRequest(fullText: string)
    ensures TranscriptTextOf(RequestFor(fullText)) == Some(fullText)
  {
    var req := RequestFor(fullText);
    assert req.messages[0] == ChatMessage(System, SystemInstruction);
  }

  /** Every request TranscriptTextOf accepts is the request built for the
      text it returns. */
  lemma {:induction false} RequestForTranscriptText(req: ChatRequest)
    requires TranscriptTextOf(req).Some?
    ensures RequestFor(TranscriptTextOf(req).value) == req
  {
    var content := req.messages[1].content;
    assert content == UserPreamble + content[|UserPreamble|..];
    assert req.messages[1] == ChatMessage(User, content);
    assert req.messages == [req.messages[0], req.messages[1]];
  }

  /** The request determines the transcript text: different texts never
      produce the same request. */
  lemma {:induction false} RequestForInjective(t1: string, t2: string)
    requires RequestFor(t1) == RequestFor(t2)
    ensures t1 == t2
  {
    TranscriptTextOfRequest(t1);
    TranscriptTextOfRequest(t2);
  }

  /** On the wire, the request for a text is the literal messages list of
      process_transcript: a "system" dictionary with the fixed instruction,
      then a "user" dictionary with the preamble and the text. */
  lemma {:induction false} RequestOnTheWire(fullText: string)
    ensures WireMessages(RequestFor(fullText).messages)
         == [map["role" := "system", "content" := SystemInstruction],
             map["role" := "user", "content" := UserPreamble + fullText]]
  {
    var ds := WireMessages(RequestFor(fullText).messages);
    assert ds[0] == WireMessage(ChatMessage(System, SystemInstruction));
    assert ds[1] == WireMessage(ChatMessage(User, UserPreamble + fullText));
  }
}
