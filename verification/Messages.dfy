/** The provider-neutral message types, and the conversation protocol they follow. */
module Messages {

  /** A JSON argument value: text, or anything else by its printed form. */
  datatype Value = Text(text: string) | Other(printed: string)

  type Args = map<string, Value>

  datatype ToolCall = ToolCall(id: string, name: string, args: Args)

  datatype ToolResult = ToolResult(callId: string, content: string, isError: bool)

  datatype Image = Image(mediaType: string, data: string)

  datatype Role = System | User | Assistant | Tool

  datatype Message = Message(role: Role, content: string, calls: seq<ToolCall>, results: seq<ToolResult>,
                             images: seq<Image>)

  function Say(role: Role, content: string): Message { Message(role, content, [], [], []) }

  function CallIds(calls: seq<ToolCall>): seq<string> { seq(|calls|, i requires 0 <= i < |calls| => calls[i].id) }

  function ResultIds(results: seq<ToolResult>): seq<string> {
    seq(|results|, i requires 0 <= i < |results| => results[i].callId)
  }

  /** Only a tool message carries results, and it carries nothing else; nobody else answers calls. */
  predicate WellFormed(m: Message) {
    if m.role == Tool then m.results != [] && m.calls == [] && m.content == "" && m.images == []
    else m.results == [] && (m.calls != [] ==> m.role == Assistant)
  }

  /** The message answers exactly the calls, in order. */
  predicate Answers(m: Message, calls: seq<ToolCall>) {
    m.role == Tool && ResultIds(m.results) == CallIds(calls)
  }

  /**
   * The conversation protocol: each message with tool calls is followed at once by the tool
   * message answering them in order, and a tool message appears nowhere else.
   */
  ghost predicate Answered(h: seq<Message>) {
    && (forall i :: 0 <= i < |h| ==> WellFormed(h[i]))
    && (forall i :: 0 <= i < |h| && h[i].calls != [] ==> i + 1 < |h| && Answers(h[i + 1], h[i].calls))
    && (forall i :: 0 <= i < |h| && h[i].role == Tool ==> i > 0 && h[i - 1].calls != [])
  }

  lemma AnsweredSay(h: seq<Message>, m: Message)
    requires Answered(h) && WellFormed(m) && m.role != Tool && m.calls == []
    ensures Answered(h + [m])
  {
  }

  lemma AnsweredRound(h: seq<Message>, m: Message, answer: Message)
    requires Answered(h) && WellFormed(m) && WellFormed(answer) && m.calls != [] && Answers(answer, m.calls)
    ensures Answered(h + [m, answer])
  {
  }
}
