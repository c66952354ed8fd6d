/** The help chat (src/components/chat/ChatBot.tsx): a blank message is
    ignored; any other is posted as typed, and after a delay the bot answers
    with the reply of the first keyword the message mentions. The delay and
    the timestamps are not modelled: sending and the bot's answer are two
    separate steps. */
module ChatBot {
  import opened Text

  datatype Role = User | Bot

  datatype Message = Message(role: Role, content: string)

  /** The conversation, the text box and the typing indicator. */
  datatype ChatState = ChatState(messages: seq<Message>, input: string, typing: bool)

  const Greeting := "Hello! I'm your Zoho Invoice assistant. How can I help you today?"

  const DefaultReply := "I'm here to help with your invoicing needs. Could you provide more details about what you're looking for?"

  /** The keywords in the order they are tried. */
  const Keywords: seq<string> := ["invoice", "customer", "payment", "help", "settings"]

  /** The reply for each keyword, at the same position. */
  const Replies: seq<string> := [
    "You can create a new invoice by clicking the 'New Invoice' button on the homepage or going to the Invoices section.",
    "To add a new customer, use the 'New Customer' button on the homepage or navigate to the Customers section.",
    "You can record payments by clicking 'Record Payment' on the homepage or going to the Billing section.",
    "I can help with creating invoices, managing customers, recording payments, and navigating the app. What do you need assistance with?",
    "You can find all settings by clicking on the Settings icon in the sidebar or navigation menu."]

  function InitialChat(): (s: ChatState)
    ensures s.messages == [Message(Bot, Greeting)] && s.input == "" && !s.typing
  {
    ChatState([Message(Bot, Greeting)], "", false)
  }

  /** The position of the first keyword, from `from` on, that `lowered`
      contains; `|Keywords|` when there is none. */
  function FirstKeyword(lowered: string, from: nat): (k: nat)
    requires from <= |Keywords|
    ensures from <= k <= |Keywords|
    ensures k < |Keywords| ==> Contains(lowered, Keywords[k])
    ensures forall j :: from <= j < k ==> !Contains(lowered, Keywords[j])
    decreases |Keywords| - from
  {
    if from == |Keywords| then from
    else if Contains(lowered, Keywords[from]) then from
    else FirstKeyword(lowered, from + 1)
  }

  /** The bot's answer to `text`: the reply of the first keyword the
      lower-cased text contains, or the default reply. */
  function ReplyFor(text: string): (reply: string)
    ensures var k := FirstKeyword(Lower(text), 0);
      && (k < |Keywords| ==> reply == Replies[k] && Contains(Lower(text), Keywords[k]))
      && (forall j :: 0 <= j < k ==> !Contains(Lower(text), Keywords[j]))
    ensures reply == DefaultReply <==> forall j :: 0 <= j < |Keywords| ==> !Contains(Lower(text), Keywords[j])
  {
    var k := FirstKeyword(Lower(text), 0);
    if k < |Keywords| then Replies[k] else DefaultReply
  }

  /** The answer ignores ASCII case. */
  lemma ReplyIgnoresCase(text: string)
    ensures ReplyFor(Lower(text)) == ReplyFor(text)
  {
    LowerIdempotent(text);
  }

  /** `handleSendMessage` up to the delay: a blank box changes nothing;
      otherwise the text is posted as typed, the box is cleared and the bot
      is shown typing. */
  function Send(s: ChatState): (r: ChatState)
    ensures IsBlank(s.input) ==> r == s
    ensures !IsBlank(s.input) ==>
      r.messages == s.messages + [Message(User, s.input)] && r.input == "" && r.typing
  {
    TrimEmptyIffBlank(s.input);
    if Trim(s.input) == "" then s
    else ChatState(s.messages + [Message(User, s.input)], "", true)
  }

  /** The delayed part: the bot's answer to the text that was sent is
      appended and the typing indicator goes off; the box keeps whatever was
      typed meanwhile. */
  function Answer(s: ChatState, sent: string): (r: ChatState)
    ensures r.messages == s.messages + [Message(Bot, ReplyFor(sent))]
    ensures !r.typing && r.input == s.input
  {
    ChatState(s.messages + [Message(Bot, ReplyFor(sent))], s.input, false)
  }

  /** One full exchange with nothing typed during the delay. */
  function Exchange(s: ChatState): ChatState {
    if IsBlank(s.input) then s else Answer(Send(s), s.input)
  }

  /** Bot and user take turns, starting with the bot. */
  predicate TakesTurns(messages: seq<Message>) {
    forall i :: 0 <= i < |messages| ==> messages[i].role == (if i % 2 == 0 then Bot else User)
  }

  /** A user message followed by a bot message keeps the turns. */
  lemma AppendRoundKeepsTurns(messages: seq<Message>, asked: string, answered: string)
    requires TakesTurns(messages) && |messages| % 2 == 1
    ensures var r := messages + [Message(User, asked), Message(Bot, answered)];
      TakesTurns(r) && |r| % 2 == 1
  {
    var r := messages + [Message(User, asked), Message(Bot, answered)];
    forall i | 0 <= i < |r| ensures r[i].role == (if i % 2 == 0 then Bot else User) {
      if i < |messages| {
        assert r[i] == messages[i];
      }
    }
  }

  /** An exchange on a non-blank box posts the text, then the answer to it,
      and leaves the box empty and the indicator off. */
  lemma ExchangeAppendsRound(s: ChatState)
    requires !IsBlank(s.input)
    ensures var r := Exchange(s);
      && r.messages == s.messages + [Message(User, s.input), Message(Bot, ReplyFor(s.input))]
      && r.input == "" && !r.typing
  {
    var asked, answered := Message(User, s.input), Message(Bot, ReplyFor(s.input));
    assert (s.messages + [asked]) + [answered] == s.messages + [asked, answered];
  }

  /** Each exchange adds one user message and one bot answer, so a
      conversation that starts with the greeting keeps taking turns and
      always ends with the bot. */
  lemma ExchangeKeepsTurns(s: ChatState)
    requires TakesTurns(s.messages) && |s.messages| % 2 == 1 && !s.typing
    ensures var r := Exchange(s);
      && TakesTurns(r.messages) && |r.messages| % 2 == 1 && !r.typing
      && (IsBlank(s.input) ==> r == s)
  {
    if !IsBlank(s.input) {
      ExchangeAppendsRound(s);
      AppendRoundKeepsTurns(s.messages, s.input, ReplyFor(s.input));
    }
  }

  /** The greeting starts a conversation that takes turns. */
  lemma GreetingStartsTurns()
    ensures TakesTurns(InitialChat().messages) && |InitialChat().messages| % 2 == 1
  {
  }
}
