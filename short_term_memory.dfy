/** langchain_memory/short_term_memory.py: `run_chat` keeps the conversation in a Python list that
    it appends to in place and rebinds to a trimmed copy once it holds more than 20 messages; the
    driver loop feeds the returned list back in. */
module ShortTermMemory {
  import opened Base
  import opened Text
  import opened Messages

  const MaxMessages: nat := 20

  /** A Python `list[BaseMessage]` object: callers holding the same list see each other's appends. */
  class MessageList {
    var items: seq<Msg>

    constructor (items: seq<Msg>)
      ensures this.items == items
    {
      this.items := items;
    }
  }

  /** The history the chain sees: the old messages plus the user's, cut to the newest 20. */
  function Window(history: seq<Msg>, userText: string): (w: seq<Msg>)
  {
    Keep(history + [Human(userText)], MaxMessages)
  }

  /** The history passed to the chain ends with the new user message, holds at most 20 messages,
      and is what remains of the old history plus that message once only the oldest are dropped. */
  lemma WindowShape(history: seq<Msg>, userText: string)
    ensures var w := Window(history, userText);
      && |w| == Min(|history| + 1, MaxMessages)
      && w[|w| - 1] == Human(userText)
      && w == (history + [Human(userText)])[|history| + 1 - |w|..]
  {
    var all := history + [Human(userText)];
    var w := Window(history, userText);
    assert all == all[..|all| - |w|] + w;
    assert w == all[|all| - |w|..];
    assert all[|all| - 1] == Human(userText);
  }

  /** The list `run_chat` returns: the window plus the reply. */
  function Turn(history: seq<Msg>, userText: string, chain: Chain): seq<Msg>
  {
    var w := Window(history, userText);
    w + [AI(chain(w, userText))]
  }

  /** `run_chat(messages, user_text)`. Without trimming the caller's list is the one returned,
      holding both new messages; with trimming the caller's list gains only the user message and
      the reply goes into a fresh list. */
  method RunChat(messages: MessageList, userText: string, chain: Chain)
    returns (reply: string, result: MessageList)
    modifies messages
    ensures reply == chain(Window(old(messages.items), userText), userText)
    ensures result.items == Turn(old(messages.items), userText, chain)
    ensures |old(messages.items)| + 1 <= MaxMessages ==> result == messages
    ensures |old(messages.items)| + 1 > MaxMessages ==>
      && fresh(result)
      && messages.items == old(messages.items) + [Human(userText)]
  {
    messages.items := messages.items + [Human(userText)];
    result := messages;
    if |messages.items| > MaxMessages {
      result := new MessageList(messages.items[|messages.items| - MaxMessages..]);
    }
    reply := chain(result.items, userText);
    result.items := result.items + [AI(reply)];
  }

  /** The list after feeding each input to `run_chat` in turn, starting from `history`. */
  function Conversation(history: seq<Msg>, inputs: seq<string>, chain: Chain): seq<Msg>
    decreases |inputs|
  {
    if inputs == [] then history
    else Conversation(Turn(history, inputs[0], chain), inputs[1..], chain)
  }

  lemma {:induction false} ConversationSnoc(history: seq<Msg>, inputs: seq<string>, u: string, chain: Chain)
    ensures Conversation(history, inputs + [u], chain) == Turn(Conversation(history, inputs, chain), u, chain)
    decreases |inputs|
  {
    if inputs == [] {
      assert [u][1..] == [];
    } else {
      assert (inputs + [u])[1..] == inputs[1..] + [u];
      ConversationSnoc(Turn(history, inputs[0], chain), inputs[1..], u, chain);
    }
  }

  /** Starting from an empty list, `n` turns leave `min(2n, 21)` messages. */
  lemma {:induction false} ConversationLength(inputs: seq<string>, chain: Chain)
    ensures |Conversation([], inputs, chain)| == Min(2 * |inputs|, MaxMessages + 1)
    decreases |inputs|
  {
    if inputs != [] {
      var n := |inputs| - 1;
      var front := inputs[..n];
      assert inputs == front + [inputs[n]];
      ConversationLength(front, chain);
      ConversationSnoc([], front, inputs[n], chain);
      WindowShape(Conversation([], front, chain), inputs[n]);
    }
  }

  /** How many inputs the driver takes: those before the first that is blank once stripped. */
  function TurnsTaken(inputs: seq<string>): (n: nat)
    ensures n <= |inputs|
  {
    if inputs == [] || Strip(inputs[0]) == "" then 0 else 1 + TurnsTaken(inputs[1..])
  }

  /** The count stops exactly at the first blank input. */
  lemma {:induction false} TurnsTakenIs(inputs: seq<string>, n: nat)
    requires n <= |inputs|
    requires forall i :: 0 <= i < n ==> Strip(inputs[i]) != ""
    requires n < |inputs| ==> Strip(inputs[n]) == ""
    ensures TurnsTaken(inputs) == n
  {
    if n > 0 {
      assert Strip(inputs[0]) != "";
      TurnsTakenIs(inputs[1..], n - 1);
    }
  }

  function Stripped(inputs: seq<string>): (r: seq<string>)
    ensures |r| == |inputs|
  {
    seq(|inputs|, i requires 0 <= i < |inputs| => Strip(inputs[i]))
  }

  /** One more input adds one turn to the conversation. */
  lemma ConverseStep(inputs: seq<string>, n: nat, chain: Chain)
    requires n < |inputs|
    ensures Conversation([], Stripped(inputs[..n + 1]), chain)
      == Turn(Conversation([], Stripped(inputs[..n]), chain), Strip(inputs[n]), chain)
  {
    var before := Stripped(inputs[..n]);
    assert Stripped(inputs[..n + 1]) == before + [Strip(inputs[n])];
    ConversationSnoc([], before, Strip(inputs[n]), chain);
  }

  /** One pass of the driver loop: `run_chat` on the next stripped input, keeping the list it
      returns. */
  method ConverseTurn(messages: MessageList, inputs: seq<string>, n: nat, chain: Chain)
    returns (next: MessageList)
    requires n < |inputs|
    requires messages.items == Conversation([], Stripped(inputs[..n]), chain)
    modifies messages
    ensures next == messages || fresh(next)
    ensures next.items == Conversation([], Stripped(inputs[..n + 1]), chain)
  {
    ConverseStep(inputs, n, chain);
    var reply;
    reply, next := RunChat(messages, Strip(inputs[n]), chain);
  }

  /** The `__main__` loop: reads lines until a blank one (or the end of the lines), passing the
      list `run_chat` returns back into the next call. */
  method Converse(inputs: seq<string>, chain: Chain) returns (messages: MessageList, turns: nat)
    ensures turns == TurnsTaken(inputs)
    ensures messages.items == Conversation([], Stripped(inputs[..turns]), chain)
    ensures |messages.items| == Min(2 * turns, MaxMessages + 1)
  {
    messages := new MessageList([]);
    turns := 0;
    while turns < |inputs|
      invariant turns <= |inputs| && fresh(messages)
      invariant forall i :: 0 <= i < turns ==> Strip(inputs[i]) != ""
      invariant messages.items == Conversation([], Stripped(inputs[..turns]), chain)
      decreases |inputs| - turns
    {
      var userInput := Strip(inputs[turns]);
      if userInput == "" {
        break;
      }
      messages := ConverseTurn(messages, inputs, turns, chain);
      turns := turns + 1;
    }
    TurnsTakenIs(inputs, turns);
    ConversationLength(Stripped(inputs[..turns]), chain);
  }
}
