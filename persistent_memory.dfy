/** langchain_memory/persistent_memory.py: one conversation per session id, kept in a JSON file
    that maps session ids to message lists. The file is a store value here: whether it exists,
    and the map it holds. */
module PersistentMemory {
  import opened Base
  import opened Messages

  const MaxMessages: nat := 50

  /** The state of `persistent_store.json`. */
  datatype Store = Store(fileExists: bool, data: map<string, seq<Msg>>)

  /** `load_history(session_id)`: no file, no entry and an empty entry all give `[]`. */
  function Load(st: Store, sessionId: string): seq<Msg>
  {
    if !st.fileExists then []
    else if sessionId !in st.data then []
    else st.data[sessionId]
  }

  /** `save_history(session_id, messages)`: the newest 50 messages replace the session's entry;
      the other entries are read back from the file, or there are none when it does not exist. */
  function Save(st: Store, sessionId: string, messages: seq<Msg>): Store
  {
    var data := if st.fileExists then st.data else map[];
    Store(true, data[sessionId := Keep(messages, MaxMessages)])
  }

  /** Loading a session just saved gives back its newest `min(n, 50)` messages, in order. */
  lemma SaveThenLoad(st: Store, sessionId: string, messages: seq<Msg>)
    ensures var loaded := Load(Save(st, sessionId, messages), sessionId);
      && |loaded| == Min(|messages|, MaxMessages)
      && loaded == messages[|messages| - |loaded|..]
  {
    var kept := Keep(messages, MaxMessages);
    assert messages == messages[..|messages| - |kept|] + kept;
  }

  /** Saving leaves every other session as it loads, and makes the file exist. */
  lemma SaveKeepsOthers(st: Store, sessionId: string, messages: seq<Msg>, other: string)
    requires other != sessionId
    ensures Load(Save(st, sessionId, messages), other) == Load(st, other)
    ensures Save(st, sessionId, messages).fileExists
  {
  }

  /** Saving overwrites: what was stored for the session before has no effect. */
  lemma SaveOverwrites(st: Store, sessionId: string, first: seq<Msg>, second: seq<Msg>)
    ensures Save(Save(st, sessionId, first), sessionId, second).data
      == Save(st, sessionId, second).data
  {
  }

  /** A session that has not been saved loads as empty. */
  lemma UnsavedIsEmpty(st: Store, sessionId: string)
    requires !st.fileExists || sessionId !in st.data
    ensures Load(st, sessionId) == []
  {
  }

  /** What `run_turn` saves: the loaded history, the human message, then the reply. */
  function TurnMessages(st: Store, sessionId: string, userText: string, chain: Chain): seq<Msg>
  {
    var seen := Load(st, sessionId) + [Human(userText)];
    seen + [AI(chain(seen, userText))]
  }

  /** After a turn the session loads as the newest 50 of its old history plus the two new
      messages, ending with the human message and the reply, in that order. */
  lemma TurnThenLoad(st: Store, sessionId: string, userText: string, chain: Chain)
    ensures var before := Load(st, sessionId);
      var reply := chain(before + [Human(userText)], userText);
      var loaded := Load(Save(st, sessionId, TurnMessages(st, sessionId, userText, chain)), sessionId);
      && loaded == Keep(before + [Human(userText), AI(reply)], MaxMessages)
      && |loaded| >= 2
      && loaded[|loaded| - 2..] == [Human(userText), AI(reply)]
  {
    var before := Load(st, sessionId);
    var reply := chain(before + [Human(userText)], userText);
    var all := before + [Human(userText)] + [AI(reply)];
    assert all == before + [Human(userText), AI(reply)];
    SaveThenLoad(st, sessionId, all);
  }

  /** The JSON file, updated in place by `save_history`. */
  class SessionStore {
    var fileExists: bool
    var data: map<string, seq<Msg>>

    function State(): Store
      reads this
    {
      Store(fileExists, data)
    }

    constructor (st: Store)
      ensures State() == st
    {
      fileExists := st.fileExists;
      data := st.data;
    }

    /** `load_history`. */
    method LoadHistory(sessionId: string) returns (r: seq<Msg>)
      ensures r == Load(State(), sessionId)
    {
      if !fileExists {
        return [];
      }
      var raw := if sessionId in data then data[sessionId] else [];
      if raw == [] {
        return [];
      }
      r := raw;
    }

    /** `save_history`: reads the file, replaces one entry and writes it back. */
    method SaveHistory(sessionId: string, messages: seq<Msg>)
      modifies this
      ensures State() == Save(old(State()), sessionId, messages)
    {
      var kept := messages;
      if |kept| > MaxMessages {
        kept := kept[|kept| - MaxMessages..];
      }
      var d: map<string, seq<Msg>> := map[];
      if fileExists {
        d := data;
      }
      d := d[sessionId := kept];
      data := d;
      fileExists := true;
    }

    /** `run_turn`: the chain sees the history ending with the human message; both new messages
        are appended and saved. */
    method RunTurn(sessionId: string, userText: string, chain: Chain) returns (reply: string)
      modifies this
      ensures reply == chain(Load(old(State()), sessionId) + [Human(userText)], userText)
      ensures State() == Save(old(State()), sessionId, TurnMessages(old(State()), sessionId, userText, chain))
    {
      var messages := LoadHistory(sessionId);
      messages := messages + [Human(userText)];
      reply := chain(messages, userText);
      messages := messages + [AI(reply)];
      SaveHistory(sessionId, messages);
    }
  }
}
