/** Chat messages, the graph state the simulation team shares (`AgentState` of
    agents/simulation_team/agent_utils.py), the partial updates nodes return, and the
    `add_messages` reducer that merges returned messages into the state. */
module Messages {
  import opened Wrappers

  datatype Role = Human | Ai | Tool

  /** A chat message. Every message carries an id: the reducer gives one to each message that
      arrives without, so the model takes the ids as given. */
  datatype Message = Message(id: string, role: Role, content: string, name: Option<string>, toolCallId: Option<string>)

  /** `AgentState`: the messages plus the optional keys. `context` is the key the code
      generator's `CodeState` adds. */
  datatype AgentState = AgentState(
    messages: seq<Message>,
    remainingSteps: Option<int>,
    instructions: Option<string>,
    currentAgent: Option<string>,
    lastMsg: Option<string>,
    context: Option<string>)

  /** The dictionary a node returns: `None` for every key it does not set. */
  datatype StateUpdate = StateUpdate(
    messages: Option<seq<Message>>,
    remainingSteps: Option<int>,
    instructions: Option<string>,
    currentAgent: Option<string>,
    lastMsg: Option<string>,
    context: Option<string>)

  /** `{"messages": ms}` */
  function MessagesOnly(ms: seq<Message>): StateUpdate {
    StateUpdate(Some(ms), None, None, None, None, None)
  }

  /** `HumanMessage(content=c, name=n)` with id `id`. */
  function HumanMessage(id: string, content: string, name: string): Message {
    Message(id, Human, content, Some(name), None)
  }

  /** No two messages share an id. */
  predicate DistinctIds(ms: seq<Message>) {
    forall i, j :: 0 <= i < j < |ms| ==> ms[i].id != ms[j].id
  }

  /** No message of `ms` has the id `id`. */
  predicate FreshId(ms: seq<Message>, id: string) {
    forall i :: 0 <= i < |ms| ==> ms[i].id != id
  }

  /** The position the reducer's id index holds for `id`: the last message with that id. */
  function FindId(ms: seq<Message>, id: string): (r: Option<nat>)
    ensures r.Some? ==>
      && r.value < |ms| && ms[r.value].id == id
      && forall j :: r.value < j < |ms| ==> ms[j].id != id
    ensures r.None? <==> FreshId(ms, id)
    decreases |ms|
  {
    if ms == [] then None
    else if ms[|ms| - 1].id == id then Some(|ms| - 1)
    else FindId(ms[..|ms| - 1], id)
  }

  /** Both parts of a history with distinct ids have distinct ids. */
  lemma DistinctSplit(a: seq<Message>, b: seq<Message>)
    requires DistinctIds(a + b)
    ensures DistinctIds(a) && DistinctIds(b)
  {
    forall i, j | 0 <= i < j < |b|
      ensures b[i].id != b[j].id
    {
      assert (a + b)[|a| + i] == b[i] && (a + b)[|a| + j] == b[j];
    }
    forall i, j | 0 <= i < j < |a|
      ensures a[i].id != a[j].id
    {
      assert (a + b)[i] == a[i] && (a + b)[j] == a[j];
    }
  }

  /** Merging one message: it replaces the message with its id, or else goes last. */
  function AddMessage(left: seq<Message>, m: Message): (r: seq<Message>)
    ensures FreshId(left, m.id) ==> r == left + [m]
    ensures !FreshId(left, m.id) ==> |r| == |left|
  {
    match FindId(left, m.id)
    case None => left + [m]
    case Some(i) => left[i := m]
  }

  /** `add_messages(left, right)`: the messages of `right` merged one after the other. */
  function AddMessages(left: seq<Message>, right: seq<Message>): seq<Message>
    decreases |right|
  {
    if right == [] then left
    else AddMessage(AddMessages(left, right[..|right| - 1]), right[|right| - 1])
  }

  /** The state after a node's update: messages merged by the reducer, every other key that the
      update sets overwritten. */
  function ApplyUpdate(s: AgentState, u: StateUpdate): AgentState {
    AgentState(
      if u.messages.Some? then AddMessages(s.messages, u.messages.value) else s.messages,
      if u.remainingSteps.Some? then u.remainingSteps else s.remainingSteps,
      if u.instructions.Some? then u.instructions else s.instructions,
      if u.currentAgent.Some? then u.currentAgent else s.currentAgent,
      if u.lastMsg.Some? then u.lastMsg else s.lastMsg,
      if u.context.Some? then u.context else s.context)
  }

  // ---------------------------------------------------------------------
  // Lemmas

  lemma AddMessagesSnoc(left: seq<Message>, right: seq<Message>, k: nat)
    requires k < |right|
    ensures AddMessages(left, right[..k + 1]) == AddMessage(AddMessages(left, right[..k]), right[k])
  {
    assert right[..k + 1][..k] == right[..k];
  }

  /** Messages whose ids are new and distinct are appended in order. */
  lemma {:induction false} AddMessagesFresh(left: seq<Message>, right: seq<Message>)
    requires DistinctIds(right)
    requires forall i :: 0 <= i < |right| ==> FreshId(left, right[i].id)
    ensures AddMessages(left, right) == left + right
    decreases |right|
  {
    if right != [] {
      var n := |right| - 1;
      var init := right[..n];
      AddMessagesFresh(left, init);
      assert FreshId(left + init, right[n].id) by {
        forall i | 0 <= i < |left + init|
          ensures (left + init)[i].id != right[n].id
        {
          if i >= |left| {
            assert (left + init)[i] == right[i - |left|];
          }
        }
      }
      assert init + [right[n]] == right;
    }
  }

  /** Merging the state's own messages back changes nothing. */
  lemma {:induction false} AddMessagesSelf(left: seq<Message>, k: nat)
    requires DistinctIds(left) && k <= |left|
    ensures AddMessages(left, left[..k]) == left
    decreases k
  {
    if k > 0 {
      AddMessagesSelf(left, k - 1);
      AddMessagesSnoc(left, left, k - 1);
      var m := left[k - 1];
      var f := FindId(left, m.id);
      assert f.Some?;
      assert f.value == k - 1;
      assert left[k - 1 := m] == left;
    }
  }

  /** A node that returns the whole history followed by new messages adds just the new
      messages: the old ones replace themselves. */
  lemma AddMessagesExtend(left: seq<Message>, added: seq<Message>)
    requires DistinctIds(left) && DistinctIds(added)
    requires forall i :: 0 <= i < |added| ==> FreshId(left, added[i].id)
    ensures AddMessages(left, left + added) == left + added
  {
    AddMessagesAppend(left, left, added);
    AddMessagesSelf(left, |left|);
    assert left[..|left|] == left;
    AddMessagesFresh(left, added);
  }

  /** Merging a concatenation is merging its parts one after the other. */
  lemma {:induction false} AddMessagesAppend(left: seq<Message>, a: seq<Message>, b: seq<Message>)
    ensures AddMessages(left, a + b) == AddMessages(AddMessages(left, a), b)
    decreases |b|
  {
    if b == [] {
      assert a + b == a;
    } else {
      var n := |b| - 1;
      assert (a + b)[..|a + b| - 1] == a + b[..n];
      assert (a + b)[|a + b| - 1] == b[n];
      AddMessagesAppend(left, a, b[..n]);
    }
  }

  /** Every message after a merge comes from one of the two sides. */
  lemma {:induction false} AddMessagesFrom(left: seq<Message>, right: seq<Message>, i: nat)
    requires i < |AddMessages(left, right)|
    ensures AddMessages(left, right)[i] in left || AddMessages(left, right)[i] in right
    decreases |right|
  {
    if right != [] {
      var n := |right| - 1;
      var acc := AddMessages(left, right[..n]);
      var m := right[n];
      if AddMessages(left, right)[i] != m {
        assert i < |acc| && AddMessages(left, right)[i] == acc[i];
        AddMessagesFrom(left, right[..n], i);
        assert acc[i] in right[..n] ==> acc[i] in right;
      }
    }
  }

  /** When the last returned message has an id seen nowhere else, the merged history ends with
      it: this is the message an `emit` node forwards. */
  lemma AddMessagesLast(left: seq<Message>, right: seq<Message>)
    requires right != []
    requires FreshId(left, right[|right| - 1].id)
    requires FreshId(right[..|right| - 1], right[|right| - 1].id)
    ensures var r := AddMessages(left, right); r != [] && r[|r| - 1] == right[|right| - 1]
  {
    var n := |right| - 1;
    var acc := AddMessages(left, right[..n]);
    var m := right[n];
    forall i | 0 <= i < |acc|
      ensures acc[i].id != m.id
    {
      AddMessagesFrom(left, right[..n], i);
    }
    assert FreshId(acc, m.id);
  }
}
