/**
 * The conversations slice of the session store: the loaded conversation
 * page, the per-conversation message lists, and the loading and error
 * flags of the conversation fetch. Each reducer is a method of
 * `ConversationsStore` that assigns the fields the reducer assigns and
 * leaves the others alone.
 */
module ConversationsSlice {
  import opened Wrappers
  import opened Types

  /**
   * `messages[id] || []`: the list of a conversation, empty when it has
   * none yet. (A stored empty array is truthy, so it is returned as it is.)
   */
  function MessagesOf(messages: map<Uuid, seq<Message>>, id: Uuid): seq<Message> {
    if id in messages then messages[id] else []
  }

  /** The message map after `appendMessage(id, msg)`. */
  function Appended(messages: map<Uuid, seq<Message>>, id: Uuid, msg: Message): (r: map<Uuid, seq<Message>>)
    ensures r.Keys == messages.Keys + {id}
    ensures forall other :: other != id ==> MessagesOf(r, other) == MessagesOf(messages, other)
  {
    messages[id := MessagesOf(messages, id) + [msg]]
  }

  /** The message map after `fetchMessages.fulfilled` for `id` with the fetched `data`. */
  function Replaced(messages: map<Uuid, seq<Message>>, id: Uuid, data: seq<Message>): (r: map<Uuid, seq<Message>>)
    ensures r.Keys == messages.Keys + {id}
    ensures forall other :: other != id ==> MessagesOf(r, other) == MessagesOf(messages, other)
  {
    messages[id := data]
  }

  /**
   * Appending puts `msg` at the end of the conversation's list and keeps
   * what was there: the list grows by exactly one.
   */
  lemma AppendedGrowsByOne(messages: map<Uuid, seq<Message>>, id: Uuid, msg: Message)
    ensures var after := MessagesOf(Appended(messages, id, msg), id);
      && |after| == |MessagesOf(messages, id)| + 1
      && after[..|after| - 1] == MessagesOf(messages, id)
      && after[|after| - 1] == msg
  {
  }

  /** Messages appended one after another, as the socket delivers them. */
  function AppendedAll(messages: map<Uuid, seq<Message>>, id: Uuid, msgs: seq<Message>): map<Uuid, seq<Message>>
    decreases |msgs|
  {
    if msgs == [] then messages
    else AppendedAll(Appended(messages, id, msgs[0]), id, msgs[1..])
  }

  /**
   * A run of appends keeps arrival order: the list becomes the old list
   * followed by the delivered messages, and no other list changes.
   */
  lemma {:induction false} AppendedAllKeepsArrivalOrder(messages: map<Uuid, seq<Message>>, id: Uuid, msgs: seq<Message>)
    ensures MessagesOf(AppendedAll(messages, id, msgs), id) == MessagesOf(messages, id) + msgs
    ensures forall other :: other != id ==>
      MessagesOf(AppendedAll(messages, id, msgs), other) == MessagesOf(messages, other)
    decreases |msgs|
  {
    if msgs == [] {
      assert MessagesOf(messages, id) + msgs == MessagesOf(messages, id);
    } else {
      var next := Appended(messages, id, msgs[0]);
      AppendedAllKeepsArrivalOrder(next, id, msgs[1..]);
      assert MessagesOf(next, id) == MessagesOf(messages, id) + [msgs[0]];
      assert MessagesOf(messages, id) + [msgs[0]] + msgs[1..] == MessagesOf(messages, id) + msgs;
    }
  }

  /**
   * A message fetch that completes after live messages were appended
   * replaces the list outright: the appended messages are gone unless the
   * fetched history holds them.
   */
  lemma FetchDiscardsEarlierAppends(messages: map<Uuid, seq<Message>>, id: Uuid, msgs: seq<Message>, data: seq<Message>)
    ensures Replaced(AppendedAll(messages, id, msgs), id, data)[id] == data
    ensures MessagesOf(Replaced(AppendedAll(messages, id, msgs), id, data), id) == MessagesOf(Replaced(messages, id, data), id)
  {
  }

  class ConversationsStore {
    var items: seq<Conversation>
    var messages: map<Uuid, seq<Message>>
    var loading: bool
    var error: Option<string>

    /** The slice's initial state. */
    constructor ()
      ensures items == [] && messages == map[] && !loading && error == None
    {
      items, messages, loading, error := [], map[], false, None;
    }

    /** The `appendMessage` reducer. */
    method AppendMessage(conversationId: Uuid, msg: Message)
      modifies this
      ensures messages == Appended(old(messages), conversationId, msg)
      ensures MessagesOf(messages, conversationId) == MessagesOf(old(messages), conversationId) + [msg]
      ensures items == old(items) && loading == old(loading) && error == old(error)
    {
      var list := if conversationId in messages then messages[conversationId] else [];
      messages := messages[conversationId := list + [msg]];
    }

    /** `fetchConversations.pending`. */
    method FetchConversationsPending()
      modifies this
      ensures loading
      ensures items == old(items) && messages == old(messages) && error == old(error)
    {
      loading := true;
    }

    /** `fetchConversations.fulfilled`: the fetched page replaces the list. An earlier error stays. */
    method FetchConversationsFulfilled(payload: seq<Conversation>)
      modifies this
      ensures !loading && items == payload
      ensures messages == old(messages) && error == old(error)
    {
      loading := false;
      items := payload;
    }

    /** `fetchConversations.rejected`: the error's message (possibly absent) is kept; the list stays. */
    method FetchConversationsRejected(message: Option<string>)
      modifies this
      ensures !loading && error == message
      ensures items == old(items) && messages == old(messages)
    {
      loading := false;
      error := message;
    }

    /** `fetchMessages.fulfilled`: the fetched history becomes the conversation's list. */
    method FetchMessagesFulfilled(conversationId: Uuid, data: seq<Message>)
      modifies this
      ensures messages == Replaced(old(messages), conversationId, data)
      ensures MessagesOf(messages, conversationId) == data
      ensures items == old(items) && loading == old(loading) && error == old(error)
    {
      messages := messages[conversationId := data];
    }
  }
}
