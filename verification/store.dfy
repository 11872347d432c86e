/** The state the messenger works on. The hosted database holds the user
    directory (`users/{name}`) and the message logs (`messages/{chatId}`); the
    browser holds the session (`m_session` in local storage, mirrored in
    `currentUser`) and the open conversation (`activeRecipient`).
 */
module Store {
  import opened JsString
  import opened Conversation

  datatype Option<T> = None | Some(value: T)

  /** `users/{name}`: the password exactly as typed (after trim), and the avatar
      as an opaque image source. */
  datatype UserRecord = UserRecord(password: Str, avatar: Str)

  /** `currentUser`. */
  datatype Session = Session(name: Str, avatar: Str)

  /** One child of `messages/{chatId}`; `time` is the clock reading formatted
      for display, opaque here. */
  datatype Message = Message(sender: Str, text: Str, isSticker: bool, time: Str)

  datatype State = State(
    users: map<Str, UserRecord>,
    messages: map<Str, seq<Message>>,   // each log in push order
    session: Option<Session>,
    recipient: Option<Str>)

  /** The log stored under `id`; a conversation nobody has written to reads as
      empty. */
  function Log(messages: map<Str, seq<Message>>, id: Str): seq<Message>
  {
    if id in messages then messages[id] else []
  }

  /** A directory entry as registration writes it: a non-empty trimmed name
      and a non-empty trimmed password. */
  ghost predicate GoodUser(name: Str, rec: UserRecord)
  {
    && Truthy(name) && Trim(name) == name
    && Truthy(rec.password) && Trim(rec.password) == rec.password
  }

  /** A stored message as sending writes it: a registered sender, a non-empty
      text, filed under a conversation of the sender's. */
  ghost predicate GoodMessage(users: map<Str, UserRecord>, id: Str, m: Message)
  {
    && m.sender in users
    && Truthy(m.text)
    && exists other :: id == ChatId(m.sender, other)
  }

  ghost predicate UsersGood(users: map<Str, UserRecord>)
  {
    forall n :: n in users ==> GoodUser(n, users[n])
  }

  /** The session names a registered user and shows that user's avatar. */
  ghost predicate SessionGood(users: map<Str, UserRecord>, session: Option<Session>)
  {
    session.Some? ==> session.value.name in users && users[session.value.name].avatar == session.value.avatar
  }

  ghost predicate MessagesGood(users: map<Str, UserRecord>, messages: map<Str, seq<Message>>)
  {
    forall id, i :: id in messages && 0 <= i < |messages[id]| ==> GoodMessage(users, id, messages[id][i])
  }

  /** What the messenger's own operations keep true of the state. */
  ghost predicate Valid(st: State)
  {
    UsersGood(st.users) && SessionGood(st.users, st.session) && MessagesGood(st.users, st.messages)
  }

  /** Growing the directory keeps every stored message good. */
  lemma MoreUsersKeepMessagesGood(users: map<Str, UserRecord>, users': map<Str, UserRecord>,
                                  messages: map<Str, seq<Message>>)
    requires MessagesGood(users, messages)
    requires users.Keys <= users'.Keys
    ensures MessagesGood(users', messages)
  {
    forall id, i | id in messages && 0 <= i < |messages[id]|
      ensures GoodMessage(users', id, messages[id][i])
    {
      assert GoodMessage(users, id, messages[id][i]);
    }
  }

  /** Appending a good message to one log keeps the whole store good. */
  lemma AppendKeepsMessagesGood(users: map<Str, UserRecord>, messages: map<Str, seq<Message>>, id: Str, m: Message)
    requires MessagesGood(users, messages) && GoodMessage(users, id, m)
    ensures MessagesGood(users, messages[id := Log(messages, id) + [m]])
  {
    var messages' := messages[id := Log(messages, id) + [m]];
    forall id', i | id' in messages' && 0 <= i < |messages'[id']|
      ensures GoodMessage(users, id', messages'[id'][i])
    {
      if id' != id {
        assert messages'[id'] == messages[id'];
      } else if i < |Log(messages, id)| {
        assert messages'[id][i] == messages[id][i];
      } else {
        assert messages'[id][i] == m;
      }
    }
  }

  lemma AppendKeepsValid(st: State, id: Str, m: Message)
    requires Valid(st) && GoodMessage(st.users, id, m)
    ensures Valid(st.(messages := st.messages[id := Log(st.messages, id) + [m]]))
  {
    AppendKeepsMessagesGood(st.users, st.messages, id, m);
  }
}
