/** The chat side: opening a conversation (`chat.open`), the realtime listener's
    rendering (`listenMessages`), sending (`chat.send`) and the contact search.
    Database callbacks are taken as synchronous steps. Dereferencing
    `currentUser` while nobody is logged in throws a TypeError in the browser.
    In `send` that is the outcome `Threw`, with the state as it was at the
    throw; in the search it is the flag `threw`, with the contact list
    already emptied. In `open` the throw comes from
    `listenMessages` after the recipient is set, so `Open` returns the state
    with the recipient set and no listener (`watching == None`).
 */
module Chat {
  import opened JsString
  import opened Conversation
  import opened Store

  /** The picker's stickers, as UTF-16 code units:
      fire, tears of joy, red heart (with variation selector 16), thumbs up,
      rocket, skull, clown, pizza, rainbow, gem. */
  const Stickers: seq<Str> := [
    [0xD83D, 0xDD25], [0xD83D, 0xDE02], [0x2764, 0xFE0F], [0xD83D, 0xDC4D], [0xD83D, 0xDE80],
    [0xD83D, 0xDC80], [0xD83E, 0xDD21], [0xD83C, 0xDF55], [0xD83C, 0xDF08], [0xD83D, 0xDC8E]
  ]

  /** The picker offers ten different stickers, each a non-empty string. */
  lemma StickerTable()
    ensures |Stickers| == 10
    ensures forall i, j :: 0 <= i < j < |Stickers| ==> Stickers[i] != Stickers[j]
    ensures forall i :: 0 <= i < |Stickers| ==> Truthy(Stickers[i])
  {
  }

  /* ---------------------------------------------------------------------- */
  /* Opening a conversation and watching it                                  */
  /* ---------------------------------------------------------------------- */

  /** `watching` is the log the new listener is attached to; `None` when the
      listener could not be attached because nobody is logged in. */
  datatype OpenResult = OpenResult(state: State, watching: Option<Str>)

  function Open(st: State, name: Str): (r: OpenResult)
    ensures r.state.recipient == Some(name)
    ensures r.state.users == st.users && r.state.messages == st.messages && r.state.session == st.session
    ensures r.watching.Some? <==> st.session.Some?
    ensures r.watching.Some? ==> r.watching.value == ChatId(st.session.value.name, name)
  {
    var st' := st.(recipient := Some(name));
    if st.session.None? then OpenResult(st', None)
    else OpenResult(st', Some(ChatId(st.session.value.name, name)))
  }

  /** The log the most recently attached listener shows: the one `open` of
      the current recipient attached. */
  function Watched(st: State): (w: Option<Str>)
    ensures w.Some? <==> st.session.Some? && st.recipient.Some?
    ensures w.Some? ==> w == Open(st, st.recipient.value).watching
  {
    if st.session.Some? && st.recipient.Some? then Some(ChatId(st.session.value.name, st.recipient.value))
    else None
  }

  /** One rendered message: `sent` is the `msg sent` class, otherwise
      `msg received`; `sticker` is the enlarged, background-less style. */
  datatype Bubble = Bubble(text: Str, time: Str, sent: bool, sticker: bool)

  function Classify(me: Str, m: Message): Bubble
  {
    Bubble(m.text, m.time, m.sender == me, m.isSticker)
  }

  /** The listener's redraw of a whole log, in stored order, as seen by `me`. */
  function Render(me: Str, log: seq<Message>): (r: seq<Bubble>)
    ensures |r| == |log|
    ensures forall i :: 0 <= i < |log| ==> (r[i].sent <==> log[i].sender == me)
    ensures forall i :: 0 <= i < |log| ==>
              r[i].text == log[i].text && r[i].time == log[i].time && r[i].sticker == log[i].isSticker
  {
    if |log| == 0 then [] else Render(me, log[..|log| - 1]) + [Classify(me, log[|log| - 1])]
  }

  /** What the message pane shows: the watched log as the current user sees
      it, or nothing when no listener is attached. */
  function Screen(st: State): (r: seq<Bubble>)
    ensures Watched(st).None? ==> r == []
    ensures Watched(st).Some? ==>
              var me, log := st.session.value.name, Log(st.messages, Watched(st).value);
              && |r| == |log|
              && forall i :: 0 <= i < |log| ==> (r[i].sent <==> log[i].sender == me) && r[i].text == log[i].text
  {
    match Watched(st)
    case None => []
    case Some(id) => Render(st.session.value.name, Log(st.messages, id))
  }

  /** Opening a conversation shows its whole log at once, as `me` sees it;
      a pair nobody has written to yet shows an empty pane. */
  lemma OpenShowsConversation(st: State, name: Str)
    requires st.session.Some?
    ensures var me := st.session.value.name;
            var id := ChatId(me, name);
            && Watched(Open(st, name).state) == Some(id)
            && |Screen(Open(st, name).state)| == |Log(st.messages, id)|
            && (forall i :: 0 <= i < |Log(st.messages, id)| ==>
                  Screen(Open(st, name).state)[i] == Classify(me, Log(st.messages, id)[i]))
  {
  }

  /** Rendering a longer log only adds the new message's bubble at the bottom. */
  lemma RenderAppend(me: Str, log: seq<Message>, m: Message)
    ensures Render(me, log + [m]) == Render(me, log) + [Classify(me, m)]
  {
    assert (log + [m])[..|log|] == log;
  }

  /** Two different viewers of one message: the sender sees it as sent, the
      other as received, and both see the same text, time and style. */
  lemma ClassifyTwoViewers(a: Str, b: Str, m: Message)
    requires a != b
    ensures !(Classify(a, m).sent && Classify(b, m).sent)
    ensures m.sender == a ==> Classify(a, m).sent && !Classify(b, m).sent
    ensures m.sender != a && m.sender != b ==> !Classify(a, m).sent && !Classify(b, m).sent
    ensures Classify(a, m).(sent := true) == Classify(b, m).(sent := true)
    ensures Classify(a, m).sticker == m.isSticker
  {
  }

  /** Two participants see the same log with every bubble's side swapped. */
  lemma RenderSidesSwap(a: Str, b: Str, log: seq<Message>)
    requires a != b
    requires forall i :: 0 <= i < |log| ==> log[i].sender == a || log[i].sender == b
    ensures |Render(a, log)| == |Render(b, log)|
    ensures forall i :: 0 <= i < |log| ==> (Render(a, log)[i].sent <==> !Render(b, log)[i].sent)
  {
  }

  /* ---------------------------------------------------------------------- */
  /* Sending                                                                 */
  /* ---------------------------------------------------------------------- */

  /** `!!sticker`: a sticker was picked (a falsy one counts as none). Every
      sticker of the picker counts as picked. */
  function FromSticker(sticker: Option<Str>): (b: bool)
    ensures sticker.Some? && sticker.value in Stickers ==> b
    ensures sticker.None? ==> !b
  {
    sticker.Some? && Truthy(sticker.value)
  }

  /** `sticker || input.value.trim()`: the sticker when one is picked,
      otherwise what is left of the input once white space is cut from both
      ends; empty exactly when no sticker is picked and the input is blank. */
  function MessageText(sticker: Option<Str>, input: Str): (t: Str)
    ensures FromSticker(sticker) ==> t == sticker.value
    ensures !FromSticker(sticker) ==> Trimmed(t) && StripsTo(input, t)
    ensures Truthy(t) <==> FromSticker(sticker) || !AllWhiteSpace(input)
  {
    TrimEmptyIff(input);
    TrimStrips(input);
    if FromSticker(sticker) then sticker.value else Trim(input)
  }

  /** `!activeRecipient` is false. */
  predicate RecipientSet(st: State)
  {
    st.recipient.Some? && Truthy(st.recipient.value)
  }

  /** `open(name)` lets the `!activeRecipient` guard pass exactly when the
      name is non-empty, and the attached listener is the one watched. */
  lemma OpenSetsRecipient(st: State, name: Str)
    ensures RecipientSet(Open(st, name).state) <==> Truthy(name)
    ensures Watched(Open(st, name).state) == Open(st, name).watching
  {
  }

  datatype SendOutcome = Skipped | Threw | Sent(chatId: Str)

  /** `input` is the message field's content afterwards. */
  datatype SendResult = SendResult(state: State, input: Str, outcome: SendOutcome)

  function Send(st: State, sticker: Option<Str>, input: Str, time: Str): (r: SendResult)
    // the guard: nothing to say, or nobody to say it to
    ensures r.outcome == Skipped <==> !Truthy(MessageText(sticker, input)) || !RecipientSet(st)
    ensures r.outcome == Threw <==> Truthy(MessageText(sticker, input)) && RecipientSet(st) && st.session.None?
    ensures !r.outcome.Sent? ==> r.state == st && r.input == input
    // one message appended to the end of that conversation's log, nothing else stored
    ensures r.outcome.Sent? ==>
              var me := st.session.value.name;
              var id := r.outcome.chatId;
              && id == ChatId(me, st.recipient.value)
              && r.state.users == st.users && r.state.session == st.session && r.state.recipient == st.recipient
              && r.state.messages.Keys == st.messages.Keys + {id}
              && Log(r.state.messages, id) == Log(st.messages, id) + [Message(me, MessageText(sticker, input), FromSticker(sticker), time)]
              && (forall other :: other != id ==> Log(r.state.messages, other) == Log(st.messages, other))
              && r.input == []
  {
    var text := MessageText(sticker, input);
    if !Truthy(text) || !RecipientSet(st) then
      SendResult(st, input, Skipped)
    else if st.session.None? then
      SendResult(st, input, Threw)
    else
      var me := st.session.value.name;
      var id := ChatId(me, st.recipient.value);
      var m := Message(me, text, FromSticker(sticker), time);
      SendResult(st.(messages := st.messages[id := Log(st.messages, id) + [m]]), [], Sent(id))
  }

  /** The listener attached by `open` watches exactly the log that a later
      `send` writes to. */
  lemma OpenThenSendSameConversation(st: State, name: Str, sticker: Option<Str>, input: Str, time: Str)
    requires Send(Open(st, name).state, sticker, input, time).outcome.Sent?
    ensures Open(st, name).watching == Some(Send(Open(st, name).state, sticker, input, time).outcome.chatId)
  {
  }

  /** A successful send shows up as one new `sent` bubble at the bottom of the
      sender's pane, and the pane keeps everything it showed before. */
  lemma SendShowsOnOwnScreen(st: State, sticker: Option<Str>, input: Str, time: Str)
    requires Send(st, sticker, input, time).outcome.Sent?
    ensures var r := Send(st, sticker, input, time);
            && Watched(r.state) == Watched(st) == Some(r.outcome.chatId)
            && Screen(r.state) == Screen(st) + [Bubble(MessageText(sticker, input), time, true, FromSticker(sticker))]
  {
    var me := st.session.value.name;
    var id := ChatId(me, st.recipient.value);
    RenderAppend(me, Log(st.messages, id), Message(me, MessageText(sticker, input), FromSticker(sticker), time));
  }

  /** The partner, logged in elsewhere with the conversation open, sees the
      same message appended as a `received` bubble. */
  lemma PartnerSeesReceived(st: State, sticker: Option<Str>, input: Str, time: Str, partnerAvatar: Str)
    requires Send(st, sticker, input, time).outcome.Sent?
    requires st.session.value.name != st.recipient.value
    ensures var r := Send(st, sticker, input, time);
            var me, other := st.session.value.name, st.recipient.value;
            var before := st.(session := Some(Session(other, partnerAvatar)), recipient := Some(me));
            var after := r.state.(session := Some(Session(other, partnerAvatar)), recipient := Some(me));
            && Watched(after) == Some(r.outcome.chatId)
            && Screen(after) == Screen(before) + [Bubble(MessageText(sticker, input), time, false, FromSticker(sticker))]
  {
    var me, other := st.session.value.name, st.recipient.value;
    ChatIdSymmetric(me, other);
    var id := ChatId(me, other);
    RenderAppend(other, Log(st.messages, id), Message(me, MessageText(sticker, input), FromSticker(sticker), time));
  }

  /** A picked sticker is sent as itself, marked as a sticker, whatever is
      typed in the message field, and the field is cleared. */
  lemma StickerSendIgnoresInput(st: State, k: nat, input: Str, time: Str)
    requires k < |Stickers| && RecipientSet(st) && st.session.Some?
    ensures var r := Send(st, Some(Stickers[k]), input, time);
            && r.outcome.Sent?
            && Log(r.state.messages, r.outcome.chatId)[|Log(st.messages, r.outcome.chatId)|]
                 == Message(st.session.value.name, Stickers[k], true, time)
            && r.input == []
  {
    var s := Stickers[k];
    assert |s| == 2;
    assert FromSticker(Some(s)) && MessageText(Some(s), input) == s;
  }

  lemma SendKeepsValid(st: State, sticker: Option<Str>, input: Str, time: Str)
    requires Valid(st)
    ensures Valid(Send(st, sticker, input, time).state)
  {
    if Truthy(MessageText(sticker, input)) && RecipientSet(st) && st.session.Some? {
      SentMessageKeepsValid(st, sticker, input, time);
    } else {
      assert Send(st, sticker, input, time).state == st;
    }
  }

  lemma SentMessageKeepsValid(st: State, sticker: Option<Str>, input: Str, time: Str)
    requires Valid(st)
    requires Truthy(MessageText(sticker, input)) && RecipientSet(st) && st.session.Some?
    ensures Valid(Send(st, sticker, input, time).state)
  {
    var me, other := st.session.value.name, st.recipient.value;
    var id := ChatId(me, other);
    var m := Message(me, MessageText(sticker, input), FromSticker(sticker), time);
    var st' := st.(messages := st.messages[id := Log(st.messages, id) + [m]]);
    assert Send(st, sticker, input, time).state == st';
    assert GoodMessage(st.users, id, m) by {
      assert id == ChatId(m.sender, other);
    }
    AppendKeepsValid(st, id, m);
  }

  /* ---------------------------------------------------------------------- */
  /* Contact search                                                          */
  /* ---------------------------------------------------------------------- */

  /** The contact list after the handler, and whether it threw. The list is
      emptied before `currentUser` is read, so a throw leaves it empty. */
  datatype SearchResult = SearchResult(entries: seq<Str>, threw: bool)

  /** The search field's `oninput`: the trimmed query itself is offered as the
      one contact, unless it is empty or the current user's own name. The
      directory is not consulted. */
  function Search(session: Option<Session>, query: Str): (r: SearchResult)
    ensures r.threw <==> Truthy(Trim(query)) && session.None?
    ensures r.threw ==> r.entries == []
    ensures |r.entries| <= 1
    ensures |r.entries| == 1 <==>
              Truthy(Trim(query)) && session.Some? && Trim(query) != session.value.name
    ensures |r.entries| == 1 ==> r.entries[0] == Trim(query)
  {
    var q := Trim(query);
    if !Truthy(q) then SearchResult([], false)
    else if session.None? then SearchResult([], true)
    else if q != session.value.name then SearchResult([q], false)
    else SearchResult([], false)
  }

  /** Clicking the offered contact opens a conversation with someone else, and
      typed text then goes into the conversation being watched. */
  lemma SearchOpenSend(st: State, query: Str, contact: Str, input: Str, time: Str)
    requires Search(st.session, query).entries == [contact]
    requires Truthy(Trim(input))
    ensures var o := Open(st, contact);
            var r := Send(o.state, None, input, time);
            && st.session.Some? && st.session.value.name != contact
            && o.watching == Some(ChatId(st.session.value.name, contact))
            && r.outcome == Sent(ChatId(st.session.value.name, contact))
  {
    var o := Open(st, contact);
    assert Truthy(contact) && st.session.Some?;
    assert RecipientSet(o.state) && o.state.session.Some?;
    assert MessageText(None, input) == Trim(input);
  }
}
