# Messenger core, modelled in Dafny

A model of the logic in `script.js`, a browser chat client. The client keeps its
users and messages in a hosted realtime database and its session in local
storage. The logic modelled here is:

- the **conversation id** both sides compute, `[currentUser.name, activeRecipient].sort().join('_vs_')`;
- **login-or-register** (`auth.handleAuth`, `completeLogin`, `logout`);
- **opening a conversation** (`chat.open`) and the listener's **sent/received rendering** (`listenMessages`);
- **sending** (`chat.send`), with its sticker-or-trimmed-text choice and its guard;
- the **contact search** filter (the `user-search` input handler).

The state is an immutable `Store.State`. It holds the user directory
(`users/{name}` → password and avatar), the message logs (`messages/{chatId}` →
messages in push order), the optional session (`currentUser`) and the optional
open conversation (`activeRecipient`). Every operation that changes this state
is a pure function from the old state to a new state and an outcome. The
contact search changes none of it: `Chat.Search` maps the session and the query
to the contact list it draws and whether it threw. The one-shot database reads and the
writes that follow them count as one synchronous step. The page reload at the
end of `completeLogin` and `logout` counts as its effect on the state: the
session is what was just stored, and no conversation is open.

Strings are sequences of UTF-16 code units (`JsString.Str`). `JsString.Less` is
JavaScript's `<` on strings, which is what `Array.prototype.sort` uses when it is
given no comparator. `JsString.Trim` is `String.prototype.trim`. It removes the
ECMAScript WhiteSpace and LineTerminator code units, which all lie in the Basic
Multilingual Plane. JavaScript truthiness is modelled exactly: an empty sticker
string counts as no sticker, and an empty recipient counts as none. In the
browser, dereferencing `currentUser` when nobody is logged in throws a
TypeError. In `chat.send` (script.js:125) and the search handler
(script.js:180) that is modelled as the `Threw` outcome of `Chat.Send`, with the
state as it stood at the throw, and as the `threw` flag of `Chat.Search`, whose
contact list is then empty because script.js:178 clears it first. In `chat.open` the throw happens inside
`listenMessages` (script.js:89), after the recipient has been set, so
`Chat.Open` returns the state with the recipient set and `watching == None`:
no listener is attached.

Modules: `JsString` (jsstring.dfy), `Conversation` (conversation.dfy), `Store`
(store.dfy), `Auth` (auth.dfy), `Chat` (chat.dfy).

### Behaviour of the code worth knowing

- The conversation id accepts any two names, including a name paired with
  itself, and it is not injective. `Conversation.ChatIdCollides` shows two
  pairs sharing an id when a name contains `_vs_`.
  `Conversation.ChatIdCollidesWithoutSeparatorInNames` shows it for names that
  do not contain it, because `_vs_` overlaps itself.
- A login with an unknown name registers it. A taken name with another
  password gets the wrong-password alert; there is no separate name-taken
  outcome.
- Messages are shown in push order. Their `time` is only displayed.
- `listenMessages` never detaches a listener (see "Left out").

## Model

| member | source | states |
|---|---|---|
| JsString.LessTrichotomy | script.js:89 | the string order `sort` uses is total: any two names compare one way or the other, or are equal |
| JsString.Less | script.js:89 | the string `<` the default sort uses: nothing is smaller than the empty string, and a proper prefix is smaller than the longer string |
| JsString.LessTransitive | script.js:89 | the string order `sort` uses is transitive |
| JsString.LessAsymmetric | script.js:125 | no two names are each smaller than the other, so sorting a pair has one answer |
| JsString.TrimStartSpec | script.js:29 | trimming the front keeps a suffix, drops only white space, and stops at the first code unit that is not white space |
| JsString.TrimEndSpec | script.js:30 | trimming the back keeps a prefix, drops only white space, and stops at the last code unit that is not white space |
| JsString.Trim | script.js:29-30 | a trimmed name or password has white space at neither end and is no longer than the input |
| JsString.TrimStrips | script.js:121 | what `trim` leaves is the input with only white space cut from its two ends |
| JsString.TrimUnique | script.js:176 | `trim` is the only string with white space at neither end that is left over by cutting white space off both ends |
| JsString.TrimIdempotent | script.js:29-30 | trimming a trimmed name or password changes nothing, so a stored credential matches itself when retyped |
| JsString.TrimEmptyIff | script.js:32 | a field is rejected as empty exactly when it holds nothing but white space |
| Conversation.SortPair | script.js:89 | `[me, other].sort()` is a permutation of the two names with the larger one last |
| Conversation.ChatId | script.js:125 | the id is the smaller name, `_vs_`, then the larger name |
| Conversation.ChatIdSymmetric | script.js:125 | both participants derive the same id, whichever side computes it |
| Conversation.SortPairSymmetric | script.js:89 | the sorted pair does not depend on which name is "me" |
| Conversation.ChatIdCollides | script.js:125 | two different pairs of names can share one conversation when a name contains `_vs_` |
| Conversation.ChatIdCollidesWithoutSeparatorInNames | script.js:89 | two different pairs can share one conversation even when no name contains `_vs_` |
| Store.AppendKeepsMessagesGood | script.js:127-134 | pushing a good message keeps every stored message attributed to a registered sender in one of that sender's conversations |
| Store.MoreUsersKeepMessagesGood | script.js:49 | adding a user record never invalidates a stored message |
| Auth.HandleAuth | script.js:24-53 | a blank trimmed name or password changes nothing; a known name with the stored password logs in with the stored avatar; a known name with another password changes nothing; an unknown name gains exactly one record and is logged in |
| Auth.CompleteLogin | script.js:55-59 | the session becomes the given name and avatar, the directory and the logs are untouched, and the reload closes the open conversation |
| Auth.Logout | script.js:62-64 | after logout there is no session and no open conversation, and the directory and logs are untouched |
| Auth.RegisterThenLogIn | script.js:40-50 | after registering, the same name and password log in with the avatar stored at registration, not the current preview |
| Auth.RegisteredRefusesOtherPassword | script.js:41-46 | once a name is registered, another password is refused and nothing changes, so the first registration stands |
| Auth.LogoutThenLogIn | script.js:42-64 | logging out and back in with the stored password restores the same session |
| Auth.HandleAuthKeepsValid | script.js:47-58 | login-or-register keeps the directory to trimmed, non-empty names and passwords, and keeps the session on a registered user with that user's avatar |
| Auth.LogoutKeepsValid | script.js:62-64 | logout keeps those invariants |
| Auth.CompleteLoginKeepsValid | script.js:55-58 | logging in a registered user with the stored avatar keeps those invariants |
| Chat.Open | script.js:70-85 | opening sets the recipient and attaches the listener to the conversation of the current user and that recipient; with nobody logged in, no listener is attached |
| Chat.Watched | script.js:84-89 | a listener is attached exactly when someone is logged in and a recipient is set, and it watches the log `open` of that recipient attached to |
| Chat.Screen | script.js:92-113 | the pane is empty with no listener; otherwise it has one bubble per message of the watched log, marked sent exactly when the current user wrote it, with that message's text |
| Chat.ClassifyTwoViewers | script.js:100-106 | of two different viewers of one message only the sender sees it as sent, a message by a third party is received for both, and both see the same text, time and sticker style |
| Chat.StickerTable | script.js:20 | the picker offers ten different stickers (the constant `Chat.Stickers`), none of them empty |
| Chat.Render | script.js:96-113 | the listener draws one bubble per stored message, in stored order, marked sent exactly when the current user is the sender, with the text, time and sticker style carried over |
| Chat.RenderAppend | script.js:98-112 | one more message in the log means one more bubble at the bottom and no other change |
| Chat.RenderSidesSwap | script.js:100-102 | in a log written by two different people, each message is sent in one participant's view and received in the other's |
| Chat.OpenShowsConversation | script.js:88-113 | opening a conversation shows its whole stored log at once, and an empty pane for a pair nobody has written to |
| Chat.FromSticker | script.js:132 | `!!sticker`: no sticker is false, and every sticker of the picker counts as picked |
| Chat.MessageText | script.js:121 | the text is the picked sticker, or else the input with white space cut from both ends; it is empty exactly when no sticker is picked and the input is all white space |
| Chat.OpenSetsRecipient | script.js:71-123 | after `open(name)` the `!activeRecipient` guard (`Chat.RecipientSet`) lets a send through exactly when the name is non-empty, and the listener just attached is the watched one |
| Chat.Send | script.js:119-138 | the text is the sticker if one is given, else the trimmed input. Nothing is stored when that text is empty or no recipient is set. Otherwise exactly one message with this user as sender goes at the end of that conversation, every other conversation is unchanged, and the input is cleared |
| Chat.OpenThenSendSameConversation | script.js:89-126 | what is sent after opening a conversation lands in the conversation the listener watches |
| Chat.SendShowsOnOwnScreen | script.js:92-134 | a successful send adds one sent bubble at the bottom of the sender's pane and keeps the rest |
| Chat.PartnerSeesReceived | script.js:89-134 | the partner with the conversation open sees the same message added as a received bubble |
| Chat.StickerSendIgnoresInput | script.js:119-137 | a picked sticker is sent as itself and marked as a sticker, whatever is typed, and the typed text is cleared |
| Chat.SendKeepsValid | script.js:125-134 | sending keeps every stored message attributed to a registered sender, non-empty, and in one of the sender's conversations |
| Chat.Search | script.js:175-189 | the contact list holds one entry, the trimmed query, exactly when that query is non-empty and is not the current user's name; otherwise it holds none. With nobody logged in, a non-empty query throws, and the list has already been emptied |
| Chat.SearchOpenSend | script.js:180-186 | clicking the offered contact opens a conversation with someone else, and typed text is then delivered to that conversation |

## Left out

- Database I/O and its asynchrony. Each `onValue(..., {onlyOnce: true})` read and each `set(...).then` write is one synchronous step. A write the database rejects, which would leave the user not logged in, is not modelled.
- Listener lifetime: `listenMessages` never detaches its listener. After a second `open`, the first conversation's listener still redraws the pane whenever that conversation changes. The model tracks only the most recently attached listener (`Chat.Watched`).
- Database path semantics. A `/` in a name nests the record under another path. `.`, `#`, `$`, `[` and `]` in a name make `ref` throw. The model keys the directory and the logs by the whole string.
- The avatar lookup in `chat.open` (script.js:79-82), `ui.init`, `ui.toggleStickers`, the sticker picker construction and all DOM work: these only change the display. Message text is shown with `innerHTML` without escaping. The model treats it as plain text.
- Local storage (de)serialisation of the session and `location.reload`. These are modelled only through their effect on the state, as described above.
- `FileReader` avatar loading (script.js:192-199). The avatar is an opaque string.
- The message `time`. It comes from the clock and the locale, so it is an opaque parameter of `Chat.Send`.
- The order of push keys. Generated keys sort in push order, so a log is the sequence of pushed messages.
- Password hashing. The source compares plaintext passwords, and so does the model.
