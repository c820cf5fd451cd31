# RSAchat, modelled in Dafny

RSAchat is a two-party chat. The browser client (React) keeps one
WebSocket per signed-in user. Messages are encrypted by a REST endpoint
with the receiver's RSA public key, and the client shows a per-peer
preview table and toasts for new messages. The FastAPI backend stores
users and messages and relays each valid live frame. The frame goes to
the receiver's registered connection and is echoed to the sender.

This project models the client's message-sync logic, its small state
machines (socket hook, toast, login form, app shell, endpoint table) and
the backend's routes and receive loop. It proves what each of them
promises.

## How the model is organised

- `Wrappers.dfy`: `Option` and `Result`.
- `Text.dfy`: JavaScript `trim`, `String(n)` and base-ten `parseInt`. It proves the round trip `parseInt(String(n)) == n`.
- `Records.dfy`: the values both sides exchange, and the two shapes of the `userId` prop.
  - The prop is a number after a login and a string after a page reload.
  - `StrictEquals` is `===`.
  - `ParsedId` is `parseInt`.
- `Config.dfy`: the endpoint table, as concatenation of the two base URLs.
- `Dialog.dfy`: the pure parts of the chat component:
  - the dialog filters;
  - the stable sort by timestamp;
  - the duplicate test and the insertion of a live message;
  - the notification decision;
  - the preview table and its rebuild;
  - the send validation chain.
- `ChatView.dfy`: the chat component as a class. Its fields are the component's state, and each handler or effect body is one method. Fetch, encrypt and decrypt results are parameters.
- `SocketHook.dfy`: the WebSocket hook as a class. Sockets are numbered in creation order. The hook records which sockets were closed by a cleanup, which have fired their open and close events, and what `send` accepted. A `send` on a socket that is still connecting throws, as the WebSocket interface prescribes, and the hook does not catch it.
- `Notice.dfy`: a toast as a class with its two timers, and the slot arithmetic.
- `Storage.dfy`: `localStorage` as a map.
- `LoginForm.dfy`: the login form as a class. `handleLogin` is split at its two awaits into a phase machine, so that `isLoading == (phase != Idle)` is an invariant.
- `Session.dfy`: the app shell's restore, login and logout.
- `Server.dfy`: the backend as a class over in-memory tables with next-id counters, plus the registry of live connections and the frames sent.

## Modelling choices

- **Timestamps** are integers. The client's comparator `new Date(a) - new Date(b)` becomes `<=`, with a stable sort (`Dialog.SortByTime`).
- **Ids** are integers on the wire. The client's `userId` prop is `Records.IdProp`.
  - The history filter and the roster filter compare with `===`. While the prop is text, neither matches it: `Dialog.RestoredSessionLoadsNothing` and `Dialog.OtherPeersSelf`.
  - After a reload the text id is transient. The login form's mount effect looks up the saved nickname, and when the server answers, `onLogin` replaces the restored user by the server's object with its numeric id (`Session.ReloadSettlesOnServerUser`). A lookup that fails or never answers leaves the text id in place.
  - The live path uses `parseInt`, so it still works: `Records.RestoredIdAgrees`.
- **Text frames** are taken as already parsed (`Records.Frame`, `Server.InFrame`). Text that is not JSON is `Server.Undecodable` on the server side.
- **`onNewMessage`** is never passed by the app shell, so the chat component's notification becomes an output value of `ChatView.Chat.IngestFrame`.
- **The history load replaces** the dialog and the whole preview table. It does not merge with what was there (`ChatView.Chat.LoadHistory`).
- **Live previews overwrite.** A live frame overwrites its peer's preview, whatever its timestamp (`Dialog.LiveSummaryLastWriteWins`).
- **The login form's mount effect** logs in the saved nickname, untrimmed (`LoginForm.Login.Mount`). On a reload the form is the first screen. React runs a child's effects before its parent's, so this lookup starts before the app shell's restore sets the user. Its answer then calls `onLogin`, which sets the numeric id.
- **`handleDecryptMessage`** is defined but nothing in the component calls it. It is modelled as `ChatView.Chat.DecryptMessage` all the same.
- **The backend's nickname column** is `varchar(50)`. A longer nickname fails at commit, which FastAPI answers with 500, and nothing is stored.
- **Commit failures.** A message whose sender or receiver does not exist fails its commit on the foreign key. In the receive loop this ends the loop with one error frame.
- **Input-check errors in `/encrypt` and `/decrypt`.** The 400 `HTTPException` raised by an input check is caught by the generic `except Exception`. It comes back as 500 with detail `"Encryption failed: 400: …"`, because `str()` of the exception is status, a colon and the detail.

The code has none of the following, and neither has the model:

- reconnect with a fixed delay;
- a local echo of sent messages;
- a history load that merges and de-duplicates;
- de-duplicated toasts;
- an error when sending while disconnected;
- cancellation of late results after logout.

Several consequences of the code are proved:
- a send while disconnected is dropped silently (`SocketHook.WebSocketHook.SendMessage`);
- one frame re-raises its toast each time the effect re-runs (`Dialog.NotificationRepeatsOnReingest`);
- a late close of a superseded socket marks the hook disconnected (`SocketHook.StaleCloseDropsSends`);
- after a url change the connected flag stays set while the new socket is still connecting, so the next send throws and the chat shows the send error with the draft kept (`SocketHook.UrlChangeSendThrows`, `ChatView.Chat.SendMessage`);
- a superseded connection's disconnect unregisters the user (`Server.SupersededDisconnectUnregisters`);
- a clicked toast calls `onClose` twice when `onClose` leaves the toast mounted (`Notice.ClickedToastClosesTwice`); a parent that unmounts it on the first call clears the timer.

## Model

| member | source | states |
|---|---|---|
| Text.TrimStart | frontend/src/components/Login.js:61 | the result is a suffix of the input, everything dropped is white space, and it starts with a non-space |
| Text.TrimEnd | frontend/src/components/Login.js:61 | the result is a prefix of the input, everything dropped is white space, and it ends with a non-space |
| Text.Trim | frontend/src/components/Login.js:61 | no contract of its own: `s.trim()` drops the white space at both ends; `Text.TrimStart`, `Text.TrimEnd`, `Text.TrimEmptyIff` and `Text.TrimIdempotent` state what it keeps and drops |
| Text.TrimEmptyIff | frontend/src/components/Chat.js:205 | `s.trim()` is empty exactly when every character of `s` is white space |
| Text.TrimIdempotent | frontend/src/components/Login.js:61-62 | trimming a trimmed nickname changes nothing |
| Text.NatText | frontend/src/components/Login.js:29 | the decimal text of a number is non-empty, all digits, and starts with 0 only for 0 |
| Text.NatTextValue | frontend/src/components/Login.js:29 | the digits of `String(n)` have the value `n` |
| Text.IntText | frontend/src/components/Login.js:29 | no contract of its own: `String(n)` is a minus sign for a negative number followed by `Text.NatText` of its magnitude; `Text.ParseIntText` and `Text.IntTextInjective` state that it reads back and is one-to-one |
| Text.ParseInt | frontend/src/components/Chat.js:143 | no contract of its own: skips leading white space, reads one optional sign and the longest run of digits, NaN (None) without digits; its behaviour on ids is stated by `Text.ParseIntText` |
| Text.LeadingDigitsOfDigits | frontend/src/components/Chat.js:143 | `parseInt` reads a string of digits to its end |
| Text.ParseDigitsOfDigits | frontend/src/components/Chat.js:143 | a non-empty run of digits parses to its value |
| Text.ParseIntNoLeadingSpace | frontend/src/components/Chat.js:143 | text starting with a non-space is parsed from its first character |
| Text.ParseIntDigits | frontend/src/components/Chat.js:143 | `parseInt` of a digit string is its value |
| Text.ParseSignedMinus | frontend/src/components/Chat.js:143 | a leading minus negates what the digits parse to |
| Text.ParseIntNegativeDigits | frontend/src/components/Chat.js:143 | `parseInt("-" + d)` is minus the value of `d` |
| Text.ParseIntText | frontend/src/components/Chat.js:143 | `parseInt(String(n)) == n` for every integer, so a stored id reads back unchanged |
| Text.IntTextInjective | frontend/src/App.js:10-15 | distinct ids are stored as distinct texts |
| Records.StrictEquals | frontend/src/components/Chat.js:100 | no contract of its own: `number === prop`, true only for a numeric prop with the same value; `Records.RestoredIdAgrees` states that a text id never matches |
| Records.ParsedId | frontend/src/components/Chat.js:143 | no contract of its own: `parseInt(userId)`, the number itself or `parseInt` of the text; `Records.RestoredIdAgrees` states that both shapes parse to the id |
| Records.RestoredIdAgrees | frontend/src/App.js:14-17 | a restored text id parses and prints like the numeric id, but is never `===` to it |
| Config.DefaultBases | frontend/src/config.js:1-2 | unset or empty variables give `http://localhost/api` and `ws://localhost/ws` |
| Config.Users | frontend/src/config.js:5 | no contract of its own: the API base and `/users`; `Config.DefaultBases` and `Config.EndpointsUnderApiBase` state its value and shape |
| Config.UserCreate | frontend/src/config.js:6 | no contract of its own: the API base and `/users/create`; `Config.UnescapedArgumentsCollide` and `Config.EndpointsUnderApiBase` are about it |
| Config.UserByNickname | frontend/src/config.js:7 | no contract of its own: the API base, `/users/by-nickname/` and the nickname, unescaped; `Config.ArgumentIsTail` states the tail |
| Config.UserById | frontend/src/config.js:8 | no contract of its own: the API base, `/users/` and the id, unescaped; `Config.ArgumentIsTail` and `Config.UnescapedArgumentsCollide` are about it |
| Config.Messages | frontend/src/config.js:9 | no contract of its own: the API base, `/messages/` and the id; `Config.ArgumentIsTail` states the tail |
| Config.Encrypt | frontend/src/config.js:10 | no contract of its own: the API base and `/encrypt`; `Config.SetBaseUsedVerbatim` states its value for a set base |
| Config.Decrypt | frontend/src/config.js:11 | no contract of its own: the API base and `/decrypt`; `Config.EndpointsUnderApiBase` states its shape |
| Config.Ws | frontend/src/config.js:12 | no contract of its own: the WebSocket base, a slash and the id; `Config.WsIgnoresApiBase` and `Config.ArgumentIsTail` are about it |
| Config.SetBaseUsedVerbatim | frontend/src/config.js:1 | a set API variable is the base as given, and fixed endpoints append their literal suffix |
| Config.ArgumentIsTail | frontend/src/config.js:7-9 | the argument of each parameterised endpoint is exactly the tail of its URL, unescaped |
| Config.ArgumentInjective | frontend/src/config.js:7-12 | distinct arguments give distinct URLs for each parameterised endpoint |
| Config.UnescapedArgumentsCollide | frontend/src/config.js:6-8 | the id `create` spells the creation URL and `by-nickname/n` the lookup of `n` |
| Config.WsIgnoresApiBase | frontend/src/config.js:12 | the WebSocket URL is the WebSocket base, a slash and the id, and never depends on the API base |
| Config.EndpointsUnderApiBase | frontend/src/config.js:5-11 | every REST endpoint lies under the API base followed by a slash |
| Dialog.InsertByTimePermutes | frontend/src/components/Chat.js:160 | inserting a message adds it and loses nothing (multiset) |
| Dialog.SortByTimePermutes | frontend/src/components/Chat.js:103 | the timestamp sort is a permutation |
| Dialog.SortByTime | frontend/src/components/Chat.js:103 | no contract of its own: the stable timestamp sort as repeated insertion; `Dialog.SortByTimeSorted`, `Dialog.SortByTimePermutes` and `Dialog.SortByTimeStable` state what it does |
| Dialog.InsertByTimeSorted | frontend/src/components/Chat.js:160 | insertion into a sorted list keeps it sorted by timestamp |
| Dialog.InsertByTimeAtTime | frontend/src/components/Chat.js:160 | insertion keeps messages with equal timestamps in order and places the new one last among them |
| Dialog.SortByTimeSorted | frontend/src/components/Chat.js:103 | the sort's result is ordered by non-decreasing timestamp |
| Dialog.SortByTimeStable | frontend/src/components/Chat.js:103 | the sort is stable: each timestamp's messages keep their input order |
| Dialog.SortedSortIsIdentity | frontend/src/components/Chat.js:160 | sorting a sorted list changes nothing |
| Dialog.AppendThenSort | frontend/src/components/Chat.js:160 | `[...prev, m].sort(...)` on a sorted `prev` is the insertion of `m` |
| Dialog.HistoryDialogCounts | frontend/src/components/Chat.js:98-102 | the dialog filter keeps each message between the two users as often as fetched, and nothing else |
| Dialog.LoadedDialog | frontend/src/components/Chat.js:98-104 | no contract of its own: the dialog filter followed by the sort; `Dialog.LoadedDialogSpec` states the result |
| Dialog.LoadedDialogSpec | frontend/src/components/Chat.js:98-104 | after a load the dialog is exactly the fetched messages between user and peer, in either direction, sorted, and stable on ties |
| Dialog.RestoredSessionLoadsNothing | frontend/src/components/Chat.js:98-102 | with a text id (restored session) the history filter keeps no message |
| Dialog.HasDuplicate | frontend/src/components/Chat.js:148-154 | true exactly when some entry shares the id or the (sender, receiver, content, timestamp) tuple |
| Dialog.LiveMessages | frontend/src/components/Chat.js:143-161 | no contract of its own: the `setMessages` updater for a live frame; `Dialog.LiveMessagesContents`, `Dialog.LiveMessagesSorted` and `Dialog.LiveMessagesIdempotent` state what it does |
| Dialog.LiveMessagesContents | frontend/src/components/Chat.js:143-161 | a live message is added exactly when it belongs to the dialog and has no duplicate; otherwise the list is unchanged |
| Dialog.LiveMessagesSorted | frontend/src/components/Chat.js:160 | the dialog stays sorted after a live frame |
| Dialog.LiveMessagesStable | frontend/src/components/Chat.js:160 | an added live message lands after the existing entries with its timestamp, and they keep their order |
| Dialog.LiveMessagesKeepsIdsDistinct | frontend/src/components/Chat.js:148-160 | a dialog with distinct ids keeps distinct ids after a live frame |
| Dialog.LiveMessagesIdempotent | frontend/src/components/Chat.js:146-161 | ingesting the same frame twice leaves the dialog as after once |
| Dialog.PresentMessageNotAdded | frontend/src/components/Chat.js:148-158 | a message already present by id or tuple is not added again |
| Dialog.OtherPeers | frontend/src/components/Chat.js:56 | the roster holds exactly the directory entries not `===` to the user's id |
| Dialog.OtherPeersSelf | frontend/src/components/Chat.js:56 | with a numeric id the user is not in their own roster; with a text id the whole directory is kept |
| Dialog.OtherPeersText | frontend/src/components/Chat.js:56 | the `!==` filter with a text id keeps every entry |
| Dialog.OtherPeersAppend | frontend/src/components/Chat.js:56 | the filter keeps directory order: filtering a concatenation is concatenating the filtered halves |
| Dialog.FindPeer | frontend/src/components/Chat.js:218 | `find` answers some entry exactly when one has the id, and then the first such entry |
| Dialog.HasId | frontend/src/components/Chat.js:170 | true exactly when some message has the id |
| Dialog.NotifyDecision | frontend/src/components/Chat.js:166-178 | a toast is raised exactly when the message is to the user, not from the selected peer, from a roster member, and its id is not in the dialog; it carries the message and that member's nickname |
| Dialog.NoNotificationFromOpenPeer | frontend/src/components/Chat.js:166 | a message from the open dialog's peer never raises a toast |
| Dialog.NoNotificationForOwnMessage | frontend/src/components/Chat.js:166 | a message the user sent to someone else never raises a toast |
| Dialog.NotificationRepeatsOnReingest | frontend/src/components/Chat.js:143-179 | a frame that raises a toast is not added to the dialog, so re-running the effect raises the same toast again |
| Dialog.SenderLabel | frontend/src/components/Chat.js:184-191 | the sender's nickname when the sender is in the roster, else 'Неизвестный отправитель' |
| Dialog.LatestFirstUnique | frontend/src/components/Chat.js:112 | at most one message is the earliest of the latest for a peer |
| Dialog.HistoryOf | frontend/src/components/Chat.js:107-122 | no contract of its own: the preview table a history load builds; `Dialog.HistoryOfSpec` states it |
| Dialog.HistoryOfSpec | frontend/src/components/Chat.js:107-122 | the rebuilt table has a key for exactly the peers the fetched messages involve, each holding the preview of its latest message, the first fetched winning ties |
| Dialog.HistoryOfKeys | frontend/src/components/Chat.js:107-109 | the rebuilt table's keys are exactly the peers of the fetched messages |
| Dialog.HistoryOfLatest | frontend/src/components/Chat.js:112-118 | every key holds the preview of the earliest latest message for that peer |
| Dialog.HistoryOfLatestAt | frontend/src/components/Chat.js:112-118 | the same for one key, naming the message |
| Dialog.LatestFirstExtend | frontend/src/components/Chat.js:112 | appending a message not later than the latest keeps the latest, because the comparison is strict |
| Dialog.LiveSummaryFrame | frontend/src/components/Chat.js:182-195 | every message frame sets its peer's preview to its own fields and leaves every other key untouched |
| Dialog.LiveSummary | frontend/src/components/Chat.js:182-195 | no contract of its own: the `setChatHistory` updater for a live frame; `Dialog.LiveSummaryFrame` states it |
| Dialog.LiveSummaryAgreesWithRebuild | frontend/src/components/Chat.js:107-122 | a live frame later than every fetched message for its peer gives the table a fresh rebuild would |
| Dialog.LiveSummaryLastWriteWins | frontend/src/components/Chat.js:182-195 | an older live frame still overwrites the preview, unlike a rebuild |
| Dialog.WithPreview | frontend/src/components/Chat.js:232-239 | the key's ciphertext and plaintext are replaced, its sender and timestamp kept (absent for a new key), other keys untouched |
| Dialog.SendCheck | frontend/src/components/Chat.js:205-227 | the errors in source order (blank text, no recipient, recipient not in roster, recipient without key), each exactly when the earlier checks pass and it fails; success gives the selected roster entry |
| Dialog.RebuildHistory | frontend/src/components/Chat.js:107-120 | the `forEach` loop builds the table whose keys are the peers of all fetched messages, each with its latest message's preview |
| ChatView.Chat.constructor | frontend/src/components/Chat.js:8-21 | the initial state, with the hook opened on `WS(userId)` |
| ChatView.Chat.ApplyRoster | frontend/src/components/Chat.js:48-79 | the roster is the directory without the user's own entry (numeric id only), and the keys are set; nothing else changes |
| ChatView.Chat.RosterFailed | frontend/src/components/Chat.js:80-83 | a failed roster fetch sets only the error |
| ChatView.Chat.SelectUser | frontend/src/components/Chat.js:287-290 | selecting a peer sets the selection and clears the error |
| ChatView.Chat.RouteSelect | frontend/src/components/Chat.js:41-46 | a non-empty route segment selects its `parseInt` (None for NaN, which acts as no selection); an absent or empty one changes nothing; the error is never touched |
| ChatView.Chat.EditDraft | frontend/src/components/Chat.js:437-440 | typing replaces the draft and clears the error |
| ChatView.Chat.LoadHistory | frontend/src/components/Chat.js:90-134 | with no selection the dialog is emptied and nothing is fetched; a fetched list replaces the dialog by its filtered sorted part and the whole table by a rebuild; a failed fetch changes nothing |
| ChatView.Chat.IngestFrame | frontend/src/components/Chat.js:136-198 | no frame or an error frame changes nothing; a message frame updates the dialog by the insertion rule, always overwrites its peer's preview, and yields the toast decision |
| ChatView.Chat.SendMessage | frontend/src/components/Chat.js:204-254 | a failed check sets its error and makes no encrypt or send call; a failed encryption sets the send error; after a successful encryption the preview is updated and the payload handed to the hook (dropped when disconnected); a throwing `send` sets the send error and keeps the draft, otherwise the draft is cleared; the dialog is left as it was |
| ChatView.Chat.Dispatch | frontend/src/components/Chat.js:231-253 | the preview takes the ciphertext and the draft; a throwing `send` sets the send error and keeps the draft; otherwise the payload is transmitted when the gate is open and the draft is cleared |
| ChatView.Chat.DecryptMessage | frontend/src/components/Chat.js:256-281 | without a private key the error is 'У вас нет приватного ключа для расшифровки', the placeholder is returned and no service call is made; a failed decryption returns the placeholder and shows it as the error; otherwise the plaintext enters the sender's preview and is returned |
| SocketHook.WebSocketHook.constructor | frontend/src/hooks/useWebSocket.js:4-6 | initially no socket, not connected, no last frame |
| SocketHook.WebSocketHook.Mount | frontend/src/hooks/useWebSocket.js:8-23 | the first effect run creates a socket for the url and makes it current |
| SocketHook.WebSocketHook.ChangeUrl | frontend/src/hooks/useWebSocket.js:8-28 | the same url changes nothing (no reopen); a new url closes the current socket and opens one for it |
| SocketHook.WebSocketHook.Unmount | frontend/src/hooks/useWebSocket.js:25-27 | unmounting closes the current socket, so every socket created is closed |
| SocketHook.WebSocketHook.OnOpen | frontend/src/hooks/useWebSocket.js:11-13 | an open event sets the connected flag and marks that socket as opened |
| SocketHook.WebSocketHook.OnClose | frontend/src/hooks/useWebSocket.js:15-17 | a close event, from any socket, clears the connected flag and marks that socket as closed |
| SocketHook.WebSocketHook.OnMessage | frontend/src/hooks/useWebSocket.js:19-21 | the newest frame replaces the last one; nothing is queued |
| SocketHook.WebSocketHook.SendMessage | frontend/src/hooks/useWebSocket.js:30-37 | with no socket or the flag clear the payload is silently dropped; otherwise `send` throws exactly when the current socket is still connecting (neither opened nor closed), transmitting nothing, and else transmits the payload on it |
| SocketHook.StaleCloseDropsSends | frontend/src/hooks/useWebSocket.js:8-37 | an old socket closing after the new one opened leaves the hook disconnected with an open socket, and the next send is dropped |
| SocketHook.UrlChangeSendThrows | frontend/src/hooks/useWebSocket.js:8-37 | once the first socket has opened, a url change keeps the flag set while the new socket connects, so the gate is open, `send` throws and nothing is transmitted |
| Notice.BottomPositionSpacing | frontend/src/components/Notification.js:31 | card offsets strictly increase with the index, exactly 80 px per slot |
| Notice.BottomPositionFloor | frontend/src/components/Notification.js:31 | the first card sits 20 px up and no card with a non-negative index sits lower |
| Notice.BottomPosition | frontend/src/components/Notification.js:31 | no contract of its own: 20 px plus 80 px per index; `Notice.BottomPositionSpacing` and `Notice.BottomPositionFloor` state its properties |
| Notice.ChatPathInjective | frontend/src/components/Notification.js:24 | the navigation target names the sender and no one else |
| Notice.ChatPath | frontend/src/components/Notification.js:24 | no contract of its own: `/chat/` and the sender's id; `Notice.ChatPathInjective` and `Notice.ChatPathSegment` state its properties |
| Notice.ChatPathSegment | frontend/src/components/Notification.js:24 | the target starts with `/chat/` and its `:userId` segment reads back, through `parseInt`, as the sender's id, which the route effect then selects |
| Notice.Notification.constructor | frontend/src/components/Notification.js:5-12 | a new toast is visible with the 5000 ms timer armed |
| Notice.Notification.Click | frontend/src/components/Notification.js:17-25 | a click hides the card, calls `onClose` once and schedules the navigation in 100 ms |
| Notice.Notification.Elapse | frontend/src/components/Notification.js:9-12 | a due 5000 ms timer hides the card and calls `onClose`; a due navigation timer navigates to `/chat/{sender_id}` |
| Notice.Notification.OnCloseChanged | frontend/src/components/Notification.js:8-15 | a new `onClose` clears the pending timer and arms a fresh 5000 ms one |
| Notice.Notification.Unmount | frontend/src/components/Notification.js:14 | unmounting clears the 5000 ms timer |
| Notice.UntouchedToastCloses | frontend/src/components/Notification.js:9-12 | after 5000 ms untouched the toast renders nothing and has called `onClose` once |
| Notice.ClickedToastClosesTwice | frontend/src/components/Notification.js:9-25 | a click and then 5000 ms give one navigation and two `onClose` calls |
| Storage.LocalStore.constructor | frontend/src/App.js:10-11 | the store starts with the given items |
| Storage.LocalStore.GetItem | frontend/src/App.js:10-11 | no contract of its own: the stored text, or None (`null`) for a missing key; the writes' contracts are stated on `items` |
| Storage.LocalStore.SetItem | frontend/src/components/Login.js:28-29 | a write sets that key only |
| Storage.LocalStore.RemoveItem | frontend/src/App.js:26-27 | a removal drops that key only |
| LoginForm.ThrownText | frontend/src/components/Login.js:53 | the shown error is the thrown message, or 'Произошла ошибка при входе в систему' exactly when it is empty |
| LoginForm.RejectionText | frontend/src/components/Login.js:41-44 | a rejected create shows the server's `detail`, or 'Не удалось создать пользователя' when it is empty |
| LoginForm.Login.constructor | frontend/src/components/Login.js:5-7 | empty nickname and error, not loading |
| LoginForm.Login.StartLogin | frontend/src/components/Login.js:17-23 | loading starts, the error is cleared and the lookup of the nickname is requested |
| LoginForm.Login.Mount | frontend/src/components/Login.js:9-15 | a truthy saved nickname is looked up as stored; otherwise nothing happens |
| LoginForm.Login.Edit | frontend/src/components/Login.js:87-90 | typing replaces the nickname and clears the error |
| LoginForm.Login.Submit | frontend/src/components/Login.js:59-66 | a blank nickname sets 'Введите никнейм' and requests nothing; otherwise the trimmed nickname is looked up |
| LoginForm.Login.Finish | frontend/src/components/Login.js:28-30 | both keys are stored, then the user is logged in, and loading ends |
| LoginForm.Login.LookupDone | frontend/src/components/Login.js:25-53 | a found user is stored and logged in with no create call; a response that is not ok requests the create; a thrown error shows its text and stores nothing |
| LoginForm.Login.CreateDone | frontend/src/components/Login.js:41-56 | a created user is stored and logged in; a rejection or a thrown error shows its text, stores nothing and logs nobody in; loading ends on every path |
| Session.App.constructor | frontend/src/App.js:6 | no user at first |
| Session.App.CurrentScreen | frontend/src/App.js:31-49 | no contract of its own: the login form without a user, else the chat with the user's id and nickname; `Session.App.HandleLogin` and `Session.App.Logout` state the screens they lead to |
| Session.App.Restore | frontend/src/App.js:8-19 | a user appears only when both keys are truthy, with the stored text as its id; otherwise nothing changes |
| Session.App.HandleLogin | frontend/src/App.js:21-23 | the user becomes exactly the server's user, and the chat screen gets its id and nickname |
| Session.App.Logout | frontend/src/App.js:25-33 | both keys are removed, every other key kept, and the login screen is shown |
| Session.ReloadAfterLogin | frontend/src/App.js:10-17 | right after a login and a reload the restored id is the text of the number: it parses back but is not `===` |
| Session.ReloadSettlesOnServerUser | frontend/src/components/Login.js:9-30 | on a reload, the restore first shows the stored text id, then the mount effect's lookup answer calls `onLogin` and the shell settles on the server's user with its numeric id, `===` to the number |
| Session.ReloadAfterLogout | frontend/src/App.js:25-33 | after a logout a reload shows the login screen |
| Server.FindFirst | backend/app/main.py:85-92 | `query(User).filter(cond).first()`: a row is found exactly when some row meets the condition, and it is the first such row |
| Server.InvolvingCounts | backend/app/main.py:115-117 | the query filter keeps each message of the user as often as stored, and nothing else |
| Server.Involving | backend/app/main.py:115-117 | no contract of its own: the `or_` filter of the messages query; `Server.InvolvingCounts` states it |
| Server.Reverse | backend/app/main.py:118 | the result is the input read backwards |
| Server.ReversePermutes | backend/app/main.py:118 | reversing is a permutation |
| Server.ValidateFrame | backend/app/main.py:188-207 | content, then ciphertext, then receiver id (0 counts as missing), each error exactly when the earlier checks pass and it fails |
| Server.Delivery | backend/app/main.py:225-237 | no contract of its own: one frame to the receiver's registered connection, none when unregistered; `Server.Outgoing` states it |
| Server.Guarded | backend/app/main.py:121-135 | no contract of its own: the shared body of both crypto routes; `Server.EncryptText`, `Server.DecryptText` and `Server.InputChecksPrecedeCrypto` state it |
| Server.BadRequestText | backend/app/main.py:125 | a 400 exception prints as `400: detail` |
| Server.EncryptText | backend/app/main.py:121-135 | an empty key or text yields 500 "Encryption failed: 400: …"; otherwise the crypto result, 400 on `ValueError`, 500 on any other failure |
| Server.DecryptText | backend/app/main.py:137-151 | the same rule for decryption |
| Server.InputChecksPrecedeCrypto | backend/app/main.py:123-127 | with an empty key or input the answer is a 500 and does not depend on the crypto call |
| Server.StoredCount | backend/app/main.py:183-222 | counts the inputs that store a message, at most the number of inputs |
| Server.Consumed | backend/app/main.py:183-259 | the loop consumes at least one input when any is left, and no more than are left |
| Server.ConsumedSpec | backend/app/main.py:183-259 | no consumed input before the last ends the loop, and when inputs are left the last consumed one did |
| Server.Rows | backend/app/main.py:211-220 | one row exactly when the input stores a message, with the next id, the URL's user as sender and the frame's fields |
| Server.Outgoing | backend/app/main.py:188-259 | no contract of its own: the frames one input sends, in order; `Server.OutgoingSpec` states them |
| Server.OutgoingSpec | backend/app/main.py:188-259 | a stored message is relayed to the receiver's registered connection, if any, and then echoed to the sender, both carrying the row stored; every other input but a disconnect sends exactly one error frame to the sender, with the validation's text or the failure text; a disconnect sends nothing; every frame goes to the sender or a registered connection |
| Server.LoopRows | backend/app/main.py:183-222 | the rows the consumed inputs store, in order: as many as storing inputs, with consecutive ids from the first and the URL's user as sender |
| Server.LoopFrames | backend/app/main.py:183-259 | no contract of its own: the frames the consumed inputs send, each input's `Server.Outgoing` in input order |
| Server.LoopFramesDestinations | backend/app/main.py:183-259 | every frame the loop sends goes to the sender's own connection or to a registered connection |
| Server.LoopRowsStep | backend/app/main.py:183-222 | one more input extends the loop's rows and the id count by exactly its own |
| Server.LoopFramesStep | backend/app/main.py:183-259 | one more input extends the loop's frames by exactly its own |
| Server.AddUserKeeps | backend/app/main.py:164-171 | adding a user with the next id and a fresh fitting nickname keeps both tables well formed |
| Server.AddMessageKeeps | backend/app/main.py:212-219 | appending a message with the next id between existing users keeps the messages table well formed |
| Server.Backend.constructor | backend/app/main.py:29 | empty tables and registry, ids start at 1 |
| Server.Backend.ReadUser | backend/app/main.py:83-88 | the user exactly when the id exists, else 404 'User not found' |
| Server.Backend.UserByNickname | backend/app/main.py:90-95 | the user exactly when the nickname exists, else 404 'User not found' |
| Server.Backend.UserMessages | backend/app/main.py:113-119 | exactly the messages the user sent or received, as often as stored, newest first |
| Server.Backend.InsertUser | backend/app/main.py:164-173 | a nickname over 50 characters fails with 500 and adds nothing; otherwise the user is added with the next id |
| Server.Backend.CreateUser | backend/app/main.py:61-76 | a taken nickname is refused with 400 and nothing added; otherwise it succeeds exactly when the nickname fits, the table grows by the new user and the next id advances by one; on failure the table and the counter are unchanged |
| Server.Backend.CreateUserWithKeys | backend/app/main.py:153-173 | the same rule, storing the generated key pair |
| Server.Backend.InsertMessage | backend/app/main.py:211-220 | stored with the next id exactly when sender and receiver exist; otherwise nothing changes |
| Server.Backend.CreateMessage | backend/app/main.py:97-111 | stored with the query's sender and the next id, which then advances by one, when both ends exist; else 500, nothing stored and the counter unchanged |
| Server.Backend.Connect | backend/app/main.py:179 | the connection is registered for the user, replacing any earlier one |
| Server.Backend.HandleFrame | backend/app/main.py:185-250 | a rejected frame gets one error frame, stores nothing and the loop goes on; a valid frame is stored with the URL's user as sender, relayed to the receiver if registered and echoed identically; a failed commit sends one error frame and ends the loop |
| Server.Backend.Receive | backend/app/main.py:183-259 | one pass: a disconnect removes the user's entry and sends nothing; text that is not JSON sends one error frame, ends the loop and leaves the entry; messages grow by the input's row and the outbox by the input's frames |
| Server.Backend.ReceiveNext | backend/app/main.py:184-250 | one pass stated in the loop's terms: tables holding the first `n` inputs' rows and frames come to hold the first `n + 1` inputs' |
| Server.Backend.ReceiveLoop | backend/app/main.py:182-259 | consumes the inputs up to the first that ends it; the messages table grows by exactly the consumed inputs' rows and the outbox by their frames, in order; the next id advances by the rows stored; only a final disconnect touches the registry |
| Server.Backend.Serve | backend/app/main.py:176-259 | the endpoint registers the connection and runs the loop; rows and frames as for the loop, relays seeing the new registration; the entry stays unless the loop ended on a disconnect |
| Server.SupersededDisconnectUnregisters | backend/app/main.py:179-254 | when the older of two connections of a user disconnects, the user is unregistered and no relay reaches the newer one |

## Left out

- The handlers' `console.error` calls, and the `generate_key_pair`, `encrypt_message` and `decrypt_message` routines: the crypto routines are foreign code, given to `Server.EncryptText` and `Server.DecryptText` as a parameter. `POST /generate-keys` is not modelled.
- `frontend/src/utils/rsa.js`: the client's encrypt and decrypt calls are the parameters `encryption` and `decryption`. That file fetches `http://localhost/api/encrypt` directly instead of the configured base; this is not modelled.
- `backend/app/database.py`, `backend/app/metrics.py`, `backend/app/load_test.py`: connection plumbing, counters and a load generator, with no behaviour of the core.
- `GET /metrics`, `GET /` and `GET /users` (`read_users` with skip and limit): the roster fetch is modelled on the client side only, as the directory passed to `ChatView.Chat.ApplyRoster`.
- Request-body validation by pydantic (422 answers) and the JSON encoding of frames. Frames are modelled as parsed values.
- JSX rendering, `scrollIntoView`, the keys toggle, the `navigate` call of `handleUserSelect` and the rendered message filter (Chat.js:364-365).
- The `chatState_${userId}` save and restore effects (Chat.js:23-39): that key of the same `localStorage` that `Storage.LocalStore` models is not modelled, nor the JSON round trip of the selection and the preview table through it.
- React scheduling and async interleaving: each handler step is atomic, and fetch results arrive as parameters.
- Server.Backend.ReceiveLoop: the contract describes a loop with no other connection running between its passes. In the server each pass awaits `receive_text` and the sends, so other connections' loops may insert rows, register and unregister in between; one connection's rows need not then be contiguous, and a relay can see a changed registry. Such interleavings are expressed by calling `Server.Backend.Receive` and `Server.Backend.Connect` step by step.
- Server.Backend.Serve: the same assumption as for `Server.Backend.ReceiveLoop`, that the loop runs with no other connection between its passes.
- `wsError`: the hook returns no error field, so the chat component's WebSocket error line never renders. The model's hook has no such field.
- `Date` parsing and ISO timestamps: timestamps are integers compared exactly.
- Hexadecimal and other radix prefixes of `parseInt`: ids are decimal, so `Text.ParseInt` reads base ten only.
- A failed `send_text` to the receiver's connection (a closed socket raises inside the loop): the relay is assumed to succeed.
- Message and user ids that a failed insert consumes from the sequence: the model advances the counter only on success.
- Calling the missing `onNewMessage` prop throws a `TypeError` in the effect. The model returns the event instead (`ChatView.Chat.IngestFrame`).
- Server.Backend.UserMessages: the order among equal timestamps is left open, as the SQL query leaves it.
- Server.EncryptText: for a crash of the crypto call only the status 500 is stated, not the detail text.
- Server.DecryptText: for a crash of the crypto call only the status 500 is stated, not the detail text.
