/**
 * The chat component as a state machine. Each handler and each effect body
 * is one atomic step; what a fetch or the encrypt and decrypt services
 * answer is passed in as a parameter.
 */
module ChatView {
  import opened Wrappers
  import opened Records
  import opened Dialog
  import Text
  import Config
  import SocketHook

  /** What the history fetch produced: a JSON list, a response that is not ok, or a thrown error. */
  datatype HistoryResponse = Fetched(all: seq<Message>) | NotOk | Unreachable

  class Chat {
    const env: Config.Env
    const userId: IdProp
    const nickname: string
    const socket: SocketHook.WebSocketHook
    var messages: seq<Message>
    var users: seq<Peer>
    var selectedUser: Option<int>
    var draft: string
    var publicKey: Option<string>
    var privateKey: Option<string>
    var chatHistory: map<int, Summary>
    var error: string

    /** The open dialog is kept sorted by timestamp. */
    ghost predicate Valid()
      reads this`messages
    {
      Sorted(messages)
    }

    /** The first render, with the live-channel hook opened on `WS(userId)`. */
    constructor (env: Config.Env, userId: IdProp, nickname: string)
      ensures Valid()
      ensures this.env == env && this.userId == userId && this.nickname == nickname
      ensures messages == [] && users == [] && selectedUser == None && draft == ""
      ensures publicKey == Some("") && privateKey == Some("") && chatHistory == map[] && error == ""
      ensures fresh(socket) && socket.Valid() && socket.url == Config.Ws(env, IdText(userId))
      ensures socket.socket == None && !socket.isConnected && socket.lastMessage == None
    {
      this.env := env;
      this.userId := userId;
      this.nickname := nickname;
      socket := new SocketHook.WebSocketHook(Config.Ws(env, IdText(userId)));
      messages := [];
      users := [];
      selectedUser := None;
      draft := "";
      publicKey := Some("");
      privateKey := Some("");
      chatHistory := map[];
      error := "";
    }

    /**
     * The roster fetch succeeded. Each directory entry carries the key its
     * own lookup returned (null when that lookup threw); the user's own
     * entry is dropped by the `!==` filter only when the id is a number.
     */
    method ApplyRoster(directory: seq<Peer>, ownPublic: Option<string>, ownPrivate: Option<string>)
      requires Valid()
      modifies this
      ensures Valid()
      ensures forall p :: p in users <==> p in directory && !StrictEquals(p.id, userId)
      ensures users == OtherPeers(directory, userId)
      ensures publicKey == ownPublic && privateKey == ownPrivate
      ensures messages == old(messages) && selectedUser == old(selectedUser) && draft == old(draft)
      ensures chatHistory == old(chatHistory) && error == old(error)
    {
      users := OtherPeers(directory, userId);
      publicKey := ownPublic;
      privateKey := ownPrivate;
    }

    /** The roster fetch threw: only the error changes. */
    method RosterFailed()
      requires Valid()
      modifies this`error
      ensures Valid() && error == ErrRosterFailed
    {
      error := ErrRosterFailed;
    }

    /** A click on a roster entry selects that peer and clears the error. */
    method SelectUser(id: int)
      requires Valid()
      modifies this`selectedUser, this`error
      ensures Valid() && selectedUser == Some(id) && error == ""
    {
      selectedUser := Some(id);
      error := "";
    }

    /**
     * The route-parameter effect: a non-empty `:userId` segment selects
     * `parseInt` of it. Text with no leading digits gives NaN, written None:
     * like no selection, it is falsy and `===` to no id. Unlike a click, the
     * effect leaves the error as it was.
     */
    method RouteSelect(routeUserId: Option<string>)
      requires Valid()
      modifies this`selectedUser
      ensures Valid() && error == old(error)
      ensures routeUserId.Some? && routeUserId.value != "" ==> selectedUser == Text.ParseInt(routeUserId.value)
      ensures !(routeUserId.Some? && routeUserId.value != "") ==> selectedUser == old(selectedUser)
    {
      if routeUserId.Some? && routeUserId.value != "" {
        selectedUser := Text.ParseInt(routeUserId.value);
      }
    }

    /** Typing replaces the draft and clears the error. */
    method EditDraft(text: string)
      requires Valid()
      modifies this`draft, this`error
      ensures Valid() && draft == text && error == ""
    {
      draft := text;
      error := "";
    }

    /**
     * The history effect. With no truthy selection the dialog is emptied and
     * nothing is fetched (`request` is None). Otherwise `MESSAGES(userId)` is
     * fetched; a list replaces the dialog by its filtered, sorted part and
     * replaces the whole preview table by a rebuild over every fetched
     * message; a failed fetch changes nothing.
     */
    method LoadHistory(response: HistoryResponse) returns (request: Option<string>)
      requires Valid()
      modifies this`messages, this`chatHistory
      ensures Valid()
      ensures !Truthy(old(selectedUser)) ==> request == None && messages == [] && chatHistory == old(chatHistory)
      ensures Truthy(old(selectedUser)) ==> request == Some(Config.Messages(env, IdText(userId)))
      ensures Truthy(old(selectedUser)) && response.Fetched? ==>
                && messages == LoadedDialog(response.all, userId, selectedUser.value)
                && chatHistory == HistoryOf(response.all, userId, users)
      ensures Truthy(old(selectedUser)) && !response.Fetched? ==>
                messages == old(messages) && chatHistory == old(chatHistory)
    {
      if !Truthy(selectedUser) {
        messages := [];
        return None;
      }
      request := Some(Config.Messages(env, IdText(userId)));
      if response.Fetched? {
        var peer := selectedUser.value;
        SortByTimeSorted(HistoryDialog(response.all, userId, peer));
        messages := SortByTime(HistoryDialog(response.all, userId, peer));
        chatHistory := RebuildHistory(response.all, userId, users);
      }
    }

    /**
     * The live-frame effect, run on the hook's current `lastMessage`. A
     * missing frame or an error frame changes nothing. A message frame is
     * added to the dialog when it belongs there and is not a duplicate,
     * overwrites its peer's preview in every case, and yields the
     * `onNewMessage` argument when the notification rule, applied to the
     * dialog as it was before this frame, admits it.
     */
    method IngestFrame() returns (notified: Option<NewMessageEvent>)
      requires Valid()
      modifies this`messages, this`chatHistory
      ensures Valid()
      ensures !(socket.lastMessage.Some? && socket.lastMessage.value.MessageFrame?) ==>
                notified == None && messages == old(messages) && chatHistory == old(chatHistory)
      ensures socket.lastMessage.Some? && socket.lastMessage.value.MessageFrame? ==>
                var m := socket.lastMessage.value.data;
                && messages == LiveMessages(old(messages), m, userId, selectedUser)
                && notified == NotifyDecision(old(messages), m, userId, selectedUser, users)
                && chatHistory == LiveSummary(old(chatHistory), m, userId, users)
    {
      notified := None;
      if socket.lastMessage.None? || socket.lastMessage.value.ErrorFrame? {
        return;
      }
      var m := socket.lastMessage.value.data;
      var prev := messages;
      if InLiveDialog(m, userId, selectedUser) && !HasDuplicate(prev, m) {
        AppendThenSort(prev, m);
        InsertByTimeSorted(prev, m);
        messages := SortByTime(prev + [m]);
      }
      notified := NotifyDecision(prev, m, userId, selectedUser, users);
      chatHistory := chatHistory[LiveKey(m, userId) := SummaryOf(m, users)];
    }

    /**
     * The send handler with the encrypt service's answer `encryption`. The
     * checks run in order and the first failure sets its error and stops
     * before any encrypt call (`request` is None). When they pass, the
     * untrimmed draft and the peer's key go to the encrypt service; if it
     * fails only the error is set, otherwise the peer's preview takes the
     * ciphertext and the draft and the payload is handed to the hook, which
     * drops it when disconnected. When the hook's `send` throws (its socket
     * is still connecting) the catch sets the send error and the draft is
     * kept; otherwise the draft is cleared. The dialog is left as it was.
     */
    method SendMessage(encryption: Result<string, string>) returns (request: Option<(string, string)>)
      requires Valid() && socket.Valid()
      modifies this`chatHistory, this`draft, this`error, socket`transmitted
      ensures Valid() && socket.Valid()
      ensures messages == old(messages)
      ensures SendCheck(old(draft), selectedUser, users).Err? ==>
                && request == None && error == SendCheck(old(draft), selectedUser, users).error
                && draft == old(draft) && chatHistory == old(chatHistory)
                && socket.transmitted == old(socket.transmitted)
      ensures SendCheck(old(draft), selectedUser, users).Ok? ==>
                var key := SendCheck(old(draft), selectedUser, users).value.publicKey.value;
                request == Some((old(draft), key))
      ensures SendCheck(old(draft), selectedUser, users).Ok? && encryption.Err? ==>
                && error == ErrSendFailed && draft == old(draft) && chatHistory == old(chatHistory)
                && socket.transmitted == old(socket.transmitted)
      ensures SendCheck(old(draft), selectedUser, users).Ok? && encryption.Ok? ==>
                chatHistory == WithPreview(old(chatHistory), selectedUser.value, encryption.value, old(draft))
      ensures SendCheck(old(draft), selectedUser, users).Ok? && encryption.Ok? && old(socket.SendThrows()) ==>
                && error == ErrSendFailed && draft == old(draft)
                && socket.transmitted == old(socket.transmitted)
      ensures SendCheck(old(draft), selectedUser, users).Ok? && encryption.Ok? && !old(socket.SendThrows()) ==>
                var payload := Payload(old(draft), encryption.value, selectedUser.value, userId);
                && error == "" && draft == ""
                && socket.transmitted == old(socket.transmitted)
                                         + (if old(socket.CanSend()) then [(socket.socket.value, payload)] else [])
    {
      request := None;
      match SendCheck(draft, selectedUser, users)
      case Err(e) =>
        error := e;
      case Ok(receiver) =>
        error := "";
        request := Some((draft, receiver.publicKey.value));
        match encryption
        case Err(_) =>
          error := ErrSendFailed;
        case Ok(encrypted) =>
          Dispatch(selectedUser.value, encrypted);
    }

    /**
     * The part of the send handler after a successful encryption: the
     * peer's preview takes the ciphertext and the draft, then the payload is
     * handed to the hook. A throw from `send` sets the send error and keeps
     * the draft; otherwise the draft is cleared.
     */
    method Dispatch(peer: int, encrypted: string)
      requires socket.Valid()
      modifies this`chatHistory, this`draft, this`error, socket`transmitted
      ensures socket.Valid()
      ensures chatHistory == WithPreview(old(chatHistory), peer, encrypted, old(draft))
      ensures old(socket.SendThrows()) ==>
                error == ErrSendFailed && draft == old(draft) && socket.transmitted == old(socket.transmitted)
      ensures !old(socket.SendThrows()) ==>
                && error == old(error) && draft == ""
                && socket.transmitted == old(socket.transmitted)
                                         + (if old(socket.CanSend()) then [(socket.socket.value, Payload(old(draft), encrypted, peer, userId))] else [])
    {
      chatHistory := WithPreview(chatHistory, peer, encrypted, draft);
      var threw := socket.SendMessage(Payload(draft, encrypted, peer, userId));
      if threw {
        error := ErrSendFailed;
      } else {
        draft := "";
      }
    }

    /**
     * The decrypt handler with the decrypt service's answer `decryption`.
     * Without a private key it sets its error and returns the placeholder
     * without calling the service; a failed decryption sets the placeholder
     * as the error and returns it; a success puts the plaintext in the
     * sender's preview and returns it.
     */
    method DecryptMessage(m: Message, decryption: Result<string, string>) returns (shown: string, request: Option<(string, string)>)
      requires Valid()
      modifies this`chatHistory, this`error
      ensures Valid()
      ensures !(privateKey.Some? && privateKey.value != "") ==>
                && request == None && shown == DecryptPlaceholder && error == ErrNoPrivateKey
                && chatHistory == old(chatHistory)
      ensures privateKey.Some? && privateKey.value != "" ==> request == Some((m.encrypted, privateKey.value))
      ensures privateKey.Some? && privateKey.value != "" && decryption.Err? ==>
                shown == DecryptPlaceholder && error == DecryptPlaceholder && chatHistory == old(chatHistory)
      ensures privateKey.Some? && privateKey.value != "" && decryption.Ok? ==>
                && shown == decryption.value && error == old(error)
                && chatHistory == WithPreview(old(chatHistory), m.senderId, m.encrypted, decryption.value)
    {
      if privateKey.None? || privateKey.value == "" {
        error := ErrNoPrivateKey;
        return DecryptPlaceholder, None;
      }
      request := Some((m.encrypted, privateKey.value));
      match decryption
      case Err(_) =>
        error := DecryptPlaceholder;
        shown := DecryptPlaceholder;
      case Ok(plain) =>
        chatHistory := WithPreview(chatHistory, m.senderId, m.encrypted, plain);
        shown := plain;
    }
  }
}
