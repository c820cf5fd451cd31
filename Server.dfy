/**
 * The backend: users and messages held in the database, the registry of
 * open live-channel connections, frame validation and relay, the history
 * query, and the input checks of the encrypt and decrypt endpoints.
 */
module Server {
  import opened Wrappers
  import opened Records
  import Text
  import Dialog

  const MaxNicknameLength := 50
  const ErrNicknameTaken := "Nickname already registered"
  const ErrUserNotFound := "User not found"
  const ErrContentEmpty := "Message content cannot be empty"
  const ErrEncryptedMissing := "Encrypted content is required"
  const ErrReceiverMissing := "Receiver ID is required"

  /** A `users` row: unique nickname of at most 50 characters, optional keys. */
  datatype UserRecord = UserRecord(id: int, nickname: string, publicKey: Option<string>, privateKey: Option<string>)

  /** An HTTP error response: status and `detail`. */
  datatype HttpError = HttpError(status: int, detail: string)

  /** An exception the route does not catch (a failed commit): FastAPI answers 500. */
  const InternalError := HttpError(500, "Internal Server Error")

  // ---------------------------------------------------------------------
  // Lookups and the history query.

  /** `query(User).filter(cond).first()`: the first row meeting the condition, if any. */
  function FindFirst(users: seq<UserRecord>, cond: UserRecord -> bool): (r: Option<UserRecord>)
    ensures r.Some? <==> exists i :: 0 <= i < |users| && cond(users[i])
    ensures r.Some? ==> exists i :: 0 <= i < |users| && users[i] == r.value && cond(r.value)
                                    && forall j :: 0 <= j < i ==> !cond(users[j])
  {
    if users == [] then None
    else if cond(users[0]) then Some(users[0])
    else
      var r := FindFirst(users[1..], cond);
      assert forall i :: 0 < i < |users| ==> users[i] == users[1..][i - 1];
      assert r.Some? ==> exists i :: 1 <= i < |users| && users[i] == r.value && cond(r.value)
                                     && forall j :: 0 <= j < i ==> !cond(users[j]) by {
        if r.Some? {
          var i :| 0 <= i < |users[1..]| && users[1..][i] == r.value && cond(r.value)
                   && forall j :: 0 <= j < i ==> !cond(users[1..][j]);
          assert users[i + 1] == r.value;
        }
      }
      r
  }

  predicate Involves(m: Message, id: int) {
    m.senderId == id || m.receiverId == id
  }

  /** `sender_id == user_id OR receiver_id == user_id`. */
  function Involving(ms: seq<Message>, id: int): seq<Message> {
    if ms == [] then []
    else Involving(ms[..|ms| - 1], id) + (if Involves(ms[|ms| - 1], id) then [ms[|ms| - 1]] else [])
  }

  lemma {:induction false} InvolvingCounts(ms: seq<Message>, id: int)
    ensures forall m :: multiset(Involving(ms, id))[m] == if Involves(m, id) then multiset(ms)[m] else 0
  {
    if ms != [] {
      assert ms == ms[..|ms| - 1] + [ms[|ms| - 1]];
      InvolvingCounts(ms[..|ms| - 1], id);
    }
  }

  function Reverse(s: seq<Message>): (r: seq<Message>)
    ensures |r| == |s| && forall i :: 0 <= i < |s| ==> r[i] == s[|s| - 1 - i]
  {
    if s == [] then [] else [s[|s| - 1]] + Reverse(s[..|s| - 1])
  }

  lemma {:induction false} ReversePermutes(s: seq<Message>)
    ensures multiset(Reverse(s)) == multiset(s)
  {
    if s != [] {
      assert s == s[..|s| - 1] + [s[|s| - 1]];
      ReversePermutes(s[..|s| - 1]);
    }
  }

  /** The identical relay frame for the receiver, when the receiver has a registered connection. */
  function Delivery(active: map<int, nat>, receiverId: int, m: Message): seq<(nat, Frame)> {
    if receiverId in active then [(active[receiverId], MessageFrame(m))] else []
  }

  // ---------------------------------------------------------------------
  // Live-channel frames.

  /** A decoded inbound frame; each field is absent or present with its value. */
  datatype InFrame = InFrame(content: Option<string>, encrypted: Option<string>, receiverId: Option<int>)

  /** What one `receive_text` yields: a decoded frame, text that is not JSON, or the client's disconnect. */
  datatype Received = TextFrame(frame: InFrame) | Undecodable(reason: string) | ClientGone

  /** `if not value`: absent and empty are both falsy. */
  predicate Present(v: Option<string>) {
    v.Some? && v.value != ""
  }

  /** `if not receiver_id`: absent and 0 are both falsy. */
  predicate PresentId(v: Option<int>) {
    v.Some? && v.value != 0
  }

  /** The three checks in order; the first failing one names the error frame's text. */
  function ValidateFrame(f: InFrame): (r: Result<(string, string, int), string>)
    ensures r == Err(ErrContentEmpty) <==> !Present(f.content)
    ensures r == Err(ErrEncryptedMissing) <==> Present(f.content) && !Present(f.encrypted)
    ensures r == Err(ErrReceiverMissing) <==> Present(f.content) && Present(f.encrypted) && !PresentId(f.receiverId)
    ensures r.Ok? <==> Present(f.content) && Present(f.encrypted) && PresentId(f.receiverId)
    ensures r.Ok? ==> r.value == (f.content.value, f.encrypted.value, f.receiverId.value)
  {
    if !Present(f.content) then Err(ErrContentEmpty)
    else if !Present(f.encrypted) then Err(ErrEncryptedMissing)
    else if !PresentId(f.receiverId) then Err(ErrReceiverMissing)
    else Ok((f.content.value, f.encrypted.value, f.receiverId.value))
  }

  // ---------------------------------------------------------------------
  // The encrypt and decrypt endpoints, with the crypto call as a parameter.

  /** What the crypto call does: returns, raises `ValueError`, or raises anything else. */
  datatype CryptoOutcome = Done(text: string) | BadValue(message: string) | Crashed(message: string)

  /** `str(HTTPException)`: the status, a colon and the detail. */
  function HttpText(e: HttpError): string {
    Text.IntText(e.status) + ": " + e.detail
  }

  lemma BadRequestText(detail: string)
    ensures HttpText(HttpError(400, detail)) == "400: " + detail
  {
    assert Text.NatText(4) == "4";
    assert Text.NatText(40) == "40";
    assert Text.NatText(400) == "400";
  }

  /**
   * The shape both endpoints share: the two input checks raise 400, which
   * the generic handler turns into a 500 whose detail embeds it; a
   * `ValueError` from the crypto call becomes 400 and any other failure 500.
   */
  function Guarded(prefix: string, keyError: string, inputError: string, key: string, input: string,
                   crypto: (string, string) -> CryptoOutcome): Result<string, HttpError> {
    if key == "" then Err(HttpError(500, prefix + HttpText(HttpError(400, keyError))))
    else if input == "" then Err(HttpError(500, prefix + HttpText(HttpError(400, inputError))))
    else match crypto(input, key)
      case Done(t) => Ok(t)
      case BadValue(msg) => Err(HttpError(400, msg))
      case Crashed(msg) => Err(HttpError(500, prefix + msg))
  }

  const PublicKeyRequired := "Public key is required"
  const TextRequired := "Text to encrypt is required"
  const PrivateKeyRequired := "Private key is required"
  const CiphertextRequired := "Encrypted text is required"

  /** `POST /encrypt`. */
  function EncryptText(text: string, publicKey: string, encrypt: (string, string) -> CryptoOutcome): (r: Result<string, HttpError>)
    ensures publicKey == "" ==> r == Err(HttpError(500, "Encryption failed: " + ("400: " + PublicKeyRequired)))
    ensures publicKey != "" && text == "" ==> r == Err(HttpError(500, "Encryption failed: " + ("400: " + TextRequired)))
    ensures publicKey != "" && text != "" ==>
              && (encrypt(text, publicKey).Done? ==> r == Ok(encrypt(text, publicKey).text))
              && (encrypt(text, publicKey).BadValue? ==> r == Err(HttpError(400, encrypt(text, publicKey).message)))
              && (encrypt(text, publicKey).Crashed? ==> r.Err? && r.error.status == 500)
  {
    BadRequestText(PublicKeyRequired);
    BadRequestText(TextRequired);
    Guarded("Encryption failed: ", PublicKeyRequired, TextRequired, publicKey, text, encrypt)
  }

  /** `POST /decrypt`. */
  function DecryptText(encryptedText: string, privateKey: string, decrypt: (string, string) -> CryptoOutcome): (r: Result<string, HttpError>)
    ensures privateKey == "" ==> r == Err(HttpError(500, "Decryption failed: " + ("400: " + PrivateKeyRequired)))
    ensures privateKey != "" && encryptedText == "" ==> r == Err(HttpError(500, "Decryption failed: " + ("400: " + CiphertextRequired)))
    ensures privateKey != "" && encryptedText != "" ==>
              && (decrypt(encryptedText, privateKey).Done? ==> r == Ok(decrypt(encryptedText, privateKey).text))
              && (decrypt(encryptedText, privateKey).BadValue? ==> r == Err(HttpError(400, decrypt(encryptedText, privateKey).message)))
              && (decrypt(encryptedText, privateKey).Crashed? ==> r.Err? && r.error.status == 500)
  {
    BadRequestText(PrivateKeyRequired);
    BadRequestText(CiphertextRequired);
    Guarded("Decryption failed: ", PrivateKeyRequired, CiphertextRequired, privateKey, encryptedText, decrypt)
  }

  /** An empty key or input never reaches the crypto call: the answer is the same whatever that call would do. */
  lemma InputChecksPrecedeCrypto(text: string, key: string, c1: (string, string) -> CryptoOutcome, c2: (string, string) -> CryptoOutcome)
    requires key == "" || text == ""
    ensures EncryptText(text, key, c1) == EncryptText(text, key, c2)
    ensures DecryptText(text, key, c1) == DecryptText(text, key, c2)
    ensures EncryptText(text, key, c1).Err? && EncryptText(text, key, c1).error.status == 500
    ensures DecryptText(text, key, c1).Err? && DecryptText(text, key, c1).error.status == 500
  {
  }

  // The receive loop's decisions, which depend only on the users table.

  predicate Registered(users: seq<UserRecord>, id: int) {
    exists i :: 0 <= i < |users| && users[i].id == id
  }

  /** Whether this input ends the receive loop. */
  predicate Stops(users: seq<UserRecord>, userId: int, input: Received) {
    match input
    case ClientGone => true
    case Undecodable(_) => true
    case TextFrame(f) =>
      ValidateFrame(f).Ok? && !(Registered(users, userId) && Registered(users, ValidateFrame(f).value.2))
  }

  /** Whether this input stores a message. */
  predicate Stores(users: seq<UserRecord>, userId: int, input: Received) {
    input.TextFrame? && ValidateFrame(input.frame).Ok?
    && Registered(users, userId) && Registered(users, ValidateFrame(input.frame).value.2)
  }

  /** How many of the first `n` inputs store a message. */
  function StoredCount(users: seq<UserRecord>, userId: int, inputs: seq<Received>, n: nat): (r: nat)
    requires n <= |inputs|
    ensures r <= n
  {
    if n == 0 then 0
    else StoredCount(users, userId, inputs, n - 1) + (if Stores(users, userId, inputs[n - 1]) then 1 else 0)
  }

  /** How many inputs from index `i` on the receive loop consumes: up to and including the first that ends it. */
  function Consumed(users: seq<UserRecord>, userId: int, inputs: seq<Received>, i: nat): (r: nat)
    requires i <= |inputs|
    ensures r <= |inputs| - i && (i < |inputs| ==> r >= 1)
    decreases |inputs| - i
  {
    if i == |inputs| then 0
    else if Stops(users, userId, inputs[i]) then 1
    else 1 + Consumed(users, userId, inputs, i + 1)
  }

  /** No input before the last consumed one ends the loop; when some are left over, the last consumed one did. */
  lemma {:induction false} ConsumedSpec(users: seq<UserRecord>, userId: int, inputs: seq<Received>, i: nat)
    requires i <= |inputs|
    ensures forall j :: i <= j < i + Consumed(users, userId, inputs, i) - 1 ==> !Stops(users, userId, inputs[j])
    ensures i + Consumed(users, userId, inputs, i) < |inputs| ==>
              Stops(users, userId, inputs[i + Consumed(users, userId, inputs, i) - 1])
    decreases |inputs| - i
  {
    if i < |inputs| && !Stops(users, userId, inputs[i]) {
      ConsumedSpec(users, userId, inputs, i + 1);
    }
  }

  /** The row `input` adds to the messages table when the next id is `id` and the time `now`: one exactly when it is stored. */
  function Rows(users: seq<UserRecord>, userId: int, input: Received, id: int, now: int): (r: seq<Message>)
    ensures |r| == if Stores(users, userId, input) then 1 else 0
    ensures forall k :: 0 <= k < |r| ==> r[k].id == id && r[k].senderId == userId && r[k].timestamp == now
    ensures Stores(users, userId, input) ==>
              r[0].content == input.frame.content.value && r[0].encrypted == input.frame.encrypted.value
              && r[0].receiverId == input.frame.receiverId.value
  {
    if Stores(users, userId, input) then
      var v := ValidateFrame(input.frame).value;
      [Message(id, v.0, v.1, userId, v.2, now)]
    else []
  }

  /** Every frame goes to `conn` or to a connection in the registry. */
  predicate ToConnOrRegistered(frames: seq<(nat, Frame)>, conn: nat, active: map<int, nat>) {
    forall k :: 0 <= k < |frames| ==> frames[k].0 == conn || frames[k].0 in active.Values
  }

  /** The frames one input sends when the next id is `id`; `OutgoingSpec` states what they are. */
  function Outgoing(users: seq<UserRecord>, active: map<int, nat>, userId: int, conn: nat, input: Received,
                    id: int, now: int, failure: string): seq<(nat, Frame)>
  {
    match input
    case ClientGone => []
    case Undecodable(reason) => [(conn, ErrorFrame(reason))]
    case TextFrame(f) =>
      match ValidateFrame(f)
      case Err(e) => [(conn, ErrorFrame(e))]
      case Ok(v) =>
        if Registered(users, userId) && Registered(users, v.2) then
          var m := Message(id, v.0, v.1, userId, v.2, now);
          Delivery(active, v.2, m) + [(conn, MessageFrame(m))]
        else [(conn, ErrorFrame(failure))]
  }

  /**
   * A stored message is relayed to the receiver's registered connection, if
   * any, and echoed to `conn`, both carrying the row just stored; any other
   * input except a disconnect gets exactly one error frame on `conn`, and a
   * disconnect sends nothing. Every frame goes to `conn` or a registered
   * connection.
   */
  lemma OutgoingSpec(users: seq<UserRecord>, active: map<int, nat>, userId: int, conn: nat, input: Received,
                     id: int, now: int, failure: string)
    ensures var r := Outgoing(users, active, userId, conn, input, id, now, failure);
            && (Stores(users, userId, input) ==>
                  var m := Rows(users, userId, input, id, now)[0];
                  && r == Delivery(active, m.receiverId, m) + [(conn, MessageFrame(m))]
                  && (m.receiverId in active ==> r[0] == (active[m.receiverId], r[|r| - 1].1)))
            && (!Stores(users, userId, input) && !input.ClientGone? ==> |r| == 1 && r[0].0 == conn && r[0].1.ErrorFrame?)
            && (input.TextFrame? && ValidateFrame(input.frame).Err? ==> r == [(conn, ErrorFrame(ValidateFrame(input.frame).error))])
            && (input.TextFrame? && Stops(users, userId, input) ==> r == [(conn, ErrorFrame(failure))])
            && (input.ClientGone? ==> r == [])
            && ToConnOrRegistered(r, conn, active)
  {
  }

  /**
   * The rows the first `n` inputs store when the first one's id is `id`:
   * ids run on without gaps, and every row names `userId` as sender.
   */
  function LoopRows(users: seq<UserRecord>, userId: int, inputs: seq<Received>, clock: seq<int>, id: int, n: nat)
    : (r: seq<Message>)
    requires n <= |inputs| && |clock| == |inputs|
    ensures |r| == StoredCount(users, userId, inputs, n)
    ensures forall k :: 0 <= k < |r| ==> r[k].id == id + k && r[k].senderId == userId
  {
    if n == 0 then []
    else
      LoopRows(users, userId, inputs, clock, id, n - 1)
      + Rows(users, userId, inputs[n - 1], id + StoredCount(users, userId, inputs, n - 1), clock[n - 1])
  }

  /** The frames the first `n` inputs send, each input's after the previous one's. */
  function LoopFrames(users: seq<UserRecord>, active: map<int, nat>, userId: int, conn: nat, inputs: seq<Received>,
                      clock: seq<int>, id: int, failure: string, n: nat): seq<(nat, Frame)>
    requires n <= |inputs| && |clock| == |inputs|
  {
    if n == 0 then []
    else
      LoopFrames(users, active, userId, conn, inputs, clock, id, failure, n - 1)
      + Outgoing(users, active, userId, conn, inputs[n - 1], id + StoredCount(users, userId, inputs, n - 1), clock[n - 1], failure)
  }
  /** Over the whole loop, every frame goes to `conn` or to a registered connection: nothing reaches a user who is not connected. */
  lemma {:induction false} LoopFramesDestinations(users: seq<UserRecord>, active: map<int, nat>, userId: int, conn: nat,
                                                  inputs: seq<Received>, clock: seq<int>, id: int, failure: string, n: nat)
    requires n <= |inputs| && |clock| == |inputs|
    ensures ToConnOrRegistered(LoopFrames(users, active, userId, conn, inputs, clock, id, failure, n), conn, active)
  {
    if n > 0 {
      var a: seq<(nat, Frame)> := LoopFrames(users, active, userId, conn, inputs, clock, id, failure, n - 1);
      var b: seq<(nat, Frame)> := Outgoing(users, active, userId, conn, inputs[n - 1], id + StoredCount(users, userId, inputs, n - 1), clock[n - 1], failure);
      LoopFramesDestinations(users, active, userId, conn, inputs, clock, id, failure, n - 1);
      OutgoingSpec(users, active, userId, conn, inputs[n - 1], id + StoredCount(users, userId, inputs, n - 1), clock[n - 1], failure);
      assert LoopFrames(users, active, userId, conn, inputs, clock, id, failure, n) == a + b;
      forall k | 0 <= k < |a + b|
        ensures (a + b)[k].0 == conn || (a + b)[k].0 in active.Values
      {
        if k < |a| {
          assert (a + b)[k] == a[k];
        } else {
          assert (a + b)[k] == b[k - |a|];
        }
      }
    }
  }

  lemma AppendAssoc<T>(a: seq<T>, b: seq<T>, c: seq<T>)
    ensures a + b + c == a + (b + c)
  {
  }

  /**
   * The loop's tables after its first `n` inputs, from the state `ms0`,
   * `ob0`, `id0`, `ac0` it started in: the messages grew by those inputs'
   * rows, the next id by their number, the outbox by their frames (sent
   * through the registry `ac0`).
   */
  ghost predicate LoopState(users: seq<UserRecord>, userId: int, conn: nat, inputs: seq<Received>, clock: seq<int>,
                            failure: string, ms0: seq<Message>, ob0: seq<(nat, Frame)>, id0: int, ac0: map<int, nat>,
                            n: nat, messages: seq<Message>, outbox: seq<(nat, Frame)>, nextId: int)
    requires n <= |inputs| && |clock| == |inputs|
  {
    && messages == ms0 + LoopRows(users, userId, inputs, clock, id0, n)
    && nextId == id0 + StoredCount(users, userId, inputs, n)
    && outbox == ob0 + LoopFrames(users, ac0, userId, conn, inputs, clock, id0, failure, n)
  }

  /**
   * One more input extends the loop's rows and count by that input's own: a
   * table that held the first `n` inputs' rows and then took input `n`'s
   * holds the first `n + 1` inputs' rows.
   */
  lemma LoopRowsStep(users: seq<UserRecord>, userId: int, inputs: seq<Received>, clock: seq<int>, id: int, n: nat,
                     ms0: seq<Message>, msMid: seq<Message>, idMid: int, ms: seq<Message>, next: int)
    requires n < |inputs| && |clock| == |inputs|
    requires msMid == ms0 + LoopRows(users, userId, inputs, clock, id, n)
    requires idMid == id + StoredCount(users, userId, inputs, n)
    requires ms == msMid + Rows(users, userId, inputs[n], idMid, clock[n])
    requires next == idMid + |Rows(users, userId, inputs[n], idMid, clock[n])|
    ensures ms == ms0 + LoopRows(users, userId, inputs, clock, id, n + 1)
    ensures next == id + StoredCount(users, userId, inputs, n + 1)
  {
    var rows, step := LoopRows(users, userId, inputs, clock, id, n), Rows(users, userId, inputs[n], idMid, clock[n]);
    AppendAssoc(ms0, rows, step);
  }

  /** Likewise for the frames: an outbox that held the first `n` inputs' frames and then took input `n`'s holds the first `n + 1` inputs' frames. */
  lemma LoopFramesStep(users: seq<UserRecord>, active: map<int, nat>, userId: int, conn: nat, inputs: seq<Received>,
                       clock: seq<int>, id: int, failure: string, n: nat,
                       ob0: seq<(nat, Frame)>, obMid: seq<(nat, Frame)>, idMid: int, ob: seq<(nat, Frame)>)
    requires n < |inputs| && |clock| == |inputs|
    requires obMid == ob0 + LoopFrames(users, active, userId, conn, inputs, clock, id, failure, n)
    requires idMid == id + StoredCount(users, userId, inputs, n)
    requires ob == obMid + Outgoing(users, active, userId, conn, inputs[n], idMid, clock[n], failure)
    ensures ob == ob0 + LoopFrames(users, active, userId, conn, inputs, clock, id, failure, n + 1)
  {
    var frames := LoopFrames(users, active, userId, conn, inputs, clock, id, failure, n);
    var step := Outgoing(users, active, userId, conn, inputs[n], idMid, clock[n], failure);
    assert LoopFrames(users, active, userId, conn, inputs, clock, id, failure, n + 1) == frames + step;
    AppendAssoc(ob0, frames, step);
  }

  // ---------------------------------------------------------------------
  // The tables' integrity: what the primary keys, the unique index, the
  // column width and the foreign keys guarantee.

  /** Ids are positive, below the next id and distinct; nicknames are distinct and fit the column. */
  ghost predicate UsersWellFormed(users: seq<UserRecord>, nextUserId: int) {
    && nextUserId >= 1
    && (forall i :: 0 <= i < |users| ==> 1 <= users[i].id < nextUserId && |users[i].nickname| <= MaxNicknameLength)
    && (forall i, j :: 0 <= i < j < |users| ==> users[i].id != users[j].id && users[i].nickname != users[j].nickname)
  }

  /** Message ids are positive, increasing and below the next id; both ends of every message exist. */
  ghost predicate MessagesWellFormed(messages: seq<Message>, nextMessageId: int, users: seq<UserRecord>) {
    && nextMessageId >= 1
    && (forall i :: 0 <= i < |messages| ==> 1 <= messages[i].id < nextMessageId)
    && (forall i, j :: 0 <= i < j < |messages| ==> messages[i].id < messages[j].id)
    && (forall i :: 0 <= i < |messages| ==> Registered(users, messages[i].senderId) && Registered(users, messages[i].receiverId))
  }

  /** Adding a user with the next id and a fresh, fitting nickname keeps both tables well formed. */
  lemma AddUserKeeps(users: seq<UserRecord>, nextUserId: int, messages: seq<Message>, nextMessageId: int, u: UserRecord)
    requires UsersWellFormed(users, nextUserId) && MessagesWellFormed(messages, nextMessageId, users)
    requires u.id == nextUserId && |u.nickname| <= MaxNicknameLength
    requires forall i :: 0 <= i < |users| ==> users[i].nickname != u.nickname
    ensures UsersWellFormed(users + [u], nextUserId + 1) && MessagesWellFormed(messages, nextMessageId, users + [u])
  {
    var us := users + [u];
    forall i | 0 <= i < |messages|
      ensures Registered(us, messages[i].senderId) && Registered(us, messages[i].receiverId)
    {
      var a :| 0 <= a < |users| && users[a].id == messages[i].senderId;
      var b :| 0 <= b < |users| && users[b].id == messages[i].receiverId;
      assert us[a] == users[a] && us[b] == users[b];
    }
  }

  /** Appending a message with the next id between existing users keeps the messages table well formed. */
  lemma AddMessageKeeps(messages: seq<Message>, nextMessageId: int, users: seq<UserRecord>, m: Message)
    requires MessagesWellFormed(messages, nextMessageId, users)
    requires m.id == nextMessageId && Registered(users, m.senderId) && Registered(users, m.receiverId)
    ensures MessagesWellFormed(messages + [m], nextMessageId + 1, users)
  {
    var ms := messages + [m];
    assert forall i :: 0 <= i < |messages| ==> ms[i] == messages[i];
  }

  // ---------------------------------------------------------------------
  // The database and the connection registry.

  class Backend {
    var users: seq<UserRecord>
    var messages: seq<Message>
    var nextUserId: int
    var nextMessageId: int
    var activeConnections: map<int, nat>
    var outbox: seq<(nat, Frame)>

    predicate IsUser(id: int)
      reads this`users
    {
      Registered(users, id)
    }

    ghost predicate Valid()
      reads this`users, this`messages, this`nextUserId, this`nextMessageId
    {
      UsersWellFormed(users, nextUserId) && MessagesWellFormed(messages, nextMessageId, users)
    }

    constructor ()
      ensures Valid() && users == [] && messages == [] && activeConnections == map[] && outbox == []
      ensures nextUserId == 1 && nextMessageId == 1
    {
      users := [];
      messages := [];
      nextUserId := 1;
      nextMessageId := 1;
      activeConnections := map[];
      outbox := [];
    }

    /** `GET /users/{id}`. */
    function ReadUser(id: int): (r: Result<UserRecord, HttpError>)
      reads this
      ensures r.Ok? <==> IsUser(id)
      ensures r.Ok? ==> r.value in users && r.value.id == id
      ensures r.Err? ==> r.error == HttpError(404, ErrUserNotFound)
    {
      match FindFirst(users, (u: UserRecord) => u.id == id)
      case Some(u) => Ok(u)
      case None => Err(HttpError(404, ErrUserNotFound))
    }

    /** `GET /users/by-nickname/{nickname}`. */
    function UserByNickname(nickname: string): (r: Result<UserRecord, HttpError>)
      reads this
      ensures r.Ok? <==> exists i :: 0 <= i < |users| && users[i].nickname == nickname
      ensures r.Ok? ==> r.value in users && r.value.nickname == nickname
      ensures r.Err? ==> r.error == HttpError(404, ErrUserNotFound)
    {
      match FindFirst(users, (u: UserRecord) => u.nickname == nickname)
      case Some(u) => Ok(u)
      case None => Err(HttpError(404, ErrUserNotFound))
    }

    /**
     * `GET /messages/{user_id}`: exactly the messages the user sent or
     * received, each as often as stored, newest first. The order among
     * equal timestamps is left open, as the query leaves it.
     */
    function UserMessages(id: int): (r: seq<Message>)
      reads this
      ensures forall m :: multiset(r)[m] == if Involves(m, id) then multiset(messages)[m] else 0
      ensures forall i, j :: 0 <= i < j < |r| ==> r[i].timestamp >= r[j].timestamp
    {
      var f := Involving(messages, id);
      InvolvingCounts(messages, id);
      Dialog.SortByTimePermutes(f);
      Dialog.SortByTimeSorted(f);
      ReversePermutes(Dialog.SortByTime(f));
      Reverse(Dialog.SortByTime(f))
    }

    /** The insert both creation endpoints share, after their uniqueness check. */
    method InsertUser(nickname: string, publicKey: Option<string>, privateKey: Option<string>)
      returns (r: Result<UserRecord, HttpError>)
      requires Valid() && !(exists i :: 0 <= i < |users| && users[i].nickname == nickname)
      modifies this`users, this`nextUserId
      ensures Valid()
      ensures |nickname| > MaxNicknameLength ==> r == Err(InternalError) && users == old(users) && nextUserId == old(nextUserId)
      ensures |nickname| <= MaxNicknameLength ==>
                && r == Ok(UserRecord(old(nextUserId), nickname, publicKey, privateKey))
                && users == old(users) + [r.value] && nextUserId == old(nextUserId) + 1
    {
      if |nickname| > MaxNicknameLength {
        return Err(InternalError);
      }
      var u := UserRecord(nextUserId, nickname, publicKey, privateKey);
      AddUserKeeps(users, nextUserId, messages, nextMessageId, u);
      users := users + [u];
      nextUserId := nextUserId + 1;
      r := Ok(u);
    }

    /**
     * `POST /users`: a taken nickname is refused with 400 and nothing is
     * added; a nickname longer than the column fails the commit (500);
     * otherwise the user is added with the next id and the given keys.
     */
    method CreateUser(nickname: string, publicKey: Option<string>, privateKey: Option<string>)
      returns (r: Result<UserRecord, HttpError>)
      requires Valid()
      modifies this`users, this`nextUserId
      ensures Valid()
      ensures (exists i :: 0 <= i < |old(users)| && old(users)[i].nickname == nickname) ==>
                r == Err(HttpError(400, ErrNicknameTaken)) && users == old(users) && nextUserId == old(nextUserId)
      ensures r.Ok? ==> users == old(users) + [r.value] && r.value == UserRecord(old(nextUserId), nickname, publicKey, privateKey)
                        && nextUserId == old(nextUserId) + 1
      ensures r.Err? ==> users == old(users) && nextUserId == old(nextUserId)
      ensures !(exists i :: 0 <= i < |old(users)| && old(users)[i].nickname == nickname) ==>
                (r.Ok? <==> |nickname| <= MaxNicknameLength) && (r.Err? ==> r.error == InternalError)
    {
      if FindFirst(users, (u: UserRecord) => u.nickname == nickname).Some? {
        return Err(HttpError(400, ErrNicknameTaken));
      }
      r := InsertUser(nickname, publicKey, privateKey);
    }

    /** `POST /users/create`: the same rule, with the freshly generated key pair `keys`. */
    method CreateUserWithKeys(nickname: string, keys: (string, string)) returns (r: Result<UserRecord, HttpError>)
      requires Valid()
      modifies this`users, this`nextUserId
      ensures Valid()
      ensures (exists i :: 0 <= i < |old(users)| && old(users)[i].nickname == nickname) ==>
                r == Err(HttpError(400, ErrNicknameTaken)) && users == old(users) && nextUserId == old(nextUserId)
      ensures r.Ok? ==> users == old(users) + [r.value]
                        && r.value == UserRecord(old(nextUserId), nickname, Some(keys.0), Some(keys.1))
                        && nextUserId == old(nextUserId) + 1
      ensures r.Err? ==> users == old(users) && nextUserId == old(nextUserId)
      ensures !(exists i :: 0 <= i < |old(users)| && old(users)[i].nickname == nickname) ==>
                (r.Ok? <==> |nickname| <= MaxNicknameLength) && (r.Err? ==> r.error == InternalError)
    {
      if FindFirst(users, (u: UserRecord) => u.nickname == nickname).Some? {
        return Err(HttpError(400, ErrNicknameTaken));
      }
      r := InsertUser(nickname, Some(keys.0), Some(keys.1));
    }

    /** Stores one message; the commit succeeds only when both ends are existing users. */
    method InsertMessage(content: string, encrypted: string, senderId: int, receiverId: int, now: int)
      returns (r: Option<Message>)
      requires Valid()
      modifies this`messages, this`nextMessageId
      ensures Valid()
      ensures !(IsUser(senderId) && IsUser(receiverId)) ==>
                r == None && messages == old(messages) && nextMessageId == old(nextMessageId)
      ensures IsUser(senderId) && IsUser(receiverId) ==>
                && r == Some(Message(old(nextMessageId), content, encrypted, senderId, receiverId, now))
                && messages == old(messages) + [r.value] && nextMessageId == old(nextMessageId) + 1
    {
      if !(IsUser(senderId) && IsUser(receiverId)) {
        return None;
      }
      var m := Message(nextMessageId, content, encrypted, senderId, receiverId, now);
      AddMessageKeeps(messages, nextMessageId, users, m);
      messages := messages + [m];
      nextMessageId := nextMessageId + 1;
      r := Some(m);
    }

    /** `POST /messages?sender_id=…`: stored with the query's sender; a dangling reference fails the commit. */
    method CreateMessage(content: string, encrypted: string, receiverId: int, senderId: int, now: int)
      returns (r: Result<Message, HttpError>)
      requires Valid()
      modifies this`messages, this`nextMessageId
      ensures Valid()
      ensures !(IsUser(senderId) && IsUser(receiverId)) ==>
                r == Err(InternalError) && messages == old(messages) && nextMessageId == old(nextMessageId)
      ensures IsUser(senderId) && IsUser(receiverId) ==>
                && r == Ok(Message(old(nextMessageId), content, encrypted, senderId, receiverId, now))
                && messages == old(messages) + [r.value] && nextMessageId == old(nextMessageId) + 1
    {
      var stored := InsertMessage(content, encrypted, senderId, receiverId, now);
      r := if stored.Some? then Ok(stored.value) else Err(InternalError);
    }

    /** A connection for `userId` is accepted and registered, replacing any earlier one. */
    method Connect(userId: int, conn: nat)
      modifies this`activeConnections
      ensures activeConnections == old(activeConnections)[userId := conn]
    {
      activeConnections := activeConnections[userId := conn];
    }

    /**
     * A decoded frame on connection `conn`, opened at `/ws/{userId}`, at
     * time `now`. A rejected frame gets exactly one error frame and the loop
     * goes on. A valid frame is stored with the URL's user as sender; its
     * relay goes to the receiver's registered connection, if any, and an
     * identical echo to `conn`. A commit failing on a dangling reference
     * sends one error frame with the exception text `failure` and ends the
     * loop. The registry is not touched.
     */
    method HandleFrame(userId: int, conn: nat, f: InFrame, now: int, failure: string) returns (continues: bool)
      requires Valid()
      modifies this`messages, this`nextMessageId, this`outbox
      ensures Valid()
      ensures continues <==> !old(Stops(users, userId, TextFrame(f)))
      ensures old(Stores(users, userId, TextFrame(f))) ==>
                var v := ValidateFrame(f).value;
                var m := Message(old(nextMessageId), v.0, v.1, userId, v.2, now);
                && messages == old(messages) + [m] && nextMessageId == old(nextMessageId) + 1
                && outbox == old(outbox) + Delivery(activeConnections, v.2, m) + [(conn, MessageFrame(m))]
      ensures !old(Stores(users, userId, TextFrame(f))) ==> messages == old(messages) && nextMessageId == old(nextMessageId)
      ensures ValidateFrame(f).Err? ==> outbox == old(outbox) + [(conn, ErrorFrame(ValidateFrame(f).error))]
      ensures old(Stops(users, userId, TextFrame(f))) ==> outbox == old(outbox) + [(conn, ErrorFrame(failure))]
      ensures outbox == old(outbox) + Outgoing(users, activeConnections, userId, conn, TextFrame(f), old(nextMessageId), now, failure)
    {
      match ValidateFrame(f)
      case Err(e) =>
        outbox := outbox + [(conn, ErrorFrame(e))];
        return true;
      case Ok(v) =>
        var stored := InsertMessage(v.0, v.1, userId, v.2, now);
        if stored.None? {
          outbox := outbox + [(conn, ErrorFrame(failure))];
          return false;
        }
        var m := stored.value;
        outbox := outbox + Delivery(activeConnections, v.2, m) + [(conn, MessageFrame(m))];
        return true;
    }

    /**
     * One pass of the receive loop. A decoded frame is handled as above. A
     * disconnect removes `userId`'s registry entry, whichever connection
     * holds it. Text that is not JSON sends one error frame and ends the
     * loop with the entry left in place.
     */
    method Receive(userId: int, conn: nat, input: Received, now: int, failure: string) returns (continues: bool)
      requires Valid()
      modifies this`messages, this`nextMessageId, this`outbox, this`activeConnections
      ensures Valid() && users == old(users)
      ensures continues <==> !old(Stops(users, userId, input))
      ensures input.TextFrame? ==> activeConnections == old(activeConnections)
      ensures messages == old(messages) + Rows(users, userId, input, old(nextMessageId), now)
      ensures nextMessageId == old(nextMessageId) + |Rows(users, userId, input, old(nextMessageId), now)|
      ensures input.Undecodable? ==>
                outbox == old(outbox) + [(conn, ErrorFrame(input.reason))] && activeConnections == old(activeConnections)
      ensures input.ClientGone? ==>
                outbox == old(outbox) && activeConnections == old(activeConnections) - {userId}
      ensures old(Stores(users, userId, input)) ==>
                var v := ValidateFrame(input.frame).value;
                var m := Message(old(nextMessageId), v.0, v.1, userId, v.2, now);
                outbox == old(outbox) + Delivery(activeConnections, v.2, m) + [(conn, MessageFrame(m))]
      ensures input.TextFrame? && ValidateFrame(input.frame).Err? ==>
                outbox == old(outbox) + [(conn, ErrorFrame(ValidateFrame(input.frame).error))]
      ensures input.TextFrame? && old(Stops(users, userId, input)) ==> outbox == old(outbox) + [(conn, ErrorFrame(failure))]
      ensures outbox == old(outbox) + Outgoing(users, old(activeConnections), userId, conn, input, old(nextMessageId), now, failure)
    {
      match input
      case ClientGone =>
        activeConnections := activeConnections - {userId};
        return false;
      case Undecodable(reason) =>
        outbox := outbox + [(conn, ErrorFrame(reason))];
        return false;
      case TextFrame(f) =>
        continues := HandleFrame(userId, conn, f, now, failure);
    }

    /**
     * Input `n` of the receive loop, taken when the tables hold what the
     * first `n` inputs made of them (`ms0`, `ob0`, `id0` and `ac0` being the
     * state before the loop): afterwards they hold what the first `n + 1`
     * made of them.
     */
    method ReceiveNext(userId: int, conn: nat, inputs: seq<Received>, clock: seq<int>, failure: string, n: nat,
                       ghost ms0: seq<Message>, ghost ob0: seq<(nat, Frame)>, ghost id0: int, ghost ac0: map<int, nat>)
      returns (continues: bool)
      requires Valid() && n < |inputs| && |clock| == |inputs|
      requires LoopState(users, userId, conn, inputs, clock, failure, ms0, ob0, id0, ac0,
                         n, messages, outbox, nextMessageId)
      requires activeConnections == ac0
      modifies this`messages, this`nextMessageId, this`outbox, this`activeConnections
      ensures Valid() && users == old(users)
      ensures continues <==> !Stops(users, userId, inputs[n])
      ensures inputs[n].ClientGone? ==> activeConnections == ac0 - {userId}
      ensures !inputs[n].ClientGone? ==> activeConnections == ac0
      ensures LoopState(users, userId, conn, inputs, clock, failure, ms0, ob0, id0, ac0,
                        n + 1, messages, outbox, nextMessageId)
    {
      ghost var ms, ob, next := messages, outbox, nextMessageId;
      continues := Receive(userId, conn, inputs[n], clock[n], failure);
      LoopRowsStep(users, userId, inputs, clock, id0, n, ms0, ms, next, messages, nextMessageId);
      LoopFramesStep(users, ac0, userId, conn, inputs, clock, id0, failure, n, ob0, ob, next, outbox);
    }

    /**
     * The receive loop on connection `conn` for `userId`, fed `inputs` with
     * `clock[i]` the time of input `i`. It consumes the inputs up to and
     * including the first that ends it. The messages table and the outbox
     * grow by exactly the rows and frames of the consumed inputs, in order;
     * only a disconnect touches the registry.
     */
    method ReceiveLoop(userId: int, conn: nat, inputs: seq<Received>, clock: seq<int>, failure: string)
      returns (handled: nat)
      requires Valid() && |clock| == |inputs|
      modifies this`messages, this`nextMessageId, this`outbox, this`activeConnections
      ensures Valid()
      ensures handled == Consumed(users, userId, inputs, 0)
      ensures messages == old(messages) + LoopRows(users, userId, inputs, clock, old(nextMessageId), handled)
      ensures nextMessageId == old(nextMessageId) + StoredCount(users, userId, inputs, handled)
      ensures outbox == old(outbox) + LoopFrames(users, old(activeConnections), userId, conn, inputs, clock,
                                                 old(nextMessageId), failure, handled)
      ensures handled >= 1 && inputs[handled - 1].ClientGone? ==> activeConnections == old(activeConnections) - {userId}
      ensures !(handled >= 1 && inputs[handled - 1].ClientGone?) ==> activeConnections == old(activeConnections)
    {
      ghost var ms0, ob0, id0, ac0 := messages, outbox, nextMessageId, activeConnections;
      handled := 0;
      while handled < |inputs|
        invariant Valid()
        invariant handled <= |inputs|
        invariant Consumed(users, userId, inputs, 0) == handled + Consumed(users, userId, inputs, handled)
        invariant handled >= 1 ==> !inputs[handled - 1].ClientGone?
        invariant LoopState(users, userId, conn, inputs, clock, failure, ms0, ob0, id0, ac0,
                            handled, messages, outbox, nextMessageId)
        invariant activeConnections == ac0
      {
        ghost var last := inputs[handled];
        var going := ReceiveNext(userId, conn, inputs, clock, failure, handled, ms0, ob0, id0, ac0);
        handled := handled + 1;
        if !going {
          assert inputs[handled - 1] == last;
          assert last.ClientGone? ==> activeConnections == old(activeConnections) - {userId};
          assert !last.ClientGone? ==> activeConnections == old(activeConnections);
          break;
        }
      }
    }

    /** The endpoint: register the connection, then run the receive loop. */
    method Serve(userId: int, conn: nat, inputs: seq<Received>, clock: seq<int>, failure: string)
      returns (handled: nat)
      requires Valid() && |clock| == |inputs|
      modifies this`messages, this`nextMessageId, this`outbox, this`activeConnections
      ensures Valid() && users == old(users)
      ensures handled == Consumed(users, userId, inputs, 0)
      ensures messages == old(messages) + LoopRows(users, userId, inputs, clock, old(nextMessageId), handled)
      ensures nextMessageId == old(nextMessageId) + StoredCount(users, userId, inputs, handled)
      ensures outbox == old(outbox) + LoopFrames(users, old(activeConnections)[userId := conn], userId, conn, inputs, clock,
                                                 old(nextMessageId), failure, handled)
      ensures handled >= 1 && inputs[handled - 1].ClientGone? ==> activeConnections == old(activeConnections) - {userId}
      ensures !(handled >= 1 && inputs[handled - 1].ClientGone?) ==> activeConnections == old(activeConnections)[userId := conn]
    {
      Connect(userId, conn);
      handled := ReceiveLoop(userId, conn, inputs, clock, failure);
      assert old(activeConnections)[userId := conn] - {userId} == old(activeConnections) - {userId};
    }
  }

  /**
   * A user with two connections: the second replaces the first in the
   * registry, and when the first disconnects it removes the entry, so no
   * message to that user is relayed to the live second connection.
   */
  method SupersededDisconnectUnregisters() returns (b: Backend)
    ensures 1 !in b.activeConnections
    ensures forall m :: Delivery(b.activeConnections, 1, m) == []
  {
    b := new Backend();
    b.Connect(1, 10);
    b.Connect(1, 11);
    var _ := b.Receive(1, 10, ClientGone, 0, "");
  }
}
