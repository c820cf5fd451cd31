/**
 * The values the client and the server exchange: messages, roster entries,
 * per-peer previews, live-channel envelopes and outbound payloads.
 */
module Records {
  import opened Wrappers
  import Text

  /**
   * The `userId` prop of the chat component. After a login it is the number
   * the server returned; after a page reload it is the text kept in
   * `localStorage`, so the same id reaches the component in two shapes.
   */
  datatype IdProp = Num(n: int) | Str(s: string)

  /** `x === userId` for a numeric `x`: a text prop is never strictly equal to a number. */
  predicate StrictEquals(x: int, p: IdProp) {
    p.Num? && p.n == x
  }

  /** `parseInt(userId)`; None is NaN, which equals nothing. */
  function ParsedId(p: IdProp): Option<int> {
    match p
    case Num(n) => Some(n)
    case Str(s) => Text.ParseInt(s)
  }

  /** `${userId}` in a template literal. */
  function IdText(p: IdProp): string {
    match p
    case Num(n) => Text.IntText(n)
    case Str(s) => s
  }

  /**
   * The coercion the client depends on: the id kept as text after a reload
   * parses back to the id the login produced, and prints the same way.
   */
  lemma RestoredIdAgrees(n: int)
    ensures ParsedId(Str(Text.IntText(n))) == ParsedId(Num(n)) == Some(n)
    ensures IdText(Str(Text.IntText(n))) == IdText(Num(n))
    ensures !StrictEquals(n, Str(Text.IntText(n))) && StrictEquals(n, Num(n))
  {
    Text.ParseIntText(n);
  }

  /**
   * A message as the REST history and the live channel deliver it
   * (`id`, `content`, `encrypted_content`, `sender_id`, `receiver_id`,
   * `timestamp`); the timestamp is an integer instant.
   */
  datatype Message = Message(
    id: int,
    content: string,
    encrypted: string,
    senderId: int,
    receiverId: int,
    timestamp: int)

  /** A roster entry `{id, nickname, public_key}`; a failed key lookup leaves the key null. */
  datatype Peer = Peer(id: int, nickname: string, publicKey: Option<string>)

  /**
   * A `chatHistory` entry. The send and decrypt paths can create an entry
   * that has only the first two fields, so the other two are optional.
   */
  datatype Summary = Summary(
    lastEncrypted: string,
    lastDecrypted: string,
    lastSender: Option<string>,
    lastTimestamp: Option<int>)

  /**
   * A parsed live-channel frame: `{type: "message", data}` or
   * `{type: "error", message}`, the two shapes the server sends.
   */
  datatype Frame = MessageFrame(data: Message) | ErrorFrame(text: string)

  /** The outbound frame `{content, encrypted_content, receiver_id, sender_id}`, not wrapped in an envelope. */
  datatype Payload = Payload(content: string, encrypted: string, receiverId: int, senderId: IdProp)

  /** The argument of `onNewMessage`: the message plus `sender_nickname`. */
  datatype NewMessageEvent = NewMessageEvent(message: Message, senderNickname: string)
}
