/**
 * The pure logic of the chat component: which messages belong to the open
 * dialog, the stable sort by timestamp, the duplicate test, the
 * notification decision, the per-peer preview table and its rebuild from a
 * fetched history, and the validation chain in front of a send.
 */
module Dialog {
  import opened Wrappers
  import opened Records
  import Text

  // ---------------------------------------------------------------------
  // Ordering by timestamp: the comparator `new Date(a) - new Date(b)`
  // with a stable sort.

  ghost predicate Sorted(s: seq<Message>) {
    forall i, j :: 0 <= i < j < |s| ==> s[i].timestamp <= s[j].timestamp
  }

  /**
   * Places `m` after every element whose timestamp is not later than its
   * own: the position a stable sort gives the last element of `s + [m]`.
   */
  function InsertByTime(s: seq<Message>, m: Message): seq<Message> {
    if s == [] || s[|s| - 1].timestamp <= m.timestamp then s + [m]
    else InsertByTime(s[..|s| - 1], m) + [s[|s| - 1]]
  }

  /** Insertion sort on timestamps, processing the elements in arrival order. */
  function SortByTime(s: seq<Message>): seq<Message> {
    if s == [] then []
    else InsertByTime(SortByTime(s[..|s| - 1]), s[|s| - 1])
  }

  /** Insertion adds `m` and loses nothing. */
  lemma {:induction false} InsertByTimePermutes(s: seq<Message>, m: Message)
    ensures multiset(InsertByTime(s, m)) == multiset(s) + multiset{m}
  {
    if s != [] && s[|s| - 1].timestamp > m.timestamp {
      assert s == s[..|s| - 1] + [s[|s| - 1]];
      InsertByTimePermutes(s[..|s| - 1], m);
    }
  }

  /** The sort is a permutation. */
  lemma {:induction false} SortByTimePermutes(s: seq<Message>)
    ensures multiset(SortByTime(s)) == multiset(s)
  {
    if s != [] {
      assert s == s[..|s| - 1] + [s[|s| - 1]];
      SortByTimePermutes(s[..|s| - 1]);
      InsertByTimePermutes(SortByTime(s[..|s| - 1]), s[|s| - 1]);
    }
  }

  /** The elements of `s` stamped `t`, in their order in `s`. */
  function AtTime(s: seq<Message>, t: int): seq<Message> {
    if s == [] then []
    else AtTime(s[..|s| - 1], t) + (if s[|s| - 1].timestamp == t then [s[|s| - 1]] else [])
  }

  lemma {:induction false} AtTimeAppend(a: seq<Message>, b: seq<Message>, t: int)
    ensures AtTime(a + b, t) == AtTime(a, t) + AtTime(b, t)
  {
    if b == [] {
      assert a + b == a;
    } else {
      var b' := b[..|b| - 1];
      assert (a + b)[..|a + b| - 1] == a + b';
      assert (a + b)[|a + b| - 1] == b[|b| - 1];
      AtTimeAppend(a, b', t);
    }
  }

  lemma {:induction false} InsertByTimeSorted(s: seq<Message>, m: Message)
    requires Sorted(s)
    ensures Sorted(InsertByTime(s, m))
  {
    if s != [] && s[|s| - 1].timestamp > m.timestamp {
      var s', x := s[..|s| - 1], s[|s| - 1];
      InsertByTimeSorted(s', m);
      var r' := InsertByTime(s', m);
      var k := InsertByTimeSplit(s', m);
      forall i | 0 <= i < |r'| ensures r'[i].timestamp <= x.timestamp {
        if i < k {
          assert r'[i] == s'[i] == s[i];
        } else if i > k {
          assert r'[i] == s'[i - 1] == s[i - 1];
        }
      }
      var r := r' + [x];
      forall i, j | 0 <= i < j < |r| ensures r[i].timestamp <= r[j].timestamp {
        assert r[i] == r'[i];
        if j < |r| - 1 {
          assert r[j] == r'[j];
        }
      }
    }
  }

  /** `InsertByTime` keeps elements with equal timestamps in order and puts `m` last among them. */
  lemma {:induction false} InsertByTimeAtTime(s: seq<Message>, m: Message, t: int)
    ensures AtTime(InsertByTime(s, m), t) == AtTime(s, t) + (if m.timestamp == t then [m] else [])
  {
    var mm: seq<Message> := if m.timestamp == t then [m] else [];
    if s == [] || s[|s| - 1].timestamp <= m.timestamp {
      assert InsertByTime(s, m) == s + [m];
      assert (s + [m])[..|s|] == s;
      assert AtTime(s + [m], t) == AtTime(s, t) + mm;
    } else {
      var s', x := s[..|s| - 1], s[|s| - 1];
      var xx: seq<Message> := if x.timestamp == t then [x] else [];
      InsertByTimeAtTime(s', m, t);
      var r' := InsertByTime(s', m);
      assert InsertByTime(s, m) == r' + [x];
      assert (r' + [x])[..|r'|] == r';
      assert AtTime(r' + [x], t) == AtTime(r', t) + xx;
      assert AtTime(s, t) == AtTime(s', t) + xx;
      var a' := AtTime(s', t);
      if mm != [] {
        assert xx == [];
        assert AtTime(r' + [x], t) == a' + mm;
      } else {
        assert AtTime(r' + [x], t) == a' + xx;
      }
    }
  }

  /** The sorted result is ordered by timestamp. */
  lemma {:induction false} SortByTimeSorted(s: seq<Message>)
    ensures Sorted(SortByTime(s))
  {
    if s != [] {
      SortByTimeSorted(s[..|s| - 1]);
      InsertByTimeSorted(SortByTime(s[..|s| - 1]), s[|s| - 1]);
    }
  }

  /** The sort is stable: messages with the same timestamp keep their input order. */
  lemma {:induction false} SortByTimeStable(s: seq<Message>, t: int)
    ensures AtTime(SortByTime(s), t) == AtTime(s, t)
  {
    if s != [] {
      SortByTimeStable(s[..|s| - 1], t);
      InsertByTimeAtTime(SortByTime(s[..|s| - 1]), s[|s| - 1], t);
    }
  }

  /** Sorting what is already sorted changes nothing. */
  lemma {:induction false} SortedSortIsIdentity(s: seq<Message>)
    requires Sorted(s)
    ensures SortByTime(s) == s
  {
    if s != [] {
      var s' := s[..|s| - 1];
      SortedSortIsIdentity(s');
      assert s == s' + [s[|s| - 1]];
    }
  }

  /** `[...prev, m].sort(...)` on a sorted `prev` is the insertion of `m` into `prev`. */
  lemma AppendThenSort(prev: seq<Message>, m: Message)
    requires Sorted(prev)
    ensures SortByTime(prev + [m]) == InsertByTime(prev, m)
  {
    assert (prev + [m])[..|prev|] == prev;
    SortedSortIsIdentity(prev);
  }

  // ---------------------------------------------------------------------
  // History load (the fetched list is filtered to the open dialog and sorted).

  /** The history filter. It compares with `===`, so a text `userId` matches nothing. */
  predicate InHistoryDialog(m: Message, me: IdProp, peer: int) {
    || (StrictEquals(m.senderId, me) && m.receiverId == peer)
    || (m.senderId == peer && StrictEquals(m.receiverId, me))
  }

  function HistoryDialog(all: seq<Message>, me: IdProp, peer: int): seq<Message> {
    if all == [] then []
    else
      var m := all[|all| - 1];
      HistoryDialog(all[..|all| - 1], me, peer) + (if InHistoryDialog(m, me, peer) then [m] else [])
  }

  /** The filter keeps each dialog message as often as it occurs, and nothing else. */
  lemma {:induction false} HistoryDialogCounts(all: seq<Message>, me: IdProp, peer: int)
    ensures forall x :: multiset(HistoryDialog(all, me, peer))[x]
                        == if InHistoryDialog(x, me, peer) then multiset(all)[x] else 0
  {
    if all != [] {
      assert all == all[..|all| - 1] + [all[|all| - 1]];
      HistoryDialogCounts(all[..|all| - 1], me, peer);
    }
  }

  /** What the history load puts in `messages`. */
  function LoadedDialog(all: seq<Message>, me: IdProp, peer: int): seq<Message> {
    SortByTime(HistoryDialog(all, me, peer))
  }

  lemma {:induction false} HistoryDialogAtTime(all: seq<Message>, me: IdProp, peer: int, t: int)
    ensures AtTime(HistoryDialog(all, me, peer), t) == HistoryDialog(AtTime(all, t), me, peer)
  {
    if all != [] {
      var a', m := all[..|all| - 1], all[|all| - 1];
      HistoryDialogAtTime(a', me, peer, t);
      var h' := HistoryDialog(a', me, peer);
      var mm: seq<Message> := if InHistoryDialog(m, me, peer) then [m] else [];
      AtTimeAppend(h', mm, t);
      assert [m][..0] == [];
      var at' := AtTime(a', t);
      if m.timestamp == t {
        assert AtTime(all, t) == at' + [m];
        assert (at' + [m])[..|at'|] == at';
        assert AtTime(mm, t) == mm;
        assert HistoryDialog(at' + [m], me, peer) == HistoryDialog(at', me, peer) + mm;
      } else {
        assert AtTime(all, t) == at';
        assert AtTime(mm, t) == [];
      }
    }
  }

  /**
   * The dialog after a history load holds exactly the fetched messages
   * between `me` and `peer`, each as often as fetched, sorted by timestamp,
   * with messages of equal timestamp in the order the server sent them.
   */
  lemma LoadedDialogSpec(all: seq<Message>, me: IdProp, peer: int)
    ensures Sorted(LoadedDialog(all, me, peer))
    ensures forall x :: multiset(LoadedDialog(all, me, peer))[x]
                        == if InHistoryDialog(x, me, peer) then multiset(all)[x] else 0
    ensures forall t :: AtTime(LoadedDialog(all, me, peer), t) == HistoryDialog(AtTime(all, t), me, peer)
  {
    var f := HistoryDialog(all, me, peer);
    SortByTimeSorted(f);
    SortByTimePermutes(f);
    HistoryDialogCounts(all, me, peer);
    forall t ensures AtTime(LoadedDialog(all, me, peer), t) == HistoryDialog(AtTime(all, t), me, peer) {
      SortByTimeStable(f, t);
      HistoryDialogAtTime(all, me, peer, t);
    }
  }

  /**
   * With the id prop in text form (a restored session) the history filter
   * matches no message at all, whatever the server returns.
   */
  lemma RestoredSessionLoadsNothing(all: seq<Message>, s: string, peer: int)
    ensures LoadedDialog(all, Str(s), peer) == []
  {
    var f := HistoryDialog(all, Str(s), peer);
    HistoryDialogCounts(all, Str(s), peer);
    SortByTimePermutes(f);
    assert multiset(f) == multiset{};
  }

  // ---------------------------------------------------------------------
  // Live frames: dialog membership, duplicates, insertion.

  /** The live filter, which compares with `parseInt(userId)`; a null `selectedUser` matches nothing. */
  predicate InLiveDialog(m: Message, me: IdProp, sel: Option<int>) {
    var self := ParsedId(me);
    && self.Some? && sel.Some?
    && (|| (m.senderId == self.value && m.receiverId == sel.value)
        || (m.senderId == sel.value && m.receiverId == self.value))
  }

  predicate SameTuple(a: Message, b: Message) {
    a.senderId == b.senderId && a.receiverId == b.receiverId && a.content == b.content && a.timestamp == b.timestamp
  }

  /** Two entries are the same logical message: same id, or same (sender, receiver, content, timestamp). */
  predicate Duplicates(a: Message, m: Message) {
    a.id == m.id || SameTuple(a, m)
  }

  /** `prev.some(msg => msg.id === m.id || <same tuple>)`. */
  function HasDuplicate(prev: seq<Message>, m: Message): (r: bool)
    ensures r <==> exists i :: 0 <= i < |prev| && Duplicates(prev[i], m)
  {
    if prev == [] then false
    else Duplicates(prev[0], m) || (assert forall i :: 0 < i < |prev| ==> prev[i] == prev[1..][i - 1]; HasDuplicate(prev[1..], m))
  }

  /** The new `messages` after a `'message'` frame carrying `m`. */
  function LiveMessages(prev: seq<Message>, m: Message, me: IdProp, sel: Option<int>): seq<Message> {
    if InLiveDialog(m, me, sel) && !HasDuplicate(prev, m) then InsertByTime(prev, m) else prev
  }

  ghost predicate UniqueIds(s: seq<Message>) {
    forall i, j :: 0 <= i < j < |s| ==> s[i].id != s[j].id
  }

  lemma {:induction false} InsertByTimeSplit(s: seq<Message>, m: Message) returns (k: nat)
    ensures k <= |s| && InsertByTime(s, m) == s[..k] + [m] + s[k..]
  {
    if s == [] || s[|s| - 1].timestamp <= m.timestamp {
      k := |s|;
    } else {
      var s' := s[..|s| - 1];
      k := InsertByTimeSplit(s', m);
      assert s == s' + [s[|s| - 1]];
      assert s[k..] == s'[k..] + [s[|s| - 1]];
      assert s[..k] == s'[..k];
    }
  }

  /** The frame is for the open dialog and no entry shares its id or its tuple. */
  ghost predicate Admits(prev: seq<Message>, m: Message, me: IdProp, sel: Option<int>) {
    InLiveDialog(m, me, sel) && forall i :: 0 <= i < |prev| ==> !Duplicates(prev[i], m)
  }

  /** A live message is added exactly when it is admitted; otherwise the list is unchanged. */
  lemma LiveMessagesContents(prev: seq<Message>, m: Message, me: IdProp, sel: Option<int>)
    ensures Admits(prev, m, me, sel) ==> multiset(LiveMessages(prev, m, me, sel)) == multiset(prev) + multiset{m}
    ensures !Admits(prev, m, me, sel) ==> LiveMessages(prev, m, me, sel) == prev
  {
    InsertByTimePermutes(prev, m);
  }

  /** The list stays sorted by timestamp. */
  lemma LiveMessagesSorted(prev: seq<Message>, m: Message, me: IdProp, sel: Option<int>)
    requires Sorted(prev)
    ensures Sorted(LiveMessages(prev, m, me, sel))
  {
    InsertByTimeSorted(prev, m);
  }

  /** An admitted message lands after every entry with the same timestamp, which keep their order. */
  lemma LiveMessagesStable(prev: seq<Message>, m: Message, me: IdProp, sel: Option<int>, t: int)
    ensures AtTime(LiveMessages(prev, m, me, sel), t)
            == AtTime(prev, t) + (if Admits(prev, m, me, sel) && m.timestamp == t then [m] else [])
  {
    InsertByTimeAtTime(prev, m, t);
  }

  /** Distinct ids stay distinct. */
  lemma LiveMessagesKeepsIdsDistinct(prev: seq<Message>, m: Message, me: IdProp, sel: Option<int>)
    requires UniqueIds(prev)
    ensures UniqueIds(LiveMessages(prev, m, me, sel))
  {
    if Admits(prev, m, me, sel) {
      var r := LiveMessages(prev, m, me, sel);
      var k := InsertByTimeSplit(prev, m);
      assert forall i :: 0 <= i < k ==> r[i] == prev[i];
      assert forall i :: k < i < |r| ==> r[i] == prev[i - 1];
      forall i, j | 0 <= i < j < |r| ensures r[i].id != r[j].id {
        if i == k {
          assert r[j] == prev[j - 1];
        } else if j == k {
          assert r[i] == prev[i];
        } else {
          var pi := if i < k then i else i - 1;
          var pj := if j < k then j else j - 1;
          assert r[i] == prev[pi] && r[j] == prev[pj];
        }
      }
    }
  }

  /** Ingesting the same frame a second time leaves `messages` unchanged. */
  lemma LiveMessagesIdempotent(prev: seq<Message>, m: Message, me: IdProp, sel: Option<int>)
    ensures LiveMessages(LiveMessages(prev, m, me, sel), m, me, sel) == LiveMessages(prev, m, me, sel)
  {
    var r := LiveMessages(prev, m, me, sel);
    if r != prev {
      InsertByTimePermutes(prev, m);
      assert m in multiset(r);
      var i :| 0 <= i < |r| && r[i] == m;
      assert Duplicates(r[i], m);
    }
  }

  /** A message already present, by id or tuple (for instance from the history load), is not added again. */
  lemma PresentMessageNotAdded(prev: seq<Message>, m: Message, a: Message, me: IdProp, sel: Option<int>)
    requires a in prev && Duplicates(a, m)
    ensures LiveMessages(prev, m, me, sel) == prev
  {
    var i :| 0 <= i < |prev| && prev[i] == a;
  }

  // ---------------------------------------------------------------------
  // The roster and the notification decision.

  /** `usersData.filter(user => user.id !== userId)`, in directory order. */
  function OtherPeers(directory: seq<Peer>, me: IdProp): (r: seq<Peer>)
    ensures forall p :: p in r <==> p in directory && !StrictEquals(p.id, me)
    ensures |r| <= |directory|
  {
    if directory == [] then []
    else
      var rest := OtherPeers(directory[1..], me);
      assert forall p :: p in directory <==> p == directory[0] || p in directory[1..];
      if StrictEquals(directory[0].id, me) then rest else [directory[0]] + rest
  }

  /** The filter keeps directory order: filtering two halves and joining them is filtering the whole. */
  lemma {:induction false} OtherPeersAppend(a: seq<Peer>, b: seq<Peer>, me: IdProp)
    ensures OtherPeers(a + b, me) == OtherPeers(a, me) + OtherPeers(b, me)
  {
    if a == [] {
      assert a + b == b;
    } else {
      assert (a + b)[0] == a[0] && (a + b)[1..] == a[1..] + b;
      OtherPeersAppend(a[1..], b, me);
    }
  }

  /**
   * With a numeric id the user is left out of their own roster; with the id
   * in text form (a restored session) the filter keeps every entry,
   * including the user's own.
   */
  lemma OtherPeersSelf(directory: seq<Peer>, n: int)
    ensures forall p :: p in OtherPeers(directory, Num(n)) ==> p.id != n
    ensures OtherPeers(directory, Str(Text.IntText(n))) == directory
  {
    OtherPeersText(directory, Text.IntText(n));
  }

  lemma {:induction false} OtherPeersText(directory: seq<Peer>, s: string)
    ensures OtherPeers(directory, Str(s)) == directory
  {
    if directory != [] {
      OtherPeersText(directory[1..], s);
      assert directory == [directory[0]] + directory[1..];
    }
  }

  /** `users.find(u => u.id === id)`: the first roster entry with that id. */
  function FindPeer(users: seq<Peer>, id: int): (r: Option<Peer>)
    ensures r.Some? <==> exists i :: 0 <= i < |users| && users[i].id == id
    ensures r.Some? ==> exists i :: 0 <= i < |users| && users[i] == r.value && r.value.id == id
                                    && forall j :: 0 <= j < i ==> users[j].id != id
  {
    if users == [] then None
    else if users[0].id == id then Some(users[0])
    else
      var r := FindPeer(users[1..], id);
      assert forall i :: 0 < i < |users| ==> users[i] == users[1..][i - 1];
      assert r.Some? ==> exists i :: 1 <= i < |users| && users[i] == r.value && r.value.id == id
                                     && forall j :: 0 <= j < i ==> users[j].id != id by {
        if r.Some? {
          var i :| 0 <= i < |users[1..]| && users[1..][i] == r.value && r.value.id == id
                   && forall j :: 0 <= j < i ==> users[1..][j].id != id;
          assert users[i + 1] == r.value;
        }
      }
      r
  }

  /** `messages.some(msg => msg.id === id)`. */
  function HasId(prev: seq<Message>, id: int): (r: bool)
    ensures r <==> exists i :: 0 <= i < |prev| && prev[i].id == id
  {
    if prev == [] then false
    else prev[0].id == id || (assert forall i :: 0 < i < |prev| ==> prev[i] == prev[1..][i - 1]; HasId(prev[1..], id))
  }

  /**
   * Whether the frame raises `onNewMessage`, and with what argument: the
   * message is addressed to the user, its sender is not the open dialog's
   * peer, the sender is in the roster, and no entry of the current
   * `messages` has its id.
   */
  function NotifyDecision(prev: seq<Message>, m: Message, me: IdProp, sel: Option<int>, users: seq<Peer>)
    : (r: Option<NewMessageEvent>)
    ensures r.Some? <==> && ParsedId(me) == Some(m.receiverId)
                         && sel != Some(m.senderId)
                         && (exists i :: 0 <= i < |users| && users[i].id == m.senderId)
                         && !(exists i :: 0 <= i < |prev| && prev[i].id == m.id)
    ensures r.Some? ==> r.value.message == m
                        && exists i :: 0 <= i < |users| && users[i].id == m.senderId
                                       && users[i].nickname == r.value.senderNickname
  {
    if ParsedId(me) == Some(m.receiverId) && sel != Some(m.senderId) then
      match FindPeer(users, m.senderId)
      case None => None
      case Some(p) => if HasId(prev, m.id) then None else Some(NewMessageEvent(m, p.nickname))
    else None
  }

  /** A message from the peer whose dialog is open never notifies. */
  lemma NoNotificationFromOpenPeer(prev: seq<Message>, m: Message, me: IdProp, peer: int, users: seq<Peer>)
    requires m.senderId == peer
    ensures NotifyDecision(prev, m, me, Some(peer), users) == None
  {
  }

  /** A message the user sent to someone else never notifies. */
  lemma NoNotificationForOwnMessage(prev: seq<Message>, m: Message, me: IdProp, sel: Option<int>, users: seq<Peer>)
    requires ParsedId(me) == Some(m.senderId) && m.receiverId != m.senderId
    ensures NotifyDecision(prev, m, me, sel, users) == None
  {
  }

  /**
   * A notifying frame (other than a message to oneself) is never part of the
   * open dialog, so ingesting it leaves `messages` as it was and the
   * duplicate check cannot suppress it: each re-run of the effect on the
   * same frame raises the same event again.
   */
  lemma NotificationRepeatsOnReingest(prev: seq<Message>, m: Message, me: IdProp, sel: Option<int>, users: seq<Peer>)
    requires NotifyDecision(prev, m, me, sel, users).Some? && m.senderId != m.receiverId
    ensures LiveMessages(prev, m, me, sel) == prev
    ensures NotifyDecision(LiveMessages(prev, m, me, sel), m, me, sel, users) == NotifyDecision(prev, m, me, sel, users)
  {
    assert !InLiveDialog(m, me, sel);
  }

  // ---------------------------------------------------------------------
  // The preview table `chatHistory`.

  const UnknownSender := "Неизвестный отправитель"

  /** `sender ? sender.nickname : 'Неизвестный отправитель'`. */
  function SenderLabel(users: seq<Peer>, id: int): (r: string)
    ensures (exists i :: 0 <= i < |users| && users[i].id == id) ==> r == FindPeer(users, id).value.nickname
    ensures !(exists i :: 0 <= i < |users| && users[i].id == id) ==> r == UnknownSender
  {
    match FindPeer(users, id)
    case Some(p) => p.nickname
    case None => UnknownSender
  }

  /** The preview a message produces: its ciphertext, plaintext, sender label and timestamp. */
  function SummaryOf(m: Message, users: seq<Peer>): Summary {
    Summary(m.encrypted, m.content, Some(SenderLabel(users, m.senderId)), Some(m.timestamp))
  }

  /** The peer key on history load, where the sender is compared with `===`. */
  function LoadKey(m: Message, me: IdProp): int {
    if StrictEquals(m.senderId, me) then m.receiverId else m.senderId
  }

  /** The peer key on a live frame, where the sender is compared with `parseInt(userId)`. */
  function LiveKey(m: Message, me: IdProp): int {
    if ParsedId(me) == Some(m.senderId) then m.receiverId else m.senderId
  }

  /**
   * The table the history load builds from all fetched messages, in fetch
   * order: an entry is replaced only by a strictly later message.
   */
  function HistoryOf(ms: seq<Message>, me: IdProp, users: seq<Peer>): map<int, Summary> {
    if ms == [] then map[]
    else
      var h := HistoryOf(ms[..|ms| - 1], me, users);
      var m := ms[|ms| - 1];
      var k := LoadKey(m, me);
      if k !in h || (h[k].lastTimestamp.Some? && m.timestamp > h[k].lastTimestamp.value)
      then h[k := SummaryOf(m, users)]
      else h
  }

  /** `ms[j]` is the earliest of the latest messages for peer key `k`. */
  ghost predicate LatestFirst(ms: seq<Message>, me: IdProp, k: int, j: int) {
    && 0 <= j < |ms| && LoadKey(ms[j], me) == k
    && (forall i :: 0 <= i < |ms| && LoadKey(ms[i], me) == k ==> ms[i].timestamp <= ms[j].timestamp)
    && (forall i :: 0 <= i < j && LoadKey(ms[i], me) == k ==> ms[i].timestamp < ms[j].timestamp)
  }

  /** At most one index is the earliest latest one. */
  lemma LatestFirstUnique(ms: seq<Message>, me: IdProp, k: int, j1: int, j2: int)
    requires LatestFirst(ms, me, k, j1) && LatestFirst(ms, me, k, j2)
    ensures j1 == j2
  {
  }

  /**
   * The rebuilt table has a key for every peer some fetched message
   * involves and no other, and each key holds the preview of the message
   * with the greatest timestamp for that peer; among equal timestamps the
   * first one fetched wins.
   */
  lemma {:induction false} HistoryOfSpec(ms: seq<Message>, me: IdProp, users: seq<Peer>)
    ensures forall k :: k in HistoryOf(ms, me, users) <==> exists i :: 0 <= i < |ms| && LoadKey(ms[i], me) == k
    ensures forall k :: k in HistoryOf(ms, me, users) ==>
              exists j :: LatestFirst(ms, me, k, j) && HistoryOf(ms, me, users)[k] == SummaryOf(ms[j], users)
  {
    HistoryOfKeys(ms, me, users);
    HistoryOfLatest(ms, me, users);
  }

  lemma {:induction false} HistoryOfKeys(ms: seq<Message>, me: IdProp, users: seq<Peer>)
    ensures forall k :: k in HistoryOf(ms, me, users) <==> exists i :: 0 <= i < |ms| && LoadKey(ms[i], me) == k
  {
    if ms != [] {
      var ms' := ms[..|ms| - 1];
      HistoryOfKeys(ms', me, users);
      assert forall i :: 0 <= i < |ms'| ==> ms[i] == ms'[i];
      forall k | exists i :: 0 <= i < |ms| && LoadKey(ms[i], me) == k
        ensures k in HistoryOf(ms, me, users)
      {
        var i :| 0 <= i < |ms| && LoadKey(ms[i], me) == k;
        if i < |ms'| {
          assert k in HistoryOf(ms', me, users);
        }
      }
    }
  }

  lemma HistoryOfLatest(ms: seq<Message>, me: IdProp, users: seq<Peer>)
    ensures forall k :: k in HistoryOf(ms, me, users) ==>
              exists j :: LatestFirst(ms, me, k, j) && HistoryOf(ms, me, users)[k] == SummaryOf(ms[j], users)
  {
    forall k | k in HistoryOf(ms, me, users)
      ensures exists j :: LatestFirst(ms, me, k, j) && HistoryOf(ms, me, users)[k] == SummaryOf(ms[j], users)
    {
      var j := HistoryOfLatestAt(ms, me, users, k);
    }
  }

  lemma {:induction false} HistoryOfLatestAt(ms: seq<Message>, me: IdProp, users: seq<Peer>, k: int) returns (j: int)
    requires k in HistoryOf(ms, me, users)
    ensures LatestFirst(ms, me, k, j) && HistoryOf(ms, me, users)[k] == SummaryOf(ms[j], users)
  {
    var ms' := ms[..|ms| - 1];
    var m := ms[|ms| - 1];
    var h' := HistoryOf(ms', me, users);
    var h := HistoryOf(ms, me, users);
    if k != LoadKey(m, me) {
      assert k in h';
      j := HistoryOfLatestAt(ms', me, users, k);
      LatestFirstExtend(ms, me, k, j);
    } else if k !in h' {
      HistoryOfKeys(ms', me, users);
      assert forall i :: 0 <= i < |ms'| ==> ms[i] == ms'[i];
      j := |ms| - 1;
    } else {
      j := HistoryOfLatestAt(ms', me, users, k);
      if m.timestamp > ms'[j].timestamp {
        assert forall i :: 0 <= i < |ms'| ==> ms[i] == ms'[i];
        j := |ms| - 1;
      } else {
        LatestFirstExtend(ms, me, k, j);
      }
    }
  }

  /** A latest message stays latest when a message not later than it is appended. */
  lemma LatestFirstExtend(ms: seq<Message>, me: IdProp, k: int, j: int)
    requires ms != [] && LatestFirst(ms[..|ms| - 1], me, k, j)
    requires LoadKey(ms[|ms| - 1], me) == k ==> ms[|ms| - 1].timestamp <= ms[j].timestamp
    ensures LatestFirst(ms, me, k, j)
  {
    var ms' := ms[..|ms| - 1];
    assert forall i :: 0 <= i < |ms'| ==> ms[i] == ms'[i];
  }

  /** The `'message'`-frame update: the key's entry is overwritten with this message, whatever it held. */
  function LiveSummary(h: map<int, Summary>, m: Message, me: IdProp, users: seq<Peer>): map<int, Summary> {
    h[LiveKey(m, me) := SummaryOf(m, users)]
  }

  /** Every `'message'` frame leaves exactly its own key changed, to its own preview. */
  lemma LiveSummaryFrame(h: map<int, Summary>, m: Message, me: IdProp, users: seq<Peer>)
    ensures var r := LiveSummary(h, m, me, users);
            && r.Keys == h.Keys + {LiveKey(m, me)}
            && r[LiveKey(m, me)].lastTimestamp == Some(m.timestamp)
            && r[LiveKey(m, me)].lastDecrypted == m.content
            && r[LiveKey(m, me)].lastEncrypted == m.encrypted
            && r[LiveKey(m, me)].lastSender == Some(SenderLabel(users, m.senderId))
            && forall k :: k in h && k != LiveKey(m, me) ==> r[k] == h[k]
  {
  }

  /**
   * With a numeric id, a live frame that is strictly later than every
   * fetched message for its peer leaves the table as a fresh rebuild over
   * the fetched list plus this message would.
   */
  lemma LiveSummaryAgreesWithRebuild(ms: seq<Message>, m: Message, n: int, users: seq<Peer>)
    requires forall i :: 0 <= i < |ms| && LoadKey(ms[i], Num(n)) == LoadKey(m, Num(n)) ==> ms[i].timestamp < m.timestamp
    ensures LiveSummary(HistoryOf(ms, Num(n), users), m, Num(n), users) == HistoryOf(ms + [m], Num(n), users)
  {
    var me := Num(n);
    var k := LoadKey(m, me);
    assert LiveKey(m, me) == k;
    assert (ms + [m])[..|ms|] == ms;
    var h := HistoryOf(ms, me, users);
    if k in h {
      var j := HistoryOfLatestAt(ms, me, users, k);
      assert h[k].lastTimestamp == Some(ms[j].timestamp);
    }
    assert HistoryOf(ms + [m], me, users) == h[k := SummaryOf(m, users)];
  }

  /**
   * Last write wins: a live frame older than a fetched message for the same
   * peer still overwrites that peer's entry, where a rebuild would keep the
   * newer message.
   */
  lemma LiveSummaryLastWriteWins(ms: seq<Message>, m: Message, n: int, users: seq<Peer>, i: int)
    requires 0 <= i < |ms| && LoadKey(ms[i], Num(n)) == LoadKey(m, Num(n)) && m.timestamp < ms[i].timestamp
    ensures LiveSummary(HistoryOf(ms, Num(n), users), m, Num(n), users) != HistoryOf(ms + [m], Num(n), users)
  {
    var me := Num(n);
    var k := LoadKey(m, me);
    assert (ms + [m])[..|ms|] == ms;
    var h := HistoryOf(ms + [m], me, users);
    assert k in h;
    assert (ms + [m])[i] == ms[i];
    var j := HistoryOfLatestAt(ms + [m], me, users, k);
    assert (ms + [m])[j].timestamp >= ms[i].timestamp;
    assert LiveSummary(HistoryOf(ms, me, users), m, me, users)[k].lastTimestamp == Some(m.timestamp);
  }

  /**
   * The send and decrypt paths: `{...prev[k], lastEncrypted, lastDecrypted}`.
   * The other two fields are kept, or absent when the key was new.
   */
  function WithPreview(h: map<int, Summary>, k: int, encrypted: string, plain: string): (r: map<int, Summary>)
    ensures r.Keys == h.Keys + {k}
    ensures r[k].lastEncrypted == encrypted && r[k].lastDecrypted == plain
    ensures k in h ==> r[k].lastSender == h[k].lastSender && r[k].lastTimestamp == h[k].lastTimestamp
    ensures k !in h ==> r[k].lastSender.None? && r[k].lastTimestamp.None?
    ensures forall k' :: k' in h && k' != k ==> r[k'] == h[k']
  {
    h[k := if k in h then h[k].(lastEncrypted := encrypted, lastDecrypted := plain)
           else Summary(encrypted, plain, None, None)]
  }

  // ---------------------------------------------------------------------
  // The send validation chain.

  const ErrEmptyMessage := "Сообщение не может быть пустым"
  const ErrNoRecipient := "Пожалуйста, выберите получателя"
  const ErrRecipientNotFound := "Получатель не найден"
  const ErrNoPublicKey := "У получателя нет публичного ключа. Сообщение не может быть зашифровано."
  const ErrSendFailed := "Произошла ошибка при отправке сообщения"
  const ErrNoPrivateKey := "У вас нет приватного ключа для расшифровки"
  /** Both the error text of a failed decryption and the value the handler returns then. */
  const DecryptPlaceholder := "Не удалось расшифровать сообщение"
  const ErrRosterFailed := "Не удалось загрузить данные пользователей"

  /** `if (selectedUser)`: null and the id 0 are both falsy. */
  predicate Truthy(sel: Option<int>) {
    sel.Some? && sel.value != 0
  }

  /** `if (receiver.public_key)`: null and the empty key are both falsy. */
  predicate HasKey(p: Peer) {
    p.publicKey.Some? && p.publicKey.value != ""
  }

  /**
   * The checks in front of encryption, in source order. On success the
   * result is the roster entry of the selected peer, whose key is used.
   */
  function SendCheck(draft: string, sel: Option<int>, users: seq<Peer>): (r: Result<Peer, string>)
    ensures r == Err(ErrEmptyMessage) <==> Text.AllSpace(draft)
    ensures r == Err(ErrNoRecipient) <==> !Text.AllSpace(draft) && !Truthy(sel)
    ensures r == Err(ErrRecipientNotFound) <==>
              !Text.AllSpace(draft) && Truthy(sel) && !(exists i :: 0 <= i < |users| && users[i].id == sel.value)
    ensures r == Err(ErrNoPublicKey) <==>
              !Text.AllSpace(draft) && Truthy(sel) && FindPeer(users, sel.value).Some?
              && !HasKey(FindPeer(users, sel.value).value)
    ensures r.Ok? <==>
              !Text.AllSpace(draft) && Truthy(sel) && FindPeer(users, sel.value).Some?
              && HasKey(FindPeer(users, sel.value).value)
    ensures r.Ok? ==>
              && r.value == FindPeer(users, sel.value).value
              && r.value.id == sel.value && r.value in users
  {
    Text.TrimEmptyIff(draft);
    if Text.Trim(draft) == "" then Err(ErrEmptyMessage)
    else if !Truthy(sel) then Err(ErrNoRecipient)
    else match FindPeer(users, sel.value)
      case None => Err(ErrRecipientNotFound)
      case Some(p) => if !HasKey(p) then Err(ErrNoPublicKey) else Ok(p)
  }

  // ---------------------------------------------------------------------
  // The rebuild loop, as the source writes it.

  /**
   * `messages.forEach(...)` over the whole fetched list, building a fresh
   * table: the keys are exactly the peers the list involves, each holding
   * the earliest of its latest messages.
   */
  method RebuildHistory(all: seq<Message>, me: IdProp, users: seq<Peer>) returns (h: map<int, Summary>)
    ensures h == HistoryOf(all, me, users)
    ensures forall k :: k in h <==> exists i :: 0 <= i < |all| && LoadKey(all[i], me) == k
    ensures forall k :: k in h ==> exists j :: LatestFirst(all, me, k, j) && h[k] == SummaryOf(all[j], users)
  {
    h := map[];
    var i := 0;
    while i < |all|
      invariant 0 <= i <= |all|
      invariant h == HistoryOf(all[..i], me, users)
    {
      var m := all[i];
      var chatId := LoadKey(m, me);
      var sender := SenderLabel(users, m.senderId);
      if chatId !in h || (h[chatId].lastTimestamp.Some? && m.timestamp > h[chatId].lastTimestamp.value) {
        h := h[chatId := Summary(m.encrypted, m.content, Some(sender), Some(m.timestamp))];
      }
      assert all[..i + 1][..i] == all[..i];
      i := i + 1;
    }
    assert all[..|all|] == all;
    HistoryOfSpec(all, me, users);
  }
}
