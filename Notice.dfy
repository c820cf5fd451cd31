/**
 * The new-message toast: a card stacked at a fixed offset per index, hidden
 * after 5000 ms or on a click, and a click that navigates to the sender's
 * dialog 100 ms later.
 */
module Notice {
  import opened Wrappers
  import opened Records
  import Text

  const DismissDelay := 5000
  const NavigationDelay := 100
  const SlotHeight := 80
  const BaseOffset := 20

  /** `20 + index * 80`, the card's distance from the bottom edge in pixels. */
  function BottomPosition(index: int): int {
    BaseOffset + index * SlotHeight
  }

  /** Later cards sit strictly higher, exactly one slot per index apart, so two cards never share a slot. */
  lemma BottomPositionSpacing(i: int, j: int)
    ensures i < j ==> BottomPosition(i) < BottomPosition(j)
    ensures BottomPosition(j) - BottomPosition(i) == SlotHeight * (j - i)
    ensures i != j ==> BottomPosition(i) - BottomPosition(j) >= SlotHeight || BottomPosition(j) - BottomPosition(i) >= SlotHeight
  {
  }

  /** The first card sits 20 px above the edge, and a card with a non-negative index never lower. */
  lemma BottomPositionFloor(index: int)
    ensures index >= 0 ==> BottomPosition(index) >= BaseOffset
    ensures BottomPosition(0) == BaseOffset
  {
  }

  /** `/chat/${message.sender_id}`. */
  function ChatPath(senderId: int): string {
    "/chat/" + Text.IntText(senderId)
  }

  /** The `:userId` segment of the navigation target reads back, through `parseInt`, as the sender's id. */
  lemma ChatPathSegment(senderId: int)
    ensures ChatPath(senderId)[..6] == "/chat/"
    ensures Text.ParseInt(ChatPath(senderId)[6..]) == Some(senderId)
  {
    assert ChatPath(senderId)[6..] == Text.IntText(senderId);
    Text.ParseIntText(senderId);
  }

  /** The navigation target names the sender and no one else. */
  lemma ChatPathInjective(a: int, b: int)
    ensures ChatPath(a) == ChatPath(b) <==> a == b
  {
    if ChatPath(a) == ChatPath(b) {
      assert Text.IntText(a) == ChatPath(a)[6..];
      assert Text.IntText(b) == ChatPath(b)[6..];
      Text.IntTextInjective(a, b);
    }
  }

  datatype Card = Card(bottom: int, sender: string, preview: string)

  /**
   * One mounted toast. `dismissTimer` and `navTimer` hold the time left on
   * the pending 5000 ms and 100 ms timers; `onCloseCalls` counts calls of
   * the `onClose` prop and `navigations` records each `navigate` call.
   */
  class Notification {
    const message: NewMessageEvent
    const index: int
    var isVisible: bool
    var mounted: bool
    var dismissTimer: Option<nat>
    var navTimer: Option<nat>
    var onCloseCalls: nat
    var navigations: seq<string>

    /** What is drawn: nothing once hidden. */
    function Rendered(): Option<Card>
      reads this
    {
      if isVisible then Some(Card(BottomPosition(index), message.senderNickname, message.message.content)) else None
    }

    /** Mounting shows the card and its effect arms the 5000 ms timer. */
    constructor (message: NewMessageEvent, index: int)
      ensures this.message == message && this.index == index
      ensures isVisible && mounted && dismissTimer == Some(DismissDelay) && navTimer == None
      ensures onCloseCalls == 0 && navigations == []
      ensures Rendered() == Some(Card(BottomPosition(index), message.senderNickname, message.message.content))
    {
      this.message := message;
      this.index := index;
      isVisible := true;
      mounted := true;
      dismissTimer := Some(DismissDelay);
      navTimer := None;
      onCloseCalls := 0;
      navigations := [];
    }

    /**
     * A click on the visible card: it hides, calls `onClose`, and schedules
     * the navigation. The 5000 ms timer is not cleared.
     */
    method Click()
      requires mounted && isVisible
      modifies this`isVisible, this`onCloseCalls, this`navTimer
      ensures !isVisible && Rendered() == None
      ensures onCloseCalls == old(onCloseCalls) + 1 && navTimer == Some(NavigationDelay)
    {
      isVisible := false;
      onCloseCalls := onCloseCalls + 1;
      navTimer := Some(NavigationDelay);
    }

    /**
     * `ms` milliseconds pass. A due 5000 ms timer hides the card and calls
     * `onClose`, whether or not a click already did; a due navigation
     * timer navigates to the sender's dialog, even after unmounting.
     */
    method Elapse(ms: nat)
      modifies this`isVisible, this`onCloseCalls, this`navigations, this`dismissTimer, this`navTimer
      ensures match old(dismissTimer)
              case None => dismissTimer == None && isVisible == old(isVisible) && onCloseCalls == old(onCloseCalls)
              case Some(t) =>
                if t <= ms then dismissTimer == None && !isVisible && onCloseCalls == old(onCloseCalls) + 1
                else dismissTimer == Some(t - ms) && isVisible == old(isVisible) && onCloseCalls == old(onCloseCalls)
      ensures match old(navTimer)
              case None => navTimer == None && navigations == old(navigations)
              case Some(t) =>
                if t <= ms then navTimer == None && navigations == old(navigations) + [ChatPath(message.message.senderId)]
                else navTimer == Some(t - ms) && navigations == old(navigations)
    {
      if dismissTimer.Some? {
        var t := dismissTimer.value;
        if t <= ms {
          isVisible := false;
          onCloseCalls := onCloseCalls + 1;
          dismissTimer := None;
        } else {
          dismissTimer := Some(t - ms);
        }
      }
      if navTimer.Some? {
        var t := navTimer.value;
        if t <= ms {
          navigations := navigations + [ChatPath(message.message.senderId)];
          navTimer := None;
        } else {
          navTimer := Some(t - ms);
        }
      }
    }

    /** A new `onClose` prop re-runs the effect: the pending timer is cleared and a fresh 5000 ms one armed. */
    method OnCloseChanged()
      requires mounted
      modifies this`dismissTimer
      ensures dismissTimer == Some(DismissDelay)
    {
      dismissTimer := Some(DismissDelay);
    }

    /** Unmounting runs the cleanup, which clears the 5000 ms timer only. */
    method Unmount()
      requires mounted
      modifies this`mounted, this`dismissTimer
      ensures !mounted && dismissTimer == None
    {
      mounted := false;
      dismissTimer := None;
    }
  }

  /** Left alone for 5000 ms, a toast hides and calls `onClose` once. */
  method UntouchedToastCloses(message: NewMessageEvent, index: int) returns (n: Notification)
    ensures n.Rendered() == None && n.onCloseCalls == 1 && n.navigations == []
  {
    n := new Notification(message, index);
    n.Elapse(DismissDelay);
  }

  /**
   * A click followed by 5000 ms without unmounting: one navigation to the
   * sender's dialog, and `onClose` called twice because the click leaves
   * the 5000 ms timer armed.
   */
  method ClickedToastClosesTwice(message: NewMessageEvent, index: int) returns (n: Notification)
    ensures n.Rendered() == None && n.onCloseCalls == 2
    ensures n.navigations == [ChatPath(message.message.senderId)]
  {
    n := new Notification(message, index);
    n.Click();
    n.Elapse(DismissDelay);
  }
}
