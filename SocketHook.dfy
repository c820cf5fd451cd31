/**
 * The live-channel hook: one WebSocket per url, a connected flag flipped by
 * the socket's events, the newest inbound frame, and a send that silently
 * drops its payload unless a socket exists and the flag is set. The flag
 * does not say whether the current socket itself has opened: `send` on a
 * socket that is still connecting throws, and the hook does not catch it.
 */
module SocketHook {
  import opened Wrappers
  import opened Records

  /**
   * The hook's state. Sockets are numbered in creation order; `created[h]` is
   * the url socket `h` was created for and `closed` holds the ones closed
   * by a cleanup. `openEvents` and `closeEvents` hold the sockets whose open
   * and close events have fired. `transmitted` records what `socket.send` accepted.
   */
  class WebSocketHook {
    var url: string
    var socket: Option<nat>
    var isConnected: bool
    var lastMessage: Option<Frame>
    var created: seq<string>
    var closed: set<nat>
    var openEvents: set<nat>
    var closeEvents: set<nat>
    var transmitted: seq<(nat, Payload)>

    /** Every created socket except the current one has been closed, and the current one is for `url`. */
    ghost predicate Valid()
      reads this
    {
      && (socket.Some? ==> socket.value < |created| && created[socket.value] == url && socket.value !in closed)
      && (forall h :: h in closed ==> h < |created|)
      && (forall h :: 0 <= h < |created| && socket != Some(h) ==> h in closed)
      && (forall i :: 0 <= i < |transmitted| ==> transmitted[i].0 < |created|)
    }

    /** `socket && isConnected`, the gate in front of `send`. */
    predicate CanSend()
      reads this
    {
      socket.Some? && isConnected
    }

    /**
     * Socket `h` is still connecting: it has neither opened nor closed, and
     * no cleanup has closed it. `send` on such a socket throws.
     */
    predicate Connecting(h: nat)
      reads this
    {
      h !in openEvents && h !in closeEvents && h !in closed
    }

    /** The gate is open but the current socket is still connecting, so `send` throws. */
    predicate SendThrows()
      reads this
    {
      CanSend() && Connecting(socket.value)
    }

    /** The first render: no socket yet, not connected, no frame. */
    constructor (url: string)
      ensures Valid()
      ensures this.url == url && socket == None && !isConnected && lastMessage == None
      ensures created == [] && closed == {} && openEvents == {} && closeEvents == {} && transmitted == []
    {
      this.url := url;
      socket := None;
      isConnected := false;
      lastMessage := None;
      created := [];
      closed := {};
      openEvents := {};
      closeEvents := {};
      transmitted := [];
    }

    /** The effect's first run after mounting: a new socket for `url` becomes the current socket. */
    method Mount()
      requires Valid() && socket == None
      modifies this
      ensures Valid()
      ensures socket == Some(|old(created)|) && created == old(created) + [url]
      ensures url == old(url) && isConnected == old(isConnected) && lastMessage == old(lastMessage)
      ensures closed == old(closed) && openEvents == old(openEvents) && closeEvents == old(closeEvents) && transmitted == old(transmitted)
    {
      socket := Some(|created|);
      created := created + [url];
    }

    /**
     * A re-render with url `u`. The same url leaves everything as it was, so
     * nothing reopens a socket that has closed. A new url runs the cleanup,
     * which closes the current socket, and then the effect, which opens one
     * for `u`; the connected flag and the last frame are left as they were.
     */
    method ChangeUrl(u: string)
      requires Valid() && socket.Some?
      modifies this
      ensures Valid()
      ensures u == old(url) ==> created == old(created) && closed == old(closed) && socket == old(socket) && url == old(url)
      ensures u != old(url) ==> && url == u && created == old(created) + [u]
                                && closed == old(closed) + {old(socket).value}
                                && socket == Some(|old(created)|)
      ensures isConnected == old(isConnected) && lastMessage == old(lastMessage) && transmitted == old(transmitted)
      ensures openEvents == old(openEvents) && closeEvents == old(closeEvents)
    {
      if u != url {
        closed := closed + {socket.value};
        url := u;
        socket := Some(|created|);
        created := created + [u];
      }
    }

    /** Unmounting runs the cleanup: the current socket is closed. */
    method Unmount()
      requires Valid() && socket.Some?
      modifies this
      ensures closed == old(closed) + {old(socket).value}
      ensures forall h :: 0 <= h < |created| ==> h in closed
      ensures socket == old(socket) && url == old(url) && created == old(created)
      ensures isConnected == old(isConnected) && lastMessage == old(lastMessage) && transmitted == old(transmitted)
      ensures openEvents == old(openEvents) && closeEvents == old(closeEvents)
    {
      closed := closed + {socket.value};
    }

    /** `onopen` of socket `h`: the flag is set and `h` has opened. */
    method OnOpen(h: nat)
      requires Valid() && h < |created|
      modifies this`isConnected, this`openEvents
      ensures Valid() && isConnected && openEvents == old(openEvents) + {h}
    {
      isConnected := true;
      openEvents := openEvents + {h};
    }

    /**
     * `onclose` of socket `h`, current or superseded: the handler does not
     * check which socket closed, so a late close of the old socket also
     * marks the hook disconnected.
     */
    method OnClose(h: nat)
      requires Valid() && h < |created|
      modifies this`isConnected, this`closeEvents
      ensures Valid() && !isConnected && closeEvents == old(closeEvents) + {h}
    {
      isConnected := false;
      closeEvents := closeEvents + {h};
    }

    /** `onmessage` of socket `h`: the newest frame replaces the previous one; nothing is queued. */
    method OnMessage(h: nat, f: Frame)
      requires Valid() && h < |created|
      modifies this`lastMessage
      ensures Valid() && lastMessage == Some(f)
    {
      lastMessage := Some(f);
    }

    /**
     * `sendMessage`: with the gate shut the payload is dropped; with it open
     * the payload goes to `send` on the current socket, which throws
     * (`threw`) when that socket is still connecting and accepts it
     * otherwise.
     */
    method SendMessage(p: Payload) returns (threw: bool)
      requires Valid()
      modifies this`transmitted
      ensures Valid()
      ensures threw <==> old(SendThrows())
      ensures old(CanSend()) && !threw ==> transmitted == old(transmitted) + [(socket.value, p)]
      ensures !old(CanSend()) || threw ==> transmitted == old(transmitted)
    {
      threw := false;
      if socket.Some? && isConnected {
        if Connecting(socket.value) {
          threw := true;
        } else {
          transmitted := transmitted + [(socket.value, p)];
        }
      }
    }
  }

  /**
   * The stale-close race: when the url changes, the new socket opens and the
   * old socket's close event arrives afterwards, the hook reports itself
   * disconnected while its current socket is open, and the next send is
   * dropped.
   */
  method StaleCloseDropsSends(first: string, second: string, p: Payload) returns (hook: WebSocketHook)
    requires first != second
    ensures hook.Valid() && hook.socket == Some(1) && 1 !in hook.closed
    ensures !hook.isConnected && hook.transmitted == []
  {
    hook := new WebSocketHook(first);
    hook.Mount();
    hook.OnOpen(0);
    hook.ChangeUrl(second);
    hook.OnOpen(1);
    hook.OnClose(0);
    var threw := hook.SendMessage(p);
  }

  /**
   * The url-change race: once the first socket has opened, a new url keeps
   * the connected flag while the new socket is still connecting, so the gate
   * is open, `send` throws and nothing is transmitted.
   */
  method UrlChangeSendThrows(first: string, second: string, p: Payload) returns (hook: WebSocketHook, threw: bool)
    requires first != second
    ensures hook.Valid() && hook.socket == Some(1) && hook.isConnected
    ensures threw && hook.transmitted == []
  {
    hook := new WebSocketHook(first);
    hook.Mount();
    hook.OnOpen(0);
    hook.ChangeUrl(second);
    threw := hook.SendMessage(p);
  }
}
