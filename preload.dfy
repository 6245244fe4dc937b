/**
 * The renderer's IPC bridge (V2/src/preload.js): three fixed allow-lists
 * and the `send`, `receive` and `invoke` gates in front of the transport.
 * The transport is modelled by what it is asked to do: the messages sent,
 * the listeners registered, the calls invoked.
 */
module Preload {
  import opened Wrappers

  const SendChannels: seq<string> := [
    "toggle-visibility", "move-window", "screenshot-event", "set-api-key",
    "set-preferred-provider", "reset-screenshots", "quit-app"]

  const ReceiveChannels: seq<string> := [
    "screenshot-taken", "generate-solution", "reset-app", "scroll-problem",
    "extraction-complete"]

  const InvokeChannels: seq<string> := [
    "extract-problem", "generate-solution", "extract-code", "optimize-solution",
    "get-current-provider"]

  /** One message handed to the transport. */
  datatype Message<D> = Message(channel: string, data: D)

  // ---------------------------------------------------------------------
  // send
  // ---------------------------------------------------------------------

  /** The messages `send(channel, data)` hands to the transport. */
  function Send<D>(channel: string, data: D): (r: seq<Message<D>>)
    ensures |r| <= 1
    ensures r != [] <==> channel in SendChannels
    ensures forall k :: 0 <= k < |r| ==> r[k] == Message(channel, data)
  {
    if channel in SendChannels then [Message(channel, data)] else []
  }

  /** The messages a run of `send` calls hands to the transport, in order. */
  function SendAll<D>(requests: seq<Message<D>>): seq<Message<D>> {
    if requests == [] then []
    else Send(requests[0].channel, requests[0].data) + SendAll(requests[1..])
  }

  function Allowed<D>(requests: seq<Message<D>>): (r: seq<Message<D>>)
    ensures forall k :: 0 <= k < |r| ==> r[k].channel in SendChannels
  {
    if requests == [] then []
    else if requests[0].channel in SendChannels then [requests[0]] + Allowed(requests[1..])
    else Allowed(requests[1..])
  }

  /**
   * Whatever the renderer sends, the transport sees exactly the requests
   * on allow-listed channels, unaltered and in their order.
   */
  lemma {:induction false} SendAllForwardsAllowed<D>(requests: seq<Message<D>>)
    ensures SendAll(requests) == Allowed(requests)
    ensures forall k :: 0 <= k < |SendAll(requests)| ==> SendAll(requests)[k].channel in SendChannels
    decreases |requests|
  {
    if requests != [] {
      SendAllForwardsAllowed(requests[1..]);
    }
  }

  // ---------------------------------------------------------------------
  // receive
  // ---------------------------------------------------------------------

  /**
   * A registered listener: the wrapper the bridge created, identified by
   * `wrapper`, and the renderer's function `handler` it calls.
   */
  datatype Listener = Listener(channel: string, wrapper: nat, handler: nat)

  /** What `receive` did: the listeners afterwards and the remover it returned, if any. */
  datatype Registration = Registration(listeners: seq<Listener>, remover: Option<Listener>)

  /** `receive(channel, handler)`, where `newWrapper` names the new wrapper. */
  function Receive(listeners: seq<Listener>, channel: string, handler: nat, newWrapper: nat): (r: Registration)
    ensures channel !in ReceiveChannels ==> r.listeners == listeners && r.remover.None?
    ensures channel in ReceiveChannels ==>
      r.remover == Some(Listener(channel, newWrapper, handler)) && r.listeners == listeners + [r.remover.value]
  {
    if channel in ReceiveChannels then
      var w := Listener(channel, newWrapper, handler);
      Registration(listeners + [w], Some(w))
    else Registration(listeners, None)
  }

  /** Calling a remover: the one wrapper it names leaves the registry. */
  function Remove(listeners: seq<Listener>, w: Listener): (r: seq<Listener>)
    ensures forall k :: 0 <= k < |r| ==> r[k] != w && r[k] in listeners
    ensures forall l :: l in listeners && l != w ==> l in r
  {
    if listeners == [] then []
    else if listeners[0] == w then Remove(listeners[1..], w)
    else [listeners[0]] + Remove(listeners[1..], w)
  }

  /** The handlers a message on `channel` reaches, in registration order. */
  function Handlers(listeners: seq<Listener>, channel: string): seq<nat> {
    if listeners == [] then []
    else (if listeners[0].channel == channel then [listeners[0].handler] else []) + Handlers(listeners[1..], channel)
  }

  function WrapperIds(listeners: seq<Listener>): set<nat> {
    set k | 0 <= k < |listeners| :: listeners[k].wrapper
  }

  lemma {:induction false} RemoveLast(listeners: seq<Listener>, w: Listener)
    requires w.wrapper !in WrapperIds(listeners)
    ensures Remove(listeners + [w], w) == listeners
    decreases |listeners|
  {
    if listeners == [] {
      assert [w][1..] == [];
    } else {
      assert (listeners + [w])[1..] == listeners[1..] + [w];
      assert listeners[0].wrapper in WrapperIds(listeners);
      assert WrapperIds(listeners[1..]) <= WrapperIds(listeners) by {
        forall k | 0 <= k < |listeners[1..]| ensures listeners[1..][k].wrapper in WrapperIds(listeners) {
          assert listeners[1..][k] == listeners[k + 1];
        }
      }
      RemoveLast(listeners[1..], w);
    }
  }

  lemma {:induction false} HandlersAppend(listeners: seq<Listener>, extra: seq<Listener>, channel: string)
    ensures Handlers(listeners + extra, channel) == Handlers(listeners, channel) + Handlers(extra, channel)
    decreases |listeners|
  {
    if listeners == [] {
      assert listeners + extra == extra;
    } else {
      var head := if listeners[0].channel == channel then [listeners[0].handler] else [];
      assert (listeners + extra)[0] == listeners[0];
      assert (listeners + extra)[1..] == listeners[1..] + extra;
      HandlersAppend(listeners[1..], extra, channel);
      assert head + (Handlers(listeners[1..], channel) + Handlers(extra, channel))
        == (head + Handlers(listeners[1..], channel)) + Handlers(extra, channel);
    }
  }

  /**
   * A registration on an allow-listed channel makes the handler reachable
   * on that channel, after the handlers already there, and no other
   * channel's handlers change; its remover, given a wrapper id not yet in use, takes
   * away exactly that listener.
   */
  lemma ReceiveThenRemove(listeners: seq<Listener>, channel: string, handler: nat, newWrapper: nat, other: string)
    requires channel in ReceiveChannels && newWrapper !in WrapperIds(listeners)
    ensures var reg := Receive(listeners, channel, handler, newWrapper);
      && Handlers(reg.listeners, channel) == Handlers(listeners, channel) + [handler]
      && (other != channel ==> Handlers(reg.listeners, other) == Handlers(listeners, other))
      && Remove(reg.listeners, reg.remover.value) == listeners
  {
    var w := Listener(channel, newWrapper, handler);
    HandlersAppend(listeners, [w], channel);
    HandlersAppend(listeners, [w], other);
    RemoveLast(listeners, w);
  }

  // ---------------------------------------------------------------------
  // invoke
  // ---------------------------------------------------------------------

  /** What `invoke` did: the calls it made and how its promise settled. */
  datatype Invocation<D, R> = Invocation(calls: seq<Message<D>>, outcome: Attempt<R>)

  function NotAllowedMessage(channel: string): string {
    "Invoke to " + channel + " is not allowed"
  }

  /**
   * `invoke(channel, data)`, where `reply` is how the main process's
   * handler would settle the call.
   */
  function Invoke<D, R>(channel: string, data: D, reply: Attempt<R>): (r: Invocation<D, R>)
    ensures channel in InvokeChannels ==> r.calls == [Message(channel, data)] && r.outcome == reply
    ensures channel !in InvokeChannels ==> r.calls == [] && r.outcome == Fail(NotAllowedMessage(channel))
  {
    if channel in InvokeChannels then Invocation([Message(channel, data)], reply)
    else Invocation([], Fail(NotAllowedMessage(channel)))
  }

  /**
   * A rejected invoke is told apart from every reply: its message names
   * the channel, and no call went out, whatever the main process would
   * have answered.
   */
  lemma InvokeRejectionIndependent<D, R>(channel: string, data: D, reply1: Attempt<R>, reply2: Attempt<R>)
    requires channel !in InvokeChannels
    ensures Invoke(channel, data, reply1) == Invoke(channel, data, reply2)
    ensures Invoke(channel, data, reply1).outcome.Fail?
    ensures Invoke(channel, data, reply1).outcome.message[|"Invoke to "|..|"Invoke to "| + |channel|] == channel
  {
  }

  /** The channel lists overlap only where the renderer both listens and invokes. */
  lemma ChannelLists()
    ensures forall c :: c in SendChannels ==> c !in ReceiveChannels && c !in InvokeChannels
    ensures forall c :: c in ReceiveChannels && c in InvokeChannels <==> c == "generate-solution"
  {
  }
}
