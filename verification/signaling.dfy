/**
 * The signalling dialect of the relay: the nine events a client may send,
 * the nine events the relay sends on, and the fixed translation between
 * them. Every inbound event names its addressee in `to`; every outbound
 * event names its sender in `from`, which the relay takes from the
 * sending connection and never from the payload.
 *
 * `to` is the addressee after JavaScript's `to?.toString()` (`None` when
 * the client sent nothing). The other fields (`messageId`, `offer`,
 * `answer`, `candidate`, `reason`, `kind`, `enabled`, `mediaType`) are
 * whatever value the client sent, `undefined` included; the relay never
 * looks inside them, so they have the opaque type `V`.
 */
module Signaling {
  import opened Wrappers

  /** An event a client emits, one constructor per handler the relay registers. */
  datatype Inbound<V> =
    | Typing(to: Option<string>)
    | StopTyping(to: Option<string>)
    | MessageDelivered(to: Option<string>, messageId: V)
    | MessageSeen(to: Option<string>, messageId: V)
    | CallOffer(to: Option<string>, offer: V, mediaType: V)
    | CallAnswer(to: Option<string>, answer: V)
    | CallIceCandidate(to: Option<string>, candidate: V)
    | CallEnd(to: Option<string>, reason: V)
    | CallToggle(to: Option<string>, kind: V, enabled: V)

  /** An event the relay emits to the addressee's sockets. */
  datatype Outbound<V> =
    | Typing(from: Option<string>)
    | StopTyping(from: Option<string>)
    | MessageDelivered(messageId: V, from: Option<string>)
    | MessageSeen(messageId: V, from: Option<string>)
    | CallIncoming(from: Option<string>, offer: V, mediaType: V)
    | CallAnswer(from: Option<string>, answer: V)
    | CallIceCandidate(from: Option<string>, candidate: V)
    | CallEnd(from: Option<string>, reason: V)
    | CallToggle(from: Option<string>, kind: V, enabled: V)

  /** The event name a handler is registered under. */
  function InboundName<V>(i: Inbound<V>): string
  {
    match i
    case Typing(_) => "typing"
    case StopTyping(_) => "stopTyping"
    case MessageDelivered(_, _) => "message:delivered"
    case MessageSeen(_, _) => "message:seen"
    case CallOffer(_, _, _) => "call:offer"
    case CallAnswer(_, _) => "call:answer"
    case CallIceCandidate(_, _) => "call:ice-candidate"
    case CallEnd(_, _) => "call:end"
    case CallToggle(_, _, _) => "call:toggle"
  }

  /** The event name an outbound event is emitted under. */
  function OutboundName<V>(o: Outbound<V>): string
  {
    match o
    case Typing(_) => "typing"
    case StopTyping(_) => "stopTyping"
    case MessageDelivered(_, _) => "message:delivered"
    case MessageSeen(_, _) => "message:seen"
    case CallIncoming(_, _, _) => "call:incoming"
    case CallAnswer(_, _) => "call:answer"
    case CallIceCandidate(_, _) => "call:ice-candidate"
    case CallEnd(_, _) => "call:end"
    case CallToggle(_, _, _) => "call:toggle"
  }

  /** The renaming table of the relay: only a call offer changes its name, to `call:incoming`. */
  function RelayedName(name: string): string
  {
    if name == "call:offer" then "call:incoming" else name
  }

  /**
   * The inbound event that an outbound event relays when it was addressed
   * to `to`: a reading of the outbound event by its receiver, independent
   * of how the relay builds it.
   */
  function Original<V>(o: Outbound<V>, to: Option<string>): Inbound<V>
  {
    match o
    case Typing(_) => Inbound.Typing(to)
    case StopTyping(_) => Inbound.StopTyping(to)
    case MessageDelivered(m, _) => Inbound.MessageDelivered(to, m)
    case MessageSeen(m, _) => Inbound.MessageSeen(to, m)
    case CallIncoming(_, offer, media) => Inbound.CallOffer(to, offer, media)
    case CallAnswer(_, answer) => Inbound.CallAnswer(to, answer)
    case CallIceCandidate(_, candidate) => Inbound.CallIceCandidate(to, candidate)
    case CallEnd(_, reason) => Inbound.CallEnd(to, reason)
    case CallToggle(_, kind, enabled) => Inbound.CallToggle(to, kind, enabled)
  }

  /**
   * What the handler for `i` forwards when the sending connection is bound
   * to `from`: the sender is `from` whatever the payload holds, the name
   * follows the renaming table, and every payload field arrives unchanged
   * (reading the result back with the original addressee gives `i`).
   */
  function Relayed<V>(from: Option<string>, i: Inbound<V>): (o: Outbound<V>)
    ensures o.from == from
    ensures OutboundName(o) == RelayedName(InboundName(i))
    ensures Original(o, i.to) == i
  {
    match i
    case Typing(_) => Outbound.Typing(from)
    case StopTyping(_) => Outbound.StopTyping(from)
    case MessageDelivered(_, m) => Outbound.MessageDelivered(m, from)
    case MessageSeen(_, m) => Outbound.MessageSeen(m, from)
    case CallOffer(_, offer, media) => CallIncoming(from, offer, media)
    case CallAnswer(_, answer) => Outbound.CallAnswer(from, answer)
    case CallIceCandidate(_, candidate) => Outbound.CallIceCandidate(from, candidate)
    case CallEnd(_, reason) => Outbound.CallEnd(from, reason)
    case CallToggle(_, kind, enabled) => Outbound.CallToggle(from, kind, enabled)
  }

  /**
   * A receiver can tell the kind of event from its name alone: distinct
   * inbound kinds are relayed under distinct names.
   */
  lemma RelayedNamesDistinct<V>(f: Option<string>, g: Option<string>, i: Inbound<V>, j: Inbound<V>)
    requires OutboundName(Relayed(f, i)) == OutboundName(Relayed(g, j))
    ensures InboundName(i) == InboundName(j)
  {
  }
}
