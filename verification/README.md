# Presence directory and signalling relay of chattify, in Dafny

This project models the real-time relay of the chattify chat server
(`backend/src/lib/socket.js`). The relay keeps a directory from each user id to
the set of socket ids that user has open, one per browser tab or device. It
registers a socket when the socket connects with a `userId` in its handshake,
and deregisters it on disconnect. After either change it broadcasts the list of
online users (`getOnlineUsers`). It forwards nine kinds of signalling event
(typing indicators, delivery and seen receipts, WebRTC call offer, answer, ICE
candidate, end and toggle) to every socket of the addressed user. The sender is
always the sending connection's own `userId`. The message controller also gets
one socket of a user through `getReceiverSocketId`.

Modules:

- `Wrappers`: `Option`. JavaScript's `undefined` is `None`.
- `JsCollections`: the JavaScript `Set` operations the relay uses (`add`,
  `delete`). Each works on a duplicate-free sequence kept in insertion order,
  which is the order `for ... of` and `Array.from` visit. A `Map`'s key list
  follows the same rules, so the same two functions maintain it.
- `Signaling`: the inbound and outbound event types, their names, and the pure
  translation `Relayed` that each handler applies.
- `Relay`: the class `Hub`. It has two fields. `keys` is the map's key order,
  which is what `getOnlineUsers` carries. `sockets` maps each user to that
  user's socket ids in order. `Hub` has one atomic method per kind of handler. Node runs
  each handler to completion, so there are no interleavings. `Dir()` is the
  directory seen as `map<string, set<string>>`. `Valid()` is the invariant the
  handlers preserve: no user maps to an empty set, there is no empty user id,
  and keys and sets hold no duplicates.

Emissions are returned, not performed. A `getOnlineUsers` broadcast is returned
as its payload (`Some(list)`), or as `None` when nothing is broadcast. Each
`io.to(sid).emit` is returned as a `Delivery(sid, event)`, in emission order.
`CallSession` walks through a two-user call to show what callers can conclude
from the contracts alone.

Three behaviours of the code are worth stating explicitly:

- The disconnect handler broadcasts whenever the connection has a truthy
  `userId`, even if the directory had no entry for that user and nothing
  changed (`backend/src/lib/socket.js:53-60`).
- The inbound event names are the code's (`typing`, `stopTyping`,
  `call:offer`, ...), not descriptive names.
- An empty-string `userId` is falsy in JavaScript. It is treated like an absent
  one: nothing is registered and nothing is broadcast. Its handlers still
  forward events, with `from` set to that empty string.

## Model

| member | source | states |
|---|---|---|
| `JsCollections.Add` | backend/src/lib/socket.js:13-15 | `Set.add`, and `Map.set` on the key list: the members grow by exactly the new element, earlier members keep their order, at most one element is appended, and a duplicate-free set stays duplicate-free |
| `JsCollections.Delete` | backend/src/lib/socket.js:56-57 | `Set.delete` and `Map.delete`: the members shrink by exactly the element; without it the set is unchanged; a duplicate-free set stays duplicate-free and loses exactly one element |
| `JsCollections.DeleteAt` | backend/src/lib/socket.js:56 | deleting the member at position k of a duplicate-free sequence cuts out exactly that position and keeps the order of the rest |
| `JsCollections.DeleteAdd` | backend/src/lib/socket.js:14 | deleting an element that was just added to a set that lacked it restores the set, order included |
| `Signaling.Relayed` | backend/src/lib/socket.js:20-50 | every forwarded event has `from` equal to the sender's bound `userId`, whatever the payload; its name follows the fixed table (only `call:offer` is renamed, to `call:incoming`); every payload field reaches the addressee unchanged (reading it back with the original `to` gives the inbound event) |
| `Signaling.RelayedNamesDistinct` | backend/src/lib/socket.js:20-50 | distinct inbound kinds are forwarded under distinct names |
| `Relay.RegisterWellFormed` | backend/src/lib/socket.js:11-15 | registering a socket under a non-empty user id keeps the directory well formed, so no key maps to an empty set |
| `Relay.DeregisterWellFormed` | backend/src/lib/socket.js:54-58 | removing a socket keeps the directory well formed, given that the key is deleted exactly when its set becomes empty |
| `Relay.KeysAreUsers` | backend/src/lib/socket.js:16 | in a well-formed directory the key list holds exactly the directory's users, each once |
| `Relay.ReturningUserRoundTrip` | backend/src/lib/socket.js:52-58 | for a user who already had an entry, disconnecting a socket that connect had just added (and the set lacked) restores the map exactly; the key list never changes and the set regains its old contents in its old order |
| `Relay.NewUserRoundTrip` | backend/src/lib/socket.js:52-58 | for a user without an entry, disconnecting the socket that connect had just registered empties the new set, so the key is deleted again; the map and the key list, order included, are exactly as before the connect |
| `Relay.RegisterUnique` | backend/src/lib/socket.js:13-15 | registering a socket id that no user holds keeps every socket id under at most one user |
| `Relay.DeregisterUnique` | backend/src/lib/socket.js:56-57 | removing a socket, with or without deleting the user's key, keeps every socket id under at most one user |
| `Relay.Hub.constructor` | backend/src/lib/socket.js:5 | the directory starts empty and well formed |
| `Relay.Hub.Connect` | backend/src/lib/socket.js:10-17 | with a truthy `userId` the socket is added to that user's set (the set is created if absent); no other user's entry changes; re-adding a held socket changes nothing; the broadcast is the new key list, duplicate-free, with exactly the directory's users. With no `userId` the directory is unchanged and nothing is broadcast. The invariant is preserved |
| `Relay.Hub.Disconnect` | backend/src/lib/socket.js:52-61 | with a truthy `userId` exactly this socket leaves the user's set; the key is deleted exactly when the set becomes empty; other sockets and users are untouched; a user with no entry leaves the map unchanged; the new key list is broadcast. With no `userId` nothing changes and nothing is broadcast. The invariant and the uniqueness of socket ids are preserved |
| `Relay.Hub.Forward` | backend/src/lib/socket.js:67-71 | exactly one delivery of the given event to each socket of the addressee, in the set's order, and to no other socket; a missing or unknown addressee gets no delivery; the hub is not modified |
| `Relay.Hub.Handle` | backend/src/lib/socket.js:20-50 | each inbound event reaches exactly the addressee's sockets, once each, as `Relayed(conn.userId, inbound)`, so `from` is the connection's own `userId`; a missing or unknown `to` yields nothing; the directory is not modified |
| `Relay.Hub.ReceiverSocketId` | backend/src/lib/socket.js:73-78 | returns nothing exactly when the user id is missing, unknown or has an empty set; otherwise returns a member of that user's set, namely the earliest registered socket still open |
| `Relay.Hub.OnlineIsConnected` | backend/src/lib/socket.js:13-16 | in a valid directory a user is in the online list exactly when that user has at least one open socket |

## Left out

- The socket.io `Server` construction and the transport are not modelled (`backend/src/lib/socket.js:8`, `:16`, `:59`, `:70`). Broadcasts and deliveries are returned as values. `io.emit` reaches every open connection, anonymous ones included, and that set of connections belongs to the transport, not to the hub.
- Socket ids are parameters, since the transport assigns them. That they are unique is the transport's guarantee. So `Connect` keeps socket ids unique only when it is given an id that no user holds.
- The `toString()` conversions are taken as already done. There are three: the handshake `userId` (`:11`), a payload's `to` in `forwardToUser` (`:68`), and the receiver id passed to `getReceiverSocketId` (`:74`, called from `backend/src/controllers/message.controller.js:34`). All three values enter the model as `Option<string>`.
- A handler whose payload is missing entirely throws while destructuring it. The model assumes every event carries an object payload; fields missing from it are covered, because the opaque type `V` includes `undefined`.
- Each JavaScript `Set` object is a value (`seq`) here, not a shared mutable object. The map holds the only reference to each set, so no aliasing can be observed.
- Concurrency is not modelled. Node runs each handler to completion, so each handler is one atomic method.
- Outbound payloads are typed records, not JavaScript objects. The order of their properties, which matters only to JSON serialisation, is not modelled.
- The `io` export and its use by the message controller to push `newMessage` (`backend/src/controllers/message.controller.js:34-37`) are HTTP and database glue, and are not part of this model. So are the front-end stores, the controllers, the middleware, the schemas and the UI.
