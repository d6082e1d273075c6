# EchoRoom chat hub — a Dafny model

EchoRoom is a WebSocket chat server. A hub keeps a registry of named
channels. Each channel has a set of member clients and a mailbox that its
fanout loop drains. Each connected client has a bounded outbound queue of
256 frames (its "outbox"). The hub handles three kinds of event:

- register: a client is filed under its channel, and it is sent the stored
  history of a persistent channel and a listing of the active channels;
- unregister: a client is removed, and a channel left empty may be dropped
  from the registry;
- broadcast: a hub-wide notice is fanned out to every member of every
  channel.

A client's reader turns incoming frames into commands: take a user name,
join a channel, create a channel, or post a chat message. Persistent
channels and their messages are kept in a relational store.

The model is split into five modules:

- `Wire` (wire.dfy): channel types, messages, the payloads the server
  emits, and the outbox value with its blocking (`Put`) and non-blocking
  (`OfferOrClose`, `OfferOrSkip`) sends. It also defines `DeliverAll`, which
  replays a sequence of payloads and closes the outbox at the first one that
  does not fit.
- `Database` (database.dfy): the store as a value. It holds the
  channel-record table in name order and the message rows in insertion
  order. The module covers saving a message, reading the 50-message history,
  looking up a channel type, recording a channel, listing the records, and
  reading the connection settings from the environment.
- `Channels` (channel.dfy): the `Client` and `Channel` classes, the channel
  fanout (which evicts a member whose outbox is full), and the channel's run
  loop over a sequence of observed signals.
- `Hubs` (hub.dfy): the `Hub` class, whose invariant `Valid` says:
  - every channel is filed under its own name;
  - every member's channel field names the channel it belongs to, so
    membership is exclusive;
  - every member's outbox respects its capacity.

  The module also holds the register, unregister and broadcast events, and
  the active-channel listing.
- `Sessions` (session.dfy): frame dispatch, the `user_connected` handler,
  posting a chat message, and the two channel-switch procedures
  (`switchChannel` for joins, `switchChannelWithType` for creates).

Each event and each command is one sequential step that changes the hub
and the clients in place. Every such step is proved to keep `Hub.Valid`.

`Hub.State` reads the registry as a value of type `HubState`: the channel
filed under each name, each channel's members and mailbox, and the hub-wide
queue. The channel-switch procedures are specified as relations between the
value before and the value after:

- `Departed`: leaving the old channel;
- `Entered`: entering the new one;
- `Switched`: the whole switch.

Each relation says what happens to every channel, and that any channel
it does not name is unchanged.

Some points where the code was followed over its documentation or tests:

- History order. `getChannelHistory` (database.go:97-123) queries the rows
  newest first and puts each one in front of those read before it, so it
  returns the most recent messages OLDEST first. The store test
  (database_test.go:208-211) expects newest first. The model follows the
  code: `ChannelHistory` is proved equal to `StoredHistory`, which is the
  last `limit` rows in stored order.
- Replay overflow on register. When the replayed history does not fit the
  outbox, the register handler (hub.go:117-118) closes the outbox and
  returns from the hub's whole event loop, not just from the replay.
  `Hub.Register` reports this as `loopExits`. Its contract ties `loopExits`
  exactly to "the backlog does not fit the client's outbox". It also says
  that no listing is sent in that case. A freshly upgraded client has an
  empty outbox of 256 and the backlog is at most 50, so this case is not
  reached from the upgrade handler.
- The "already there" test. Both switch procedures compare the client's
  raw channel field with the normalised target (client.go:158, 281). A
  client whose field is empty and which asks for "" still switches from
  `general` to `general`. The model keeps that comparison.
- No "left" notice on create. `switchChannelWithType` sends no "left"
  notice to the channel being left (client.go:167-194). `switchChannel`
  does (client.go:290-304).
- The hub broadcast queue. The hub-wide broadcast channel is unbuffered
  (hub.go:16), and its writers use a non-blocking send. The model keeps it
  as a queue of bounded capacity `queueCapacity`, and a send to a full
  queue is dropped (`Enqueued`). Capacity 0 is the unbuffered case when no
  reader is waiting.

## Model

| member | source | states |
|---|---|---|
| Wire.Normalise | client.go:277-279 | the result is never empty; a non-empty name is kept; the empty name becomes `general` |
| Wire.Outbox.OfferOrClose | channel.go:22-26 | with room, the payload is appended and the outbox stays open; without room (full or closed), the outbox is closed and its items are unchanged; capacity is kept |
| Wire.Outbox.OfferOrSkip | hub.go:184-188 | with room, the payload is appended; otherwise nothing changes; the closed flag never changes and capacity is kept |
| Wire.DeliverAll | client.go:405-414 | a sequence of non-blocking sends that stops at the first refusal: the outbox keeps its capacity, its old items stay a prefix, and a closed outbox is unchanged |
| Wire.DeliverAllShape | client.go:405-414 | delivering `ps` appends exactly the longest prefix of `ps` that fits, in order; it closes the outbox exactly when some payload did not fit; all of `ps` fits iff the outbox is left open |
| Wire.DeliverAllSnoc | channel.go:20-28 | delivering `ps` then offering `p` is delivering `ps + [p]` |
| Database.BeforeIrreflexive | hub.go:24 | the name order used for `ORDER BY name` is irreflexive |
| Database.BeforeTransitive | hub.go:24 | the name order is transitive |
| Database.BeforeTotal | hub.go:24 | any two distinct names are ordered one way or the other |
| Database.Insert | database.go:137 | inserting a record with a new name keeps the table strictly name-ordered; it holds exactly the old records plus the new one and grows by one |
| Database.Lookup | database.go:127 | a type is found iff the name has a record, and the found pair is a record of the table |
| Database.SaveMessage | database.go:83-95 | non-"message" frames are accepted and change nothing; an unreachable store is left unchanged; any other failure keeps the rows and records but uses up one id, as a SERIAL default does; a missing channel record (the foreign key) fails; an unreachable store fails every chat message; a reachable store with a recorded channel and fields of at most 100 characters saves; a success appends exactly one row with a fresh id and keeps the records; the store invariant is kept |
| Database.RowsOf | database.go:101 | the rows of a channel are exactly the stored rows whose channel is that name, and there are no more of them than stored rows |
| Database.RowsOfOrdered | database.go:101-102 | selecting one channel keeps rows saved in increasing id order in that order |
| Database.RowsOfSnoc | database.go:90-101 | saving a row extends its own channel's rows at the end and leaves every other channel's rows as they were |
| Database.NewestFirst | database.go:98-104 | the query result has `min(limit, rows of the channel)` rows |
| Database.StoredHistory | database.go:97-123 | the read succeeds iff the store is reachable; it yields `min(limit, rows)` messages, at most `limit`, each a "message" of the requested channel; when the store's ids increase in saving order, so do the ids of the history, oldest first |
| Database.SaveThenHistory | database.go:83-123 | after a chat message is saved on a reachable store, the channel's history ends with that message under its new id; when the channel had fewer than `limit` messages, the new history is the old one with the message added at the end |
| Database.LatestSnoc | database.go:102-119 | the most recent `limit` rows of a sequence extended by one row end with that row, and are the whole old sequence plus the row when it was shorter than `limit` |
| Database.ChannelHistory | database.go:97-123 | the read loop, which prepends each newest-first row, returns exactly `StoredHistory` |
| Database.NewestFirstReversed | database.go:102-119 | reversing the newest-first query result gives the `limit` most recent rows in stored order |
| Database.ChannelTypeOf | database.go:125-132 | success iff the store is reachable and the name has a record, and then the returned type is the recorded one; a missing record is `NotFound`; every failure comes with Ephemeral |
| Database.ResolvedType | client.go:337-342 | the type a lazily created channel gets: its recorded type when the store is reachable and has a record of the name, Ephemeral otherwise |
| Database.CreateChannel | database.go:134-141 | a non-persistent type changes nothing and succeeds; a failure changes nothing; every old record is kept and the messages are untouched; a name that already has a record changes nothing and succeeds on a reachable store; a success adds exactly the name to the recorded names, and a newly recorded channel then reads back as Persistent; a reachable store with a name of at most 100 characters succeeds |
| Database.CreateChannelIdempotent | database.go:137 | recording the same channel again on the store the first call produced returns that store and the same status (`ON CONFLICT DO NOTHING`) |
| Database.ListChannels | hub.go:24-28 | the listing query succeeds iff the store is reachable, and then it returns the records in name order |
| Database.GetEnv | database.go:13-18 | a set, non-empty variable wins; otherwise the default is used |
| Database.DefaultDBConfig | database.go:20-29 | each of the six settings is its environment variable when that is set and non-empty, and otherwise its default (`localhost`, `5432`, `postgres`, `password`, `chat_app`, `disable`); with no variables set, every setting takes its default |
| Channels.Client.constructor | websocket.go:15-20 | a new connection has an empty, open outbox, no user name, is not joined, and names the given channel |
| Channels.Client.Replay | client.go:405-414 | the replay loop leaves the outbox equal to `DeliverAll` of the history; it completes iff the whole history fits |
| Channels.DeliverAllSplit | client.go:405-414 | delivering `a + b` is delivering `a` and then `b` |
| Channels.FirstStop | channel.go:14-19 | the index of the first shutdown signal: everything before it is an incoming message, and the signal there is not |
| Channels.Channel.constructor | channel.go:3-11 | a new channel has the given name and type, no members and an empty mailbox |
| Channels.Channel.Fanout | channel.go:20-28 | each member is offered the payload exactly once with a non-blocking send; a member stays iff its outbox had room, and a refused member's outbox is closed; members are only ever removed |
| Channels.Channel.Notify | hub.go:182-190 | each member other than the excluded one is offered the payload and skipped when full; the excluded client's outbox is untouched |
| Channels.Channel.Run | channel.go:13-31 | the loop delivers `min(first shutdown, mailbox length)` payloads in mailbox order; the rest of the mailbox stays; each member's outbox is `DeliverAll` of the delivered prefix; a member stays iff that prefix fits its outbox; every member still points at the channel and has an outbox |
| Hubs.Enqueued | client.go:183-187 | a non-blocking send to the hub queue appends iff the queue has room, otherwise drops the notice; capacity is kept |
| Hubs.Backlog | hub.go:109-111 | the replayed backlog is at most 50 messages; it is the stored history of a persistent channel on a reachable store, and empty otherwise |
| Hubs.Hub.constructor | hub.go:11-20 | a new hub has no channels and an empty queue over the given store, and satisfies the registry invariant |
| Hubs.Hub.MembershipExclusive | hub.go:80-103 | under the registry invariant, a client is a member of at most one channel |
| Hubs.Hub.Offer | client.go:321-325 | a non-blocking send of a notice to the hub queue: the queue becomes `Enqueued` of the notice, nothing else in the registry changes, and the invariant is kept |
| Hubs.Hub.Save | client.go:132-136 | the store becomes the result of saving the message; a save failure is ignored; the registry is unchanged and the invariant is kept |
| Hubs.Hub.Post | client.go:139-146 | a blocking send into the mailbox of a registered channel: only that mailbox gains the payload, at its end, and nothing else in the registry changes |
| Hubs.Hub.ActiveChannelList | hub.go:22-56 | a listing exists iff the store is reachable; it is the store records in name order, then each in-memory Ephemeral channel without a record exactly once, and nothing else |
| Hubs.Hub.SendActiveChannels | hub.go:22-73 | with a reachable store, one listing is offered to the client and its outbox is closed when full; with an unreachable store, the outbox is untouched |
| Hubs.Hub.RunChannel | channel.go:13-31 | running one registered channel's loop keeps the hub invariant and the registry; that channel's mailbox and members change as `Channel.Run` states; every other channel's members and mailbox are unchanged |
| Hubs.Hub.FanoutAll | hub.go:208-221 | every member of every channel is offered the notice exactly once; a member stays iff its outbox had room, and a refused member's outbox is closed; channels are only shrunk; the invariant is kept |
| Hubs.Hub.NotifyAll | hub.go:179-193 | every member other than the leaving client is offered the notice and skipped when full; the leaving client's outbox is untouched; the invariant is kept |
| Hubs.Hub.BroadcastNext | hub.go:207-221 | with an empty queue nothing changes; otherwise the oldest notice is removed from the queue and fanned out as `FanoutAll` states |
| Hubs.Hub.Register | hub.go:80-126 | the client joins the channel its field names (`general` when empty), which is created with its stored type or Ephemeral when absent; other channels are untouched; the backlog is replayed; the listing follows iff the backlog fit; `loopExits` holds iff the backlog did not fit |
| Hubs.Hub.Welcome | hub.go:108-126 | the outbox gets the backlog, then the listing unless the replay overflowed or the store is unreachable; only the client's outbox changes |
| Hubs.Hub.ReplayBacklog | hub.go:108-123 | the outbox is `DeliverAll` of the channel's backlog; the replay completes iff the backlog fits |
| Hubs.Hub.ListingAfterBacklog | hub.go:108-126 | when the backlog fits, the outbox holds its old items, then the whole backlog, then the listing iff one more frame fits; it is closed exactly when the listing did not fit |
| Hubs.Hub.Attach | hub.go:86-105 | the client's channel is created with the given type when absent, filed under its name, and the client is added to its members; every other channel, every other membership and every mailbox is unchanged; the invariant is kept |
| Hubs.Hub.AttachedState | client.go:336-349 | what `Attach` does, stated on the registry as a value (`Attached`): the target gains the client and, when new, is created with the given type and an empty mailbox; all else is unchanged |
| Hubs.Hub.Unregister | hub.go:128-206 | a client that is not a member of the channel its field names changes nothing. Otherwise: it is removed and its outbox closed; a "left" notice goes to an Ephemeral channel with other members when the client has a name; a channel left empty (other than `general`) is dropped; only a dropped Ephemeral channel announces `channel_deleted` to every remaining member; no other channel changes |
| Hubs.Hub.Disconnect | hub.go:139-205 | the same outcome as `Unregister` for a client that is a member of its channel |
| Hubs.Hub.Leave | hub.go:141-167 | the optional "left" notice, removal from the membership, and removal of the channel iff it is left empty and is not `general`; the set of all members loses exactly the client; no outbox changes |
| Hubs.Hub.LeftState | client.go:290-332 | what `Leave` does, stated on the registry as a value (`Left`): per channel, the "left" notice and the removal from the members; the channel is dropped iff `Removes` holds (left empty, not `general`) |
| Hubs.Hub.Withdraw | hub.go:156 | the client is removed from its channel's members, and from no other membership |
| Hubs.Hub.Drop | hub.go:165 | an empty channel is removed from the registry and the set of all members is unchanged |
| Hubs.Hub.Shut | hub.go:204 | closing the outbox of a detached client keeps the invariant |
| Hubs.Hub.Rename | client.go:334 | a client in no channel is pointed at the given channel name; the registry is unchanged and the invariant is kept |
| Sessions.Classify | client.go:36-110 | a frame is a `user_connected`, `join_channel` or `create_channel` command iff its type says so, and carries the matching fields; any other frame is a posted message |
| Sessions.Depart | client.go:285-332 | the client leaves the channel its field names (`general` when empty), as `Departed` states: a channel not in the registry changes nothing; otherwise the optional "left" notice, removal from the members, removal of the channel iff it is left empty and is not `general`, and `channel_deleted` offered to the hub queue iff an Ephemeral channel was removed; every other channel is unchanged; the set of all members loses exactly the client |
| Sessions.Admit | client.go:334-349 | the client's field is set to the target and the client joins the target's members; the target is created with the given type and an empty mailbox when absent; no other channel, membership or mailbox changes (`Attached`) |
| Sessions.Deletion | client.go:307-331 | the hub queue after leaving is unchanged unless the channel was removed; only the removal of an Ephemeral channel offers `channel_deleted` |
| Sessions.NotThere | client.go:290 | leaving a channel that is not in the registry changes nothing and queues nothing |
| Sessions.LeftThenOffer | client.go:290-331 | the membership and mailbox changes of leaving, followed by the optional `channel_deleted` notice, are the departure `Departed` states |
| Sessions.Enter | client.go:334-387 | the client's field is set to the target, which is created with the given type when absent (`created` says which), as `Entered` states: a created channel is a new object; the target gains the client; its "joined" notice goes to an Ephemeral channel that now has other members when the client has a name; `channel_created` with the channel's type is offered to the hub queue iff the channel was created; every other channel is unchanged |
| Sessions.Greet | client.go:351-387 | after the client has joined the target, the "joined" notice under the same condition and `channel_created` with the channel's type offered to the hub queue iff the channel was created complete the entry `Entered` states |
| Sessions.PostThenOffer | client.go:351-387 | the optional "joined" notice on the target's mailbox followed by the optional `channel_created` notice are the notices `Greeted` states |
| Sessions.AttachThenGreet | client.go:334-387 | joining the target (`Attached`) and then its notices (`Greeted`) are the entry `Entered` states |
| Sessions.DepartThenEnter | client.go:285-387 | leaving the old channel (`Departed`) and then entering the target (`Entered`) is the switch `Switched` states, as long as the two differ or are both `general`, which is never removed |
| Sessions.Confirm | client.go:389-418 | the `channel_switch` notice is put first, then the backlog is replayed, closing at the first frame that does not fit |
| Sessions.Relocate | client.go:285-387 | the registry part of a switch to a different channel, as `Switched` states: the old channel loses the client and is removed iff it is left empty and is not `general`; it gets the "left" notice only when `announce` is set, it is Ephemeral, had other members and the client has a name; the target gains the client and, when absent, is created as a new object with the given type; it gets the "joined" notice under the usual condition; the hub queue is offered `channel_deleted` for a removed Ephemeral channel and then `channel_created` for a created one; every other channel is unchanged; the user name is unchanged |
| Sessions.Move | client.go:285-418 | a switch to a different channel: the registry changes as `Switched` states (see `Sessions.Relocate`), a created channel is a new object, and the outbox is the switch notice followed by the longest prefix of the backlog that fits |
| Sessions.SwitchNoticeFirst | client.go:389-418 | after a switch, the outbox holds its old items, then `channel_switch`, then the longest prefix of the backlog that fits, in order; it is closed iff some of the backlog was cut |
| Sessions.SwitchChannel | client.go:276-421 | switching to the channel the client's field already names changes nothing. Otherwise the switch to the target (`general` when empty) is as `Switched` states with the "left" notice enabled, a channel created on the way is a new object and gets its stored type (Ephemeral when it has none, `ResolvedType`), and the outbox gets the switch notice and the backlog |
| Sessions.SwitchChannelWithType | client.go:152-274 | the same as `SwitchChannel`, except that no "left" notice is sent and a channel created on the way gets the requested type, Ephemeral for the empty target |
| Sessions.Connect | client.go:36-71 | a new, non-empty name is taken and marks the client as joined; a "joined" notice goes only to the client's channel, iff it is Ephemeral and has other members; every other mailbox is unchanged |
| Sessions.SignIn | client.go:44-46 | the new name is taken and the client is marked as joined; the registry is unchanged |
| Sessions.Publish | client.go:109-148 | a new, non-empty name is taken; a "message" frame is stamped with the current time, saved iff its channel is in the registry and Persistent, and appended only to that channel's mailbox; any other frame changes no mailbox and not the store |
| Sessions.Adopt | client.go:121-124 | the name a frame carries is taken when it is non-empty; the registry is unchanged |
| Sessions.Deliver | client.go:126-148 | a chat message is saved iff its channel is Persistent and is appended to that channel's mailbox; nothing else in the registry changes |
| Sessions.HandleCommand | client.go:36-148 | per command: `user_connected` is `Connect`; `join_channel` is `SwitchChannel` (no change when already there, else the `Switched` registry change with the "left" notice and the switch notice and backlog on the outbox); `create_channel` records the channel in the store, leaves the client and the registry as they were when that fails, and otherwise is `SwitchChannelWithType` with the requested type; any other frame is `Publish`; a channel created by a switch is a new object; the switches keep the user name and the joined mark, and only `user_connected` changes the joined mark; only `join_channel` and `create_channel` move the client or touch its outbox; only `create_channel` and posted messages touch the store |

## Left out

- Goroutines, mutexes and `select` between event sources are not modelled. Each hub event, channel fanout step and client command is one atomic step. The reader's unlocked access to the registry (client.go) is treated as sequential with the hub.
- `Hub.stop` and the shutdown channels (hub.go:226-242) are not modelled. A shutdown is only seen by `Channels.Channel.Run` as a signal in its input sequence. `time.Sleep` at hub.go:97 is left out.
- A blocking send into a channel mailbox (`Hubs.Hub.Post`, the "joined" and "left" notices) is taken to succeed. The blocking `channel_switch` send is a precondition (the outbox has room) of the switch procedures.
- Channels.Channel.Fanout: a send on an already closed outbox panics in Go. Here it is refused, so the outbox stays closed and the member is evicted. Panics from a double `close` are also not modelled.
- Sessions.SwitchChannel: when the replay after a switch closes the outbox, the client stays a member in Go, and a later fanout would send on a closed channel. The model only records the closed outbox; it does not model the panic that follows.
- JSON encoding and decoding, and frames that fail to decode, are left out. Payloads are opaque constructors, and `Sessions.Classify` works on already-decoded fields.
- The websocket connection, `writePump` (client.go:423-430), the upgrade handler other than the client's initial state, `main.go` and `initDatabase` are not part of this model. The reader loop and its deferred unregister appear as `Sessions.HandleCommand` and `Hubs.Hub.Unregister`, called one at a time.
- SQL itself is not modelled: query text, collation, scan errors, and connection failures other than an unreachable store. `ORDER BY timestamp DESC` is taken as reverse insertion order. That is exact when the saved timestamps are strictly increasing; among rows with equal timestamps the database leaves the order unspecified, and the model fixes it as reverse insertion. `ORDER BY name` is code-point order. VARCHAR(100) overflow is the `ValueTooLong` error. The `SERIAL` id (database.go:63) is taken to be drawn before the insert is checked, so a failed insert on a reachable store still uses up one id; ids are therefore increasing but may have gaps.
- The wall clock is a `now` parameter. Log output is left out.
- Hubs.Hub.SendActiveChannels: the order of the Ephemeral part of the listing follows Go's map iteration order, which is unspecified. The contract states which entries appear, but not their order. The listing is returned as a ghost value.
