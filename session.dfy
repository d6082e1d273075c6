/** A connection's reader: the decoded commands a client sends and their
    effect on the hub's registry, the channels' mailboxes, the hub-wide queue,
    the store and the client's own outbox. Each command is one sequential
    step. */
module Sessions {
  import opened Wire
  import opened Database
  import opened Channels
  import opened Hubs

  /** A decoded client frame. */
  datatype Command =
    | Connected(username: string)
    | Join(channel: string)
    | Create(name: string, kind: ChannelType)
    | Post(message: Message)

  /** Dispatch on a frame's `type` field. The frame's fields are read as a
      message `m` (whose `kind` is the `type` field) and, for
      `create_channel`, as a create request. */
  function Classify(m: Message, request: ChannelInfo): (cmd: Command)
    ensures cmd.Connected? <==> m.kind == "user_connected"
    ensures cmd.Join? <==> m.kind == "join_channel"
    ensures cmd.Create? <==> m.kind == "create_channel"
    ensures cmd.Connected? ==> cmd.username == m.username
    ensures cmd.Join? ==> cmd.channel == m.channel
    ensures cmd.Create? ==> cmd.name == request.name && cmd.kind == request.kind
    ensures cmd.Post? ==> cmd.message == m
  {
    if m.kind == "user_connected" then Connected(m.username)
    else if m.kind == "join_channel" then Join(m.channel)
    else if m.kind == "create_channel" then Create(request.name, request.kind)
    else Post(m)
  }

  /** The command makes a switch reach its blocking `channel_switch` send
      into the client's outbox, when the client is in `current`. */
  predicate SendsSwitch(current: string, s: Store, cmd: Command)
    requires s.Valid()
  {
    match cmd
    case Join(target) => Normalise(target) != current
    case Create(name, kind) => CreateChannel(s, name, kind).1 == Done && Normalise(name) != current
    case _ => false
  }

  /** The hub-wide queue after `c` left `from`: `channel_deleted` is offered
      when that removed an Ephemeral channel. */
  function Deletion(s0: HubState, c: Client, from: string): (q: seq<Payload>)
    ensures !Removes(s0, c, from) ==> q == s0.queue
  {
    if Removes(s0, c, from) && s0.channels[from].kind == Ephemeral
    then Enqueued(s0.queue, s0.capacity, ChannelDeleted(from)) else s0.queue
  }

  /** Leaving channel `from`, as seen on the registry: every channel is as
      `DepartedAt` states; `from` is removed when `Removes` holds, and the
      hub-wide queue becomes `Deletion`. */
  predicate Departed(s0: HubState, s1: HubState, c: Client, username: string, from: string, announce: bool, now: Time)
  {
    && s0.Complete() && s1.Complete() && s1.capacity == s0.capacity
    && s1.channels == (if Removes(s0, c, from) then s0.channels - {from} else s0.channels)
    && s1.queue == Deletion(s0, c, from)
    && (forall n {:trigger DepartedAt(s0, s1, c, username, from, announce, now, n)} | n in s1.channels ::
          n in s0.channels && DepartedAt(s0, s1, c, username, from, announce, now, n))
  }

  /** Channel `n` after `c` entered channel `name`: `name` gains `c` (from
      no members when it is new) and gets a "joined" notice if it is
      Ephemeral, now has other members and `c` has a name; any other channel
      is unchanged. */
  predicate EnteredAt(s1: HubState, s2: HubState, c: Client, username: string, name: string, now: Time, n: string)
    requires s1.Complete() && s2.Complete() && n in s2.channels
  {
    && s2.members[n] == (if n in s1.channels then s1.members[n] else {}) + (if n == name then {c} else {})
    && s2.mailboxes[n] == (if n in s1.channels then s1.mailboxes[n] else []) +
         (if n == name && s2.channels[n].kind == Ephemeral && |s2.members[n]| > 1 && username != ""
          then [JoinedNotice(username, n, now)] else [])
  }

  /** Entering channel `name`, as seen on the registry: `name` is created
      with type `kind` when absent, every other channel is the same object,
      every channel is as `EnteredAt` states, and when `name` was created
      `channel_created` with its type is offered to the hub-wide queue. */
  predicate Entered(s1: HubState, s2: HubState, c: Client, username: string, name: string, kind: ChannelType, now: Time)
  {
    var created := name !in s1.channels;
    && s1.Complete() && s2.Complete() && s2.capacity == s1.capacity
    && s2.channels.Keys == s1.channels.Keys + {name}
    && (forall n | n in s1.channels :: s2.channels[n] == s1.channels[n])
    && (created ==> s2.channels[name].kind == kind)
    && (forall n {:trigger EnteredAt(s1, s2, c, username, name, now, n)} | n in s2.channels ::
          EnteredAt(s1, s2, c, username, name, now, n))
    && s2.queue == if created then Enqueued(s1.queue, s1.capacity, ChannelCreated(name, s2.channels[name].kind))
                   else s1.queue
  }

  /** Channel `n` after a switch of `c` from `from` to `name`: `from` loses
      `c`, `name` gains it, every other channel keeps its members; `from`
      gets a "left" notice when `announce` is set and it is Ephemeral, had
      other members and `c` has a name; `name` then gets a "joined" notice
      if it is Ephemeral, has other members and `c` has a name. */
  predicate SwitchedAt(s0: HubState, s2: HubState, c: Client, username: string, from: string, name: string,
                       announce: bool, now: Time, n: string)
    requires s0.Complete() && s2.Complete() && n in s2.channels
  {
    && s2.members[n] ==
         (if n in s0.channels then s0.members[n] - (if n == from then {c} else {}) else {})
         + (if n == name then {c} else {})
    && s2.mailboxes[n] ==
         (if n in s0.channels then s0.mailboxes[n] else [])
         + (if n == from && n in s0.channels && announce && s0.channels[n].kind == Ephemeral &&
               |s0.members[n]| > 1 && username != ""
            then [LeftNotice(username, n, now)] else [])
         + (if n == name && s2.channels[n].kind == Ephemeral && |s2.members[n]| > 1 && username != ""
            then [JoinedNotice(username, n, now)] else [])
  }

  /** The registry's keys and channel objects after a switch of `c` from
      `from` to `name`: `from` is dropped when `Removes` holds, `name` is
      added, created with type `kind` when it was absent, and every channel
      registered before and after is the same object. */
  predicate SwitchedShape(s0: HubState, s2: HubState, c: Client, from: string, name: string, kind: ChannelType)
  {
    && s2.channels.Keys == s0.channels.Keys - (if Removes(s0, c, from) then {from} else {}) + {name}
    && (forall n | n in s0.channels && n in s2.channels :: s2.channels[n] == s0.channels[n])
    && (name !in s0.channels ==> s2.channels[name].kind == kind)
  }

  /** A whole switch of `c` from channel `from` to channel `name`, as seen on
      the registry: its keys and channel objects are as `SwitchedShape`
      states; every channel is as `SwitchedAt` states; the hub-wide queue is
      offered `channel_deleted` when an Ephemeral channel was removed
      (`Deletion`), then `channel_created` with the channel's type when
      `name` was created. */
  predicate Switched(s0: HubState, s2: HubState, c: Client, username: string, from: string, name: string,
                     announce: bool, kind: ChannelType, now: Time)
  {
    && s0.Complete() && s2.Complete() && s2.capacity == s0.capacity
    && SwitchedShape(s0, s2, c, from, name, kind)
    && (forall n {:trigger SwitchedAt(s0, s2, c, username, from, name, announce, now, n)} | n in s2.channels ::
          SwitchedAt(s0, s2, c, username, from, name, announce, now, n))
    && s2.queue == if name !in s0.channels
                   then Enqueued(Deletion(s0, c, from), s0.capacity, ChannelCreated(name, s2.channels[name].kind))
                   else Deletion(s0, c, from)
  }

  /** One channel of `DepartThenEnter`: a channel still registered after
      leaving is as `DepartedAt` states, and one added by entering is `name`
      and was not registered before leaving. */
  lemma DepartThenEnterAt(s0: HubState, s1: HubState, s2: HubState, c: Client, username: string,
                          from: string, name: string, announce: bool, now: Time, n: string)
    requires s0.Complete() && s1.Complete() && s2.Complete() && n in s2.channels
    requires n in s1.channels ==> n in s0.channels && DepartedAt(s0, s1, c, username, from, announce, now, n)
    requires n !in s1.channels ==> n == name && n !in s0.channels
    requires EnteredAt(s1, s2, c, username, name, now, n)
    ensures SwitchedAt(s0, s2, c, username, from, name, announce, now, n)
  {
    if n in s1.channels {
      if n == from && announce && s0.channels[n].kind == Ephemeral && |s0.members[n]| > 1 && username != "" {
        assert s1.mailboxes[n] == s0.mailboxes[n] + [LeftNotice(username, n, now)];
      }
    }
  }

  /** The registry's shape of `DepartThenEnter`. */
  lemma DepartThenEnterShape(s0: HubState, s1: HubState, s2: HubState, c: Client, username: string,
                             from: string, name: string, announce: bool, kind: ChannelType, now: Time)
    requires Departed(s0, s1, c, username, from, announce, now)
    requires Entered(s1, s2, c, username, name, kind, now)
    requires from == name ==> from == DefaultChannel
    ensures SwitchedShape(s0, s2, c, from, name, kind)
  {
    assert name in s1.channels <==> name in s0.channels;
  }

  /** Leaving `from` and then entering `name` is the switch from `from` to
      `name`, unless the two coincide on a channel that leaving removed
      (which a switch never does: the default channel is never removed). */
  lemma DepartThenEnter(s0: HubState, s1: HubState, s2: HubState, c: Client, username: string,
                        from: string, name: string, announce: bool, kind: ChannelType, now: Time)
    requires Departed(s0, s1, c, username, from, announce, now)
    requires Entered(s1, s2, c, username, name, kind, now)
    requires from == name ==> from == DefaultChannel
    ensures Switched(s0, s2, c, username, from, name, announce, kind, now)
  {
    assert name in s1.channels <==> name in s0.channels;
    DepartThenEnterShape(s0, s1, s2, c, username, from, name, announce, kind, now);
    forall n | n in s2.channels
      ensures SwitchedAt(s0, s2, c, username, from, name, announce, now, n)
    {
      DepartThenEnterAt(s0, s1, s2, c, username, from, name, announce, now, n);
    }
  }

  /** Channel `n` after the notices of `c` (named `username`) entering
      channel `name`: its members are unchanged; `name` gets a "joined"
      notice if it is Ephemeral, has other members and `c` has a name. */
  predicate GreetedAt(s0: HubState, s1: HubState, username: string, name: string, now: Time, n: string)
    requires s0.Complete() && s1.Complete() && n in s0.channels && n in s1.channels
  {
    && s1.members[n] == s0.members[n]
    && s1.mailboxes[n] == s0.mailboxes[n] +
         (if n == name && s0.channels[n].kind == Ephemeral && |s0.members[n]| > 1 && username != ""
          then [JoinedNotice(username, n, now)] else [])
  }

  /** The notices of entering channel `name`: every channel is as
      `GreetedAt` states, and `channel_created` with the channel's type is
      offered to the hub-wide queue when it was `created`. */
  predicate Greeted(s0: HubState, s1: HubState, username: string, name: string, created: bool, now: Time)
  {
    && s0.Complete() && s1.Complete() && s1.channels == s0.channels && s1.capacity == s0.capacity
    && name in s0.channels
    && (forall n {:trigger GreetedAt(s0, s1, username, name, now, n)} | n in s1.channels ::
          GreetedAt(s0, s1, username, name, now, n))
    && s1.queue == if created then Enqueued(s0.queue, s0.capacity, ChannelCreated(name, s0.channels[name].kind))
                   else s0.queue
  }

  /** Joining the members of `name` and then its notices is entering it. */
  lemma AttachThenGreet(s0: HubState, s1: HubState, s2: HubState, c: Client, username: string,
                        name: string, kind: ChannelType, created: bool, now: Time)
    requires Attached(s0, s1, c, name, kind)
    requires Greeted(s1, s2, username, name, created, now)
    requires created <==> name !in s0.channels
    ensures Entered(s0, s2, c, username, name, kind, now)
  {
    forall n | n in s2.channels
      ensures EnteredAt(s0, s2, c, username, name, now, n)
    {
      assert AttachedAt(s0, s1, c, name, n);
      assert GreetedAt(s1, s2, username, name, now, n);
    }
  }

  /** Leave the channel `c` names, if it is in the registry. */
  method Depart(c: Client, h: Hub, announce: bool, now: Time)
    requires h.Valid()
    modifies h`channels, h`queue, h.channels.Values`members, h.channels.Values`mailbox
    ensures h.Valid() && h.Detached(c)
    ensures h.Members() == old(h.Members()) - {c}
    ensures Departed(old(h.State()), h.State(), c, c.username, Normalise(c.channel), announce, now)
  {
    ghost var s0 := h.State();
    var name := Normalise(c.channel);
    if name !in h.channels {
      NotThere(s0, c, c.username, name, announce, now);
      return;
    }
    var ch := h.channels[name];
    var removed := h.Leave(c, ch, announce, now);
    h.LeftState(c, ch, announce, now);
    ghost var s1 := h.State();
    if removed && ch.kind == Ephemeral {
      h.Offer(ChannelDeleted(name));
    }
    LeftThenOffer(s0, s1, h.State(), c, c.username, name, announce, now);
  }

  /** Leaving a channel that is not registered changes nothing. */
  lemma NotThere(s0: HubState, c: Client, username: string, from: string, announce: bool, now: Time)
    requires s0.Complete() && from !in s0.channels
    ensures Departed(s0, s0, c, username, from, announce, now)
  {
    forall n | n in s0.channels
      ensures DepartedAt(s0, s0, c, username, from, announce, now, n)
    {
    }
  }

  /** The registry part of leaving and then `channel_deleted` on the queue
      are leaving a channel. */
  lemma LeftThenOffer(s0: HubState, s1: HubState, s2: HubState, c: Client, username: string, from: string,
                      announce: bool, now: Time)
    requires Left(s0, s1, c, username, from, announce, now)
    requires s2 == s1.(queue := Deletion(s0, c, from))
    ensures Departed(s0, s2, c, username, from, announce, now)
  {
    forall n | n in s2.channels
      ensures n in s0.channels && DepartedAt(s0, s2, c, username, from, announce, now, n)
    {
      assert DepartedAt(s0, s1, c, username, from, announce, now, n);
    }
  }

  /** The registry part of entering channel `name` after leaving the
      previous one: `c` is renamed and joins the members of `name`, which is
      created with type `kind` when absent, as `Attached` states. */
  method Admit(c: Client, h: Hub, name: string, kind: ChannelType) returns (ch: Channel)
    requires h.Valid() && h.Detached(c) && c.send.Valid() && name != ""
    modifies c`channel, h`channels, h.channels.Values`members
    ensures h.Valid() && c.channel == name
    ensures ch.name == name && h.channels == old(h.channels)[name := ch] && c in ch.members
    ensures name !in old(h.channels) ==> fresh(ch)
    ensures name in old(h.channels) ==> ch == old(h.channels[name])
    ensures forall n | n in h.channels && n != name :: c !in h.channels[n].members
    ensures Attached(old(h.State()), h.State(), c, name, kind)
  {
    h.Rename(c, name);
    label attach:
    ch := h.Attach(c, kind);
    h.AttachedState@attach(c, ch, kind);
  }

  /** Enter channel `name` after leaving the previous one: `c` is renamed
      and then enters `name` as `Entered` states. */
  method Enter(c: Client, h: Hub, name: string, kind: ChannelType, now: Time) returns (created: bool)
    requires h.Valid() && h.Detached(c) && c.send.Valid() && name != ""
    modifies c`channel, h`channels, h`queue, h.channels.Values`members, h.channels.Values`mailbox
    ensures h.Valid()
    ensures c.channel == name && name in h.channels
    ensures created <==> name !in old(h.channels)
    ensures created ==> fresh(h.channels[name])
    ensures Entered(old(h.State()), h.State(), c, c.username, name, kind, now)
  {
    ghost var s1 := h.State();
    created := name !in h.channels;
    var ch := Admit(c, h, name, kind);
    Greet(c, h, ch, created, now, s1, kind);
  }

  /** The notices of entering channel `ch`, which `c` has just joined from
      registry state `s`: "joined" on its mailbox when it is Ephemeral, has
      other members and `c` has a name; `channel_created` with its type on
      the hub-wide queue when it was `created`. Together with the joining
      they are the entry `Entered` states. */
  method Greet(c: Client, h: Hub, ch: Channel, created: bool, now: Time, ghost s: HubState, kind: ChannelType)
    requires h.Valid() && ch.name in h.channels && h.channels[ch.name] == ch
    requires Attached(s, h.State(), c, ch.name, kind) && (created <==> ch.name !in s.channels)
    modifies ch`mailbox, h`queue
    ensures h.Valid() && h.channels == old(h.channels)
    ensures Entered(s, h.State(), c, c.username, ch.name, kind, now)
  {
    ghost var sa := h.State();
    ghost var s0 := h.State();
    ghost var ps: seq<Payload> := [];
    if ch.kind == Ephemeral && |ch.members| > 1 && c.username != "" {
      ps := [JoinedNotice(c.username, ch.name, now)];
      h.Post(ch.name, JoinedNotice(c.username, ch.name, now));
    } else {
      assert Appended(s0, h.State(), ch.name, ps);
    }
    ghost var s1 := h.State();
    if created {
      h.Offer(ChannelCreated(ch.name, ch.kind));
    }
    PostThenOffer(s0, s1, h.State(), c.username, ch.name, created, now, ps);
    AttachThenGreet(s, sa, h.State(), c, c.username, ch.name, kind, created, now);
  }

  /** The joined notice on the mailbox and then `channel_created` on the
      queue are the notices of entering a channel. */
  lemma PostThenOffer(s0: HubState, s1: HubState, s2: HubState, username: string, name: string,
                      created: bool, now: Time, ps: seq<Payload>)
    requires name in s0.channels && s0.Complete()
    requires ps == if s0.channels[name].kind == Ephemeral && |s0.members[name]| > 1 && username != ""
                   then [JoinedNotice(username, name, now)] else []
    requires Appended(s0, s1, name, ps)
    requires s2 == s1.(queue := if created then Enqueued(s1.queue, s1.capacity, ChannelCreated(name, s0.channels[name].kind))
                                else s1.queue)
    ensures Greeted(s0, s2, username, name, created, now)
  {
    forall n | n in s2.channels
      ensures GreetedAt(s0, s2, username, name, now, n)
    {
    }
  }

  /** Confirm a switch to `c`: the `channel_switch` notice goes first (a
      blocking send, so the outbox must have room), then the backlog of a
      persistent channel, closing the outbox at the first message that does
      not fit. */
  method Confirm(c: Client, h: Hub, name: string, kind: ChannelType) returns (completed: bool)
    requires h.Valid() && c.send.Valid() && c.send.HasRoom()
    modifies c`send
    ensures h.Valid() && h.State() == old(h.State()) && c.username == old(c.username)
    ensures var switched := old(c.send).Put(ChannelSwitch(name));
      var history := Chats(Backlog(h.store, name, kind));
      && c.send == DeliverAll(switched, history)
      && (completed <==> Fits(switched, |history|))
  {
    c.send := c.send.Put(ChannelSwitch(name));
    completed := h.ReplayBacklog(c, name, kind);
  }

  /** The registry part of a switch of `c` to channel `name`: leave the
      channel it names, then enter `name`, as `Switched` states. */
  method Relocate(c: Client, h: Hub, name: string, announce: bool, kind: ChannelType, now: Time)
    returns (created: bool)
    requires h.Valid() && c.send.Valid() && name != "" && name != c.channel
    modifies c`channel, h`channels, h`queue, h.channels.Values`members, h.channels.Values`mailbox
    ensures h.Valid() && c.username == old(c.username)
    ensures c.channel == name && name in h.channels
    ensures created <==> name !in old(h.channels)
    ensures created ==> fresh(h.channels[name])
    ensures Switched(old(h.State()), h.State(), c, c.username, Normalise(old(c.channel)), name, announce, kind, now)
  {
    ghost var from := Normalise(c.channel);
    assert from == name ==> name == DefaultChannel;
    ghost var s0 := h.State();
    Depart(c, h, announce, now);
    ghost var s1 := h.State();
    created := Enter(c, h, name, kind, now);
    DepartThenEnter(s0, s1, h.State(), c, c.username, from, name, announce, kind, now);
  }

  /** The switch both procedures share once the target `name` differs from
      the client's channel field. */
  method Move(c: Client, h: Hub, name: string, announce: bool, kind: ChannelType, now: Time)
    returns (created: bool)
    requires h.Valid() && c.send.Valid() && c.send.HasRoom() && name != "" && name != c.channel
    modifies c`channel, c`send, h`channels, h`queue, h.channels.Values`members, h.channels.Values`mailbox
    ensures h.Valid()
    ensures c.channel == name && name in h.channels
    ensures created <==> name !in old(h.channels)
    ensures created ==> fresh(h.channels[name])
    ensures Switched(old(h.State()), h.State(), c, c.username, Normalise(old(c.channel)), name, announce, kind, now)
    ensures c.send == DeliverAll(old(c.send).Put(ChannelSwitch(name)),
                                 Chats(Backlog(h.store, name, h.channels[name].kind)))
  {
    created := Relocate(c, h, name, announce, kind, now);
    var ch := h.channels[name];
    var completed := Confirm(c, h, name, ch.kind);
  }

  /** After a switch the client's outbox holds what it held, then the
      `channel_switch` notice, then the longest prefix of the backlog that
      fits, in order. */
  lemma {:induction false} SwitchNoticeFirst(box: Outbox, name: string, history: seq<Message>)
    requires box.HasRoom()
    ensures var r := DeliverAll(box.Put(ChannelSwitch(name)), Chats(history));
      var k := Min(|history|, OutboxCapacity - |box.items| - 1);
      && r.items == box.items + [ChannelSwitch(name)] + Chats(history)[..k]
      && r.items[|box.items|] == ChannelSwitch(name)
      && (r.closed <==> |history| > k)
  {
    var switched := box.Put(ChannelSwitch(name));
    DeliverAllShape(switched, Chats(history));
  }

  /** Switch to channel `target` (the default channel when empty), leaving
      the current one with a "left" notice; a channel created on the way gets
      its type from the store, Ephemeral when the store has none. Switching
      to the channel the client's field already names changes nothing. */
  method SwitchChannel(c: Client, h: Hub, target: string, now: Time)
    requires h.Valid() && c.send.Valid()
    requires Normalise(target) != c.channel ==> c.send.HasRoom()
    modifies c`channel, c`send, h`channels, h`queue, h.channels.Values`members, h.channels.Values`mailbox
    ensures h.Valid()
    ensures var name := Normalise(target);
      name == old(c.channel) ==>
        c.channel == old(c.channel) && c.send == old(c.send) && h.State() == old(h.State())
    ensures var name := Normalise(target);
      name != old(c.channel) ==>
        && c.channel == name && name in h.channels
        && (name !in old(h.channels) ==> fresh(h.channels[name]))
        && Switched(old(h.State()), h.State(), c, c.username, Normalise(old(c.channel)), name,
                    true, ResolvedType(h.store, name), now)
        && c.send == DeliverAll(old(c.send).Put(ChannelSwitch(name)),
                                Chats(Backlog(h.store, name, h.channels[name].kind)))
  {
    var name := Normalise(target);
    if c.channel == name {
      return;
    }
    var _ := Move(c, h, name, true, ResolvedType(h.store, name), now);
  }

  /** Switch to channel `target` with an explicit type for a channel created
      on the way; an empty target means the default channel, created
      Ephemeral. No "left" notice is sent. Switching to the channel the
      client's field already names changes nothing. */
  method SwitchChannelWithType(c: Client, h: Hub, target: string, kind: ChannelType, now: Time)
    requires h.Valid() && c.send.Valid()
    requires Normalise(target) != c.channel ==> c.send.HasRoom()
    modifies c`channel, c`send, h`channels, h`queue, h.channels.Values`members, h.channels.Values`mailbox
    ensures h.Valid()
    ensures var name := Normalise(target);
      name == old(c.channel) ==>
        c.channel == old(c.channel) && c.send == old(c.send) && h.State() == old(h.State())
    ensures var name := Normalise(target);
      name != old(c.channel) ==>
        && c.channel == name && name in h.channels
        && (name !in old(h.channels) ==> fresh(h.channels[name]))
        && Switched(old(h.State()), h.State(), c, c.username, Normalise(old(c.channel)), name,
                    false, if target == "" then Ephemeral else kind, now)
        && c.send == DeliverAll(old(c.send).Put(ChannelSwitch(name)),
                                Chats(Backlog(h.store, name, h.channels[name].kind)))
  {
    var name := Normalise(target);
    var resolved := if target == "" then Ephemeral else kind;
    if c.channel == name {
      return;
    }
    var _ := Move(c, h, name, false, resolved, now);
  }

  /** `user_connected`: a new, non-empty name is taken and marks the client
      as joined, and a "joined" notice goes to the client's channel when it
      is Ephemeral and has other members. Nothing else changes. */
  method Connect(c: Client, h: Hub, username: string, now: Time)
    requires h.Valid()
    modifies c`username, c`hasJoined, h.channels.Values`mailbox
    ensures h.Valid()
    ensures var name := Normalise(c.channel);
      var renamed := username != "" && username != old(c.username);
      && c.username == (if renamed then username else old(c.username))
      && c.hasJoined == (renamed || old(c.hasJoined))
      && Appended(old(h.State()), h.State(), name,
           if renamed && name in h.channels && h.channels[name].kind == Ephemeral && |h.channels[name].members| > 1
           then [JoinedNotice(username, name, now)] else [])
  {
    var name := Normalise(c.channel);
    if username != "" && c.username != username {
      SignIn(c, h, username);
      if name in h.channels && h.channels[name].kind == Ephemeral && |h.channels[name].members| > 1 {
        h.Post(name, JoinedNotice(username, name, now));
        return;
      }
    }
    assert Appended(old(h.State()), h.State(), name, []);
  }

  /** Take a new name and mark the client as joined; the registry is
      untouched. */
  method SignIn(c: Client, h: Hub, username: string)
    requires h.Valid()
    modifies c`username, c`hasJoined
    ensures h.Valid() && h.State() == old(h.State())
    ensures c.username == username && c.hasJoined
  {
    c.username := username;
    c.hasJoined := true;
  }

  /** Any other frame: a new, non-empty name is taken; a frame of type
      "message" is stamped with `now`, saved when the client's channel is in
      the registry and Persistent (a failed save is ignored), and put on that
      channel's mailbox. Other frame types change nothing else. */
  method Publish(c: Client, h: Hub, m: Message, now: Time)
    requires h.Valid()
    modifies c`username, h`store, h.channels.Values`mailbox
    ensures h.Valid()
    ensures c.username == if m.username != "" then m.username else old(c.username)
    ensures var name := Normalise(c.channel);
      var stamped := m.(timestamp := now);
      var chat := m.kind == "message" && name in h.channels;
      && h.store == (if chat && h.channels[name].kind == Persistent
                     then SaveMessage(old(h.store), stamped).0 else old(h.store))
      && Appended(old(h.State()), h.State(), name, if chat then [Chat(stamped)] else [])
  {
    var name := Normalise(c.channel);
    Adopt(c, h, m.username);
    if m.kind == "message" && name in h.channels {
      Deliver(h, name, m.(timestamp := now));
    } else {
      assert Appended(old(h.State()), h.State(), name, []);
    }
  }

  /** Take the name a frame carries when it is non-empty and differs from
      the client's; the registry is untouched. */
  method Adopt(c: Client, h: Hub, username: string)
    requires h.Valid()
    modifies c`username
    ensures h.Valid() && h.State() == old(h.State())
    ensures c.username == if username != "" then username else old(c.username)
  {
    if username != "" && c.username != username {
      c.username := username;
    }
  }

  /** A chat message for channel `name`, which is in the registry: saved
      when the channel is Persistent (a failed save is ignored), then put on
      the channel's mailbox. */
  method Deliver(h: Hub, name: string, msg: Message)
    requires h.Valid() && name in h.channels
    modifies h`store, {h.channels[name]}`mailbox
    ensures h.Valid()
    ensures h.store == if h.channels[name].kind == Persistent then SaveMessage(old(h.store), msg).0 else old(h.store)
    ensures Appended(old(h.State()), h.State(), name, [Chat(msg)])
  {
    if h.channels[name].kind == Persistent {
      h.Save(msg);
    }
    h.Post(name, Chat(msg));
  }

  /** One decoded frame from the client. `join_channel` switches with a
      "left" notice; `create_channel` records a persistent channel in the
      store and, unless that fails, switches to it with the requested type
      and no "left" notice; `user_connected` takes the name; any other frame
      is published. */
  method HandleCommand(c: Client, h: Hub, cmd: Command, now: Time)
    requires h.Valid() && c.send.Valid()
    requires SendsSwitch(c.channel, h.store, cmd) ==> c.send.HasRoom()
    modifies c`channel, c`username, c`hasJoined, c`send
    modifies h`channels, h`queue, h`store, h.channels.Values`members, h.channels.Values`mailbox
    ensures h.Valid()
    ensures cmd.Connected? ==>
      var name := Normalise(c.channel);
      var renamed := cmd.username != "" && cmd.username != old(c.username);
      && c.username == (if renamed then cmd.username else old(c.username))
      && c.hasJoined == (renamed || old(c.hasJoined))
      && Appended(old(h.State()), h.State(), name,
           if renamed && name in h.channels && h.channels[name].kind == Ephemeral && |h.channels[name].members| > 1
           then [JoinedNotice(cmd.username, name, now)] else [])
    ensures cmd.Join? ==>
      var name := Normalise(cmd.channel);
      && (name == old(c.channel) ==> c.channel == old(c.channel) && c.send == old(c.send) && h.State() == old(h.State()))
      && (name != old(c.channel) ==>
            && c.channel == name && name in h.channels
            && (name !in old(h.channels) ==> fresh(h.channels[name]))
            && Switched(old(h.State()), h.State(), c, c.username, Normalise(old(c.channel)), name,
                        true, ResolvedType(h.store, name), now)
            && c.send == DeliverAll(old(c.send).Put(ChannelSwitch(name)),
                                    Chats(Backlog(h.store, name, h.channels[name].kind))))
    ensures cmd.Create? ==> h.store == CreateChannel(old(h.store), cmd.name, cmd.kind).0
    ensures cmd.Create? && CreateChannel(old(h.store), cmd.name, cmd.kind).1.Failed? ==>
      c.channel == old(c.channel) && c.send == old(c.send) && h.State() == old(h.State())
    ensures cmd.Create? && CreateChannel(old(h.store), cmd.name, cmd.kind).1 == Done ==>
      var name := Normalise(cmd.name);
      && (name == old(c.channel) ==> c.channel == old(c.channel) && c.send == old(c.send) && h.State() == old(h.State()))
      && (name != old(c.channel) ==>
            && c.channel == name && name in h.channels
            && (name !in old(h.channels) ==> fresh(h.channels[name]))
            && Switched(old(h.State()), h.State(), c, c.username, Normalise(old(c.channel)), name,
                        false, if cmd.name == "" then Ephemeral else cmd.kind, now)
            && c.send == DeliverAll(old(c.send).Put(ChannelSwitch(name)),
                                    Chats(Backlog(h.store, name, h.channels[name].kind))))
    ensures cmd.Post? ==>
      var name := Normalise(c.channel);
      var stamped := cmd.message.(timestamp := now);
      var chat := cmd.message.kind == "message" && name in h.channels;
      && c.username == (if cmd.message.username != "" then cmd.message.username else old(c.username))
      && h.store == (if chat && h.channels[name].kind == Persistent
                     then SaveMessage(old(h.store), stamped).0 else old(h.store))
      && Appended(old(h.State()), h.State(), name, if chat then [Chat(stamped)] else [])
    ensures !cmd.Join? && !cmd.Create? ==> c.channel == old(c.channel) && c.send == old(c.send)
    ensures cmd.Join? || cmd.Create? ==> c.username == old(c.username) && c.hasJoined == old(c.hasJoined)
    ensures !cmd.Connected? ==> c.hasJoined == old(c.hasJoined)
    ensures !cmd.Post? && !cmd.Create? ==> h.store == old(h.store)
  {
    match cmd
    case Connected(username) =>
      Connect(c, h, username, now);
    case Join(target) =>
      SwitchChannel(c, h, target, now);
    case Create(name, kind) =>
      var created := CreateChannel(h.store, name, kind);
      h.store := created.0;
      if created.1.Failed? {
        return;
      }
      SwitchChannelWithType(c, h, name, kind, now);
    case Post(m) =>
      Publish(c, h, m, now);
  }
}
