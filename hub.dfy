/** The hub: the registry of active channels, the hub-wide queue of notices
    for every connected client, and the store. Each event of the hub's loop
    (register, unregister, broadcast) is one sequential step here. */
module Hubs {
  import opened Wire
  import opened Database
  import opened Channels

  /** How many stored messages are replayed on entering a persistent channel. */
  const HistoryLimit: nat := 50

  /** A non-blocking send on a bounded queue: `p` is dropped when the queue
      is full. */
  function Enqueued(queue: seq<Payload>, capacity: nat, p: Payload): (q: seq<Payload>)
    ensures |queue| <= capacity ==> |q| <= capacity
    ensures |queue| < capacity ==> q == queue + [p]
    ensures |queue| >= capacity ==> q == queue
  {
    if |queue| < capacity then queue + [p] else queue
  }

  /** The history a client is sent on entering channel `name` of type `kind`:
      the stored history for a persistent channel, nothing otherwise or when
      the store cannot be read. */
  function Backlog(s: Store, name: string, kind: ChannelType): (ms: seq<Message>)
    ensures |ms| <= HistoryLimit
    ensures kind != Persistent || !s.online ==> ms == []
    ensures kind == Persistent && s.online ==> ms == StoredHistory(s, name, HistoryLimit).value
  {
    if kind == Persistent then
      match StoredHistory(s, name, HistoryLimit)
      case Ok(ms) => ms
      case Err(_) => []
    else []
  }

  /** The registry as a value: the channel filed under each name, the
      members and the mailbox of each, and the hub-wide queue with its
      capacity. */
  datatype HubState = HubState(
    channels: map<string, Channel>,
    members: map<string, set<Client>>,
    mailboxes: map<string, seq<Payload>>,
    queue: seq<Payload>,
    capacity: nat)
  {
    /** Members and mailboxes are given for exactly the registered names. */
    predicate Complete() {
      members.Keys == channels.Keys && mailboxes.Keys == channels.Keys
    }
  }

  /** `s1` is `s0` with `ps` added to the end of the mailbox of channel `name`
      (nothing, when `name` is not registered) and nothing else changed. */
  predicate Appended(s0: HubState, s1: HubState, name: string, ps: seq<Payload>)
  {
    && s0.Complete() && s1.Complete()
    && s1.channels == s0.channels && s1.queue == s0.queue && s1.capacity == s0.capacity
    && (forall n | n in s1.channels ::
          s1.members[n] == s0.members[n] && s1.mailboxes[n] == s0.mailboxes[n] + (if n == name then ps else []))
  }

  /** Leaving channel `from` empties it and it is not the default channel:
      the registry then drops it. */
  predicate Removes(s0: HubState, c: Client, from: string)
  {
    from in s0.channels && from in s0.members && s0.members[from] <= {c} && from != DefaultChannel
  }

  /** Channel `n`, still registered, after `c` (named `username`) left
      channel `from`: `from` loses `c` and, when `announce` is set, gets a
      "left" notice if it is Ephemeral, had other members and `c` has a name;
      any other channel is unchanged. */
  predicate DepartedAt(s0: HubState, s1: HubState, c: Client, username: string, from: string,
                       announce: bool, now: Time, n: string)
    requires s0.Complete() && s1.Complete() && n in s0.channels && n in s1.channels
  {
    && s1.members[n] == s0.members[n] - (if n == from then {c} else {})
    && s1.mailboxes[n] == s0.mailboxes[n] +
         (if n == from && announce && s0.channels[n].kind == Ephemeral && |s0.members[n]| > 1 && username != ""
          then [LeftNotice(username, n, now)] else [])
  }

  /** The registry part of leaving channel `from`: every channel still
      registered is as `DepartedAt` states, `from` is dropped when `Removes`
      holds, and the hub-wide queue is untouched. */
  predicate Left(s0: HubState, s1: HubState, c: Client, username: string, from: string, announce: bool, now: Time)
  {
    && s0.Complete() && s1.Complete() && s1.capacity == s0.capacity && s1.queue == s0.queue
    && s1.channels == (if Removes(s0, c, from) then s0.channels - {from} else s0.channels)
    && (forall n {:trigger DepartedAt(s0, s1, c, username, from, announce, now, n)} | n in s1.channels ::
          n in s0.channels && DepartedAt(s0, s1, c, username, from, announce, now, n))
  }

  /** Channel `n` after `c` was added to the members of channel `name`:
      `name` gains `c` (from no members when it is new, with an empty
      mailbox); any other channel is unchanged. */
  predicate AttachedAt(s0: HubState, s1: HubState, c: Client, name: string, n: string)
    requires s0.Complete() && s1.Complete() && n in s1.channels
  {
    && s1.members[n] == (if n in s0.channels then s0.members[n] else {}) + (if n == name then {c} else {})
    && s1.mailboxes[n] == (if n in s0.channels then s0.mailboxes[n] else [])
  }

  /** The registry part of entering channel `name`: every channel is as
      `AttachedAt` states; `name` is created with type `kind` when absent;
      every other channel is the same object, and the hub-wide queue is
      untouched. */
  predicate Attached(s0: HubState, s1: HubState, c: Client, name: string, kind: ChannelType)
  {
    && s0.Complete() && s1.Complete() && s1.capacity == s0.capacity && s1.queue == s0.queue
    && s1.channels.Keys == s0.channels.Keys + {name}
    && (forall n | n in s0.channels :: s1.channels[n] == s0.channels[n])
    && (name !in s0.channels ==> s1.channels[name].kind == kind)
    && (forall n {:trigger AttachedAt(s0, s1, c, name, n)} | n in s1.channels :: AttachedAt(s0, s1, c, name, n))
  }

  class Hub {
    var channels: map<string, Channel>
    var queue: seq<Payload>
    const queueCapacity: nat
    var store: Store

    /** A hub with no channels and an empty queue over the given store. */
    constructor (store: Store, queueCapacity: nat)
      requires store.Valid()
      ensures Valid()
      ensures channels == map[] && queue == []
      ensures this.store == store && this.queueCapacity == queueCapacity
    {
      channels := map[];
      queue := [];
      this.store := store;
      this.queueCapacity := queueCapacity;
    }

    /** The registry as a value. */
    ghost function State(): (s: HubState)
      reads this`channels, this`queue, channels.Values`members, channels.Values`mailbox
      ensures s.Complete() && s.channels == channels && s.queue == queue && s.capacity == queueCapacity
      ensures forall n | n in channels :: s.members[n] == channels[n].members && s.mailboxes[n] == channels[n].mailbox
    {
      HubState(
        channels,
        map n | n in channels :: channels[n].members,
        map n | n in channels :: channels[n].mailbox,
        queue,
        queueCapacity)
    }

    /** Every client in some channel's membership. */
    ghost function Members(): set<Client>
      reads this`channels, channels.Values`members
    {
      set n, c | n in channels && c in channels[n].members :: c
    }

    /** The registry invariant: each channel is filed under its own name,
        every member's channel field names the channel it is a member of (so
        a client is a member of at most one channel), and every member's
        outbox respects its capacity. */
    ghost predicate Valid()
      reads this, channels.Values`members, Members()`channel, Members()`send
    {
      && store.Valid()
      && |queue| <= queueCapacity
      && Registry()
      && Outboxes()
    }

    /** The registry part of the invariant. */
    ghost predicate Registry()
      reads this`channels, channels.Values`members, Members()`channel
    {
      && (forall n | n in channels :: channels[n].name == n)
      && (forall n, c | n in channels && c in channels[n].members :: Normalise(c.channel) == n)
    }

    /** The outbox part of the invariant. */
    ghost predicate Outboxes()
      reads this`channels, channels.Values`members, Members()`send
    {
      forall n, c | n in channels && c in channels[n].members :: c.send.Valid()
    }

    /** `c` is a member of no channel. */
    ghost predicate Detached(c: Client)
      reads this`channels, channels.Values`members
    {
      forall n | n in channels :: c !in channels[n].members
    }

    /** Membership is exclusive. */
    lemma MembershipExclusive(c: Client, n: string, m: string)
      requires Valid()
      requires n in channels && m in channels
      requires c in channels[n].members && c in channels[m].members
      ensures n == m
    {
      assert Normalise(c.channel) == n;
    }

    /** A non-blocking send on the hub-wide queue. */
    method Offer(p: Payload)
      requires Valid()
      modifies this`queue
      ensures Valid()
      ensures queue == Enqueued(old(queue), queueCapacity, p)
      ensures State() == old(State()).(queue := queue)
    {
      if |queue| < queueCapacity {
        queue := queue + [p];
      }
    }

    /** Save a chat message in the store; a failure is ignored. */
    method Save(msg: Message)
      requires Valid()
      modifies this`store
      ensures Valid()
      ensures store == SaveMessage(old(store), msg).0
      ensures State() == old(State())
    {
      var saved := SaveMessage(store, msg);
      store := saved.0;
    }

    /** A blocking send into the mailbox of channel `name`, which is in the
        registry; the send is taken to succeed. */
    method Post(name: string, p: Payload)
      requires Valid() && name in channels
      modifies {channels[name]}`mailbox
      ensures Valid()
      ensures Appended(old(State()), State(), name, [p])
    {
      var ch := channels[name];
      forall n | n in channels && n != name
        ensures channels[n] != ch
      {
        assert channels[n].name == n;
      }
      ch.mailbox := ch.mailbox + [p];
    }

    /** An in-memory Ephemeral channel that has no store record. */
    predicate Unrecorded(n: string)
      reads this
    {
      n in channels && channels[n].kind == Ephemeral && n !in store.Names()
    }

    /** An `active_channels` listing: the store records in name order, then
        every unrecorded Ephemeral channel of the registry, once each. */
    ghost predicate IsListing(list: seq<ChannelInfo>)
      reads this
    {
      && |list| >= |store.records|
      && list[..|store.records|] == store.records
      && (forall i | |store.records| <= i < |list| :: list[i].kind == Ephemeral && Unrecorded(list[i].name))
      && (forall n | Unrecorded(n) :: ChannelInfo(n, Ephemeral) in list[|store.records|..])
      && (forall i, j | |store.records| <= i < j < |list| :: list[i].name != list[j].name)
    }

    /** The listing sent to a newly registered client; the order of the
        registry part is the (unspecified) iteration order of the registry. */
    method ActiveChannelList() returns (r: Result<seq<ChannelInfo>>)
      ensures r.Ok? <==> store.online
      ensures r.Ok? ==> IsListing(r.value)
    {
      var listed := ListChannels(store);
      if listed.Err? {
        return Err(listed.error);
      }
      var infos := listed.value;
      var k := |infos|;
      var todo := channels.Keys;
      while todo != {}
        invariant todo <= channels.Keys
        invariant k == |store.records| <= |infos| && infos[..k] == store.records
        invariant forall i | k <= i < |infos| ::
          infos[i].kind == Ephemeral && Unrecorded(infos[i].name) && infos[i].name !in todo
        invariant forall n | Unrecorded(n) && n !in todo :: ChannelInfo(n, Ephemeral) in infos[k..]
        invariant forall i, j | k <= i < j < |infos| :: infos[i].name != infos[j].name
        decreases todo
      {
        var n :| n in todo;
        if n !in store.Names() && channels[n].kind == Ephemeral {
          ghost var before := infos;
          infos := infos + [ChannelInfo(n, Ephemeral)];
          assert infos[k..] == before[k..] + [ChannelInfo(n, Ephemeral)];
        }
        todo := todo - {n};
      }
      return Ok(infos);
    }

    /** Send the listing to `c`: one message, or its outbox is closed when
        full. Nothing is sent when the store cannot be read. */
    method SendActiveChannels(c: Client) returns (ghost listing: Option<seq<ChannelInfo>>)
      requires Valid() && c.send.Valid()
      modifies c`send
      ensures Valid()
      ensures listing.Some? <==> store.online
      ensures listing.None? ==> c.send == old(c.send)
      ensures listing.Some? ==>
        IsListing(listing.value) && c.send == old(c.send).OfferOrClose(ActiveChannels(listing.value))
    {
      var list := ActiveChannelList();
      if list.Err? {
        return None;
      }
      c.send := c.send.OfferOrClose(ActiveChannels(list.value));
      return Some(list.value);
    }

    /** Fan `p` out on every channel of the registry, evicting members whose
        outbox is full. Memberships are disjoint, so every member is offered
        `p` exactly once. */
    method FanoutAll(p: Payload)
      requires Valid()
      modifies channels.Values`members, Members()`send
      ensures Valid()
      ensures forall n | n in channels :: channels[n].members <= old(channels[n].members)
      ensures forall n, c | n in channels && c in old(channels[n].members) ::
        (c in channels[n].members <==> old(c.send).HasRoom()) && c.send == old(c.send).OfferOrClose(p)
    {
      var todo := channels.Keys;
      while todo != {}
        invariant todo <= channels.Keys
        invariant forall n | n in channels :: channels[n].name == n
        invariant forall n | n in channels :: channels[n].members <= old(channels[n].members)
        invariant forall n, c | n in channels && c in old(channels[n].members) :: Normalise(c.channel) == n
        invariant forall n, c | n in channels && c in channels[n].members :: c.send.Valid()
        invariant forall n | n in todo :: channels[n].members == old(channels[n].members)
        invariant forall n, c | n in todo && c in old(channels[n].members) :: c.send == old(c.send)
        invariant forall n, c | n in channels && n !in todo && c in old(channels[n].members) ::
          (c in channels[n].members <==> old(c.send).HasRoom()) && c.send == old(c.send).OfferOrClose(p)
        decreases todo
      {
        var n :| n in todo;
        var ch := channels[n];
        assert forall c | c in ch.members :: c in old(Members());
        forall m, c | m in channels && m != n && c in old(channels[m].members)
          ensures c !in ch.members
        {
          assert Normalise(c.channel) == m;
        }
        ch.Fanout(p);
        todo := todo - {n};
      }
    }

    /** Run the fanout loop of registered channel `name` over `signals`, as
        `Channels.Channel.Run` states; only that channel and its members'
        outboxes change, so the hub invariant is kept. */
    method RunChannel(name: string, signals: seq<Signal>) returns (delivered: nat)
      requires Valid() && name in channels
      modifies channels[name], channels[name].members`send
      ensures Valid()
      ensures delivered == Min(FirstStop(signals), |old(channels[name].mailbox)|)
      ensures channels == old(channels)
      ensures channels[name].mailbox == old(channels[name].mailbox)[delivered..]
      ensures forall c | c in old(channels[name].members) ::
        c.send == DeliverAll(old(c.send), old(channels[name].mailbox)[..delivered])
        && (c in channels[name].members <==> Fits(old(c.send), delivered))
      ensures forall n | n in channels && n != name ::
        channels[n].members == old(channels[n].members) && channels[n].mailbox == old(channels[n].mailbox)
    {
      var ch := channels[name];
      assert ch.MembersValid();
      forall m, c | m in channels && m != name && c in channels[m].members
        ensures c !in ch.members && channels[m] != ch
      {
        assert Normalise(c.channel) == m && channels[m].name == m;
      }
      delivered := ch.Run(signals);
    }

    /** A client that is a member of no channel is not among the members. */
    lemma DetachedNotMember(c: Client)
      requires Detached(c)
      ensures c !in Members()
    {
    }

    /** Offer `p` to every member of every channel except `except`, skipping
        (and keeping) members whose outbox is full. */
    method NotifyAll(p: Payload, except: Client)
      requires Valid()
      modifies Members()`send
      ensures Valid()
      ensures forall n, c | n in channels && c in channels[n].members && c != except ::
        c.send == old(c.send).OfferOrSkip(p)
      ensures except.send == old(except.send)
    {
      var todo := channels.Keys;
      while todo != {}
        invariant todo <= channels.Keys
        invariant forall n, c | n in channels && c in channels[n].members :: Normalise(c.channel) == n
        invariant forall n, c | n in channels && c in channels[n].members :: c.send.Valid()
        invariant except.send == old(except.send)
        invariant forall n, c | n in channels && c in channels[n].members && c != except ::
          c.send == if n in todo then old(c.send) else old(c.send).OfferOrSkip(p)
        decreases todo
      {
        var n :| n in todo;
        var ch := channels[n];
        assert forall c | c in ch.members :: c in old(Members());
        forall m, c | m in channels && m != n && c in channels[m].members
          ensures c !in ch.members
        {
          assert Normalise(c.channel) == m;
        }
        ch.Notify(p, except);
        todo := todo - {n};
      }
    }

    /** The broadcast event: take the oldest hub-wide notice, if any, and
        deliver it to every member of every channel; a member whose outbox is
        full has it closed and is removed from its channel, and no other
        member is affected. */
    method BroadcastNext() returns (sent: Option<Payload>)
      requires Valid()
      modifies this`queue, channels.Values`members, Members()`send
      ensures Valid()
      ensures old(queue) == [] ==> sent == None && queue == []
      ensures old(queue) == [] ==> forall n | n in channels :: channels[n].members == old(channels[n].members)
      ensures old(queue) == [] ==> forall c | c in old(Members()) :: c.send == old(c.send)
      ensures old(queue) != [] ==> sent == Some(old(queue)[0]) && queue == old(queue)[1..]
      ensures old(queue) != [] ==> forall n | n in channels :: channels[n].members <= old(channels[n].members)
      ensures old(queue) != [] ==> forall n, c | n in channels && c in old(channels[n].members) ::
        (c in channels[n].members <==> old(c.send).HasRoom()) && c.send == old(c.send).OfferOrClose(old(queue)[0])
    {
      if queue == [] {
        return None;
      }
      var p := queue[0];
      queue := queue[1..];
      FanoutAll(p);
      return Some(p);
    }

    /** The register event: file `c` under its channel (the default channel
        when it names none), creating that channel if absent with the stored
        type or Ephemeral; replay the history of a persistent channel; then
        send the channel listing. `loopExits` reports that the replay found
        the outbox full, closed it and returned from the hub's event loop
        itself, so that the listing is not sent. */
    method Register(c: Client) returns (loopExits: bool, ghost listing: Option<seq<ChannelInfo>>)
      requires Valid() && c.send.Valid()
      modifies this`channels, channels.Values`members, c`send
      ensures Valid()
      ensures var name := Normalise(c.channel);
        && channels.Keys == old(channels.Keys) + {name}
        && (forall n | n in old(channels) :: channels[n] == old(channels[n]))
        && (forall n | n in old(channels) && n != name :: channels[n].members == old(channels[n].members))
        && (name in old(channels) ==> channels[name].members == old(channels[name].members) + {c})
        && (name !in old(channels) ==>
              && fresh(channels[name])
              && channels[name].kind == ResolvedType(store, name)
              && channels[name].members == {c}
              && channels[name].mailbox == [])
      ensures var name := Normalise(c.channel);
        var history := Chats(Backlog(store, name, channels[name].kind));
        && (loopExits <==> !Fits(old(c.send), |history|))
        && (loopExits || !store.online ==> listing == None && c.send == DeliverAll(old(c.send), history))
        && (!loopExits && store.online ==>
              && listing.Some? && IsListing(listing.value)
              && c.send == DeliverAll(old(c.send), history).OfferOrClose(ActiveChannels(listing.value)))
    {
      var name := Normalise(c.channel);
      var ch := Attach(c, ResolvedType(store, name));
      listing, loopExits := Welcome(c, ch.name, ch.kind);
    }

    /** What a newly registered client is sent: the backlog of its channel,
        then (unless the replay overflowed) the channel listing. Only the
        client's outbox changes. */
    method Welcome(c: Client, name: string, kind: ChannelType)
      returns (ghost listing: Option<seq<ChannelInfo>>, loopExits: bool)
      requires Valid() && c.send.Valid()
      modifies c`send
      ensures Valid()
      ensures var history := Chats(Backlog(store, name, kind));
        && (loopExits <==> !Fits(old(c.send), |history|))
        && (loopExits || !store.online ==> listing == None && c.send == DeliverAll(old(c.send), history))
        && (!loopExits && store.online ==>
              && listing.Some? && IsListing(listing.value)
              && c.send == DeliverAll(old(c.send), history).OfferOrClose(ActiveChannels(listing.value)))
    {
      var completed := ReplayBacklog(c, name, kind);
      if !completed {
        return None, true;
      }
      listing := SendActiveChannels(c);
      loopExits := false;
    }

    /** Replay the backlog of channel `name` of type `kind` into `c`'s outbox,
        closing it at the first message that does not fit. */
    method ReplayBacklog(c: Client, name: string, kind: ChannelType) returns (completed: bool)
      requires Valid() && c.send.Valid()
      modifies c`send
      ensures Valid()
      ensures var history := Chats(Backlog(store, name, kind));
        && c.send == DeliverAll(old(c.send), history)
        && (completed <==> Fits(old(c.send), |history|))
    {
      var history: seq<Message> := [];
      if kind == Persistent {
        var stored := ChannelHistory(store, name, HistoryLimit);
        if stored.Ok? {
          history := stored.value;
        }
      }
      completed := c.Replay(history);
    }

    /** On register the listing comes after the whole backlog, and only when
        the backlog and the listing both fit. */
    static lemma {:induction false} ListingAfterBacklog(box: Outbox, history: seq<Payload>, p: Payload)
      requires box.Valid() && Fits(box, |history|)
      ensures var r := DeliverAll(box, history).OfferOrClose(p);
        && r.items == box.items + history + (if Fits(box, |history| + 1) then [p] else [])
        && (r.closed <==> !Fits(box, |history| + 1))
    {
      DeliverAllShape(box, history);
      RoomAfter(box, history, |history|);
      assert history[..|history|] == history;
    }

    /** The registry part of entering a channel: the channel `c` names is
        looked up, created with type `kind` when absent, and `c` added to its
        members. */
    method Attach(c: Client, kind: ChannelType) returns (ch: Channel)
      requires Valid() && c.send.Valid()
      modifies this`channels, channels.Values`members
      ensures Valid()
      ensures var name := Normalise(c.channel);
        && ch.name == name && name in channels && channels[name] == ch
        && channels == old(channels)[name := ch]
        && channels.Keys == old(channels.Keys) + {name}
        && (forall n | n in old(channels) :: channels[n] == old(channels[n]))
        && (forall n | n in old(channels) && n != name :: channels[n].members == old(channels[n].members))
        && (name in old(channels) ==> ch.members == old(channels[name].members) + {c})
        && (name !in old(channels) ==>
              && fresh(ch) && ch.kind == kind && ch.members == {c} && ch.mailbox == [])
      ensures forall n | n in old(channels) :: channels[n].mailbox == old(channels[n].mailbox)
    {
      var name := Normalise(c.channel);
      if name !in channels {
        ch := new Channel(name, kind);
        channels := channels[name := ch];
      }
      ch := channels[name];
      ch.members := ch.members + {c};
    }

    /** What `Attach` promises, restated on the registry as a value. */
    twostate lemma AttachedState(new c: Client, new ch: Channel, new kind: ChannelType)
      requires queue == old(queue)
      requires var name := Normalise(c.channel);
        && ch.name == name && name in channels && channels[name] == ch
        && channels.Keys == old(channels.Keys) + {name}
        && (forall n | n in old(channels) :: channels[n] == old(channels[n]))
        && (forall n | n in old(channels) && n != name :: channels[n].members == old(channels[n].members))
        && (forall n | n in old(channels) :: channels[n].mailbox == old(channels[n].mailbox))
        && (name in old(channels) ==> ch.members == old(channels[name].members) + {c})
        && (name !in old(channels) ==> ch.kind == kind && ch.members == {c} && ch.mailbox == [])
      ensures Attached(old(State()), State(), c, Normalise(c.channel), kind)
    {
      var s0, s1 := old(State()), State();
      forall n | n in s1.channels
        ensures AttachedAt(s0, s1, c, ch.name, n)
      {
        if n == ch.name {
          assert s1.members[n] == ch.members && s1.mailboxes[n] == ch.mailbox;
        }
      }
    }

    /** The unregister event. A client that is not a member of the channel
        its name denotes changes nothing. Otherwise it is removed and its
        outbox closed; a "left" notice goes to an Ephemeral channel that keeps
        other members when the client has a name; a channel left empty is
        removed from the registry unless it is the default channel, and for
        an Ephemeral one a `channel_deleted` notice is offered to every
        remaining member of every channel. */
    method Unregister(c: Client, now: Time)
      requires Valid() && c.send.Valid()
      modifies this`channels, channels.Values, Members()`send, c`send
      ensures Valid()
      ensures Detached(c)
      ensures var name := Normalise(c.channel);
        !(name in old(channels) && c in old(channels[name].members)) ==>
          && channels == old(channels)
          && (forall n | n in channels :: channels[n].members == old(channels[n].members))
          && (forall n | n in channels :: channels[n].mailbox == old(channels[n].mailbox))
          && (forall m | m in old(Members()) :: m.send == old(m.send))
          && c.send == old(c.send)
      ensures var name := Normalise(c.channel);
        name in old(channels) && c in old(channels[name].members) ==>
          var ch := old(channels[name]);
          var removed := old(channels[name].members) == {c} && name != DefaultChannel;
          && ch.members == old(ch.members) - {c}
          && ch.mailbox == old(ch.mailbox) +
               (if ch.kind == Ephemeral && |old(ch.members)| > 1 && c.username != ""
                then [LeftNotice(c.username, name, now)] else [])
          && channels == (if removed then old(channels) - {name} else old(channels))
          && (forall n | n in channels && n != name ::
                channels[n].members == old(channels[n].members) && channels[n].mailbox == old(channels[n].mailbox))
          && (removed && ch.kind == Ephemeral ==> forall n, m | n in channels && m in channels[n].members ::
                m.send == old(m.send).OfferOrSkip(ChannelDeleted(name)))
          && (!(removed && ch.kind == Ephemeral) ==> forall m | m in old(Members()) && m != c :: m.send == old(m.send))
          && c.send == old(c.send).Close()
    {
      var name := Normalise(c.channel);
      if name !in channels || c !in channels[name].members {
        return;
      }
      Disconnect(c, now);
    }

    /** The unregister event for a client that is a member of the channel
        its name denotes. */
    method Disconnect(c: Client, now: Time)
      requires Valid() && c.send.Valid()
      requires Normalise(c.channel) in channels && c in channels[Normalise(c.channel)].members
      modifies this`channels, channels.Values, Members()`send, c`send
      ensures Valid()
      ensures Detached(c)
      ensures var name := Normalise(c.channel);
          var ch := old(channels[name]);
          var removed := old(channels[name].members) == {c} && name != DefaultChannel;
          && ch.members == old(ch.members) - {c}
          && ch.mailbox == old(ch.mailbox) +
               (if ch.kind == Ephemeral && |old(ch.members)| > 1 && c.username != ""
                then [LeftNotice(c.username, name, now)] else [])
          && channels == (if removed then old(channels) - {name} else old(channels))
          && (forall n | n in channels && n != name ::
                channels[n].members == old(channels[n].members) && channels[n].mailbox == old(channels[n].mailbox))
          && (removed && ch.kind == Ephemeral ==> forall n, m | n in channels && m in channels[n].members ::
                m.send == old(m.send).OfferOrSkip(ChannelDeleted(name)))
          && (!(removed && ch.kind == Ephemeral) ==> forall m | m in old(Members()) && m != c :: m.send == old(m.send))
          && c.send == old(c.send).Close()
    {
      var name := Normalise(c.channel);
      var ch := channels[name];
      var removed := Leave(c, ch, true, now);
      assert removed <==> old(ch.members) == {c} && name != DefaultChannel;
      if removed && ch.kind == Ephemeral {
        NotifyAll(ChannelDeleted(name), c);
      }
      Shut(c);
    }

    /** Point a client that is a member of no channel at channel `name`. */
    method Rename(c: Client, name: string)
      requires Valid() && Detached(c)
      modifies c`channel
      ensures Valid() && Detached(c)
      ensures c.channel == name
      ensures State() == old(State())
    {
      DetachedNotMember(c);
      c.channel := name;
    }

    /** Close the outbox of a client that is a member of no channel. */
    method Shut(c: Client)
      requires Valid() && Detached(c)
      modifies c`send
      ensures Valid() && Detached(c)
      ensures c.send == old(c.send).Close()
    {
      DetachedNotMember(c);
      c.send := c.send.Close();
    }

    /** The registry part of leaving channel `ch`, the one `c` names: the
        "left" notice when `announce` is set, the removal from the membership
        and the removal of a channel left empty other than the default one.
        `removed` tells whether the channel was dropped from the registry.
        No outbox changes. */
    method Leave(c: Client, ch: Channel, announce: bool, now: Time) returns (removed: bool)
      requires Valid()
      requires ch.name == Normalise(c.channel) && ch.name in channels && channels[ch.name] == ch
      modifies this`channels, ch`members, ch`mailbox
      ensures Valid() && Detached(c)
      ensures Members() == old(Members()) - {c}
      ensures removed <==> old(ch.members) <= {c} && ch.name != DefaultChannel
      ensures ch.members == old(ch.members) - {c}
      ensures ch.mailbox == old(ch.mailbox) +
        (if announce && ch.kind == Ephemeral && |old(ch.members)| > 1 && c.username != ""
         then [LeftNotice(c.username, ch.name, now)] else [])
      ensures channels == if removed then old(channels) - {ch.name} else old(channels)
      ensures forall n | n in channels && n != ch.name ::
        channels[n].members == old(channels[n].members) && channels[n].mailbox == old(channels[n].mailbox)
    {
      if announce && ch.kind == Ephemeral && |ch.members| > 1 && c.username != "" {
        ch.mailbox := ch.mailbox + [LeftNotice(c.username, ch.name, now)];
      }
      Withdraw(c, ch);
      removed := ch.members == {} && ch.name != DefaultChannel;
      if removed {
        Drop(ch.name);
      }
    }

    /** What `Leave` promises, restated on the registry as a value. The
        parameters are marked `new` and the allocation of `c` and `ch` in the
        earlier state is required explicitly instead. */
    twostate lemma LeftState(new c: Client, new ch: Channel, new announce: bool, new now: Time)
      requires old(allocated(c)) && old(allocated(ch)) && old(Valid())
      requires old(ch.name in channels && channels[ch.name] == ch)
      requires queue == old(queue) && c.username == old(c.username)
      requires ch.members == old(ch.members) - {c}
      requires ch.mailbox == old(ch.mailbox) +
        (if announce && ch.kind == Ephemeral && |old(ch.members)| > 1 && c.username != ""
         then [LeftNotice(c.username, ch.name, now)] else [])
      requires channels == if old(ch.members) <= {c} && ch.name != DefaultChannel then old(channels) - {ch.name}
                           else old(channels)
      requires forall n | n in channels && n != ch.name ::
        channels[n].members == old(channels[n].members) && channels[n].mailbox == old(channels[n].mailbox)
      ensures Left(old(State()), State(), c, c.username, ch.name, announce, now)
    {
      var s0, s1 := old(State()), State();
      forall n | n in s1.channels
        ensures n in s0.channels && DepartedAt(s0, s1, c, c.username, ch.name, announce, now, n)
      {
        if n == ch.name {
          assert s1.members[n] == ch.members && s1.mailboxes[n] == ch.mailbox;
        }
      }
    }

    /** Remove `c` from the members of `ch`, the channel it names. */
    method Withdraw(c: Client, ch: Channel)
      requires Valid()
      requires ch.name == Normalise(c.channel) && ch.name in channels && channels[ch.name] == ch
      modifies ch`members
      ensures Valid() && Detached(c)
      ensures Members() == old(Members()) - {c}
      ensures ch.members == old(ch.members) - {c}
      ensures forall n | n in channels && n != ch.name :: channels[n] != ch
    {
      var name := ch.name;
      forall n | n in channels && n != name
        ensures channels[n] != ch && c !in channels[n].members
      {
        assert channels[n].name == n;
      }
      ch.members := ch.members - {c};
      forall m | m in old(Members()) - {c}
        ensures m in Members()
      {
        var n :| n in channels && m in old(channels[n].members);
        assert n == name ==> m in ch.members;
      }
    }

    /** Remove the empty channel `name` from the registry. */
    method Drop(name: string)
      requires Valid() && name in channels && channels[name].members == {}
      modifies this`channels
      ensures Valid()
      ensures channels == old(channels) - {name}
      ensures Members() == old(Members())
    {
      channels := channels - {name};
      forall m | m in old(Members())
        ensures m in Members()
      {
        var n :| n in old(channels) && m in old(channels[n].members);
        assert n != name && n in channels;
      }
    }
  }
}
