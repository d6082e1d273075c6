/** Connected clients and channels. A channel owns a membership set and a
    FIFO mailbox; its fanout loop takes payloads from the mailbox one at a
    time and offers each to every member without blocking, evicting a member
    whose outbox cannot take it. */
module Channels {
  import opened Wire

  /** One connection. `channel` is the name the client believes it is in
      (empty until it is set); `send` is its outbound queue. */
  class Client {
    var channel: string
    var username: string
    var hasJoined: bool
    var send: Outbox

    /** A connection as the upgrade handler builds it. */
    constructor (channel: string)
      ensures this.channel == channel && username == "" && !hasJoined
      ensures send == EmptyOutbox
    {
      this.channel := channel;
      username := "";
      hasJoined := false;
      send := EmptyOutbox;
    }

    /** Replay stored history into the outbox, stopping at (and closing the
        outbox on) the first message that does not fit. */
    method Replay(history: seq<Message>) returns (completed: bool)
      requires send.Valid()
      modifies this`send
      ensures send == DeliverAll(old(send), Chats(history))
      ensures completed <==> Fits(old(send), |history|)
    {
      for i := 0 to |history|
        invariant send == DeliverAll(old(send), Chats(history[..i]))
        invariant Fits(old(send), i)
      {
        assert Chats(history[..i + 1]) == Chats(history[..i]) + [Chat(history[i])];
        DeliverAllSnoc(old(send), Chats(history[..i]), Chat(history[i]));
        RoomAfter(old(send), Chats(history), i);
        assert Chats(history)[..i] == Chats(history[..i]);
        if !send.HasRoom() {
          send := send.Close();
          assert Chats(history) == Chats(history[..i + 1]) + Chats(history[i + 1..]);
          DeliverAllSplit(old(send), Chats(history[..i + 1]), Chats(history[i + 1..]));
          return false;
        }
        send := send.Put(Chat(history[i]));
      }
      assert history[..|history|] == history;
      return true;
    }
  }

  /** Delivering `a + b` is delivering `a` and then `b`. */
  lemma {:induction false} DeliverAllSplit(box: Outbox, a: seq<Payload>, b: seq<Payload>)
    requires box.Valid()
    ensures DeliverAll(box, a + b) == DeliverAll(DeliverAll(box, a), b)
    decreases |a|
  {
    if a == [] {
      assert a + b == b;
    } else {
      assert (a + b)[0] == a[0] && (a + b)[1..] == a[1..] + b;
      DeliverAllSplit(box.OfferOrClose(a[0]), a[1..], b);
      assert DeliverAll(box, a) == DeliverAll(box.OfferOrClose(a[0]), a[1..]);
    }
  }

  /** What the fanout loop of a channel can observe next. */
  datatype Signal = Shutdown | HubShutdown | Incoming

  /** The index of the first shutdown signal, or the length if there is none. */
  function FirstStop(signals: seq<Signal>): (k: nat)
    ensures k <= |signals|
    ensures forall i :: 0 <= i < k ==> signals[i] == Incoming
    ensures k < |signals| ==> signals[k] != Incoming
  {
    if signals == [] || signals[0] != Incoming then 0 else 1 + FirstStop(signals[1..])
  }

  class Channel {
    const name: string
    const kind: ChannelType
    var members: set<Client>
    var mailbox: seq<Payload>

    /** A fresh channel with no members and an empty mailbox. */
    constructor (name: string, kind: ChannelType)
      ensures this.name == name && this.kind == kind
      ensures members == {} && mailbox == []
    {
      this.name := name;
      this.kind := kind;
      members := {};
      mailbox := [];
    }

    ghost predicate MembersValid()
      reads this, members
    {
      forall c | c in members :: c.send.Valid()
    }

    /** Offer `p` to every member; a member whose outbox is full (or closed)
        has it closed and is removed from the membership. */
    method Fanout(p: Payload)
      requires MembersValid()
      modifies this`members, members`send
      ensures members <= old(members)
      ensures forall c | c in old(members) :: c in members <==> old(c.send).HasRoom()
      ensures forall c | c in old(members) :: c.send == old(c.send).OfferOrClose(p)
      ensures MembersValid()
    {
      var todo := members;
      while todo != {}
        invariant todo <= old(members)
        invariant todo <= members <= old(members)
        invariant forall c | c in old(members) - todo :: c in members <==> old(c.send).HasRoom()
        invariant forall c | c in old(members) - todo :: c.send == old(c.send).OfferOrClose(p)
        invariant forall c | c in todo :: c.send == old(c.send)
        decreases todo
      {
        var c :| c in todo;
        if c.send.HasRoom() {
          c.send := c.send.Put(p);
        } else {
          c.send := c.send.Close();
          members := members - {c};
        }
        todo := todo - {c};
      }
    }

    /** Offer `p` to every member other than `except`, skipping (and keeping)
        members whose outbox is full. */
    method Notify(p: Payload, except: Client)
      requires MembersValid()
      modifies members`send
      ensures forall c | c in members && c != except :: c.send == old(c.send).OfferOrSkip(p)
      ensures except.send == old(except.send)
      ensures MembersValid()
    {
      var todo := members;
      while todo != {}
        invariant todo <= members
        invariant except.send == old(except.send)
        invariant forall c | c in members - todo && c != except :: c.send == old(c.send).OfferOrSkip(p)
        invariant forall c | c in todo :: c.send == old(c.send)
        decreases todo
      {
        var c :| c in todo;
        if c != except {
          c.send := c.send.OfferOrSkip(p);
        }
        todo := todo - {c};
      }
    }

    /** The fanout loop run over a sequence of observed signals: each
        `Incoming` takes the head of the mailbox (if any) and fans it out; the
        first shutdown signal ends the loop with the rest of the mailbox
        undelivered. */
    method Run(signals: seq<Signal>) returns (delivered: nat)
      requires MembersValid()
      modifies this, members`send
      ensures delivered == Min(FirstStop(signals), |old(mailbox)|)
      ensures mailbox == old(mailbox)[delivered..]
      ensures forall c | c in old(members) :: c.send == DeliverAll(old(c.send), old(mailbox)[..delivered])
      ensures members <= old(members)
      ensures forall c | c in old(members) :: c in members <==> Fits(old(c.send), delivered)
      ensures MembersValid()
    {
      delivered := 0;
      var i := 0;
      while i < |signals| && signals[i] == Incoming
        invariant i <= FirstStop(signals)
        invariant delivered == Min(i, |old(mailbox)|)
        invariant mailbox == old(mailbox)[delivered..]
        invariant members <= old(members)
        invariant MembersValid()
        invariant forall c | c in old(members) :: c.send == DeliverAll(old(c.send), old(mailbox)[..delivered])
        invariant forall c | c in old(members) :: c in members <==> Fits(old(c.send), delivered)
      {
        if mailbox != [] {
          var p := mailbox[0];
          mailbox := mailbox[1..];
          label Pre:
          Fanout(p);
          assert old(mailbox)[..delivered + 1] == old(mailbox)[..delivered] + [p];
          forall c | c in old(members)
            ensures c.send == DeliverAll(old(c.send), old(mailbox)[..delivered + 1])
            ensures c in members <==> Fits(old(c.send), delivered + 1)
          {
            DeliverAllSnoc(old(c.send), old(mailbox)[..delivered], p);
            DeliverAllShape(old(c.send), old(mailbox)[..delivered]);
            RoomAfter(old(c.send), old(mailbox), delivered);
          }
          delivered := delivered + 1;
        }
        i := i + 1;
      }
    }
  }
}
