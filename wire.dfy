/** Values that travel between the hub, its channels and its clients: channel
    types, chat messages, the notices the server sends, and the bounded
    outbound queue ("outbox") every connected client owns. */
module Wire {

  /** Timestamps are opaque instants supplied by the caller (the wall clock is
      not modelled); 0 stands for an unset timestamp. */
  type Time = int

  /** The distinguished channel used whenever no channel name is given. It is
      never removed from the registry because it became empty. */
  const DefaultChannel: string := "general"

  /** Capacity of a client's outbound queue. */
  const OutboxCapacity: nat := 256

  function Min(a: nat, b: nat): nat { if a <= b then a else b }

  /** The empty channel name stands for the default channel. */
  function Normalise(name: string): (r: string)
    ensures r != ""
    ensures name != "" ==> r == name
    ensures name == "" ==> r == DefaultChannel
  {
    if name == "" then DefaultChannel else name
  }

  /** The type of a channel. The source keeps it as a free-form string, so a
      create request may carry a tag that is neither of the two known ones. */
  datatype ChannelType = Ephemeral | Persistent | Unrecognised(tag: string)

  /** A chat message as decoded from, or encoded to, a frame. `kind` is the
      frame's type discriminator; `id` is 0 unless the message was replayed
      from the store. */
  datatype Message = Message(
    id: int,
    username: string,
    content: string,
    kind: string,
    channel: string,
    timestamp: Time)

  /** One entry of an `active_channels` listing. */
  datatype ChannelInfo = ChannelInfo(name: string, kind: ChannelType)

  /** What the server puts on a client's outbox or a channel's mailbox. The
      JSON encoding is not modelled: each notice is an opaque constructor. */
  datatype Payload =
    | Chat(message: Message)
    | SystemNotice(content: string, channel: string, timestamp: Time)
    | ChannelSwitch(channel: string)
    | ChannelCreated(name: string, kind: ChannelType)
    | ChannelDeleted(name: string)
    | ActiveChannels(channels: seq<ChannelInfo>)

  /** "<user> joined the channel", sent to the channel being entered. */
  function JoinedNotice(username: string, channel: string, now: Time): Payload
  {
    SystemNotice(username + " joined the channel", channel, now)
  }

  /** "<user> left the channel", sent to the channel being left. */
  function LeftNotice(username: string, channel: string, now: Time): Payload
  {
    SystemNotice(username + " left the channel", channel, now)
  }

  /** Replayed history messages, as payloads, in the same order. */
  function Chats(history: seq<Message>): (ps: seq<Payload>)
    ensures |ps| == |history|
    ensures forall i :: 0 <= i < |history| ==> ps[i] == Chat(history[i])
  {
    seq(|history|, i requires 0 <= i < |history| => Chat(history[i]))
  }

  /** A client's outbound queue: the payloads not yet written to the socket,
      and whether the queue has been closed (which ends the writer). */
  datatype Outbox = Outbox(items: seq<Payload>, closed: bool) {

    ghost predicate Valid() {
      |items| <= OutboxCapacity
    }

    /** A send would succeed without blocking. A closed queue accepts nothing. */
    predicate HasRoom() {
      !closed && |items| < OutboxCapacity
    }

    /** The number of further payloads the queue accepts. */
    function Room(): (n: nat)
      requires Valid()
      ensures n == 0 <==> !HasRoom()
    {
      if closed then 0 else OutboxCapacity - |items|
    }

    function Put(p: Payload): (b: Outbox)
      requires HasRoom()
      ensures b.Valid() && !b.closed && b.items == items + [p]
    {
      Outbox(items + [p], closed)
    }

    function Close(): (b: Outbox)
      ensures b.closed && b.items == items
    {
      Outbox(items, true)
    }

    /** A non-blocking send whose failure closes the queue: the receiver is
        treated as dead. */
    function OfferOrClose(p: Payload): (b: Outbox)
      requires Valid()
      ensures b.Valid()
      ensures HasRoom() ==> !b.closed && b.items == items + [p]
      ensures !HasRoom() ==> b.closed && b.items == items
    {
      if HasRoom() then Put(p) else Close()
    }

    /** A non-blocking send whose failure is ignored. */
    function OfferOrSkip(p: Payload): (b: Outbox)
      requires Valid()
      ensures b.Valid() && b.closed == closed
      ensures b.items == if HasRoom() then items + [p] else items
    {
      if HasRoom() then Put(p) else this
    }
  }

  const EmptyOutbox: Outbox := Outbox([], false)

  /** Offer the payloads one by one, closing the queue at the first refusal. */
  function DeliverAll(box: Outbox, ps: seq<Payload>): (r: Outbox)
    requires box.Valid()
    ensures r.Valid() && box.items <= r.items
    ensures box.closed ==> r == box
    decreases |ps|
  {
    if ps == [] then box else DeliverAll(box.OfferOrClose(ps[0]), ps[1..])
  }

  /** The queue accepts `n` more payloads in a row. */
  predicate Fits(box: Outbox, n: nat) {
    n == 0 || (!box.closed && |box.items| + n <= OutboxCapacity)
  }

  /** Delivering a sequence appends its longest prefix that fits, in order,
      and closes the queue exactly when some payload did not fit. */
  lemma {:induction false} DeliverAllShape(box: Outbox, ps: seq<Payload>)
    requires box.Valid()
    ensures var k := if |ps| <= box.Room() then |ps| else box.Room();
      && DeliverAll(box, ps).Valid()
      && DeliverAll(box, ps).items == box.items + ps[..k]
      && DeliverAll(box, ps).closed == (box.closed || |ps| > box.Room())
      && (Fits(box, |ps|) <==> |ps| == 0 || !DeliverAll(box, ps).closed)
    decreases |ps|
  {
    if ps != [] {
      var next := box.OfferOrClose(ps[0]);
      DeliverAllShape(next, ps[1..]);
      if box.HasRoom() {
        assert next.Room() == box.Room() - 1;
        var k := if |ps| <= box.Room() then |ps| else box.Room();
        assert ps[1..][..k - 1] == ps[1..k];
        assert [ps[0]] + ps[1..k] == ps[..k];
      } else {
        assert next.Room() == 0;
      }
    }
  }

  /** Delivering `ps` and then `p` is delivering `ps + [p]`. */
  lemma {:induction false} DeliverAllSnoc(box: Outbox, ps: seq<Payload>, p: Payload)
    requires box.Valid()
    ensures DeliverAll(box, ps + [p]) == DeliverAll(box, ps).OfferOrClose(p)
    decreases |ps|
  {
    if ps == [] {
      assert ps + [p] == [p];
    } else {
      assert (ps + [p])[1..] == ps[1..] + [p];
      DeliverAllSnoc(box.OfferOrClose(ps[0]), ps[1..], p);
    }
  }

  /** Whether the next offer after delivering `n` payloads finds room is the
      same as whether `n + 1` payloads fit. */
  lemma RoomAfter(box: Outbox, ps: seq<Payload>, n: nat)
    requires box.Valid() && n <= |ps|
    ensures DeliverAll(box, ps[..n]).HasRoom() <==> Fits(box, n + 1)
  {
    DeliverAllShape(box, ps[..n]);
  }
}
