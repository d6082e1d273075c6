/** The persistence store behind the hub, as an abstract value: the channel
    records table (unique name, type) and the messages table (auto-assigned
    id, channel name referencing a channel record, username, content,
    timestamp). SQL, connection handling and schema creation are not
    modelled; a store that is `online == false` fails every query. */
module Database {
  import opened Wire

  /** Width of the VARCHAR(100) name, channel and username columns. */
  const ColumnWidth: nat := 100

  datatype StoreError = Unavailable | NotFound | ValueTooLong | ForeignKeyViolation

  datatype Status = Done | Failed(error: StoreError)

  datatype Result<T> = Ok(value: T) | Err(error: StoreError)

  /** One row of the messages table. */
  datatype Row = Row(id: nat, channel: string, username: string, content: string, timestamp: Time)

  /** Strict code-point order on names, the order of `ORDER BY name` (the
      database collation is not modelled). */
  predicate Before(a: string, b: string)
  {
    if a == [] then b != []
    else if b == [] then false
    else if a[0] != b[0] then a[0] < b[0]
    else Before(a[1..], b[1..])
  }

  lemma {:induction false} BeforeIrreflexive(a: string)
    ensures !Before(a, a)
  {
    if a != [] {
      BeforeIrreflexive(a[1..]);
    }
  }

  lemma {:induction false} BeforeTransitive(a: string, b: string, c: string)
    requires Before(a, b) && Before(b, c)
    ensures Before(a, c)
  {
    if a != [] && b != [] && c != [] && a[0] == b[0] && b[0] == c[0] {
      BeforeTransitive(a[1..], b[1..], c[1..]);
    }
  }

  lemma {:induction false} BeforeTotal(a: string, b: string)
    requires a != b
    ensures Before(a, b) || Before(b, a)
  {
    if a != [] && b != [] && a[0] == b[0] {
      assert a == [a[0]] + a[1..] && b == [b[0]] + b[1..];
      BeforeTotal(a[1..], b[1..]);
    }
  }

  /** Channel records strictly ordered by name; hence names are unique. */
  ghost predicate NameOrdered(records: seq<ChannelInfo>)
  {
    forall i, j :: 0 <= i < j < |records| ==> Before(records[i].name, records[j].name)
  }

  function NamesOf(records: seq<ChannelInfo>): set<string>
  {
    set r | r in records :: r.name
  }

  /** The records table with `info` added at its place in name order. */
  function Insert(records: seq<ChannelInfo>, info: ChannelInfo): (r: seq<ChannelInfo>)
    requires NameOrdered(records) && info.name !in NamesOf(records)
    ensures NameOrdered(r)
    ensures forall x :: x in r <==> x in records || x == info
    ensures |r| == |records| + 1
  {
    if records == [] then [info]
    else if Before(info.name, records[0].name) then
      forall j | 0 <= j < |records| ensures Before(info.name, records[j].name) {
        if j > 0 { BeforeTransitive(info.name, records[0].name, records[j].name); }
      }
      [info] + records
    else
      assert records[0] in records;
      BeforeTotal(info.name, records[0].name);
      var rest := Insert(records[1..], info);
      assert forall x :: x in records[1..] ==> x in records;
      forall j | 0 <= j < |rest| ensures Before(records[0].name, rest[j].name) {
        if rest[j] != info {
          assert rest[j] in records[1..];
          var k :| 0 <= k < |records[1..]| && records[1..][k] == rest[j];
          assert records[k + 1] == rest[j];
        }
      }
      [records[0]] + rest
  }

  /** The type stored for `name`, if any. */
  function Lookup(records: seq<ChannelInfo>, name: string): (r: Option<ChannelType>)
    ensures r.Some? <==> name in NamesOf(records)
    ensures r.Some? ==> ChannelInfo(name, r.value) in records
  {
    if records == [] then None
    else if records[0].name == name then Some(records[0].kind)
    else
      assert forall x :: x in records[1..] ==> x in records;
      assert forall x :: x in records && x != records[0] ==> x in records[1..];
      Lookup(records[1..], name)
  }

  datatype Option<T> = None | Some(value: T)

  /** The whole store. `rows` is kept in insertion order, which the model
      takes to be timestamp order. */
  datatype Store = Store(records: seq<ChannelInfo>, rows: seq<Row>, nextId: nat, online: bool) {

    ghost predicate Valid() {
      && NameOrdered(records)
      && (forall r | r in rows :: r.id < nextId && r.channel in NamesOf(records))
      && IdOrdered(rows)
    }

    function Names(): set<string> {
      NamesOf(records)
    }
  }

  /** Store a chat message. Only frames of type "message" are stored; the
      channel named in the message must have a channel record (foreign key).
      An insert that reaches the store draws its `SERIAL` id first, and the
      id stays used when the insert then fails. */
  function SaveMessage(s: Store, msg: Message): (r: (Store, Status))
    requires s.Valid()
    ensures r.0.Valid()
    ensures msg.kind != "message" ==> r == (s, Done)
    ensures r.1 == Failed(Unavailable) ==> r.0 == s
    ensures r.1.Failed? && r.1 != Failed(Unavailable) ==> r.0 == s.(nextId := s.nextId + 1)
    ensures msg.kind == "message" && msg.channel !in s.Names() ==> r.1.Failed?
    ensures !s.online ==> (r.1 == Done <==> msg.kind != "message")
    ensures (s.online && msg.kind == "message" && msg.channel in s.Names() &&
             |msg.channel| <= ColumnWidth && |msg.username| <= ColumnWidth) ==> r.1 == Done
    ensures r.1 == Done && msg.kind == "message" ==>
      && r.0.records == s.records
      && r.0.rows == s.rows + [Row(s.nextId, msg.channel, msg.username, msg.content, msg.timestamp)]
  {
    if msg.kind != "message" then (s, Done)
    else if !s.online then (s, Failed(Unavailable))
    else if |msg.channel| > ColumnWidth || |msg.username| > ColumnWidth then (s.(nextId := s.nextId + 1), Failed(ValueTooLong))
    else if msg.channel !in s.Names() then (s.(nextId := s.nextId + 1), Failed(ForeignKeyViolation))
    else
      var row := Row(s.nextId, msg.channel, msg.username, msg.content, msg.timestamp);
      (s.(rows := s.rows + [row], nextId := s.nextId + 1), Done)
  }

  /** The rows of one channel, oldest first. */
  function RowsOf(rows: seq<Row>, name: string): (r: seq<Row>)
    ensures forall x :: x in r <==> x in rows && x.channel == name
    ensures |r| <= |rows|
  {
    if rows == [] then []
    else
      assert forall x :: x in rows <==> x == rows[0] || x in rows[1..];
      (if rows[0].channel == name then [rows[0]] else []) + RowsOf(rows[1..], name)
  }

  /** Rows in strictly increasing id order, the order they were saved in. */
  predicate IdOrdered(rows: seq<Row>) {
    forall i, j | 0 <= i < j < |rows| :: rows[i].id < rows[j].id
  }

  /** Selecting one channel keeps the rows in the order they were saved. */
  lemma {:induction false} RowsOfOrdered(rows: seq<Row>, name: string)
    ensures IdOrdered(rows) ==> IdOrdered(RowsOf(rows, name))
  {
    if rows != [] && IdOrdered(rows) {
      var rest := RowsOf(rows[1..], name);
      forall i, j | 0 <= i < j < |rows[1..]| ensures rows[1..][i].id < rows[1..][j].id {
        assert rows[1..][i] == rows[i + 1] && rows[1..][j] == rows[j + 1];
      }
      RowsOfOrdered(rows[1..], name);
      forall x | x in rest ensures rows[0].id < x.id {
        var k :| 0 <= k < |rows[1..]| && rows[1..][k] == x;
        assert rows[k + 1] == x;
      }
    }
  }

  /** Saving a row extends the rows of its own channel at the end and leaves
      every other channel's rows alone. */
  lemma {:induction false} RowsOfSnoc(rows: seq<Row>, row: Row, name: string)
    ensures RowsOf(rows + [row], name) == RowsOf(rows, name) + (if row.channel == name then [row] else [])
  {
    if rows != [] {
      assert (rows + [row])[1..] == rows[1..] + [row];
      RowsOfSnoc(rows[1..], row, name);
    }
  }

  function Reverse<T>(xs: seq<T>): (r: seq<T>)
    ensures |r| == |xs|
    ensures forall i :: 0 <= i < |xs| ==> r[i] == xs[|xs| - 1 - i]
  {
    seq(|xs|, i requires 0 <= i < |xs| => xs[|xs| - 1 - i])
  }

  /** The result rows of the history query: this channel's rows, newest
      first, at most `limit` of them. */
  function NewestFirst(s: Store, name: string, limit: nat): (r: seq<Row>)
    ensures |r| == Min(limit, |RowsOf(s.rows, name)|)
  {
    Reverse(RowsOf(s.rows, name))[..Min(limit, |RowsOf(s.rows, name)|)]
  }

  /** A stored row as a replayed chat message of channel `name`. */
  function AsMessage(row: Row, name: string): Message
  {
    Message(row.id, row.username, row.content, "message", name, row.timestamp)
  }

  function AsMessages(rows: seq<Row>, name: string): (ms: seq<Message>)
    ensures |ms| == |rows|
    ensures forall i :: 0 <= i < |rows| ==> ms[i] == AsMessage(rows[i], name)
  {
    seq(|rows|, i requires 0 <= i < |rows| => AsMessage(rows[i], name))
  }

  /** The history a reachable store yields: the `limit` most recent messages
      of the channel, oldest first, each marked as a chat message of that
      channel. */
  function StoredHistory(s: Store, name: string, limit: nat): (r: Result<seq<Message>>)
    ensures r.Ok? <==> s.online
    ensures r.Ok? ==> |r.value| == Min(limit, |RowsOf(s.rows, name)|) <= limit
    ensures r.Ok? ==> forall m | m in r.value :: m.channel == name && m.kind == "message"
    ensures r.Ok? && IdOrdered(s.rows) ==> forall i, j | 0 <= i < j < |r.value| :: r.value[i].id < r.value[j].id
  {
    if !s.online then Err(Unavailable)
    else
      var all := RowsOf(s.rows, name);
      RowsOfOrdered(s.rows, name);
      Ok(AsMessages(all[|all| - Min(limit, |all|)..], name))
  }

  /** A chat message saved on a reachable store is the newest entry of its
      channel's history, and when the history was shorter than `limit` it
      is the old history with the message added at the end. */
  lemma SaveThenHistory(s: Store, msg: Message, limit: nat)
    requires s.Valid() && s.online && msg.kind == "message" && msg.channel in s.Names()
    requires |msg.channel| <= ColumnWidth && |msg.username| <= ColumnWidth && limit > 0
    ensures var saved := AsMessage(Row(s.nextId, msg.channel, msg.username, msg.content, msg.timestamp), msg.channel);
      var after := StoredHistory(SaveMessage(s, msg).0, msg.channel, limit).value;
      && |after| > 0 && after[|after| - 1] == saved
      && (|RowsOf(s.rows, msg.channel)| < limit ==> after == StoredHistory(s, msg.channel, limit).value + [saved])
  {
    var row := Row(s.nextId, msg.channel, msg.username, msg.content, msg.timestamp);
    assert SaveMessage(s, msg).0.rows == s.rows + [row];
    RowsOfSnoc(s.rows, row, msg.channel);
    LatestSnoc(RowsOf(s.rows, msg.channel), row, msg.channel, limit);
  }

  /** The most recent `limit` of `rows + [row]`, as messages: they end with
      `row`, and are all of `rows` and then `row` when `rows` had fewer than
      `limit`. */
  lemma LatestSnoc(rows: seq<Row>, row: Row, name: string, limit: nat)
    requires limit > 0
    ensures var all := rows + [row];
      var after := AsMessages(all[|all| - Min(limit, |all|)..], name);
      && |after| > 0 && after[|after| - 1] == AsMessage(row, name)
      && (|rows| < limit ==> after == AsMessages(rows[|rows| - Min(limit, |rows|)..], name) + [AsMessage(row, name)])
  {
    var all := rows + [row];
    var tail := all[|all| - Min(limit, |all|)..];
    assert tail[|tail| - 1] == row;
    if |rows| < limit {
      assert tail == all && rows[|rows| - Min(limit, |rows|)..] == rows;
      var after, earlier := AsMessages(all, name), AsMessages(rows, name);
      forall i | 0 <= i < |after|
        ensures after[i] == (earlier + [AsMessage(row, name)])[i]
      {
        if i < |rows| {
          assert all[i] == rows[i];
        }
      }
    }
  }

  /** Read the history: the query yields rows newest first, and each row is
      put in front of those read before it. */
  method ChannelHistory(s: Store, name: string, limit: nat) returns (r: Result<seq<Message>>)
    ensures r == StoredHistory(s, name, limit)
  {
    if !s.online {
      return Err(Unavailable);
    }
    var rows := NewestFirst(s, name, limit);
    var messages: seq<Message> := [];
    for i := 0 to |rows|
      invariant messages == AsMessages(Reverse(rows[..i]), name)
    {
      ReverseStep(rows, i);
      messages := [AsMessage(rows[i], name)] + messages;
      assert messages == AsMessages([rows[i]] + Reverse(rows[..i]), name);
    }
    assert rows[..|rows|] == rows;
    NewestFirstReversed(s, name, limit);
    return Ok(messages);
  }

  /** Reversing the newest-first query result gives the most recent rows in
      stored order. */
  lemma NewestFirstReversed(s: Store, name: string, limit: nat)
    ensures var all := RowsOf(s.rows, name);
      Reverse(NewestFirst(s, name, limit)) == all[|all| - Min(limit, |all|)..]
  {
    var all := RowsOf(s.rows, name);
    ReversePrefix(all, Min(limit, |all|));
  }

  /** The first `k` of the reversed sequence, reversed back, are its last `k`. */
  lemma ReversePrefix<T>(xs: seq<T>, k: nat)
    requires k <= |xs|
    ensures Reverse(Reverse(xs)[..k]) == xs[|xs| - k..]
  {
    var rx := Reverse(xs);
    var q := rx[..k];
    var rq := Reverse(q);
    var tail := xs[|xs| - k..];
    forall i | 0 <= i < k ensures rq[i] == tail[i] {
      assert rq[i] == q[k - 1 - i];
      assert rx[k - 1 - i] == xs[|xs| - k + i];
    }
  }

  /** Putting a row in front of the reversed rows read so far. */
  lemma ReverseStep<T>(xs: seq<T>, i: nat)
    requires i < |xs|
    ensures Reverse(xs[..i + 1]) == [xs[i]] + Reverse(xs[..i])
  {
    var r := [xs[i]] + Reverse(xs[..i]);
    forall j | 0 <= j <= i ensures Reverse(xs[..i + 1])[j] == r[j] {
      if j > 0 {
        assert r[j] == Reverse(xs[..i])[j - 1];
      }
    }
  }

  /** The stored type of a channel; a missing record or an unreachable store
      is an error, reported together with Ephemeral. */
  function ChannelTypeOf(s: Store, name: string): (r: (ChannelType, Status))
    ensures r.1.Failed? ==> r.0 == Ephemeral
    ensures s.online && name !in s.Names() ==> r.1 == Failed(NotFound)
    ensures r.1 == Done <==> s.online && name in s.Names()
    ensures r.1 == Done ==> ChannelInfo(name, r.0) in s.records
  {
    if !s.online then (Ephemeral, Failed(Unavailable))
    else match Lookup(s.records, name)
      case Some(t) => (t, Done)
      case None => (Ephemeral, Failed(NotFound))
  }

  /** The type a channel gets when it is created lazily: the stored type, or
      Ephemeral when the lookup fails. */
  function ResolvedType(s: Store, name: string): (t: ChannelType)
    ensures s.online && name in s.Names() ==> ChannelInfo(name, t) in s.records
    ensures !(s.online && name in s.Names()) ==> t == Ephemeral
  {
    ChannelTypeOf(s, name).0
  }

  /** Record a channel. Only Persistent channels are recorded; recording a
      name that already has a record changes nothing and succeeds. */
  function CreateChannel(s: Store, name: string, kind: ChannelType): (r: (Store, Status))
    requires s.Valid()
    ensures r.0.Valid() && r.0.rows == s.rows && r.0.online == s.online
    ensures kind != Persistent ==> r == (s, Done)
    ensures r.1.Failed? ==> r.0 == s
    ensures forall x | x in s.records :: x in r.0.records
    ensures kind == Persistent && name in s.Names() ==> r == (s, if s.online then Done else Failed(Unavailable))
    ensures r.1 == Done ==> r.0.Names() == s.Names() + (if kind == Persistent then {name} else {})
    ensures kind == Persistent && name !in s.Names() && r.1 == Done ==>
      ChannelTypeOf(r.0, name) == (Persistent, Done)
    ensures s.online && kind == Persistent && |name| <= ColumnWidth ==> r.1 == Done
  {
    if kind != Persistent then (s, Done)
    else if !s.online then (s, Failed(Unavailable))
    else if name in s.Names() then (s, Done)
    else if |name| > ColumnWidth then (s, Failed(ValueTooLong))
    else
      var records := Insert(s.records, ChannelInfo(name, Persistent));
      assert NamesOf(records) == NamesOf(s.records) + {name};
      (s.(records := records), Done)
  }

  /** Creating the same channel twice is creating it once. */
  lemma CreateChannelIdempotent(s: Store, name: string, kind: ChannelType)
    requires s.Valid()
    ensures var once := CreateChannel(s, name, kind);
      CreateChannel(once.0, name, kind) == once
  {
  }

  /** The channel records in name order, as the listing query returns them. */
  function ListChannels(s: Store): (r: Result<seq<ChannelInfo>>)
    ensures r.Ok? <==> s.online
    ensures r.Ok? ==> r.value == s.records
  {
    if s.online then Ok(s.records) else Err(Unavailable)
  }

  /** Connection settings of the store. */
  datatype DatabaseConfig = DatabaseConfig(
    host: string, port: string, user: string, password: string, dbName: string, sslMode: string)

  /** An environment variable, or `defaultValue` when it is unset or empty. */
  function GetEnv(env: map<string, string>, key: string, defaultValue: string): (r: string)
    ensures key in env && env[key] != "" ==> r == env[key]
    ensures !(key in env && env[key] != "") ==> r == defaultValue
  {
    var value := if key in env then env[key] else "";
    if value != "" then value else defaultValue
  }

  /** The connection settings: each one is taken from its environment
      variable when that is set and non-empty, and otherwise has its default. */
  function DefaultDBConfig(env: map<string, string>): (r: DatabaseConfig)
    ensures env == map[] ==>
      r == DatabaseConfig("localhost", "5432", "postgres", "password", "chat_app", "disable")
    ensures r.host == if "DB_HOST" in env && env["DB_HOST"] != "" then env["DB_HOST"] else "localhost"
    ensures r.port == if "DB_PORT" in env && env["DB_PORT"] != "" then env["DB_PORT"] else "5432"
    ensures r.user == if "DB_USER" in env && env["DB_USER"] != "" then env["DB_USER"] else "postgres"
    ensures r.password == if "DB_PASSWORD" in env && env["DB_PASSWORD"] != "" then env["DB_PASSWORD"] else "password"
    ensures r.dbName == if "DB_NAME" in env && env["DB_NAME"] != "" then env["DB_NAME"] else "chat_app"
    ensures r.sslMode == if "DB_SSLMODE" in env && env["DB_SSLMODE"] != "" then env["DB_SSLMODE"] else "disable"
  {
    DatabaseConfig(
      GetEnv(env, "DB_HOST", "localhost"),
      GetEnv(env, "DB_PORT", "5432"),
      GetEnv(env, "DB_USER", "postgres"),
      GetEnv(env, "DB_PASSWORD", "password"),
      GetEnv(env, "DB_NAME", "chat_app"),
      GetEnv(env, "DB_SSLMODE", "disable"))
  }
}
