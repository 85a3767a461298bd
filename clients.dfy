/**
 * The registry of live push connections (internal/client.go): clients are
 * added on connection upgrade, removed by connection, acknowledged by token
 * and all told to refresh after a successful command. Writes to a connection
 * are an abstract fallible action.
 */
module Clients {
  import opened Wrappers

  /** A connection handle; two clients are on the same connection when their handles are equal. */
  type ConnId = nat

  datatype Client = Client(token: string, conn: ConnId)

  /** The two server-initiated messages. */
  datatype Message = Ack(command: string) | Refresh

  /** The JSON object written for a message: {type:"ack", command:…} or {type:"refresh"}. */
  function Payload(m: Message): (fields: map<string, string>)
    ensures fields.Keys == if m.Ack? then {"type", "command"} else {"type"}
    ensures fields["type"] == if m.Ack? then "ack" else "refresh"
    ensures m.Ack? ==> fields["command"] == m.command
  {
    match m
    case Ack(c) => map["type" := "ack", "command" := c]
    case Refresh => map["type" := "refresh"]
  }

  /** A receiver can always tell which message was sent. */
  lemma PayloadInjective(m1: Message, m2: Message)
    requires Payload(m1) == Payload(m2)
    ensures m1 == m2
  {
    if m1.Ack? && m2.Ack? {
      assert Payload(m1)["command"] == m1.command;
    }
  }

  /** One attempted write of a message to a connection. */
  datatype Delivery = Delivery(conn: ConnId, msg: Message)

  /** The outcome of a write: `None` when it succeeded, `Some(error)` otherwise. */
  type Transport = Delivery -> Option<string>

  const NoClientToAck := "Unable to find client to ack."
  const WriteFailedLine := "ERROR: Unable to write to socket."

  /** The clients that are not on connection `conn`, in their original order. */
  function Without(clients: seq<Client>, conn: ConnId): (r: seq<Client>)
    ensures |r| <= |clients|
    ensures forall c :: c in r <==> c in clients && c.conn != conn
    ensures (forall i :: 0 <= i < |clients| ==> clients[i].conn != conn) ==> r == clients
    decreases |clients|
  {
    if clients == [] then []
    else
      var init, last := clients[..|clients| - 1], clients[|clients| - 1];
      assert clients == init + [last];
      var r := Without(init, conn);
      if last.conn != conn then r + [last] else r
  }

  /** Filtering distributes over concatenation, so relative order is kept. */
  lemma {:induction false} WithoutAppend(a: seq<Client>, b: seq<Client>, conn: ConnId)
    ensures Without(a + b, conn) == Without(a, conn) + Without(b, conn)
    decreases |b|
  {
    if b != [] {
      var init := b[..|b| - 1];
      assert (a + b)[..|a + b| - 1] == a + init;
      WithoutAppend(a, init, conn);
    } else {
      assert a + b == a;
    }
  }

  /** The writes a broadcast attempts: one per client, in list order. */
  function Broadcast(clients: seq<Client>, m: Message): (ds: seq<Delivery>)
    ensures |ds| == |clients|
    ensures forall i :: 0 <= i < |clients| ==> ds[i] == Delivery(clients[i].conn, m)
    decreases |clients|
  {
    if clients == [] then []
    else Broadcast(clients[..|clients| - 1], m) + [Delivery(clients[|clients| - 1].conn, m)]
  }

  /** One log line per failed write, in order. */
  function FailureLog(ds: seq<Delivery>, transport: Transport): (lines: seq<string>)
    ensures |lines| <= |ds|
    ensures forall i :: 0 <= i < |lines| ==> lines[i] == WriteFailedLine
    ensures (forall i :: 0 <= i < |ds| ==> transport(ds[i]).None?) ==> lines == []
    decreases |ds|
  {
    if ds == [] then []
    else
      var init := ds[..|ds| - 1];
      FailureLog(init, transport) + (if transport(ds[|ds| - 1]).Some? then [WriteFailedLine] else [])
  }

  /** Logging distributes over consecutive batches of writes. */
  lemma {:induction false} FailureLogAppend(a: seq<Delivery>, b: seq<Delivery>, transport: Transport)
    ensures FailureLog(a + b, transport) == FailureLog(a, transport) + FailureLog(b, transport)
    decreases |b|
  {
    if b == [] {
      assert a + b == a;
    } else {
      var init := b[..|b| - 1];
      assert (a + b)[..|a + b| - 1] == a + init;
      assert (a + b)[|a + b| - 1] == b[|b| - 1];
      FailureLogAppend(a, init, transport);
    }
  }

  /** The positions of the writes that fail. */
  function FailedWrites(ds: seq<Delivery>, transport: Transport): set<nat>
  {
    set i: nat | i < |ds| && transport(ds[i]).Some?
  }

  /** The log has exactly one line for each failed write. */
  lemma {:induction false} FailureLogCount(ds: seq<Delivery>, transport: Transport)
    ensures |FailureLog(ds, transport)| == |FailedWrites(ds, transport)|
    decreases |ds|
  {
    if ds != [] {
      var init := ds[..|ds| - 1];
      var n := |ds| - 1;
      FailureLogCount(init, transport);
      var s, s0 := FailedWrites(ds, transport), FailedWrites(init, transport);
      assert forall i :: 0 <= i < n ==> init[i] == ds[i];
      if transport(ds[n]).Some? {
        assert s == s0 + {n};
        assert n !in s0;
      } else {
        assert s == s0;
      }
    }
  }

  /** The index of the first client holding `token`, if any. */
  function FirstWithToken(clients: seq<Client>, token: string): (r: Option<nat>)
    ensures r.Some? ==> r.value < |clients| && clients[r.value].token == token &&
                        forall j :: 0 <= j < r.value ==> clients[j].token != token
    ensures r.None? <==> forall j :: 0 <= j < |clients| ==> clients[j].token != token
    decreases |clients|
  {
    if clients == [] then None
    else if clients[0].token == token then Some(0)
    else match FirstWithToken(clients[1..], token)
      case None => None
      case Some(k) => Some(k + 1)
  }

  /** What one write adds to the log: the failure line when it fails, nothing otherwise. */
  function WriteLog(d: Delivery, transport: Transport): seq<string>
  {
    if transport(d).Some? then [WriteFailedLine] else []
  }

  /** One more client reached: one more write, and its log line if it fails. */
  lemma BroadcastStep(cs: seq<Client>, i: nat, transport: Transport, sent: seq<Delivery>, log: seq<string>)
    requires i < |cs|
    ensures var d, done := Delivery(cs[i].conn, Refresh), Broadcast(cs[..i], Refresh);
      && sent + done + [d] == sent + Broadcast(cs[..i + 1], Refresh)
      && log + FailureLog(done, transport) + WriteLog(d, transport) == log + FailureLog(Broadcast(cs[..i + 1], Refresh), transport)
  {
    var done := Broadcast(cs[..i], Refresh);
    var d := Delivery(cs[i].conn, Refresh);
    assert cs[..i + 1][..i] == cs[..i];
    assert Broadcast(cs[..i + 1], Refresh) == done + [d];
    assert (done + [d])[..|done|] == done;
    assert sent + done + [d] == sent + (done + [d]);
    var f := FailureLog(done, transport);
    assert FailureLog(done + [d], transport) == f + WriteLog(d, transport);
    assert log + f + WriteLog(d, transport) == log + (f + WriteLog(d, transport));
  }

  class ClientHub {
    var clients: seq<Client>
    /** Every write attempted so far, in order. */
    var sent: seq<Delivery>
    /** What the hub has logged about failed writes. */
    var errorLog: seq<string>

    constructor ()
      ensures clients == [] && sent == [] && errorLog == []
    {
      clients, sent, errorLog := [], [], [];
    }

    /** ClientHub.Add: the client goes at the end and is handed back. */
    method Add(client: Client) returns (r: Client)
      modifies this
      ensures r == client
      ensures clients == old(clients) + [client]
      ensures sent == old(sent) && errorLog == old(errorLog)
    {
      clients := clients + [client];
      r := client;
    }

    /** ClientHub.Delete: keeps exactly the clients on other connections, in order. */
    method Delete(client: Client)
      modifies this
      ensures clients == Without(old(clients), client.conn)
      ensures sent == old(sent) && errorLog == old(errorLog)
    {
      var kept := [];
      for i := 0 to |clients|
        invariant kept == Without(clients[..i], client.conn)
      {
        assert clients[..i + 1] == clients[..i] + [clients[i]];
        kept := if clients[i].conn != client.conn then kept + [clients[i]] else kept;
      }
      assert clients[..|clients|] == clients;
      clients := kept;
    }

    /**
     * ClientHub.SendAck: writes {type:"ack", command} to the first client
     * holding the token; an error when there is none or the write fails.
     */
    method SendAck(token: string, command: string, transport: Transport) returns (err: Option<string>)
      modifies this
      ensures clients == old(clients) && errorLog == old(errorLog)
      ensures FirstWithToken(clients, token).None? ==> err == Some(NoClientToAck) && sent == old(sent)
      ensures FirstWithToken(clients, token).Some? ==>
                var d := Delivery(clients[FirstWithToken(clients, token).value].conn, Ack(command));
                sent == old(sent) + [d] && err == transport(d)
    {
      var i := 0;
      while i < |clients|
        invariant 0 <= i <= |clients|
        invariant forall j :: 0 <= j < i ==> clients[j].token != token
      {
        if clients[i].token == token {
          var d := Delivery(clients[i].conn, Ack(command));
          sent := sent + [d];
          err := transport(d);
          return;
        }
        i := i + 1;
      }
      err := Some(NoClientToAck);
    }

    /**
     * ClientHub.NotifyRefresh: one refresh write per client in list order; a
     * failed write is only logged and the loop goes on.
     */
    method NotifyRefresh(transport: Transport)
      modifies this
      ensures clients == old(clients)
      ensures sent == old(sent) + Broadcast(clients, Refresh)
      ensures errorLog == old(errorLog) + FailureLog(Broadcast(clients, Refresh), transport)
    {
      var cs := clients;
      ghost var sent0, log0 := sent, errorLog;
      for i := 0 to |cs|
        invariant clients == cs
        invariant sent == sent0 + Broadcast(cs[..i], Refresh)
        invariant errorLog == log0 + FailureLog(Broadcast(cs[..i], Refresh), transport)
      {
        BroadcastStep(cs, i, transport, sent0, log0);
        Write(Delivery(cs[i].conn, Refresh), transport);
      }
      assert cs[..|cs|] == cs;
    }

    /** Client.Send for one client: the write is attempted, and its failure logged. */
    method Write(d: Delivery, transport: Transport)
      modifies this
      ensures clients == old(clients)
      ensures sent == old(sent) + [d]
      ensures errorLog == old(errorLog) + WriteLog(d, transport)
    {
      sent := sent + [d];
      if transport(d).Some? {
        errorLog := errorLog + [WriteFailedLine];
      }
    }
  }
}
