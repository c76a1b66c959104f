/** The per-pod hub of internal/events/hub.go. */
module Hub {

  /** make(chan []byte, 16). */
  const QUEUE: nat := 16

  /** A non-blocking send: a full queue drops the frame. */
  function Offer<T>(queue: seq<T>, x: T): seq<T> {
    if |queue| < QUEUE then queue + [x] else queue
  }

  /** One connected subscriber's outbound channel. `closes` counts calls of close: a second one
      would panic, as would a send afterwards. */
  class Client {
    var send: seq<string>
    var closed: bool
    ghost var closes: nat

    constructor ()
      ensures send == [] && !closed && closes == 0
    {
      send, closed, closes := [], false, 0;
    }

    method TrySend(data: string)
      requires !closed
      modifies this`send
      ensures send == Offer(old(send), data)
    {
      if |send| < QUEUE {
        send := send + [data];
      }
    }

    method Close()
      requires !closed && closes == 0
      modifies this`closed, this`closes
      ensures closed && closes == 1
    {
      closed, closes := true, closes + 1;
    }
  }

  class Hub {
    var clients: set<Client>
    /** metrics.ActiveWSClients of this pod. */
    var gauge: int

    /** No registered client is closed. */
    ghost predicate Valid()
      reads this, clients
    {
      (forall c :: c in clients ==> !c.closed && c.closes == 0) && gauge == |clients|
    }

    constructor ()
      ensures Valid() && clients == {}
    {
      clients, gauge := {}, 0;
    }

    method Register() returns (c: Client)
      requires Valid()
      modifies this
      ensures Valid() && fresh(c) && c.send == []
      ensures clients == old(clients) + {c}
    {
      c := new Client();
      clients := clients + {c};
      gauge := gauge + 1;
    }

    /** Safe to call more than once: only the first call closes the channel. */
    method Unregister(c: Client)
      requires Valid()
      modifies this, c`closed, c`closes
      ensures Valid() && clients == old(clients) - {c}
      ensures c in old(clients) ==> c.closed && c.closes == 1
      ensures c !in old(clients) ==> c.closed == old(c.closed) && c.closes == old(c.closes)
      ensures c.send == old(c.send)
    {
      if c in clients {
        clients := clients - {c};
        c.Close();
        gauge := gauge - 1;
      }
    }

    /** Every registered client is offered the frame exactly once, whatever the map order. */
    method BroadcastRaw(data: string)
      requires Valid()
      modifies clients
      ensures Valid() && clients == old(clients)
      ensures forall c :: c in clients ==> c.send == Offer(old(c.send), data)
    {
      var todo := clients;
      while todo != {}
        invariant todo <= clients && Valid()
        invariant forall c :: c in todo ==> c.send == old(c.send)
        invariant forall c :: c in clients - todo ==> c.send == Offer(old(c.send), data)
        decreases |todo|
      {
        var c :| c in todo;
        c.TrySend(data);
        todo := todo - {c};
      }
    }
  }
}
