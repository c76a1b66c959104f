/** Event fan-out across replicas (internal/events/publisher.go, internal/events/hub.go,
    NotifyEvent and ListenEvents of internal/store/store.go) as interleaved steps of publishers,
    listeners, connections and readers on any number of pods.

    A frame is identified by its position in the NOTIFY log: PostgreSQL hands each listening
    session the notifications committed after its LISTEN, in commit order. */
module Fanout {
  import opened Common
  import opened Hub

  /** One subscriber. `received` and `queue` hold log positions. `since` is the listener's
      position when it registered. `overflowed` and `interrupted` record whether its queue was
      ever full at a broadcast, and whether its pod's listener was ever down while it was
      registered. `counted` is false between the unlock of Register and the Inc after it. */
  datatype Client = Client(pod: nat, received: seq<nat>, queue: seq<nat>, registered: bool, counted: bool,
                           closes: nat, since: nat, upto: nat, overflowed: bool, interrupted: bool)
  {
    function Frames(): seq<nat> { received + queue }
  }

  /** `listening` is the next log position the pod's LISTEN session will see, if it has one. */
  datatype Pod = Pod(listening: Option<nat>, gauge: int)

  datatype World = World(log: seq<string>, pods: seq<Pod>, clients: seq<Client>)

  function Boot(pods: nat): World {
    World([], seq(pods, _ => Pod(None, 0)), [])
  }

  datatype Action =
    | Publish(frame: string, ok: bool)   // a failed NOTIFY is logged and forgotten
    | Listen(pod: nat)                   // a session of the retry loop starts to LISTEN
    | Deliver(pod: nat)                  // onNotify: BroadcastRaw of the next notification
    | Drop(pod: nat)                     // the listen connection is lost
    | Register(pod: nat)                 // up to the unlock
    | Inc(client: nat)                   // the gauge, after the unlock; then Register returns
    | Unregister(client: nat)            // any number of times
    | Read(client: nat)                  // the connection takes the next frame, if there is one

  /** BroadcastRaw as one registered client sees it. */
  function Hear(c: Client, i: nat): Client {
    c.(queue := Offer(c.queue, i), upto := i + 1, overflowed := c.overflowed || |c.queue| >= QUEUE)
  }

  function HearIf(c: Client, pod: nat, i: nat): Client {
    if c.registered && c.pod == pod then Hear(c, i) else c
  }

  function InterruptIf(c: Client, pod: nat): Client {
    if c.registered && c.pod == pod then c.(interrupted := true) else c
  }

  function Newcomer(w: World, pod: nat): Client
    requires pod < |w.pods|
  {
    match w.pods[pod].listening
    case Some(i) => Client(pod, [], [], true, false, 0, i, i, false, false)
    case None => Client(pod, [], [], true, false, 0, |w.log|, |w.log|, false, true)
  }

  function Perform(w: World, a: Action): World {
    match a
    case Publish(frame, ok) => if ok then w.(log := w.log + [frame]) else w
    case Listen(p) =>
      if p < |w.pods| && w.pods[p].listening.None?
      then w.(pods := w.pods[p := w.pods[p].(listening := Some(|w.log|))]) else w
    case Deliver(p) =>
      if p < |w.pods| && w.pods[p].listening.Some? && w.pods[p].listening.value < |w.log| then
        var i := w.pods[p].listening.value;
        w.(pods := w.pods[p := w.pods[p].(listening := Some(i + 1))],
           clients := seq(|w.clients|, j requires 0 <= j < |w.clients| => HearIf(w.clients[j], p, i)))
      else w
    case Drop(p) =>
      if p < |w.pods| then
        w.(pods := w.pods[p := w.pods[p].(listening := None)],
           clients := seq(|w.clients|, j requires 0 <= j < |w.clients| => InterruptIf(w.clients[j], p)))
      else w
    case Register(p) => if p < |w.pods| then w.(clients := w.clients + [Newcomer(w, p)]) else w
    case Inc(c) =>
      if c < |w.clients| && !w.clients[c].counted && w.clients[c].pod < |w.pods| then
        AddGauge(w.(clients := w.clients[c := w.clients[c].(counted := true)]), w.clients[c].pod, 1)
      else w
    case Unregister(c) =>
      // the caller holds the client only once Register has returned
      if c < |w.clients| && w.clients[c].counted && w.clients[c].registered && w.clients[c].pod < |w.pods| then
        AddGauge(w.(clients := w.clients[c := w.clients[c].(registered := false, closes := w.clients[c].closes + 1)]),
                 w.clients[c].pod, -1)
      else w
    case Read(c) =>
      if c < |w.clients| && w.clients[c].queue != [] then
        var q := w.clients[c];
        w.(clients := w.clients[c := q.(received := q.received + [q.queue[0]], queue := q.queue[1..])])
      else w
  }

  function AddGauge(w: World, p: nat, d: int): World
    requires p < |w.pods|
  {
    w.(pods := w.pods[p := w.pods[p].(gauge := w.pods[p].gauge + d)])
  }

  function Run(pods: nat, actions: seq<Action>): World
    decreases |actions|
  {
    if actions == [] then Boot(pods) else Perform(Run(pods, actions[..|actions| - 1]), actions[|actions| - 1])
  }

  // ------------------------------------------------------------- invariant

  ghost predicate Increasing(s: seq<nat>) {
    forall i, j :: 0 <= i < j < |s| ==> s[i] < s[j]
  }

  /** The positions lo, lo + 1, ..., hi - 1. */
  function Slice(lo: nat, hi: nat): (s: seq<nat>)
    requires lo <= hi
    ensures |s| == hi - lo && forall i :: 0 <= i < |s| ==> s[i] == lo + i
  {
    seq(hi - lo, i requires 0 <= i < hi - lo => lo + i)
  }

  ghost predicate ClientOk(w: World, c: Client) {
    && c.pod < |w.pods|
    && Increasing(c.Frames()) && (forall i :: i in c.Frames() ==> c.since <= i < c.upto)
    && c.since <= c.upto <= |w.log|
    && |c.queue| <= QUEUE
    && c.closes == (if c.registered then 0 else 1)
    && (!c.registered ==> c.counted)
    && (c.registered && !c.interrupted ==> w.pods[c.pod].listening == Some(c.upto))
    && (c.registered ==> match w.pods[c.pod].listening case Some(i) => c.upto <= i case None => c.interrupted)
    && (!c.overflowed && !c.interrupted ==> c.Frames() == Slice(c.since, c.upto))
  }

  /** Clients of pod `p` that are registered and counted. */
  function Counted(clients: seq<Client>, p: nat): nat {
    if clients == [] then 0
    else
      var last := clients[|clients| - 1];
      Counted(clients[..|clients| - 1], p) + if last.pod == p && last.registered && last.counted then 1 else 0
  }

  ghost predicate Inv(w: World) {
    && (forall p :: 0 <= p < |w.pods| && w.pods[p].listening.Some? ==> w.pods[p].listening.value <= |w.log|)
    && (forall c :: 0 <= c < |w.clients| ==> ClientOk(w, w.clients[c]))
    && (forall p :: 0 <= p < |w.pods| ==> w.pods[p].gauge == Counted(w.clients, p))
  }

  lemma {:induction false} CountedReplace(clients: seq<Client>, i: nat, c: Client, p: nat)
    requires i < |clients|
    ensures Counted(clients[i := c], p) == Counted(clients, p)
              + (if c.pod == p && c.registered && c.counted then 1 else 0)
              - (if clients[i].pod == p && clients[i].registered && clients[i].counted then 1 else 0)
    decreases |clients|
  {
    var last := |clients| - 1;
    if i == last {
      assert clients[i := c][..last] == clients[..last];
    } else {
      assert clients[i := c][..last] == clients[..last][i := c];
      CountedReplace(clients[..last], i, c, p);
    }
  }

  predicate SameStanding(a: Client, b: Client) {
    a.pod == b.pod && a.registered == b.registered && a.counted == b.counted
  }

  lemma {:induction false} CountedSame(clients: seq<Client>, others: seq<Client>, p: nat)
    requires |clients| == |others|
    requires forall i :: 0 <= i < |clients| ==> SameStanding(clients[i], others[i])
    ensures Counted(clients, p) == Counted(others, p)
    decreases |clients|
  {
    if clients != [] {
      CountedSame(clients[..|clients| - 1], others[..|others| - 1], p);
    }
  }

  lemma HearKeeps(w: World, next: World, c: Client, i: nat)
    requires ClientOk(w, c) && c.registered && w.pods[c.pod].listening == Some(i) && i < |w.log|
    requires next.log == w.log && |next.pods| == |w.pods| && next.pods[c.pod].listening == Some(i + 1)
    ensures ClientOk(next, Hear(c, i))
  {
    var h := Hear(c, i);
    if |c.queue| < QUEUE {
      assert h.Frames() == c.Frames() + [i];
      assert forall x :: x in h.Frames() <==> x in c.Frames() || x == i;
      forall x, y | 0 <= x < y < |h.Frames()| ensures h.Frames()[x] < h.Frames()[y] {
        assert h.Frames()[x] in c.Frames();
      }
      if !h.overflowed && !h.interrupted {
        assert h.Frames() == Slice(c.since, i) + [i] == Slice(c.since, i + 1);
      }
    } else {
      assert h.Frames() == c.Frames();
    }
  }

  lemma DeliverKeeps(w: World, p: nat)
    requires Inv(w) && p < |w.pods| && w.pods[p].listening.Some? && w.pods[p].listening.value < |w.log|
    ensures Inv(Perform(w, Deliver(p)))
  {
    var next := Perform(w, Deliver(p));
    var i := w.pods[p].listening.value;
    forall c | 0 <= c < |next.clients| ensures ClientOk(next, next.clients[c]) {
      assert ClientOk(w, w.clients[c]);
      if w.clients[c].registered && w.clients[c].pod == p {
        HearKeeps(w, next, w.clients[c], i);
      }
    }
    forall q | 0 <= q < |next.pods| ensures next.pods[q].gauge == Counted(next.clients, q) {
      CountedSame(w.clients, next.clients, q);
    }
  }

  lemma DropKeeps(w: World, p: nat)
    requires Inv(w) && p < |w.pods|
    ensures Inv(Perform(w, Drop(p)))
  {
    var next := Perform(w, Drop(p));
    forall c | 0 <= c < |next.clients| ensures ClientOk(next, next.clients[c]) {
      assert ClientOk(w, w.clients[c]);
      assert next.clients[c].Frames() == w.clients[c].Frames();
    }
    forall q | 0 <= q < |next.pods| ensures next.pods[q].gauge == Counted(next.clients, q) {
      CountedSame(w.clients, next.clients, q);
    }
  }

  function Weight(c: Client): nat { if c.registered && c.counted then 1 else 0 }

  /** Steps that replace one client and the gauge of its pod, and touch no listener. */
  lemma ReplaceKeeps(w: World, next: World, i: nat, c: Client)
    requires Inv(w) && i < |w.clients| && next.clients == w.clients[i := c] && next.log == w.log
    requires c.pod == w.clients[i].pod && ClientOk(w, c)
    requires |next.pods| == |w.pods|
    requires forall p :: 0 <= p < |w.pods| ==> next.pods[p].listening == w.pods[p].listening
    requires forall p :: 0 <= p < |w.pods| ==>
               next.pods[p].gauge == w.pods[p].gauge + (if p == c.pod then Weight(c) - Weight(w.clients[i]) else 0)
    ensures Inv(next)
  {
    forall j | 0 <= j < |next.clients| ensures ClientOk(next, next.clients[j]) {
      assert ClientOk(w, w.clients[j]);
    }
    forall p | 0 <= p < |next.pods| ensures next.pods[p].gauge == Counted(next.clients, p) {
      CountedReplace(w.clients, i, c, p);
    }
  }

  lemma RegisterKeeps(w: World, p: nat)
    requires Inv(w) && p < |w.pods|
    ensures Inv(Perform(w, Register(p)))
  {
    var next := Perform(w, Register(p));
    forall j | 0 <= j < |next.clients| ensures ClientOk(next, next.clients[j]) {
      if j < |w.clients| {
        assert ClientOk(w, w.clients[j]);
      }
    }
    forall q | 0 <= q < |next.pods| ensures next.pods[q].gauge == Counted(next.clients, q) {
      assert next.clients[..|w.clients|] == w.clients;
    }
  }

  /** Steps that change only the log or a listener that was down. */
  lemma QuietKeeps(w: World, next: World)
    requires Inv(w) && next.clients == w.clients && w.log <= next.log && |next.pods| == |w.pods|
    requires forall p :: 0 <= p < |w.pods| ==> next.pods[p].gauge == w.pods[p].gauge
    requires forall p :: 0 <= p < |w.pods| ==>
               || next.pods[p].listening == w.pods[p].listening
               || (w.pods[p].listening.None? && next.pods[p].listening == Some(|next.log|))
    ensures Inv(next)
  {
  }

  lemma ReadKeeps(w: World, i: nat)
    requires Inv(w) && i < |w.clients| && w.clients[i].queue != []
    ensures Inv(Perform(w, Read(i)))
  {
    var q := w.clients[i];
    var r := q.(received := q.received + [q.queue[0]], queue := q.queue[1..]);
    assert r.Frames() == q.Frames();
    ReplaceKeeps(w, Perform(w, Read(i)), i, r);
  }

  lemma IncKeeps(w: World, i: nat)
    requires Inv(w) && i < |w.clients| && !w.clients[i].counted && w.clients[i].pod < |w.pods|
    ensures Inv(Perform(w, Inc(i)))
  {
    var c := w.clients[i].(counted := true);
    assert ClientOk(w, w.clients[i]) && c.Frames() == w.clients[i].Frames();
    ReplaceKeeps(w, Perform(w, Inc(i)), i, c);
  }

  lemma UnregisterKeeps(w: World, i: nat)
    requires Inv(w) && i < |w.clients| && w.clients[i].counted && w.clients[i].registered && w.clients[i].pod < |w.pods|
    ensures Inv(Perform(w, Unregister(i)))
  {
    var c := w.clients[i].(registered := false, closes := w.clients[i].closes + 1);
    assert ClientOk(w, w.clients[i]) && c.Frames() == w.clients[i].Frames();
    ReplaceKeeps(w, Perform(w, Unregister(i)), i, c);
  }

  lemma ListenKeeps(w: World, p: nat)
    requires Inv(w) && p < |w.pods| && w.pods[p].listening.None?
    ensures Inv(Perform(w, Listen(p)))
  {
    QuietKeeps(w, Perform(w, Listen(p)));
  }

  lemma PerformKeeps(w: World, a: Action)
    requires Inv(w)
    ensures Inv(Perform(w, a))
  {
    if Perform(w, a) != w {
      match a {
        case Publish(_, _) => QuietKeeps(w, Perform(w, a));
        case Listen(p) => ListenKeeps(w, p);
        case Deliver(p) => DeliverKeeps(w, p);
        case Drop(p) => DropKeeps(w, p);
        case Register(p) => RegisterKeeps(w, p);
        case Inc(c) => IncKeeps(w, c);
        case Unregister(c) => UnregisterKeeps(w, c);
        case Read(c) => ReadKeeps(w, c);
      }
    }
  }

  lemma {:induction false} AlwaysInv(pods: nat, actions: seq<Action>)
    ensures Inv(Run(pods, actions))
    decreases |actions|
  {
    if actions != [] {
      AlwaysInv(pods, actions[..|actions| - 1]);
      PerformKeeps(Run(pods, actions[..|actions| - 1]), actions[|actions| - 1]);
    }
  }

  // -------------------------------------------------------------- theorems

  /** What a subscriber has received or queued: frames of the log in order and without
      duplicates; all frames between `since` and `upto`, without a gap, if its queue was never
      full and its pod's listener never down. While it is registered, `upto` then is everything
      the listener has seen. Its channel is closed once, by Unregister. */
  lemma InOrderWithoutGaps(pods: nat, actions: seq<Action>, c: nat)
    requires c < |Run(pods, actions).clients|
    ensures var w, q := Run(pods, actions), Run(pods, actions).clients[c];
            && Increasing(q.Frames()) && (forall i :: i in q.Frames() ==> q.since <= i < q.upto <= |w.log|)
            && q.since <= q.upto
            && (!q.overflowed && !q.interrupted ==> q.Frames() == Slice(q.since, q.upto))
            && q.pod < |w.pods| && (q.registered && !q.interrupted ==> w.pods[q.pod].listening == Some(q.upto))
            && |q.queue| <= QUEUE && q.closes <= 1 && (q.closes == 1 <==> !q.registered)
  {
    AlwaysInv(pods, actions);
    assert ClientOk(Run(pods, actions), Run(pods, actions).clients[c]);
  }

  /** The gauge of a pod is the number of its registered clients less those whose registration
      has been unlocked but not yet counted. */
  lemma GaugeIsClients(pods: nat, actions: seq<Action>, p: nat)
    requires p < pods
    ensures var w := Run(pods, actions);
            p < |w.pods| && w.pods[p].gauge == Registered(w.clients, p) - Uncounted(w.clients, p)
  {
    AlwaysInv(pods, actions);
    PodsStay(pods, actions);
    CountedSplits(Run(pods, actions).clients, p);
  }

  function Registered(clients: seq<Client>, p: nat): nat {
    if clients == [] then 0
    else
      var last := clients[|clients| - 1];
      Registered(clients[..|clients| - 1], p) + if last.pod == p && last.registered then 1 else 0
  }

  function Uncounted(clients: seq<Client>, p: nat): nat {
    if clients == [] then 0
    else
      var last := clients[|clients| - 1];
      Uncounted(clients[..|clients| - 1], p) + if last.pod == p && last.registered && !last.counted then 1 else 0
  }

  lemma {:induction false} CountedSplits(clients: seq<Client>, p: nat)
    ensures Counted(clients, p) == Registered(clients, p) - Uncounted(clients, p)
    decreases |clients|
  {
    if clients != [] {
      CountedSplits(clients[..|clients| - 1], p);
    }
  }

  lemma {:induction false} PodsStay(pods: nat, actions: seq<Action>)
    ensures |Run(pods, actions).pods| == pods
    decreases |actions|
  {
    if actions != [] {
      PodsStay(pods, actions[..|actions| - 1]);
    }
  }

  /** A frame lost by a full queue is the only gap of an uninterrupted subscriber: a broadcast
      leaves out a registered client of the pod exactly when 16 frames are waiting for it. */
  lemma OnlyFullQueuesLose(pods: nat, actions: seq<Action>, p: nat, c: nat)
    requires var w := Run(pods, actions);
             && p < |w.pods| && w.pods[p].listening.Some? && w.pods[p].listening.value < |w.log|
             && c < |w.clients| && w.clients[c].pod == p && w.clients[c].registered
    ensures var w, next := Run(pods, actions), Run(pods, actions + [Deliver(p)]);
            var i := w.pods[p].listening.value;
            && c < |next.clients|
            && (i in next.clients[c].Frames() <==> |w.clients[c].queue| < QUEUE)
            && next.clients[c].Frames() == w.clients[c].Frames() + (if |w.clients[c].queue| < QUEUE then [i] else [])
  {
    var w := Run(pods, actions);
    assert (actions + [Deliver(p)])[..|actions|] == actions;
    AlwaysInv(pods, actions);
    var q, i := w.clients[c], w.pods[p].listening.value;
    assert ClientOk(w, q);
    assert Hear(q, i).Frames() == q.Frames() + (if |q.queue| < QUEUE then [i] else []);
    assert i !in q.Frames();
  }

  lemma RunSnoc(pods: nat, actions: seq<Action>, a: Action)
    ensures Run(pods, actions + [a]) == Perform(Run(pods, actions), a)
  {
    assert (actions + [a])[..|actions|] == actions;
  }

  /** What one step does to a client: registering adds one with nothing sent; unregistering one
      that was handed out takes it off its pod and closes it; a delivery reaches no client of
      another pod and no unregistered one; reading moves the oldest waiting frame; nothing else
      changes what a client holds. */
  lemma StepOnClient(pods: nat, actions: seq<Action>, a: Action, c: nat)
    requires c < |Run(pods, actions).clients|
    ensures var w, next := Run(pods, actions), Run(pods, actions + [a]);
            c < |next.clients| && var q, r := w.clients[c], next.clients[c];
            && (a == Unregister(c) && q.registered && q.counted ==>
                  !r.registered && r.closes == 1 && r.received == q.received && r.queue == q.queue)
            && (a != Unregister(c) ==> r.registered == q.registered)
            && (a == Read(c) && q.queue != [] ==> r.received == q.received + [q.queue[0]] && r.queue == q.queue[1..])
            && (a.Deliver? && !(q.registered && a.pod == q.pod) ==> r == q)
            && (a != Read(c) && !a.Deliver? ==> r.received == q.received && r.queue == q.queue)
  {
    RunSnoc(pods, actions, a);
    AlwaysInv(pods, actions);
    assert ClientOk(Run(pods, actions), Run(pods, actions).clients[c]);
  }

  /** A client that has been unregistered hears nothing any more, and is not closed again. */
  lemma {:induction false} GoneForGood(pods: nat, actions: seq<Action>, more: seq<Action>, c: nat)
    requires c < |Run(pods, actions).clients| && !Run(pods, actions).clients[c].registered
    ensures var w, next := Run(pods, actions), Run(pods, actions + more);
            && c < |next.clients| && !next.clients[c].registered && next.clients[c].closes == 1
            && next.clients[c].Frames() == w.clients[c].Frames()
    decreases |more|
  {
    if more == [] {
      assert actions + more == actions;
      AlwaysInv(pods, actions);
      assert ClientOk(Run(pods, actions), Run(pods, actions).clients[c]);
    } else {
      var front, last := more[..|more| - 1], more[|more| - 1];
      GoneForGood(pods, actions, front, c);
      assert actions + more == (actions + front) + [last];
      GoneOneMore(pods, actions + front, last, c);
    }
  }

  lemma GoneOneMore(pods: nat, actions: seq<Action>, a: Action, c: nat)
    requires c < |Run(pods, actions).clients| && !Run(pods, actions).clients[c].registered
    ensures var w, next := Run(pods, actions), Run(pods, actions + [a]);
            && c < |next.clients| && !next.clients[c].registered && next.clients[c].closes == 1
            && next.clients[c].Frames() == w.clients[c].Frames()
  {
    RunSnoc(pods, actions, a);
    AlwaysInv(pods, actions + [a]);
    assert ClientOk(Run(pods, actions + [a]), Run(pods, actions + [a]).clients[c]);
  }
}
