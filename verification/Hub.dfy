/** The hub's client registry (internal/hub/hub.go): one goroutine owns the map and closes
    the send channels. */
module Hub {

  /** A connection; its identity stands for its address. */
  datatype Conn = Conn(id: nat, playerID: string)

  /** The map, and every close of a send channel that has happened. */
  datatype Registry = Registry(clients: map<string, Conn>, closed: multiset<Conn>)

  datatype Event = Register(c: Conn) | Unregister(c: Conn)

  /** The connection that the map holds for its player. */
  predicate Current(r: Registry, c: Conn) {
    c.playerID in r.clients && r.clients[c.playerID] == c
  }

  function Step(r: Registry, ev: Event): Registry {
    match ev
    case Register(c) =>
      var replaced := c.playerID in r.clients && r.clients[c.playerID] != c;
      Registry(r.clients[c.playerID := c],
               if replaced then r.closed + multiset{r.clients[c.playerID]} else r.closed)
    case Unregister(c) =>
      if Current(r, c)
      then Registry(r.clients - {c.playerID}, r.closed + multiset{c})
      else r
  }

  /** The registry after the first i messages. */
  function Run(events: seq<Event>, i: nat): Registry
    requires i <= |events|
  {
    if i == 0 then Registry(map[], multiset{}) else Step(Run(events, i - 1), events[i - 1])
  }

  /** ServeWS creates a connection and registers it once; unregister messages are free:
      they may be repeated and may be handled before the registration. */
  predicate OneRegisterEach(events: seq<Event>) {
    forall i, j :: 0 <= i < j < |events| && events[i].Register? && events[j].Register? ==> events[i].c != events[j].c
  }

  predicate Registered(events: seq<Event>, i: nat, c: Conn)
    requires i <= |events|
  {
    exists j :: 0 <= j < i && events[j] == Register(c)
  }

  ghost predicate Clean(r: Registry) {
    && (forall p :: p in r.clients ==> r.clients[p].playerID == p)
    && (forall p :: p in r.clients ==> r.closed[r.clients[p]] == 0)
    && (forall c :: r.closed[c] <= 1)
  }

  /** A connection that the registry has seen. */
  ghost predicate Seen(r: Registry, c: Conn) {
    r.closed[c] > 0 || Current(r, c)
  }

  lemma CleanStep(r: Registry, ev: Event)
    requires Clean(r) && (ev.Register? ==> !Seen(r, ev.c))
    ensures Clean(Step(r, ev))
    ensures forall c :: Seen(Step(r, ev), c) <==> Seen(r, c) || ev == Register(c)
  {
  }

  /** After any messages in any order: no channel was closed twice, every client in the map
      has an open channel and sits under its own player, only connections that were
      registered are in the map or closed, and each of those is in one of the two. */
  lemma {:induction false} RegistryIsClean(events: seq<Event>, i: nat)
    requires i <= |events| && OneRegisterEach(events)
    ensures Clean(Run(events, i))
    ensures forall c :: Seen(Run(events, i), c) <==> Registered(events, i, c)
  {
    hide Clean, Seen;
    if i > 0 {
      RegistryIsClean(events, i - 1);
      CleanStep(Run(events, i - 1), events[i - 1]);
      assert forall c :: Registered(events, i, c) <==> Registered(events, i - 1, c) || events[i - 1] == Register(c);
    } else {
      NothingSeen();
    }
  }

  lemma NothingSeen()
    ensures Clean(Registry(map[], multiset{})) && forall c :: !Seen(Registry(map[], multiset{}), c)
  {
  }

  /** The messages without the unregistrations of c, in order. */
  function WithoutUnregister(events: seq<Event>, c: Conn, i: nat): seq<Event>
    requires i <= |events|
  {
    if i == 0 then []
    else WithoutUnregister(events, c, i - 1) + if events[i - 1] == Unregister(c) then [] else [events[i - 1]]
  }

  /** A connection that was registered and is no longer in the map - replaced by a newer one
      of its player, or unregistered - may be unregistered any number of times, at any later
      point: the registry, its closed channels included, becomes what it would have become
      without those messages. */
  lemma {:induction false} StaleUnregister(events: seq<Event>, more: seq<Event>, c: Conn, i: nat)
    requires OneRegisterEach(events + more) && i <= |more|
    requires Registered(events, |events|, c) && !Current(Run(events, |events|), c)
    ensures var kept := events + WithoutUnregister(more, c, i);
      Run(events + more, |events| + i) == Run(kept, |kept|)
    ensures !Current(Run(events + more, |events| + i), c)
  {
    hide Step, Current, Run;
    if i == 0 {
      RunPrefix(events, more, |events|);
      assert events + WithoutUnregister(more, c, 0) == events;
    } else {
      StaleUnregister(events, more, c, i - 1);
      var kept := events + WithoutUnregister(more, c, i - 1);
      RunLast(events + more, |events| + i);
      assert (events + more)[|events| + i - 1] == more[i - 1];
      NotRegisteredAgain(events, more, c, i - 1);
      StaleStep(Run(kept, |kept|), more[i - 1], c);
      if more[i - 1] == Unregister(c) {
        assert events + WithoutUnregister(more, c, i) == kept;
      } else {
        assert events + WithoutUnregister(more, c, i) == kept + [more[i - 1]];
        RunPrefix(kept, [more[i - 1]], |kept|);
        RunLast(kept + [more[i - 1]], |kept| + 1);
      }
    }
  }

  lemma StaleStep(r: Registry, ev: Event, c: Conn)
    requires !Current(r, c) && ev != Register(c)
    ensures !Current(Step(r, ev), c)
    ensures ev == Unregister(c) ==> Step(r, ev) == r
  {
  }

  lemma RunLast(events: seq<Event>, i: nat)
    requires 0 < i <= |events|
    ensures Run(events, i) == Step(Run(events, i - 1), events[i - 1])
  {
  }

  lemma NotRegisteredAgain(events: seq<Event>, more: seq<Event>, c: Conn, i: nat)
    requires OneRegisterEach(events + more) && Registered(events, |events|, c) && i < |more|
    ensures more[i] != Register(c)
  {
    var k :| 0 <= k < |events| && events[k] == Register(c);
    assert (events + more)[k] == Register(c) && (events + more)[|events| + i] == more[i];
  }

  lemma {:induction false} RunPrefix(events: seq<Event>, more: seq<Event>, i: nat)
    requires i <= |events|
    ensures Run(events + more, i) == Run(events, i)
  {
    if i > 0 {
      RunPrefix(events, more, i - 1);
    }
  }

  /** Registering the same connection twice would break it: after a replacement the closed
      connection gets back into the map, and its next replacement closes it again. */
  lemma RegisteringTwiceClosesTwice()
    ensures exists events :: !OneRegisterEach(events) && exists c :: Run(events, |events|).closed[c] == 2
  {
    var a, b := Conn(1, "p"), Conn(2, "p");
    var events := [Register(a), Register(b), Register(a), Register(b)];
    assert events[0].c == events[2].c;
    assert Run(events, 0) == Registry(map[], multiset{});
    assert Run(events, 1) == Registry(map["p" := a], multiset{});
    assert Run(events, 2) == Registry(map["p" := b], multiset{a});
    assert Run(events, 3) == Registry(map["p" := a], multiset{a, b});
    assert Run(events, 4) == Registry(map["p" := b], multiset{a, b, a});
    assert Run(events, |events|).closed[a] == 2;
  }

  /** The connection that is in the map for a player is the last one registered, unless it
      was unregistered since. */
  lemma {:induction false} NewestWins(events: seq<Event>, i: nat, j: nat)
    requires j < i <= |events| && events[j].Register?
    requires forall k :: j < k < i ==> events[k].c.playerID != events[j].c.playerID || (events[k].Unregister? && events[k].c != events[j].c)
    ensures events[j].c.playerID in Run(events, i).clients && Run(events, i).clients[events[j].c.playerID] == events[j].c
  {
    if j + 1 < i {
      NewestWins(events, i - 1, j);
    }
  }

  // ---- the objects of the source -------------------------------------------------------

  /** The message closes the channel of d. */
  predicate Closes(r: Registry, ev: Event, d: Conn) {
    match ev
    case Register(c) => c.playerID in r.clients && r.clients[c.playerID] == d && d != c
    case Unregister(c) => c == d && Current(r, c)
  }

  lemma StepMeans(r: Registry, ev: Event)
    ensures var t := Step(r, ev);
      && (forall d :: t.closed[d] == r.closed[d] + if Closes(r, ev, d) then 1 else 0)
      && (ev.Register? ==> t.clients == r.clients[ev.c.playerID := ev.c])
      && (ev.Unregister? ==> t.clients == if Current(r, ev.c) then r.clients - {ev.c.playerID} else r.clients)
  {
  }

  ghost predicate Known(registered: map<Conn, Client>, log: seq<Event>) {
    && (forall c :: c in registered <==> Registered(log, |log|, c))
    && (forall c :: c in registered ==> registered[c].conn == c)
  }

  ghost predicate Holds(clients: map<string, Client>, registered: map<Conn, Client>, r: Registry) {
    && clients.Keys == r.clients.Keys
    && (forall p :: p in clients ==> r.clients[p] in registered && clients[p] == registered[r.clients[p]])
  }

  lemma Handled(log: seq<Event>, ev: Event)
    requires OneRegisterEach(log) && (ev.Register? ==> !Registered(log, |log|, ev.c))
    ensures OneRegisterEach(log + [ev])
    ensures Run(log + [ev], |log| + 1) == Step(Run(log, |log|), ev)
    ensures forall c :: Registered(log + [ev], |log| + 1, c) <==> Registered(log, |log|, c) || ev == Register(c)
  {
    RunPrefix(log, [ev], |log|);
    assert forall j :: 0 <= j < |log| ==> (log + [ev])[j] == log[j];
  }

  lemma KnowsMore(registered: map<Conn, Client>, log: seq<Event>, c: Client)
    requires Known(registered, log) && OneRegisterEach(log) && !Registered(log, |log|, c.conn)
    ensures Known(registered[c.conn := c], log + [Register(c.conn)]) && OneRegisterEach(log + [Register(c.conn)])
  {
    Handled(log, Register(c.conn));
  }

  lemma HoldsNewcomer(clients: map<string, Client>, registered: map<Conn, Client>, r: Registry, c: Client)
    requires Holds(clients, registered, r) && c.conn !in registered
    ensures Holds(clients[c.conn.playerID := c], registered[c.conn := c], Step(r, Register(c.conn)))
  {
  }

  class Client {
    const conn: Conn
    var open: bool

    constructor (conn: Conn)
      ensures this.conn == conn && open
    {
      this.conn := conn;
      this.open := true;
    }
  }

  /** The map of the hub's goroutine and the send channels. Of the messages handled so far
      (log) the registry above is what they make; the clients that registered are its
      connections, and their channels are open unless the registry has closed them. */
  class ClientHub {
    var clients: map<string, Client>
    ghost var log: seq<Event>
    ghost var registered: map<Conn, Client>

    ghost predicate Valid()
      reads this, registered.Values
    {
      var r := Run(log, |log|);
      && OneRegisterEach(log)
      && Known(registered, log) && Holds(clients, registered, r)
      && (forall c :: c in registered ==> (registered[c].open <==> r.closed[c] == 0))
    }

    constructor ()
      ensures Valid() && clients == map[] && registered == map[] && log == []
    {
      clients, registered, log := map[], map[], [];
    }

    /** Every client in the map is open and under its own player. */
    lemma InMapIsOpen(p: string)
      requires Valid() && p in clients
      ensures clients[p].open && clients[p].conn.playerID == p
    {
      RegistryIsClean(log, |log|);
    }

    /** close(c.send): closing twice would panic. */
    method Close(c: Client)
      requires c.open
      modifies c`open
      ensures !c.open
    {
      c.open := false;
    }

    /** The channel of the client that c replaces. */
    method CloseReplaced(c: Client)
      requires Valid() && c.conn !in registered
      modifies (if c.conn.playerID in clients then {clients[c.conn.playerID]} else {})`open
      ensures forall d :: d in registered ==>
        (registered[d].open <==> Step(Run(log, |log|), Register(c.conn)).closed[d] == 0)
      ensures c.conn.playerID in clients ==> !clients[c.conn.playerID].open
      ensures c.open == old(c.open)
    {
      hide Run, Step, Registered, OneRegisterEach;
      StepMeans(Run(log, |log|), Register(c.conn));
      if c.conn.playerID in clients && clients[c.conn.playerID] != c {
        InMapIsOpen(c.conn.playerID);
        Close(clients[c.conn.playerID]);
      }
    }

    method HandleRegister(c: Client)
      requires Valid() && c.conn !in registered && c.open
      modifies this`clients, this`log, this`registered, (if c.conn.playerID in clients then {clients[c.conn.playerID]} else {})`open
      ensures Valid() && log == old(log) + [Register(c.conn)] && registered == old(registered)[c.conn := c]
      ensures clients == old(clients)[c.conn.playerID := c] && c.open
      ensures c.conn.playerID in old(clients) ==> !old(clients)[c.conn.playerID].open
    {
      hide Run, Step, Registered, OneRegisterEach, Known, Holds;
      ghost var r := Run(log, |log|);
      Unregistered(c);
      Handled(log, Register(c.conn));
      KnowsMore(registered, log, c);
      HoldsNewcomer(clients, registered, r, c);
      CloseReplaced(c);
      clients := clients[c.conn.playerID := c];
      registered := registered[c.conn := c];
      log := log + [Register(c.conn)];
    }

    method HandleUnregister(c: Client)
      requires Valid() && (c.conn in registered ==> registered[c.conn] == c)
      modifies this`clients, this`log, c`open
      ensures Valid() && log == old(log) + [Unregister(c.conn)]
      ensures if c.conn.playerID in old(clients) && old(clients)[c.conn.playerID] == c
              then clients == old(clients) - {c.conn.playerID} && !c.open
              else clients == old(clients) && c.open == old(c.open)
    {
      hide Run, Step, Registered, OneRegisterEach;
      Handled(log, Unregister(c.conn));
      StepMeans(Run(log, |log|), Unregister(c.conn));
      if c.conn.playerID in clients && clients[c.conn.playerID] == c {
        InMapIsOpen(c.conn.playerID);
        clients := clients - {c.conn.playerID};
        Close(c);
      }
      log := log + [Unregister(c.conn)];
    }

    lemma Unregistered(c: Client)
      requires Valid() && c.conn !in registered
      ensures !Registered(log, |log|, c.conn)
      ensures Step(Run(log, |log|), Register(c.conn)).closed[c.conn] == 0
    {
      Unseen(log, c.conn);
    }

    lemma Unseen(log: seq<Event>, c: Conn)
      requires OneRegisterEach(log) && !Registered(log, |log|, c)
      ensures var r := Run(log, |log|); r.closed[c] == 0 && !Current(r, c)
    {
      RegistryIsClean(log, |log|);
      assert !Seen(Run(log, |log|), c);
    }
  }
}
