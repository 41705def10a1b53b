/**
 * The chat server of src/ch8/chat/chat.go, run as a sequential event
 * processor. The broadcaster goroutine owns the registry of connected clients
 * and handles one event at a time (a message, an entering client, a leaving
 * client); each client has an outgoing channel, modelled as the sequence of
 * lines sent on it so far plus whether it has been closed. The lines a
 * connection's handler sends itself (the name prompt and the greeting) go to
 * the same channel.
 */
module Chat {

  /** Channels are told apart by an identity; `make(chan string)` yields a fresh one. */
  type ChanId = nat

  /** A client is the pair (name, outgoing channel); equal pairs are the same registry entry. */
  datatype Client = Client(name: string, ch: ChanId)

  /** What has been sent on one channel, and whether it has been closed. */
  datatype Outbox = Outbox(lines: seq<string>, closed: bool)

  // The protocol lines built in handleConn and the broadcaster.
  const Prompt: string := "Please enter your name: "
  function Greeting(who: string): string { "You are " + who }
  function Arrived(who: string): string { who + " has arrived" }
  function Online(name: string): string { "User " + name + " is online" }
  function UserLeft(name: string): string { "User " + name + " has left" }
  function ChatLine(who: string, text: string): string { who + ": " + text }
  function SessionLeft(who: string): string { who + " has left" }

  /** The channels of a set of clients. */
  function Chans(cs: set<Client>): set<ChanId>
  {
    set c | c in cs :: c.ch
  }

  /** Every channel in `chs` gets `msg` appended; every other channel is left as it was. */
  function SendToAll(o: map<ChanId, Outbox>, chs: set<ChanId>, msg: string): map<ChanId, Outbox>
  {
    map ch | ch in o :: if ch in chs then Outbox(o[ch].lines + [msg], o[ch].closed) else o[ch]
  }

  /** The "is online" lines for clients in the given order. */
  function OnlineLines(order: seq<Client>): seq<string>
  {
    if order == [] then [] else OnlineLines(order[..|order| - 1]) + [Online(order[|order| - 1].name)]
  }

  /** `order` lists the clients of `cs`, each exactly once: one iteration order of the map. */
  ghost predicate Enumerates(order: seq<Client>, cs: set<Client>)
  {
    (forall i, j :: 0 <= i < j < |order| ==> order[i] != order[j])
    && (forall c :: c in cs <==> c in order)
  }

  /** There is one "is online" line per listed client, and the i-th names the i-th client. */
  lemma {:induction false} OnlineLinesShape(order: seq<Client>)
    ensures |OnlineLines(order)| == |order|
    ensures forall i :: 0 <= i < |order| ==> OnlineLines(order)[i] == Online(order[i].name)
  {
    if order != [] {
      var front := order[..|order| - 1];
      OnlineLinesShape(front);
      assert forall i :: 0 <= i < |front| ==> front[i] == order[i];
    }
  }

  /** An enumeration of a set has as many entries as the set has members. */
  lemma {:induction false} EnumerationSize(order: seq<Client>, cs: set<Client>)
    requires Enumerates(order, cs)
    ensures |order| == |cs|
    decreases |order|
  {
    if order != [] {
      var last := order[|order| - 1];
      var front := order[..|order| - 1];
      assert Enumerates(front, cs - {last}) by {
        forall c ensures c in cs - {last} <==> c in front {
          if c in front {
            var i :| 0 <= i < |front| && front[i] == c;
            assert order[i] == c && i < |order| - 1;
          }
          if c in cs - {last} {
            var i :| 0 <= i < |order| && order[i] == c;
            assert i != |order| - 1;
            assert front[i] == c;
          }
        }
      }
      EnumerationSize(front, cs - {last});
    } else {
      assert forall c :: c !in cs;
      assert cs == {};
    }
  }

  class Broadcaster {
    /** The registry: the broadcaster's map[client]bool. */
    var clients: set<Client>
    /** Every channel made so far, with what was sent on it. */
    var outboxes: map<ChanId, Outbox>

    /** Registered clients have open channels, and no two share a channel
        (each connection makes its own). */
    ghost predicate Valid()
      reads this
    {
      (forall c :: c in clients ==> c.ch in outboxes && !outboxes[c.ch].closed)
      && (forall c, d :: c in clients && d in clients && c.ch == d.ch ==> c == d)
    }

    /** The server at start-up: no clients and no channels. */
    constructor ()
      ensures Valid() && clients == {} && outboxes == map[]
    {
      clients := {};
      outboxes := map[];
    }

    /** The `messages` case (lines 34-39): msg is sent to every registered
        client, in whatever order the map is ranged over. */
    method Broadcast(msg: string)
      requires Valid()
      modifies this
      ensures Valid()
      ensures clients == old(clients)
      ensures outboxes == SendToAll(old(outboxes), Chans(clients), msg)
    {
      var rest := clients;
      ghost var done: set<Client> := {};
      assert Chans(done) == {};
      assert outboxes == SendToAll(outboxes, {}, msg);
      while rest != {}
        invariant clients == old(clients) && Valid()
        invariant rest <= clients && done == clients - rest
        invariant outboxes.Keys == old(outboxes).Keys
        invariant outboxes == SendToAll(old(outboxes), Chans(done), msg)
        decreases rest
      {
        var cli :| cli in rest;
        assert cli.ch !in Chans(done) by {
          forall d | d in done
            ensures d.ch != cli.ch
          {
            assert d != cli;
          }
        }
        var box := outboxes[cli.ch];
        outboxes := outboxes[cli.ch := Outbox(box.lines + [msg], box.closed)];
        rest := rest - {cli};
        done := done + {cli};
        assert Chans(done) == Chans(done - {cli}) + {cli.ch};
      }
    }

    /** The `entering` case (lines 41-45): the client joins the registry, and
        the newcomer alone is sent one "is online" line for every client now
        registered, itself included. The ghost `order` is the map's iteration order. */
    method Enter(cli: Client) returns (ghost order: seq<Client>)
      requires Valid()
      requires cli.ch in outboxes && !outboxes[cli.ch].closed
      requires forall d :: d in clients && d.ch == cli.ch ==> d == cli
      modifies this
      ensures Valid()
      ensures clients == old(clients) + {cli}
      ensures Enumerates(order, clients)
      ensures outboxes == old(outboxes)[cli.ch := Outbox(old(outboxes)[cli.ch].lines + OnlineLines(order), false)]
    {
      clients := clients + {cli};
      var rest := clients;
      order := [];
      ghost var start := old(outboxes)[cli.ch];
      assert start.lines + OnlineLines(order) == start.lines;
      assert outboxes == old(outboxes)[cli.ch := Outbox(start.lines, false)];
      while rest != {}
        invariant clients == old(clients) + {cli}
        invariant rest <= clients
        invariant forall i, j :: 0 <= i < j < |order| ==> order[i] != order[j]
        invariant forall c :: c in clients - rest <==> c in order
        invariant outboxes == old(outboxes)[cli.ch := Outbox(old(outboxes)[cli.ch].lines + OnlineLines(order), false)]
        decreases rest
      {
        var c :| c in rest;
        forall i | 0 <= i < |order|
          ensures order[i] != c
        {
          assert order[i] in order;
        }
        var box := outboxes[cli.ch];
        outboxes := outboxes[cli.ch := Outbox(box.lines + [Online(c.name)], box.closed)];
        assert OnlineLines(order + [c]) == OnlineLines(order) + [Online(c.name)] by {
          assert (order + [c])[..|order|] == order;
        }
        assert box.lines + [Online(c.name)] == start.lines + (OnlineLines(order) + [Online(c.name)]);
        order := order + [c];
        rest := rest - {c};
      }
    }

    /** The `leaving` case (lines 47-52): the client leaves the registry, its
        channel is closed, and each remaining client is told. Closing a closed
        channel panics, so the channel must still be open. */
    method Leave(c: Client)
      requires Valid()
      requires c.ch in outboxes && !outboxes[c.ch].closed
      requires forall d :: d in clients && d.ch == c.ch ==> d == c
      modifies this
      ensures Valid()
      ensures clients == old(clients) - {c}
      ensures outboxes == SendToAll(old(outboxes)[c.ch := Outbox(old(outboxes)[c.ch].lines, true)],
                                    Chans(clients), UserLeft(c.name))
    {
      clients := clients - {c};
      var box := outboxes[c.ch];
      outboxes := outboxes[c.ch := Outbox(box.lines, true)];
      Broadcast(UserLeft(c.name));
    }

    /** handleConn up to entering (lines 61-70): a fresh channel gets the name
        prompt and the greeting, everyone already registered hears of the
        arrival, and only then does the client enter, so it never receives its
        own arrival line. */
    method Register(who: string, ch: ChanId) returns (cli: Client, ghost order: seq<Client>)
      requires Valid()
      requires ch !in outboxes
      modifies this
      ensures Valid()
      ensures cli == Client(who, ch)
      ensures clients == old(clients) + {cli}
      ensures Enumerates(order, clients)
      ensures outboxes == SendToAll(old(outboxes), Chans(old(clients)), Arrived(who))
                          [ch := Outbox([Prompt, Greeting(who)] + OnlineLines(order), false)]
    {
      assert ch !in Chans(clients);
      outboxes := outboxes[ch := Outbox([Prompt], false)];
      outboxes := outboxes[ch := Outbox(outboxes[ch].lines + [Greeting(who)], false)];
      ghost var before := outboxes;
      Broadcast(Arrived(who));
      assert outboxes == SendToAll(old(outboxes), Chans(old(clients)), Arrived(who))[ch := before[ch]];
      assert before[ch].lines == [Prompt, Greeting(who)];
      cli := Client(who, ch);
      order := Enter(cli);
    }

    /** The reader goroutine of handleConn (line 75): a chat line goes to every
        registered client, the sender included. */
    method Relay(who: string, text: string)
      requires Valid()
      modifies this
      ensures Valid()
      ensures clients == old(clients)
      ensures outboxes == SendToAll(old(outboxes), Chans(clients), ChatLine(who, text))
    {
      Broadcast(ChatLine(who, text));
    }

    /** The idle-timer case of handleConn (lines 83-85): the session leaves,
        then announces its departure, so the remaining clients get two lines. */
    method IdleTimeout(cli: Client)
      requires Valid()
      requires cli.ch in outboxes && !outboxes[cli.ch].closed
      requires forall d :: d in clients && d.ch == cli.ch ==> d == cli
      modifies this
      ensures Valid()
      ensures clients == old(clients) - {cli}
      ensures outboxes == SendToAll(SendToAll(old(outboxes)[cli.ch := Outbox(old(outboxes)[cli.ch].lines, true)],
                                              Chans(clients), UserLeft(cli.name)),
                                    Chans(clients), SessionLeft(cli.name))
    {
      Leave(cli);
      Broadcast(SessionLeft(cli.name));
    }
  }

  /** What a broadcast does to one channel: a listed channel gains exactly msg
      at its end, and no channel is opened, closed or otherwise touched. */
  lemma SendToAllEffect(o: map<ChanId, Outbox>, chs: set<ChanId>, msg: string, ch: ChanId)
    requires ch in o
    ensures ch in SendToAll(o, chs, msg)
    ensures SendToAll(o, chs, msg)[ch].closed == o[ch].closed
    ensures ch in chs ==> SendToAll(o, chs, msg)[ch].lines == o[ch].lines + [msg]
    ensures ch !in chs ==> SendToAll(o, chs, msg)[ch] == o[ch]
  {
  }

  /** A newcomer's own channel, as Register leaves it, never carries its own
      arrival line: the prompt ends in a space, the greeting is four characters
      shorter, and every "is online" line ends in 'e'. */
  lemma NoOwnArrival(who: string, order: seq<Client>)
    ensures Arrived(who) !in [Prompt, Greeting(who)] + OnlineLines(order)
  {
    var a := Arrived(who);
    assert a[|a| - 1] == 'd';
    assert |Greeting(who)| == |a| - 4;
    OnlineLinesShape(order);
    forall i | 0 <= i < |order|
      ensures OnlineLines(order)[i] != a
    {
      var line := Online(order[i].name);
      assert line[|line| - 1] == 'e';
    }
    assert Prompt[|Prompt| - 1] == ' ';
  }

  /** After an idle timeout, each remaining client's channel ends with the two
      departure lines, and the departed client's channel is closed with no new line. */
  lemma TwoDepartureLines(o: map<ChanId, Outbox>, remaining: set<Client>, gone: Client, d: Client)
    requires gone.ch in o && d in remaining && d.ch in o && d.ch != gone.ch
    requires gone.ch !in Chans(remaining)
    ensures var o2 := SendToAll(SendToAll(o[gone.ch := Outbox(o[gone.ch].lines, true)],
                                          Chans(remaining), UserLeft(gone.name)),
                                Chans(remaining), SessionLeft(gone.name));
      o2[d.ch].lines == o[d.ch].lines + [UserLeft(gone.name), SessionLeft(gone.name)]
      && o2[gone.ch] == Outbox(o[gone.ch].lines, true)
  {
    assert d.ch in Chans(remaining);
  }

  /** alice joins, then bob: alice sees her own "is online" line and then bob's
      arrival; bob sees the prompt, his greeting and two "is online" lines, but
      not his own arrival. */
  method JoinExample() returns (aliceLines: seq<string>, bobLines: seq<string>)
    ensures aliceLines == [Prompt, Greeting("alice"), Online("alice"), Arrived("bob")]
    ensures |bobLines| == 4 && bobLines[..2] == [Prompt, Greeting("bob")]
    ensures Arrived("bob") !in bobLines
  {
    var server := new Broadcaster();
    var alice, o1 := server.Register("alice", 1);
    assert o1 == [alice] by {
      EnumerationSize(o1, {alice});
      assert o1[0] in {alice};
    }
    assert OnlineLines(o1) == [Online("alice")];
    var bob, o2 := server.Register("bob", 2);
    assert server.outboxes[1].lines == [Prompt, Greeting("alice"), Online("alice"), Arrived("bob")] by {
      assert 1 in Chans({alice});
    }
    EnumerationSize(o2, server.clients);
    OnlineLinesShape(o2);
    NoOwnArrival("bob", o2);
    aliceLines := server.outboxes[1].lines;
    bobLines := server.outboxes[2].lines;
  }

  /** Two clients with one name and two channels are two registry entries; when
      one of them times out the other stays registered and hears of the
      departure twice. */
  method SameNameExample() returns (registry: set<Client>, firstClosed: bool, secondTail: seq<string>)
    ensures registry == {Client("alice", 2)}
    ensures firstClosed
    ensures secondTail == [UserLeft("alice"), SessionLeft("alice")]
  {
    var server := new Broadcaster();
    var alice, _ := server.Register("alice", 1);
    var alice2, _ := server.Register("alice", 2);
    assert alice2 != alice && alice2.name == alice.name;
    assert server.clients == {alice, alice2};
    var before := server.outboxes;
    server.IdleTimeout(alice);
    assert server.clients == {alice2};
    assert 1 !in Chans(server.clients);
    TwoDepartureLines(before, server.clients, alice, alice2);
    registry := server.clients;
    firstClosed := server.outboxes[1].closed;
    var lines := server.outboxes[2].lines;
    assert lines == before[2].lines + [UserLeft("alice"), SessionLeft("alice")];
    secondTail := lines[|before[2].lines|..];
  }
}
