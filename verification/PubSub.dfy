/** Publish and subscribe: the broker's sets of subscribers against each client's own set of channels. */
module PubSub {
  import opened ByteStrings
  import opened Commands
  import opened Keyspace
  import opened Protocol

  const MAX_SUBSCRIPTIONS: nat := 1000

  /** A connection, with its channels and the replies sent to it. */
  class Client {
    var subs: set<Bytes>
    var sent: seq<Reply>

    constructor ()
      ensures subs == {} && sent == []
    {
      subs, sent := {}, [];
    }

    method Send(reply: Reply)
      modifies this`sent
      ensures sent == old(sent) + [reply]
    {
      sent := sent + [reply];
    }

    method Deliver(channel: Bytes, payload: Bytes)
      modifies this`sent
      ensures sent == old(sent) + [Message(channel, payload)]
    {
      Send(Array([Bulk("message"), Bulk(channel), Bulk(payload)]));
    }
  }

  function Message(channel: Bytes, payload: Bytes): Reply {
    Array([Bulk("message"), Bulk(channel), Bulk(payload)])
  }

  function PubSubReply(kind: Bytes, channel: Bytes, count: int): Reply {
    Array([Bulk(kind), Bulk(channel), Int(count)])
  }

  type Rooms = map<Bytes, set<Client>>

  function Room(rooms: Rooms, channel: Bytes): set<Client> {
    if channel in rooms then rooms[channel] else {}
  }

  ghost predicate SameBut(before: Rooms, after: Rooms, channel: Bytes) {
    forall other :: other != channel ==> Room(after, other) == Room(before, other)
  }

  /** No channel is kept without subscribers. */
  ghost predicate NoEmptyRoom(rooms: Rooms) {
    forall channel :: channel in rooms ==> rooms[channel] != {}
  }

  class Broker {
    var subs: Rooms

    constructor ()
      ensures subs == map[]
    {
      subs := map[];
    }

    method Subscribe(sub: Client, channel: Bytes) returns (added: bool)
      modifies this
      ensures added == (sub !in Room(old(subs), channel))
      ensures Room(subs, channel) == Room(old(subs), channel) + {sub} && SameBut(old(subs), subs, channel)
      ensures NoEmptyRoom(old(subs)) ==> NoEmptyRoom(subs)
    {
      if channel !in subs {
        subs := subs[channel := {}];
      }
      if sub in subs[channel] { return false; }
      subs := subs[channel := subs[channel] + {sub}];
      added := true;
    }

    /** A channel left by its last subscriber is dropped. */
    method Unsubscribe(sub: Client, channel: Bytes) returns (removed: bool)
      modifies this
      ensures removed == (sub in Room(old(subs), channel))
      ensures Room(subs, channel) == Room(old(subs), channel) - {sub} && SameBut(old(subs), subs, channel)
      ensures NoEmptyRoom(old(subs)) ==> NoEmptyRoom(subs)
    {
      if channel !in subs { return false; }
      if sub !in subs[channel] { return false; }
      subs := subs[channel := subs[channel] - {sub}];
      if subs[channel] == {} {
        subs := subs - {channel};
      }
      removed := true;
    }

    /** The subscribers are listed under the lock, and each gets the message once, in some order. */
    method Publish(channel: Bytes, payload: Bytes) returns (n: nat)
      modifies Room(subs, channel)`sent
      ensures n == |Room(subs, channel)|
      ensures forall c :: c in Room(subs, channel) ==>
        c.sent == old(c.sent) + [Array([Bulk("message"), Bulk(channel), Bulk(payload)])]
    {
      var room := if channel in subs then subs[channel] else {};
      var targets := ListClients(room);
      n := |targets|;
      ClientsCount(targets, room);
      for i := 0 to |targets|
        invariant forall j :: 0 <= j < i ==> targets[j].sent == old(targets[j].sent) + [Message(channel, payload)]
        invariant forall j :: i <= j < |targets| ==> targets[j].sent == old(targets[j].sent)
      {
        targets[i].Deliver(channel, payload);
      }
    }
  }

  ghost predicate ListsClients(order: seq<Client>, s: set<Client>) {
    (forall i :: 0 <= i < |order| ==> order[i] in s) && (forall c :: c in s ==> c in order) &&
    forall i, j :: 0 <= i < j < |order| ==> order[i] != order[j]
  }

  method ListClients(s: set<Client>) returns (order: seq<Client>)
    ensures ListsClients(order, s)
  {
    var todo := s;
    order := [];
    while todo != {}
      invariant todo <= s && ListsClients(order, s - todo)
    {
      var c :| c in todo;
      todo := todo - {c};
      order := order + [c];
    }
    assert s - todo == s;
  }

  lemma {:induction false} ClientsCount(order: seq<Client>, s: set<Client>)
    requires ListsClients(order, s)
    ensures |order| == |s|
    decreases |order|
  {
    if order != [] {
      var n := |order| - 1;
      ClientsCount(order[..n], s - {order[n]});
    } else {
      assert s == {};
    }
  }

  /** The broker and the clients agree on who is subscribed to what. */
  ghost predicate Agree(b: Broker, clients: set<Client>)
    reads b, clients`subs
  {
    NoEmptyRoom(b.subs) &&
    (forall channel, c :: c in Room(b.subs, channel) ==> c in clients) &&
    (forall c, channel :: c in clients ==> (channel in c.subs <==> c in Room(b.subs, channel))) &&
    (forall c :: c in clients ==> |c.subs| <= MAX_SUBSCRIPTIONS)
  }

  /** How many of the channels are taken before the client has too many. */
  function Accepted(subs: set<Bytes>, channels: seq<Bytes>): (n: nat)
    ensures n <= |channels|
    decreases |channels|
  {
    if channels == [] || |subs| >= MAX_SUBSCRIPTIONS then 0
    else 1 + Accepted(subs + {channels[0]}, channels[1..])
  }

  /** One confirmation for each channel, with the number of channels subscribed to after it. */
  function Joins(subs: set<Bytes>, channels: seq<Bytes>): seq<Reply> {
    if channels == [] then []
    else
      var n := |channels| - 1;
      Joins(subs, channels[..n]) + [PubSubReply("subscribe", channels[n], |subs + Elements(channels)|)]
  }

  function Leaves(subs: set<Bytes>, channels: seq<Bytes>): seq<Reply> {
    if channels == [] then []
    else
      var n := |channels| - 1;
      Leaves(subs, channels[..n]) + [PubSubReply("unsubscribe", channels[n], |subs - Elements(channels)|)]
  }

  lemma MoreElements(s: seq<Bytes>, i: nat)
    requires i < |s|
    ensures Elements(s[..i + 1]) == Elements(s[..i]) + {s[i]}
  {
  }

  lemma {:induction false} AcceptedSoFar(subs: set<Bytes>, channels: seq<Bytes>, i: nat)
    requires i <= |channels|
    requires forall j :: 0 <= j < i ==> |subs + Elements(channels[..j])| < MAX_SUBSCRIPTIONS
    ensures Accepted(subs, channels) == i + Accepted(subs + Elements(channels[..i]), channels[i..])
    decreases i
  {
    if i == 0 {
      assert subs + Elements(channels[..0]) == subs && channels[0..] == channels;
    } else {
      var k := i - 1;
      AcceptedSoFar(subs, channels, k);
      MoreElements(channels, k);
      assert subs + Elements(channels[..k]) + {channels[k]} == subs + Elements(channels[..i]);
      assert channels[k..][0] == channels[k] && channels[k..][1..] == channels[i..];
    }
  }

  /** A client takes channels while it holds fewer than 1000, and stops at the first that finds it with more. */
  lemma {:induction false} TakesUpTo(subs: set<Bytes>, channels: seq<Bytes>, j: nat)
    requires j <= Accepted(subs, channels)
    ensures j < Accepted(subs, channels) ==> |subs + Elements(channels[..j])| < 1000
    ensures j == Accepted(subs, channels) < |channels| ==> |subs + Elements(channels[..j])| >= 1000
    decreases |channels|
  {
    if j == 0 {
      assert subs + Elements(channels[..0]) == subs;
    } else {
      var first, rest := channels[0], channels[1..];
      TakesUpTo(subs + {first}, rest, j - 1);
      FirstTaken(subs, channels, j);
      hide Elements;
    }
  }

  lemma FirstTaken(subs: set<Bytes>, channels: seq<Bytes>, j: nat)
    requires 0 < j <= |channels|
    ensures subs + Elements(channels[..j]) == subs + {channels[0]} + Elements(channels[1..][..j - 1])
  {
    var first, rest := channels[0], channels[1..][..j - 1];
    assert channels[..j] == [first] + rest;
    FirstElement(first, rest);
    hide Elements;
  }

  lemma FirstElement(c: Bytes, rest: seq<Bytes>)
    ensures Elements([c] + rest) == {c} + Elements(rest)
  {
  }

  /** The confirmation of each channel: its kind, the channel, and how many the client then holds. */
  lemma {:induction false} Confirmed(subs: set<Bytes>, channels: seq<Bytes>, i: nat)
    requires i < |channels|
    ensures |Joins(subs, channels)| == |Leaves(subs, channels)| == |channels|
    ensures Joins(subs, channels)[i] ==
            Array([Bulk("subscribe"), Bulk(channels[i]), Int(|subs + Elements(channels[..i + 1])|)])
    ensures Leaves(subs, channels)[i] ==
            Array([Bulk("unsubscribe"), Bulk(channels[i]), Int(|subs - Elements(channels[..i + 1])|)])
    decreases |channels|
  {
    hide Elements;
    var n := |channels| - 1;
    var front := channels[..n];
    ConfirmedAll(subs, channels);
    ConfirmedAll(subs, front);
    if i < n {
      Confirmed(subs, front, i);
      assert front[..i + 1] == channels[..i + 1];
    } else {
      assert channels[..i + 1] == channels;
    }
  }

  lemma {:induction false} ConfirmedAll(subs: set<Bytes>, channels: seq<Bytes>)
    ensures |Joins(subs, channels)| == |Leaves(subs, channels)| == |channels|
    decreases |channels|
  {
    if channels != [] {
      ConfirmedAll(subs, channels[..|channels| - 1]);
    }
  }

  /** One channel subscribed to, on both sides. */
  method Join(b: Broker, c: Client, channel: Bytes, ghost clients: set<Client>)
    requires Agree(b, clients) && c in clients && |c.subs| < MAX_SUBSCRIPTIONS
    modifies b, c
    ensures Agree(b, clients) && c.subs == old(c.subs) + {channel}
    ensures c.sent == old(c.sent) + [PubSubReply("subscribe", channel, |c.subs|)]
  {
    var _ := b.Subscribe(c, channel);
    c.subs := c.subs + {channel};
    c.Send(PubSubReply("subscribe", channel, |c.subs|));
  }

  /** One channel left, on both sides. */
  method Leave(b: Broker, c: Client, channel: Bytes, ghost clients: set<Client>)
    requires Agree(b, clients) && c in clients
    modifies b, c
    ensures Agree(b, clients) && c.subs == old(c.subs) - {channel}
    ensures c.sent == old(c.sent) + [PubSubReply("unsubscribe", channel, |c.subs|)]
  {
    LeaveBoth(b, c, channel, clients);
    c.Send(PubSubReply("unsubscribe", channel, |c.subs|));
  }

  method LeaveBoth(b: Broker, c: Client, channel: Bytes, ghost clients: set<Client>)
    requires Agree(b, clients) && c in clients
    modifies b, c`subs
    ensures Agree(b, clients) && c.subs == old(c.subs) - {channel}
  {
    Fewer(c.subs, channel);
    var _ := b.Unsubscribe(c, channel);
    c.subs := c.subs - {channel};
    forall other, d | d in clients
      ensures other in d.subs <==> d in Room(b.subs, other)
    {
      assert other in old(d.subs) <==> d in Room(old(b.subs), other);
    }
  }

  lemma Fewer(s: set<Bytes>, channel: Bytes)
    ensures |s - {channel}| <= |s|
  {
    if channel !in s { assert s - {channel} == s; }
  }

  lemma JoinsMore(subs: set<Bytes>, channels: seq<Bytes>, i: nat, sent: seq<Reply>)
    requires i < |channels|
    ensures subs + Elements(channels[..i]) + {channels[i]} == subs + Elements(channels[..i + 1])
    ensures sent + Joins(subs, channels[..i]) + [PubSubReply("subscribe", channels[i], |subs + Elements(channels[..i + 1])|)]
         == sent + Joins(subs, channels[..i + 1])
  {
    MoreElements(channels, i);
    assert channels[..i + 1][..i] == channels[..i];
  }

  lemma LeavesMore(subs: set<Bytes>, channels: seq<Bytes>, i: nat, sent: seq<Reply>)
    requires i < |channels|
    ensures subs - Elements(channels[..i]) - {channels[i]} == subs - Elements(channels[..i + 1])
    ensures sent + Leaves(subs, channels[..i]) + [PubSubReply("unsubscribe", channels[i], |subs - Elements(channels[..i + 1])|)]
         == sent + Leaves(subs, channels[..i + 1])
  {
    MoreElements(channels, i);
    assert channels[..i + 1][..i] == channels[..i];
  }

  lemma Nothing(subs: set<Bytes>, sent: seq<Reply>, channels: seq<Bytes>)
    ensures subs + Elements(channels[..0]) == subs == subs - Elements(channels[..0])
    ensures sent + Joins(subs, channels[..0]) == sent == sent + Leaves(subs, channels[..0])
  {
  }

  /** `cmdSubscribe`: channels are taken in turn until the client has too many; those taken stay taken. */
  method CmdSubscribe(b: Broker, c: Client, args: seq<Bytes>, ghost clients: set<Client>) returns (reply: Option<Reply>)
    requires Agree(b, clients) && c in clients
    modifies b, c
    ensures Agree(b, clients)
    ensures var n := Accepted(old(c.subs), args);
            c.subs == old(c.subs) + Elements(args[..n]) && c.sent == old(c.sent) + Joins(old(c.subs), args[..n]) &&
            reply == if args == [] then Some(Error(Text("ERR SUBSCRIBE requires at least one channel")))
                     else if n < |args| then Some(Error(Text("ERR max subscriptions per client reached")))
                     else None
  {
    hide Agree, Elements, Joins, Accepted, Text;
    ghost var subs, sent := c.subs, c.sent;
    Nothing(subs, sent, args);
    AcceptedSoFar(subs, args, 0);
    if |args| < 1 {
      assert args[..Accepted(subs, args)] == args[..0];
      return Some(Error(Text("ERR SUBSCRIBE requires at least one channel")));
    }
    for i := 0 to |args|
      invariant Agree(b, clients)
      invariant c.subs == subs + Elements(args[..i]) && c.sent == sent + Joins(subs, args[..i])
      invariant forall j :: 0 <= j < i ==> |subs + Elements(args[..j])| < MAX_SUBSCRIPTIONS
    {
      AcceptedSoFar(subs, args, i);
      if |c.subs| >= MAX_SUBSCRIPTIONS {
        AcceptsNone(c.subs, args[i..]);
        return Some(Error(Text("ERR max subscriptions per client reached")));
      }
      JoinsMore(subs, args, i, sent);
      Join(b, c, args[i], clients);
    }
    AcceptedSoFar(subs, args, |args|);
    AcceptsNone(c.subs, args[|args|..]);
    reply := None;
  }

  lemma AcceptsNone(subs: set<Bytes>, channels: seq<Bytes>)
    requires channels == [] || |subs| >= MAX_SUBSCRIPTIONS
    ensures Accepted(subs, channels) == 0
  {
  }

  method ListSet(s: set<Bytes>) returns (order: seq<Bytes>)
    ensures Lists(order, s)
  {
    var todo := s;
    order := [];
    while todo != {}
      invariant todo <= s && Lists(order, s - todo)
    {
      var e :| e in todo;
      todo := todo - {e};
      assert Elements(order + [e]) == Elements(order) + {e};
      assert forall i :: 0 <= i < |order| ==> order[i] in Elements(order);
      order := order + [e];
    }
    assert s - todo == s;
  }

  /** `cmdUnsubscribe`: the named channels, or all of the client's in some order. */
  method CmdUnsubscribe(b: Broker, c: Client, args: seq<Bytes>, ghost clients: set<Client>) returns (ghost channels: seq<Bytes>)
    requires Agree(b, clients) && c in clients
    modifies b, c
    ensures Agree(b, clients)
    ensures if args == [] then Lists(channels, old(c.subs)) else channels == args
    ensures c.subs == old(c.subs) - Elements(channels)
    ensures c.sent == old(c.sent) + if channels == [] then [Array([Bulk("unsubscribe"), NullBulk, Int(0)])]
                                    else Leaves(old(c.subs), channels)
  {
    hide Agree, Elements, Leaves;
    var todo := args;
    if |args| == 0 {
      todo := ListSet(c.subs);
    }
    channels := todo;
    ghost var subs, sent := c.subs, c.sent;
    Nothing(subs, sent, todo);
    if |todo| == 0 {
      assert todo == todo[..0];
      c.Send(Array([Bulk("unsubscribe"), NullBulk, Int(0)]));
      return;
    }
    for i := 0 to |todo|
      invariant Agree(b, clients)
      invariant c.subs == subs - Elements(todo[..i]) && c.sent == sent + Leaves(subs, todo[..i])
    {
      LeavesMore(subs, todo, i, sent);
      Leave(b, c, todo[i], clients);
    }
    assert todo[..|todo|] == todo;
  }

  /** `unsubscribeAll`: a client that disconnects is left in no set of the broker, and nobody else is moved. */
  method UnsubscribeAll(b: Broker, c: Client, ghost clients: set<Client>)
    requires Agree(b, clients) && c in clients
    modifies b
    ensures Agree(b, clients - {c})
    ensures forall channel :: Room(b.subs, channel) == Room(old(b.subs), channel) - {c}
  {
    var todo := c.subs;
    ghost var start := b.subs;
    while todo != {}
      invariant todo <= c.subs && NoEmptyRoom(b.subs)
      invariant forall channel :: Room(b.subs, channel) ==
                  if channel in c.subs - todo then Room(start, channel) - {c} else Room(start, channel)
    {
      var channel :| channel in todo;
      todo := todo - {channel};
      var _ := b.Unsubscribe(c, channel);
    }
  }

  /** `cmdPublish` answers with the number of clients subscribed to the channel. */
  method CmdPublish(b: Broker, args: seq<Bytes>, ghost clients: set<Client>) returns (reply: Reply)
    requires Agree(b, clients)
    modifies (if |args| == 2 then Room(b.subs, args[0]) else {})`sent
    ensures Agree(b, clients)
    ensures if |args| != 2 then reply == Error(Text("ERR PUBLISH requires channel and message"))
            else reply == Int(|set c | c in clients && args[0] in c.subs|) &&
                 forall c :: c in clients && args[0] in c.subs ==>
                   c.sent == old(c.sent) + [Array([Bulk("message"), Bulk(args[0]), Bulk(args[1])])]
  {
    if |args| != 2 {
      return Error(Text("ERR PUBLISH requires channel and message"));
    }
    var n := b.Publish(args[0], args[1]);
    assert Room(b.subs, args[0]) == set c | c in clients && args[0] in c.subs;
    reply := Int(n);
  }

  /** A new connection starts with no channels, and the agreement extends to it. */
  lemma Connected(b: Broker, clients: set<Client>, c: Client)
    requires Agree(b, clients) && c !in clients && c.subs == {}
    ensures Agree(b, clients + {c})
  {
    forall channel
      ensures c !in Room(b.subs, channel)
    {
    }
  }
}
