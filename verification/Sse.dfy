/** The server-sent-events broker: a client registry and a one-slot notifier (sse.go). */
module Sse {
  import opened Requests

  /** Every connection makes its own channel, so a channel joins at most once. */
  type Channel = nat

  /** current is the rendering of the statistics a reader would get now; notifier is the slot of the buffered
      channel. handled, joinedAt, leftAt and welcome are history: the events broadcast so far, how many there had
      been when a channel was registered and removed, and the statistics at the time it joined. */
  datatype Hub<Event> = Hub(
    current: Event, notifier: Option<Event>, clients: set<Channel>, logs: map<Channel, seq<Event>>,
    handled: seq<Event>, joinedAt: map<Channel, nat>, leftAt: map<Channel, nat>, welcome: map<Channel, Event>)

  /** Join, Leave and Broadcast are the three cases of Listen; Change and Notify are the cache's doing. A send to
      a full slot blocks, so such a step is not enabled. */
  datatype Action<Event> =
    | Join(c: Channel, callbackOk: bool) | Leave(c: Channel) | Broadcast | Change(event: Event) | Notify

  predicate Enabled<Event>(h: Hub<Event>, a: Action<Event>) {
    match a
    case Join(c, callbackOk) => c !in h.joinedAt && (callbackOk ==> h.notifier.None?)
    case Broadcast => h.notifier.Some?
    case Notify => h.notifier.None?
    case _ => true
  }

  function Delivered<Event>(logs: map<Channel, seq<Event>>, clients: set<Channel>, e: Event): map<Channel, seq<Event>> {
    map c | c in logs :: if c in clients then logs[c] + [e] else logs[c]
  }

  function Apply<Event>(h: Hub<Event>, a: Action<Event>): Hub<Event>
    requires Enabled(h, a)
  {
    match a
    case Join(c, callbackOk) =>
      var h' := h.(clients := h.clients + {c}, logs := h.logs[c := []], joinedAt := h.joinedAt[c := |h.handled|]);
      if callbackOk then h'.(notifier := Some(h.current), welcome := h.welcome[c := h.current]) else h'
    case Leave(c) =>
      if c in h.clients then h.(clients := h.clients - {c}, leftAt := h.leftAt[c := |h.handled|]) else h
    case Broadcast =>
      var e := h.notifier.value;
      h.(notifier := None, logs := Delivered(h.logs, h.clients, e), handled := h.handled + [e])
    case Change(e) => h.(current := e)
    case Notify => h.(notifier := Some(h.current))
  }

  function Start<Event>(current: Event): Hub<Event> {
    Hub(current, None, {}, map[], [], map[], map[], map[])
  }

  ghost predicate EnabledRun<Event>(h: Hub<Event>, actions: seq<Action<Event>>)
    decreases |actions|
  {
    actions == [] || (Enabled(h, actions[0]) && EnabledRun(Apply(h, actions[0]), actions[1..]))
  }

  ghost function Run<Event>(h: Hub<Event>, actions: seq<Action<Event>>): Hub<Event>
    requires EnabledRun(h, actions)
    decreases |actions|
  {
    if actions == [] then h else Run(Apply(h, actions[0]), actions[1..])
  }

  /** The events broadcast while c was registered. */
  function Window<Event>(h: Hub<Event>, c: Channel): seq<Event>
    requires c in h.joinedAt
  {
    var to := if c in h.leftAt then h.leftAt[c] else |h.handled|;
    if h.joinedAt[c] <= to <= |h.handled| then h.handled[h.joinedAt[c]..to] else []
  }

  /** c's log is its window; its first event is its welcome, which waits in the slot until then. */
  ghost predicate FaithfulTo<Event>(h: Hub<Event>, c: Channel)
    requires c in h.joinedAt && c in h.logs
  {
    && h.joinedAt[c] <= |h.handled|
    && (c in h.leftAt ==> h.joinedAt[c] <= h.leftAt[c] <= |h.handled|)
    && (c in h.clients <==> c !in h.leftAt)
    && h.logs[c] == Window(h, c)
    && (c in h.welcome ==>
          if h.logs[c] != [] then h.logs[c][0] == h.welcome[c]
          else c in h.clients ==> h.notifier == Some(h.welcome[c]))
  }

  ghost predicate Faithful<Event>(h: Hub<Event>) {
    && h.logs.Keys == h.joinedAt.Keys
    && h.leftAt.Keys <= h.joinedAt.Keys && h.clients <= h.joinedAt.Keys
    && h.welcome.Keys <= h.joinedAt.Keys
    && (forall c :: c in h.joinedAt ==> FaithfulTo(h, c))
  }

  lemma FaithfulJoin<Event>(h: Hub<Event>, c: Channel, callbackOk: bool)
    requires Faithful(h) && Enabled(h, Join(c, callbackOk))
    ensures Faithful(Apply(h, Join(c, callbackOk)))
  {
    var h' := Apply(h, Join(c, callbackOk));
    assert FaithfulTo(h', c);
    forall d | d in h.joinedAt
      ensures FaithfulTo(h', d)
    {
      assert d != c && FaithfulTo(h, d) && Window(h', d) == Window(h, d);
    }
  }

  lemma FaithfulLeave<Event>(h: Hub<Event>, c: Channel)
    requires Faithful(h)
    ensures Faithful(Apply(h, Leave(c)))
  {
    var h' := Apply(h, Leave(c));
    forall d | d in h.joinedAt
      ensures FaithfulTo(h', d)
    {
      assert FaithfulTo(h, d) && Window(h', d) == Window(h, d);
    }
  }

  lemma FaithfulBroadcast<Event>(h: Hub<Event>)
    requires Faithful(h) && Enabled(h, Broadcast)
    ensures Faithful(Apply(h, Broadcast))
  {
    var h' := Apply(h, Broadcast);
    forall c | c in h.joinedAt
      ensures FaithfulTo(h', c)
    {
      assert FaithfulTo(h, c);
      assert Window(h', c) == if c in h.leftAt then Window(h, c) else Window(h, c) + [h.notifier.value];
    }
  }

  lemma FaithfulOther<Event>(h: Hub<Event>, a: Action<Event>)
    requires Faithful(h) && Enabled(h, a) && (a.Change? || a.Notify?)
    ensures Faithful(Apply(h, a))
  {
    forall c | c in h.joinedAt
      ensures FaithfulTo(Apply(h, a), c)
    {
      assert FaithfulTo(h, c) && Window(Apply(h, a), c) == Window(h, c);
    }
  }

  lemma FaithfulStep<Event>(h: Hub<Event>, a: Action<Event>)
    requires Faithful(h) && Enabled(h, a)
    ensures Faithful(Apply(h, a))
  {
    match a
    case Join(c, callbackOk) => FaithfulJoin(h, c, callbackOk);
    case Leave(c) => FaithfulLeave(h, c);
    case Broadcast => FaithfulBroadcast(h);
    case _ => FaithfulOther(h, a);
  }

  /** After any run of completed steps, each client has received exactly the events broadcast between its
      registration and its removal, in order; and a client whose join callback succeeded gets, before anything
      else, the statistics as they were when it joined: received already, or waiting in the slot. */
  lemma {:induction false} ClientsReceiveTheirWindow<Event>(h: Hub<Event>, actions: seq<Action<Event>>)
    requires Faithful(h) && EnabledRun(h, actions)
    ensures Faithful(Run(h, actions))
    decreases |actions|
  {
    if actions != [] {
      FaithfulStep(h, actions[0]);
      ClientsReceiveTheirWindow(Apply(h, actions[0]), actions[1..]);
    }
  }

  // ----- what a client can count on -----

  lemma {:induction false} EnabledConcat<Event>(h: Hub<Event>, a: seq<Action<Event>>, b: seq<Action<Event>>)
    requires EnabledRun(h, a + b)
    ensures EnabledRun(h, a) && EnabledRun(Run(h, a), b) && Run(h, a + b) == Run(Run(h, a), b)
    decreases |a|
  {
    if a == [] {
      assert a + b == b;
    } else {
      assert (a + b)[1..] == a[1..] + b;
      EnabledConcat(Apply(h, a[0]), a[1..], b);
    }
  }

  lemma {:induction false} JoinedOnce<Event>(h: Hub<Event>, actions: seq<Action<Event>>, c: Channel)
    requires Faithful(h) && EnabledRun(h, actions) && c in h.welcome
    ensures var h' := Run(h, actions); c in h'.welcome && h'.welcome[c] == h.welcome[c]
    decreases |actions|
  {
    if actions != [] {
      assert c in h.joinedAt;
      FaithfulStep(h, actions[0]);
      JoinedOnce(Apply(h, actions[0]), actions[1..], c);
    }
  }

  /** A client whose join callback succeeded has the statistics as they were at its join as its first event, or they
      are waiting in the slot, unless it left first. */
  lemma FirstEventIsTheWelcome<Event>(h: Hub<Event>, actions: seq<Action<Event>>, k: nat, c: Channel)
    requires Faithful(h) && EnabledRun(h, actions) && k < |actions| && actions[k] == Join(c, true)
    ensures EnabledRun(h, actions[..k])
    ensures var joining, h' := Run(h, actions[..k]), Run(h, actions);
            && c in h'.logs
            && if h'.logs[c] != [] then h'.logs[c][0] == joining.current
               else c in h'.clients ==> h'.notifier == Some(joining.current)
  {
    var before, rest := actions[..k], actions[k + 1..];
    assert actions == before + ([actions[k]] + rest);
    EnabledConcat(h, before, [actions[k]] + rest);
    var joining := Run(h, before);
    assert ([actions[k]] + rest)[1..] == rest;
    ClientsReceiveTheirWindow(h, before);
    FaithfulStep(joining, actions[k]);
    var joined := Apply(joining, actions[k]);
    assert joined.welcome[c] == joining.current;
    JoinedOnce(joined, rest, c);
    ClientsReceiveTheirWindow(joined, rest);
    assert FaithfulTo(Run(joined, rest), c);
  }

  /** The events taken from the slot while c was in the registry. */
  ghost function Heard<Event>(h: Hub<Event>, actions: seq<Action<Event>>, c: Channel): seq<Event>
    requires EnabledRun(h, actions)
    decreases |actions|
  {
    if actions == [] then []
    else (if actions[0].Broadcast? && c in h.clients then [h.notifier.value] else [])
         + Heard(Apply(h, actions[0]), actions[1..], c)
  }

  /** Who is in the registry: whoever joined and has not left. */
  lemma RegistryStep<Event>(h: Hub<Event>, a: Action<Event>, c: Channel)
    requires Enabled(h, a)
    ensures c in Apply(h, a).clients <==> (a.Join? && a.c == c) || (c in h.clients && a != Leave(c))
  {
  }

  /** What is in the slot: the newest statistics after a notification or a successful join, nothing after a
      broadcast. */
  lemma SlotStep<Event>(h: Hub<Event>, a: Action<Event>)
    requires Enabled(h, a)
    ensures Apply(h, a).notifier
         == if a == Notify || (a.Join? && a.callbackOk) then Some(h.current)
            else if a == Broadcast then None else h.notifier
    ensures Apply(h, a).current == if a.Change? then a.event else h.current
  {
  }

  /** Over any run a registered or former client receives exactly that, in order. */
  lemma {:induction false} LogIsWhatWasHeard<Event>(h: Hub<Event>, actions: seq<Action<Event>>, c: Channel)
    requires EnabledRun(h, actions) && c in h.joinedAt && c in h.logs
    ensures c in Run(h, actions).logs && Run(h, actions).logs[c] == h.logs[c] + Heard(h, actions, c)
    decreases |actions|
  {
    if actions != [] {
      LogIsWhatWasHeard(Apply(h, actions[0]), actions[1..], c);
    }
  }

  lemma StartFaithful<Event>(current: Event)
    ensures Faithful(Start(current))
  {
  }

  lemma DeliverOne<Event>(logs: map<Channel, seq<Event>>, clients: set<Channel>, todo: set<Channel>,
                          c: Channel, e: Event)
    requires c in todo && c in logs && todo <= clients
    ensures var partial := Delivered(logs, clients - todo, e);
            partial[c := partial[c] + [e]] == Delivered(logs, clients - (todo - {c}), e)
  {
  }

  /** The broker's own fields, and the logs its clients keep; one method per case of the select in Listen. */
  class Broker<Event(==)> {
    var notifier: Option<Event>
    var clients: set<Channel>
    var logs: map<Channel, seq<Event>>

    constructor ()
      ensures notifier == None && clients == {} && logs == map[]
    {
      notifier, clients, logs := None, {}, map[];
    }

    ghost predicate Shows(h: Hub<Event>)
      reads this
    {
      notifier == h.notifier && clients == h.clients && logs == h.logs
    }

    method HandleJoin(c: Channel, callback: Option<Event>, ghost h: Hub<Event>)
      requires Shows(h) && Enabled(h, Join(c, callback.Some?)) && (callback.Some? ==> callback.value == h.current)
      modifies this
      ensures Shows(Apply(h, Join(c, callback.Some?)))
      ensures clients == old(clients) + {c} && logs == old(logs)[c := []]
      ensures notifier == if callback.Some? then callback else old(notifier)
    {
      clients := clients + {c};
      logs := logs[c := []];
      if callback.Some? {
        notifier := callback;
      }
    }

    /** BroadcastStats: the send completes when the slot is free. */
    method Notify(event: Event, ghost h: Hub<Event>)
      requires Shows(h) && Enabled(h, Action.Notify) && event == h.current
      modifies this
      ensures Shows(Apply(h, Action.Notify))
      ensures notifier == Some(event) && clients == old(clients) && logs == old(logs)
    {
      notifier := Some(event);
    }

    method HandleLeave(c: Channel, ghost h: Hub<Event>)
      requires Shows(h)
      modifies this
      ensures Shows(Apply(h, Leave(c)))
      ensures clients == old(clients) - {c} && logs == old(logs) && notifier == old(notifier)
    {
      clients := clients - {c};
    }

    /** The registry is a map; Go ranges over it in no particular order. */
    method SendToAll(event: Event)
      requires clients <= logs.Keys
      modifies this`logs
      ensures logs == Delivered(old(logs), clients, event)
    {
      var todo := clients;
      while todo != {}
        invariant todo <= clients
        invariant logs == Delivered(old(logs), clients - todo, event)
      {
        var c :| c in todo;
        DeliverOne(old(logs), clients, todo, c, event);
        logs := logs[c := logs[c] + [event]];
        todo := todo - {c};
      }
      assert clients - todo == clients;
    }

    method HandleEvent(ghost h: Hub<Event>)
      requires Shows(h) && Faithful(h) && Enabled(h, Broadcast)
      modifies this
      ensures Shows(Apply(h, Broadcast))
      ensures notifier == None && clients == old(clients) && logs.Keys == old(logs).Keys
      ensures forall c :: c in logs ==>
                logs[c] == if c in clients then old(logs)[c] + [old(notifier).value] else old(logs)[c]
    {
      var event := notifier.value;
      notifier := None;
      SendToAll(event);
    }
  }
}
