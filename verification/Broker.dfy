/** The event broker of internal/app/subscriber_broker.go: events are fanned out to buffered
    channels without blocking, while subscribers come, go and are closed. */
module Broker {
  import opened Text

  /** The `number`-th event of a publisher. */
  datatype Event = Event(publisher: nat, number: nat)

  /** A channel: all events put into it, of which the first `taken` have been received, and
      the events it missed. */
  datatype Channel = Channel(delivered: seq<Event>, taken: nat, lost: seq<Event>, closed: bool)

  /** Channels are named by their index. `panicked`: somebody sent to, or closed, a closed channel. */
  datatype Hub = Hub(subscribers: seq<nat>, closed: bool, channels: seq<Channel>, panicked: bool)

  const CAPACITY: nat := 100

  const FRESH_CHANNEL := Channel([], 0, [], false)

  const EMPTY_HUB := Hub([], false, [], false)

  predicate IsFull(c: Channel) {
    |c.delivered| - c.taken >= CAPACITY
  }

  predicate CanUse(h: Hub, ch: nat) {
    ch < |h.channels| && !h.channels[ch].closed
  }

  function SendTo(h: Hub, ch: nat, e: Event): Hub {
    if !CanUse(h, ch) then h.(panicked := true)
    else
      var c := h.channels[ch];
      h.(channels := h.channels[ch := if IsFull(c) then c.(lost := c.lost + [e]) else c.(delivered := c.delivered + [e])])
  }

  function CloseChannel(h: Hub, ch: nat): Hub {
    if !CanUse(h, ch) then h.(panicked := true)
    else h.(channels := h.channels[ch := h.channels[ch].(closed := true)])
  }

  /** Known, distinct, open channels are subscribed, none once the broker is closed. */
  ghost predicate Sane(h: Hub) {
    && !h.panicked && (h.closed ==> h.subscribers == [])
    && (forall i :: 0 <= i < |h.subscribers| ==> CanUse(h, h.subscribers[i]))
    && (forall i, j :: 0 <= i < j < |h.subscribers| ==> h.subscribers[i] != h.subscribers[j])
    && (forall ch :: 0 <= ch < |h.channels| ==>
          h.channels[ch].taken <= |h.channels[ch].delivered| <= h.channels[ch].taken + CAPACITY)
  }

  // -------------------------------------------------------------------------
  // The broker's operations.
  // -------------------------------------------------------------------------

  function Subscribed(h: Hub): Hub {
    var id := |h.channels|;
    if h.closed then h.(channels := h.channels + [FRESH_CHANNEL.(closed := true)])
    else h.(channels := h.channels + [FRESH_CHANNEL], subscribers := h.subscribers + [id])
  }

  function Without(subs: seq<nat>, i: nat): seq<nat>
    requires i < |subs|
  {
    subs[..i] + subs[i + 1..]
  }

  ghost predicate IsUnsubscribed(h: Hub, ch: nat, h': Hub) {
    if ch !in h.subscribers then h' == h
    else
      exists i :: 0 <= i < |h.subscribers| && h.subscribers[i] == ch
                  && h' == CloseChannel(h, ch).(subscribers := Without(h.subscribers, i))
  }

  /** Every subscriber from the `i`-th on is sent the event. */
  function SentFrom(h: Hub, e: Event, i: nat): Hub
    requires i <= |h.subscribers|
    decreases |h.subscribers| - i
  {
    if i == |h.subscribers| then h else SentFrom(SendTo(h, h.subscribers[i], e), e, i + 1)
  }

  ghost predicate IsClosed(h: Hub, h': Hub) {
    if h.closed then h' == h
    else
      && h'.closed && h'.subscribers == [] && !h'.panicked && |h'.channels| == |h.channels|
      && forall ch :: 0 <= ch < |h.channels| ==>
           h'.channels[ch] == if ch in h.subscribers then h.channels[ch].(closed := true) else h.channels[ch]
  }

  class SubscriberBroker {
    var subscribers: seq<nat>
    var closed: bool
    var channels: seq<Channel>
    var panicked: bool

    constructor ()
      ensures Now() == EMPTY_HUB && Sane(Now())
    {
      subscribers, closed, channels, panicked := [], false, [], false;
    }

    function Now(): Hub
      reads this
    {
      Hub(subscribers, closed, channels, panicked)
    }

    method Subscribe() returns (ch: nat)
      requires Sane(Now())
      modifies this
      ensures ch == |old(channels)| && Now() == Subscribed(old(Now())) && Sane(Now())
    {
      ch := |channels|;
      channels := channels + [FRESH_CHANNEL];
      if closed {
        channels := channels[ch := FRESH_CHANNEL.(closed := true)];
        return;
      }
      subscribers := subscribers + [ch];
    }

    method CloseOne(ch: nat)
      requires ch < |channels|
      modifies this
      ensures Now() == CloseChannel(old(Now()), ch)
    {
      if channels[ch].closed {
        panicked := true;
      } else {
        channels := channels[ch := channels[ch].(closed := true)];
      }
    }

    method Unsubscribe(ch: nat)
      requires Sane(Now())
      modifies this
      ensures IsUnsubscribed(old(Now()), ch, Now()) && Sane(Now())
    {
      for i := 0 to |subscribers|
        invariant Now() == old(Now()) && ch !in subscribers[..i]
      {
        if subscribers[i] == ch {
          subscribers := subscribers[..i] + subscribers[i + 1..];
          CloseOne(ch);
          return;
        }
      }
    }

    /** A send that does not block. */
    method Offer(ch: nat, e: Event)
      requires ch < |channels|
      modifies this
      ensures Now() == SendTo(old(Now()), ch, e)
    {
      var c := channels[ch];
      if c.closed {
        panicked := true;
      } else if IsFull(c) {
        channels := channels[ch := c.(lost := c.lost + [e])];
      } else {
        channels := channels[ch := c.(delivered := c.delivered + [e])];
      }
    }

    method Publish(e: Event)
      requires Sane(Now())
      modifies this
      ensures Now() == SentFrom(old(Now()), e, 0) && Sane(Now())
    {
      if |subscribers| == 0 { return; }
      for i := 0 to |subscribers|
        invariant Sane(Now()) && subscribers == old(subscribers)
        invariant SentFrom(Now(), e, i) == SentFrom(old(Now()), e, 0)
      {
        Offer(subscribers[i], e);
      }
    }

    method Close()
      requires Sane(Now())
      modifies this
      ensures IsClosed(old(Now()), Now()) && Sane(Now())
    {
      if closed { return; }
      closed := true;
      for i := 0 to |subscribers|
        invariant subscribers == old(subscribers) && closed && !panicked && |channels| == |old(channels)|
        invariant forall j :: i <= j < |subscribers| ==> channels[subscribers[j]] == old(channels)[subscribers[j]]
        invariant forall ch :: 0 <= ch < |channels| ==>
          channels[ch] == if ch in subscribers[..i] then old(channels)[ch].(closed := true) else old(channels)[ch]
      {
        CloseOne(subscribers[i]);
      }
      assert subscribers[..|subscribers|] == subscribers;
      subscribers := [];
    }
  }

  // -------------------------------------------------------------------------
  // Everybody at once.
  // -------------------------------------------------------------------------

  /** A publisher publishes its events 0, 1, ... in this order; `at` is the next subscriber
      to send the current event to, while it holds the read lock. */
  datatype Publisher = Publisher(next: nat, at: Option<nat>)

  /** A finished publication, and who was subscribed during it. */
  datatype Publication = Publication(event: Event, subscribers: seq<nat>)

  datatype State = State(hub: Hub, publishers: seq<Publisher>, published: seq<Publication>)

  /** Expiry of a subscriber's context is an `Unsubscribe` as well. */
  datatype Action =
    | Begin(p: nat)
    | Send(p: nat)
    | End(p: nat)
    | Subscribe
    | Unsubscribe(ch: nat, position: nat)
    | Close(hub: Hub)
    | Receive(ch: nat)

  ghost predicate NobodyPublishes(s: State) {
    forall p :: 0 <= p < |s.publishers| ==> s.publishers[p].at.None?
  }

  predicate IsAt(s: State, p: nat) {
    p < |s.publishers| && s.publishers[p].at.Some?
  }

  /** The write lock is free only while nobody publishes. An unsubscription removes the
      channel at the position where it finds it, or nothing. */
  ghost predicate Enabled(s: State, a: Action) {
    match a
    case Begin(p) => p < |s.publishers| && s.publishers[p].at.None?
    case Send(p) => IsAt(s, p) && s.publishers[p].at.value < |s.hub.subscribers|
    case End(p) => IsAt(s, p) && s.publishers[p].at.value == |s.hub.subscribers|
    case Subscribe => NobodyPublishes(s)
    case Unsubscribe(ch, i) =>
      NobodyPublishes(s) && if ch in s.hub.subscribers then i < |s.hub.subscribers| && s.hub.subscribers[i] == ch else true
    case Close(h) => NobodyPublishes(s) && IsClosed(s.hub, h)
    case Receive(ch) => ch < |s.hub.channels| && s.hub.channels[ch].taken < |s.hub.channels[ch].delivered|
  }

  function Current(s: State, p: nat): Event
    requires p < |s.publishers|
  {
    Event(p, s.publishers[p].next)
  }

  function Put(s: State, p: nat, publisher: Publisher): State
    requires p < |s.publishers|
  {
    s.(publishers := s.publishers[p := publisher])
  }

  ghost function Apply(s: State, a: Action): State
    requires Enabled(s, a)
  {
    match a
    case Begin(p) => Put(s, p, s.publishers[p].(at := Some(0)))
    case Send(p) =>
      var i := s.publishers[p].at.value;
      Put(s.(hub := SendTo(s.hub, s.hub.subscribers[i], Current(s, p))), p, s.publishers[p].(at := Some(i + 1)))
    case End(p) =>
      Put(s.(published := s.published + [Publication(Current(s, p), s.hub.subscribers)]),
          p, Publisher(s.publishers[p].next + 1, None))
    case Subscribe => s.(hub := Subscribed(s.hub))
    case Unsubscribe(ch, i) =>
      if ch in s.hub.subscribers then s.(hub := CloseChannel(s.hub, ch).(subscribers := Without(s.hub.subscribers, i))) else s
    case Close(h) => s.(hub := h)
    case Receive(ch) =>
      var c := s.hub.channels[ch];
      s.(hub := s.hub.(channels := s.hub.channels[ch := c.(taken := c.taken + 1)]))
  }

  function Init(n: nat): State {
    State(EMPTY_HUB, seq(n, _ => Publisher(0, None)), [])
  }

  ghost predicate Leads(s: State, actions: seq<Action>, s': State)
    decreases |actions|
  {
    if actions == [] then s == s'
    else Enabled(s, actions[0]) && Leads(Apply(s, actions[0]), actions[1..], s')
  }

  // -------------------------------------------------------------------------
  // No panic.
  // -------------------------------------------------------------------------

  lemma HubStaysSane(s: State, a: Action)
    requires Sane(s.hub) && Enabled(s, a)
    ensures Sane(Apply(s, a).hub)
  {
    if a.Close? { ClosedIsSane(s.hub, a.hub); }
  }

  lemma ClosedIsSane(h: Hub, h': Hub)
    requires Sane(h) && IsClosed(h, h')
    ensures Sane(h')
  {}

  lemma {:induction false} LeadsSane(s: State, actions: seq<Action>, s': State)
    requires Leads(s, actions, s') && Sane(s.hub)
    ensures Sane(s'.hub)
    decreases |actions|
  {
    if actions != [] {
      HubStaysSane(s, actions[0]);
      LeadsSane(Apply(s, actions[0]), actions[1..], s');
    }
  }

  /** In every interleaving nobody sends to a closed channel and no channel is closed twice,
      no buffer holds more than it can, and a closed broker has no subscribers: whoever is
      subscribed, and so can be sent to or closed, has an open channel of its own. */
  lemma NeverPanics(n: nat, actions: seq<Action>, s: State)
    requires Leads(Init(n), actions, s)
    ensures !s.hub.panicked
    ensures forall i :: 0 <= i < |s.hub.subscribers| ==>
              s.hub.subscribers[i] < |s.hub.channels| && !s.hub.channels[s.hub.subscribers[i]].closed
    ensures forall i, j :: 0 <= i < j < |s.hub.subscribers| ==> s.hub.subscribers[i] != s.hub.subscribers[j]
    ensures forall ch :: 0 <= ch < |s.hub.channels| ==> |s.hub.channels[ch].delivered| <= s.hub.channels[ch].taken + CAPACITY
    ensures s.hub.closed ==> s.hub.subscribers == []
  {
    LeadsSane(Init(n), actions, s);
  }

  // -------------------------------------------------------------------------
  // Who is subscribed.
  // -------------------------------------------------------------------------

  predicate IsRemoved(actions: seq<Action>, ch: nat) {
    exists i :: 0 <= i < |actions| && Removes(actions[i], ch)
  }

  predicate Removes(a: Action, ch: nat) {
    (a.Unsubscribe? && a.ch == ch) || a.Close?
  }

  lemma StepKeepsSubscriber(s: State, a: Action, ch: nat)
    requires Sane(s.hub) && Enabled(s, a) && ch < |s.hub.channels|
    ensures ch < |Apply(s, a).hub.channels|
    ensures ch in Apply(s, a).hub.subscribers <==> ch in s.hub.subscribers && !Removes(a, ch)
  {
    if a.Unsubscribe? && a.ch in s.hub.subscribers {
      var subs, i := s.hub.subscribers, a.position;
      if ch in subs && ch != a.ch {
        var j :| 0 <= j < |subs| && subs[j] == ch;
        assert Without(subs, i)[if j < i then j else j - 1] == ch;
      }
      if k :| 0 <= k < |Without(subs, i)| && Without(subs, i)[k] == ch {
        assert subs[if k < i then k else k + 1] == ch;
      }
    }
  }

  lemma {:induction false} LeadsKeepsSubscriber(s: State, actions: seq<Action>, s': State, ch: nat)
    requires Sane(s.hub) && Leads(s, actions, s') && ch < |s.hub.channels|
    ensures ch < |s'.hub.channels|
    ensures ch in s'.hub.subscribers <==> ch in s.hub.subscribers && !IsRemoved(actions, ch)
    decreases |actions|
  {
    if actions != [] {
      var a := actions[0];
      HubStaysSane(s, a);
      StepKeepsSubscriber(s, a, ch);
      LeadsKeepsSubscriber(Apply(s, a), actions[1..], s', ch);
      if IsRemoved(actions[1..], ch) {
        var i :| 0 <= i < |actions[1..]| && Removes(actions[1..][i], ch);
        assert Removes(actions[i + 1], ch);
      }
    }
  }

  /** Exactly the subscribed channels are open. */
  ghost predicate OpenIsSubscribed(h: Hub) {
    forall ch :: 0 <= ch < |h.channels| ==> (h.channels[ch].closed <==> ch !in h.subscribers)
  }

  lemma StepKeepsOpen(s: State, a: Action)
    requires Sane(s.hub) && OpenIsSubscribed(s.hub) && Enabled(s, a)
    ensures OpenIsSubscribed(Apply(s, a).hub)
  {
    var h, h' := s.hub, Apply(s, a).hub;
    forall ch | 0 <= ch < |h'.channels| ensures h'.channels[ch].closed <==> ch !in h'.subscribers {
      if ch < |h.channels| { StepKeepsSubscriber(s, a, ch); }
    }
  }

  lemma {:induction false} LeadsKeepsOpen(s: State, actions: seq<Action>, s': State)
    requires Sane(s.hub) && OpenIsSubscribed(s.hub) && Leads(s, actions, s')
    ensures OpenIsSubscribed(s'.hub)
    decreases |actions|
  {
    if actions != [] {
      HubStaysSane(s, actions[0]);
      StepKeepsOpen(s, actions[0]);
      LeadsKeepsOpen(Apply(s, actions[0]), actions[1..], s');
    }
  }

  /** A subscription takes effect: the new channel is empty, and it is subscribed and open
      exactly as long as it is neither unsubscribed nor the broker closed. On a closed broker
      the new channel is closed at once and never subscribed. */
  lemma SubscribedUntilRemoved(n: nat, before: seq<Action>, s: State, after: seq<Action>, s': State)
    requires Leads(Init(n), before, s) && Enabled(s, Subscribe) && Leads(Apply(s, Subscribe), after, s')
    ensures var ch, hub := |s.hub.channels|, Apply(s, Subscribe).hub;
            && hub.channels == s.hub.channels + [Channel([], 0, [], s.hub.closed)]
            && (ch in s'.hub.subscribers <==> !s.hub.closed && !IsRemoved(after, ch))
            && ch < |s'.hub.channels| && (s'.hub.channels[ch].closed <==> ch !in s'.hub.subscribers)
  {
    LeadsSane(Init(n), before, s);
    HubStaysSane(s, Subscribe);
    LeadsKeepsOpen(Init(n), before, s);
    StepKeepsOpen(s, Subscribe);
    LeadsKeepsOpen(Apply(s, Subscribe), after, s');
    LeadsKeepsSubscriber(Apply(s, Subscribe), after, s', |s.hub.channels|);
  }

  // -------------------------------------------------------------------------
  // Order, and what is lost.
  // -------------------------------------------------------------------------

  /** The event has been offered to the channel by the time the publisher has got so far. */
  ghost predicate Offered(s: State, e: Event, ch: nat) {
    && e.publisher < |s.publishers|
    && var p := s.publishers[e.publisher];
       e.number < p.next
       || (e.number == p.next && p.at.Some? && exists j :: 0 <= j < p.at.value && j < |s.hub.subscribers| && s.hub.subscribers[j] == ch)
  }

  ghost predicate Increasing(events: seq<Event>) {
    forall i, j :: 0 <= i < j < |events| && events[i].publisher == events[j].publisher ==> events[i].number < events[j].number
  }

  ghost predicate AllOffered(s: State, events: seq<Event>, ch: nat) {
    forall i :: 0 <= i < |events| ==> Offered(s, events[i], ch)
  }

  /** What a channel got and what it missed was offered to it once, and got in order. */
  ghost predicate ChannelInOrder(s: State, ch: nat)
    requires ch < |s.hub.channels|
  {
    var c := s.hub.channels[ch];
    && Increasing(c.delivered) && AllOffered(s, c.delivered, ch)
    && Increasing(c.lost) && AllOffered(s, c.lost, ch)
    && (forall i, j :: 0 <= i < |c.delivered| && 0 <= j < |c.lost| ==> c.delivered[i] != c.lost[j])
  }

  ghost predicate Has(h: Hub, ch: nat, e: Event) {
    ch < |h.channels| && (e in h.channels[ch].delivered || e in h.channels[ch].lost)
  }

  /** Only a send adds to a channel, and then the current event of its publisher. */
  lemma WhatChannelsGet(s: State, a: Action, ch: nat)
    requires Sane(s.hub) && Enabled(s, a) && ch < |Apply(s, a).hub.channels|
    ensures var c' := Apply(s, a).hub.channels[ch];
            var before := if ch < |s.hub.channels| then s.hub.channels[ch] else FRESH_CHANNEL;
            || (c'.delivered == before.delivered && c'.lost == before.lost)
            || (a.Send? && s.hub.subscribers[s.publishers[a.p].at.value] == ch && ch < |s.hub.channels|
                && ((c'.delivered == before.delivered + [Current(s, a.p)] && c'.lost == before.lost)
                    || (IsFull(before) && c'.delivered == before.delivered && c'.lost == before.lost + [Current(s, a.p)])))
  {}

  lemma Appended(events: seq<Event>, e: Event)
    requires Increasing(events)
    requires forall i :: 0 <= i < |events| && events[i].publisher == e.publisher ==> events[i].number < e.number
    ensures Increasing(events + [e])
  {}

  lemma AllStayOffered(s: State, a: Action, events: seq<Event>, ch: nat)
    requires Enabled(s, a) && AllOffered(s, events, ch)
    ensures AllOffered(Apply(s, a), events, ch)
  {}

  /** The current event has not been offered yet to the subscriber that is next. */
  lemma EarlierIsSmaller(s: State, p: nat, e: Event)
    requires Sane(s.hub) && Enabled(s, Send(p)) && e.publisher == p
    requires Offered(s, e, s.hub.subscribers[s.publishers[p].at.value])
    ensures e.number < s.publishers[p].next
  {}

  lemma CurrentIsNew(s: State, p: nat, events: seq<Event>)
    requires Sane(s.hub) && Enabled(s, Send(p))
    requires AllOffered(s, events, s.hub.subscribers[s.publishers[p].at.value])
    ensures Current(s, p) !in events
    ensures Increasing(events) ==> Increasing(events + [Current(s, p)])
  {
    forall i | 0 <= i < |events| && events[i].publisher == p ensures events[i].number < s.publishers[p].next {
      EarlierIsSmaller(s, p, events[i]);
    }
    if Increasing(events) { Appended(events, Current(s, p)); }
  }

  lemma ChannelStaysInOrder(s: State, a: Action, ch: nat)
    requires Sane(s.hub) && Enabled(s, a) && ch < |Apply(s, a).hub.channels|
    requires ch < |s.hub.channels| ==> ChannelInOrder(s, ch)
    ensures ChannelInOrder(Apply(s, a), ch)
  {
    if ch < |s.hub.channels| {
      var c := s.hub.channels[ch];
      WhatChannelsGet(s, a, ch);
      AllStayOffered(s, a, c.delivered, ch);
      AllStayOffered(s, a, c.lost, ch);
      if a.Send? && s.hub.subscribers[s.publishers[a.p].at.value] == ch {
        CurrentIsNew(s, a.p, c.delivered);
        CurrentIsNew(s, a.p, c.lost);
      }
    }
  }

  lemma HasStays(s: State, a: Action, ch: nat, e: Event)
    requires Sane(s.hub) && Enabled(s, a) && Has(s.hub, ch, e)
    ensures Has(Apply(s, a).hub, ch, e)
  {
  }

  lemma NowHas(s: State, p: nat)
    requires Sane(s.hub) && Enabled(s, Send(p))
    ensures Has(Apply(s, Send(p)).hub, s.hub.subscribers[s.publishers[p].at.value], Current(s, p))
  {}

  ghost predicate PublishedHas(s: State, k: nat, i: nat) {
    k < |s.published| && i < |s.published[k].subscribers| ==> Has(s.hub, s.published[k].subscribers[i], s.published[k].event)
  }

  ghost predicate SentHas(s: State, p: nat, i: nat) {
    p < |s.publishers| && s.publishers[p].at.Some? && i < s.publishers[p].at.value && i < |s.hub.subscribers| ==>
      Has(s.hub, s.hub.subscribers[i], Current(s, p))
  }

  lemma SentStays(s: State, a: Action, p: nat, i: nat)
    requires Sane(s.hub) && Enabled(s, a) && SentHas(s, p, i)
    ensures SentHas(Apply(s, a), p, i)
  {
    var s' := Apply(s, a);
    if p < |s'.publishers| && s'.publishers[p].at.Some? && i < s'.publishers[p].at.value && i < |s'.hub.subscribers| {
      if a == Send(p) && s.publishers[p].at.value == i {
        NowHas(s, p);
      } else {
        HasStays(s, a, s.hub.subscribers[i], Current(s, p));
      }
    }
  }

  lemma PublishedStays(s: State, a: Action, k: nat, i: nat)
    requires Sane(s.hub) && Enabled(s, a) && PublishedHas(s, k, i) && forall p :: SentHas(s, p, i)
    ensures PublishedHas(Apply(s, a), k, i)
  {
    var s' := Apply(s, a);
    if k < |s.published| && i < |s.published[k].subscribers| {
      HasStays(s, a, s.published[k].subscribers[i], s.published[k].event);
    } else if a.End? && k == |s.published| && i < |s.hub.subscribers| {
      assert SentHas(s, a.p, i);
    }
  }

  ghost predicate BrokerInv(s: State) {
    && Sane(s.hub)
    && (forall ch :: 0 <= ch < |s.hub.channels| ==> ChannelInOrder(s, ch))
    && (forall p, i :: SentHas(s, p, i))
    && (forall k, i :: PublishedHas(s, k, i))
  }

  lemma StepKeepsInv(s: State, a: Action)
    requires BrokerInv(s) && Enabled(s, a)
    ensures BrokerInv(Apply(s, a))
  {
    var s' := Apply(s, a);
    HubStaysSane(s, a);
    forall ch | 0 <= ch < |s'.hub.channels| ensures ChannelInOrder(s', ch) { ChannelStaysInOrder(s, a, ch); }
    forall p, i ensures SentHas(s', p, i) { SentStays(s, a, p, i); }
    forall k, i ensures PublishedHas(s', k, i) { PublishedStays(s, a, k, i); }
  }

  lemma {:induction false} LeadsKeepsInv(s: State, actions: seq<Action>, s': State)
    requires BrokerInv(s) && Leads(s, actions, s')
    ensures BrokerInv(s')
    decreases |actions|
  {
    if actions != [] {
      StepKeepsInv(s, actions[0]);
      LeadsKeepsInv(Apply(s, actions[0]), actions[1..], s');
    }
  }

  /** Every subscriber gets each publisher's events in that publisher's order and without
      duplicates, in every interleaving. */
  lemma DeliveredInOrder(n: nat, actions: seq<Action>, s: State, ch: nat, i: nat, j: nat)
    requires Leads(Init(n), actions, s) && ch < |s.hub.channels| && i < j < |s.hub.channels[ch].delivered|
    requires s.hub.channels[ch].delivered[i].publisher == s.hub.channels[ch].delivered[j].publisher
    ensures s.hub.channels[ch].delivered[i].number < s.hub.channels[ch].delivered[j].number
  {
    LeadsKeepsInv(Init(n), actions, s);
    assert ChannelInOrder(s, ch);
  }

  /** Everyone subscribed during a publication gets the event or loses it, never both. */
  lemma DeliveredOrLost(n: nat, actions: seq<Action>, s: State, publication: Publication, ch: nat)
    requires Leads(Init(n), actions, s) && publication in s.published && ch in publication.subscribers
    ensures ch < |s.hub.channels|
    ensures publication.event in s.hub.channels[ch].delivered <==> publication.event !in s.hub.channels[ch].lost
  {
    LeadsKeepsInv(Init(n), actions, s);
    var k :| 0 <= k < |s.published| && s.published[k] == publication;
    var i :| 0 <= i < |publication.subscribers| && publication.subscribers[i] == ch;
    assert PublishedHas(s, k, i);
    assert ChannelInOrder(s, ch);
  }

  /** An event is lost only by a send to a subscriber whose buffer holds 100 events. */
  lemma LostOnlyWhenFull(n: nat, actions: seq<Action>, s: State, a: Action, ch: nat)
    requires Leads(Init(n), actions, s) && Enabled(s, a) && ch < |s.hub.channels|
    requires Apply(s, a).hub.channels[ch].lost != s.hub.channels[ch].lost
    ensures a.Send? && ch in s.hub.subscribers
    ensures |s.hub.channels[ch].delivered| - s.hub.channels[ch].taken == CAPACITY
  {
    LeadsSane(Init(n), actions, s);
  }

  /** While a publication is under way nobody comes or goes. */
  lemma {:induction false} PublishingKeepsSubscribers(s: State, actions: seq<Action>, s': State, p: nat)
    requires Leads(s, actions, s') && IsAt(s, p) && End(p) !in actions
    ensures IsAt(s', p) && s'.hub.subscribers == s.hub.subscribers && s'.publishers[p].next == s.publishers[p].next
    decreases |actions|
  {
    if actions != [] {
      assert actions[0] in actions && forall a :: a in actions[1..] ==> a in actions;
      PublishingKeepsSubscribers(Apply(s, actions[0]), actions[1..], s', p);
    }
  }

  /** Whoever is subscribed when a publication begins has got the event, or missed it, but not
      both, when it is about to end, and the publication is recorded with its subscribers. */
  lemma PublicationReachesAll(n: nat, before: seq<Action>, s: State, p: nat, after: seq<Action>, s': State, ch: nat)
    requires Leads(Init(n), before, s) && Enabled(s, Begin(p)) && ch in s.hub.subscribers
    requires Leads(Apply(s, Begin(p)), after, s') && End(p) !in after && Enabled(s', End(p))
    ensures ch < |s'.hub.channels|
    ensures var e, c := Event(p, s.publishers[p].next), s'.hub.channels[ch];
            && (e in c.delivered <==> e !in c.lost)
            && Apply(s', End(p)).published == s'.published + [Publication(e, s.hub.subscribers)]
  {
    var s1 := Apply(s, Begin(p));
    LeadsKeepsInv(Init(n), before, s);
    StepKeepsInv(s, Begin(p));
    LeadsKeepsInv(s1, after, s');
    PublishingKeepsSubscribers(s1, after, s', p);
    var i :| 0 <= i < |s'.hub.subscribers| && s'.hub.subscribers[i] == ch;
    assert SentHas(s', p, i);
    assert ChannelInOrder(s', ch);
  }

  function Ends(actions: seq<Action>, p: nat): nat {
    if actions == [] then 0 else (if actions[0] == End(p) then 1 else 0) + Ends(actions[1..], p)
  }

  lemma {:induction false} EventsAreCounted(s: State, actions: seq<Action>, s': State, p: nat)
    requires Leads(s, actions, s') && p < |s.publishers|
    ensures p < |s'.publishers| && s'.publishers[p].next == s.publishers[p].next + Ends(actions, p)
    decreases |actions|
  {
    if actions != [] { EventsAreCounted(Apply(s, actions[0]), actions[1..], s', p); }
  }

  function Receipts(actions: seq<Action>, ch: nat): nat {
    if actions == [] then 0 else (if actions[0] == Receive(ch) then 1 else 0) + Receipts(actions[1..], ch)
  }

  function Taken(h: Hub, ch: nat): nat {
    if ch < |h.channels| then h.channels[ch].taken else 0
  }

  lemma {:induction false} TakenIsReceived(s: State, actions: seq<Action>, s': State, ch: nat)
    requires Leads(s, actions, s') && Sane(s.hub)
    ensures Taken(s'.hub, ch) == Taken(s.hub, ch) + Receipts(actions, ch)
    ensures ch < |s.hub.channels| ==> ch < |s'.hub.channels| && s.hub.channels[ch].delivered <= s'.hub.channels[ch].delivered
    decreases |actions|
  {
    if actions != [] {
      HubStaysSane(s, actions[0]);
      TakenIsReceived(Apply(s, actions[0]), actions[1..], s', ch);
    }
  }

  /** Publishers number their events from 0 on, and a channel is received from in the order
      of its deliveries: the `k`-th receipt takes the `k`-th event ever delivered. */
  lemma ReceivedInOrder(n: nat, before: seq<Action>, s: State, ch: nat, after: seq<Action>, s': State)
    requires Leads(Init(n), before, s) && Enabled(s, Receive(ch)) && Leads(s, after, s')
    ensures forall p :: 0 <= p < |s.publishers| ==> s.publishers[p].next == Ends(before, p)
    ensures var k := Receipts(before, ch);
            && k < |s.hub.channels[ch].delivered| && ch < |s'.hub.channels| && k < |s'.hub.channels[ch].delivered|
            && s.hub.channels[ch].delivered[s.hub.channels[ch].taken] == s'.hub.channels[ch].delivered[k]
  {
    LeadsSane(Init(n), before, s);
    TakenIsReceived(Init(n), before, s, ch);
    TakenIsReceived(s, after, s', ch);
    PublishersStay(Init(n), before, s);
    forall p | 0 <= p < |s.publishers| ensures s.publishers[p].next == Ends(before, p) {
      EventsAreCounted(Init(n), before, s, p);
    }
  }

  lemma {:induction false} PublishersStay(s: State, actions: seq<Action>, s': State)
    requires Leads(s, actions, s')
    ensures |s'.publishers| == |s.publishers|
    decreases |actions|
  {
    if actions != [] { PublishersStay(Apply(s, actions[0]), actions[1..], s'); }
  }
}
