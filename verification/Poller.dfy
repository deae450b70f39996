/** Edge-triggered events over runs of polls, any of which may fail.
    (internal/poller/poller.go, poll, recordTransition, updateImportLimits and checkPrefixDrop) */
module Poller {
  import opened Options
  import opened Text

  // ----- what a poll sees

  datatype Summary = Summary(name: string, proto: string, state: string, info: string) {
    predicate IsBGP() { proto == "BGP" }

    predicate IsUp() { if IsBGP() then TrimSpace(info) == "Established" else state == "up" }
  }

  /** The import limit is None when it does not read as a number. */
  datatype ChannelDetail = ChannelDetail(afi: string, imported: nat, limit: Option<int>) {
    predicate Limited() { limit.Some? && limit.value > 0 }

    predicate AtLimit() { Limited() && imported >= limit.value }

    predicate BelowLimit() { Limited() && imported < limit.value }
  }

  /** A poll that could not list the protocols, or what it found: `disabled` is empty when the
      model could not be read, and a detail fetch may fail on its own. */
  datatype Poll =
    | Unanswered
    | Answered(now: int, protocols: seq<Summary>, disabled: set<string>, detail: string -> Option<seq<ChannelDetail>>)

  datatype EventKind =
    | SessionDown | SessionUp | Flap
    | LimitHit(afi: string)
    | PrefixDrop(before: nat, after: nat)
    | BirdUnreachable | BirdReachable

  datatype Event = Event(kind: EventKind, protocol: string)

  // ----- what the poller remembers

  datatype ProtoState = ProtoState(up: bool, lastChange: int, limitHit: map<string, bool>, imported: nat,
                                   channels: Option<seq<ChannelDetail>>)

  /** `reachable` is None until the first poll. */
  datatype Memory = Memory(initialized: bool, reachable: Option<bool>, states: map<string, ProtoState>)

  const FLAP_WINDOW := 180
  const DROP_BASELINE := 1000

  function TotalImported(channels: seq<ChannelDetail>): nat {
    if channels == [] then 0 else TotalImported(channels[..|channels| - 1]) + channels[|channels| - 1].imported
  }

  function WasHit(hits: map<string, bool>, afi: string): bool { afi in hits && hits[afi] }

  /** The limit flags and events one detail fetch leaves, channel by channel. */
  function Limits(name: string, channels: seq<ChannelDetail>, hits: map<string, bool>): (map<string, bool>, seq<Event>) {
    if channels == [] then (hits, [])
    else
      var (h, events) := Limits(name, channels[..|channels| - 1], hits);
      var c := channels[|channels| - 1];
      if !c.Limited() then (h, events)
      else (h[c.afi := c.AtLimit()], events + if c.AtLimit() && !WasHit(h, c.afi) then [Event(LimitHit(c.afi), name)] else [])
  }

  function TransitionKind(up: bool, prior: Option<ProtoState>, now: int): EventKind {
    if !up then SessionDown
    else if prior.Some? && now - prior.value.lastChange < FLAP_WINDOW then Flap
    else SessionUp
  }

  function Drops(prior: Option<ProtoState>, first: bool, ratio: real, imported: nat): bool {
    && !first && prior.Some? && ratio > 0.0 && prior.value.up && prior.value.imported >= DROP_BASELINE
    && (imported as real) <= (prior.value.imported as real) * ratio
  }

  /** One protocol in one poll: what is remembered of it, and what it gives rise to. */
  function Track(prior: Option<ProtoState>, first: bool, now: int, disabled: bool, proto: Summary,
                 detail: Option<seq<ChannelDetail>>, ratio: real): (ProtoState, seq<Event>) {
    var up := proto.IsUp();
    var changed := !first && (prior.None? || prior.value.up != up);
    var lastChange := if changed || prior.None? then now else prior.value.lastChange;
    var hits := if prior.Some? then prior.value.limitHit else map[];
    var transition :=
      if changed && proto.IsBGP() && !disabled then [Event(TransitionKind(up, prior, now), proto.name)] else [];
    if !(proto.IsBGP() && up) then (ProtoState(up, lastChange, hits, 0, None), transition)
    else
      match detail
      case None =>
        (ProtoState(up, lastChange, hits, if prior.Some? then prior.value.imported else 0,
                    if prior.Some? then prior.value.channels else None), transition)
      case Some(channels) =>
        var (h, limits) := Limits(proto.name, channels, hits);
        var imported := TotalImported(channels);
        (ProtoState(up, lastChange, h, imported, Some(channels)),
         transition + limits
         + if Drops(prior, first, ratio, imported)
           then [Event(PrefixDrop(prior.value.imported, imported), proto.name)] else [])
  }

  function Prior(states: map<string, ProtoState>, name: string): Option<ProtoState> {
    if name in states then Some(states[name]) else None
  }

  /** All protocols of one poll, in order. */
  function TrackAll(m: Memory, poll: Poll, protocols: seq<Summary>, ratio: real): (map<string, ProtoState>, seq<Event>)
    requires poll.Answered?
  {
    if protocols == [] then (map[], [])
    else
      var (states, events) := TrackAll(m, poll, protocols[..|protocols| - 1], ratio);
      var p := protocols[|protocols| - 1];
      var (state, more) :=
        Track(Prior(m.states, p.name), !m.initialized, poll.now, p.name in poll.disabled, p, poll.detail(p.name), ratio);
      (states[p.name := state], events + more)
  }

  /** One poll. */
  function Step(m: Memory, poll: Poll, ratio: real): (Memory, seq<Event>) {
    match poll
    case Unanswered =>
      (m.(reachable := Some(false)), if m.reachable == Some(true) then [Event(BirdUnreachable, "")] else [])
    case Answered(_, protocols, _, _) =>
      var (states, events) := TrackAll(m, poll, protocols, ratio);
      (Memory(true, Some(true), states),
       BackAgain(m) + events)
  }

  function BackAgain(m: Memory): seq<Event> { if m.reachable == Some(false) then [Event(BirdReachable, "")] else [] }

  // ----- the poller

  class Monitor {
    const dropRatio: real
    var initialized: bool
    var birdReachable: bool
    var reachableKnown: bool
    var states: map<string, ProtoState>
    var events: seq<Event>

    function Remembers(): Memory
      reads this
    {
      Memory(initialized, if reachableKnown then Some(birdReachable) else None, states)
    }

    constructor (dropRatio: real)
      ensures this.dropRatio == dropRatio && Remembers() == Start() && events == []
    {
      this.dropRatio := dropRatio;
      initialized, birdReachable, reachableKnown, states, events := false, false, false, map[], [];
    }

    method Emit(kind: EventKind, protocol: string)
      modifies `events
      ensures events == old(events) + [Event(kind, protocol)]
    {
      events := events + [Event(kind, protocol)];
    }

    /** Reads a successful detail fetch channel by channel. */
    method UpdateImportLimits(name: string, channels: seq<ChannelDetail>, hits: map<string, bool>)
      returns (hits': map<string, bool>, imported: nat)
      modifies `events
      ensures hits' == Limits(name, channels, hits).0 && imported == TotalImported(channels)
      ensures events == old(events) + Limits(name, channels, hits).1
    {
      hits', imported := hits, 0;
      for k := 0 to |channels|
        invariant hits' == Limits(name, channels[..k], hits).0 && imported == TotalImported(channels[..k])
        invariant events == old(events) + Limits(name, channels[..k], hits).1
      {
        var ch := channels[k];
        assert channels[..k + 1][..k] == channels[..k];
        imported := imported + ch.imported;
        if ch.Limited() {
          if ch.AtLimit() && !WasHit(hits', ch.afi) { Emit(LimitHit(ch.afi), name); }
          hits' := hits'[ch.afi := ch.AtLimit()];
        }
      }
      assert channels[..|channels|] == channels;
    }

    method RecordTransition(proto: Summary, prior: Option<ProtoState>, now: int)
      modifies `events
      ensures events == old(events) + [Event(TransitionKind(proto.IsUp(), prior, now), proto.name)]
    {
      var kind := SessionDown;
      if proto.IsUp() {
        kind := SessionUp;
        if prior.Some? && now - prior.value.lastChange < FLAP_WINDOW { kind := Flap; }
      }
      Emit(kind, proto.name);
    }

    method CheckPrefixDrop(name: string, prior: Option<ProtoState>, first: bool, imported: nat)
      modifies `events
      ensures events == old(events) + if Drops(prior, first, dropRatio, imported)
                                      then [Event(PrefixDrop(prior.value.imported, imported), name)] else []
    {
      if first || prior.None? || dropRatio <= 0.0 { return; }
      if !prior.value.up || prior.value.imported < DROP_BASELINE { return; }
      if (imported as real) <= (prior.value.imported as real) * dropRatio {
        Emit(PrefixDrop(prior.value.imported, imported), name);
      }
    }

    method TrackProtocol(proto: Summary, prior: Option<ProtoState>, first: bool, now: int, disabled: bool,
                         detail: Option<seq<ChannelDetail>>)
      returns (state: ProtoState)
      modifies `events
      ensures state == Track(prior, first, now, disabled, proto, detail, dropRatio).0
      ensures events == old(events) + Track(prior, first, now, disabled, proto, detail, dropRatio).1
    {
      var up := proto.IsUp();
      state := ProtoState(up, now, map[], 0, None);
      if prior.Some? {
        state := state.(lastChange := prior.value.lastChange, limitHit := prior.value.limitHit);
      }
      if !first && (prior.None? || prior.value.up != up) {
        state := state.(lastChange := now);
        if proto.IsBGP() && !disabled { RecordTransition(proto, prior, now); }
      }
      if proto.IsBGP() && up {
        if detail.Some? {
          var hits, imported := UpdateImportLimits(proto.name, detail.value, state.limitHit);
          state := state.(limitHit := hits, imported := imported, channels := detail);
          CheckPrefixDrop(proto.name, prior, first, imported);
        } else if prior.Some? {
          state := state.(imported := prior.value.imported, channels := prior.value.channels);
        }
      }
    }

    /** Adds one protocol to the next map of states. */
    method TrackStep(poll: Poll, k: nat, next: map<string, ProtoState>, ghost before: seq<Event>)
      returns (next': map<string, ProtoState>)
      requires poll.Answered? && k < |poll.protocols|
      requires next == TrackAll(Remembers(), poll, poll.protocols[..k], dropRatio).0
      requires events == before + TrackAll(Remembers(), poll, poll.protocols[..k], dropRatio).1
      modifies `events
      ensures next' == TrackAll(Remembers(), poll, poll.protocols[..k + 1], dropRatio).0
      ensures events == before + TrackAll(Remembers(), poll, poll.protocols[..k + 1], dropRatio).1
    {
      TrackNext(Remembers(), poll, k, dropRatio);
      ghost var middle := events;
      var proto := poll.protocols[k];
      var state := TrackProtocol(proto, Prior(states, proto.name), !initialized, poll.now, proto.name in poll.disabled,
                                 poll.detail(proto.name));
      next' := next[proto.name := state];
      Associates(before, TrackAll(Remembers(), poll, poll.protocols[..k], dropRatio).1, events[|middle|..]);
    }

    /** Builds the next map of states, protocol by protocol. */
    method TrackProtocols(poll: Poll) returns (next: map<string, ProtoState>)
      requires poll.Answered?
      modifies `events
      ensures next == TrackAll(Remembers(), poll, poll.protocols, dropRatio).0
      ensures events == old(events) + TrackAll(Remembers(), poll, poll.protocols, dropRatio).1
    {
      next := map[];
      ghost var before := events;
      var k := 0;
      while k < |poll.protocols|
        invariant 0 <= k <= |poll.protocols|
        invariant next == TrackAll(Remembers(), poll, poll.protocols[..k], dropRatio).0
        invariant events == before + TrackAll(Remembers(), poll, poll.protocols[..k], dropRatio).1
      {
        next := TrackStep(poll, k, next, before);
        k := k + 1;
      }
      assert poll.protocols[..k] == poll.protocols;
    }

    /** One tick of the loop. */
    method PollOnce(poll: Poll)
      modifies this
      ensures Remembers() == Step(old(Remembers()), poll, dropRatio).0
      ensures events == old(events) + Step(old(Remembers()), poll, dropRatio).1
    {
      if poll.Unanswered? {
        if reachableKnown && birdReachable { Emit(BirdUnreachable, ""); }
        birdReachable, reachableKnown := false, true;
        return;
      }
      ghost var m, was := Remembers(), events;
      ghost var back := BackAgain(m);
      Nothing(events);
      if reachableKnown && !birdReachable { Emit(BirdReachable, ""); }
      assert events == was + back;
      birdReachable, reachableKnown := true, true;
      TrackIgnoresReachable(m, Remembers(), poll, poll.protocols, dropRatio);
      var next := TrackProtocols(poll);
      Associates(was, back, TrackAll(m, poll, poll.protocols, dropRatio).1);
      initialized, states := true, next;
    }
  }

  lemma {:induction false} Associates(a: seq<Event>, b: seq<Event>, c: seq<Event>)
    ensures a + b + c == a + (b + c)
  {
  }

  lemma {:induction false} Nothing(a: seq<Event>)
    ensures a + [] == a
  {
  }

  lemma {:induction false} TrackNext(m: Memory, poll: Poll, k: nat, ratio: real)
    requires poll.Answered? && k < |poll.protocols|
    ensures var p := poll.protocols[k];
      var before, after := TrackAll(m, poll, poll.protocols[..k], ratio), TrackAll(m, poll, poll.protocols[..k + 1], ratio);
      var one := Track(Prior(m.states, p.name), !m.initialized, poll.now, p.name in poll.disabled, p, poll.detail(p.name), ratio);
      after.0 == before.0[p.name := one.0] && after.1 == before.1 + one.1
  {
    assert poll.protocols[..k + 1][..k] == poll.protocols[..k];
  }

  lemma {:induction false} TrackIgnoresReachable(m: Memory, m': Memory, poll: Poll, protocols: seq<Summary>, ratio: real)
    requires poll.Answered? && m.initialized == m'.initialized && m.states == m'.states
    ensures TrackAll(m, poll, protocols, ratio) == TrackAll(m', poll, protocols, ratio)
  {
    if protocols != [] { TrackIgnoresReachable(m, m', poll, protocols[..|protocols| - 1], ratio); }
  }

  function Start(): Memory { Memory(false, None, map[]) }
}
