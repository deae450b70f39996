/** What the poller's timeline says about a session, over any run of polls.
    (internal/poller/poller.go) */
module PollerTraces {
  import opened Options
  import opened Text
  import opened Poller

  // ----- runs

  function MemoryAfter(polls: seq<Poll>, ratio: real): Memory {
    if polls == [] then Start() else Step(MemoryAfter(polls[..|polls| - 1], ratio), polls[|polls| - 1], ratio).0
  }

  function EventsAt(polls: seq<Poll>, k: nat, ratio: real): seq<Event>
    requires k < |polls|
  {
    Step(MemoryAfter(polls[..k], ratio), polls[k], ratio).1
  }

  lemma {:induction false} MemoryNext(polls: seq<Poll>, k: nat, ratio: real)
    requires k < |polls|
    ensures MemoryAfter(polls[..k + 1], ratio) == Step(MemoryAfter(polls[..k], ratio), polls[k], ratio).0
  {
    assert polls[..k + 1][..k] == polls[..k];
  }

  // ----- reachability

  lemma {:induction false} ReachableIs(polls: seq<Poll>, k: nat, ratio: real)
    requires k <= |polls|
    ensures MemoryAfter(polls[..k], ratio).reachable == if k == 0 then None else Some(polls[k - 1].Answered?)
  {
    if k > 0 { MemoryNext(polls, k - 1, ratio); }
  }

  predicate AboutBird(kind: EventKind) { kind.BirdUnreachable? || kind.BirdReachable? }

  lemma {:induction false} LimitsAreNoTransitions(name: string, channels: seq<ChannelDetail>, hits: map<string, bool>)
    ensures forall i | 0 <= i < |Limits(name, channels, hits).1| :: Limits(name, channels, hits).1[i].kind.LimitHit?
  {
    if channels != [] { LimitsAreNoTransitions(name, channels[..|channels| - 1], hits); }
  }

  lemma {:induction false} TrackedAreAboutSessions(m: Memory, poll: Poll, protocols: seq<Summary>, ratio: real)
    requires poll.Answered?
    ensures forall e | e in TrackAll(m, poll, protocols, ratio).1 :: !AboutBird(e.kind)
  {
    if protocols != [] {
      var n := |protocols| - 1;
      TrackedAreAboutSessions(m, poll, protocols[..n], ratio);
      var p := protocols[n];
      if poll.detail(p.name).Some? {
        var prior := Prior(m.states, p.name);
        LimitsAreNoTransitions(p.name, poll.detail(p.name).value, if prior.Some? then prior.value.limitHit else map[]);
      }
    }
  }

  ghost predicate TurnedUnreachable(polls: seq<Poll>, k: nat, ratio: real)
    requires k < |polls|
  {
    Event(BirdUnreachable, "") in EventsAt(polls, k, ratio)
  }

  ghost predicate TurnedReachable(polls: seq<Poll>, k: nat, ratio: real)
    requires k < |polls|
  {
    Event(BirdReachable, "") in EventsAt(polls, k, ratio)
  }

  /** The daemon's reachability is alerted on exactly when it changed from the poll before. */
  lemma {:induction false} ReachabilityEdges(polls: seq<Poll>, k: nat, ratio: real)
    requires k < |polls|
    ensures TurnedUnreachable(polls, k, ratio) <==> k > 0 && polls[k - 1].Answered? && polls[k].Unanswered?
    ensures TurnedReachable(polls, k, ratio) <==> k > 0 && polls[k - 1].Unanswered? && polls[k].Answered?
  {
    ReachableIs(polls, k, ratio);
    if polls[k].Answered? { TrackedAreAboutSessions(MemoryAfter(polls[..k], ratio), polls[k], polls[k].protocols, ratio); }
  }

  /** The two alerts alternate on the timeline: between two of one kind lies one of the other. */
  lemma {:induction false} ReachabilityAlternates(polls: seq<Poll>, i: nat, j: nat, ratio: real)
    requires i < j < |polls|
    ensures TurnedUnreachable(polls, i, ratio) && TurnedUnreachable(polls, j, ratio) ==>
              exists m | i < m < j :: TurnedReachable(polls, m, ratio)
    ensures TurnedReachable(polls, i, ratio) && TurnedReachable(polls, j, ratio) ==>
              exists m | i < m < j :: TurnedUnreachable(polls, m, ratio)
  {
    ReachabilityEdges(polls, i, ratio);
    ReachabilityEdges(polls, j, ratio);
    if (TurnedUnreachable(polls, i, ratio) && TurnedUnreachable(polls, j, ratio))
       || (TurnedReachable(polls, i, ratio) && TurnedReachable(polls, j, ratio)) {
      var m := AnswerChanges(polls, i, j - 1);
      ReachabilityEdges(polls, m, ratio);
    }
  }

  /** The first poll after `i`, up to `j`, that went the other way. */
  lemma {:induction false} AnswerChanges(polls: seq<Poll>, i: nat, j: nat) returns (m: nat)
    requires i < j < |polls| && polls[i].Answered? != polls[j].Answered?
    ensures i < m <= j && polls[m].Answered? != polls[i].Answered? && polls[m - 1].Answered? == polls[i].Answered?
    decreases j - i
  {
    if polls[i + 1].Answered? != polls[i].Answered? { m := i + 1; } else { m := AnswerChanges(polls, i + 1, j); }
  }

  // ----- one protocol's events

  predicate Named(events: seq<Event>, name: string) { forall k | 0 <= k < |events| :: events[k].protocol == name }

  lemma {:induction false} LimitsNamed(name: string, channels: seq<ChannelDetail>, hits: map<string, bool>)
    ensures Named(Limits(name, channels, hits).1, name)
  {
    if channels != [] { LimitsNamed(name, channels[..|channels| - 1], hits); }
  }

  lemma {:induction false} TrackNamed(prior: Option<ProtoState>, first: bool, now: int, disabled: bool, proto: Summary,
                                      detail: Option<seq<ChannelDetail>>, ratio: real)
    ensures Named(Track(prior, first, now, disabled, proto, detail, ratio).1, proto.name)
  {
    if detail.Some? { LimitsNamed(proto.name, detail.value, if prior.Some? then prior.value.limitHit else map[]); }
  }

  function Of(events: seq<Event>, name: string): seq<Event> {
    if events == [] then []
    else Of(events[..|events| - 1], name) + if events[|events| - 1].protocol == name then [events[|events| - 1]] else []
  }

  lemma {:induction false} OfConcat(a: seq<Event>, b: seq<Event>, name: string)
    ensures Of(a + b, name) == Of(a, name) + Of(b, name)
    decreases |b|
  {
    if b == [] {
      assert a + b == a;
    } else {
      assert (a + b)[..|a + b| - 1] == a + b[..|b| - 1];
      OfConcat(a, b[..|b| - 1], name);
    }
  }

  lemma {:induction false} OfNamed(events: seq<Event>, name: string, other: string)
    requires Named(events, name)
    ensures Of(events, other) == if other == name then events else []
  {
    if events != [] { OfNamed(events[..|events| - 1], name, other); }
  }

  /** The one line of a poll about a protocol. */
  predicate Lists(poll: Poll, name: string, i: nat)
    requires poll.Answered?
  {
    && i < |poll.protocols| && poll.protocols[i].name == name
    && forall j | 0 <= j < |poll.protocols| && j != i :: poll.protocols[j].name != name
  }

  /** The fold over a poll's lines, whatever is done with each. */
  function Fold(track: Summary -> (ProtoState, seq<Event>), protocols: seq<Summary>): (map<string, ProtoState>, seq<Event>) {
    if protocols == [] then (map[], [])
    else
      var before := Fold(track, protocols[..|protocols| - 1]);
      var p := protocols[|protocols| - 1];
      (before.0[p.name := track(p).0], before.1 + track(p).1)
  }

  function Tracker(m: Memory, poll: Poll, ratio: real): Summary -> (ProtoState, seq<Event>)
    requires poll.Answered?
  {
    (p: Summary) =>
      Track(Prior(m.states, p.name), !m.initialized, poll.now, p.name in poll.disabled, p, poll.detail(p.name), ratio)
  }

  lemma {:induction false} TrackAllIsFold(m: Memory, poll: Poll, protocols: seq<Summary>, ratio: real)
    requires poll.Answered?
    ensures TrackAll(m, poll, protocols, ratio) == Fold(Tracker(m, poll, ratio), protocols)
  {
    if protocols != [] { TrackAllIsFold(m, poll, protocols[..|protocols| - 1], ratio); }
  }

  lemma {:induction false} FoldState(track: Summary -> (ProtoState, seq<Event>), protocols: seq<Summary>, name: string, i: nat)
    requires i < |protocols| && protocols[i].name == name
    requires forall j | 0 <= j < |protocols| && j != i :: protocols[j].name != name
    ensures name in Fold(track, protocols).0 && Fold(track, protocols).0[name] == track(protocols[i]).0
  {
    var n := |protocols| - 1;
    if i < n { FoldState(track, protocols[..n], name, i); }
  }

  lemma {:induction false} OnlyMore(events: seq<Event>)
    ensures events + [] == events && [] + events == events
  {
  }

  lemma {:induction false} FoldSnoc(track: Summary -> (ProtoState, seq<Event>), before: seq<Summary>, p: Summary, name: string)
    requires Named(track(p).1, p.name)
    ensures Of(Fold(track, before + [p]).1, name) ==
            Of(Fold(track, before).1, name) + if p.name == name then track(p).1 else []
  {
    assert (before + [p])[..|before + [p]| - 1] == before;
    OfConcat(Fold(track, before).1, track(p).1, name);
    OfNamed(track(p).1, p.name, name);
  }

  lemma {:induction false} FoldEvents(track: Summary -> (ProtoState, seq<Event>), protocols: seq<Summary>, name: string, i: nat)
    requires forall j | 0 <= j < |protocols| && j != i :: protocols[j].name != name
    requires i < |protocols| ==> protocols[i].name == name
    requires forall j | 0 <= j < |protocols| :: Named(track(protocols[j]).1, protocols[j].name)
    ensures Of(Fold(track, protocols).1, name) == if i < |protocols| then track(protocols[i]).1 else []
  {
    if protocols != [] {
      var n := |protocols| - 1;
      FoldEvents(track, protocols[..n], name, i);
      FoldSnoc(track, protocols[..n], protocols[n], name);
      assert protocols == protocols[..n] + [protocols[n]];
      if i < |protocols| { OnlyMore(track(protocols[i]).1); }
    }
  }

  lemma {:induction false} TrackAllOf(m: Memory, poll: Poll, name: string, i: nat, ratio: real)
    requires poll.Answered? && Lists(poll, name, i)
    ensures var all := TrackAll(m, poll, poll.protocols, ratio);
      name in all.0 && (all.0[name], Of(all.1, name)) == Tracker(m, poll, ratio)(poll.protocols[i])
  {
    var track := Tracker(m, poll, ratio);
    TrackAllIsFold(m, poll, poll.protocols, ratio);
    forall j | 0 <= j < |poll.protocols|
      ensures Named(track(poll.protocols[j]).1, poll.protocols[j].name)
    {
      var p := poll.protocols[j];
      TrackNamed(Prior(m.states, p.name), !m.initialized, poll.now, p.name in poll.disabled, p, poll.detail(p.name), ratio);
    }
    FoldState(track, poll.protocols, name, i);
    FoldEvents(track, poll.protocols, name, i);
  }

  /** The protocol is a BGP session, listed once by every poll that was answered. */
  ghost predicate Watched(polls: seq<Poll>, name: string) {
    && name != ""
    && forall k | 0 <= k < |polls| && polls[k].Answered? :: WatchedIn(polls[k], name)
  }

  ghost predicate WatchedIn(poll: Poll, name: string)
    requires poll.Answered?
  {
    exists i: nat :: Lists(poll, name, i) && poll.protocols[i].IsBGP()
  }

  /** What a poll says of it. */
  ghost function Line(poll: Poll, name: string): (p: Summary)
    requires poll.Answered? && WatchedIn(poll, name)
    ensures p.name == name && p.IsBGP()
  {
    var i: nat :| Lists(poll, name, i) && poll.protocols[i].IsBGP();
    poll.protocols[i]
  }

  ghost predicate Up(polls: seq<Poll>, k: nat, name: string)
    requires Watched(polls, name) && k < |polls| && polls[k].Answered?
  {
    TrimSpace(Line(polls[k], name).info) == "Established"
  }

  /** The detail of the session, when the poll has it. */
  ghost function Fetched(polls: seq<Poll>, k: nat, name: string): Option<seq<ChannelDetail>>
    requires Watched(polls, name) && k < |polls|
  {
    if polls[k].Answered? && Up(polls, k, name) then polls[k].detail(name) else None
  }

  function EventsFor(polls: seq<Poll>, k: nat, name: string, ratio: real): seq<Event>
    requires k < |polls|
  {
    Of(EventsAt(polls, k, ratio), name)
  }

  /** What is remembered of the session after `k` polls. */
  function StateAfter(polls: seq<Poll>, k: nat, name: string, ratio: real): Option<ProtoState>
    requires k <= |polls|
  {
    Prior(MemoryAfter(polls[..k], ratio).states, name)
  }

  /** The last poll before `k` that was answered. */
  function LastAnswered(polls: seq<Poll>, k: nat): (i: Option<nat>)
    requires k <= |polls|
    ensures i.Some? ==> i.value < k && polls[i.value].Answered? && forall j | i.value < j < k :: polls[j].Unanswered?
    ensures i.None? ==> forall j | 0 <= j < k :: polls[j].Unanswered?
  {
    if k == 0 then None else if polls[k - 1].Answered? then Some(k - 1) else LastAnswered(polls, k - 1)
  }

  /** A poll that fails leaves the session's state and timeline alone; one that is answered tracks
      it. */
  lemma {:induction false} PollOf(polls: seq<Poll>, k: nat, name: string, ratio: real)
    requires Watched(polls, name) && k < |polls|
    ensures polls[k].Unanswered? ==>
              StateAfter(polls, k + 1, name, ratio) == StateAfter(polls, k, name, ratio) && EventsFor(polls, k, name, ratio) == []
    ensures polls[k].Answered? ==>
              var one := Track(StateAfter(polls, k, name, ratio), LastAnswered(polls, k).None?, polls[k].now,
                               name in polls[k].disabled, Line(polls[k], name), polls[k].detail(name), ratio);
              StateAfter(polls, k + 1, name, ratio) == Some(one.0) && EventsFor(polls, k, name, ratio) == one.1
  {
    var m := MemoryAfter(polls[..k], ratio);
    MemoryNext(polls, k, ratio);
    InitializedIs(polls, k, ratio);
    if polls[k].Unanswered? {
      OfNamed(Step(m, polls[k], ratio).1, "", name);
    } else {
      var poll := polls[k];
      var i: nat :| Lists(poll, name, i) && poll.protocols[i] == Line(poll, name);
      TrackAllOf(m, poll, name, i, ratio);
      var reach := if m.reachable == Some(false) then [Event(BirdReachable, "")] else [];
      OfNamed(reach, "", name);
      OfConcat(reach, TrackAll(m, poll, poll.protocols, ratio).1, name);
    }
  }

  /** A protocol that is not BGP gives rise to nothing. */
  lemma {:induction false} OnlySessionsSpeak(polls: seq<Poll>, k: nat, name: string, i: nat, ratio: real)
    requires name != "" && k < |polls| && polls[k].Answered? && Lists(polls[k], name, i)
    requires polls[k].protocols[i].proto != "BGP"
    ensures EventsFor(polls, k, name, ratio) == []
  {
    var m := MemoryAfter(polls[..k], ratio);
    TrackAllOf(m, polls[k], name, i, ratio);
    var reach := BackAgain(m);
    OfNamed(reach, "", name);
    OfConcat(reach, TrackAll(m, polls[k], polls[k].protocols, ratio).1, name);
  }

  lemma {:induction false} InitializedIs(polls: seq<Poll>, k: nat, ratio: real)
    requires k <= |polls|
    ensures MemoryAfter(polls[..k], ratio).initialized <==> LastAnswered(polls, k).Some?
  {
    if k > 0 {
      MemoryNext(polls, k - 1, ratio);
      InitializedIs(polls, k - 1, ratio);
    }
  }

  lemma {:induction false} StateIs(polls: seq<Poll>, k: nat, name: string, ratio: real)
    requires Watched(polls, name) && k <= |polls|
    ensures StateAfter(polls, k, name, ratio).Some? <==> LastAnswered(polls, k).Some?
    ensures LastAnswered(polls, k).Some? ==>
              StateAfter(polls, k, name, ratio).value.up == Up(polls, LastAnswered(polls, k).value, name)
  {
    if k > 0 {
      var n: nat := k - 1;
      StateIs(polls, n, name, ratio);
      PollOf(polls, n, name, ratio);
      if polls[n].Answered? {
        TrackUp(StateAfter(polls, n, name, ratio), LastAnswered(polls, n).None?, polls[n].now, name in polls[n].disabled,
                Line(polls[n], name), polls[n].detail(name), ratio);
      }
    }
  }

  lemma {:induction false} TrackUp(prior: Option<ProtoState>, first: bool, now: int, off: bool, proto: Summary,
                                   detail: Option<seq<ChannelDetail>>, ratio: real)
    ensures Track(prior, first, now, off, proto, detail, ratio).0.up == proto.IsUp()
  {
  }

  // ----- transitions

  predicate IsTransition(kind: EventKind) { kind.SessionDown? || kind.SessionUp? || kind.Flap? }

  /** An observed change: the session is up or down where the last answered poll had it otherwise. */
  ghost predicate Changed(polls: seq<Poll>, k: nat, name: string)
    requires Watched(polls, name) && k < |polls|
  {
    && polls[k].Answered? && LastAnswered(polls, k).Some?
    && Up(polls, k, name) != Up(polls, LastAnswered(polls, k).value, name)
  }

  /** When the session last changed before poll `k`, or was first seen. */
  ghost function ChangeTime(polls: seq<Poll>, k: nat, name: string): int
    requires Watched(polls, name) && k <= |polls|
  {
    if k == 0 then 0
    else if polls[k - 1].Answered? && (LastAnswered(polls, k - 1).None? || Changed(polls, k - 1, name)) then polls[k - 1].now
    else ChangeTime(polls, k - 1, name)
  }

  lemma {:induction false} TrackTime(prior: Option<ProtoState>, first: bool, now: int, off: bool, proto: Summary,
                                     detail: Option<seq<ChannelDetail>>, ratio: real)
    ensures Track(prior, first, now, off, proto, detail, ratio).0.lastChange ==
            if prior.None? || (!first && prior.value.up != proto.IsUp()) then now else prior.value.lastChange
  {
  }

  /** A poll moves the time of the last change when it is the first answered one or sees a change. */
  lemma {:induction false} ChangeTimeStep(polls: seq<Poll>, k: nat, name: string, ratio: real)
    requires Watched(polls, name) && k < |polls| && polls[k].Answered?
    ensures StateAfter(polls, k + 1, name, ratio).Some?
    ensures StateAfter(polls, k + 1, name, ratio).value.lastChange ==
            if StateAfter(polls, k, name, ratio).None? || Changed(polls, k, name) then polls[k].now
            else StateAfter(polls, k, name, ratio).value.lastChange
  {
    PollOf(polls, k, name, ratio);
    StateIs(polls, k, name, ratio);
    TrackTime(StateAfter(polls, k, name, ratio), LastAnswered(polls, k).None?, polls[k].now,
              name in polls[k].disabled, Line(polls[k], name), polls[k].detail(name), ratio);
  }

  lemma {:induction false} ChangeTimeIs(polls: seq<Poll>, k: nat, name: string, ratio: real)
    requires Watched(polls, name) && k <= |polls|
    ensures StateAfter(polls, k, name, ratio).Some? ==>
              StateAfter(polls, k, name, ratio).value.lastChange == ChangeTime(polls, k, name)
  {
    if k > 0 {
      ChangeTimeIs(polls, k - 1, name, ratio);
      if polls[k - 1].Answered? {
        StateIs(polls, k - 1, name, ratio);
        ChangeTimeStep(polls, k - 1, name, ratio);
      } else {
        PollOf(polls, k - 1, name, ratio);
      }
    }
  }

  /** The kind of event a change calls for: going up soon after the last change is a flap. */
  ghost function Expected(polls: seq<Poll>, k: nat, name: string): EventKind
    requires Watched(polls, name) && k < |polls| && polls[k].Answered?
  {
    if !Up(polls, k, name) then SessionDown
    else if polls[k].now - ChangeTime(polls, k, name) < 180 then Flap
    else SessionUp
  }

  /** A change to tell of: the model does not have the session switched off. */
  ghost predicate Told(polls: seq<Poll>, k: nat, name: string)
    requires Watched(polls, name) && k < |polls|
  {
    Changed(polls, k, name) && name !in polls[k].disabled
  }

  /** The transitions on the timeline are the observed changes, one event each, but for those of a session
      that is switched off: a failed poll adds none, and a change is not lost because polls failed around it. */
  lemma {:induction false} TransitionsAreChanges(polls: seq<Poll>, k: nat, name: string, ratio: real, e: Event)
    requires Watched(polls, name) && k < |polls| && IsTransition(e.kind)
    ensures e in EventsFor(polls, k, name, ratio) <==>
              Told(polls, k, name) && e == Event(Expected(polls, k, name), name)
    ensures Told(polls, k, name) ==>
              && EventsFor(polls, k, name, ratio) != []
              && EventsFor(polls, k, name, ratio)[0] == Event(Expected(polls, k, name), name)
              && forall i | 1 <= i < |EventsFor(polls, k, name, ratio)| :: !IsTransition(EventsFor(polls, k, name, ratio)[i].kind)
  {
    PollOf(polls, k, name, ratio);
    StateIs(polls, k, name, ratio);
    ChangeTimeIs(polls, k, name, ratio);
    if polls[k].Answered? {
      TrackTransitions(StateAfter(polls, k, name, ratio), LastAnswered(polls, k).None?, polls[k].now,
                       name in polls[k].disabled, Line(polls[k], name), polls[k].detail(name), ratio);
      OnlyTransition(EventsFor(polls, k, name, ratio), e);
    }
  }

  /** A transition, if there is one, is the first of a poll's events. */
  lemma {:induction false} OnlyTransition(events: seq<Event>, e: Event)
    requires IsTransition(e.kind) && forall i | 1 <= i < |events| :: !IsTransition(events[i].kind)
    ensures e in events <==> events != [] && events[0] == e
  {
  }

  lemma {:induction false} TrackTransitions(prior: Option<ProtoState>, first: bool, now: int, off: bool, proto: Summary,
                                            detail: Option<seq<ChannelDetail>>, ratio: real)
    requires proto.IsBGP()
    ensures var events := Track(prior, first, now, off, proto, detail, ratio).1;
      if !off && !first && (prior.None? || prior.value.up != proto.IsUp()) then
        && events != [] && events[0] == Event(TransitionKind(proto.IsUp(), prior, now), proto.name)
        && forall i | 1 <= i < |events| :: !IsTransition(events[i].kind)
      else forall i | 0 <= i < |events| :: !IsTransition(events[i].kind)
  {
    if detail.Some? {
      LimitsAreNoTransitions(proto.name, detail.value, if prior.Some? then prior.value.limitHit else map[]);
    }
  }

  ghost predicate WentDown(polls: seq<Poll>, k: nat, name: string, ratio: real)
    requires k < |polls|
  {
    Event(SessionDown, name) in EventsFor(polls, k, name, ratio)
  }

  ghost predicate CameUp(polls: seq<Poll>, k: nat, name: string, ratio: real)
    requires k < |polls|
  {
    Event(SessionUp, name) in EventsFor(polls, k, name, ratio) || Event(Flap, name) in EventsFor(polls, k, name, ratio)
  }

  ghost predicate AlwaysOn(polls: seq<Poll>, name: string) {
    forall k | 0 <= k < |polls| && polls[k].Answered? :: name !in polls[k].disabled
  }

  lemma {:induction false} ChangeIsEvent(polls: seq<Poll>, k: nat, name: string, ratio: real)
    requires Watched(polls, name) && AlwaysOn(polls, name) && k < |polls|
    ensures WentDown(polls, k, name, ratio) <==> Changed(polls, k, name) && !Up(polls, k, name)
    ensures CameUp(polls, k, name, ratio) <==> Changed(polls, k, name) && Up(polls, k, name)
  {
    TransitionsAreChanges(polls, k, name, ratio, Event(SessionDown, name));
    TransitionsAreChanges(polls, k, name, ratio, Event(SessionUp, name));
    TransitionsAreChanges(polls, k, name, ratio, Event(Flap, name));
  }

  lemma {:induction false} OtherBetween(polls: seq<Poll>, i: nat, j: nat, name: string, ratio: real) returns (m: nat)
    requires Watched(polls, name) && AlwaysOn(polls, name) && i < j < |polls| && Changed(polls, i, name) && Changed(polls, j, name)
    requires Up(polls, i, name) == Up(polls, j, name)
    ensures i < m < j && if Up(polls, i, name) then WentDown(polls, m, name, ratio) else CameUp(polls, m, name, ratio)
  {
    m := FirstOther(polls, i, LastAnswered(polls, j).value, name);
    ChangeIsEvent(polls, m, name, ratio);
  }

  /** Down alternates with up-or-flap on the timeline of a session that is never switched off: between
      two of one kind lies one of the other. */
  lemma {:induction false} TransitionsAlternate(polls: seq<Poll>, i: nat, j: nat, name: string, ratio: real)
    requires Watched(polls, name) && AlwaysOn(polls, name) && i < j < |polls|
    ensures WentDown(polls, i, name, ratio) && WentDown(polls, j, name, ratio) ==>
              exists m | i < m < j :: CameUp(polls, m, name, ratio)
    ensures CameUp(polls, i, name, ratio) && CameUp(polls, j, name, ratio) ==>
              exists m | i < m < j :: WentDown(polls, m, name, ratio)
  {
    ChangeIsEvent(polls, i, name, ratio);
    ChangeIsEvent(polls, j, name, ratio);
    if Changed(polls, i, name) && Changed(polls, j, name) && Up(polls, i, name) == Up(polls, j, name) {
      var m := OtherBetween(polls, i, j, name, ratio);
    }
  }

  /** The first poll after `i`, up to `p`, that saw the session otherwise than poll `i` did. */
  lemma {:induction false} FirstOther(polls: seq<Poll>, i: nat, p: nat, name: string) returns (m: nat)
    requires Watched(polls, name) && i < p < |polls| && polls[i].Answered? && polls[p].Answered?
    requires Up(polls, p, name) != Up(polls, i, name)
    ensures i < m <= p && Changed(polls, m, name) && Up(polls, m, name) != Up(polls, i, name)
    decreases p - i
  {
    m := i + 1;
    while !(polls[m].Answered? && Up(polls, m, name) != Up(polls, i, name))
      invariant i < m <= p
      invariant forall x | i <= x < m && polls[x].Answered? :: Up(polls, x, name) == Up(polls, i, name)
      decreases p - m
    {
      m := m + 1;
    }
  }

  // ----- import limits

  /** The poll fetched a channel of this address family below its limit. */
  ghost predicate SawBelow(polls: seq<Poll>, k: nat, name: string, afi: string)
    requires Watched(polls, name) && k < |polls|
  {
    Fetched(polls, k, name).Some? && HasBelow(Fetched(polls, k, name).value, afi)
  }

  predicate HasBelow(channels: seq<ChannelDetail>, afi: string) {
    exists c | c in channels :: c.afi == afi && c.limit.Some? && c.limit.value > 0 && c.imported < c.limit.value
  }

  lemma {:induction false} LimitFlag(name: string, channels: seq<ChannelDetail>, hits: map<string, bool>, afi: string)
    requires !HasBelow(channels, afi)
    ensures var (h, events) := Limits(name, channels, hits);
      && (WasHit(hits, afi) ==> WasHit(h, afi) && Event(LimitHit(afi), name) !in events)
      && (Event(LimitHit(afi), name) in events ==> WasHit(h, afi))
  {
    if channels != [] {
      var n := |channels| - 1;
      assert forall c | c in channels[..n] :: c in channels;
      LimitFlag(name, channels[..n], hits, afi);
      assert channels[n] in channels;
    }
  }

  /** The state's flags before a poll. */
  function FlagsOf(s: Option<ProtoState>): map<string, bool> { if s.Some? then s.value.limitHit else map[] }

  lemma {:induction false} TrackFlags(prior: Option<ProtoState>, first: bool, now: int, off: bool, proto: Summary,
                                      detail: Option<seq<ChannelDetail>>, ratio: real, afi: string)
    requires proto.IsBGP() && (proto.IsUp() && detail.Some? ==> !HasBelow(detail.value, afi))
    ensures var one := Track(prior, first, now, off, proto, detail, ratio);
      && (WasHit(FlagsOf(prior), afi) ==> WasHit(one.0.limitHit, afi) && Event(LimitHit(afi), proto.name) !in one.1)
      && (Event(LimitHit(afi), proto.name) in one.1 ==> WasHit(one.0.limitHit, afi))
  {
    if proto.IsUp() && detail.Some? { LimitFlag(proto.name, detail.value, FlagsOf(prior), afi); }
  }

  lemma {:induction false} FlagsNext(polls: seq<Poll>, k: nat, name: string, ratio: real, afi: string)
    requires Watched(polls, name) && k < |polls| && !SawBelow(polls, k, name, afi)
    ensures WasHit(FlagsOf(StateAfter(polls, k, name, ratio)), afi) ==>
              && WasHit(FlagsOf(StateAfter(polls, k + 1, name, ratio)), afi)
              && Event(LimitHit(afi), name) !in EventsFor(polls, k, name, ratio)
    ensures Event(LimitHit(afi), name) in EventsFor(polls, k, name, ratio) ==>
              WasHit(FlagsOf(StateAfter(polls, k + 1, name, ratio)), afi)
  {
    PollOf(polls, k, name, ratio);
    if polls[k].Answered? {
      TrackFlags(StateAfter(polls, k, name, ratio), LastAnswered(polls, k).None?, polls[k].now,
                 name in polls[k].disabled, Line(polls[k], name), polls[k].detail(name), ratio, afi);
    }
  }

  lemma {:induction false} FlagStays(polls: seq<Poll>, i: nat, k: nat, name: string, ratio: real, afi: string)
    requires Watched(polls, name) && i <= k <= |polls|
    requires forall m | i <= m < k :: !SawBelow(polls, m, name, afi)
    requires WasHit(FlagsOf(StateAfter(polls, i, name, ratio)), afi)
    ensures WasHit(FlagsOf(StateAfter(polls, k, name, ratio)), afi)
  {
    if i < k {
      FlagStays(polls, i, k - 1, name, ratio, afi);
      FlagsNext(polls, k - 1, name, ratio, afi);
    }
  }

  /** A fetch raises an alert only for a channel at its limit; with one channel per address family it
      then saw none below. */
  lemma {:induction false} AlertMeansAtLimit(polls: seq<Poll>, k: nat, name: string, ratio: real, afi: string)
    requires Watched(polls, name) && k < |polls| && OneChannelEach(polls, k, name)
    requires Event(LimitHit(afi), name) in EventsFor(polls, k, name, ratio)
    ensures Fetched(polls, k, name).Some? && !SawBelow(polls, k, name, afi)
  {
    LimitsNext(polls, k, name, ratio, afi);
  }

  /** A session has one channel per address family. */
  ghost predicate OneChannelEach(polls: seq<Poll>, k: nat, name: string)
    requires Watched(polls, name) && k < |polls|
  {
    Fetched(polls, k, name).Some? ==>
      var c := Fetched(polls, k, name).value; forall x, y | 0 <= x < y < |c| :: c[x].afi != c[y].afi
  }

  /** Between two limit alerts for one session and address family a fetch saw it below the limit. */
  lemma {:induction false} LimitAlertsAreSeparated(polls: seq<Poll>, i: nat, j: nat, name: string, ratio: real, afi: string)
    requires Watched(polls, name) && i < j < |polls| && OneChannelEach(polls, i, name) && OneChannelEach(polls, j, name)
    requires Event(LimitHit(afi), name) in EventsFor(polls, i, name, ratio)
    requires Event(LimitHit(afi), name) in EventsFor(polls, j, name, ratio)
    ensures exists m | i < m < j :: SawBelow(polls, m, name, afi)
  {
    AlertMeansAtLimit(polls, i, name, ratio, afi);
    AlertMeansAtLimit(polls, j, name, ratio, afi);
    if forall m | i < m < j :: !SawBelow(polls, m, name, afi) {
      FlagsNext(polls, i, name, ratio, afi);
      FlagStays(polls, i + 1, j, name, ratio, afi);
      FlagsNext(polls, j, name, ratio, afi);
      assert false;
    }
  }

  // ----- prefix drops

  /** The fetch a drop is measured against: the last one that worked, with the session up in every
      answered poll since. */
  ghost predicate Baseline(polls: seq<Poll>, i: nat, k: nat, name: string)
    requires Watched(polls, name) && k <= |polls|
  {
    && i < k && Fetched(polls, i, name).Some?
    && forall m | i < m < k && polls[m].Answered? :: Up(polls, m, name) && Fetched(polls, m, name).None?
  }

  lemma {:induction false} TrackImported(prior: Option<ProtoState>, first: bool, now: int, off: bool, proto: Summary,
                                         detail: Option<seq<ChannelDetail>>, ratio: real)
    requires proto.IsBGP()
    ensures Track(prior, first, now, off, proto, detail, ratio).0.imported ==
            if !proto.IsUp() then 0
            else if detail.Some? then TotalImported(detail.value)
            else if prior.Some? then prior.value.imported else 0
  {
  }

  lemma {:induction false} ImportedNext(polls: seq<Poll>, k: nat, name: string, ratio: real)
    requires Watched(polls, name) && k < |polls|
    ensures var s, s' := StateAfter(polls, k, name, ratio), StateAfter(polls, k + 1, name, ratio);
      if polls[k].Unanswered? then s' == s
      else
        && s'.Some?
        && s'.value.imported ==
             if Fetched(polls, k, name).Some? then TotalImported(Fetched(polls, k, name).value)
             else if Up(polls, k, name) && s.Some? then s.value.imported else 0
  {
    PollOf(polls, k, name, ratio);
    if polls[k].Answered? {
      TrackImported(StateAfter(polls, k, name, ratio), LastAnswered(polls, k).None?, polls[k].now,
                    name in polls[k].disabled, Line(polls[k], name), polls[k].detail(name), ratio);
    }
  }

  lemma {:induction false} BaselineNext(polls: seq<Poll>, i: nat, k: nat, name: string)
    requires Watched(polls, name) && k < |polls| && Baseline(polls, i, k, name)
    requires polls[k].Answered? ==> Up(polls, k, name) && Fetched(polls, k, name).None?
    ensures Baseline(polls, i, k + 1, name)
  {
  }

  /** What the baseline fetch counted. */
  ghost predicate Counted(polls: seq<Poll>, k: nat, name: string, count: nat)
    requires Watched(polls, name) && k <= |polls|
  {
    exists i: nat :: Baseline(polls, i, k, name) && TotalImported(Fetched(polls, i, name).value) == count
  }

  lemma {:induction false} CountedNow(polls: seq<Poll>, k: nat, name: string)
    requires Watched(polls, name) && k < |polls| && Fetched(polls, k, name).Some?
    ensures Counted(polls, k + 1, name, TotalImported(Fetched(polls, k, name).value))
  {
    assert Baseline(polls, k, k + 1, name);
  }

  lemma {:induction false} CountedStill(polls: seq<Poll>, k: nat, name: string, count: nat)
    requires Watched(polls, name) && k < |polls| && Counted(polls, k, name, count)
    requires polls[k].Answered? ==> Up(polls, k, name) && Fetched(polls, k, name).None?
    ensures Counted(polls, k + 1, name, count)
  {
    var i: nat :| Baseline(polls, i, k, name) && TotalImported(Fetched(polls, i, name).value) == count;
    BaselineNext(polls, i, k, name);
  }

  /** What is remembered as imported is what the baseline fetch counted. */
  lemma {:induction false} ImportedIs(polls: seq<Poll>, k: nat, name: string, ratio: real)
    requires Watched(polls, name) && k <= |polls|
    ensures StateAfter(polls, k, name, ratio).Some? && StateAfter(polls, k, name, ratio).value.imported > 0 ==>
              Counted(polls, k, name, StateAfter(polls, k, name, ratio).value.imported)
  {
    if k > 0 {
      var n: nat := k - 1;
      ImportedIs(polls, n, name, ratio);
      ImportedNext(polls, n, name, ratio);
      var s' := StateAfter(polls, k, name, ratio);
      if s'.Some? && s'.value.imported > 0 {
        if Fetched(polls, n, name).Some? { CountedNow(polls, n, name); } else { CountedStill(polls, n, name, s'.value.imported); }
      }
    }
  }

  lemma {:induction false} LimitsAreNoDrops(name: string, channels: seq<ChannelDetail>, hits: map<string, bool>, e: Event)
    requires e.kind.PrefixDrop?
    ensures e !in Limits(name, channels, hits).1
  {
    LimitsAreNoTransitions(name, channels, hits);
  }

  lemma {:induction false} InOneOfThree(a: seq<Event>, b: seq<Event>, c: seq<Event>, e: Event)
    requires e in a + b + c
    ensures e in a || e in b || e in c
  {
  }

  lemma {:induction false} TrackDrops(prior: Option<ProtoState>, first: bool, now: int, off: bool, proto: Summary,
                                      detail: Option<seq<ChannelDetail>>, ratio: real, before: nat, after: nat)
    requires proto.IsBGP()
    requires Event(PrefixDrop(before, after), proto.name) in Track(prior, first, now, off, proto, detail, ratio).1
    ensures proto.IsUp() && detail.Some? && TotalImported(detail.value) == after
    ensures prior.Some? && prior.value.imported == before >= DROP_BASELINE && (after as real) <= (before as real) * ratio
  {
    if proto.IsUp() && detail.Some? {
      var e, imported := Event(PrefixDrop(before, after), proto.name), TotalImported(detail.value);
      var changed := !first && (prior.None? || prior.value.up != proto.IsUp());
      var transition := if changed then [Event(TransitionKind(true, prior, now), proto.name)] else [];
      var drop := if Drops(prior, first, ratio, imported) then [Event(PrefixDrop(prior.value.imported, imported), proto.name)] else [];
      LimitsAreNoDrops(proto.name, detail.value, FlagsOf(prior), e);
      assert Track(prior, first, now, off, proto, detail, ratio).1 ==
             transition + Limits(proto.name, detail.value, FlagsOf(prior)).1 + drop;
      InOneOfThree(transition, Limits(proto.name, detail.value, FlagsOf(prior)).1, drop, e);
    }
  }

  /** A prefix drop compares two fetches that worked: a failed one neither raises it nor moves what
      it is measured against. */
  lemma {:induction false} DropsAreReal(polls: seq<Poll>, j: nat, name: string, ratio: real, before: nat, after: nat)
    requires Watched(polls, name) && j < |polls|
    requires Event(PrefixDrop(before, after), name) in EventsFor(polls, j, name, ratio)
    ensures Fetched(polls, j, name).Some? && TotalImported(Fetched(polls, j, name).value) == after
    ensures before >= DROP_BASELINE && (after as real) <= (before as real) * ratio
    ensures Counted(polls, j, name, before)
  {
    PollOf(polls, j, name, ratio);
    ImportedIs(polls, j, name, ratio);
    if polls[j].Answered? {
      TrackDrops(StateAfter(polls, j, name, ratio), LastAnswered(polls, j).None?, polls[j].now,
                 name in polls[j].disabled, Line(polls[j], name), polls[j].detail(name), ratio, before, after);
    }
  }

  // ----- nothing is missed

  predicate OneEach(channels: seq<ChannelDetail>) {
    forall x, y | 0 <= x < y < |channels| :: channels[x].afi != channels[y].afi
  }

  predicate HasAt(channels: seq<ChannelDetail>, afi: string) {
    exists c | c in channels :: c.afi == afi && c.limit.Some? && 0 < c.limit.value <= c.imported
  }

  /** The poll fetched a channel of this address family at its limit. */
  ghost predicate SawAt(polls: seq<Poll>, k: nat, name: string, afi: string)
    requires Watched(polls, name) && k < |polls|
  {
    Fetched(polls, k, name).Some? && HasAt(Fetched(polls, k, name).value, afi)
  }

  lemma {:induction false} HasMore(channels: seq<ChannelDetail>, c: ChannelDetail, afi: string)
    ensures HasAt(channels + [c], afi) <==> HasAt(channels, afi) || (c.afi == afi && c.AtLimit())
    ensures HasBelow(channels + [c], afi) <==> HasBelow(channels, afi) || (c.afi == afi && c.BelowLimit())
  {
    var all := channels + [c];
    assert all[|channels|] == c;
    forall x | x in channels
      ensures x in all
    {
      var i :| 0 <= i < |channels| && channels[i] == x;
      assert all[i] == x;
    }
  }

  /** One channel's part in the flags and events of a fetch. */
  function OneLimit(name: string, c: ChannelDetail, hits: map<string, bool>): (map<string, bool>, seq<Event>) {
    if !c.Limited() then (hits, [])
    else (hits[c.afi := c.AtLimit()], if c.AtLimit() && !WasHit(hits, c.afi) then [Event(LimitHit(c.afi), name)] else [])
  }

  lemma {:induction false} LimitsSnoc(name: string, channels: seq<ChannelDetail>, c: ChannelDetail, hits: map<string, bool>)
    ensures var before := Limits(name, channels, hits);
      Limits(name, channels + [c], hits) == (OneLimit(name, c, before.0).0, before.1 + OneLimit(name, c, before.0).1)
  {
    assert (channels + [c])[..|channels|] == channels;
    OnlyMore(Limits(name, channels, hits).1);
  }

  lemma {:induction false} OneLimitMeans(name: string, c: ChannelDetail, hits: map<string, bool>, afi: string)
    ensures var (h, events) := OneLimit(name, c, hits);
      && (WasHit(h, afi) <==> (c.afi == afi && c.AtLimit()) || (WasHit(hits, afi) && !(c.afi == afi && c.BelowLimit())))
      && (Event(LimitHit(afi), name) in events <==> c.afi == afi && c.AtLimit() && !WasHit(hits, afi))
  {
  }

  lemma {:induction false} EventIn(a: seq<Event>, b: seq<Event>, e: Event)
    ensures e in a + b <==> e in a || e in b
  {
  }

  lemma {:induction false} NoneOfFamily(channels: seq<ChannelDetail>, afi: string)
    requires forall x | 0 <= x < |channels| :: channels[x].afi != afi
    ensures !HasAt(channels, afi) && !HasBelow(channels, afi)
  {
  }

  /** One fetch with one channel per address family: the flag follows what it saw, and there is an
      alert exactly when it saw the limit with the flag down. */
  lemma {:induction false} LimitsExactly(name: string, channels: seq<ChannelDetail>, hits: map<string, bool>, afi: string)
    requires OneEach(channels)
    ensures WasHit(Limits(name, channels, hits).0, afi) <==>
              HasAt(channels, afi) || (WasHit(hits, afi) && !HasBelow(channels, afi))
    ensures Event(LimitHit(afi), name) in Limits(name, channels, hits).1 <==> HasAt(channels, afi) && !WasHit(hits, afi)
    ensures !(HasAt(channels, afi) && HasBelow(channels, afi))
  {
    if channels != [] {
      var n := |channels| - 1;
      var rest, c := channels[..n], channels[n];
      assert channels == rest + [c];
      var before := Limits(name, rest, hits);
      LimitsExactly(name, rest, hits, afi);
      LimitsSnoc(name, rest, c, hits);
      OneLimitMeans(name, c, before.0, afi);
      EventIn(before.1, OneLimit(name, c, before.0).1, Event(LimitHit(afi), name));
      HasMore(rest, c, afi);
      if c.afi == afi { NoneOfFamily(rest, afi); }
    }
  }

  lemma {:induction false} TrackLimitsExactly(prior: Option<ProtoState>, first: bool, now: int, off: bool, proto: Summary,
                                              detail: Option<seq<ChannelDetail>>, ratio: real, afi: string)
    requires proto.IsBGP() && (detail.Some? ==> OneEach(detail.value))
    ensures var one := Track(prior, first, now, off, proto, detail, ratio);
      var at := proto.IsUp() && detail.Some? && HasAt(detail.value, afi);
      var below := proto.IsUp() && detail.Some? && HasBelow(detail.value, afi);
      && (WasHit(one.0.limitHit, afi) <==> at || (WasHit(FlagsOf(prior), afi) && !below))
      && (Event(LimitHit(afi), proto.name) in one.1 <==> at && !WasHit(FlagsOf(prior), afi))
      && !(at && below)
  {
    if proto.IsUp() && detail.Some? { LimitsExactly(proto.name, detail.value, FlagsOf(prior), afi); }
  }

  lemma {:induction false} LimitsNext(polls: seq<Poll>, k: nat, name: string, ratio: real, afi: string)
    requires Watched(polls, name) && k < |polls| && OneChannelEach(polls, k, name)
    ensures var hit := WasHit(FlagsOf(StateAfter(polls, k, name, ratio)), afi);
      && (WasHit(FlagsOf(StateAfter(polls, k + 1, name, ratio)), afi) <==>
            SawAt(polls, k, name, afi) || (hit && !SawBelow(polls, k, name, afi)))
      && (Event(LimitHit(afi), name) in EventsFor(polls, k, name, ratio) <==> SawAt(polls, k, name, afi) && !hit)
      && !(SawAt(polls, k, name, afi) && SawBelow(polls, k, name, afi))
  {
    PollOf(polls, k, name, ratio);
    if polls[k].Answered? {
      var detail := if Up(polls, k, name) then polls[k].detail(name) else None;
      TrackLimitsExactly(StateAfter(polls, k, name, ratio), LastAnswered(polls, k).None?, polls[k].now,
                         name in polls[k].disabled, Line(polls[k], name), detail, ratio, afi);
    }
  }

  /** An alert stands before poll `k`: a fetch saw the limit, and none since saw the family below it. */
  ghost predicate Standing(polls: seq<Poll>, k: nat, name: string, afi: string)
    requires Watched(polls, name) && k <= |polls|
  {
    exists j | 0 <= j < k :: SawAt(polls, j, name, afi) && NeverBelow(polls, j, k, name, afi)
  }

  ghost predicate NeverBelow(polls: seq<Poll>, j: nat, k: nat, name: string, afi: string)
    requires Watched(polls, name) && k <= |polls|
  {
    forall m | j <= m < k :: !SawBelow(polls, m, name, afi)
  }

  lemma {:induction false} StandingNext(polls: seq<Poll>, k: nat, name: string, afi: string)
    requires Watched(polls, name) && k < |polls| && !(SawAt(polls, k, name, afi) && SawBelow(polls, k, name, afi))
    ensures Standing(polls, k + 1, name, afi) <==>
              SawAt(polls, k, name, afi) || (Standing(polls, k, name, afi) && !SawBelow(polls, k, name, afi))
  {
    if SawAt(polls, k, name, afi) {
      assert NeverBelow(polls, k, k + 1, name, afi);
    } else if Standing(polls, k, name, afi) && !SawBelow(polls, k, name, afi) {
      var j :| 0 <= j < k && SawAt(polls, j, name, afi) && NeverBelow(polls, j, k, name, afi);
      assert NeverBelow(polls, j, k + 1, name, afi);
    } else if Standing(polls, k + 1, name, afi) {
      var j :| 0 <= j < k + 1 && SawAt(polls, j, name, afi) && NeverBelow(polls, j, k + 1, name, afi);
      assert NeverBelow(polls, j, k, name, afi);
    }
  }

  lemma {:induction false} FlagIsStanding(polls: seq<Poll>, k: nat, name: string, ratio: real, afi: string)
    requires Watched(polls, name) && k <= |polls| && forall j | 0 <= j < k :: OneChannelEach(polls, j, name)
    ensures WasHit(FlagsOf(StateAfter(polls, k, name, ratio)), afi) <==> Standing(polls, k, name, afi)
  {
    if k > 0 {
      FlagIsStanding(polls, k - 1, name, ratio, afi);
      LimitsNext(polls, k - 1, name, ratio, afi);
      StandingNext(polls, k - 1, name, afi);
    }
  }

  /** A limit alert is raised exactly when a fetch sees a family at its limit while no alert for it
      stands: none is missed, none repeated, and failed polls change nothing. */
  lemma {:induction false} LimitAlertsExactly(polls: seq<Poll>, k: nat, name: string, ratio: real, afi: string)
    requires Watched(polls, name) && k < |polls| && forall j | 0 <= j <= k :: OneChannelEach(polls, j, name)
    ensures Event(LimitHit(afi), name) in EventsFor(polls, k, name, ratio) <==>
              SawAt(polls, k, name, afi) && !Standing(polls, k, name, afi)
  {
    FlagIsStanding(polls, k, name, ratio, afi);
    LimitsNext(polls, k, name, ratio, afi);
  }

  lemma {:induction false} BaselineUp(polls: seq<Poll>, i: nat, k: nat, name: string)
    requires Watched(polls, name) && k <= |polls| && Baseline(polls, i, k, name)
    ensures LastAnswered(polls, k).Some? && i <= LastAnswered(polls, k).value && Up(polls, LastAnswered(polls, k).value, name)
  {
    var last := LastAnswered(polls, k);
    assert polls[i].Answered? && Up(polls, i, name);
    if last.Some? && last.value > i { assert polls[last.value].Answered?; }
  }

  lemma {:induction false} BaselineBefore(polls: seq<Poll>, i: nat, k: nat, name: string)
    requires Watched(polls, name) && i < k < |polls| && Baseline(polls, i, k + 1, name)
    ensures Baseline(polls, i, k, name) && (polls[k].Answered? ==> Up(polls, k, name) && Fetched(polls, k, name).None?)
  {
  }

  /** The state before a poll remembers the baseline's count. */
  lemma {:induction false} BaselineRemembered(polls: seq<Poll>, i: nat, k: nat, name: string, ratio: real)
    requires Watched(polls, name) && k <= |polls| && Baseline(polls, i, k, name)
    ensures StateAfter(polls, k, name, ratio).Some?
    ensures StateAfter(polls, k, name, ratio).value.imported == TotalImported(Fetched(polls, i, name).value)
    decreases k
  {
    var n: nat := k - 1;
    ImportedNext(polls, n, name, ratio);
    if i < n {
      BaselineBefore(polls, i, n, name);
      BaselineRemembered(polls, i, n, name, ratio);
    }
  }

  predicate FarEnough(before: nat, after: nat, ratio: real) {
    ratio > 0.0 && before >= 1000 && (after as real) <= (before as real) * ratio
  }

  lemma {:induction false} TrackDropsExactly(prior: Option<ProtoState>, proto: Summary, now: int, off: bool,
                                             channels: seq<ChannelDetail>, ratio: real, before: nat, after: nat)
    requires proto.IsBGP() && proto.IsUp() && prior.Some? && prior.value.up
    requires FarEnough(before, after, ratio) && prior.value.imported == before && TotalImported(channels) == after
    ensures Event(PrefixDrop(before, after), proto.name) in Track(prior, false, now, off, proto, Some(channels), ratio).1
  {
    var events := Track(prior, false, now, off, proto, Some(channels), ratio).1;
    assert events[|events| - 1] == Event(PrefixDrop(before, after), proto.name);
  }

  lemma {:induction false} NoDropWithoutRatio(prior: Option<ProtoState>, first: bool, now: int, off: bool, proto: Summary,
                                              detail: Option<seq<ChannelDetail>>, ratio: real, before: nat, after: nat)
    requires proto.IsBGP() && ratio <= 0.0
    ensures Event(PrefixDrop(before, after), proto.name) !in Track(prior, first, now, off, proto, detail, ratio).1
  {
    if proto.IsUp() && detail.Some? {
      LimitsAreNoDrops(proto.name, detail.value, FlagsOf(prior), Event(PrefixDrop(before, after), proto.name));
    }
  }

  lemma {:induction false} DropReported(polls: seq<Poll>, i: nat, k: nat, name: string, ratio: real, before: nat, after: nat)
    requires Watched(polls, name) && k < |polls| && Baseline(polls, i, k, name) && Fetched(polls, k, name).Some?
    requires TotalImported(Fetched(polls, i, name).value) == before && TotalImported(Fetched(polls, k, name).value) == after
    requires FarEnough(before, after, ratio)
    ensures Event(PrefixDrop(before, after), name) in EventsFor(polls, k, name, ratio)
  {
    PollOf(polls, k, name, ratio);
    BaselineRemembered(polls, i, k, name, ratio);
    BaselineUp(polls, i, k, name);
    StateIs(polls, k, name, ratio);
    TrackDropsExactly(StateAfter(polls, k, name, ratio), Line(polls[k], name), polls[k].now, name in polls[k].disabled,
                      Fetched(polls, k, name).value, ratio, before, after);
  }

  lemma {:induction false} DropIsFar(polls: seq<Poll>, k: nat, name: string, ratio: real, before: nat, after: nat)
    requires Watched(polls, name) && k < |polls| && Event(PrefixDrop(before, after), name) in EventsFor(polls, k, name, ratio)
    ensures FarEnough(before, after, ratio)
  {
    DropsAreReal(polls, k, name, ratio, before, after);
    PollOf(polls, k, name, ratio);
    if ratio <= 0.0 && polls[k].Answered? {
      NoDropWithoutRatio(StateAfter(polls, k, name, ratio), LastAnswered(polls, k).None?, polls[k].now,
                         name in polls[k].disabled, Line(polls[k], name), polls[k].detail(name), ratio, before, after);
    }
  }

  /** The fetches a drop compares. */
  ghost predicate Fell(polls: seq<Poll>, k: nat, name: string, before: nat, after: nat)
    requires Watched(polls, name) && k < |polls|
  {
    && Fetched(polls, k, name).Some? && TotalImported(Fetched(polls, k, name).value) == after
    && Counted(polls, k, name, before)
  }

  lemma {:induction false} DropFell(polls: seq<Poll>, k: nat, name: string, ratio: real, before: nat, after: nat)
    requires Watched(polls, name) && k < |polls| && Event(PrefixDrop(before, after), name) in EventsFor(polls, k, name, ratio)
    ensures Fell(polls, k, name, before, after)
  {
    DropsAreReal(polls, k, name, ratio, before, after);
  }

  /** A drop is reported exactly when drops are watched for and a fetch finds at most the ratio of
      what the baseline fetch counted, if that was large enough to matter. */
  lemma {:induction false} DropsExactly(polls: seq<Poll>, k: nat, name: string, ratio: real, before: nat, after: nat)
    requires Watched(polls, name) && k < |polls|
    ensures Event(PrefixDrop(before, after), name) in EventsFor(polls, k, name, ratio) <==>
              FarEnough(before, after, ratio) && Fell(polls, k, name, before, after)
  {
    if Event(PrefixDrop(before, after), name) in EventsFor(polls, k, name, ratio) {
      DropIsFar(polls, k, name, ratio, before, after);
      DropFell(polls, k, name, ratio, before, after);
    }
    if FarEnough(before, after, ratio) && Fell(polls, k, name, before, after) {
      var i: nat :| Baseline(polls, i, k, name) && TotalImported(Fetched(polls, i, name).value) == before;
      DropReported(polls, i, k, name, ratio, before, after);
    }
  }
}
