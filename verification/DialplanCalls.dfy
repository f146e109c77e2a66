/** The dialplan's events arriving at the status machine, among the traffic of other calls. */
module DialplanCalls {
  import opened Prelude
  import opened CallStorage
  import opened CallCommands
  import opened EventHandling
  import opened Projection
  import opened CallRuns
  import D = Dialplan

  /** The AMI message a UserEvent action becomes. */
  function MessageOf(a: D.Action): Message
    requires a.UserEvent?
  {
    map["UserEvent" := a.name, "RequestID" := a.requestId] +
    if a.channel.Some? then map["Channel" := a.channel.value] else map[]
  }

  /** The commands a trace feeds to the handler; `clock(k)` is when its k-th action ran. */
  function CommandsOf(trace: seq<D.Action>, clock: int -> Time): seq<Command> {
    if trace == [] then []
    else
      var k := |trace| - 1;
      CommandsOf(trace[..k], clock) +
      if trace[k].UserEvent? then [DecodeUserEvent(MessageOf(trace[k]), clock(k))] else []
  }

  ghost predicate IsScript(trace: seq<D.Action>, id: Id, channel: string) {
    exists code, repeat ::
      trace == D.SystemScript(code, repeat, id, channel) || trace == D.CustomScript(code, repeat, id, channel)
  }

  lemma {:induction false} ActionHasCommand(trace: seq<D.Action>, clock: int -> Time, k: nat)
    requires k < |trace| && trace[k].UserEvent?
    ensures DecodeUserEvent(MessageOf(trace[k]), clock(k)) in CommandsOf(trace, clock)
  {
    if k < |trace| - 1 {
      ActionHasCommand(trace[..|trace| - 1], clock, k);
    }
  }

  lemma {:induction false} SelectedWasThere(trace: seq<D.Action>, keep: D.Action -> bool, a: D.Action)
    ensures a in D.Select(trace, keep) <==> a in trace && keep(a)
  {
    if trace != [] {
      SelectedWasThere(trace[..|trace| - 1], keep, a);
      assert trace == trace[..|trace| - 1] + [trace[|trace| - 1]];
    }
  }

  lemma ScriptEvents(trace: seq<D.Action>, id: Id, channel: string)
    requires IsScript(trace, id, channel)
    ensures D.UserEvents(trace) == [D.StartEvent(id, channel), D.PlayingEvent(id), D.DoneEvent(id)]
  {
    var code, repeat :|
      trace == D.SystemScript(code, repeat, id, channel) || trace == D.CustomScript(code, repeat, id, channel);
    D.EventsInOrder(code, repeat, id, channel);
  }

  lemma ScriptFinishes(trace: seq<D.Action>, clock: int -> Time, id: Id, channel: string) returns (at: Time)
    requires IsScript(trace, id, channel) && id != "" && channel != ""
    ensures PlaybackDone(id, at) in CommandsOf(trace, clock)
  {
    var done := D.DoneEvent(id);
    ScriptEvents(trace, id, channel);
    assert D.UserEvents(trace)[2] == done;
    SelectedWasThere(trace, D.IsEvent, done);
    var k :| 0 <= k < |trace| && trace[k] == done;
    ActionHasCommand(trace, clock, k);
    at := clock(k);
    assert DecodeUserEvent(MessageOf(done), at) == PlaybackDone(id, at);
  }

  lemma {:induction false} CommandHasAction(trace: seq<D.Action>, clock: int -> Time, c: Command) returns (k: nat)
    requires c in CommandsOf(trace, clock)
    ensures k < |trace| && trace[k].UserEvent? && c == DecodeUserEvent(MessageOf(trace[k]), clock(k))
  {
    k := |trace| - 1;
    if c in CommandsOf(trace[..k], clock) {
      k := CommandHasAction(trace[..k], clock, c);
    }
  }

  /** The only announcement a script makes, in full or cut short, is of its own channel for its call. */
  lemma OnlyAnnouncement(trace: seq<D.Action>, clock: int -> Time, id: Id, channel: string, n: nat, c: Command)
    requires IsScript(trace, id, channel) && id != "" && channel != "" && n <= |trace|
    requires c in CommandsOf(trace[..n], clock) && c.CallStart?
    ensures c.id == id && c.bind == Some(channel)
  {
    var k := CommandHasAction(trace[..n], clock, c);
    ScriptEvents(trace, id, channel);
    SelectedWasThere(trace, D.IsEvent, trace[k]);
    assert trace[k] in [D.StartEvent(id, channel), D.PlayingEvent(id), D.DoneEvent(id)];
  }

  lemma DoneCompletes(db: Db, c: Command, db': Db, id: Id)
    requires Next(db, c, db') && c.PlaybackDone? && c.id == id && id in db.calls
    ensures StatusOf(db', id) == Some(Completed)
  {
    NamedStep(db, c, db', id);
  }

  /** Step `done` handles the completion a trace reports. */
  ghost predicate FinishesAt(cs: seq<Command>, trace: seq<D.Action>, clock: int -> Time, id: Id, done: nat) {
    done < |cs| && cs[done].PlaybackDone? && cs[done].id == id && cs[done] in CommandsOf(trace, clock)
  }

  /** A full run of either program completes its call, whatever status the call had, failures
      included, and whatever other calls do; and the call stays completed, hangups and all, exactly
      as long as no failure to originate is reported for it afterwards. */
  lemma FullRunCompletes(dbs: seq<Db>, cs: seq<Command>, id: Id, channel: string, trace: seq<D.Action>,
                         clock: int -> Time)
    requires Execution(dbs, cs) && LivesFrom(dbs, id, 0)
    requires IsScript(trace, id, channel) && id != "" && channel != ""
    requires forall c :: c in CommandsOf(trace, clock) ==> c in cs
    ensures exists done: nat :: FinishesAt(cs, trace, clock, id, done)
    ensures forall done: nat :: FinishesAt(cs, trace, clock, id, done) ==>
              && StatusOf(dbs[done + 1], id) == Some(Completed)
              && (StatusStays(dbs, id, Completed, done + 1) <==> NothingOverwrites(cs, id, Completed, done + 1))
  {
    var at := ScriptFinishes(trace, clock, id, channel);
    var k :| 0 <= k < |cs| && cs[k] == PlaybackDone(id, at);
    assert FinishesAt(cs, trace, clock, id, k);
    forall done: nat | FinishesAt(cs, trace, clock, id, done)
      ensures StatusOf(dbs[done + 1], id) == Some(Completed)
      ensures StatusStays(dbs, id, Completed, done + 1) <==> NothingOverwrites(cs, id, Completed, done + 1)
    {
      DoneCompletes(dbs[done], cs[done], dbs[done + 1], id);
      TerminalIsFinalIff(dbs, cs, id, done + 1, Completed);
    }
  }

  // ----- What a script feeds to the handler -----

  lemma {:induction false} CommandsUntil(trace: seq<D.Action>, clock: int -> Time, lo: nat, hi: nat)
    requires lo <= hi <= |trace| && forall k :: lo <= k < hi ==> !trace[k].UserEvent?
    ensures CommandsOf(trace[..hi], clock) == CommandsOf(trace[..lo], clock)
    decreases hi
  {
    if lo < hi {
      CommandsUntil(trace, clock, lo, hi - 1);
      assert trace[..hi][..hi - 1] == trace[..hi - 1];
    }
  }

  lemma CommandsNext(trace: seq<D.Action>, clock: int -> Time, k: nat)
    requires k < |trace| && trace[k].UserEvent?
    ensures CommandsOf(trace[..k + 1], clock) ==
            CommandsOf(trace[..k], clock) + [DecodeUserEvent(MessageOf(trace[k]), clock(k))]
  {
    assert trace[..k + 1][..k] == trace[..k];
  }

  /** Where the three events of a script are: the second action, the one before the rounds, and the last
      but one. */
  ghost predicate EventPlaces(trace: seq<D.Action>, id: Id, channel: string, j: nat) {
    && 1 < j < |trace| - 2
    && trace[1] == D.UserEvent("OTPCallStart", id, Some(channel))
    && trace[j] == D.UserEvent("OTPPlaybackStart", id, None)
    && trace[|trace| - 2] == D.UserEvent("OTPPlaybackComplete", id, None)
    && forall k :: 0 <= k < |trace| && trace[k].UserEvent? ==> k in {1, j, |trace| - 2}
  }

  lemma PlacesOf(trace: seq<D.Action>, opening: seq<D.Action>, block: seq<D.Action>, repeat: int, id: Id,
                 channel: string)
    requires trace == opening + D.Times(repeat, block) + D.Closing(id)
    requires opening == D.Opening(id, channel) + [D.PlayingEvent(id)]
             || opening == D.Opening(id, channel) + [D.SetLanguage("fa"), D.PlayingEvent(id)]
    requires forall a :: a in block ==> !a.UserEvent?
    ensures EventPlaces(trace, id, channel, |opening| - 1)
  {
    var rounds := D.Times(repeat, block);
    forall k | 0 <= k < |trace| && trace[k].UserEvent? ensures k in {1, |opening| - 1, |trace| - 2} {
      if |opening| <= k < |opening| + |rounds| {
        assert trace[k] == rounds[k - |opening|];
        D.TimesMember(repeat, block, trace[k]);
      }
    }
  }

  lemma ScriptPlaces(trace: seq<D.Action>, id: Id, channel: string) returns (j: nat)
    requires IsScript(trace, id, channel)
    ensures EventPlaces(trace, id, channel, j)
  {
    var code, repeat :|
      trace == D.SystemScript(code, repeat, id, channel) || trace == D.CustomScript(code, repeat, id, channel);
    if trace == D.SystemScript(code, repeat, id, channel) {
      var opening := D.Opening(id, channel) + [D.SetLanguage("fa"), D.PlayingEvent(id)];
      PlacesOf(trace, opening, [D.INTRO, D.SayDigits(code), D.Wait(1)], repeat, id, channel);
      j := |opening| - 1;
    } else {
      var opening := D.Opening(id, channel) + [D.PlayingEvent(id)];
      PlacesOf(trace, opening, [D.INTRO] + D.DigitPrompts(code) + [D.Wait(1)], repeat, id, channel);
      j := |opening| - 1;
    }
  }

  lemma DecodedEvents(id: Id, channel: string, at: Time)
    requires id != "" && channel != ""
    ensures DecodeUserEvent(MessageOf(D.UserEvent("OTPCallStart", id, Some(channel))), at) ==
            CallStart(id, Some(channel), at)
    ensures DecodeUserEvent(MessageOf(D.UserEvent("OTPPlaybackStart", id, None)), at) == PlaybackStart(id, at)
    ensures DecodeUserEvent(MessageOf(D.UserEvent("OTPPlaybackComplete", id, None)), at) == PlaybackDone(id, at)
  {
  }

  lemma CommandsSpan(trace: seq<D.Action>, clock: int -> Time, lo: nat, k: nat, before: seq<Command>, c: Command)
    requires lo <= k < |trace| && trace[k].UserEvent? && forall i :: lo <= i < k ==> !trace[i].UserEvent?
    requires CommandsOf(trace[..lo], clock) == before && c == DecodeUserEvent(MessageOf(trace[k]), clock(k))
    ensures CommandsOf(trace[..k + 1], clock) == before + [c]
  {
    CommandsUntil(trace, clock, lo, k);
    CommandsNext(trace, clock, k);
  }

  lemma LastSpan(trace: seq<D.Action>, clock: int -> Time)
    requires trace != [] && !trace[|trace| - 1].UserEvent?
    ensures CommandsOf(trace, clock) == CommandsOf(trace[..|trace| - 1], clock)
  {
  }

  lemma ThreeInARow<T>(a: T, b: T, c: T)
    ensures [a] + [b] + [c] == [a, b, c]
  {
  }

  lemma StartSpan(trace: seq<D.Action>, clock: int -> Time, id: Id, channel: string)
    requires |trace| > 1 && !trace[0].UserEvent? && id != "" && channel != ""
    requires trace[1] == D.UserEvent("OTPCallStart", id, Some(channel))
    ensures CommandsOf(trace[..2], clock) == [CallStart(id, Some(channel), clock(1))]
  {
    DecodedEvents(id, channel, clock(1));
    assert trace[..0] == [];
    CommandsSpan(trace, clock, 0, 1, [], CallStart(id, Some(channel), clock(1)));
  }

  lemma PlayingSpan(trace: seq<D.Action>, clock: int -> Time, id: Id, channel: string, j: nat)
    requires EventPlaces(trace, id, channel, j) && id != "" && channel != ""
    ensures CommandsOf(trace[..j + 1], clock) ==
            [CallStart(id, Some(channel), clock(1))] + [PlaybackStart(id, clock(j))]
  {
    StartSpan(trace, clock, id, channel);
    DecodedEvents(id, channel, clock(j));
    CommandsSpan(trace, clock, 2, j, [CallStart(id, Some(channel), clock(1))], PlaybackStart(id, clock(j)));
  }

  lemma DoneSpan(trace: seq<D.Action>, clock: int -> Time, id: Id, channel: string, j: nat)
    requires EventPlaces(trace, id, channel, j) && id != "" && channel != ""
    ensures CommandsOf(trace[..|trace| - 1], clock) ==
            [CallStart(id, Some(channel), clock(1))] + [PlaybackStart(id, clock(j))] +
            [PlaybackDone(id, clock(|trace| - 2))]
  {
    var n := |trace| - 2;
    PlayingSpan(trace, clock, id, channel, j);
    DecodedEvents(id, channel, clock(n));
    CommandsSpan(trace, clock, j + 1, n, [CallStart(id, Some(channel), clock(1))] + [PlaybackStart(id, clock(j))],
                 PlaybackDone(id, clock(n)));
  }

  lemma LastIsNoEvent(trace: seq<D.Action>, id: Id, channel: string, j: nat)
    requires EventPlaces(trace, id, channel, j)
    ensures trace != [] && !trace[|trace| - 1].UserEvent?
  {
  }

  lemma CommandsOfPlaces(trace: seq<D.Action>, clock: int -> Time, id: Id, channel: string, j: nat)
    requires EventPlaces(trace, id, channel, j) && id != "" && channel != ""
    ensures CommandsOf(trace, clock) ==
            [CallStart(id, Some(channel), clock(1)), PlaybackStart(id, clock(j)), PlaybackDone(id, clock(|trace| - 2))]
  {
    LastIsNoEvent(trace, id, channel, j);
    LastSpan(trace, clock);
    DoneSpan(trace, clock, id, channel, j);
    ThreeInARow(CallStart(id, Some(channel), clock(1)), PlaybackStart(id, clock(j)),
                PlaybackDone(id, clock(|trace| - 2)));
  }

  /** The handler gets three commands from a script, in this order: the announcement of its channel, the
      start of the playback and its completion, each when its action ran. */
  lemma ScriptCommands(trace: seq<D.Action>, clock: int -> Time, id: Id, channel: string)
    requires IsScript(trace, id, channel) && id != "" && channel != ""
    ensures exists j: nat :: EventPlaces(trace, id, channel, j)
              && CommandsOf(trace, clock) ==
                 [CallStart(id, Some(channel), clock(1)), PlaybackStart(id, clock(j)),
                  PlaybackDone(id, clock(|trace| - 2))]
  {
    var j := ScriptPlaces(trace, id, channel);
    CommandsOfPlaces(trace, clock, id, channel, j);
  }

  // ----- Event by event, what the script does to its call -----

  lemma AnnouncementStep(dbs: seq<Db>, cs: seq<Command>, k: nat, id: Id, channel: string, at: Time)
    requires Execution(dbs, cs) && k < |cs| && id in dbs[k].calls && cs[k] == CallStart(id, Some(channel), at)
    ensures EventsOf(dbs[k + 1].events, id) ==
            EventsOf(dbs[k].events, id) + [Event(id, DialplanStarted, ChannelDetail(Some(channel)), at)]
    ensures id in dbs[k + 1].calls
    ensures !Closed(dbs[k], id) ==>
              dbs[k + 1].calls[id].status == Answered && dbs[k + 1].calls[id].channel == Some(channel)
  {
    NamedStep(dbs[k], cs[k], dbs[k + 1], id);
  }

  lemma PlaybackStep(dbs: seq<Db>, cs: seq<Command>, k: nat, id: Id, at: Time)
    requires Execution(dbs, cs) && k < |cs| && id in dbs[k].calls && cs[k] == PlaybackStart(id, at)
    ensures EventsOf(dbs[k + 1].events, id) ==
            EventsOf(dbs[k].events, id) + [Event(id, PlayingLogged, NoDetail, at)]
    ensures !Closed(dbs[k], id) ==> StatusOf(dbs[k + 1], id) == Some(Playing)
  {
    NamedStep(dbs[k], cs[k], dbs[k + 1], id);
  }

  lemma CompletionStep(dbs: seq<Db>, cs: seq<Command>, k: nat, id: Id, at: Time)
    requires Execution(dbs, cs) && k < |cs| && id in dbs[k].calls && cs[k] == PlaybackDone(id, at)
    ensures EventsOf(dbs[k + 1].events, id) ==
            EventsOf(dbs[k].events, id) + [Event(id, PlaybackCompleted, NoDetail, at)]
    ensures StatusOf(dbs[k + 1], id) == Some(Completed)
  {
    NamedStep(dbs[k], cs[k], dbs[k + 1], id);
  }

  /** The three commands of a script, at three steps of a run. */
  ghost predicate ScriptAt(cs: seq<Command>, trace: seq<D.Action>, clock: int -> Time, steps: seq<nat>) {
    && |steps| == 3 == |CommandsOf(trace, clock)| && steps[0] < steps[1] < steps[2] < |cs|
    && forall i :: 0 <= i < 3 ==> cs[steps[i]] == CommandsOf(trace, clock)[i]
  }

  ghost predicate LoggedAt(timeline: seq<Event>, place: int, id: Id, kind: Kind, detail: Detail) {
    0 <= place < |timeline| && timeline[place].requestId == id && timeline[place].kind == kind
    && timeline[place].detail == detail
  }

  ghost predicate LoggedInOrder(timeline: seq<Event>, id: Id, channel: string) {
    exists p: int, q: int, r: int :: p < q < r
      && LoggedAt(timeline, p, id, DialplanStarted, ChannelDetail(Some(channel)))
      && LoggedAt(timeline, q, id, PlayingLogged, NoDetail)
      && LoggedAt(timeline, r, id, PlaybackCompleted, NoDetail)
  }

  lemma EntriesInOrder(t0: seq<Event>, t1: seq<Event>, t2: seq<Event>, end: seq<Event>, id: Id, channel: string,
                       a: Event, b: Event, c: Event)
    requires t0 + [a] <= t1 && t1 + [b] <= t2 && t2 + [c] <= end
    requires a.requestId == id && a.kind == DialplanStarted && a.detail == ChannelDetail(Some(channel))
    requires b.requestId == id && b.kind == PlayingLogged && b.detail == NoDetail
    requires c.requestId == id && c.kind == PlaybackCompleted && c.detail == NoDetail
    ensures LoggedInOrder(end, id, channel)
  {
    assert end[|t0|] == a && end[|t1|] == b && end[|t2|] == c;
    assert LoggedAt(end, |t0|, id, DialplanStarted, ChannelDetail(Some(channel)));
    assert LoggedAt(end, |t1|, id, PlayingLogged, NoDetail);
    assert LoggedAt(end, |t2|, id, PlaybackCompleted, NoDetail);
  }

  lemma LoggedAndKept(dbs: seq<Db>, cs: seq<Command>, id: Id, k: nat, later: nat, e: Event)
    requires Execution(dbs, cs) && LivesFrom(dbs, id, 0) && k < later <= |cs|
    requires EventsOf(dbs[k + 1].events, id) == EventsOf(dbs[k].events, id) + [e]
    ensures EventsOf(dbs[k].events, id) + [e] <= EventsOf(dbs[later].events, id)
  {
    TimelineGrows(dbs, cs, id, k + 1, later);
  }

  lemma ThreeSteps(dbs: seq<Db>, cs: seq<Command>, id: Id, channel: string, a: nat, b: nat, c: nat, t: Time, u: Time,
                   v: Time)
    requires Execution(dbs, cs) && LivesFrom(dbs, id, 0) && a < b < c < |cs|
    requires cs[a] == CallStart(id, Some(channel), t) && cs[b] == PlaybackStart(id, u) && cs[c] == PlaybackDone(id, v)
    ensures LoggedInOrder(EventsOf(dbs[|cs|].events, id), id, channel)
  {
    var x := Event(id, DialplanStarted, ChannelDetail(Some(channel)), t);
    var y, z := Event(id, PlayingLogged, NoDetail, u), Event(id, PlaybackCompleted, NoDetail, v);
    assert EventsOf(dbs[a].events, id) + [x] <= EventsOf(dbs[b].events, id) by {
      AnnouncementStep(dbs, cs, a, id, channel, t);
      LoggedAndKept(dbs, cs, id, a, b, x);
    }
    assert EventsOf(dbs[b].events, id) + [y] <= EventsOf(dbs[c].events, id) by {
      PlaybackStep(dbs, cs, b, id, u);
      LoggedAndKept(dbs, cs, id, b, c, y);
    }
    assert EventsOf(dbs[c].events, id) + [z] <= EventsOf(dbs[|cs|].events, id) by {
      CompletionStep(dbs, cs, c, id, v);
      LoggedAndKept(dbs, cs, id, c, |cs|, z);
    }
    EntriesInOrder(EventsOf(dbs[a].events, id), EventsOf(dbs[b].events, id), EventsOf(dbs[c].events, id),
                   EventsOf(dbs[|cs|].events, id), id, channel, x, y, z);
  }

  lemma ScriptSteps(cs: seq<Command>, trace: seq<D.Action>, clock: int -> Time, steps: seq<nat>, id: Id,
                    channel: string) returns (t: Time, u: Time, v: Time)
    requires IsScript(trace, id, channel) && id != "" && channel != "" && ScriptAt(cs, trace, clock, steps)
    ensures cs[steps[0]] == CallStart(id, Some(channel), t)
    ensures cs[steps[1]] == PlaybackStart(id, u) && cs[steps[2]] == PlaybackDone(id, v)
  {
    ScriptCommands(trace, clock, id, channel);
    var j: nat :| EventPlaces(trace, id, channel, j)
      && CommandsOf(trace, clock) ==
         [CallStart(id, Some(channel), clock(1)), PlaybackStart(id, clock(j)), PlaybackDone(id, clock(|trace| - 2))];
    t, u, v := clock(1), clock(j), clock(|trace| - 2);
  }

  /** Each event of a script is logged in the timeline of its call, in the order of the script; a call
      that was not over is answered and bears the channel right after the first and is playing right
      after the second; and any call is completed right after the third. */
  lemma ScriptIsLogged(dbs: seq<Db>, cs: seq<Command>, id: Id, channel: string, trace: seq<D.Action>,
                       clock: int -> Time, steps: seq<nat>)
    requires Execution(dbs, cs) && LivesFrom(dbs, id, 0)
    requires IsScript(trace, id, channel) && id != "" && channel != "" && ScriptAt(cs, trace, clock, steps)
    ensures LoggedInOrder(EventsOf(dbs[|cs|].events, id), id, channel)
    ensures !Closed(dbs[steps[0]], id) ==>
              && dbs[steps[0] + 1].calls[id].status == Answered
              && dbs[steps[0] + 1].calls[id].channel == Some(channel)
    ensures !Closed(dbs[steps[1]], id) ==> StatusOf(dbs[steps[1] + 1], id) == Some(Playing)
    ensures StatusOf(dbs[steps[2] + 1], id) == Some(Completed)
  {
    var t, u, v := ScriptSteps(cs, trace, clock, steps, id, channel);
    ThreeSteps(dbs, cs, id, channel, steps[0], steps[1], steps[2], t, u, v);
    AnnouncementStep(dbs, cs, steps[0], id, channel, t);
    PlaybackStep(dbs, cs, steps[1], id, u);
    CompletionStep(dbs, cs, steps[2], id, v);
  }

  /** A run cut short anywhere after its announcement, by a hangup with any cause, leaves the call in
      a terminal status, whatever happened before the announcement and in between. */
  lemma CutShortRunTerminates(own: string -> Id, dbs: seq<Db>, cs: seq<Command>, id: Id, channel: string,
                              trace: seq<D.Action>, clock: int -> Time, n: nat, start: nat, end: nat)
    requires Execution(dbs, cs) && Unshared(own, dbs[0]) && RespectOwners(own, cs)
    requires IsScript(trace, id, channel) && id != "" && channel != "" && n <= |trace|
    requires start < end < |cs| && cs[end].Hangup? && cs[end].channel == channel
    requires cs[start].CallStart? && cs[start] in CommandsOf(trace[..n], clock)
    requires forall i :: start < i < end ==> !Rebinds(cs[i], id, channel)
    ensures Closed(dbs[end + 1], id)
  {
    OnlyAnnouncement(trace, clock, id, channel, n, cs[start]);
    HangupEndsTheCall(own, dbs, cs, id, channel, start, end);
  }
}
