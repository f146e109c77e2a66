/** Handlers and background calls as tasks that stop at every await: between their statements, and
    once more between the read and the write of each status update. */
module HandlerTasks {
  import opened Prelude
  import opened CallStorage
  import opened CallCommands
  import opened CallRuns
  import opened SplitUpdates

  /** An update whose guard has let it pass. */
  datatype Held = Held(id: Id, u: Update, at: Time)

  /** What a task still has to do: the write of an update it has read for, then statements. */
  datatype Task = Task(held: Option<Held>, rest: seq<Statement>)

  datatype Floor = Floor(db: Db, tasks: map<int, Task>)

  /** A task begins with its channel lookup, if it has one, and goes on by one await at a time. */
  datatype Move = Start(task: int, c: Command, found: Option<Id>) | Go(task: int)

  const EMPTY_FLOOR := Floor(Db(map[], []), map[])

  predicate MentionedBy(s: Statement, id: Id) {
    (s.WriteStatus? || s.InsertEvent?) && s.id == id
  }

  predicate Mentions(t: Task, id: Id) {
    (t.held.Some? && t.held.value.id == id) || exists i :: 0 <= i < |t.rest| && MentionedBy(t.rest[i], id)
  }

  /** A UUID that nothing stored and nothing under way knows of. */
  ghost predicate Unknown(f: Floor, id: Id) {
    id !in f.db.calls && EventsOf(f.db.events, id) == [] && forall t :: t in f.tasks ==> !Mentions(f.tasks[t], id)
  }

  ghost predicate Possible(f: Floor, m: Move) {
    match m
    case Start(task, c, found) => task !in f.tasks && (ByChannel(c) ==> LookedUp(f.db, c.channel, found))
    case Go(task) =>
      && task in f.tasks
      && var t := f.tasks[task];
         t.held.Some? || (t.rest != [] && (t.rest[0].InsertCall? ==> Unknown(f, t.rest[0].id)))
  }

  function AfterRead(db: Db, s: Statement): Option<Held>
    requires s.WriteStatus?
  {
    if s.id in db.calls && Permits(db.calls[s.id].status, s.u.status) then Some(Held(s.id, s.u, s.at)) else None
  }

  ghost function Moved(f: Floor, m: Move): Floor
    requires Possible(f, m)
  {
    match m
    case Start(task, c, found) =>
      f.(tasks := f.tasks[task := Task(None, StatementsOf(c, found, StoredStatus(f.db, found)))])
    case Go(task) =>
      var t := f.tasks[task];
      if t.held.Some? then
        var h := t.held.value;
        Floor(Overwrite(f.db, h.id, h.u, h.at), f.tasks[task := Task(None, t.rest)])
      else if t.rest[0].WriteStatus? then
        f.(tasks := f.tasks[task := Task(AfterRead(f.db, t.rest[0]), t.rest[1..])])
      else
        Floor(Apply(f.db, t.rest[0]), f.tasks[task := Task(None, t.rest[1..])])
  }

  ghost predicate Moves(fs: seq<Floor>, ms: seq<Move>) {
    |fs| == |ms| + 1 && forall i :: 0 <= i < |ms| ==> Possible(fs[i], ms[i]) && fs[i + 1] == Moved(fs[i], ms[i])
  }

  ghost predicate Shift(fs: seq<Floor>, ms: seq<Move>) {
    Moves(fs, ms) && fs[0] == EMPTY_FLOOR
  }

  lemma MovesFront(fs: seq<Floor>, ms: seq<Move>)
    requires Moves(fs, ms) && ms != []
    ensures Moves(fs[..|ms|], ms[..|ms| - 1])
    ensures Possible(fs[|ms| - 1], ms[|ms| - 1]) && fs[|ms|] == Moved(fs[|ms| - 1], ms[|ms| - 1])
  {
  }

  // ----- A task nothing disturbs is a command -----

  function Remaining(t: Task): nat {
    2 * |t.rest| + if t.held.Some? then 1 else 0
  }

  /** The tables after a task has gone on alone to its end. */
  ghost function Alone(db: Db, t: Task): Db
    decreases Remaining(t)
  {
    if t.held.Some? then Alone(Overwrite(db, t.held.value.id, t.held.value.u, t.held.value.at), Task(None, t.rest))
    else if t.rest == [] then db
    else if t.rest[0].WriteStatus? then Alone(db, Task(AfterRead(db, t.rest[0]), t.rest[1..]))
    else Alone(Apply(db, t.rest[0]), Task(None, t.rest[1..]))
  }

  lemma AloneStep(db: Db, s: Statement, rest: seq<Statement>)
    ensures Alone(db, Task(None, [s] + rest)) == Alone(Apply(db, s), Task(None, rest))
  {
    assert ([s] + rest)[1..] == rest;
    if s.WriteStatus? {
      var held := AfterRead(db, s);
      assert Alone(db, Task(None, [s] + rest)) == Alone(db, Task(held, rest));
      assert held.Some? ==> Overwrite(db, s.id, s.u, s.at) == Apply(db, s);
      assert held.None? ==> Apply(db, s) == db;
    }
  }

  lemma AloneIsApplied(db: Db, ss: seq<Statement>)
    requires |ss| <= 2
    ensures Alone(db, Task(None, ss)) == ApplyAll(db, ss)
  {
    ApplyShort(db, ss);
    if |ss| == 1 {
      assert ss == [ss[0]] + [];
      AloneStep(db, ss[0], []);
    } else if |ss| == 2 {
      assert ss == [ss[0]] + [ss[1]] && [ss[1]] == [ss[1]] + [];
      AloneStep(db, ss[0], [ss[1]]);
      AloneStep(Apply(db, ss[0]), ss[1], []);
    }
  }

  lemma FewStatements(c: Command, found: Option<Id>, stored: Status)
    ensures |StatementsOf(c, found, stored)| <= 2
  {
  }

  /** Started and left to go on alone, a task does exactly what its command does in one step. */
  lemma UndisturbedIsCommand(db: Db, c: Command, db': Db)
    requires c.Insert? ==> c.id !in db.calls && EventsOf(db.events, c.id) == []
    ensures Next(db, c, db') <==>
            exists found: Option<Id> ::
              && (ByChannel(c) ==> LookedUp(db, c.channel, found))
              && db' == Alone(db, Task(None, StatementsOf(c, found, StoredStatus(db, found))))
  {
    CommandIsStatements(db, c, db');
    forall found: Option<Id>
      ensures Alone(db, Task(None, StatementsOf(c, found, StoredStatus(db, found)))) ==
              ApplyAll(db, StatementsOf(c, found, StoredStatus(db, found)))
    {
      FewStatements(c, found, StoredStatus(db, found));
      AloneIsApplied(db, StatementsOf(c, found, StoredStatus(db, found)));
    }
    if Next(db, c, db') {
      var found: Option<Id> :| InOnePiece(db, c, found, db');
      assert db' == Alone(db, Task(None, StatementsOf(c, found, StoredStatus(db, found))));
    }
    if found: Option<Id> :|
      && (ByChannel(c) ==> LookedUp(db, c.channel, found))
      && db' == Alone(db, Task(None, StatementsOf(c, found, StoredStatus(db, found)))) {
      assert InOnePiece(db, c, found, db');
    }
  }

  // ----- What backs the answered flag between the awaits -----

  function TimelineOf(f: Floor, id: Id): seq<Event> {
    EventsOf(f.db.events, id)
  }

  predicate Flagged(f: Floor, id: Id) {
    IsAnswered(View(f.db, id))
  }

  predicate LogsAnswer(s: Statement, id: Id) {
    s.InsertEvent? && s.id == id && ShowsAnswer(s.kind)
  }

  predicate LogsFour(s: Statement, id: Id) {
    s.InsertEvent? && s.id == id && IsFailureFour(s.detail)
  }

  predicate WillLogAnswer(t: Task, id: Id) {
    exists i :: 0 <= i < |t.rest| && LogsAnswer(t.rest[i], id)
  }

  /** Some task has yet to log that the call was answered. */
  ghost predicate LogDue(f: Floor, id: Id) {
    exists t :: t in f.tasks && WillLogAnswer(f.tasks[t], id)
  }

  ghost predicate Shown(f: Floor, id: Id) {
    Evidence(TimelineOf(f, id)) || LogDue(f, id)
  }

  ghost predicate Covered(f: Floor, id: Id) {
    Shown(f, id) || FailureFour(TimelineOf(f, id))
  }

  predicate FourBefore(rest: seq<Statement>, i: nat, id: Id)
    requires i <= |rest|
  {
    exists j :: 0 <= j < i && LogsFour(rest[j], id)
  }

  /** What a task is about to write to the row is covered, if not by then by what it logs first. */
  ghost predicate TaskCovered(f: Floor, t: Task, id: Id) {
    && (t.held.Some? && t.held.value.id == id ==>
          && (AnsweredOrLater(t.held.value.u.status) ==> Covered(f, id))
          && (t.held.value.u.channel.Some? ==> Shown(f, id)))
    && forall i :: 0 <= i < |t.rest| && t.rest[i].WriteStatus? && t.rest[i].id == id ==>
         && (AnsweredOrLater(t.rest[i].u.status) ==> Covered(f, id) || FourBefore(t.rest, i, id))
         && (t.rest[i].u.channel.Some? ==> Shown(f, id))
  }

  ghost predicate RowCovered(f: Floor, id: Id) {
    id in f.db.calls ==>
      && (AnsweredOrLater(f.db.calls[id].status) ==> Covered(f, id))
      && (f.db.calls[id].channel.Some? ==> Shown(f, id))
  }

  ghost predicate AllCovered(f: Floor, id: Id) {
    RowCovered(f, id) && (id in f.db.calls ==> forall t :: t in f.tasks ==> TaskCovered(f, f.tasks[t], id))
  }

  /** A statement other than an update, as the row and the timeline of one call see it. */
  lemma AppliedToOne(db: Db, s: Statement, id: Id)
    requires !s.WriteStatus? && id in Apply(db, s).calls && !(s.InsertCall? && s.id == id)
    ensures id in db.calls
    ensures var row, row' := db.calls[id], Apply(db, s).calls[id];
            row'.status == row.status && row'.channel == row.channel
    ensures EventsOf(Apply(db, s).events, id) ==
            EventsOf(db.events, id) +
            if s.InsertEvent? && s.id == id then [Event(id, s.kind, s.detail, s.at)] else []
  {
    match s
    case InsertCall(i, mobile, code, parent, at) =>
      ViewOfAddEvent(db.(calls := db.calls[i := NewRow(mobile, code, parent, at)]), i, QueuedLogged, NoDetail, at, id);
    case InsertEvent(i, kind, detail, at) => ViewOfAddEvent(db, i, kind, detail, at, id);
    case CountOne(_, _) =>
    case DeleteExpired(at) => ViewOfExpire(db, at, id);
  }

  ghost predicate InsertsRow(f: Floor, m: Move, id: Id)
    requires Possible(f, m)
  {
    m.Go? && f.tasks[m.task].held.None? && f.tasks[m.task].rest[0].InsertCall? && f.tasks[m.task].rest[0].id == id
  }

  /** The entry a move adds to the timeline of the call, if any. */
  ghost function Entry(f: Floor, m: Move, id: Id): seq<Event>
    requires Possible(f, m)
  {
    if m.Go? && f.tasks[m.task].held.None? && MentionedBy(f.tasks[m.task].rest[0], id)
       && f.tasks[m.task].rest[0].InsertEvent?
    then
      var s := f.tasks[m.task].rest[0];
      [Event(id, s.kind, s.detail, s.at)]
    else []
  }

  lemma MoveSeen(f: Floor, m: Move, id: Id)
    requires Possible(f, m) && id in Moved(f, m).db.calls && !InsertsRow(f, m, id)
    ensures id in f.db.calls
    ensures TimelineOf(Moved(f, m), id) == TimelineOf(f, id) + Entry(f, m, id)
  {
    if m.Go? && f.tasks[m.task].held.None? && !f.tasks[m.task].rest[0].WriteStatus? {
      AppliedToOne(f.db, f.tasks[m.task].rest[0], id);
    }
  }

  lemma LongerTimeline(timeline: seq<Event>, more: seq<Event>)
    requires |more| <= 1
    ensures Evidence(timeline + more) <==> Evidence(timeline) || (more != [] && ShowsAnswer(more[0].kind))
    ensures FailureFour(timeline + more) <==> FailureFour(timeline) || (more != [] && IsFailureFour(more[0].detail))
  {
    if more == [] {
      assert timeline + more == timeline;
    } else {
      assert more == [more[0]];
      TimelineSnoc(timeline, more[0]);
    }
  }

  /** An answer shown or about to be logged stays so while the row lives. */
  lemma ShownStays(f: Floor, m: Move, id: Id)
    requires Possible(f, m) && Shown(f, id) && id in Moved(f, m).db.calls && !InsertsRow(f, m, id)
    ensures Shown(Moved(f, m), id)
  {
    var f' := Moved(f, m);
    MoveSeen(f, m, id);
    LongerTimeline(TimelineOf(f, id), Entry(f, m, id));
    if !Evidence(TimelineOf(f, id)) {
      var t :| t in f.tasks && WillLogAnswer(f.tasks[t], id);
      var i :| 0 <= i < |f.tasks[t].rest| && LogsAnswer(f.tasks[t].rest[i], id);
      if m.Go? && m.task == t && f.tasks[t].held.None? {
        if i > 0 {
          assert f'.tasks[t].rest[i - 1] == f.tasks[t].rest[i];
          assert WillLogAnswer(f'.tasks[t], id);
        }
      } else {
        assert f'.tasks[t].rest == f.tasks[t].rest;
        assert WillLogAnswer(f'.tasks[t], id);
      }
    }
  }

  lemma CoveredStays(f: Floor, m: Move, id: Id)
    requires Possible(f, m) && Covered(f, id) && id in Moved(f, m).db.calls && !InsertsRow(f, m, id)
    ensures Covered(Moved(f, m), id)
  {
    if Shown(f, id) {
      ShownStays(f, m, id);
    } else {
      MoveSeen(f, m, id);
      LongerTimeline(TimelineOf(f, id), Entry(f, m, id));
    }
  }

  /** A task that did not move is still covered. */
  lemma OtherTaskCovered(f: Floor, m: Move, id: Id, t: Task)
    requires Possible(f, m) && TaskCovered(f, t, id) && id in Moved(f, m).db.calls && !InsertsRow(f, m, id)
    ensures TaskCovered(Moved(f, m), t, id)
  {
    if Shown(f, id) {
      ShownStays(f, m, id);
    }
    if Covered(f, id) {
      CoveredStays(f, m, id);
    }
  }

  /** The task that moved on is still covered: what it logged is in the timeline now. */
  lemma MovedTaskCovered(f: Floor, task: int, id: Id)
    requires Possible(f, Go(task)) && TaskCovered(f, f.tasks[task], id)
    requires id in Moved(f, Go(task)).db.calls && !InsertsRow(f, Go(task), id)
    ensures TaskCovered(Moved(f, Go(task)), Moved(f, Go(task)).tasks[task], id)
  {
    var t, t' := f.tasks[task], Moved(f, Go(task)).tasks[task];
    var f' := Moved(f, Go(task));
    OtherTaskCovered(f, Go(task), id, t);
    if t.held.None? {
      MoveSeen(f, Go(task), id);
      LongerTimeline(TimelineOf(f, id), Entry(f, Go(task), id));
      forall i | 0 <= i < |t'.rest| && FourBefore(t.rest, i + 1, id)
        ensures FourBefore(t'.rest, i, id) || FailureFour(TimelineOf(f', id))
      {
        var j :| 0 <= j < i + 1 && LogsFour(t.rest[j], id);
        if j > 0 {
          assert LogsFour(t'.rest[j - 1], id);
        }
      }
      forall i | 0 <= i < |t'.rest| ensures t'.rest[i] == t.rest[i + 1] {
      }
      if t'.held.Some? && t'.held.value.id == id && AnsweredOrLater(t'.held.value.u.status) {
        assert !FourBefore(t.rest, 0, id);
        assert Covered(f', id);
      }
    }
  }

  /** What a task starts out to do is covered: an answering update comes with its log entry or after
      a failure carrying reason 4, and a hangup completes only a call whose channel was announced. */
  lemma StartedTaskCovered(f: Floor, task: int, c: Command, found: Option<Id>, id: Id)
    requires Possible(f, Start(task, c, found)) && RowCovered(f, id)
    ensures var f' := Moved(f, Start(task, c, found)); TaskCovered(f', f'.tasks[task], id)
  {
    var f' := Moved(f, Start(task, c, found));
    var rest := f'.tasks[task].rest;
    if Shown(f, id) && id in f.db.calls {
      ShownStays(f, Start(task, c, found), id);
    }
    forall i | 0 <= i < |rest| && rest[i].WriteStatus? && rest[i].id == id
      ensures AnsweredOrLater(rest[i].u.status) ==> Covered(f', id) || FourBefore(rest, i, id)
      ensures rest[i].u.channel.Some? ==> Shown(f', id)
    {
      if c.OriginateResponse? {
        assert AnsweredOrLater(rest[i].u.status) ==> LogsFour(rest[0], id);
      } else if c.Hangup? {
        assert found == Some(id) && f.db.calls[id].channel.Some?;
      } else if AnsweredOrLater(rest[i].u.status) || rest[i].u.channel.Some? {
        assert LogsAnswer(rest[i + 1], id);
        assert WillLogAnswer(f'.tasks[task], id);
      }
    }
  }

  lemma WriteCovered(f: Floor, task: int, id: Id)
    requires Possible(f, Go(task)) && AllCovered(f, id) && id in Moved(f, Go(task)).db.calls
    requires !InsertsRow(f, Go(task), id)
    ensures RowCovered(Moved(f, Go(task)), id)
  {
    MoveSeen(f, Go(task), id);
    if Shown(f, id) {
      ShownStays(f, Go(task), id);
    }
    if Covered(f, id) {
      CoveredStays(f, Go(task), id);
    }
    var t := f.tasks[task];
    assert TaskCovered(f, t, id);
    if t.held.None? && !t.rest[0].WriteStatus? {
      AppliedToOne(f.db, t.rest[0], id);
    }
  }

  lemma InsertedCovered(f: Floor, m: Move, id: Id)
    requires Possible(f, m) && InsertsRow(f, m, id)
    ensures AllCovered(Moved(f, m), id)
  {
    var f' := Moved(f, m);
    forall t | t in f'.tasks ensures TaskCovered(f', f'.tasks[t], id) {
      assert !Mentions(f.tasks[t], id);
      forall i | 0 <= i < |f'.tasks[t].rest| ensures !MentionedBy(f'.tasks[t].rest[i], id) {
        assert f'.tasks[t].rest[i] in f.tasks[t].rest;
      }
    }
  }

  lemma MoveKeepsCovered(f: Floor, m: Move, id: Id)
    requires Possible(f, m) && AllCovered(f, id)
    ensures AllCovered(Moved(f, m), id)
  {
    var f' := Moved(f, m);
    if id in f'.db.calls {
      if InsertsRow(f, m, id) {
        InsertedCovered(f, m, id);
      } else {
        MoveSeen(f, m, id);
        if m.Start? {
          StartedTaskCovered(f, m.task, m.c, m.found, id);
          StartKeepsRow(f, m, id);
        } else {
          WriteCovered(f, m.task, id);
        }
        forall t | t in f'.tasks ensures TaskCovered(f', f'.tasks[t], id) {
          if t != m.task {
            OtherTaskCovered(f, m, id, f.tasks[t]);
          } else if m.Go? {
            MovedTaskCovered(f, t, id);
          }
        }
      }
    }
  }

  lemma StartKeepsRow(f: Floor, m: Move, id: Id)
    requires Possible(f, m) && m.Start? && RowCovered(f, id)
    ensures RowCovered(Moved(f, m), id)
  {
    if id in f.db.calls && Shown(f, id) {
      ShownStays(f, m, id);
    }
  }

  /** In every state of every interleaving, a status that says "answered" is backed by the timeline, by
      a failure carrying reason 4, or by a log entry some task has still to make. */
  lemma {:induction false} FlagIsBacked(fs: seq<Floor>, ms: seq<Move>, id: Id)
    requires Shift(fs, ms)
    ensures AllCovered(fs[|ms|], id)
  {
    if ms != [] {
      var n := |ms| - 1;
      MovesFront(fs, ms);
      FlagIsBacked(fs[..|ms|], ms[..n], id);
      MoveKeepsCovered(fs[n], ms[n], id);
    }
  }

  lemma FlagIsBackedAt(fs: seq<Floor>, ms: seq<Move>, id: Id, k: nat)
    requires Shift(fs, ms) && k <= |ms|
    ensures AllCovered(fs[k], id)
  {
    FlagIsBacked(fs[..k + 1], ms[..k], id);
  }

  // ----- When the flag is for good -----

  lemma {:induction false} EvidenceStaysAlong(fs: seq<Floor>, ms: seq<Move>, id: Id, first: nat, last: nat)
    requires Moves(fs, ms) && first <= last <= |ms| && Evidence(TimelineOf(fs[first], id))
    requires forall i :: first <= i <= last ==> id in fs[i].db.calls
    ensures Evidence(TimelineOf(fs[last], id))
    decreases last
  {
    if first < last {
      var k := last - 1;
      EvidenceStaysAlong(fs, ms, id, first, k);
      assert Possible(fs[k], ms[k]) && fs[k + 1] == Moved(fs[k], ms[k]);
      MoveSeen(fs[k], ms[k], id);
      LongerTimeline(TimelineOf(fs[k], id), Entry(fs[k], ms[k], id));
    }
  }

  /** With every await taken apart: a call reported answered stays so while its row lives, if by then
      no failure carrying reason 4 is in its timeline and no task has still to log an answer of it. */
  lemma FlagStays(fs: seq<Floor>, ms: seq<Move>, id: Id, first: nat, last: nat)
    requires Shift(fs, ms) && first <= last <= |ms|
    requires forall i :: first <= i <= last ==> id in fs[i].db.calls
    requires Flagged(fs[first], id) && !FailureFour(TimelineOf(fs[first], id)) && !LogDue(fs[first], id)
    ensures Flagged(fs[last], id)
  {
    FlagIsBackedAt(fs, ms, id, first);
    EvidenceStaysAlong(fs, ms, id, first, last);
  }

  /** The write of an update to a status that does not say "answered". */
  ghost predicate WritesUnanswered(f: Floor, m: Move, id: Id) {
    && m.Go? && m.task in f.tasks && f.tasks[m.task].held.Some? && f.tasks[m.task].held.value.id == id
    && !AnsweredOrLater(f.tasks[m.task].held.value.u.status)
  }

  lemma LostByMoveIff(f: Floor, m: Move, id: Id)
    requires Possible(f, m) && id in f.db.calls && id in Moved(f, m).db.calls
    ensures Flagged(f, id) && !Flagged(Moved(f, m), id) <==>
            AnsweredOrLater(f.db.calls[id].status) && !Evidence(TimelineOf(f, id)) && WritesUnanswered(f, m, id)
  {
    assert !InsertsRow(f, m, id);
    MoveSeen(f, m, id);
    LongerTimeline(TimelineOf(f, id), Entry(f, m, id));
    if m.Go? && f.tasks[m.task].held.None? && !f.tasks[m.task].rest[0].WriteStatus? {
      AppliedToOne(f.db, f.tasks[m.task].rest[0], id);
    }
  }

  /** Exactly when a move takes the flag from a call that keeps its row; and then a failure carrying
      reason 4 is in its timeline, or some task has still to log the answer. */
  lemma FlagLostIff(fs: seq<Floor>, ms: seq<Move>, id: Id, k: nat)
    requires Shift(fs, ms) && k < |ms| && id in fs[k].db.calls && id in fs[k + 1].db.calls
    ensures Flagged(fs[k], id) && !Flagged(fs[k + 1], id) <==>
            && AnsweredOrLater(fs[k].db.calls[id].status) && !Evidence(TimelineOf(fs[k], id))
            && WritesUnanswered(fs[k], ms[k], id)
    ensures Flagged(fs[k], id) && !Flagged(fs[k + 1], id) ==>
            FailureFour(TimelineOf(fs[k], id)) || LogDue(fs[k], id)
  {
    assert Possible(fs[k], ms[k]) && fs[k + 1] == Moved(fs[k], ms[k]);
    FlagIsBackedAt(fs, ms, id, k);
    LostByMoveIff(fs[k], ms[k], id);
  }

  /** From this state some moves, with the row there throughout, end with the flag gone. */
  ghost predicate CanLoseFlag(f: Floor, id: Id) {
    exists fs: seq<Floor>, ms: seq<Move> ::
      && Moves(fs, ms) && fs[0] == f && (forall i :: 0 <= i <= |ms| ==> id in fs[i].db.calls)
      && !Flagged(fs[|ms|], id)
  }

  lemma {:induction false} FreeTask(tasks: set<int>) returns (n: int)
    ensures forall t :: t in tasks ==> t < n
    decreases |tasks|
  {
    n := 0;
    if tasks != {} {
      var t := Member(tasks);
      var m := FreeTask(tasks - {t});
      n := if m <= t then t + 1 else m;
      forall other | other in tasks ensures other < n {
        assert other != t ==> other in tasks - {t};
      }
    }
  }

  lemma FailureTakesFlag(f: Floor, id: Id, task: int)
    requires id in f.db.calls && !Evidence(TimelineOf(f, id)) && task !in f.tasks
    ensures CanLoseFlag(f, id)
  {
    var c := FailInternally(id, "", 0.0);
    var f1 := Moved(f, Start(task, c, None));
    assert f1.tasks[task].rest[0] == WriteStatus(id, FailureUpdate(InternalError), 0.0);
    var f2 := Moved(f1, Go(task));
    assert f2.tasks[task].held == Some(Held(id, FailureUpdate(InternalError), 0.0));
    var f3 := Moved(f2, Go(task));
    assert !Flagged(f3, id);
    var fs, ms := [f, f1, f2, f3], [Start(task, c, None), Go(task), Go(task)];
    assert Moves(fs, ms);
    assert forall i :: 0 <= i <= |ms| ==> id in fs[i].db.calls;
  }

  /** The flag of a reported answer is for good if and only if the timeline shows the answer: otherwise
      some interleaving still takes it back. */
  lemma FlagIsForGoodIff(f: Floor, id: Id)
    requires id in f.db.calls && Flagged(f, id)
    ensures !CanLoseFlag(f, id) <==> Evidence(TimelineOf(f, id))
  {
    if Evidence(TimelineOf(f, id)) {
      if CanLoseFlag(f, id) {
        var fs: seq<Floor>, ms: seq<Move> :|
          && Moves(fs, ms) && fs[0] == f && (forall i :: 0 <= i <= |ms| ==> id in fs[i].db.calls)
          && !Flagged(fs[|ms|], id);
        EvidenceStaysAlong(fs, ms, id, 0, |ms|);
        assert false;
      }
    } else {
      var task := FreeTask(f.tasks.Keys);
      FailureTakesFlag(f, id, task);
    }
  }

  // ----- When a terminal status is for good -----

  /** The task has read for an update of the row to a status that is not terminal. */
  predicate HoldsOpen(t: Task, id: Id) {
    t.held.Some? && t.held.value.id == id && !IsTerminal(t.held.value.u.status)
  }

  ghost predicate SomeoneHoldsOpen(f: Floor, id: Id) {
    exists t :: t in f.tasks && HoldsOpen(f.tasks[t], id)
  }

  lemma StaysShut(f: Floor, m: Move, id: Id)
    requires Possible(f, m) && id in f.db.calls && id in Moved(f, m).db.calls
    requires Closed(f.db, id) && !SomeoneHoldsOpen(f, id)
    ensures Closed(Moved(f, m).db, id) && !SomeoneHoldsOpen(Moved(f, m), id)
  {
    var f' := Moved(f, m);
    if m.Go? && f.tasks[m.task].held.None? && !f.tasks[m.task].rest[0].WriteStatus? {
      AppliedToOne(f.db, f.tasks[m.task].rest[0], id);
    }
    forall t | t in f'.tasks ensures !HoldsOpen(f'.tasks[t], id) {
      if t != m.task {
        assert f'.tasks[t] == f.tasks[t];
      }
    }
  }

  lemma {:induction false} ShutAlong(fs: seq<Floor>, ms: seq<Move>, id: Id)
    requires Moves(fs, ms) && forall i :: 0 <= i <= |ms| ==> id in fs[i].db.calls
    requires Closed(fs[0].db, id) && !SomeoneHoldsOpen(fs[0], id)
    ensures Closed(fs[|ms|].db, id) && !SomeoneHoldsOpen(fs[|ms|], id)
  {
    if ms != [] {
      var n := |ms| - 1;
      MovesFront(fs, ms);
      ShutAlong(fs[..|ms|], ms[..n], id);
      StaysShut(fs[n], ms[n], id);
    }
  }

  /** From this state some moves, with the row there throughout, end with it open again. */
  ghost predicate CanReopen(f: Floor, id: Id) {
    exists fs: seq<Floor>, ms: seq<Move> ::
      && Moves(fs, ms) && fs[0] == f && (forall i :: 0 <= i <= |ms| ==> id in fs[i].db.calls)
      && !Closed(fs[|ms|].db, id)
  }

  /** With every await taken apart, a call that is over is over for good if and only if no task has
      already read for an update of it to a status that is not terminal. */
  lemma TerminalIsForGoodIff(f: Floor, id: Id)
    requires id in f.db.calls && Closed(f.db, id)
    ensures !CanReopen(f, id) <==> !SomeoneHoldsOpen(f, id)
  {
    if SomeoneHoldsOpen(f, id) {
      var t :| t in f.tasks && HoldsOpen(f.tasks[t], id);
      var f' := Moved(f, Go(t));
      assert Moves([f, f'], [Go(t)]) && !Closed(f'.db, id);
      assert forall i :: 0 <= i <= 1 ==> id in [f, f'][i].db.calls;
      assert [f, f'][|[Go(t)]|] == f';
    } else if CanReopen(f, id) {
      var fs: seq<Floor>, ms: seq<Move> :|
        && Moves(fs, ms) && fs[0] == f && (forall i :: 0 <= i <= |ms| ==> id in fs[i].db.calls)
        && !Closed(fs[|ms|].db, id);
      ShutAlong(fs, ms, id);
      assert false;
    }
  }

  // ----- A call whose flag comes and goes -----

  /** The announcement of a call has been written, and not logged yet. */
  lemma AnnouncedNotLogged() returns (fs: seq<Floor>, ms: seq<Move>)
    ensures Shift(fs, ms) && StatusOf(fs[|ms|].db, "r") == Some(Answered)
    ensures fs[|ms|].db.events == [Event("r", QueuedLogged, NoDetail, 0.0)]
    ensures 3 !in fs[|ms|].tasks && 2 in fs[|ms|].tasks
    ensures fs[|ms|].tasks[2] == Task(None, [InsertEvent("r", DialplanStarted, ChannelDetail(Some("c")), 1.0)])
  {
    var start := CallStart("r", Some("c"), 1.0);
    var f1 := Moved(EMPTY_FLOOR, Start(1, Insert("r", "09123456789", "1234", None, 0.0), None));
    var f2 := Moved(f1, Go(1));
    var f3 := Moved(f2, Start(2, start, None));
    var log := InsertEvent("r", DialplanStarted, ChannelDetail(Some("c")), 1.0);
    assert f3.tasks[2].rest == [WriteStatus("r", StatusOnly(Answered).(channel := Some("c")), 1.0), log];
    var f4 := Moved(f3, Go(2));
    assert f4.tasks[2].rest == [log] && f4.tasks[2].held.Some?;
    var f5 := Moved(f4, Go(2));
    fs := [EMPTY_FLOOR, f1, f2, f3, f4, f5];
    ms := [Start(1, Insert("r", "09123456789", "1234", None, 0.0), None), Go(1), Start(2, start, None), Go(2), Go(2)];
    assert Moves(fs, ms);
  }

  lemma QueuedOnly(f: Floor)
    requires f.db.events == [Event("r", QueuedLogged, NoDetail, 0.0)]
    ensures TimelineOf(f, "r") == [Event("r", QueuedLogged, NoDetail, 0.0)] && !Evidence(TimelineOf(f, "r"))
  {
    EventsOfSnoc([], Event("r", QueuedLogged, NoDetail, 0.0), "r");
  }

  /** Failed in between: the flag is gone, and comes back when the announcement is logged. */
  lemma FailedInBetween(f: Floor) returns (fs: seq<Floor>, ms: seq<Move>)
    requires StatusOf(f.db, "r") == Some(Answered) && f.db.events == [Event("r", QueuedLogged, NoDetail, 0.0)]
    requires 3 !in f.tasks && 2 in f.tasks
    requires f.tasks[2] == Task(None, [InsertEvent("r", DialplanStarted, ChannelDetail(Some("c")), 1.0)])
    ensures |ms| == 4 && Moves(fs, ms) && fs[0] == f && forall i :: 0 <= i <= 4 ==> "r" in fs[i].db.calls
    ensures Flagged(f, "r") && !Flagged(fs[3], "r")
    ensures Flagged(fs[4], "r") && !FailureFour(TimelineOf(fs[4], "r"))
  {
    var c := FailOriginate("r", "timeout", 2.0);
    var f1 := Moved(f, Start(3, c, None));
    assert f1.tasks[3].rest[0] == WriteStatus("r", FailureUpdate(NotAccepted("timeout")), 2.0);
    var f2 := Moved(f1, Go(3));
    var f3 := Moved(f2, Go(3));
    assert f3.tasks[2] == f.tasks[2];
    var f4 := Moved(f3, Go(2));
    fs, ms := [f, f1, f2, f3, f4], [Start(3, c, None), Go(3), Go(3), Go(2)];
    QueuedOnly(f3);
    ViewOfAddEvent(f3.db, "r", DialplanStarted, ChannelDetail(Some("c")), 1.0, "r");
    TimelineSnoc(TimelineOf(f3, "r"), Event("r", DialplanStarted, ChannelDetail(Some("c")), 1.0));
  }

  lemma MovesConcat(fs: seq<Floor>, ms: seq<Move>, gs: seq<Floor>, ns: seq<Move>) returns (all: seq<Floor>)
    requires Moves(fs, ms) && Moves(gs, ns) && fs[|ms|] == gs[0]
    ensures Moves(all, ms + ns) && all[0] == fs[0]
    ensures forall i :: 0 <= i <= |ns| ==> all[|ms| + i] == gs[i]
  {
    all := fs[..|ms|] + gs;
    var moves := ms + ns;
    forall i | 0 <= i < |moves| ensures Possible(all[i], moves[i]) && all[i + 1] == Moved(all[i], moves[i]) {
      if i < |ms| {
        assert Possible(fs[i], ms[i]) && fs[i + 1] == Moved(fs[i], ms[i]);
      } else {
        var k := i - |ms|;
        assert Possible(gs[k], ns[k]) && gs[k + 1] == Moved(gs[k], ns[k]);
      }
    }
  }

  lemma Flicker() returns (fs: seq<Floor>, ms: seq<Move>, k: nat)
    ensures Shift(fs, ms) && |ms| == k + 4
    ensures Flagged(fs[k], "r") && !Flagged(fs[k + 3], "r")
    ensures Flagged(fs[k + 4], "r") && !FailureFour(TimelineOf(fs[k + 4], "r"))
  {
    var before, done := AnnouncedNotLogged();
    var after, ns := FailedInBetween(before[|done|]);
    k := |done|;
    fs := MovesConcat(before, done, after, ns);
    ms := done + ns;
    assert fs[k + 0] == after[0] && fs[k + 3] == after[3] && fs[k + 4] == after[4];
  }

  /** From empty tables and with no failure carrying reason 4: reported answered, then not, then again. */
  lemma FlagCanFlicker()
    ensures exists fs: seq<Floor>, ms: seq<Move>, k: nat ::
              && Shift(fs, ms) && |ms| == k + 4 && Flagged(fs[k], "r") && !Flagged(fs[k + 3], "r")
              && Flagged(fs[k + 4], "r") && !FailureFour(TimelineOf(fs[k + 4], "r"))
  {
    var fs, ms, k := Flicker();
  }

  // ----- Tasks are runs of split updates -----

  /** The desk that sees of a floor only its tables and the updates read for. */
  ghost predicate SeenAs(f: Floor, d: Desk) {
    && d.db == f.db
    && (forall t :: t in d.pending <==> t in f.tasks && f.tasks[t].held.Some?)
    && forall t :: t in d.pending ==>
         d.pending[t].id == f.tasks[t].held.value.id && d.pending[t].u == f.tasks[t].held.value.u
  }

  /** The action a move is, if it touches the tables or the updates under way. */
  ghost function ActionOf(f: Floor, m: Move): Option<Action>
    requires Possible(f, m)
  {
    match m
    case Start(_, _, _) => None
    case Go(task) =>
      var t := f.tasks[task];
      if t.held.Some? then Some(Action.Write(task, t.held.value.at))
      else if t.rest[0].WriteStatus? then Some(Action.Read(task, t.rest[0].id, t.rest[0].u))
      else Some(Action.Other(t.rest[0]))
  }

  lemma MoveIsAction(f: Floor, m: Move, d: Desk)
    requires Possible(f, m) && SeenAs(f, d)
    ensures match ActionOf(f, m)
            case None => SeenAs(Moved(f, m), d)
            case Some(a) => Allowed(d, a) && SeenAs(Moved(f, m), Do(d, a))
  {
  }

  /** Every interleaving of handlers and background calls is, state by state, a run of split updates; so
      what holds over all those runs holds of them. */
  lemma {:induction false} TasksAreSplitUpdates(fs: seq<Floor>, ms: seq<Move>)
    returns (ds: seq<Desk>, acts: seq<Action>, places: seq<nat>)
    requires Shift(fs, ms)
    ensures Run(ds, acts) && |places| == |fs| && places[|ms|] == |acts|
    ensures forall k :: 0 <= k < |fs| ==> places[k] <= |acts| && SeenAs(fs[k], ds[places[k]])
    ensures forall k :: 0 <= k < |ms| ==> places[k] <= places[k + 1] <= places[k] + 1
  {
    if ms == [] {
      ds, acts, places := [EMPTY_DESK], [], [0];
    } else {
      var n := |ms| - 1;
      MovesFront(fs, ms);
      ds, acts, places := TasksAreSplitUpdates(fs[..|ms|], ms[..n]);
      MoveIsAction(fs[n], ms[n], ds[|acts|]);
      if ActionOf(fs[n], ms[n]).Some? {
        var a := ActionOf(fs[n], ms[n]).value;
        RunSnoc(ds, acts, a);
        ds, acts := ds + [Do(ds[|acts|], a)], acts + [a];
      }
      places := places + [|acts|];
    }
  }
}
