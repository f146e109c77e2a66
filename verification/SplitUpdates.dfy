/** Status updates as the program runs them: the guard's read and the UPDATE are separate awaits, and
    the statements of other tasks come in between. */
module SplitUpdates {
  import opened Prelude
  import opened CallStorage
  import opened CallCommands
  import opened CallRuns

  /** An update between its read and its write; the guard let it pass on the status it saw. */
  datatype Pending = Pending(id: Id, u: Update, seen: Status)

  datatype Desk = Desk(db: Db, pending: map<int, Pending>)

  datatype Action =
    | Read(writer: int, id: Id, u: Update)
    | Write(writer: int, at: Time)
    | Other(statement: Statement)

  const EMPTY_DESK := Desk(Db(map[], []), map[])

  /** The UPDATE itself asks nothing but that the row is there. */
  function Overwrite(db: Db, id: Id, u: Update, at: Time): Db {
    if id in db.calls then db.(calls := db.calls[id := Written(db.calls[id], u, at)]) else db
  }

  predicate Allowed(d: Desk, a: Action) {
    match a
    case Read(writer, _, _) => writer !in d.pending
    case Write(writer, _) => writer in d.pending
    case Other(s) => !s.WriteStatus? && (s.InsertCall? ==> s.id !in d.db.calls)
  }

  /** A read that finds no row, or whose guard refuses, ends its update. */
  function Do(d: Desk, a: Action): Desk
    requires Allowed(d, a)
  {
    match a
    case Read(writer, id, u) =>
      if id in d.db.calls && Permits(d.db.calls[id].status, u.status) then
        d.(pending := d.pending[writer := Pending(id, u, d.db.calls[id].status)])
      else d
    case Write(writer, at) =>
      var p := d.pending[writer];
      Desk(Overwrite(d.db, p.id, p.u, at), d.pending - {writer})
    case Other(s) => d.(db := Apply(d.db, s))
  }

  ghost predicate Run(ds: seq<Desk>, acts: seq<Action>) {
    && |ds| == |acts| + 1 && ds[0] == EMPTY_DESK
    && forall i :: 0 <= i < |acts| ==> Allowed(ds[i], acts[i]) && ds[i + 1] == Do(ds[i], acts[i])
  }

  predicate By(a: Action, writer: int) {
    (a.Read? || a.Write?) && a.writer == writer
  }

  /** Read and written with nothing in between, an update is the guarded update in one step. */
  lemma UndisturbedIsAtomic(d: Desk, writer: int, id: Id, u: Update, at: Time)
    requires writer !in d.pending
    ensures var d' := Do(d, Read(writer, id, u));
            var end := if writer in d'.pending then Do(d', Write(writer, at)) else d';
            end == Desk(UpdateStatus(d.db, id, u, at).0, d.pending)
  {
    assert d.pending[writer := Pending(id, u, Queued)] - {writer} == d.pending;
    if id in d.db.calls {
      assert d.pending[writer := Pending(id, u, d.db.calls[id].status)] - {writer} == d.pending;
    }
  }

  /** Action `j` is the read behind what `writer` has pending in state `k`. */
  ghost predicate ReadAt(ds: seq<Desk>, acts: seq<Action>, writer: int, j: nat, k: nat)
    requires k < |ds| == |acts| + 1
  {
    && j < k && writer in ds[k].pending
    && acts[j] == Read(writer, ds[k].pending[writer].id, ds[k].pending[writer].u)
    && StatusOf(ds[j].db, acts[j].id) == Some(ds[k].pending[writer].seen)
    && Permits(ds[k].pending[writer].seen, acts[j].u.status)
    && forall i :: j < i < k ==> !By(acts[i], writer)
  }

  /** Whatever is pending was read at some earlier step, when its guard let it pass. */
  lemma {:induction false} PendingWasRead(ds: seq<Desk>, acts: seq<Action>, writer: int, k: nat)
    requires Run(ds, acts) && k <= |acts| && writer in ds[k].pending
    ensures exists j: nat :: ReadAt(ds, acts, writer, j, k)
  {
    var a := acts[k - 1];
    assert Allowed(ds[k - 1], a) && ds[k] == Do(ds[k - 1], a);
    if By(a, writer) {
      assert ReadAt(ds, acts, writer, k - 1, k);
    } else {
      PendingWasRead(ds, acts, writer, k - 1);
      var j: nat :| ReadAt(ds, acts, writer, j, k - 1);
      assert ReadAt(ds, acts, writer, j, k);
    }
  }

  /** The action writes a status that is not terminal to the row, on a read that saw none either. */
  predicate WritesStale(d: Desk, a: Action, id: Id) {
    && a.Write? && a.writer in d.pending && d.pending[a.writer].id == id
    && !IsTerminal(d.pending[a.writer].seen) && !IsTerminal(d.pending[a.writer].u.status)
  }

  lemma StepReopensIff(d: Desk, a: Action, id: Id)
    requires Allowed(d, a) && id in d.db.calls && IsTerminal(d.db.calls[id].status) && id in Do(d, a).db.calls
    ensures !Closed(Do(d, a).db, id) <==>
            a.Write? && d.pending[a.writer].id == id && !IsTerminal(d.pending[a.writer].u.status)
  {
  }

  /** In every run a terminal row is reopened at a step if and only if that step writes a status that
      is not terminal, on a read that saw one that was not; and that read came before the row was
      terminal. */
  lemma ReopenedAtStepIff(ds: seq<Desk>, acts: seq<Action>, id: Id, k: nat)
    requires Run(ds, acts) && k < |acts| && id in ds[k].db.calls && IsTerminal(ds[k].db.calls[id].status)
    requires id in ds[k + 1].db.calls
    ensures !Closed(ds[k + 1].db, id) <==> WritesStale(ds[k], acts[k], id)
    ensures !Closed(ds[k + 1].db, id) ==>
              exists j: nat :: ReadAt(ds, acts, acts[k].writer, j, k) && acts[j].id == id && !Closed(ds[j].db, id)
  {
    assert Allowed(ds[k], acts[k]) && ds[k + 1] == Do(ds[k], acts[k]);
    StepReopensIff(ds[k], acts[k], id);
    if acts[k].Write? && ds[k].pending[acts[k].writer].id == id {
      PendingWasRead(ds, acts, acts[k].writer, k);
      var j: nat :| ReadAt(ds, acts, acts[k].writer, j, k);
      assert StatusOf(ds[j].db, id) == Some(ds[k].pending[acts[k].writer].seen);
    }
  }

  /** Some update of the row to a status that is not terminal was read before state `first` and is
      written after it. */
  ghost predicate Straddled(acts: seq<Action>, id: Id, first: nat) {
    exists j: nat, k: nat :: Straddles(acts, id, first, j, k)
  }

  ghost predicate Straddles(acts: seq<Action>, id: Id, first: nat, j: nat, k: nat) {
    && j < first <= k < |acts|
    && acts[j].Read? && acts[j].id == id && !IsTerminal(acts[j].u.status)
    && acts[k].Write? && acts[k].writer == acts[j].writer
    && forall i :: j < i < k ==> !By(acts[i], acts[j].writer)
  }

  ghost predicate ClosedFrom(ds: seq<Desk>, id: Id, first: nat) {
    forall i :: first <= i < |ds| ==> Closed(ds[i].db, id)
  }

  /** The first step to reopen the row writes an update that was read before the row was terminal. */
  lemma ReopeningStraddles(ds: seq<Desk>, acts: seq<Action>, id: Id, first: nat, k: nat)
    requires Run(ds, acts) && first <= k < |acts| && id in ds[k].db.calls && id in ds[k + 1].db.calls
    requires forall i :: first <= i <= k ==> Closed(ds[i].db, id)
    requires !Closed(ds[k + 1].db, id)
    ensures Straddled(acts, id, first)
  {
    ReopenedAtStepIff(ds, acts, id, k);
    var j: nat :| ReadAt(ds, acts, acts[k].writer, j, k) && acts[j].id == id && !Closed(ds[j].db, id);
    assert Straddles(acts, id, first, j, k);
  }

  lemma {:induction false} ClosedUnlessStraddled(ds: seq<Desk>, acts: seq<Action>, id: Id, first: nat, last: nat)
    requires Run(ds, acts) && first <= last <= |acts| && Closed(ds[first].db, id)
    requires forall i :: first <= i <= |acts| ==> id in ds[i].db.calls
    ensures Straddled(acts, id, first) || forall i :: first <= i <= last ==> Closed(ds[i].db, id)
    decreases last
  {
    if first < last {
      ClosedUnlessStraddled(ds, acts, id, first, last - 1);
      if !Straddled(acts, id, first) && !Closed(ds[last - 1 + 1].db, id) {
        ReopeningStraddles(ds, acts, id, first, last - 1);
      }
    }
  }

  lemma StraddlingReopens(ds: seq<Desk>, acts: seq<Action>, id: Id, first: nat, j: nat, k: nat)
    requires Run(ds, acts) && Straddles(acts, id, first, j, k) && id in ds[k].db.calls
    ensures !Closed(ds[k + 1].db, id)
  {
    var writer := acts[k].writer;
    assert Allowed(ds[k], acts[k]) && ds[k + 1] == Do(ds[k], acts[k]);
    PendingWasRead(ds, acts, writer, k);
    var r: nat :| ReadAt(ds, acts, writer, r, k);
    assert By(acts[j], writer) && By(acts[r], writer);
    assert r == j;
  }

  /** What the guard in `update_call_status` is worth with its two awaits: over every run, a terminal
      row stays terminal for as long as it lives exactly when no update to another kind of status
      was read before that and is written after it. */
  lemma TerminalUnlessStraddled(ds: seq<Desk>, acts: seq<Action>, id: Id, first: nat)
    requires Run(ds, acts) && first <= |acts| && Closed(ds[first].db, id)
    requires forall i :: first <= i <= |acts| ==> id in ds[i].db.calls
    ensures ClosedFrom(ds, id, first) <==> !Straddled(acts, id, first)
  {
    if Straddled(acts, id, first) {
      var j: nat, k: nat :| Straddles(acts, id, first, j, k);
      StraddlingReopens(ds, acts, id, first, j, k);
    } else {
      ClosedUnlessStraddled(ds, acts, id, first, |acts|);
    }
  }

  lemma RunSnoc(ds: seq<Desk>, acts: seq<Action>, a: Action)
    requires Run(ds, acts) && Allowed(ds[|acts|], a)
    ensures Run(ds + [Do(ds[|acts|], a)], acts + [a])
  {
    var longer, more := ds + [Do(ds[|acts|], a)], acts + [a];
    forall i | 0 <= i < |more| ensures Allowed(longer[i], more[i]) && longer[i + 1] == Do(longer[i], more[i]) {
      if i < |acts| {
        assert Allowed(ds[i], acts[i]) && ds[i + 1] == Do(ds[i], acts[i]);
      }
    }
  }

  /** A call picked up and announced on channel `c`, by one undisturbed update. */
  lemma AnnouncedCall() returns (ds: seq<Desk>, acts: seq<Action>)
    ensures Run(ds, acts) && ds[|acts|].pending == map[]
    ensures StatusOf(ds[|acts|].db, "r") == Some(Answered)
  {
    ds, acts := [EMPTY_DESK], [];
    var insert := Other(InsertCall("r", "09123456789", "1234", None, 0.0));
    RunSnoc(ds, acts, insert);
    ds, acts := ds + [Do(ds[|acts|], insert)], acts + [insert];
    var read := Read(1, "r", StatusOnly(Answered).(channel := Some("c")));
    UndisturbedIsAtomic(ds[|acts|], 1, "r", read.u, 1.0);
    RunSnoc(ds, acts, read);
    ds, acts := ds + [Do(ds[|acts|], read)], acts + [read];
    RunSnoc(ds, acts, Write(1, 1.0));
    ds, acts := ds + [Do(ds[|acts|], Write(1, 1.0))], acts + [Write(1, 1.0)];
  }

  /** Its hangup and its playback event, handled at once, have both read `answered`. */
  lemma BothHaveRead() returns (ds: seq<Desk>, acts: seq<Action>)
    ensures Run(ds, acts) && StatusOf(ds[|acts|].db, "r") == Some(Answered)
    ensures ds[|acts|].pending == map[2 := Pending("r", HangupUpdate(Answered, 17, ""), Answered),
                                      3 := Pending("r", StatusOnly(Playing), Answered)]
  {
    ds, acts := AnnouncedCall();
    var hangup := Read(2, "r", HangupUpdate(Answered, 17, ""));
    RunSnoc(ds, acts, hangup);
    ds, acts := ds + [Do(ds[|acts|], hangup)], acts + [hangup];
    var play := Read(3, "r", StatusOnly(Playing));
    RunSnoc(ds, acts, play);
    ds, acts := ds + [Do(ds[|acts|], play)], acts + [play];
  }

  lemma PlayingAfterBusy(d: Desk)
    requires StatusOf(d.db, "r") == Some(Answered)
    requires d.pending == map[2 := Pending("r", HangupUpdate(Answered, 17, ""), Answered),
                              3 := Pending("r", StatusOnly(Playing), Answered)]
    ensures var d' := Do(d, Write(2, 2.0));
            && Allowed(d', Write(3, 2.0)) && StatusOf(d'.db, "r") == Some(Busy)
            && StatusOf(Do(d', Write(3, 2.0)).db, "r") == Some(Playing)
  {
  }

  lemma BusyThenPlaying() returns (ds: seq<Desk>, acts: seq<Action>)
    ensures Run(ds, acts) && acts != []
    ensures StatusOf(ds[|acts| - 1].db, "r") == Some(Busy) && StatusOf(ds[|acts|].db, "r") == Some(Playing)
  {
    ds, acts := BothHaveRead();
    var n := |acts|;
    PlayingAfterBusy(ds[n]);
    RunSnoc(ds, acts, Write(2, 2.0));
    ds, acts := ds + [Do(ds[n], Write(2, 2.0))], acts + [Write(2, 2.0)];
    RunSnoc(ds, acts, Write(3, 2.0));
    ds, acts := ds + [Do(ds[n + 1], Write(3, 2.0))], acts + [Write(3, 2.0)];
  }

  /** The documented promise does fail, from empty tables: both updates were let pass on `answered`,
      the hangup writes `busy`, and the playback event writes `playing` over it. */
  lemma TerminalRowCanReopen()
    ensures exists ds: seq<Desk>, acts: seq<Action> :: Run(ds, acts) && acts != []
              && StatusOf(ds[|acts| - 1].db, "r") == Some(Busy) && StatusOf(ds[|acts|].db, "r") == Some(Playing)
  {
    var ds, acts := BusyThenPlaying();
  }
}
