/** What every behaviour of the service keeps, across limiter, tables, retries and calls. */
module ServiceRuns {
  import opened Prelude
  import opened SlidingWindow
  import opened RateLimiting
  import opened LimiterRuns
  import opened CallStorage
  import opened CallCommands
  import opened CallRuns
  import opened Routes
  import opened Service
  import V = Validation

  // ----- The limiter inside the service -----

  ghost predicate LimiterInv(cfg: Config, w: World) {
    Tracks(cfg.limits, w.limiter, w.log, w.clock) && Tidy(cfg.limits, w.limiter)
  }

  lemma HourlyPart(limits: Limits, s: LimiterState, g: Log, clock: Time, at: Time)
    requires Tracks(limits, s, g, clock) && clock <= at
    ensures var (s', ok) := CheckHourly(limits, s, at);
            Tracks(limits, s', if ok then g.(hourly := g.hourly + [at]) else g, at)
  {
    StepTracks(limits, s, g, clock, Hourly(at));
  }

  lemma NumberPart(limits: Limits, s: LimiterState, g: Log, mobile: string, at: Time)
    requires Tracks(limits, s, g, at)
    ensures var (s', v) := CheckNumber(limits, s, mobile, at);
            Tracks(limits, s', if v.Admitted? then g.(admitted := g.admitted + [Admission(mobile, at)]) else g, at)
  {
    StepTracks(limits, s, g, at, Number(mobile, at));
  }

  /** Admission with the log beside it, check by check. */
  function AdmitLogged(limits: Limits, s: LimiterState, g: Log, mobile: string, at: Time): (LimiterState, Log) {
    if !HasCapacity(limits, s) then (s, g)
    else
      var (s1, ok) := CheckHourly(limits, s, at);
      if !ok then (s1, g)
      else
        var g1 := g.(hourly := g.hourly + [at]);
        var (s2, v) := CheckNumber(limits, s1, mobile, at);
        (s2, if v.Admitted? then g1.(admitted := g.admitted + [Admission(mobile, at)]) else g1)
  }

  lemma AdmitLoggedIsAdmit(limits: Limits, s: LimiterState, g: Log, mobile: string, at: Time)
    ensures var (s', gate) := Admit(limits, s, mobile, at);
            AdmitLogged(limits, s, g, mobile, at) == (s', LogAdmission(g, gate, mobile, at))
  {
  }

  lemma AdmitLoggedTracks(limits: Limits, s: LimiterState, g: Log, clock: Time, mobile: string, at: Time)
    requires Tracks(limits, s, g, clock) && clock <= at
    ensures var (s', g') := AdmitLogged(limits, s, g, mobile, at); Tracks(limits, s', g', at)
  {
    if !HasCapacity(limits, s) {
      TracksLater(limits, s, g, clock, at);
    } else {
      HourlyPart(limits, s, g, clock, at);
      var (s1, ok) := CheckHourly(limits, s, at);
      if ok {
        NumberPart(limits, s1, g.(hourly := g.hourly + [at]), mobile, at);
      }
    }
  }

  lemma AdmitTracks(limits: Limits, s: LimiterState, g: Log, clock: Time, mobile: string, at: Time)
    requires Tracks(limits, s, g, clock) && clock <= at
    ensures var (s', gate) := Admit(limits, s, mobile, at); Tracks(limits, s', LogAdmission(g, gate, mobile, at), at)
  {
    AdmitLoggedTracks(limits, s, g, clock, mobile, at);
    AdmitLoggedIsAdmit(limits, s, g, mobile, at);
  }

  lemma AdmitTidy(limits: Limits, s: LimiterState, mobile: string, at: Time)
    requires Tidy(limits, s)
    ensures Tidy(limits, Admit(limits, s, mobile, at).0)
    ensures Admit(limits, s, mobile, at).0.active == s.active
  {
    if HasCapacity(limits, s) {
      StepTidy(limits, s, Hourly(at));
      StepTidy(limits, CheckHourly(limits, s, at).0, Number(mobile, at));
    }
  }

  lemma TracksAnyActive(limits: Limits, s: LimiterState, s': LimiterState, g: Log, clock: Time, now: Time)
    requires Tracks(limits, s, g, clock) && clock <= now && s'.numbers == s.numbers && s'.hourly == s.hourly
    ensures Tracks(limits, s', g, now)
  {
    forall m ensures HistoryOf(s', m) == HistoryOf(s, m) {
    }
  }

  lemma LimiterStep(cfg: Config, w: World, st: Step, w': World)
    requires LimiterInv(cfg, w) && Advance(cfg, w, st, w')
    ensures LimiterInv(cfg, w')
  {
    if IsAdmission(st) {
      AdmitTracks(cfg.limits, w.limiter, w.log, w.clock, MobileOf(cfg, w, st), st.at);
      AdmitTidy(cfg.limits, w.limiter, MobileOf(cfg, w, st), st.at);
    } else if st.CleanLimiter? {
      CleanupStep(cfg.limits, w.limiter, w.log, w.clock, st.at);
      StepTidy(cfg.limits, w.limiter, Cleanup(st.at));
    } else {
      TracksAnyActive(cfg.limits, w.limiter, w'.limiter, w.log, w.clock, st.at);
    }
  }

  // ----- Every admission is an hourly entry -----

  function AllTimes(admitted: seq<Admission>): seq<Time> {
    seq(|admitted|, i requires 0 <= i < |admitted| => admitted[i].at)
  }

  /** In no window are there more admissions than hourly entries. */
  ghost predicate HourlyCovers(g: Log) {
    forall cutoff :: |Since(AllTimes(g.admitted), cutoff)| <= |Since(g.hourly, cutoff)|
  }

  lemma CoversAdmission(g: Log, gate: Gate, mobile: string, at: Time, cutoff: Time)
    requires |Since(AllTimes(g.admitted), cutoff)| <= |Since(g.hourly, cutoff)|
    ensures var g' := LogAdmission(g, gate, mobile, at);
            |Since(AllTimes(g'.admitted), cutoff)| <= |Since(g'.hourly, cutoff)|
  {
    SinceSnoc(g.hourly, at, cutoff);
    SinceSnoc(AllTimes(g.admitted), at, cutoff);
    assert AllTimes(g.admitted + [Admission(mobile, at)]) == AllTimes(g.admitted) + [at];
  }

  lemma CoversStep(cfg: Config, w: World, st: Step, w': World)
    requires HourlyCovers(w.log) && Advance(cfg, w, st, w')
    ensures HourlyCovers(w'.log)
  {
    if IsAdmission(st) {
      var gate, mobile := GateOf(cfg, w, st), MobileOf(cfg, w, st);
      assert w'.log == LogAdmission(w.log, gate, mobile, st.at);
      forall cutoff ensures |Since(AllTimes(w'.log.admitted), cutoff)| <= |Since(w'.log.hourly, cutoff)| {
        CoversAdmission(w.log, gate, mobile, st.at, cutoff);
      }
    }
  }

  // ----- Births: who was ever created, from whom -----

  function AdmissionsOf(births: seq<Birth>): seq<Admission> {
    seq(|births|, i requires 0 <= i < |births| => Admission(births[i].mobile, births[i].at))
  }

  ghost predicate Born(births: seq<Birth>, id: Id, mobile: string) {
    exists i :: 0 <= i < |births| && births[i].id == id && births[i].mobile == mobile
  }

  /** The parent of the k-th birth, if it has one, is an earlier birth with the same number. */
  ghost predicate HasEarlierParent(births: seq<Birth>, k: nat)
    requires k < |births|
  {
    births[k].parent.Some? ==>
      exists j :: 0 <= j < k && births[j].id == births[k].parent.value && births[j].mobile == births[k].mobile
                  && births[j].at <= births[k].at
  }

  ghost predicate DistinctBirths(births: seq<Birth>) {
    forall i, j :: 0 <= i < j < |births| ==> births[i].id != births[j].id
  }

  ghost predicate BirthInv(cfg: Config, w: World) {
    && w.log.admitted == AdmissionsOf(w.births)
    && DistinctBirths(w.births)
    && (forall i :: 0 <= i < |w.births| ==> V.Canonical(w.births[i].mobile, cfg.classes) && w.births[i].at <= w.clock)
    && (forall i :: 0 <= i < |w.births| ==> HasEarlierParent(w.births, i))
  }

  /** A row says of itself what its birth says, and expires a fixed time after it. */
  ghost predicate RowMatches(births: seq<Birth>, id: Id, row: Row) {
    && (exists i :: 0 <= i < |births| && births[i] == Birth(id, row.mobile, row.parent, row.createdAt))
    && row.expiresAt == row.createdAt + TTL
  }

  ghost predicate RowInv(w: World) {
    forall id :: id in w.db.calls ==> RowMatches(w.births, id, w.db.calls[id])
  }

  /** Pending retries remember a call that was born with the number they remember. */
  ghost predicate TaskInv(w: World) {
    forall t :: t in w.retries ==>
      match w.retries[t]
      case Loaded(parent, mobile, _) => Born(w.births, parent, mobile)
      case Inserted(parent, _) => exists mobile :: Born(w.births, parent, mobile)
  }

  ghost predicate Lineage(cfg: Config, w: World) {
    BirthInv(cfg, w) && RowInv(w) && TaskInv(w)
  }

  lemma BornLater(births: seq<Birth>, more: seq<Birth>, id: Id, mobile: string)
    requires Born(births, id, mobile)
    ensures Born(births + more, id, mobile)
  {
    var i :| 0 <= i < |births| && births[i].id == id && births[i].mobile == mobile;
    assert (births + more)[i] == births[i];
  }

  lemma ActKeepsIdentity(v: CallView, id: Id, c: Command)
    requires !c.Insert? && Act(v, id, c).row.Some?
    ensures v.row.Some?
    ensures var row, row' := v.row.value, Act(v, id, c).row.value;
            && row'.mobile == row.mobile && row'.parent == row.parent
            && row'.createdAt == row.createdAt && row'.expiresAt == row.expiresAt
            && row'.retryCount == row.retryCount + (if c.CountRetry? then 1 else 0)
  {
  }

  /** A row keeps its identity under every command, and its retry count changes only when it is
      counted. */
  lemma RowKeepsIdentity(db: Db, c: Command, db': Db, id: Id)
    requires Next(db, c, db') && id in db'.calls && !(c.Insert? && c.id == id)
    ensures id in db.calls
    ensures var row, row' := db.calls[id], db'.calls[id];
            && row'.mobile == row.mobile && row'.parent == row.parent
            && row'.createdAt == row.createdAt && row'.expiresAt == row.expiresAt
            && row'.retryCount == row.retryCount + (if c.CountRetry? && c.id == id then 1 else 0)
  {
    if c.CountRetry? {
      NamedStep(db, c, db', id);
    } else {
      Localised(db, c, db', id);
    }
    if View(db', id) != View(db, id) {
      ActKeepsIdentity(View(db, id), id, c);
    }
  }

  lemma InsertedRow(db: Db, c: Command, db': Db)
    requires Next(db, c, db') && c.Insert?
    ensures db'.calls == db.calls[c.id := NewRow(c.mobile, c.code, c.parent, c.at)]
  {
  }

  lemma BirthAppend(cfg: Config, w: World, b: Birth, now: Time)
    requires BirthInv(cfg, w) && w.clock <= b.at == now && V.Canonical(b.mobile, cfg.classes) && Fresh(w, b.id)
    requires b.parent.Some? ==> Born(w.births, b.parent.value, b.mobile)
    ensures var births := w.births + [b];
            && w.log.admitted + [Admission(b.mobile, b.at)] == AdmissionsOf(births)
            && DistinctBirths(births)
            && (forall i :: 0 <= i < |births| ==> V.Canonical(births[i].mobile, cfg.classes) && births[i].at <= now)
            && (forall i :: 0 <= i < |births| ==> HasEarlierParent(births, i))
  {
    var births := w.births + [b];
    forall i | 0 <= i < |births| ensures HasEarlierParent(births, i) {
      if i < |w.births| {
        assert HasEarlierParent(w.births, i);
        if births[i].parent.Some? {
          var j :| 0 <= j < i && w.births[j].id == w.births[i].parent.value && w.births[j].mobile == w.births[i].mobile
                   && w.births[j].at <= w.births[i].at;
          assert births[j] == w.births[j];
        }
      } else if b.parent.Some? {
        var j :| 0 <= j < |w.births| && w.births[j].id == b.parent.value && w.births[j].mobile == b.mobile;
        assert births[j] == w.births[j];
      }
    }
  }

  /** The number an admission goes by is canonical, and a retry shares its parent's. */
  lemma AdmittedMobile(cfg: Config, w: World, st: Step)
    requires Lineage(cfg, w) && Enabled(cfg, w, st) && IsAdmission(st)
    ensures V.Canonical(MobileOf(cfg, w, st), cfg.classes)
    ensures ParentOf(w, st).Some? ==> Born(w.births, ParentOf(w, st).value, MobileOf(cfg, w, st))
  {
    if st.Request? {
      V.AcceptedSpellings(st.rawMobile, cfg.classes);
    }
  }

  /** What a step writes into the history. */
  lemma HistoryStep(cfg: Config, w: World, st: Step, w': World)
    requires Advance(cfg, w, st, w')
    ensures w'.clock == st.at
    ensures w'.births == if LetsIn(cfg, w, st) then w.births + [BirthOf(cfg, w, st)] else w.births
    ensures w'.log.admitted ==
            if LetsIn(cfg, w, st) then w.log.admitted + [Admission(MobileOf(cfg, w, st), st.at)] else w.log.admitted
  {
  }

  lemma BirthStep(cfg: Config, w: World, st: Step, w': World)
    requires Lineage(cfg, w) && Advance(cfg, w, st, w')
    ensures BirthInv(cfg, w')
    ensures w'.births == if LetsIn(cfg, w, st) then w.births + [BirthOf(cfg, w, st)] else w.births
  {
    HistoryStep(cfg, w, st, w');
    if LetsIn(cfg, w, st) {
      AdmittedMobile(cfg, w, st);
      BirthAppend(cfg, w, BirthOf(cfg, w, st), st.at);
    }
  }

  lemma RowMatchesLater(births: seq<Birth>, more: seq<Birth>, id: Id, row: Row)
    requires RowMatches(births, id, row)
    ensures RowMatches(births + more, id, row)
  {
    var i :| 0 <= i < |births| && births[i] == Birth(id, row.mobile, row.parent, row.createdAt);
    assert (births + more)[i] == births[i];
  }

  lemma RowStep(cfg: Config, w: World, st: Step, w': World)
    requires Lineage(cfg, w) && Advance(cfg, w, st, w')
    requires w'.births == if LetsIn(cfg, w, st) then w.births + [BirthOf(cfg, w, st)] else w.births
    ensures RowInv(w')
  {
    var c := CommandOf(cfg, w, st);
    forall id | id in w'.db.calls ensures RowMatches(w'.births, id, w'.db.calls[id]) {
      if c.Insert? && c.id == id {
        InsertedRow(w.db, c, w'.db);
        assert w'.births[|w.births|] == BirthOf(cfg, w, st);
      } else {
        RowKeepsIdentity(w.db, c, w'.db, id);
        RowMatchesLater(w.births, w'.births[|w.births|..], id, w.db.calls[id]);
        assert w.births + w'.births[|w.births|..] == w'.births;
      }
    }
  }

  lemma TaskStep(cfg: Config, w: World, st: Step, w': World)
    requires Lineage(cfg, w) && Advance(cfg, w, st, w')
    requires w'.births == if LetsIn(cfg, w, st) then w.births + [BirthOf(cfg, w, st)] else w.births
    ensures TaskInv(w')
  {
    var more := w'.births[|w.births|..];
    assert w'.births == w.births + more;
    forall id, mobile | Born(w.births, id, mobile) ensures Born(w'.births, id, mobile) {
      BornLater(w.births, more, id, mobile);
    }
    if st.RetryLoad? {
      assert RowMatches(w.births, st.parent, w.db.calls[st.parent]);
      assert Born(w.births, st.parent, w.db.calls[st.parent].mobile);
    }
  }

  lemma LineageStep(cfg: Config, w: World, st: Step, w': World)
    requires Lineage(cfg, w) && Advance(cfg, w, st, w')
    ensures Lineage(cfg, w')
  {
    BirthStep(cfg, w, st, w');
    RowStep(cfg, w, st, w');
    TaskStep(cfg, w, st, w');
  }

  // ----- Parents of retries are terminal -----

  ghost predicate ParentInv(w: World) {
    && (forall i :: 0 <= i < |w.births| && w.births[i].parent.Some? ==> Closed(w.db, w.births[i].parent.value))
    && (forall t :: t in w.retries ==> Closed(w.db, w.retries[t].parent))
  }

  ghost predicate IsParent(w: World, id: Id) {
    || (exists i :: 0 <= i < |w.births| && w.births[i].parent == Some(id))
    || (exists t :: t in w.retries && w.retries[t].parent == id)
  }

  /** A parent was born before, so no fresh identifier is one. */
  lemma ParentsAreNotFresh(cfg: Config, w: World, id: Id)
    requires Lineage(cfg, w) && IsParent(w, id)
    ensures !Fresh(w, id)
  {
    if i :| 0 <= i < |w.births| && w.births[i].parent == Some(id) {
      assert HasEarlierParent(w.births, i);
    }
  }

  lemma ParentStaysClosed(cfg: Config, w: World, st: Step, w': World, id: Id)
    requires Lineage(cfg, w) && Advance(cfg, w, st, w') && IsParent(w, id) && Closed(w.db, id)
    ensures Closed(w'.db, id)
  {
    ParentsAreNotFresh(cfg, w, id);
    ClosedStaysClosed(w.db, CommandOf(cfg, w, st), w'.db, id);
  }

  lemma ParentStep(cfg: Config, w: World, st: Step, w': World)
    requires Lineage(cfg, w) && ParentInv(w) && Advance(cfg, w, st, w')
    ensures ParentInv(w')
  {
    forall id | IsParent(w, id) ensures Closed(w'.db, id) {
      ParentStaysClosed(cfg, w, st, w', id);
    }
    forall i | 0 <= i < |w'.births| && w'.births[i].parent.Some? ensures Closed(w'.db, w'.births[i].parent.value) {
      assert IsParent(w, w'.births[i].parent.value);
    }
    forall t | t in w'.retries ensures Closed(w'.db, w'.retries[t].parent) {
      if st.RetryLoad? && t == st.task {
        ClosedStaysClosed(w.db, CommandOf(cfg, w, st), w'.db, st.parent);
      } else {
        assert IsParent(w, w'.retries[t].parent);
      }
    }
  }

  // ----- Retry accounting -----

  /** The rows present that were created by retrying `parent`. */
  ghost function Children(db: Db, parent: Id): set<Id> {
    set id | id in db.calls && db.calls[id].parent == Some(parent)
  }

  /** The retries of `parent` that are between their insert and their increment. */
  ghost function Pending(w: World, parent: Id): set<int> {
    set t | t in w.retries && w.retries[t].Inserted? && w.retries[t].parent == parent
  }

  ghost predicate Accounted(w: World) {
    forall p :: p in w.db.calls ==> w.db.calls[p].retryCount + |Pending(w, p)| == |Children(w.db, p)|
  }

  lemma ActKeepsRow(v: CallView, id: Id, c: Command)
    requires !c.Insert? && !c.Expire?
    ensures Act(v, id, c).row.Some? <==> v.row.Some?
  {
  }

  lemma KeysKept(db: Db, c: Command, db': Db)
    requires Next(db, c, db') && !c.Insert? && !c.Expire?
    ensures db'.calls.Keys == db.calls.Keys
  {
    forall id ensures id in db'.calls <==> id in db.calls {
      Localised(db, c, db', id);
      if View(db', id) != View(db, id) {
        ActKeepsRow(View(db, id), id, c);
      }
    }
  }

  lemma ChildrenKept(db: Db, c: Command, db': Db, p: Id)
    requires Next(db, c, db') && !c.Insert? && !c.Expire?
    ensures Children(db', p) == Children(db, p)
  {
    KeysKept(db, c, db');
    forall id ensures id in Children(db', p) <==> id in Children(db, p) {
      if id in db'.calls {
        RowKeepsIdentity(db, c, db', id);
      }
    }
  }

  lemma SameBirth(births: seq<Birth>, i: nat, j: nat)
    requires DistinctBirths(births) && i < |births| && j < |births| && births[i].id == births[j].id
    ensures i == j
  {
  }

  /** A row created by a retry is never older than its parent's row. */
  lemma ChildIsYounger(cfg: Config, w: World, id: Id, p: Id)
    requires Lineage(cfg, w) && id in w.db.calls && p in w.db.calls && w.db.calls[id].parent == Some(p)
    ensures w.db.calls[p].expiresAt <= w.db.calls[id].expiresAt
  {
    var child, parent := w.db.calls[id], w.db.calls[p];
    assert RowMatches(w.births, id, child) && RowMatches(w.births, p, parent);
    var i :| 0 <= i < |w.births| && w.births[i] == Birth(id, child.mobile, child.parent, child.createdAt);
    var k :| 0 <= k < |w.births| && w.births[k] == Birth(p, parent.mobile, parent.parent, parent.createdAt);
    assert HasEarlierParent(w.births, i);
    var j :| 0 <= j < i && w.births[j].id == p && w.births[j].at <= w.births[i].at;
    SameBirth(w.births, j, k);
  }

  /** Expiry takes no child of a parent it leaves. */
  lemma ExpiryKeepsChildren(cfg: Config, w: World, at: Time, p: Id)
    requires Lineage(cfg, w) && p in ExpireCalls(w.db, at).calls
    ensures Children(ExpireCalls(w.db, at), p) == Children(w.db, p)
  {
    forall id | id in Children(w.db, p) ensures id in Children(ExpireCalls(w.db, at), p) {
      ChildIsYounger(cfg, w, id, p);
    }
  }

  lemma RowParentIsParent(w: World, id: Id)
    requires RowInv(w) && id in w.db.calls && w.db.calls[id].parent.Some?
    ensures IsParent(w, w.db.calls[id].parent.value)
  {
    assert RowMatches(w.births, id, w.db.calls[id]);
  }

  lemma FreshHasNoRetries(cfg: Config, w: World, id: Id)
    requires Lineage(cfg, w) && Fresh(w, id)
    ensures Children(w.db, id) == {} && Pending(w, id) == {} && id !in w.db.calls
  {
    forall child | child in w.db.calls && w.db.calls[child].parent.Some? ensures w.db.calls[child].parent.value != id {
      RowParentIsParent(w, child);
      ParentsAreNotFresh(cfg, w, w.db.calls[child].parent.value);
    }
    forall t | t in w.retries ensures w.retries[t].parent != id {
      assert IsParent(w, w.retries[t].parent);
      ParentsAreNotFresh(cfg, w, w.retries[t].parent);
    }
    forall i | i in w.db.calls ensures i != id {
      assert RowMatches(w.births, i, w.db.calls[i]);
    }
  }

  lemma ChildrenWith(db: Db, db': Db, id: Id, row: Row, p: Id)
    requires id !in db.calls && db'.calls == db.calls[id := row]
    ensures |Children(db', p)| == |Children(db, p)| + (if row.parent == Some(p) then 1 else 0)
  {
    assert Children(db', p) == Children(db, p) + (if row.parent == Some(p) then {id} else {});
  }

  lemma PendingWith(w: World, w': World, task: int, parent: Id, child: Id, p: Id)
    requires task in w.retries && w.retries[task].Loaded? && w'.retries == w.retries[task := Inserted(parent, child)]
    ensures |Pending(w', p)| == |Pending(w, p)| + (if parent == p then 1 else 0)
  {
    assert Pending(w', p) == Pending(w, p) + (if parent == p then {task} else {});
  }

  lemma AccountInsert(cfg: Config, w: World, st: Step, w': World, p: Id)
    requires Lineage(cfg, w) && Accounted(w) && Advance(cfg, w, st, w') && LetsIn(cfg, w, st) && p in w'.db.calls
    ensures w'.db.calls[p].retryCount + |Pending(w', p)| == |Children(w'.db, p)|
  {
    var c := CommandOf(cfg, w, st);
    InsertedRow(w.db, c, w'.db);
    FreshHasNoRetries(cfg, w, st.id);
    ChildrenWith(w.db, w'.db, st.id, NewRow(c.mobile, c.code, c.parent, c.at), p);
    if st.Request? {
      assert Pending(w', p) == Pending(w, p);
    } else {
      PendingWith(w, w', st.task, w.retries[st.task].parent, st.id, p);
    }
  }

  lemma AccountCount(cfg: Config, w: World, st: Step, w': World, p: Id)
    requires Accounted(w) && Advance(cfg, w, st, w') && st.RetryCount? && p in w'.db.calls
    ensures w'.db.calls[p].retryCount + |Pending(w', p)| == |Children(w'.db, p)|
  {
    var c := CommandOf(cfg, w, st);
    RowKeepsIdentity(w.db, c, w'.db, p);
    ChildrenKept(w.db, c, w'.db, p);
    if w.retries[st.task].parent == p {
      assert Pending(w', p) == Pending(w, p) - {st.task};
    } else {
      assert Pending(w', p) == Pending(w, p);
    }
  }

  lemma PendingKept(cfg: Config, w: World, st: Step, w': World, p: Id)
    requires Advance(cfg, w, st, w') && !LetsIn(cfg, w, st) && !st.RetryCount?
    ensures Pending(w', p) == Pending(w, p)
  {
  }

  lemma AccountOther(cfg: Config, w: World, st: Step, w': World, p: Id)
    requires Lineage(cfg, w) && Accounted(w) && Advance(cfg, w, st, w') && p in w'.db.calls
    requires !LetsIn(cfg, w, st) && !st.RetryCount?
    ensures w'.db.calls[p].retryCount + |Pending(w', p)| == |Children(w'.db, p)|
  {
    PendingKept(cfg, w, st, w', p);
    CommandKinds(cfg, w, st);
    AccountQuiet(cfg, w, CommandOf(cfg, w, st), w'.db, p);
  }

  /** A command that neither inserts nor counts keeps both the count and the children of a row. */
  lemma AccountQuiet(cfg: Config, w: World, c: Command, db': Db, p: Id)
    requires Lineage(cfg, w) && Next(w.db, c, db') && p in db'.calls && !c.Insert? && !c.CountRetry?
    ensures p in w.db.calls && db'.calls[p].retryCount == w.db.calls[p].retryCount
    ensures Children(db', p) == Children(w.db, p)
  {
    RowKeepsIdentity(w.db, c, db', p);
    if c.Expire? {
      ExpiryKeepsChildren(cfg, w, c.at, p);
    } else {
      ChildrenKept(w.db, c, db', p);
    }
  }

  /** Which steps insert, count and expire. */
  lemma CommandKinds(cfg: Config, w: World, st: Step)
    requires Enabled(cfg, w, st)
    ensures var c := CommandOf(cfg, w, st);
            && (c.Insert? <==> LetsIn(cfg, w, st))
            && (c.CountRetry? <==> st.RetryCount?)
            && (c.Expire? <==> st.ExpireRows?)
  {
  }

  lemma AccountStep(cfg: Config, w: World, st: Step, w': World)
    requires Lineage(cfg, w) && Accounted(w) && Advance(cfg, w, st, w')
    ensures Accounted(w')
  {
    forall p | p in w'.db.calls ensures w'.db.calls[p].retryCount + |Pending(w', p)| == |Children(w'.db, p)| {
      if LetsIn(cfg, w, st) {
        AccountInsert(cfg, w, st, w', p);
      } else if st.RetryCount? {
        AccountCount(cfg, w, st, w', p);
      } else {
        AccountOther(cfg, w, st, w', p);
      }
    }
  }

  // ----- Call slots -----

  predicate HoldsSlot(p: Phase) {
    p != Scheduled
  }

  /** The background calls between acquire and release, dead ones included. */
  ghost function Holding(execs: map<Id, Phase>): set<Id> {
    set id | id in execs && HoldsSlot(execs[id])
  }

  /** Background calls belong to distinct births, and no pending retry has started its own. */
  ghost predicate TaskIds(w: World) {
    && (forall id :: id in w.execs ==> !Fresh(w, id))
    && (forall t :: t in w.retries && w.retries[t].Inserted? ==>
          !Fresh(w, w.retries[t].child) && w.retries[t].child !in w.execs)
    && (forall t, t' ::
          t in w.retries && t' in w.retries && t != t' && w.retries[t].Inserted? && w.retries[t'].Inserted? ==>
          w.retries[t].child != w.retries[t'].child)
  }

  ghost predicate SlotInv(w: World) {
    TaskIds(w) && w.limiter.active == |Holding(w.execs)|
  }

  lemma StaysStale(births: seq<Birth>, w: World, w': World, id: Id)
    requires births == w.births && w.births <= w'.births && !Fresh(w, id)
    ensures !Fresh(w', id)
  {
    var i :| 0 <= i < |w.births| && w.births[i].id == id;
    assert w'.births[i].id == id;
  }

  lemma StaleStep(cfg: Config, w: World, st: Step, w': World)
    requires Advance(cfg, w, st, w')
    ensures forall id :: !Fresh(w, id) ==> !Fresh(w', id)
    ensures LetsIn(cfg, w, st) ==> !Fresh(w', st.id)
  {
    HistoryStep(cfg, w, st, w');
    forall id | !Fresh(w, id) ensures !Fresh(w', id) {
      StaysStale(w.births, w, w', id);
    }
    if LetsIn(cfg, w, st) {
      assert w'.births[|w.births|].id == st.id;
    }
  }

  lemma TaskIdsStep(cfg: Config, w: World, st: Step, w': World)
    requires TaskIds(w) && Advance(cfg, w, st, w')
    ensures TaskIds(w')
  {
    StaleStep(cfg, w, st, w');
  }

  lemma AdmitKeepsActive(cfg: Config, w: World, st: Step, w': World)
    requires Advance(cfg, w, st, w') && !st.ExecAcquire? && !st.ExecRelease?
    ensures w'.limiter.active == w.limiter.active
  {
  }

  lemma HoldingKept(cfg: Config, w: World, st: Step, w': World)
    requires TaskIds(w) && Advance(cfg, w, st, w') && !st.ExecAcquire? && !st.ExecRelease?
    ensures Holding(w'.execs) == Holding(w.execs)
  {
    if st.RetryCount? {
      assert w.retries[st.task].child !in w.execs;
    }
  }

  lemma HoldingTaken(execs: map<Id, Phase>, id: Id)
    requires id in execs && execs[id] == Scheduled
    ensures |Holding(execs[id := Acquired])| == |Holding(execs)| + 1
  {
    assert Holding(execs[id := Acquired]) == Holding(execs) + {id};
  }

  lemma HoldingReturned(execs: map<Id, Phase>, id: Id)
    requires id in execs && HoldsSlot(execs[id])
    ensures |Holding(execs - {id})| == |Holding(execs)| - 1
  {
    assert id in Holding(execs) && Holding(execs - {id}) == Holding(execs) - {id};
  }

  lemma SlotStep(cfg: Config, w: World, st: Step, w': World)
    requires SlotInv(w) && Advance(cfg, w, st, w')
    ensures SlotInv(w')
  {
    TaskIdsStep(cfg, w, st, w');
    if st.ExecAcquire? {
      HoldingTaken(w.execs, st.id);
    } else if st.ExecRelease? {
      HoldingReturned(w.execs, st.id);
    } else {
      AdmitKeepsActive(cfg, w, st, w');
      HoldingKept(cfg, w, st, w');
    }
  }

  // ----- Calls waiting for their slot -----

  ghost function ScheduledCalls(execs: map<Id, Phase>): set<Id> {
    set id | id in execs && execs[id] == Scheduled
  }

  ghost function InsertedRetries(retries: map<int, RetryTask>): set<int> {
    set t | t in retries && retries[t].Inserted?
  }

  /** The admitted calls that have not taken their slot yet. */
  ghost function Waiting(w: World): nat {
    |ScheduledCalls(w.execs)| + |InsertedRetries(w.retries)|
  }

  lemma ScheduledPut(execs: map<Id, Phase>, id: Id, p: Phase)
    ensures ScheduledCalls(execs[id := p]) ==
            if p == Scheduled then ScheduledCalls(execs) + {id} else ScheduledCalls(execs) - {id}
  {
  }

  lemma ScheduledDrop(execs: map<Id, Phase>, id: Id)
    ensures ScheduledCalls(execs - {id}) == ScheduledCalls(execs) - {id}
  {
  }

  lemma InsertedPut(retries: map<int, RetryTask>, task: int, r: RetryTask)
    ensures InsertedRetries(retries[task := r]) ==
            if r.Inserted? then InsertedRetries(retries) + {task} else InsertedRetries(retries) - {task}
  {
  }

  lemma InsertedDrop(retries: map<int, RetryTask>, task: int)
    ensures InsertedRetries(retries - {task}) == InsertedRetries(retries) - {task}
  {
  }

  lemma WaitingAfterAdmission(cfg: Config, w: World, st: Step, w': World)
    requires TaskIds(w) && Advance(cfg, w, st, w') && LetsIn(cfg, w, st)
    ensures w'.limiter.active == w.limiter.active && Waiting(w') == Waiting(w) + 1
    ensures w.limiter.active < cfg.limits.maxConcurrent
  {
    AdmitKeepsActive(cfg, w, st, w');
    if st.Request? {
      ScheduledPut(w.execs, st.id, Scheduled);
      assert st.id !in w.execs;
    } else {
      InsertedPut(w.retries, st.task, w'.retries[st.task]);
    }
  }

  lemma WaitingOnRetry(cfg: Config, w: World, st: Step, w': World)
    requires TaskIds(w) && Advance(cfg, w, st, w') && !LetsIn(cfg, w, st)
    requires st.Request? || st.RetryLoad? || st.RetryAdmit? || st.RetryCount?
    ensures Waiting(w') == Waiting(w)
  {
    if st.RetryLoad? {
      InsertedPut(w.retries, st.task, w'.retries[st.task]);
    } else if st.RetryAdmit? {
      InsertedDrop(w.retries, st.task);
    } else if st.RetryCount? {
      var child := w.retries[st.task].child;
      InsertedDrop(w.retries, st.task);
      ScheduledPut(w.execs, child, Scheduled);
      assert st.task in InsertedRetries(w.retries) && child !in ScheduledCalls(w.execs);
    }
  }

  lemma WaitingOnCall(cfg: Config, w: World, st: Step, w': World)
    requires Advance(cfg, w, st, w')
    requires !st.Request? && !st.RetryLoad? && !st.RetryAdmit? && !st.RetryCount?
    ensures Waiting(w') == Waiting(w) - (if st.ExecAcquire? then 1 else 0)
  {
    match st
    case ExecAcquire(id, _) =>
      ScheduledPut(w.execs, id, Acquired);
      assert id in ScheduledCalls(w.execs);
    case ExecMark(id, _) => ScheduledPut(w.execs, id, Marked);
    case ExecLog(id, _) => ScheduledPut(w.execs, id, Dialing);
    case ExecDie(id, _) => ScheduledPut(w.execs, id, Dead);
    case ExecEnd(id, _, _) => ScheduledPut(w.execs, id, Finishing);
    case ExecRelease(id, _) => ScheduledDrop(w.execs, id);
    case _ =>
  }

  lemma WaitingOtherwise(cfg: Config, w: World, st: Step, w': World)
    requires TaskIds(w) && Advance(cfg, w, st, w') && !LetsIn(cfg, w, st)
    ensures w'.limiter.active + Waiting(w') <= w.limiter.active + Waiting(w)
  {
    if st.Request? || st.RetryLoad? || st.RetryAdmit? || st.RetryCount? {
      WaitingOnRetry(cfg, w, st, w');
    } else {
      WaitingOnCall(cfg, w, st, w');
    }
    if !st.ExecAcquire? && !st.ExecRelease? {
      AdmitKeepsActive(cfg, w, st, w');
    }
  }
}
