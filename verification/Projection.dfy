/** Calls do not interfere: in any interleaving, what the tables say about one call is what its
    own commands alone would have made of it. */
module Projection {
  import opened Prelude
  import opened CallStorage
  import opened CallCommands

  /** `own` names, for each channel, the one request the dialplan announces on it. */
  ghost predicate RespectsOwner(own: string -> Id, c: Command) {
    c.CallStart? && c.bind.Some? ==> own(c.bind.value) == c.id
  }

  ghost predicate RespectOwners(own: string -> Id, cs: seq<Command>) {
    forall i :: 0 <= i < |cs| ==> RespectsOwner(own, cs[i])
  }

  /** No row is bound to a channel that belongs to another request. */
  ghost predicate Unshared(own: string -> Id, db: Db) {
    forall id, channel :: id in db.calls && db.calls[id].channel == Some(channel) ==> own(channel) == id
  }

  predicate Mine(own: string -> Id, c: Command, id: Id) {
    if ByChannel(c) then own(c.channel) == id else Names(c, id)
  }

  /** The commands that concern one call, in order. */
  function Own(own: string -> Id, cs: seq<Command>, id: Id): seq<Command> {
    if cs == [] then []
    else
      var before := Own(own, cs[..|cs| - 1], id);
      var c := cs[|cs| - 1];
      if Mine(own, c, id) then before + [c] else before
  }

  /** A call driven by a list of commands with nothing else in the system. */
  function Solo(v: CallView, id: Id, cs: seq<Command>): CallView {
    if cs == [] then v else Act(Solo(v, id, cs[..|cs| - 1]), id, cs[|cs| - 1])
  }

  lemma SoloSnoc(v: CallView, id: Id, cs: seq<Command>, c: Command)
    ensures Solo(v, id, cs + [c]) == Act(Solo(v, id, cs), id, c)
  {
    assert (cs + [c])[..|cs|] == cs;
  }

  /** Only the dialplan's announcement ever writes the channel column. */
  lemma ActWritesChannel(v: CallView, id: Id, c: Command, channel: string)
    requires BoundTo(Act(v, id, c), channel)
    ensures BoundTo(v, channel) || (c.CallStart? && c.bind == Some(channel))
  {
  }

  lemma StaysUnshared(own: string -> Id, db: Db, c: Command, db': Db)
    requires Next(db, c, db') && Unshared(own, db) && RespectsOwner(own, c)
    ensures Unshared(own, db')
  {
    forall id, channel | id in db'.calls && db'.calls[id].channel == Some(channel) ensures own(channel) == id {
      Localised(db, c, db', id);
      if View(db', id) != View(db, id) {
        ActWritesChannel(View(db, id), id, c, channel);
      } else {
        assert BoundTo(View(db, id), channel);
      }
    }
  }

  lemma ProjectedStep(own: string -> Id, db: Db, c: Command, db': Db, id: Id)
    requires Next(db, c, db') && Unshared(own, db)
    ensures View(db', id) == if Mine(own, c, id) then Act(View(db, id), id, c) else View(db, id)
  {
    if ByChannel(c) {
      var found := ChannelStep(db, c, db', id);
      if found != Some(id) && Mine(own, c, id) {
        assert !BoundTo(View(db, id), c.channel);
      }
    } else {
      NamedStep(db, c, db', id);
    }
  }

  /** Non-interference over whole runs of any length and any mix of calls. */
  lemma {:induction false} NonInterference(own: string -> Id, dbs: seq<Db>, cs: seq<Command>, id: Id)
    requires Execution(dbs, cs) && Unshared(own, dbs[0])
    requires RespectOwners(own, cs)
    ensures Unshared(own, dbs[|cs|])
    ensures View(dbs[|cs|], id) == Solo(View(dbs[0], id), id, Own(own, cs, id))
  {
    if cs != [] {
      var n := |cs| - 1;
      ExecutionFront(dbs, cs);
      NonInterference(own, dbs[..|cs|], cs[..n], id);
      StaysUnshared(own, dbs[n], cs[n], dbs[n + 1]);
      ProjectedStep(own, dbs[n], cs[n], dbs[n + 1], id);
      if Mine(own, cs[n], id) {
        SoloSnoc(View(dbs[0], id), id, Own(own, cs[..n], id), cs[n]);
      }
    }
  }

  ghost predicate SameStreams(own: string -> Id, cs: seq<Command>, cs': seq<Command>) {
    forall id :: Own(own, cs, id) == Own(own, cs', id)
  }

  /** The same rows, and the same polled timeline for every call. */
  ghost predicate SameToClients(db: Db, db': Db) {
    db.calls == db'.calls && forall id :: Timeline(db, id) == Timeline(db', id)
  }

  lemma SameViewsSameToClients(db: Db, db': Db)
    requires forall id :: View(db, id) == View(db', id)
    ensures SameToClients(db, db')
  {
    forall id ensures id in db.calls <==> id in db'.calls {
      assert View(db, id) == View(db', id);
    }
    forall id | id in db.calls ensures db.calls[id] == db'.calls[id] {
      assert View(db, id) == View(db', id);
    }
    forall id ensures Timeline(db, id) == Timeline(db', id) {
      assert View(db, id) == View(db', id);
    }
  }

  /** Two interleavings of the same per-call streams end with the same table and timelines. */
  lemma InterleavingIsIrrelevant(own: string -> Id, dbs: seq<Db>, cs: seq<Command>, dbs': seq<Db>, cs': seq<Command>)
    requires Execution(dbs, cs) && Execution(dbs', cs') && dbs[0] == dbs'[0] && Unshared(own, dbs[0])
    requires RespectOwners(own, cs) && RespectOwners(own, cs') && SameStreams(own, cs, cs')
    ensures SameToClients(dbs[|cs|], dbs'[|cs'|])
  {
    forall id ensures View(dbs[|cs|], id) == View(dbs'[|cs'|], id) {
      NonInterference(own, dbs, cs, id);
      NonInterference(own, dbs', cs', id);
    }
    SameViewsSameToClients(dbs[|cs|], dbs'[|cs'|]);
  }
}
