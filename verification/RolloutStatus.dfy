/** The update-status rows of a rollout: internal/infra/repository/agent_repo.go and the marks
    the rollout's goroutines write (host_service.go, lines 157 to 165). */
module RolloutStatus {
  import opened Wrappers
  import opened Rollout
  import opened RolloutTheorems

  // ---------------------------------------------------------------- the tables

  datatype RolloutRow = RolloutRow(version: string, total: nat, ok: nat, failed: nat, s3Error: Option<string>)

  type Statuses = map<(string, string), Status>

  /** UPDATE agent_update_statuses ... WHERE host, version and status = 'pending' match. */
  function Updated(rollouts: map<string, RolloutRow>, rows: Statuses, hostId: string, version: string,
                   status: Status): Statuses {
    map k | k in rows ::
      if k.1 == hostId && k.0 in rollouts && rollouts[k.0].version == version && rows[k] == Pending
      then status else rows[k]
  }

  /** One rollout's rows by host. */
  function RowsOf(rows: Statuses, rollout: string): map<string, Status> {
    var hosts := set k | k in rows && k.0 == rollout :: k.1;
    map h | h in hosts && (rollout, h) in rows :: rows[(rollout, h)]
  }

  /** Seen from a rollout of that version the statement is MarkRow; from another it is nothing. */
  lemma UpdateSeenByRollout(rollouts: map<string, RolloutRow>, rows: Statuses, hostId: string,
                            version: string, status: Status, id: string)
    ensures RowsOf(Updated(rollouts, rows, hostId, version, status), id) ==
            if id in rollouts && rollouts[id].version == version then MarkRow(RowsOf(rows, id), hostId, status)
            else RowsOf(rows, id)
  {
    var after := Updated(rollouts, rows, hostId, version, status);
    assert after.Keys == rows.Keys;
    forall h
      ensures h in RowsOf(rows, id) <==> (id, h) in rows
      ensures h in RowsOf(after, id) <==> (id, h) in rows
    {
      assert (id, h) in rows ==> (id, h).0 == id && (id, h).1 == h;
    }
  }

  class RolloutRepository {
    var rollouts: map<string, RolloutRow>
    var statuses: Statuses

    constructor ()
      ensures rollouts == map[] && statuses == map[]
    {
      rollouts, statuses := map[], map[];
    }

    method CreateRollout(id: string, version: string, total: nat, io: bool) returns (ok: bool)
      modifies this
      ensures ok == (io && id !in old(rollouts))
      ensures statuses == old(statuses)
      ensures rollouts == if ok then old(rollouts)[id := RolloutRow(version, total, 0, 0, None)] else old(rollouts)
    {
      ok := io && id !in rollouts;
      if ok {
        rollouts := rollouts[id := RolloutRow(version, total, 0, 0, None)];
      }
    }

    method InsertUpdateStatus(rollout: string, hostId: string, io: bool) returns (ok: bool)
      modifies this
      ensures ok == (io && rollout in old(rollouts) && (rollout, hostId) !in old(statuses))
      ensures rollouts == old(rollouts)
      ensures statuses == if ok then old(statuses)[(rollout, hostId) := Pending] else old(statuses)
    {
      ok := io && rollout in rollouts && (rollout, hostId) !in statuses;
      if ok {
        statuses := statuses[(rollout, hostId) := Pending];
      }
    }

    /** No row but a pending one of this host and version changes, and no row comes or goes. */
    method UpdateStatusByHostAndVersion(hostId: string, version: string, status: Status, io: bool) returns (ok: bool)
      modifies this
      ensures ok == io && rollouts == old(rollouts)
      ensures statuses == if io then Updated(old(rollouts), old(statuses), hostId, version, status) else old(statuses)
      ensures statuses.Keys == old(statuses).Keys
      ensures forall k :: k in statuses && statuses[k] != old(statuses)[k] ==>
                    old(statuses)[k] == Pending && k.1 == hostId
    {
      ok := io;
      if io {
        statuses := Updated(rollouts, statuses, hostId, version, status);
      }
    }

    method UpdateRolloutSummary(id: string, okCount: nat, failed: nat, s3Error: string, io: bool) returns (ok: bool)
      modifies this
      ensures ok == io && statuses == old(statuses)
      ensures rollouts.Keys == old(rollouts).Keys
      ensures forall r :: r in rollouts && !(io && r == id) ==> rollouts[r] == old(rollouts)[r]
      ensures io && id in rollouts ==>
                rollouts[id] == old(rollouts)[id].(ok := okCount, failed := failed,
                                                   s3Error := if s3Error == "" then None else Some(s3Error))
    {
      ok := io;
      if io && id in rollouts {
        var err := if s3Error == "" then None else Some(s3Error);
        rollouts := rollouts[id := rollouts[id].(ok := okCount, failed := failed, s3Error := err)];
      }
    }
  }

  // ----------------------------------------------------------- rows of a run

  /** A row that is no longer pending never changes again, whoever writes; rows neither come
      nor go. */
  lemma {:induction false} RowsAbsorb(cfg: Config, s: State, es: seq<Event>)
    requires |s.workers| == |cfg.hosts|
    ensures var t := Run(cfg, s, es);
            t.rows.Keys == s.rows.Keys && forall h :: h in s.rows && s.rows[h] != Pending ==> t.rows[h] == s.rows[h]
    decreases |es|
  {
    if es != [] {
      StepKeepsSize(cfg, s, es[0]);
      RowsStep(cfg, s, es[0]);
      RowsAbsorb(cfg, Step(cfg, s, es[0]), es[1..]);
    }
  }

  lemma RowsStep(cfg: Config, s: State, e: Event)
    requires |s.workers| == |cfg.hosts|
    ensures var t := Step(cfg, s, e);
            t.rows.Keys == s.rows.Keys && forall h :: h in s.rows && s.rows[h] != Pending ==> t.rows[h] == s.rows[h]
  {
  }

  /** Nobody else writes "failed" into the rows: no second rollout of the same version. */
  predicate OnlyPings(es: seq<Event>) {
    forall e :: e in es && e.Outside? ==> e.status == Complete
  }

  predicate Unhappy(w: Worker) {
    w.Dropped? || (Holding(w) && !w.res.ok)
  }

  /** The push to host i failed, and h is the text its id parses to. */
  predicate Marks(cfg: Config, unpushed: set<nat>, i: nat, h: string) {
    i in unpushed && i < |cfg.hosts| && cfg.parse(cfg.hosts[i].id) == Some(h)
  }

  /** A failed row stems from a goroutine whose push failed; such a goroutine reports a failure. */
  ghost predicate RowsOk(cfg: Config, s: State) {
    && |s.workers| == |cfg.hosts|
    && (forall i :: i in s.unpushed ==> i < |cfg.hosts| && Unhappy(s.workers[i]))
    && (forall i :: 0 <= i < |cfg.hosts| && s.workers[i].Marking? ==> Marks(cfg, s.unpushed, i, s.workers[i].uuid))
    && (forall h :: h in s.rows && s.rows[h] == Failed ==> exists i: nat :: Marks(cfg, s.unpushed, i, h))
  }

  /** What one goroutine event does to the rows and to the list of failed pushes. */
  ghost predicate MarksMoved(cfg: Config, s: State, t: State, i: nat)
    requires i < |s.workers| == |t.workers| == |cfg.hosts|
  {
    var v, w := s.workers[i], t.workers[i];
    && (t.rows == s.rows || (v.Marking? && t.rows == MarkRow(s.rows, v.uuid, Failed)))
    && (t.unpushed == s.unpushed || (v.Pushing? && Unhappy(w) && t.unpushed == s.unpushed + {i}))
    && (Unhappy(v) ==> Unhappy(w))
    && (w.Marking? ==> i in t.unpushed && (v.Marking? || cfg.parse(cfg.hosts[i].id) == Some(w.uuid)))
  }

  lemma MarksOfStep(cfg: Config, s: State, e: Event)
    requires |s.workers| == |cfg.hosts| && OfWorker(e) && Step(cfg, s, e) != s
    ensures e.i < |s.workers| == |Step(cfg, s, e).workers| && MarksMoved(cfg, s, Step(cfg, s, e), e.i)
  {
  }

  lemma RowsOkMove(cfg: Config, s: State, t: State, i: nat)
    requires RowsOk(cfg, s) && Moved(s, t, i) && MarksMoved(cfg, s, t, i)
    requires !(s.workers[i].Marking? && t.workers[i].Marking?)
    ensures RowsOk(cfg, t)
  {
    assert s.unpushed <= t.unpushed;
    forall h | h in t.rows && t.rows[h] == Failed ensures exists j: nat :: Marks(cfg, t.unpushed, j, h) {
      if h in s.rows && s.rows[h] == Failed {
        var j: nat :| Marks(cfg, s.unpushed, j, h);
        assert Marks(cfg, t.unpushed, j, h);
      } else {
        assert Marks(cfg, s.unpushed, i, h);
        assert Marks(cfg, t.unpushed, i, h);
      }
    }
  }

  lemma MarkingEnds(cfg: Config, s: State, e: Event)
    requires |s.workers| == |cfg.hosts| && OfWorker(e) && Step(cfg, s, e) != s && e.i < |s.workers|
    ensures !(s.workers[e.i].Marking? && Step(cfg, s, e).workers[e.i].Marking?)
  {
  }

  lemma RowsOkKept(cfg: Config, s: State, e: Event)
    requires RowsOk(cfg, s) && (e.Outside? ==> e.status == Complete)
    ensures RowsOk(cfg, Step(cfg, s, e))
  {
    if OfWorker(e) {
      WorkerMoves(cfg, s, e);
      if Step(cfg, s, e) != s {
        MarksOfStep(cfg, s, e);
        MarkingEnds(cfg, s, e);
        RowsOkMove(cfg, s, Step(cfg, s, e), e.i);
      }
      hide Step;
    }
  }

  lemma {:induction false} RowsOkRun(cfg: Config, s: State, es: seq<Event>)
    requires RowsOk(cfg, s) && OnlyPings(es)
    ensures RowsOk(cfg, Run(cfg, s, es))
    decreases |es|
  {
    hide Step, RowsOk;
    if es != [] {
      assert es[0] in es && forall e :: e in es[1..] ==> e in es;
      assert |s.workers| == |cfg.hosts| by {
        RowsOkSize(cfg, s);
      }
      RowsOkKept(cfg, s, es[0]);
      RowsOkSize(cfg, Step(cfg, s, es[0]));
      RowsOkRun(cfg, Step(cfg, s, es[0]), es[1..]);
    }
  }

  lemma RowsOkSize(cfg: Config, s: State)
    requires RowsOk(cfg, s)
    ensures |s.workers| == |cfg.hosts|
  {
  }

  lemma ReachedRows(cfg: Config, inserted: set<string>, es: seq<Event>)
    requires OnlyPings(es)
    ensures RowsOk(cfg, Reached(cfg, inserted, es))
  {
    RowsOkRun(cfg, Initial(cfg, inserted), es);
  }

  // ------------------------------------------------- whose rows a failure marks

  /** No host's id parses to the text of another's. */
  ghost predicate NoCrossMarks(cfg: Config) {
    forall i, j :: 0 <= i < |cfg.hosts| && 0 <= j < |cfg.hosts| && i != j ==>
      cfg.parse(cfg.hosts[i].id) != Some(cfg.hosts[j].id)
  }

  /** The row of a host is failed only if its own push failed. */
  ghost predicate OwnFailuresOnly(cfg: Config, s: State) {
    forall i :: 0 <= i < |cfg.hosts| && cfg.hosts[i].id in s.rows && s.rows[cfg.hosts[i].id] == Failed ==>
          i in s.unpushed
  }

  /** With no other writer of failures, a rollout marks failed only hosts whose own push failed,
      in every run, exactly when no host's id parses to the text of another's. */
  lemma OwnFailuresIff(cfg: Config)
    ensures NoCrossMarks(cfg) <==>
            forall inserted, es :: OnlyPings(es) ==> OwnFailuresOnly(cfg, Reached(cfg, inserted, es))
  {
    hide Run, Reached, RowsOk;
    if NoCrossMarks(cfg) {
      forall inserted, es | OnlyPings(es) ensures OwnFailuresOnly(cfg, Reached(cfg, inserted, es)) {
        ReachedRows(cfg, inserted, es);
        NoCrossMeansOwn(cfg, Reached(cfg, inserted, es));
      }
    } else {
      var i, j :| 0 <= i < |cfg.hosts| && 0 <= j < |cfg.hosts| && i != j
                  && cfg.parse(cfg.hosts[i].id) == Some(cfg.hosts[j].id);
      var es := CrossMark(cfg, i, j);
      assert !OwnFailuresOnly(cfg, Reached(cfg, {cfg.hosts[j].id}, es));
    }
  }

  lemma NoCrossMeansOwn(cfg: Config, s: State)
    requires NoCrossMarks(cfg) && RowsOk(cfg, s)
    ensures OwnFailuresOnly(cfg, s)
  {
    forall i | 0 <= i < |cfg.hosts| && cfg.hosts[i].id in s.rows && s.rows[cfg.hosts[i].id] == Failed
      ensures i in s.unpushed
    {
      var k: nat :| Marks(cfg, s.unpushed, k, cfg.hosts[i].id);
      assert cfg.parse(cfg.hosts[k].id) == Some(cfg.hosts[i].id);
    }
  }

  /** For any two hosts so related: the failed push to one marks the other's row, before the
      other's goroutine has even begun. */
  lemma CrossMark(cfg: Config, i: nat, j: nat) returns (es: seq<Event>)
    requires i < |cfg.hosts| && j < |cfg.hosts| && i != j && cfg.parse(cfg.hosts[i].id) == Some(cfg.hosts[j].id)
    ensures OnlyPings(es)
    ensures var s := Reached(cfg, {cfg.hosts[j].id}, es);
            && s.rows == map[cfg.hosts[j].id := Failed] && s.unpushed == {i} && s.workers[j] == Ready
  {
    es := [Draw(i), Check(i), Push(i, Some("refused")), Mark(i, true)];
    var s0 := Initial(cfg, {cfg.hosts[j].id});
    RunFour(cfg, s0, es[0], es[1], es[2], es[3]);
    UpToPush(cfg, s0, i);
    PushAndMark(cfg, s0.(workers := s0.workers[i := Pushing(1)], tickets := [i]), i, j);
  }

  lemma UpToPush(cfg: Config, s: State, i: nat)
    requires |s.workers| == |cfg.hosts| && i < |s.workers| && s.workers[i] == Ready && s.tickets == [] && !s.cancelled
    ensures Step(cfg, Step(cfg, s, Draw(i)), Check(i)) == s.(workers := s.workers[i := Pushing(1)], tickets := [i])
  {
    var t := Step(cfg, s, Draw(i));
    assert t == s.(workers := s.workers[i := Checking(1)], tickets := [i]);
    assert t.workers[i := Pushing(1)] == s.workers[i := Pushing(1)];
  }

  lemma PushAndMark(cfg: Config, s: State, i: nat, j: nat)
    requires |s.workers| == |cfg.hosts| && i < |s.workers| && j < |s.workers| && i != j && s.workers[i] == Pushing(1)
    requires s.unpushed == {} && cfg.parse(cfg.hosts[i].id) == Some(cfg.hosts[j].id)
    ensures |Step(cfg, s, Push(i, Some("refused"))).workers| == |cfg.hosts|
    ensures var t := Step(cfg, Step(cfg, s, Push(i, Some("refused"))), Mark(i, true));
            t.rows == MarkRow(s.rows, cfg.hosts[j].id, Failed) && t.unpushed == {i} && t.workers[j] == s.workers[j]
  {
    var t := Step(cfg, s, Push(i, Some("refused")));
    assert t.workers[i].Marking? && t.workers[i].uuid == cfg.hosts[j].id && t.workers[j] == s.workers[j];
  }

  // ------------------------------------------------------ how many failed rows

  /** Where the failures stand in a list of results. */
  function BadIndices(rs: seq<UpdateResult>): set<nat> {
    set i: nat | i < |rs| && !rs[i].ok
  }

  lemma {:induction false} BadIndicesCount(rs: seq<UpdateResult>)
    ensures |BadIndices(rs)| + OkCount(rs) == |rs|
  {
    if rs != [] {
      var n := |rs| - 1;
      BadIndicesCount(rs[..n]);
      assert BadIndices(rs) == BadIndices(rs[..n]) + if rs[n].ok then {} else {n};
    } else {
      assert BadIndices(rs) == {};
    }
  }

  lemma SubsetCount<T>(x: set<T>, y: set<T>)
    requires x <= y
    ensures |x| <= |y|
  {
    assert y == x + (y - x);
  }

  /** A goroutine marks at most one row. */
  lemma {:induction false} RowsPerGoroutine(cfg: Config, us: set<nat>, rows: set<string>)
    requires forall h :: h in rows ==> exists i :: i in us && i < |cfg.hosts| && cfg.parse(cfg.hosts[i].id) == Some(h)
    ensures |rows| <= |us|
    decreases us
  {
    if us == {} {
      assert rows == {};
    } else {
      var i :| i in us;
      var own := set h | h in rows && i < |cfg.hosts| && cfg.parse(cfg.hosts[i].id) == Some(h);
      AtMostOne(own);
      RowsPerGoroutine(cfg, us - {i}, rows - own);
      assert rows == (rows - own) + own;
    }
  }

  lemma AtMostOne(x: set<string>)
    requires forall g, h :: g in x && h in x ==> g == h
    ensures |x| <= 1
  {
    if x != {} {
      var h :| h in x;
      assert x == {h};
    }
  }

  /** With no other writer of failures there are at the end at most as many failed rows as reported
      failures, whatever the host ids are. */
  lemma FailedRowsCounted(cfg: Config, inserted: set<string>, es: seq<Event>)
    requires OnlyPings(es) && Reached(cfg, inserted, es).finished
    ensures var s := Reached(cfg, inserted, es);
            |set h | h in s.rows && s.rows[h] == Failed| <= s.summary.failed
  {
    hide Run, Inv;
    var s := Reached(cfg, inserted, es);
    ReachedRows(cfg, inserted, es);
    ReachedInv(cfg, inserted, es);
    InvParts(cfg, s);
    FailedRowsBound(cfg, s);
  }

  lemma InvParts(cfg: Config, s: State)
    requires Inv(cfg, s)
    ensures Conserved(s) && Named(cfg, s)
  {
  }

  lemma EndResults(s: State) returns (rs: seq<UpdateResult>)
    requires Conserved(s) && s.finished
    ensures |rs| == |s.workers| && forall i :: 0 <= i < |rs| ==> s.workers[i].Done? && rs[i] == s.workers[i].res
    ensures |BadIndices(rs)| == s.summary.failed
  {
    FinishedMeansDone(s);
    rs := ResultsByHost(s.workers);
    ResultsByHostAreSent(s.workers);
    Reordered(s.summary.results, rs);
    BadIndicesCount(rs);
    assert |multiset(rs)| == |multiset(s.summary.results)|;
  }

  lemma FailedRowsBound(cfg: Config, s: State)
    requires RowsOk(cfg, s) && Conserved(s) && s.finished
    ensures |set h | h in s.rows && s.rows[h] == Failed| <= s.summary.failed
  {
    hide Conserved;
    var rs := EndResults(s);
    var failedRows := set h | h in s.rows && s.rows[h] == Failed;
    forall h | h in failedRows
      ensures exists i :: i in s.unpushed && i < |cfg.hosts| && cfg.parse(cfg.hosts[i].id) == Some(h)
    {
      var i: nat :| Marks(cfg, s.unpushed, i, h);
    }
    RowsPerGoroutine(cfg, s.unpushed, failedRows);
    forall i | i in s.unpushed ensures i in BadIndices(rs) {
      assert !rs[i].ok;
    }
    SubsetCount(s.unpushed, BadIndices(rs));
  }

  // -------------------------------------------------------------- aborted hosts

  /** The goroutine has a result and no push of its own ahead. */
  predicate Aborted(s: State, i: nat) {
    i < |s.workers| && (s.workers[i].Sending? || s.workers[i].Done?) && i !in s.unpushed
  }

  lemma AbortedStep(cfg: Config, s: State, e: Event, i: nat)
    requires |s.workers| == |cfg.hosts| && Aborted(s, i)
    ensures Aborted(Step(cfg, s, e), i)
  {
  }

  lemma {:induction false} AbortedRun(cfg: Config, s: State, es: seq<Event>, i: nat)
    requires |s.workers| == |cfg.hosts| && Aborted(s, i)
    ensures Aborted(Run(cfg, s, es), i)
    decreases |es|
  {
    hide Step, Aborted;
    if es != [] {
      StepKeepsSize(cfg, s, es[0]);
      AbortedStep(cfg, s, es[0], i);
      AbortedRun(cfg, Step(cfg, s, es[0]), es[1..], i);
    }
  }

  predicate NoOutside(es: seq<Event>) {
    forall e :: e in es ==> !e.Outside?
  }

  /** Nobody has completed a row. */
  lemma {:induction false} NeverComplete(cfg: Config, s: State, es: seq<Event>)
    requires |s.workers| == |cfg.hosts| && NoOutside(es) && Complete !in s.rows.Values
    ensures Complete !in Run(cfg, s, es).rows.Values && Run(cfg, s, es).rows.Keys == s.rows.Keys
    decreases |es|
  {
    if es != [] {
      assert es[0] in es && forall e :: e in es[1..] ==> e in es;
      StepKeepsSize(cfg, s, es[0]);
      CompleteStep(cfg, s, es[0]);
      hide Step;
      NeverComplete(cfg, Step(cfg, s, es[0]), es[1..]);
    }
  }

  lemma CompleteStep(cfg: Config, s: State, e: Event)
    requires |s.workers| == |cfg.hosts| && !e.Outside? && Complete !in s.rows.Values
    ensures Complete !in Step(cfg, s, e).rows.Values && Step(cfg, s, e).rows.Keys == s.rows.Keys
  {
  }

  lemma {:induction false} RunAppend(cfg: Config, s: State, x: seq<Event>, y: seq<Event>)
    requires |s.workers| == |cfg.hosts|
    ensures Run(cfg, s, x + y) == Run(cfg, Run(cfg, s, x), y)
    decreases |x|
  {
    hide Step;
    if x == [] {
      assert x + y == y;
    } else {
      StepKeepsSize(cfg, s, x[0]);
      assert (x + y)[1..] == x[1..] + y;
      RunAppend(cfg, Step(cfg, s, x[0]), x[1..], y);
    }
  }

  /** A goroutine whose check sees the cancel flag never pushes, however the run goes on; and with
      no agent ping, and no other host's id parsing to its host's, that host's row stays pending. */
  lemma AbortedHostStaysPending(cfg: Config, inserted: set<string>, es: seq<Event>, i: nat, more: seq<Event>)
    requires i < |cfg.hosts| && Reached(cfg, inserted, es).cancelled && Reached(cfg, inserted, es).workers[i].Checking?
    ensures i !in Reached(cfg, inserted, es + [Check(i)] + more).unpushed
    ensures NoCrossMarks(cfg) && NoOutside(es + [Check(i)] + more) && cfg.hosts[i].id in inserted ==>
              && cfg.hosts[i].id in Reached(cfg, inserted, es + [Check(i)] + more).rows
              && Reached(cfg, inserted, es + [Check(i)] + more).rows[cfg.hosts[i].id] == Pending
  {
    hide Run;
    var s0, s := Initial(cfg, inserted), Reached(cfg, inserted, es);
    var t := Step(cfg, s, Check(i));
    ReachedDropped(cfg, inserted, es);
    assert DroppedIff(cfg, s, i);
    assert Aborted(t, i);
    RunFirst(cfg, s, Check(i), more);
    assert es + [Check(i)] + more == es + ([Check(i)] + more);
    RunAppend(cfg, s0, es, [Check(i)] + more);
    AbortedRun(cfg, t, more, i);
    var all := es + [Check(i)] + more;
    if NoCrossMarks(cfg) && NoOutside(all) && cfg.hosts[i].id in inserted {
      NeverComplete(cfg, s0, all);
      ReachedRows(cfg, inserted, all);
      var end := Reached(cfg, inserted, all);
      NoCrossMeansOwn(cfg, end);
      assert end.rows[cfg.hosts[i].id] in end.rows.Values;
    }
  }

  lemma RunFour(cfg: Config, s: State, e1: Event, e2: Event, e3: Event, e4: Event)
    requires |s.workers| == |cfg.hosts|
    ensures |Step(cfg, s, e1).workers| == |Step(cfg, Step(cfg, s, e1), e2).workers| == |cfg.hosts|
    ensures |Step(cfg, Step(cfg, Step(cfg, s, e1), e2), e3).workers| == |cfg.hosts|
    ensures Run(cfg, s, [e1, e2, e3, e4]) == Step(cfg, Step(cfg, Step(cfg, Step(cfg, s, e1), e2), e3), e4)
  {
    hide Step;
    RunFirst(cfg, s, e1, [e2, e3, e4]);
    var s1 := Step(cfg, s, e1);
    RunFirst(cfg, s1, e2, [e3, e4]);
    var s2 := Step(cfg, s1, e2);
    RunFirst(cfg, s2, e3, [e4]);
    var s3 := Step(cfg, s2, e3);
    RunFirst(cfg, s3, e4, []);
    assert [e1] + [e2, e3, e4] == [e1, e2, e3, e4] && [e2] + [e3, e4] == [e2, e3, e4];
    assert [e3] + [e4] == [e3, e4] && [e4] + [] == [e4];
  }

  /** One unfolding of a run. */
  lemma RunFirst(cfg: Config, s: State, e: Event, es: seq<Event>)
    requires |s.workers| == |cfg.hosts|
    ensures |Step(cfg, s, e).workers| == |cfg.hosts|
    ensures Run(cfg, s, [e] + es) == Run(cfg, Step(cfg, s, e), es)
  {
    StepKeepsSize(cfg, s, e);
    assert ([e] + es)[1..] == es;
  }
}
