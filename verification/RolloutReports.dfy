/** What a rollout reports and marks, in terms of what its pushes answered: the answers are read off
    the schedule, the reports and the rows off the state it ends in. */
module RolloutReports {
  import opened Wrappers
  import opened Rollout
  import opened RolloutTheorems
  import opened RolloutStatus

  /** What a push has answered: nothing while none was made; else no error, or an error's text. */
  type Answer = Option<Option<string>>

  /** The event is the push of goroutine i. */
  predicate Pushes(s: State, e: Event, i: nat) {
    e.Push? && e.i == i < |s.workers| && s.workers[i].Pushing?
  }

  /** What the push of goroutine i answers in the run. */
  function PushOf(cfg: Config, s: State, es: seq<Event>, i: nat): Answer
    requires |s.workers| == |cfg.hosts|
    decreases |es|
  {
    if es == [] then None
    else if Pushes(s, es[0], i) then Some(es[0].error)
    else
      StepKeepsSize(cfg, s, es[0]);
      PushOf(cfg, Step(cfg, s, es[0]), es[1..], i)
  }

  predicate PushFailed(push: Answer) {
    push.Some? && push.value.Some?
  }

  /** The result says of the host what became of its push. */
  predicate Tells(h: Host, push: Answer, r: UpdateResult) {
    && r.hostId == h.id && r.addr == h.ip
    && match push
       case None => !r.ok && r.error == "rollout aborted: s3 became unreachable mid-flight"
       case Some(None) => r.ok && r.error == ""
       case Some(Some(text)) => !r.ok && r.error == text
  }

  // ---------------------------------------------------------------- every step

  /** Where goroutine i is, given what its push has answered so far. */
  predicate Reported(cfg: Config, s: State, i: nat, push: Answer)
    requires i < |s.workers| == |cfg.hosts|
  {
    var w := s.workers[i];
    && (Holding(w) ==> Tells(cfg.hosts[i], push, w.res))
    && (w.Marking? ==> PushFailed(push))
    && (w.Dropped? ==> PushFailed(push))
    && (!Holding(w) && !w.Dropped? ==> push.None?)
    && (Holding(w) && push.None? ==> s.cancelled)
    && (i in s.unpushed <==> PushFailed(push))
  }

  /** What has been answered after one more event. */
  function Answered(s: State, e: Event, i: nat, push: Answer): Answer {
    if push.None? && Pushes(s, e, i) then Some(e.error) else push
  }

  lemma ReportedEarly(cfg: Config, s: State, e: Event, i: nat, push: Answer)
    requires |s.workers| == |cfg.hosts| && (e.Draw? || e.Probe? || e.Record? || e.Cancel?)
    requires e.i == i < |s.workers| && Reported(cfg, s, i, push)
    ensures |Step(cfg, s, e).workers| == |cfg.hosts|
    ensures Reported(cfg, Step(cfg, s, e), i, Answered(s, e, i, push))
  {
    hide Tells;
  }

  lemma ReportedLate(cfg: Config, s: State, e: Event, i: nat, push: Answer)
    requires |s.workers| == |cfg.hosts| && (e.Check? || e.Mark? || e.Send?)
    requires e.i == i < |s.workers| && Reported(cfg, s, i, push)
    ensures |Step(cfg, s, e).workers| == |cfg.hosts|
    ensures Reported(cfg, Step(cfg, s, e), i, Answered(s, e, i, push))
  {}

  lemma ReportedPush(cfg: Config, s: State, i: nat, error: Option<string>, push: Answer)
    requires |s.workers| == |cfg.hosts| && i < |s.workers| && Reported(cfg, s, i, push)
    ensures |DoPush(cfg, s, i, error).workers| == |cfg.hosts|
    ensures Reported(cfg, DoPush(cfg, s, i, error), i, Answered(s, Push(i, error), i, push))
  {}

  lemma ReportedOwn(cfg: Config, s: State, e: Event, i: nat, push: Answer)
    requires |s.workers| == |cfg.hosts| && OfWorker(e) && e.i == i < |s.workers| && Reported(cfg, s, i, push)
    ensures |Step(cfg, s, e).workers| == |cfg.hosts|
    ensures Reported(cfg, Step(cfg, s, e), i, Answered(s, e, i, push))
  {
    hide Reported, DoDraw, DoProbe, DoRecord, DoCancel, DoCheck, DoPush, DoMark, DoSend;
    if e.Push? {
      ReportedPush(cfg, s, i, e.error, push);
    } else if e.Check? || e.Mark? || e.Send? {
      ReportedLate(cfg, s, e, i, push);
    } else {
      ReportedEarly(cfg, s, e, i, push);
    }
  }

  lemma ReportedOther(cfg: Config, s: State, e: Event, i: nat, push: Answer)
    requires |s.workers| == |cfg.hosts| && i < |s.workers| && Reported(cfg, s, i, push)
    requires !OfWorker(e) || e.i != i
    ensures |Step(cfg, s, e).workers| == |cfg.hosts|
    ensures Reported(cfg, Step(cfg, s, e), i, push) && Answered(s, e, i, push) == push
  {
    StepKeepsSize(cfg, s, e);
    if OfWorker(e) && Step(cfg, s, e) != s {
      WorkerMoves(cfg, s, e);
      UnpushedMoves(cfg, s, e);
      SharedCells(cfg, s, e);
      hide Step;
      SameReport(cfg, s, Step(cfg, s, e), i, push);
    } else {
      Quietly(cfg, s, e);
      SameReport(cfg, s, Step(cfg, s, e), i, push);
    }
  }

  lemma Quietly(cfg: Config, s: State, e: Event)
    requires |s.workers| == |cfg.hosts| && (!OfWorker(e) || Step(cfg, s, e) == s)
    ensures var t := Step(cfg, s, e);
            t.workers == s.workers && t.unpushed == s.unpushed && (s.cancelled ==> t.cancelled)
  {}

  lemma SameReport(cfg: Config, s: State, t: State, i: nat, push: Answer)
    requires i < |s.workers| == |cfg.hosts| == |t.workers| && Reported(cfg, s, i, push)
    requires t.workers[i] == s.workers[i] && (s.cancelled ==> t.cancelled)
    requires i in t.unpushed <==> i in s.unpushed
    ensures Reported(cfg, t, i, push)
  {}

  lemma ReportedStep(cfg: Config, s: State, e: Event, i: nat, push: Answer)
    requires |s.workers| == |cfg.hosts| && i < |s.workers| && Reported(cfg, s, i, push)
    ensures |Step(cfg, s, e).workers| == |cfg.hosts|
    ensures Reported(cfg, Step(cfg, s, e), i, Answered(s, e, i, push))
    ensures Pushes(s, e, i) ==> push.None?
  {
    if OfWorker(e) && e.i == i { ReportedOwn(cfg, s, e, i, push); } else { ReportedOther(cfg, s, e, i, push); }
  }

  lemma {:induction false} ReportedRun(cfg: Config, s: State, es: seq<Event>, i: nat, push: Answer)
    requires |s.workers| == |cfg.hosts| && i < |s.workers| && Reported(cfg, s, i, push)
    ensures Reported(cfg, Run(cfg, s, es), i, if push.Some? then push else PushOf(cfg, s, es, i))
    decreases |es|
  {
    hide Step, Reported;
    if es != [] {
      ReportedStep(cfg, s, es[0], i, push);
      ReportedRun(cfg, Step(cfg, s, es[0]), es[1..], i, Answered(s, es[0], i, push));
    }
  }

  lemma ReachedReported(cfg: Config, inserted: set<string>, es: seq<Event>, i: nat)
    requires i < |cfg.hosts|
    ensures Reported(cfg, Reached(cfg, inserted, es), i, PushOf(cfg, Initial(cfg, inserted), es, i))
  {
    hide Run;
    ReportedRun(cfg, Initial(cfg, inserted), es, i, None);
  }

  // ------------------------------------------------------------------ the reports

  /** The goroutines whose push was made and worked. */
  function Worked(cfg: Config, inserted: set<string>, es: seq<Event>): set<nat> {
    set i: nat | i < |cfg.hosts| && PushOf(cfg, Initial(cfg, inserted), es, i) == Some(None)
  }

  lemma {:induction false} GoodIndicesCount(rs: seq<UpdateResult>)
    ensures |set i: nat | i < |rs| && rs[i].ok| == OkCount(rs)
  {
    var good := set i: nat | i < |rs| && rs[i].ok;
    BadIndicesCount(rs);
    assert BadIndices(rs) + good == Upto(|rs|) && BadIndices(rs) !! good;
    assert |BadIndices(rs) + good| == |BadIndices(rs)| + |good|;
  }

  function Upto(n: nat): (r: set<nat>)
    ensures |r| == n && forall i: nat :: i in r <==> i < n
  {
    if n == 0 then {} else Upto(n - 1) + {n - 1}
  }

  /** At the end of every schedule there is one result per host, with its id and its address: it is
      good with no error exactly when its push was made and worked, else it carries the error of its
      push or, if none was made, the abort text. So OK counts the pushes that worked. */
  lemma ReportsAreTrue(cfg: Config, inserted: set<string>, es: seq<Event>) returns (rs: seq<UpdateResult>)
    requires Reached(cfg, inserted, es).finished
    ensures |rs| == |cfg.hosts| && multiset(rs) == multiset(Reached(cfg, inserted, es).summary.results)
    ensures forall i :: 0 <= i < |rs| ==> Tells(cfg.hosts[i], PushOf(cfg, Initial(cfg, inserted), es, i), rs[i])
    ensures var sum := Reached(cfg, inserted, es).summary;
            sum.ok == |Worked(cfg, inserted, es)| && sum.failed == |cfg.hosts| - |Worked(cfg, inserted, es)|
  {
    hide Run, Inv, Reported, OkCount, Tells, PushOf, Conserved, Named;
    var s := Reached(cfg, inserted, es);
    ReachedInv(cfg, inserted, es);
    InvParts(cfg, s);
    rs := ReportsInOrder(s);
    forall i: nat | i < |rs| ensures Tells(cfg.hosts[i], PushOf(cfg, Initial(cfg, inserted), es, i), rs[i]) {
      ReachedReported(cfg, inserted, es, i);
      DoneTells(cfg, s, i, PushOf(cfg, Initial(cfg, inserted), es, i));
    }
    WorkedAreGood(cfg, inserted, es, rs);
  }

  lemma ReportsInOrder(s: State) returns (rs: seq<UpdateResult>)
    requires Conserved(s) && s.finished
    ensures |rs| == |s.workers| && multiset(rs) == multiset(s.summary.results)
    ensures forall i :: 0 <= i < |rs| ==> s.workers[i].Done? && rs[i] == s.workers[i].res
    ensures s.summary.ok == |set i: nat | i < |rs| && rs[i].ok| && s.summary.ok + s.summary.failed == |rs|
  {
    hide OkCount;
    FinishedMeansDone(s);
    rs := ResultsByHost(s.workers);
    ResultsByHostAreSent(s.workers);
    Reordered(s.summary.results, rs);
    GoodIndicesCount(rs);
    assert |multiset(rs)| == |multiset(s.summary.results)|;
  }

  lemma WorkedAreGood(cfg: Config, inserted: set<string>, es: seq<Event>, rs: seq<UpdateResult>)
    requires |rs| == |cfg.hosts|
    requires forall i :: 0 <= i < |rs| ==> Tells(cfg.hosts[i], PushOf(cfg, Initial(cfg, inserted), es, i), rs[i])
    ensures Worked(cfg, inserted, es) == set i: nat | i < |rs| && rs[i].ok
  {
    hide PushOf;
  }

  lemma DoneTells(cfg: Config, s: State, i: nat, push: Answer)
    requires i < |s.workers| == |cfg.hosts| && Reported(cfg, s, i, push) && s.workers[i].Done?
    ensures Tells(cfg.hosts[i], push, s.workers[i].res)
    ensures push.None? ==> s.cancelled
  {}

  // --------------------------------------------------------------- why some abort

  /** The flag is set only by a failed probe or by the caller. */
  predicate CauseKnown(s: State, parent: bool) {
    s.cancelled ==> parent || s.failed != {}
  }

  lemma CauseStep(cfg: Config, s: State, e: Event, parent: bool)
    requires Inv(cfg, s) && CauseKnown(s, parent)
    ensures CauseKnown(Step(cfg, s, e), parent || e.ParentCancel?)
  {
    if e.Cancel? && e.i < |s.workers| && s.workers[e.i].Cancelling? {
      assert ProbeOk(cfg, s, e.i);
      assert Number(s.workers[e.i]) in s.failed;
    }
  }

  lemma {:induction false} CauseRun(cfg: Config, s: State, es: seq<Event>, parent: bool)
    requires Inv(cfg, s) && CauseKnown(s, parent)
    ensures CauseKnown(Run(cfg, s, es), parent || ParentCancel in es)
    decreases |es|
  {
    hide Step, Inv, CauseKnown;
    if es != [] {
      InvParts(cfg, s);
      CauseStep(cfg, s, es[0], parent);
      StepKeeps(cfg, s, es[0]);
      CauseRun(cfg, Step(cfg, s, es[0]), es[1..], parent || es[0].ParentCancel?);
      assert es[0].ParentCancel? || ParentCancel in es[1..] <==> ParentCancel in es;
    }
  }

  /** A finished rollout whose summary has no error text, and which the caller did not cancel, has
      pushed to every host. */
  lemma NoErrorMeansAllPushed(cfg: Config, inserted: set<string>, es: seq<Event>, i: nat)
    requires Reached(cfg, inserted, es).finished && Reached(cfg, inserted, es).summary.s3Error == ""
    requires ParentCancel !in es && i < |cfg.hosts|
    ensures PushOf(cfg, Initial(cfg, inserted), es, i).Some?
  {
    hide Run, Inv, Reported;
    var s := Reached(cfg, inserted, es);
    InitialInv(cfg, inserted);
    assert CauseKnown(Initial(cfg, inserted), false);
    CauseRun(cfg, Initial(cfg, inserted), es, false);
    ProbesAtEnd(cfg, inserted, es);
    ReachedInv(cfg, inserted, es);
    InvParts(cfg, s);
    FinishedMeansDone(s);
    ReachedReported(cfg, inserted, es, i);
    DoneTells(cfg, s, i, PushOf(cfg, Initial(cfg, inserted), es, i));
  }

  lemma {:induction false} PushOfAppend(cfg: Config, s: State, x: seq<Event>, y: seq<Event>, i: nat)
    requires |s.workers| == |cfg.hosts|
    ensures PushOf(cfg, s, x + y, i) ==
            if PushOf(cfg, s, x, i).Some? then PushOf(cfg, s, x, i) else PushOf(cfg, Run(cfg, s, x), y, i)
    decreases |x|
  {
    hide Step;
    if x == [] {
      assert x + y == y;
    } else {
      StepKeepsSize(cfg, s, x[0]);
      assert (x + y)[0] == x[0] && (x + y)[1..] == x[1..] + y;
      PushOfAppend(cfg, Step(cfg, s, x[0]), x[1..], y, i);
    }
  }

  /** The goroutine has its result. */
  predicate HasResult(s: State, i: nat) {
    i < |s.workers| && (s.workers[i].Sending? || s.workers[i].Done?)
  }

  lemma ResultStays(cfg: Config, s: State, e: Event, i: nat)
    requires |s.workers| == |cfg.hosts| && HasResult(s, i)
    ensures HasResult(Step(cfg, s, e), i) && !Pushes(s, e, i)
  {}

  lemma {:induction false} NoMorePush(cfg: Config, s: State, es: seq<Event>, i: nat)
    requires |s.workers| == |cfg.hosts| && HasResult(s, i)
    ensures PushOf(cfg, s, es, i) == None
    decreases |es|
  {
    hide Step, HasResult, Pushes;
    if es != [] {
      StepKeepsSize(cfg, s, es[0]);
      ResultStays(cfg, s, es[0], i);
      NoMorePush(cfg, Step(cfg, s, es[0]), es[1..], i);
    }
  }

  /** A check decides: with the flag set the goroutine never pushes, however the run goes on; with it
      clear the goroutine is at its push. */
  lemma CheckDecides(cfg: Config, inserted: set<string>, es: seq<Event>, i: nat, more: seq<Event>)
    requires i < |cfg.hosts| && Reached(cfg, inserted, es).workers[i].Checking?
    ensures Reached(cfg, inserted, es).cancelled ==>
              PushOf(cfg, Initial(cfg, inserted), es + ([Check(i)] + more), i) == None
    ensures !Reached(cfg, inserted, es).cancelled ==> Reached(cfg, inserted, es + [Check(i)]).workers[i].Pushing?
  {
    hide Run, Reported;
    var s := Reached(cfg, inserted, es);
    ReachedReported(cfg, inserted, es, i);
    CheckingNotPushed(cfg, s, i, PushOf(cfg, Initial(cfg, inserted), es, i));
    PushOfAppend(cfg, Initial(cfg, inserted), es, [Check(i)] + more, i);
    StepKeepsSize(cfg, s, Check(i));
    assert ([Check(i)] + more)[1..] == more;
    if s.cancelled { NoMorePush(cfg, Step(cfg, s, Check(i)), more, i); }
    RunAppend(cfg, Initial(cfg, inserted), es, [Check(i)]);
    RunFirst(cfg, s, Check(i), []);
    RunNone(cfg, Step(cfg, s, Check(i)));
    assert [Check(i)] + [] == [Check(i)];
  }

  lemma CheckingNotPushed(cfg: Config, s: State, i: nat, push: Answer)
    requires i < |s.workers| == |cfg.hosts| && Reported(cfg, s, i, push) && s.workers[i].Checking?
    ensures push == None
  {}

  lemma RunNone(cfg: Config, s: State)
    requires |s.workers| == |cfg.hosts|
    ensures Run(cfg, s, []) == s
  {}

  /** The flag is set and the goroutine is not at its push. */
  predicate WontPush(s: State, i: nat) {
    s.cancelled && i < |s.workers| && !s.workers[i].Pushing?
  }

  lemma WontPushStep(cfg: Config, s: State, e: Event, i: nat)
    requires |s.workers| == |cfg.hosts| && WontPush(s, i)
    ensures WontPush(Step(cfg, s, e), i) && !Pushes(s, e, i)
  {}

  lemma {:induction false} WontPushRun(cfg: Config, s: State, es: seq<Event>, i: nat)
    requires |s.workers| == |cfg.hosts| && WontPush(s, i)
    ensures PushOf(cfg, s, es, i) == None
    decreases |es|
  {
    hide Step, WontPush, Pushes;
    if es != [] {
      StepKeepsSize(cfg, s, es[0]);
      WontPushStep(cfg, s, es[0], i);
      WontPushRun(cfg, Step(cfg, s, es[0]), es[1..], i);
    }
  }

  /** Once the caller cancels, only goroutines already at their push still push. */
  lemma CancelStopsPushes(cfg: Config, inserted: set<string>, es: seq<Event>, i: nat, more: seq<Event>)
    requires i < |cfg.hosts| && PushOf(cfg, Initial(cfg, inserted), es, i) == None
    requires !Reached(cfg, inserted, es).workers[i].Pushing?
    ensures PushOf(cfg, Initial(cfg, inserted), es + ([ParentCancel] + more), i) == None
  {
    hide Run;
    PushOfAppend(cfg, Initial(cfg, inserted), es, [ParentCancel] + more, i);
    assert ([ParentCancel] + more)[1..] == more;
    WontPushRun(cfg, Step(cfg, Reached(cfg, inserted, es), ParentCancel), more, i);
  }

  // --------------------------------------------------------------------- the rows

  /** An agent's ping on a pending row is final. */
  lemma PingIsFinal(cfg: Config, inserted: set<string>, es: seq<Event>, h: string, more: seq<Event>)
    requires var rows := Reached(cfg, inserted, es).rows; h in rows && rows[h] == Pending
    ensures var rows := Reached(cfg, inserted, es + ([Outside(h, Complete)] + more)).rows;
            h in rows && rows[h] == Complete
  {
    hide Run;
    var s := Reached(cfg, inserted, es);
    RunAppend(cfg, Initial(cfg, inserted), es, [Outside(h, Complete)] + more);
    RunFirst(cfg, s, Outside(h, Complete), more);
    RowsAbsorb(cfg, Step(cfg, s, Outside(h, Complete)), more);
  }

  /** Every mark reaches the database. */
  predicate MarksArrive(es: seq<Event>) {
    forall e :: e in es && e.Mark? ==> e.io
  }

  /** The mark of goroutine i's failed push has been written. */
  predicate Marked(cfg: Config, s: State, i: nat)
    requires i < |s.workers| == |cfg.hosts|
  {
    var w, u := s.workers[i], cfg.parse(cfg.hosts[i].id);
    && (w.Marking? ==> u == Some(w.uuid))
    && (i in s.unpushed ==> w.Marking? || w.Sending? || w.Done? || w.Dropped?)
    && ((w.Sending? || w.Done?) && i in s.unpushed ==>
          u.Some? && (u.value in s.rows ==> s.rows[u.value] != Pending))
  }

  lemma MarkedStep(cfg: Config, s: State, e: Event, i: nat)
    requires |s.workers| == |cfg.hosts| && i < |s.workers| && Marked(cfg, s, i)
    requires (e.Mark? ==> e.io) && (e.Outside? ==> e.status != Pending)
    ensures |Step(cfg, s, e).workers| == |cfg.hosts| && Marked(cfg, Step(cfg, s, e), i)
  {
    if OfWorker(e) && e.i == i { MarkedOwn(cfg, s, e, i); } else { MarkedOther(cfg, s, e, i); }
  }

  lemma MarkedOwn(cfg: Config, s: State, e: Event, i: nat)
    requires |s.workers| == |cfg.hosts| && OfWorker(e) && e.i == i < |s.workers| && Marked(cfg, s, i)
    requires e.Mark? ==> e.io
    ensures |Step(cfg, s, e).workers| == |cfg.hosts| && Marked(cfg, Step(cfg, s, e), i)
  {}

  lemma MarkedOther(cfg: Config, s: State, e: Event, i: nat)
    requires |s.workers| == |cfg.hosts| && i < |s.workers| && Marked(cfg, s, i)
    requires !OfWorker(e) || e.i != i
    requires (e.Mark? ==> e.io) && (e.Outside? ==> e.status != Pending)
    ensures |Step(cfg, s, e).workers| == |cfg.hosts| && Marked(cfg, Step(cfg, s, e), i)
  {
    var t := Step(cfg, s, e);
    StepKeepsSize(cfg, s, e);
    RowsStep(cfg, s, e);
    if OfWorker(e) && t != s {
      WorkerMoves(cfg, s, e);
      UnpushedMoves(cfg, s, e);
    } else {
      Quietly(cfg, s, e);
    }
    hide Step, MarkRow;
    SameMarked(cfg, s, t, i);
  }

  lemma SameMarked(cfg: Config, s: State, t: State, i: nat)
    requires i < |s.workers| == |cfg.hosts| == |t.workers| && Marked(cfg, s, i)
    requires t.workers[i] == s.workers[i] && (i in t.unpushed <==> i in s.unpushed)
    requires t.rows.Keys == s.rows.Keys && forall h :: h in s.rows && s.rows[h] != Pending ==> t.rows[h] == s.rows[h]
    ensures Marked(cfg, t, i)
  {}

  lemma {:induction false} MarkedRun(cfg: Config, s: State, es: seq<Event>, i: nat)
    requires |s.workers| == |cfg.hosts| && i < |s.workers| && Marked(cfg, s, i)
    requires MarksArrive(es) && forall e :: e in es && e.Outside? ==> e.status != Pending
    ensures Marked(cfg, Run(cfg, s, es), i)
    decreases |es|
  {
    hide Step, Marked;
    if es != [] {
      assert es[0] in es && forall e :: e in es[1..] ==> e in es;
      MarkedStep(cfg, s, es[0], i);
      MarkedRun(cfg, Step(cfg, s, es[0]), es[1..], i);
    }
  }

  /** At the end, if every mark arrived and no agent has pinged: with no id parsing to another host's,
      the row of a host is failed exactly when its own push failed and its id parses to itself; and
      otherwise it is pending. */
  lemma RowsAtEnd(cfg: Config, inserted: set<string>, es: seq<Event>, i: nat)
    requires Reached(cfg, inserted, es).finished && MarksArrive(es) && NoOutside(es) && NoCrossMarks(cfg)
    requires i < |cfg.hosts| && cfg.hosts[i].id in inserted
    ensures var id, rows := cfg.hosts[i].id, Reached(cfg, inserted, es).rows;
            id in rows &&
            rows[id] == if PushFailed(PushOf(cfg, Initial(cfg, inserted), es, i)) && cfg.parse(id) == Some(id)
                        then Failed else Pending
  {
    hide Run, Inv, Reported, RowsOk, Marked;
    var s, id, push := Reached(cfg, inserted, es), cfg.hosts[i].id, PushOf(cfg, Initial(cfg, inserted), es, i);
    ReachedInv(cfg, inserted, es);
    InvParts(cfg, s);
    FinishedMeansDone(s);
    ReachedReported(cfg, inserted, es, i);
    assert i in s.unpushed <==> PushFailed(push) by { FailedIffUnpushed(cfg, s, i, push); }
    InitiallyMarked(cfg, inserted, i);
    MarkedRun(cfg, Initial(cfg, inserted), es, i);
    NeverComplete(cfg, Initial(cfg, inserted), es);
    assert id in s.rows && s.rows[id] in s.rows.Values;
    DoneIsMarked(cfg, s, i);
    ReachedRows(cfg, inserted, es);
    if s.rows[id] == Failed { OwnMark(cfg, s, i); }
  }

  lemma FailedIffUnpushed(cfg: Config, s: State, i: nat, push: Answer)
    requires i < |s.workers| == |cfg.hosts| && Reported(cfg, s, i, push)
    ensures i in s.unpushed <==> PushFailed(push)
  {}

  lemma InitiallyMarked(cfg: Config, inserted: set<string>, i: nat)
    requires i < |cfg.hosts|
    ensures Marked(cfg, Initial(cfg, inserted), i)
  {}

  lemma DoneIsMarked(cfg: Config, s: State, i: nat)
    requires i < |s.workers| == |cfg.hosts| && Marked(cfg, s, i) && s.workers[i].Done?
    ensures i in s.unpushed ==> cfg.parse(cfg.hosts[i].id).Some?
    ensures var id := cfg.hosts[i].id;
            i in s.unpushed && cfg.parse(id) == Some(id) && id in s.rows ==> s.rows[id] != Pending
  {}

  lemma OwnMark(cfg: Config, s: State, i: nat)
    requires RowsOk(cfg, s) && NoCrossMarks(cfg) && i < |cfg.hosts|
    requires cfg.hosts[i].id in s.rows && s.rows[cfg.hosts[i].id] == Failed
    ensures i in s.unpushed && cfg.parse(cfg.hosts[i].id) == Some(cfg.hosts[i].id)
  {
    var k: nat :| Marks(cfg, s.unpushed, k, cfg.hosts[i].id);
    assert cfg.parse(cfg.hosts[k].id) == Some(cfg.hosts[i].id);
  }

  // ---------------------------------------------------------------- the error text

  /** Failed probes known so far are the only source of the error cell. */
  predicate FromProbes(s: State, seen: set<ProbeError>) {
    && (forall w :: w in s.workers && w.Recording? ==> w.probe in seen)
    && (s.s3Err.Some? ==> s.s3Err.value in seen)
  }

  function Seen(e: Event): set<ProbeError> {
    if e.Probe? && e.outcome.Some? then {e.outcome.value} else {}
  }

  lemma FromProbesStep(cfg: Config, s: State, e: Event, seen: set<ProbeError>)
    requires |s.workers| == |cfg.hosts| && FromProbes(s, seen)
    ensures FromProbes(Step(cfg, s, e), seen + Seen(e))
  {
    var t := Step(cfg, s, e);
    if OfWorker(e) { WorkerMoves(cfg, s, e); }
    forall w | w in t.workers && w.Recording? ensures w.probe in seen + Seen(e) {
      var j :| 0 <= j < |t.workers| && t.workers[j] == w;
      if j < |s.workers| && t.workers[j] == s.workers[j] { assert s.workers[j] in s.workers; }
    }
    if e.Record? && e.i < |s.workers| { assert s.workers[e.i] in s.workers; }
  }

  lemma {:induction false} FromProbesRun(cfg: Config, s: State, es: seq<Event>, seen: set<ProbeError>)
    requires |s.workers| == |cfg.hosts| && FromProbes(s, seen)
    ensures FromProbes(Run(cfg, s, es), seen + set e | e in es && e.Probe? && e.outcome.Some? :: e.outcome.value)
    decreases |es|
  {
    hide Step, FromProbes;
    var all := set e | e in es && e.Probe? && e.outcome.Some? :: e.outcome.value;
    if es == [] {
      assert seen + all == seen;
    } else {
      StepKeepsSize(cfg, s, es[0]);
      FromProbesStep(cfg, s, es[0], seen);
      FromProbesRun(cfg, Step(cfg, s, es[0]), es[1..], seen + Seen(es[0]));
      var rest := set e | e in es[1..] && e.Probe? && e.outcome.Some? :: e.outcome.value;
      assert forall e :: e in es <==> e == es[0] || e in es[1..];
      assert seen + Seen(es[0]) + rest == seen + all;
    }
  }

  /** A summary's error text is that of a probe of this rollout that failed. */
  lemma ErrorIsAProbes(cfg: Config, inserted: set<string>, es: seq<Event>)
    requires Reached(cfg, inserted, es).finished && Reached(cfg, inserted, es).summary.s3Error != ""
    ensures exists e :: e in es && e.Probe? && e.outcome.Some?
                        && Reached(cfg, inserted, es).summary.s3Error ==
                           match e.outcome.value
                           case BadRequest(d) => "build s3 request: " + d
                           case Unreachable(d) => "s3 unreachable: " + d
                           case Unavailable(c) => "s3 unavailable: " + c
  {
    hide Run, Numbered, Conserved, Named;
    var s0 := Initial(cfg, inserted);
    FromProbesRun(cfg, s0, es, {});
    ReachedInv(cfg, inserted, es);
    var p := Reached(cfg, inserted, es).s3Err.value;
    var e :| e in es && e.Probe? && e.outcome.Some? && e.outcome.value == p;
  }
}
