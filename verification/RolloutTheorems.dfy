/** What every schedule of the rollout's goroutines guarantees. */
module RolloutTheorems {
  import opened Wrappers
  import opened Rollout

  // --------------------------------------------------------- drawn numbers

  function Number(w: Worker): nat {
    if w == Ready then 0 else w.n
  }

  ghost predicate HasTicket(ws: seq<Worker>, tickets: seq<nat>, i: nat)
    requires i < |ws|
  {
    ws[i] != Ready ==> 1 <= Number(ws[i]) <= |tickets| && tickets[Number(ws[i]) - 1] == i
  }

  ghost predicate TicketOk(ws: seq<Worker>, tickets: seq<nat>, k: nat)
    requires k < |tickets|
  {
    var i := tickets[k];
    i < |ws| && ws[i] != Ready && Number(ws[i]) == k + 1
  }

  /** The counter hands out 1, 2, 3, ... once each. */
  ghost predicate Numbered(s: State) {
    && |s.tickets| == Started(s.workers)
    && (forall i :: 0 <= i < |s.workers| ==> HasTicket(s.workers, s.tickets, i))
    && (forall k :: 0 <= k < |s.tickets| ==> TicketOk(s.workers, s.tickets, k))
  }

  lemma NumbersDiffer(s: State, i: nat, j: nat)
    requires Numbered(s) && i < |s.workers| && j < |s.workers| && i != j
    requires s.workers[i] != Ready && s.workers[j] != Ready
    ensures Number(s.workers[i]) != Number(s.workers[j])
  {
    assert HasTicket(s.workers, s.tickets, i) && HasTicket(s.workers, s.tickets, j);
  }

  // ------------------------------------------------------ results and counts

  ghost predicate Conserved(s: State) {
    && multiset(s.summary.results) + multiset(s.channel) == Sent(s.workers)
    && s.summary.ok == OkCount(s.summary.results)
    && s.summary.ok + s.summary.failed == |s.summary.results|
    && (s.finished ==> |s.summary.results| == |s.workers|)
  }

  predicate Holding(w: Worker) {
    w.Marking? || w.Sending? || w.Done?
  }

  /** Every result names the host of the goroutine that made it. */
  ghost predicate Named(cfg: Config, s: State) {
    && |s.workers| == |cfg.hosts|
    && forall i :: 0 <= i < |s.workers| && Holding(s.workers[i]) ==> s.workers[i].res.hostId == cfg.hosts[i].id
  }

  // ------------------------------------------------------ probes and abort

  /** Which number was probed, and what a failed probe leads its goroutine to. */
  ghost predicate ProbeOk(cfg: Config, s: State, i: nat)
    requires i < |s.workers| == |cfg.hosts|
  {
    var w, n := s.workers[i], Number(s.workers[i]);
    w != Ready ==>
      && (w.Probing? ==> n % 10 == 0)
      && (n in s.probed <==> n % 10 == 0 && !w.Probing?)
      && (w.Recording? || w.Cancelling? ==> n in s.failed)
      && (n in s.failed ==>
            && n in s.probed
            && (w.Recording? || s.s3Err.Some?)
            && (w.Recording? || w.Cancelling? || s.cancelled)
            && (w.Recording? || w.Cancelling? || w.Checking? || w.Sending? || w.Done?)
            && (Holding(w) ==> w.res == ResultOf(cfg.hosts[i], Some(ABORTED))))
  }

  ghost predicate Probed(cfg: Config, s: State) {
    && |s.workers| == |cfg.hosts|
    && (forall i :: 0 <= i < |s.workers| ==> ProbeOk(cfg, s, i))
    && (forall n :: n in s.probed ==> 1 <= n <= |s.tickets|)
    && s.failed <= s.probed
    && (s.s3Err.Some? ==> s.failed != {})
    && s.summary.s3Error == (if s.finished && s.s3Err.Some? then ProbeText(s.s3Err.value) else "")
  }

  ghost predicate Inv(cfg: Config, s: State) {
    Numbered(s) && Conserved(s) && Named(cfg, s) && Probed(cfg, s)
  }

  lemma {:induction false} IdleCounts(n: nat)
    ensures Started(Idle(n)) == 0 && Sent(Idle(n)) == multiset{}
  {
    if n > 0 {
      IdleCounts(n - 1);
    }
  }

  lemma InitialInv(cfg: Config, inserted: set<string>)
    ensures Inv(cfg, Initial(cfg, inserted))
  {
    IdleCounts(|cfg.hosts|);
  }

  // ------------------------------------------------------- steps keep it all

  predicate OfWorker(e: Event) {
    !e.Receive? && !e.Load? && !e.Outside? && !e.ParentCancel?
  }

  /** The goroutine a worker event moves, and how. */
  predicate Moved(s: State, t: State, i: nat) {
    && i < |s.workers| == |t.workers| && t.workers == s.workers[i := t.workers[i]]
    && !s.workers[i].Done? && t.workers[i] != Ready
    && t.summary == s.summary && t.finished == s.finished
    && t.channel == s.channel + (if t.workers[i].Done? then [t.workers[i].res] else [])
    && (if s.workers[i] == Ready then t.tickets == s.tickets + [i] && Number(t.workers[i]) == |s.tickets| + 1
        else t.tickets == s.tickets && Number(t.workers[i]) == Number(s.workers[i]))
  }

  lemma EarlyMoves(cfg: Config, s: State, e: Event)
    requires |s.workers| == |cfg.hosts| && (e.Draw? || e.Probe? || e.Record? || e.Cancel?)
    ensures Step(cfg, s, e) == s || Moved(s, Step(cfg, s, e), e.i)
  {
    assert s.channel + [] == s.channel;
  }

  lemma LateMoves(cfg: Config, s: State, e: Event)
    requires |s.workers| == |cfg.hosts| && (e.Check? || e.Push? || e.Mark? || e.Send?)
    ensures Step(cfg, s, e) == s || Moved(s, Step(cfg, s, e), e.i)
  {
    assert s.channel + [] == s.channel;
  }

  lemma WorkerMoves(cfg: Config, s: State, e: Event)
    requires |s.workers| == |cfg.hosts| && OfWorker(e)
    ensures Step(cfg, s, e) == s || Moved(s, Step(cfg, s, e), e.i)
  {
    hide Step, Moved;
    if e.Draw? || e.Probe? || e.Record? || e.Cancel? {
      EarlyMoves(cfg, s, e);
    } else {
      LateMoves(cfg, s, e);
    }
  }

  lemma NumberedMove(s: State, t: State, i: nat)
    requires Numbered(s) && Moved(s, t, i)
    ensures Numbered(t)
  {
    StartedUpdate(s.workers, i, t.workers[i]);
    forall j | 0 <= j < |t.workers|
      ensures HasTicket(t.workers, t.tickets, j)
    {
      assert HasTicket(s.workers, s.tickets, j);
    }
    forall k | 0 <= k < |t.tickets|
      ensures TicketOk(t.workers, t.tickets, k)
    {
      if k < |s.tickets| {
        assert TicketOk(s.workers, s.tickets, k);
      }
    }
  }

  lemma NumberedKept(cfg: Config, s: State, e: Event)
    requires |s.workers| == |cfg.hosts| && Numbered(s)
    ensures Numbered(Step(cfg, s, e))
  {
    if OfWorker(e) {
      WorkerMoves(cfg, s, e);
      hide Step;
      if Step(cfg, s, e) != s {
        NumberedMove(s, Step(cfg, s, e), e.i);
      }
    }
  }

  lemma ConservedMove(s: State, t: State, i: nat)
    requires Conserved(s) && Moved(s, t, i)
    ensures Conserved(t)
  {
    SentUpdate(s.workers, i, t.workers[i]);
  }

  lemma ConservedReceive(s: State)
    requires Conserved(s)
    ensures Conserved(DoReceive(s))
  {
    var t := DoReceive(s);
    if t != s {
      assert s.channel == [s.channel[0]] + s.channel[1..];
      assert t.summary.results[..|t.summary.results| - 1] == s.summary.results;
    }
  }

  lemma ConservedKept(cfg: Config, s: State, e: Event)
    requires |s.workers| == |cfg.hosts| && Conserved(s)
    ensures Conserved(Step(cfg, s, e))
  {
    if OfWorker(e) {
      WorkerMoves(cfg, s, e);
      hide Step;
      if Step(cfg, s, e) != s {
        ConservedMove(s, Step(cfg, s, e), e.i);
      }
    } else if e.Receive? {
      ConservedReceive(s);
    }
  }

  lemma NoEarlyResult(cfg: Config, s: State, e: Event)
    requires e.Draw? || e.Probe? || e.Record? || e.Cancel?
    requires |s.workers| == |cfg.hosts| && e.i < |s.workers|
    ensures Step(cfg, s, e) == s || !Holding(Step(cfg, s, e).workers[e.i])
  {
  }

  /** A goroutine's result names its own host from the moment it is made. */
  lemma LateResult(cfg: Config, s: State, e: Event)
    requires e.Check? || e.Push? || e.Mark? || e.Send?
    requires |s.workers| == |cfg.hosts| && e.i < |s.workers|
    requires Holding(s.workers[e.i]) ==> s.workers[e.i].res.hostId == cfg.hosts[e.i].id
    ensures var w := Step(cfg, s, e).workers[e.i];
            Holding(w) ==> w.res.hostId == cfg.hosts[e.i].id
  {
  }

  lemma NamedKept(cfg: Config, s: State, e: Event)
    requires Named(cfg, s)
    ensures Named(cfg, Step(cfg, s, e))
  {
    if OfWorker(e) {
      WorkerMoves(cfg, s, e);
      if e.i < |s.workers| {
        if e.Draw? || e.Probe? || e.Record? || e.Cancel? {
          NoEarlyResult(cfg, s, e);
        } else {
          LateResult(cfg, s, e);
        }
      }
      hide Step;
    }
  }

  /** Only number m is affected. */
  ghost predicate AgreeBut(x: set<nat>, y: set<nat>, m: nat) {
    forall n :: n != m ==> (n in x <==> n in y)
  }

  /** A step that concerns goroutine i leaves the others' probe facts alone. */
  lemma OthersProbeOk(cfg: Config, s: State, t: State, i: nat, j: nat)
    requires |s.workers| == |cfg.hosts| == |t.workers|
    requires j < |s.workers| && i < |s.workers| && t.workers[j] == s.workers[j]
    requires ProbeOk(cfg, s, j)
    requires s.s3Err.Some? ==> t.s3Err.Some?
    requires s.cancelled ==> t.cancelled
    requires s.workers[j] != Ready ==> Number(s.workers[i]) != Number(s.workers[j])
    requires AgreeBut(s.probed, t.probed, Number(s.workers[i])) && AgreeBut(s.failed, t.failed, Number(s.workers[i]))
    ensures ProbeOk(cfg, t, j)
  {
  }

  /** What the moving goroutine itself must satisfy afterwards. */
  lemma OwnProbeOk(cfg: Config, s: State, e: Event)
    requires Inv(cfg, s) && OfWorker(e) && e.i < |s.workers|
    ensures ProbeOk(cfg, Step(cfg, s, e), e.i)
  {
    assert ProbeOk(cfg, s, e.i);
    assert HasTicket(s.workers, s.tickets, e.i);
  }

  /** The shared cells after a worker event. */
  ghost predicate CellsMoved(s: State, t: State, i: nat)
    requires i < |s.workers|
  {
    var w, n := s.workers[i], Number(s.workers[i]);
    && (t.s3Err == s.s3Err || (w.Recording? && s.s3Err.None? && t.s3Err.Some?))
    && (s.cancelled ==> t.cancelled)
    && (t.probed == s.probed || (w.Probing? && t.probed == s.probed + {n}))
    && (t.failed == s.failed || (t.failed == s.failed + {n} && t.probed == s.probed + {n}))
  }

  lemma SharedCells(cfg: Config, s: State, e: Event)
    requires |s.workers| == |cfg.hosts| && OfWorker(e) && Step(cfg, s, e) != s
    ensures e.i < |s.workers| && CellsMoved(s, Step(cfg, s, e), e.i)
    ensures AgreeBut(s.probed, Step(cfg, s, e).probed, Number(s.workers[e.i]))
    ensures AgreeBut(s.failed, Step(cfg, s, e).failed, Number(s.workers[e.i]))
  {
  }

  lemma ProbedWorkers(cfg: Config, s: State, e: Event)
    requires Inv(cfg, s) && OfWorker(e) && Step(cfg, s, e) != s
    ensures forall j :: 0 <= j < |s.workers| ==> ProbeOk(cfg, Step(cfg, s, e), j)
  {
    var t := Step(cfg, s, e);
    WorkerMoves(cfg, s, e);
    SharedCells(cfg, s, e);
    OwnProbeOk(cfg, s, e);
    hide Step;
    forall j | 0 <= j < |s.workers|
      ensures ProbeOk(cfg, t, j)
    {
      assert ProbeOk(cfg, s, j);
      if j != e.i {
        if s.workers[j] != Ready {
          DrawnNumbersDiffer(s, e.i, j);
        }
        OthersProbeOk(cfg, s, t, e.i, j);
      }
    }
  }

  lemma DrawnNumbersDiffer(s: State, i: nat, j: nat)
    requires Numbered(s) && i < |s.workers| && j < |s.workers| && i != j && s.workers[j] != Ready
    ensures Number(s.workers[i]) != Number(s.workers[j])
  {
    assert HasTicket(s.workers, s.tickets, j);
    if s.workers[i] != Ready {
      NumbersDiffer(s, i, j);
    }
  }

  lemma GlobalsMove(cfg: Config, s: State, t: State, i: nat)
    requires Inv(cfg, s) && Moved(s, t, i) && CellsMoved(s, t, i)
    ensures forall n :: n in t.probed ==> 1 <= n <= |t.tickets|
    ensures t.failed <= t.probed
    ensures t.s3Err.Some? ==> t.failed != {}
  {
    assert ProbeOk(cfg, s, i);
    assert HasTicket(s.workers, s.tickets, i);
    if s.workers[i].Recording? {
      assert Number(s.workers[i]) in s.failed;
    }
  }

  lemma ProbedGlobals(cfg: Config, s: State, e: Event)
    requires Inv(cfg, s)
    ensures var t := Step(cfg, s, e);
            && |t.workers| == |cfg.hosts|
            && (forall n :: n in t.probed ==> 1 <= n <= |t.tickets|)
            && t.failed <= t.probed
            && (t.s3Err.Some? ==> t.failed != {})
  {
    StepKeepsSize(cfg, s, e);
    if OfWorker(e) {
      WorkerMoves(cfg, s, e);
      if Step(cfg, s, e) != s {
        SharedCells(cfg, s, e);
        GlobalsMove(cfg, s, Step(cfg, s, e), e.i);
      }
      hide Step;
    }
  }

  /** Once the collector has finished every goroutine has returned. */
  lemma FinishedMeansDone(s: State)
    requires Conserved(s) && |s.summary.results| == |s.workers|
    ensures s.channel == [] && forall i :: 0 <= i < |s.workers| ==> s.workers[i].Done?
  {
    SentSize(s.workers);
    assert |multiset(s.summary.results)| == |s.summary.results|;
    assert |multiset(s.channel)| == |s.channel|;
  }

  lemma ErrorTextKept(cfg: Config, s: State, e: Event)
    requires Inv(cfg, s)
    ensures var t := Step(cfg, s, e);
            t.summary.s3Error == (if t.finished && t.s3Err.Some? then ProbeText(t.s3Err.value) else "")
  {
    if s.finished {
      FinishedMeansDone(s);
    }
    if OfWorker(e) {
      WorkerMoves(cfg, s, e);
      if Step(cfg, s, e) != s {
        SharedCells(cfg, s, e);
      }
      hide Step;
    } else {
      hide Numbered, Conserved, Named;
    }
  }

  lemma ProbedKept(cfg: Config, s: State, e: Event)
    requires Inv(cfg, s)
    ensures Probed(cfg, Step(cfg, s, e))
  {
    var t := Step(cfg, s, e);
    ProbedGlobals(cfg, s, e);
    ErrorTextKept(cfg, s, e);
    if OfWorker(e) && t != s {
      ProbedWorkers(cfg, s, e);
    } else {
      UnmovedWorkers(cfg, s, e);
    }
  }

  lemma UnmovedWorkers(cfg: Config, s: State, e: Event)
    requires Probed(cfg, s) && (!OfWorker(e) || Step(cfg, s, e) == s)
    ensures forall j :: 0 <= j < |s.workers| ==> ProbeOk(cfg, Step(cfg, s, e), j)
    ensures Step(cfg, s, e).workers == s.workers
  {
    forall j | 0 <= j < |s.workers|
      ensures ProbeOk(cfg, Step(cfg, s, e), j)
    {
      assert ProbeOk(cfg, s, j);
    }
  }

  lemma StepKeeps(cfg: Config, s: State, e: Event)
    requires Inv(cfg, s)
    ensures Inv(cfg, Step(cfg, s, e))
  {
    NumberedKept(cfg, s, e);
    ConservedKept(cfg, s, e);
    NamedKept(cfg, s, e);
    ProbedKept(cfg, s, e);
  }

  lemma {:induction false} RunKeeps(cfg: Config, s: State, es: seq<Event>)
    requires Inv(cfg, s)
    ensures Inv(cfg, Run(cfg, s, es))
    decreases |es|
  {
    if es != [] {
      StepKeeps(cfg, s, es[0]);
      RunKeeps(cfg, Step(cfg, s, es[0]), es[1..]);
    }
  }

  // ============================================================ main results

  function Reached(cfg: Config, inserted: set<string>, es: seq<Event>): State {
    Run(cfg, Initial(cfg, inserted), es)
  }

  lemma ReachedInv(cfg: Config, inserted: set<string>, es: seq<Event>)
    ensures Inv(cfg, Reached(cfg, inserted, es))
  {
    InitialInv(cfg, inserted);
    RunKeeps(cfg, Initial(cfg, inserted), es);
  }

  // ------------------------------------------------------------ conservation

  function Ids(rs: seq<UpdateResult>): (ids: seq<string>)
    ensures |ids| == |rs| && forall i :: 0 <= i < |rs| ==> ids[i] == rs[i].hostId
  {
    if rs == [] then [] else [rs[0].hostId] + Ids(rs[1..])
  }

  function HostIds(hosts: seq<Host>): (ids: seq<string>)
    ensures |ids| == |hosts| && forall i :: 0 <= i < |hosts| ==> ids[i] == hosts[i].id
  {
    if hosts == [] then [] else [hosts[0].id] + HostIds(hosts[1..])
  }

  /** The results in the order of the hosts. */
  function ResultsByHost(ws: seq<Worker>): (rs: seq<UpdateResult>)
    requires forall i :: 0 <= i < |ws| ==> ws[i].Done?
    ensures |rs| == |ws| && forall i :: 0 <= i < |ws| ==> rs[i] == ws[i].res
  {
    if ws == [] then [] else [ws[0].res] + ResultsByHost(ws[1..])
  }

  lemma {:induction false} ResultsByHostAreSent(ws: seq<Worker>)
    requires forall i :: 0 <= i < |ws| ==> ws[i].Done?
    ensures multiset(ResultsByHost(ws)) == Sent(ws)
  {
    if ws != [] {
      ResultsByHostAreSent(ws[1..]);
    }
  }

  lemma OkCountFront(r: UpdateResult, rs: seq<UpdateResult>)
    ensures OkCount([r] + rs) == OkCount(rs) + if r.ok then 1 else 0
  {
    if rs == [] {
      assert [r] + rs == [r] && [r][..0] == [];
    } else {
      OkCountFront(r, rs[..|rs| - 1]);
      assert ([r] + rs)[..|rs|] == [r] + rs[..|rs| - 1];
    }
  }

  lemma {:induction false} OkCountSplit(x: seq<UpdateResult>, r: UpdateResult, y: seq<UpdateResult>)
    ensures OkCount(x + [r] + y) == OkCount(x + y) + if r.ok then 1 else 0
  {
    if x == [] {
      assert x + [r] + y == [r] + y && x + y == y;
      OkCountFront(r, y);
    } else {
      OkCountSplit(x[1..], r, y);
      OkCountFront(x[0], x[1..] + [r] + y);
      OkCountFront(x[0], x[1..] + y);
      assert [x[0]] + (x[1..] + [r] + y) == x + [r] + y;
      assert [x[0]] + (x[1..] + y) == x + y;
    }
  }

  lemma IdsAppend(x: seq<UpdateResult>, y: seq<UpdateResult>)
    ensures Ids(x + y) == Ids(x) + Ids(y)
  {
  }

  lemma MiddleOut<T>(p: seq<T>, r: T, q: seq<T>)
    ensures multiset(p + [r] + q) == multiset(p + q) + multiset{r}
  {
  }

  lemma IdsMiddle(x: seq<UpdateResult>, r: UpdateResult, y: seq<UpdateResult>)
    ensures Ids(x + [r] + y) == Ids(x) + [r.hostId] + Ids(y)
  {
    assert Ids([r]) == [r.hostId];
    hide Ids;
    IdsAppend(x + [r], y);
    IdsAppend(x, [r]);
  }

  /** Taking one result out of the middle. */
  lemma TakeOut(x: seq<UpdateResult>, r: UpdateResult, y: seq<UpdateResult>)
    ensures multiset(Ids(x + [r] + y)) == multiset(Ids(x + y)) + multiset{r.hostId}
    ensures multiset(x + [r] + y) == multiset(x + y) + multiset{r}
    ensures OkCount(x + [r] + y) == OkCount(x + y) + if r.ok then 1 else 0
  {
    hide Ids, OkCount;
    OkCountSplit(x, r, y);
    IdsMiddle(x, r, y);
    IdsAppend(x, y);
    MiddleOut(Ids(x), r.hostId, Ids(y));
    MiddleOut(x, r, y);
  }

  lemma CancelOne<T>(a: multiset<T>, b: multiset<T>, r: T)
    requires a + multiset{r} == b + multiset{r}
    ensures a == b
  {
    assert a == (a + multiset{r}) - multiset{r};
    assert b == (b + multiset{r}) - multiset{r};
  }

  lemma FirstInMiddle<T>(x: seq<T>)
    requires x != []
    ensures x == [] + [x[0]] + x[1..] && [] + x[1..] == x[1..]
    ensures multiset(x) == multiset(x[1..]) + multiset{x[0]}
  {
    MiddleOut([], x[0], x[1..]);
  }

  lemma SameRest<T>(x: seq<T>, y: seq<T>) returns (p: seq<T>, q: seq<T>)
    requires multiset(x) == multiset(y) && x != []
    ensures y == p + [x[0]] + q
    ensures multiset(x[1..]) == multiset(p + q)
  {
    assert x[0] in multiset(y);
    var k :| 0 <= k < |y| && y[k] == x[0];
    p, q := y[..k], y[k + 1..];
    assert y == p + [x[0]] + q;
    MiddleOut(p, x[0], q);
    FirstInMiddle(x);
    CancelOne(multiset(x[1..]), multiset(p + q), x[0]);
  }

  /** Reordering results changes neither who is reported nor how many went well. */
  lemma {:induction false} Reordered(x: seq<UpdateResult>, y: seq<UpdateResult>)
    requires multiset(x) == multiset(y)
    ensures multiset(Ids(x)) == multiset(Ids(y)) && OkCount(x) == OkCount(y)
    decreases |x|
  {
    hide Ids, OkCount;
    if x == [] {
      assert |multiset(y)| == 0;
      assert y == [];
    } else {
      var p, q := SameRest(x, y);
      FirstInMiddle(x);
      TakeOut([], x[0], x[1..]);
      TakeOut(p, x[0], q);
      Reordered(x[1..], p + q);
    }
  }

  lemma EndState(cfg: Config, s: State)
    requires Conserved(s) && Named(cfg, s) && s.finished
    ensures var sum := s.summary;
            && sum.ok + sum.failed == |cfg.hosts| == |sum.results|
            && multiset(Ids(sum.results)) == multiset(HostIds(cfg.hosts))
  {
    hide Ids, HostIds, OkCount, ResultsByHost, Sent;
    FinishedMeansDone(s);
    var rs := ResultsByHost(s.workers);
    ResultsByHostAreSent(s.workers);
    assert multiset(s.summary.results) == multiset(rs);
    Reordered(s.summary.results, rs);
    assert Ids(rs) == HostIds(cfg.hosts);
  }

  /** When the collector has finished: OK + Failed = Total = len(Results), and every host is
      reported exactly once. */
  lemma Conservation(cfg: Config, inserted: set<string>, es: seq<Event>)
    requires Reached(cfg, inserted, es).finished
    ensures var sum := Reached(cfg, inserted, es).summary;
            && sum.ok + sum.failed == |cfg.hosts| == |sum.results|
            && multiset(Ids(sum.results)) == multiset(HostIds(cfg.hosts))
  {
    hide Run;
    ReachedInv(cfg, inserted, es);
    EndState(cfg, Reached(cfg, inserted, es));
  }

  // ------------------------------------------------- termination and blocking

  function Rank(w: Worker): nat {
    match w
    case Ready => 9
    case Probing(_) => 8
    case Recording(_, _) => 7
    case Cancelling(_) => 6
    case Checking(_) => 5
    case Pushing(_) => 4
    case Marking(_, _, _) => 3
    case Sending(_, _) => 2
    case Done(_, _) => 0
    case Dropped(_) => 0
  }

  function Ranks(ws: seq<Worker>): nat {
    if ws == [] then 0 else Rank(ws[0]) + Ranks(ws[1..])
  }

  /** What is left to do. */
  function Left(s: State): nat {
    Ranks(s.workers) + |s.channel| + if s.finished then 0 else 1
  }

  lemma {:induction false} RanksUpdate(ws: seq<Worker>, i: nat, w: Worker)
    requires i < |ws|
    ensures Ranks(ws[i := w]) == Ranks(ws) - Rank(ws[i]) + Rank(w)
  {
    if i > 0 {
      assert ws[i := w][1..] == ws[1..][i - 1 := w];
      RanksUpdate(ws[1..], i - 1, w);
    }
  }

  lemma RankFalls(cfg: Config, s: State, e: Event)
    requires |s.workers| == |cfg.hosts| && OfWorker(e) && Step(cfg, s, e) != s
    ensures e.i < |s.workers|
    ensures var w := Step(cfg, s, e).workers[e.i];
            Rank(w) + (if w.Done? then 1 else 0) < Rank(s.workers[e.i])
  {
  }

  /** Every step of the rollout that does anything leaves less to do; outside events leave the same. */
  lemma LeftFalls(cfg: Config, s: State, e: Event)
    requires |s.workers| == |cfg.hosts|
    ensures Internal(e) && Step(cfg, s, e) != s ==> Left(Step(cfg, s, e)) < Left(s)
    ensures !Internal(e) ==> Left(Step(cfg, s, e)) == Left(s)
  {
    var t := Step(cfg, s, e);
    if OfWorker(e) && t != s {
      WorkerMoves(cfg, s, e);
      RankFalls(cfg, s, e);
      RanksUpdate(s.workers, e.i, t.workers[e.i]);
    }
  }

  /** How many events of a schedule are steps of the rollout that do something. */
  function Effective(cfg: Config, s: State, es: seq<Event>): nat
    requires |s.workers| == |cfg.hosts|
    decreases |es|
  {
    if es == [] then 0
    else
      var t := Step(cfg, s, es[0]);
      StepKeepsSize(cfg, s, es[0]);
      (if Internal(es[0]) && t != s then 1 else 0) + Effective(cfg, t, es[1..])
  }

  /** No schedule can make the rollout take more than 9 steps per host and one more. */
  lemma {:induction false} ScheduleIsShort(cfg: Config, s: State, es: seq<Event>)
    requires |s.workers| == |cfg.hosts|
    ensures Effective(cfg, s, es) <= Left(s)
    decreases |es|
  {
    hide Step, Left;
    if es != [] {
      StepKeepsSize(cfg, s, es[0]);
      LeftFalls(cfg, s, es[0]);
      ScheduleIsShort(cfg, Step(cfg, s, es[0]), es[1..]);
    }
  }

  lemma {:induction false} InitialLeft(n: nat)
    ensures Ranks(Idle(n)) == 9 * n
  {
    if n > 0 {
      InitialLeft(n - 1);
    }
  }

  /** Every schedule ends: at most 9N + 1 effective steps from the start. */
  lemma Terminates(cfg: Config, inserted: set<string>, es: seq<Event>)
    ensures Effective(cfg, Initial(cfg, inserted), es) <= 9 * |cfg.hosts| + 1
  {
    ScheduleIsShort(cfg, Initial(cfg, inserted), es);
    InitialLeft(|cfg.hosts|);
  }

  /** No goroutine and not the collector can take a step. */
  ghost predicate Stuck(cfg: Config, s: State)
    requires |s.workers| == |cfg.hosts|
  {
    forall e :: Internal(e) ==> Step(cfg, s, e) == s
  }

  /** The step a goroutine that has not returned is about to take. */
  function NextEvent(w: Worker, i: nat): Event {
    match w
    case Ready => Draw(i)
    case Probing(_) => Probe(i, None)
    case Recording(_, _) => Record(i)
    case Cancelling(_) => Cancel(i)
    case Checking(_) => Check(i)
    case Pushing(_) => Push(i, None)
    case Marking(_, _, _) => Mark(i, true)
    case Sending(_, _) => Send(i)
    case _ => Receive
  }

  lemma RunningCanStep(cfg: Config, s: State, i: nat)
    requires Conserved(s) && |s.workers| == |cfg.hosts| && i < |s.workers|
    requires !s.workers[i].Done? && !s.workers[i].Dropped?
    ensures Step(cfg, s, NextEvent(s.workers[i], i)) != s
  {
    SentSize(s.workers);
    assert |multiset(s.channel)| == |s.channel|;
    var t := Step(cfg, s, NextEvent(s.workers[i], i));
    assert t.workers[i] != s.workers[i];
  }

  /** A rollout that can go no further has finished exactly when no goroutine returned without
      sending. */
  lemma StuckIsFinishedUnlessDropped(cfg: Config, s: State)
    requires Conserved(s) && |s.workers| == |cfg.hosts| && Stuck(cfg, s)
    ensures s.finished <==> forall i :: 0 <= i < |s.workers| ==> !s.workers[i].Dropped?
  {
    if s.finished {
      FinishedMeansDone(s);
    } else {
      if forall i :: 0 <= i < |s.workers| ==> !s.workers[i].Dropped? {
        AllReturnedCanStep(cfg, s);
      }
    }
  }

  lemma AllReturnedCanStep(cfg: Config, s: State)
    requires Conserved(s) && |s.workers| == |cfg.hosts| && !s.finished
    requires forall i :: 0 <= i < |s.workers| ==> !s.workers[i].Dropped?
    ensures exists e :: Internal(e) && Step(cfg, s, e) != s
  {
    if i :| 0 <= i < |s.workers| && !s.workers[i].Done? {
      RunningCanStep(cfg, s, i);
      assert Internal(NextEvent(s.workers[i], i));
    } else {
      SentSize(s.workers);
      assert |multiset(s.summary.results)| == |s.summary.results| && |multiset(s.channel)| == |s.channel|;
      if |s.summary.results| == |s.workers| {
        assert Step(cfg, s, Load).finished;
      } else {
        assert Step(cfg, s, Receive).channel == s.channel[1..];
      }
    }
  }

  /** A goroutine returns without sending exactly when its push failed and its host id is no UUID. */
  ghost predicate DroppedOk(cfg: Config, s: State) {
    && |s.workers| == |cfg.hosts|
    && (forall i :: i in s.unpushed ==> i < |cfg.hosts|)
    && (forall i :: 0 <= i < |s.workers| ==> DroppedIff(cfg, s, i))
  }

  predicate DroppedIff(cfg: Config, s: State, i: nat)
    requires i < |s.workers| == |cfg.hosts|
  {
    && (s.workers[i].Dropped? <==> i in s.unpushed && cfg.parse(cfg.hosts[i].id).None?)
    && (i in s.unpushed ==>
          s.workers[i].Dropped? || s.workers[i].Marking? || s.workers[i].Sending? || s.workers[i].Done?)
  }

  lemma OwnDropping(cfg: Config, s: State, e: Event)
    requires |s.workers| == |cfg.hosts| && OfWorker(e) && e.i < |s.workers| && DroppedIff(cfg, s, e.i)
    ensures DroppedIff(cfg, Step(cfg, s, e), e.i)
  {
  }

  lemma UnpushedMoves(cfg: Config, s: State, e: Event)
    requires |s.workers| == |cfg.hosts| && OfWorker(e)
    ensures e.i < |s.workers| || Step(cfg, s, e) == s
    ensures s.unpushed <= Step(cfg, s, e).unpushed <= s.unpushed + {e.i}
  {
  }

  lemma DroppedKept(cfg: Config, s: State, e: Event)
    requires DroppedOk(cfg, s)
    ensures DroppedOk(cfg, Step(cfg, s, e))
    ensures s.unpushed <= Step(cfg, s, e).unpushed
  {
    var t := Step(cfg, s, e);
    StepKeepsSize(cfg, s, e);
    if OfWorker(e) {
      WorkerMoves(cfg, s, e);
      UnpushedMoves(cfg, s, e);
      if e.i < |s.workers| {
        assert DroppedIff(cfg, s, e.i);
        OwnDropping(cfg, s, e);
      }
      hide Step;
      forall j | 0 <= j < |t.workers| ensures DroppedIff(cfg, t, j) { assert DroppedIff(cfg, s, j); }
    } else {
      forall j | 0 <= j < |t.workers| ensures DroppedIff(cfg, t, j) { assert DroppedIff(cfg, s, j); }
    }
  }

  lemma {:induction false} DroppedRun(cfg: Config, s: State, es: seq<Event>)
    requires DroppedOk(cfg, s)
    ensures DroppedOk(cfg, Run(cfg, s, es))
    ensures s.unpushed <= Run(cfg, s, es).unpushed
    decreases |es|
  {
    hide Step, DroppedOk;
    if es != [] {
      DroppedSize(cfg, s);
      DroppedKept(cfg, s, es[0]);
      DroppedSize(cfg, Step(cfg, s, es[0]));
      DroppedRun(cfg, Step(cfg, s, es[0]), es[1..]);
    }
  }

  lemma DroppedSize(cfg: Config, s: State)
    requires DroppedOk(cfg, s)
    ensures |s.workers| == |cfg.hosts|
  {}

  lemma ReachedDropped(cfg: Config, inserted: set<string>, es: seq<Event>)
    ensures DroppedOk(cfg, Reached(cfg, inserted, es))
  {
    DroppedRun(cfg, Initial(cfg, inserted), es);
  }

  /** Every host id whose push failed parses as a UUID. */
  ghost predicate FailedPushesParse(cfg: Config, s: State) {
    forall i :: i in s.unpushed && i < |cfg.hosts| ==> cfg.parse(cfg.hosts[i].id).Some?
  }

  /** Every schedule taken as far as it goes has finished exactly when each host's id parses as a
      UUID or its push succeeded. */
  lemma CollectorFinishesIff(cfg: Config, inserted: set<string>, es: seq<Event>)
    requires Stuck(cfg, Reached(cfg, inserted, es))
    ensures Reached(cfg, inserted, es).finished <==> FailedPushesParse(cfg, Reached(cfg, inserted, es))
  {
    hide Run, Stuck;
    var s := Reached(cfg, inserted, es);
    ReachedInv(cfg, inserted, es);
    ReachedDropped(cfg, inserted, es);
    StuckIsFinishedUnlessDropped(cfg, s);
    if i :| i in s.unpushed && i < |cfg.hosts| && cfg.parse(cfg.hosts[i].id).None? {
      assert DroppedIff(cfg, s, i);
    }
    forall i | 0 <= i < |s.workers| && s.workers[i].Dropped?
      ensures i in s.unpushed && cfg.parse(cfg.hosts[i].id).None?
    {
      assert DroppedIff(cfg, s, i);
    }
  }

  /** Once the push to a host with an id that does not parse has failed, no continuation finishes. */
  lemma UnparsableFailureBlocks(cfg: Config, inserted: set<string>, es: seq<Event>, more: seq<Event>)
    requires !FailedPushesParse(cfg, Reached(cfg, inserted, es))
    ensures !Run(cfg, Reached(cfg, inserted, es), more).finished
  {
    hide Run;
    var s := Reached(cfg, inserted, es);
    var t := Run(cfg, s, more);
    ReachedDropped(cfg, inserted, es);
    DroppedRun(cfg, s, more);
    ReachedInv(cfg, inserted, es);
    RunKeeps(cfg, s, more);
    var i :| i in s.unpushed && i < |cfg.hosts| && cfg.parse(cfg.hosts[i].id).None?;
    assert DroppedIff(cfg, t, i);
    if t.finished {
      FinishedMeansDone(t);
    }
  }

  // ------------------------------------------------------- probes and errors

  ghost function Tens(n: nat): (r: set<nat>)
    ensures forall k :: k in r <==> 1 <= k <= n && k % 10 == 0
    ensures |r| == n / 10
  {
    if n == 0 then {} else if n % 10 == 0 then Tens(n - 1) + {n} else Tens(n - 1)
  }

  /** At the end exactly the numbers 10, 20, 30, ... have been re-validated, N/10 of them; the
      summary carries an error text exactly when one of them failed; and the goroutine of each
      failed one reported its host as aborted, without pushing. */
  lemma ProbesAtEnd(cfg: Config, inserted: set<string>, es: seq<Event>)
    requires Reached(cfg, inserted, es).finished
    ensures var s := Reached(cfg, inserted, es);
            && s.probed == Tens(|cfg.hosts|) && |s.probed| == |cfg.hosts| / 10
            && (s.summary.s3Error != "" <==> s.failed != {})
            && forall n :: n in s.failed ==>
                 exists i :: 0 <= i < |cfg.hosts| && Number(s.workers[i]) == n && s.workers[i].Done? &&
                             s.workers[i].res == ResultOf(cfg.hosts[i], Some(ABORTED))
  {
    hide Run;
    ReachedInv(cfg, inserted, es);
    EndProbes(cfg, Reached(cfg, inserted, es));
  }

  lemma {:induction false} AllStarted(ws: seq<Worker>)
    requires forall i :: 0 <= i < |ws| ==> ws[i].Done?
    ensures Started(ws) == |ws|
  {
    if ws != [] {
      AllStarted(ws[1..]);
    }
  }

  lemma EndProbes(cfg: Config, s: State)
    requires Inv(cfg, s) && s.finished
    ensures s.probed == Tens(|cfg.hosts|) && |s.probed| == |cfg.hosts| / 10
    ensures s.summary.s3Error != "" <==> s.failed != {}
    ensures forall n :: n in s.failed ==>
              exists i :: 0 <= i < |cfg.hosts| && Number(s.workers[i]) == n && s.workers[i].Done? &&
                          s.workers[i].res == ResultOf(cfg.hosts[i], Some(ABORTED))
  {
    FinishedMeansDone(s);
    AllStarted(s.workers);
    forall n | 1 <= n <= |cfg.hosts|
      ensures n in s.probed <==> n % 10 == 0
      ensures n in s.failed ==> s.s3Err.Some?
      ensures n in s.failed ==>
                exists i :: 0 <= i < |cfg.hosts| && Number(s.workers[i]) == n && s.workers[i].Done? &&
                            s.workers[i].res == ResultOf(cfg.hosts[i], Some(ABORTED))
    {
      var i := s.tickets[n - 1];
      assert TicketOk(s.workers, s.tickets, n - 1);
      assert ProbeOk(cfg, s, i);
    }
    assert s.probed == Tens(|cfg.hosts|);
    if s.failed != {} {
      var n :| n in s.failed;
      assert s.s3Err.Some?;
    }
  }

  /** The first error stays: the cell never changes once it is set, nor does the cancel flag. */
  lemma {:induction false} FirstErrorStays(cfg: Config, s: State, es: seq<Event>)
    requires |s.workers| == |cfg.hosts|
    ensures s.s3Err.Some? ==> Run(cfg, s, es).s3Err == s.s3Err
    ensures s.cancelled ==> Run(cfg, s, es).cancelled
    decreases |es|
  {
    if es != [] {
      StepKeepsSize(cfg, s, es[0]);
      FirstErrorStays(cfg, Step(cfg, s, es[0]), es[1..]);
    }
  }
}
