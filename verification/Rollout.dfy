/** RolloutAgentUpdate in internal/application/host_service.go, lines 129 to 190: one goroutine
    per host, sharing an atomic counter, a cancel flag, a first-error cell, a buffered channel
    and the table of update statuses; and one collector that receives exactly once per host.

    A run is a sequence of events in any order; an event whose goroutine is not at that
    point (or whose channel operation would block) changes nothing. */
module Rollout {
  import opened Wrappers

  datatype Host = Host(id: string, ip: string)

  /** `parse` is uuid.Parse followed by String: the canonical text of an id that parses. */
  datatype Config = Config(hosts: seq<Host>, parse: string -> Option<string>)

  datatype UpdateResult = UpdateResult(hostId: string, addr: string, ok: bool, error: string)

  datatype ProbeError = BadRequest(detail: string) | Unreachable(detail: string) | Unavailable(code: string)

  function ProbeText(e: ProbeError): (text: string)
    ensures text != ""
  {
    match e
    case BadRequest(d) => "build s3 request: " + d
    case Unreachable(d) => "s3 unreachable: " + d
    case Unavailable(c) => "s3 unavailable: " + c
  }

  const ABORTED: string := "rollout aborted: s3 became unreachable mid-flight"

  /** Where one goroutine is; n is the number it drew from the counter. */
  datatype Worker =
    | Ready
    | Probing(n: nat)
    | Recording(n: nat, probe: ProbeError)
    | Cancelling(n: nat)
    | Checking(n: nat)
    | Pushing(n: nat)
    | Marking(n: nat, uuid: string, res: UpdateResult)
    | Sending(n: nat, res: UpdateResult)
    | Done(n: nat, res: UpdateResult)
    | Dropped(n: nat)

  datatype Status = Pending | Complete | Failed

  datatype Summary = Summary(ok: nat, failed: nat, results: seq<UpdateResult>, s3Error: string)

  /** `tickets` lists the goroutines in the order they drew from the counter, so its length is
      the counter; `probed` and `failed` are the numbers whose re-validation ran, and failed;
      `unpushed` lists the goroutines whose push failed. */
  datatype State = State(
    workers: seq<Worker>, tickets: seq<nat>, cancelled: bool, s3Err: Option<ProbeError>,
    channel: seq<UpdateResult>, summary: Summary, finished: bool,
    rows: map<string, Status>, probed: set<nat>, failed: set<nat>, unpushed: set<nat>)

  datatype Event =
    | Draw(i: nat)
    | Probe(i: nat, outcome: Option<ProbeError>)
    | Record(i: nat)
    | Cancel(i: nat)
    | Check(i: nat)
    | Push(i: nat, error: Option<string>)
    | Mark(i: nat, io: bool)
    | Send(i: nat)
    | Receive
    | Load
    | Outside(hostId: string, status: Status)
    | ParentCancel

  /** Pings of agents, marks of other rollouts of this version and the caller's cancellation
      come from outside; the rest are the rollout's own steps. */
  predicate Internal(e: Event) {
    !e.Outside? && !e.ParentCancel?
  }

  function Initial(cfg: Config, inserted: set<string>): State {
    State(Idle(|cfg.hosts|), [], false, None, [], Summary(0, 0, [], ""), false,
          map h | h in inserted :: Pending, {}, {}, {})
  }

  function Idle(n: nat): (ws: seq<Worker>)
    ensures |ws| == n && forall i :: 0 <= i < n ==> ws[i] == Ready
  {
    if n == 0 then [] else [Ready] + Idle(n - 1)
  }

  // ------------------------------------------------------------------ steps

  function Put(s: State, i: nat, w: Worker): State
    requires i < |s.workers|
  {
    s.(workers := s.workers[i := w])
  }

  function ResultOf(h: Host, error: Option<string>): UpdateResult {
    match error
    case None => UpdateResult(h.id, h.ip, true, "")
    case Some(text) => UpdateResult(h.id, h.ip, false, text)
  }

  /** UpdateStatusByHostAndVersion, seen from this rollout's rows. */
  function MarkRow(rows: map<string, Status>, hostId: string, status: Status): map<string, Status> {
    if hostId in rows && rows[hostId] == Pending then rows[hostId := status] else rows
  }

  /** Numbers past the last goroutine name nobody. */
  function WorkerAt(s: State, i: nat): Worker {
    if i < |s.workers| then s.workers[i] else Dropped(0)
  }

  function DoDraw(s: State, i: nat): State {
    if WorkerAt(s, i) != Ready then s
    else
      var n := |s.tickets| + 1;
      Put(s, i, if n % 10 == 0 then Probing(n) else Checking(n)).(tickets := s.tickets + [i])
  }

  function DoProbe(s: State, i: nat, outcome: Option<ProbeError>): State {
    match WorkerAt(s, i)
    case Probing(n) =>
      (match outcome
       case None => Put(s, i, Checking(n)).(probed := s.probed + {n})
       case Some(err) => Put(s, i, Recording(n, err)).(probed := s.probed + {n}, failed := s.failed + {n}))
    case _ => s
  }

  /** The compare-and-swap of the first-error cell. */
  function DoRecord(s: State, i: nat): State {
    match WorkerAt(s, i)
    case Recording(n, err) => Put(s, i, Cancelling(n)).(s3Err := if s.s3Err.None? then Some(err) else s.s3Err)
    case _ => s
  }

  function DoCancel(s: State, i: nat): State {
    match WorkerAt(s, i)
    case Cancelling(n) => Put(s, i, Checking(n)).(cancelled := true)
    case _ => s
  }

  function DoCheck(cfg: Config, s: State, i: nat): State
    requires |s.workers| == |cfg.hosts|
  {
    match WorkerAt(s, i)
    case Checking(n) =>
      Put(s, i, if s.cancelled then Sending(n, ResultOf(cfg.hosts[i], Some(ABORTED))) else Pushing(n))
    case _ => s
  }

  function DoPush(cfg: Config, s: State, i: nat, error: Option<string>): State
    requires |s.workers| == |cfg.hosts|
  {
    match WorkerAt(s, i)
    case Pushing(n) =>
      var res := ResultOf(cfg.hosts[i], error);
      if error.None? then Put(s, i, Sending(n, res))
      else (match cfg.parse(cfg.hosts[i].id)
            case None => Put(s, i, Dropped(n)).(unpushed := s.unpushed + {i})
            case Some(uuid) => Put(s, i, Marking(n, uuid, res)).(unpushed := s.unpushed + {i}))
    case _ => s
  }

  function DoMark(s: State, i: nat, io: bool): State {
    match WorkerAt(s, i)
    case Marking(n, uuid, res) =>
      Put(s, i, Sending(n, res)).(rows := if io then MarkRow(s.rows, uuid, Failed) else s.rows)
    case _ => s
  }

  function DoSend(s: State, i: nat): State {
    match WorkerAt(s, i)
    case Sending(n, res) =>
      if |s.channel| < |s.workers| then Put(s, i, Done(n, res)).(channel := s.channel + [res]) else s
    case _ => s
  }

  function DoReceive(s: State): State {
    if s.channel == [] || |s.summary.results| == |s.workers| then s
    else
      var r := s.channel[0];
      var sum := s.summary;
      s.(channel := s.channel[1..],
         summary := Summary(sum.ok + if r.ok then 1 else 0, sum.failed + if r.ok then 0 else 1,
                            sum.results + [r], sum.s3Error))
  }

  function DoLoad(s: State): State {
    if s.finished || |s.summary.results| != |s.workers| then s
    else s.(finished := true,
            summary := s.summary.(s3Error := match s.s3Err case None => "" case Some(e) => ProbeText(e)))
  }

  function Step(cfg: Config, s: State, e: Event): State
    requires |s.workers| == |cfg.hosts|
  {
    match e
    case Draw(i) => DoDraw(s, i)
    case Probe(i, outcome) => DoProbe(s, i, outcome)
    case Record(i) => DoRecord(s, i)
    case Cancel(i) => DoCancel(s, i)
    case Check(i) => DoCheck(cfg, s, i)
    case Push(i, error) => DoPush(cfg, s, i, error)
    case Mark(i, io) => DoMark(s, i, io)
    case Send(i) => DoSend(s, i)
    case Receive => DoReceive(s)
    case Load => DoLoad(s)
    case Outside(hostId, status) => s.(rows := MarkRow(s.rows, hostId, status))
    case ParentCancel => s.(cancelled := true)
  }

  lemma StepKeepsSize(cfg: Config, s: State, e: Event)
    requires |s.workers| == |cfg.hosts|
    ensures |Step(cfg, s, e).workers| == |cfg.hosts|
  {
  }

  function Run(cfg: Config, s: State, es: seq<Event>): (r: State)
    requires |s.workers| == |cfg.hosts|
    ensures |r.workers| == |cfg.hosts|
    decreases |es|
  {
    if es == [] then s
    else
      StepKeepsSize(cfg, s, es[0]);
      Run(cfg, Step(cfg, s, es[0]), es[1..])
  }

  // -------------------------------------------------------------- accounting

  /** How many goroutines have drawn a number. */
  function Started(ws: seq<Worker>): (k: nat)
    ensures k <= |ws|
  {
    if ws == [] then 0 else (if ws[0] == Ready then 0 else 1) + Started(ws[1..])
  }

  /** The results the goroutines that returned normally have sent. */
  function Sent(ws: seq<Worker>): multiset<UpdateResult> {
    if ws == [] then multiset{}
    else (if ws[0].Done? then multiset{ws[0].res} else multiset{}) + Sent(ws[1..])
  }

  function OkCount(rs: seq<UpdateResult>): nat {
    if rs == [] then 0 else (if rs[|rs| - 1].ok then 1 else 0) + OkCount(rs[..|rs| - 1])
  }

  lemma {:induction false} StartedUpdate(ws: seq<Worker>, i: nat, w: Worker)
    requires i < |ws| && w != Ready
    ensures Started(ws[i := w]) == Started(ws) + if ws[i] == Ready then 1 else 0
  {
    if i > 0 {
      assert ws[i := w][1..] == ws[1..][i - 1 := w];
      StartedUpdate(ws[1..], i - 1, w);
    }
  }

  lemma {:induction false} SentUpdate(ws: seq<Worker>, i: nat, w: Worker)
    requires i < |ws| && !ws[i].Done?
    ensures Sent(ws[i := w]) == Sent(ws) + if w.Done? then multiset{w.res} else multiset{}
  {
    var after := ws[i := w];
    if i > 0 {
      assert after[1..] == ws[1..][i - 1 := w] && after[0] == ws[0];
      SentUpdate(ws[1..], i - 1, w);
    } else {
      assert after[1..] == ws[1..] && after[0] == w;
    }
  }

  lemma {:induction false} SentSize(ws: seq<Worker>)
    ensures |Sent(ws)| <= Started(ws)
    ensures |Sent(ws)| == |ws| <==> forall i :: 0 <= i < |ws| ==> ws[i].Done?
    ensures |Sent(ws)| < |ws| <==> exists i :: 0 <= i < |ws| && !ws[i].Done?
    ensures |Sent(ws)| <= |ws|
  {
    if ws != [] {
      SentSize(ws[1..]);
      assert forall i :: 0 <= i < |ws[1..]| ==> ws[1..][i] == ws[i + 1];
      if ws[0].Done? && exists i :: 0 <= i < |ws| && !ws[i].Done? {
        var i :| 0 <= i < |ws| && !ws[i].Done?;
        assert !ws[1..][i - 1].Done?;
      }
    }
  }
}
