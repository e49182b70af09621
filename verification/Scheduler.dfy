/** HostRepository.GetBestHosts and HostService.SelectBestHost: the ten best fresh hosts, taken in
    turns; and HandleHeartbeat as a method of the same service. */
module Scheduler {
  import opened Wrappers
  import opened Hosts

  const LIMIT: nat := 10

  /** Twelve hours, in seconds. */
  const FRESHNESS: int := 43200

  predicate Eligible(h: Host, threshold: int) {
    h.active && h.lastHeartbeat > threshold
  }

  function EligibleIds(hosts: map<string, Host>, threshold: int): set<string> {
    set id | id in hosts && Eligible(hosts[id], threshold)
  }

  /** x comes strictly before y under ram_free DESC, cpu_used ASC, disk_free DESC. */
  predicate Better(x: Host, y: Host) {
    || x.ramFree > y.ramFree
    || (x.ramFree == y.ramFree && x.cpuUsed < y.cpuUsed)
    || (x.ramFree == y.ramFree && x.cpuUsed == y.cpuUsed && x.diskFree > y.diskFree)
  }

  function Min(x: nat, y: nat): nat {
    if x < y then x else y
  }

  /** What the query may answer: ties may come in any order. */
  ghost predicate IsBest(hosts: map<string, Host>, threshold: int, limit: nat, ids: seq<string>) {
    && (forall i :: 0 <= i < |ids| ==> ids[i] in EligibleIds(hosts, threshold))
    && (forall i, j :: 0 <= i < j < |ids| ==> ids[i] != ids[j] && !Better(hosts[ids[j]], hosts[ids[i]]))
    && |ids| == Min(limit, |EligibleIds(hosts, threshold)|)
    && (forall id, i :: id in EligibleIds(hosts, threshold) && id !in ids && 0 <= i < |ids| ==>
          !Better(hosts[id], hosts[ids[i]]))
  }

  /** The answer is ordered: most free memory first, then least used CPU, then most free disk; and no
      host left out comes before one answered. */
  lemma AnswerIsOrdered(hosts: map<string, Host>, threshold: int, limit: nat, ids: seq<string>, i: nat, id: string)
    requires IsBest(hosts, threshold, limit, ids) && i < |ids| && id !in ids[..i]
    requires id in hosts && hosts[id].active && hosts[id].lastHeartbeat > threshold
    ensures ids[i] in hosts && hosts[ids[i]].active && hosts[ids[i]].lastHeartbeat > threshold
    ensures var x, y := hosts[ids[i]], hosts[id];
            && x.ramFree >= y.ramFree
            && (x.ramFree == y.ramFree ==> x.cpuUsed <= y.cpuUsed)
            && (x.ramFree == y.ramFree && x.cpuUsed == y.cpuUsed ==> x.diskFree >= y.diskFree)
  {
    assert ids[i] in EligibleIds(hosts, threshold) && id in EligibleIds(hosts, threshold);
    assert forall j :: 0 <= j < i ==> ids[..i][j] == ids[j];
  }

  function StrictlyBetter(hosts: map<string, Host>, threshold: int, pick: string): set<string>
    requires pick in hosts
  {
    set id | id in EligibleIds(hosts, threshold) && Better(hosts[id], hosts[pick])
  }

  /** The hosts answered before the p-th. */
  function Ahead(ids: seq<string>, p: nat): set<string>
    requires p <= |ids|
  {
    set id | id in ids[..p]
  }

  lemma {:induction false} AheadSize(ids: seq<string>, p: nat)
    requires p <= |ids| && forall i, j :: 0 <= i < j < |ids| ==> ids[i] != ids[j]
    ensures |Ahead(ids, p)| == p
  {
    if p > 0 {
      AheadSize(ids, p - 1);
      assert ids[..p] == ids[..p - 1] + [ids[p - 1]];
      assert Ahead(ids, p) == Ahead(ids, p - 1) + {ids[p - 1]};
    }
  }

  /** The p-th host of the answer is eligible and at most p eligible hosts are strictly better. */
  lemma PickIsGood(hosts: map<string, Host>, threshold: int, ids: seq<string>, p: nat)
    requires IsBest(hosts, threshold, LIMIT, ids) && p < |ids|
    ensures ids[p] in hosts && Eligible(hosts[ids[p]], threshold)
    ensures |StrictlyBetter(hosts, threshold, ids[p])| <= p < LIMIT
  {
    assert ids[p] in EligibleIds(hosts, threshold);
    forall id | id in StrictlyBetter(hosts, threshold, ids[p]) ensures id in Ahead(ids, p) {
      assert id in ids;
      var i :| 0 <= i < |ids| && ids[i] == id;
      assert ids[..p][i] == id;
    }
    AheadSize(ids, p);
    Smaller(StrictlyBetter(hosts, threshold, ids[p]), Ahead(ids, p));
  }

  lemma Smaller(x: set<string>, y: set<string>)
    requires x <= y
    ensures |x| <= |y|
  {
    assert y == x + (y - x);
  }

  // ------------------------------------------------------------- taking turns

  /** The offsets of m selections in a row from a list of k hosts. */
  function Selections(offset: nat, k: nat, m: nat): (r: seq<nat>)
    requires k > 0
    ensures |r| == m
    decreases m
  {
    if m == 0 then [] else [(offset + 1) % k] + Selections((offset + 1) % k, k, m - 1)
  }

  lemma MulAtLeast(k: int, d: int)
    requires k > 0
    ensures d >= 1 ==> k * d >= k
    ensures d <= -1 ==> k * d <= -k
  {}

  lemma Distribute(k: int, x: int, y: int)
    ensures k * (x + y) == k * x + k * y
    ensures k * (x - y) == k * x - k * y
  {}

  /** Quotient and remainder are determined. */
  lemma DivMod(x: int, k: int, q: int, r: int)
    requires 0 <= r < k && x == k * q + r
    ensures x / k == q && x % k == r
  {
    Distribute(k, x / k, q);
    MulAtLeast(k, x / k - q);
  }

  lemma ModStep(a: nat, b: nat, k: nat)
    requires k > 0
    ensures (a % k + b) % k == (a + b) % k
  {
    var x := a % k + b;
    Distribute(k, a / k, x / k);
    DivMod(a + b, k, a / k + x / k, x % k);
  }

  lemma OnePeriod(x: nat, k: nat)
    requires k > 0
    ensures (x + k) % k == x % k && (x + k) / k == x / k + 1
  {
    Distribute(k, x / k, 1);
    DivMod(x + k, k, x / k + 1, x % k);
  }

  lemma {:induction false} SelectionAt(offset: nat, k: nat, m: nat, i: nat)
    requires k > 0 && i < m
    ensures Selections(offset, k, m)[i] == (offset + 1 + i) % k
    decreases m
  {
    if i > 0 {
      SelectionAt((offset + 1) % k, k, m - 1, i - 1);
      ModStep(offset + 1, i, k);
    }
  }

  lemma {:induction false} SelectionsSplit(offset: nat, k: nat, a: nat, b: nat)
    requires k > 0
    ensures Selections(offset, k, a + b) ==
            Selections(offset, k, a) + Selections(if a == 0 then offset else Selections(offset, k, a)[a - 1], k, b)
    decreases a
  {
    if a == 0 {
      assert Selections(offset, k, 0) == [];
    } else {
      SelectionsSplit((offset + 1) % k, k, a - 1, b);
    }
  }

  lemma NoWrap(x: nat, y: nat, k: nat)
    requires k > 0 && x < y < x + k
    ensures x % k != y % k
  {
    Distribute(k, y / k, x / k);
    MulAtLeast(k, y / k - x / k);
  }

  /** Where host j comes among k selections in a row. */
  function Turn(offset: nat, k: nat, j: nat): nat
    requires j < k
  {
    (j + k - (offset + 1) % k) % k
  }

  lemma TurnComes(offset: nat, k: nat, j: nat)
    requires j < k
    ensures Turn(offset, k, j) < k && (offset + 1 + Turn(offset, k, j)) % k == j
  {
    var r := (offset + 1) % k;
    var t := Turn(offset, k, j);
    ModStep(offset + 1, t, k);
    TurnFrom(r, k, j);
  }

  lemma TurnFrom(r: nat, k: nat, j: nat)
    requires j < k && r < k
    ensures (j + k - r) % k < k && (r + (j + k - r) % k) % k == j
  {
    if j >= r {
      DivMod(j + k - r, k, 1, j - r);
      DivMod(j, k, 0, j);
    } else {
      DivMod(j + k - r, k, 0, j + k - r);
      DivMod(j + k, k, 1, j);
    }
  }

  lemma OccursOnce(s: seq<nat>, j: nat, i: nat)
    requires i < |s| && s[i] == j && forall x :: 0 <= x < |s| && x != i ==> s[x] != j
    ensures multiset(s)[j] == 1
  {
    assert s == s[..i] + [s[i]] + s[i + 1..];
    assert j !in s[..i] && j !in s[i + 1..];
  }

  /** Any k selections in a row from a stable list of k hosts hit each host once. */
  lemma EachOnce(offset: nat, k: nat, j: nat)
    requires j < k
    ensures multiset(Selections(offset, k, k))[j] == 1
  {
    var s := Selections(offset, k, k);
    var i := Turn(offset, k, j);
    TurnComes(offset, k, j);
    SelectionAt(offset, k, k, i);
    forall x: nat | x < k && x != i ensures s[x] != j {
      SelectionAt(offset, k, k, x);
      if x < i { NoWrap(offset + 1 + x, offset + 1 + i, k); } else { NoWrap(offset + 1 + i, offset + 1 + x, k); }
    }
    OccursOnce(s, j, i);
  }

  /** The same of a window anywhere in a longer row of selections. */
  lemma EveryWindowOnce(offset: nat, k: nat, a: nat, j: nat)
    requires j < k
    ensures multiset(Selections(offset, k, a + k)[a..])[j] == 1
  {
    SelectionsSplit(offset, k, a, k);
    var next := if a == 0 then offset else Selections(offset, k, a)[a - 1];
    assert Selections(offset, k, a + k)[a..] == Selections(next, k, k);
    EachOnce(next, k, j);
  }

  /** How often host j is taken in m selections. */
  function Share(offset: nat, k: nat, m: nat, j: nat): nat
    requires k > 0
  {
    multiset(Selections(offset, k, m))[j]
  }

  lemma ShareSplit(offset: nat, k: nat, a: nat, b: nat, j: nat)
    requires k > 0
    ensures Share(offset, k, a + b, j) ==
            Share(offset, k, a, j) + Share(if a == 0 then offset else Selections(offset, k, a)[a - 1], k, b, j)
  {
    hide Selections;
    SelectionsSplit(offset, k, a, b);
  }

  /** Full rounds in m selections. */
  function Rounds(m: nat, k: nat): nat
    requires k > 0
  {
    m / k
  }

  lemma RoundsStep(m: nat, k: nat)
    requires k > 0
    ensures m < k ==> Rounds(m, k) == 0
    ensures Rounds(m + k, k) == Rounds(m, k) + 1
  {
    if m < k { DivMod(m, k, 0, m); }
    OnePeriod(m, k);
  }

  lemma ShareOfRound(offset: nat, k: nat, j: nat)
    requires j < k
    ensures Share(offset, k, k, j) == 1
  {
    EachOnce(offset, k, j);
  }

  lemma ShareBelowRound(offset: nat, k: nat, m: nat, j: nat)
    requires j < k && m < k
    ensures Share(offset, k, m, j) <= 1
  {
    hide Share, Selections;
    ShareOfRound(offset, k, j);
    ShareSplit(offset, k, m, k - m, j);
    assert m + (k - m) == k;
  }

  lemma ShareAfterRound(offset: nat, k: nat, m: nat, j: nat) returns (next: nat)
    requires j < k && k <= m
    ensures Share(offset, k, m, j) == 1 + Share(next, k, m - k, j)
  {
    hide Share, Selections;
    ShareOfRound(offset, k, j);
    ShareSplit(offset, k, k, m - k, j);
    next := Selections(offset, k, k)[k - 1];
    assert k + (m - k) == m;
  }

  /** Over m selections every host is taken m / k times or once more. */
  lemma {:induction false} Balanced(offset: nat, k: nat, m: nat, j: nat)
    requires j < k
    ensures Rounds(m, k) <= Share(offset, k, m, j) <= Rounds(m, k) + 1
    decreases m
  {
    hide Share, Rounds;
    if m < k {
      ShareBelowRound(offset, k, m, j);
      RoundsStep(m, k);
    } else {
      var next := ShareAfterRound(offset, k, m, j);
      Balanced(next, k, m - k, j);
      RoundsStep(m - k, k);
    }
  }

  /** So the shares of two hosts never differ by more than one. */
  lemma FairShares(offset: nat, k: nat, m: nat, i: nat, j: nat)
    requires i < k && j < k
    ensures Share(offset, k, m, i) <= Share(offset, k, m, j) + 1
  {
    Balanced(offset, k, m, i);
    Balanced(offset, k, m, j);
  }

  // -------------------------------------------------------------- the service

  datatype HostError = QueryFailed | ScanFailed

  /** ORDER BY: a host of the set that no other of the set comes before. */
  method BestOf(hosts: map<string, Host>, ids: set<string>) returns (best: string)
    requires ids != {} && ids <= hosts.Keys
    ensures best in ids && forall id :: id in ids ==> !Better(hosts[id], hosts[best])
  {
    best :| best in ids;
    var rest := ids - {best};
    while rest != {}
      invariant rest <= ids && best in ids
      invariant forall id :: id in ids - rest ==> !Better(hosts[id], hosts[best])
      decreases |rest|
    {
      var id :| id in rest;
      rest := rest - {id};
      if Better(hosts[id], hosts[best]) {
        best := id;
      }
    }
  }

  /** No ssh_user of the rows is NULL. */
  predicate Scannable(hosts: map<string, Host>, ids: seq<string>) {
    forall id :: id in ids && id in hosts ==> hosts[id].sshUser.Some?
  }

  lemma EmptyAnswer(hosts: map<string, Host>, threshold: int, ids: seq<string>)
    requires IsBest(hosts, threshold, LIMIT, ids)
    ensures ids == [] <==> forall id :: id in hosts ==> !hosts[id].active || hosts[id].lastHeartbeat <= threshold
  {
    if id :| id in hosts && hosts[id].active && hosts[id].lastHeartbeat > threshold {
      assert id in EligibleIds(hosts, threshold);
    }
    if ids != [] { assert ids[0] in EligibleIds(hosts, threshold); }
  }

  class HostService {
    var hosts: map<string, Host>
    var lastSelectionOffset: nat

    constructor ()
      ensures hosts == map[] && lastSelectionOffset == 0
    {
      hosts, lastSelectionOffset := map[], 0;
    }

    method HandleHeartbeat(req: Heartbeat, now: int, io: bool) returns (ok: bool)
      modifies this`hosts
      ensures ok == io
      ensures hosts == Receive(old(hosts), Arrival(req, now, io))
    {
      var sshUser := req.sshUser;
      var parts := Text.Split(req.hostname, ':');
      if |parts| >= 7 && parts[6] != "root" && parts[6] != "" {
        sshUser := parts[6];
      }
      ok := Update(req.hostId, req, sshUser, now, io);
    }

    method Update(id: string, req: Heartbeat, sshUser: string, now: int, io: bool) returns (ok: bool)
      modifies this`hosts
      ensures ok == io
      ensures hosts == if io then old(hosts)[id := UpsertAs(RowOf(old(hosts), id), req, sshUser, now)] else old(hosts)
    {
      ok := io;
      if !io {
        return;
      }
      var row := Host(req.hostname, req.ip, Some(sshUser), Some(req.sshPrivateKey),
                      req.cpuUsed, req.ramFree, req.diskFree, true, now);
      if id in hosts {
        var stored := hosts[id];
        if stored.sshUser.Some? && stored.sshUser.value != "" && stored.sshUser.value != "root" {
          row := row.(sshUser := stored.sshUser);
        }
        if req.sshPrivateKey == "" {
          row := row.(sshPrivateKey := stored.sshPrivateKey);
        }
      }
      hosts := hosts[id := row];
    }

    /** The query: filter, order, limit. */
    method QueryBest(limit: nat, now: int) returns (ids: seq<string>)
      ensures IsBest(hosts, now - FRESHNESS, limit, ids)
    {
      var eligible := EligibleIds(hosts, now - FRESHNESS);
      var rest := eligible;
      ids := [];
      while |ids| < limit && rest != {}
        invariant rest <= eligible && |ids| <= limit && |ids| + |rest| == |eligible|
        invariant forall id :: id in eligible ==> (id in ids <==> id !in rest)
        invariant forall i :: 0 <= i < |ids| ==> ids[i] in eligible
        invariant forall i, j :: 0 <= i < j < |ids| ==> ids[i] != ids[j] && !Better(hosts[ids[j]], hosts[ids[i]])
        invariant forall id, i :: id in rest && 0 <= i < |ids| ==> !Better(hosts[id], hosts[ids[i]])
        decreases |rest|
      {
        var best := BestOf(hosts, rest);
        ids := ids + [best];
        rest := rest - {best};
      }
    }

    /** GetBestHosts: the rows of the query, unless one of them has a NULL ssh_user and cannot be
        scanned. */
    method GetBestHosts(limit: nat, now: int, io: bool) returns (r: Result<seq<string>, HostError>)
      ensures !io ==> r == Err(QueryFailed)
      ensures io ==> exists ids :: IsBest(hosts, now - FRESHNESS, limit, ids) &&
                       r == if Scannable(hosts, ids) then Ok(ids) else Err(ScanFailed)
    {
      if !io {
        return Err(QueryFailed);
      }
      var ids := QueryBest(limit, now);
      for n := 0 to |ids|
        invariant forall i :: 0 <= i < n ==> hosts[ids[i]].sshUser.Some?
      {
        assert ids[n] in EligibleIds(hosts, now - FRESHNESS);
        if hosts[ids[n]].sshUser.None? {
          assert ids[n] in ids && !Scannable(hosts, ids);
          return Err(ScanFailed);
        }
      }
      return Ok(ids);
    }

    /** SelectBestHost: in turns over the current best; nothing exactly when no host is active and
        fresh, and an error exactly when the query or a scan fails. */
    method SelectBestHost(now: int, io: bool) returns (r: Result<Option<string>, HostError>)
      modifies this`lastSelectionOffset
      ensures r.Ok? && r.value.Some? ==>
                && r.value.value in hosts && hosts[r.value.value].active
                && hosts[r.value.value].lastHeartbeat > now - 12 * 60 * 60
                && |StrictlyBetter(hosts, now - FRESHNESS, r.value.value)| < LIMIT
      ensures !io ==> r == Err(QueryFailed)
      ensures io ==> exists ids :: IsBest(hosts, now - FRESHNESS, 10, ids) &&
                       if !Scannable(hosts, ids) then r == Err(ScanFailed)
                       else if ids == [] then r == Ok(None)
                       else && lastSelectionOffset == (old(lastSelectionOffset) + 1) % |ids|
                            && r == Ok(Some(ids[lastSelectionOffset]))
      ensures !(r.Ok? && r.value.Some?) ==> lastSelectionOffset == old(lastSelectionOffset)
      ensures r.Ok? ==>
                (r.value.None? <==>
                 forall id :: id in hosts ==> !hosts[id].active || hosts[id].lastHeartbeat <= now - 12 * 60 * 60)
      ensures (forall id :: id in hosts ==> hosts[id].sshUser.Some?) ==> (r.Ok? <==> io)
    {
      var best := GetBestHosts(LIMIT, now, io);
      if best.Err? {
        return Err(best.error);
      }
      var ids := best.value;
      EmptyAnswer(hosts, now - FRESHNESS, ids);
      if |ids| == 0 {
        return Ok(None);
      }
      lastSelectionOffset := (lastSelectionOffset + 1) % |ids|;
      PickIsGood(hosts, now - FRESHNESS, ids, lastSelectionOffset);
      return Ok(Some(ids[lastSelectionOffset]));
    }
  }
}
