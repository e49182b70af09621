/** The host registry: HostService.HandleHeartbeat over the upsert of host_repository.go. */
module Hosts {
  import opened Wrappers
  import opened Text

  /** A heartbeat as an agent sends it. */
  datatype Heartbeat = Heartbeat(hostId: string, hostname: string, ip: string, sshUser: string, sshPrivateKey: string,
                                 cpuUsed: int, ramFree: int, diskFree: int)

  /** A row; ssh_user and ssh_private_key were added later and may be NULL. */
  datatype Host = Host(hostname: string, ip: string, sshUser: Option<string>, sshPrivateKey: Option<string>,
                       cpuUsed: int, ramFree: int, diskFree: int, active: bool, lastHeartbeat: int)

  /** A user name that says something. */
  predicate Telling(user: string) {
    user != "" && user != "root"
  }

  /** The user a heartbeat reports: the seventh part of the hostname if it says something. */
  function EffectiveUser(b: Heartbeat): string {
    var parts := Split(b.hostname, ':');
    if |parts| >= 7 && parts[6] != "root" && parts[6] != "" then parts[6] else b.sshUser
  }

  /** INSERT ... ON CONFLICT (id) DO UPDATE, with a given ssh_user. */
  function UpsertAs(row: Option<Host>, b: Heartbeat, user: string, now: int): Host {
    if row.None? then
      Host(b.hostname, b.ip, Some(user), Some(b.sshPrivateKey), b.cpuUsed, b.ramFree, b.diskFree, true, now)
    else
      var stored := row.value;
      Host(b.hostname, b.ip,
           if stored.sshUser.Some? && Telling(stored.sshUser.value) then stored.sshUser else Some(user),
           if b.sshPrivateKey != "" then Some(b.sshPrivateKey) else stored.sshPrivateKey,
           b.cpuUsed, b.ramFree, b.diskFree, true, now)
  }

  /** What one heartbeat makes of the row. */
  function Upsert(row: Option<Host>, b: Heartbeat, now: int): Host {
    UpsertAs(row, b, EffectiveUser(b), now)
  }

  function RowOf(hosts: map<string, Host>, id: string): Option<Host> {
    if id in hosts then Some(hosts[id]) else None
  }

  /** One heartbeat, its time, and whether the statement reached the database. */
  datatype Arrival = Arrival(beat: Heartbeat, now: int, io: bool)

  function Receive(hosts: map<string, Host>, a: Arrival): map<string, Host> {
    if a.io then hosts[a.beat.hostId := Upsert(RowOf(hosts, a.beat.hostId), a.beat, a.now)] else hosts
  }

  function ReceiveAll(hosts: map<string, Host>, arrivals: seq<Arrival>): map<string, Host>
    decreases |arrivals|
  {
    if arrivals == [] then hosts else ReceiveAll(Receive(hosts, arrivals[0]), arrivals[1..])
  }

  // ------------------------------------------------ one host among many

  /** The heartbeats of one host that reached the database. */
  function History(arrivals: seq<Arrival>, id: string): (r: seq<Arrival>)
    ensures forall a :: a in r ==> a in arrivals && a.io && a.beat.hostId == id
  {
    if arrivals == [] then []
    else (if arrivals[0].io && arrivals[0].beat.hostId == id then [arrivals[0]] else []) + History(arrivals[1..], id)
  }

  function Replay(row: Option<Host>, history: seq<Arrival>): Option<Host>
    decreases |history|
  {
    if history == [] then row else Replay(Some(Upsert(row, history[0].beat, history[0].now)), history[1..])
  }

  /** A host's row depends on its own heartbeats only, in the order they arrived. */
  lemma {:induction false} RowIsReplay(hosts: map<string, Host>, arrivals: seq<Arrival>, id: string)
    ensures RowOf(ReceiveAll(hosts, arrivals), id) == Replay(RowOf(hosts, id), History(arrivals, id))
    decreases |arrivals|
  {
    hide Upsert;
    if arrivals != [] {
      var rest := History(arrivals[1..], id);
      RowIsReplay(Receive(hosts, arrivals[0]), arrivals[1..], id);
      assert ([arrivals[0]] + rest)[1..] == rest;
      assert [] + rest == rest;
    }
  }

  // -------------------------------------------------- the two sticky columns

  predicate Users(history: seq<Arrival>, i: nat)
    requires i < |history|
  {
    Telling(EffectiveUser(history[i].beat))
  }

  /** The column already says something. */
  predicate Settled(row: Option<Host>) {
    row.Some? && row.value.sshUser.Some? && Telling(row.value.sshUser.value)
  }

  /** A settled column never changes. */
  lemma {:induction false} SettledStays(row: Option<Host>, history: seq<Arrival>)
    requires Settled(row)
    ensures Replay(row, history).Some? && Replay(row, history).value.sshUser == row.value.sshUser
    decreases |history|
  {
    hide EffectiveUser;
    if history != [] {
      SettledStays(Some(Upsert(row, history[0].beat, history[0].now)), history[1..]);
    }
  }

  /** Otherwise it ends up with the first telling user of the history. */
  lemma {:induction false} FirstTellingUser(row: Option<Host>, history: seq<Arrival>, i: nat)
    requires !Settled(row) && i < |history| && Users(history, i) && forall j :: 0 <= j < i ==> !Users(history, j)
    ensures Replay(row, history).Some?
    ensures Replay(row, history).value.sshUser == Some(EffectiveUser(history[i].beat))
    decreases |history|
  {
    hide EffectiveUser;
    var next := Some(Upsert(row, history[0].beat, history[0].now));
    if i == 0 {
      SettledStays(next, history[1..]);
    } else {
      assert !Users(history, 0);
      forall j | 0 <= j < i - 1 ensures !Users(history[1..], j) { assert !Users(history, j + 1); }
      FirstTellingUser(next, history[1..], i - 1);
    }
  }

  /** And with the last user reported if none says anything. */
  lemma {:induction false} LastUser(row: Option<Host>, history: seq<Arrival>)
    requires !Settled(row) && history != [] && forall j :: 0 <= j < |history| ==> !Users(history, j)
    ensures Replay(row, history).Some?
    ensures Replay(row, history).value.sshUser == Some(EffectiveUser(history[|history| - 1].beat))
    decreases |history|
  {
    hide EffectiveUser;
    var next := Some(Upsert(row, history[0].beat, history[0].now));
    assert !Users(history, 0);
    if |history| == 1 {
      assert Replay(next, history[1..]) == next;
    } else {
      forall j | 0 <= j < |history| - 1 ensures !Users(history[1..], j) { assert !Users(history, j + 1); }
      LastUser(next, history[1..]);
    }
  }

  /** Heartbeats without a key leave the key alone. */
  lemma {:induction false} KeyStays(row: Option<Host>, history: seq<Arrival>)
    requires row.Some? && forall j :: 0 <= j < |history| ==> history[j].beat.sshPrivateKey == ""
    ensures Replay(row, history).Some? && Replay(row, history).value.sshPrivateKey == row.value.sshPrivateKey
    decreases |history|
  {
    hide EffectiveUser;
    if history != [] {
      KeyStays(Some(Upsert(row, history[0].beat, history[0].now)), history[1..]);
    }
  }

  /** The key is the last one reported that is not empty. */
  lemma {:induction false} LastKey(row: Option<Host>, history: seq<Arrival>, k: nat)
    requires k < |history| && history[k].beat.sshPrivateKey != ""
    requires forall j :: k < j < |history| ==> history[j].beat.sshPrivateKey == ""
    ensures Replay(row, history).Some?
    ensures Replay(row, history).value.sshPrivateKey == Some(history[k].beat.sshPrivateKey)
    decreases |history|
  {
    hide EffectiveUser;
    var next := Some(Upsert(row, history[0].beat, history[0].now));
    if k == 0 {
      KeyStays(next, history[1..]);
    } else {
      LastKey(next, history[1..], k - 1);
    }
  }

  /** Everything else is as the last heartbeat said. */
  lemma {:induction false} RestIsLast(row: Option<Host>, history: seq<Arrival>)
    requires history != []
    ensures var last := history[|history| - 1];
            var r := Replay(row, history);
            && r.Some? && r.value.active && r.value.lastHeartbeat == last.now
            && r.value.hostname == last.beat.hostname && r.value.ip == last.beat.ip
            && r.value.cpuUsed == last.beat.cpuUsed
            && r.value.ramFree == last.beat.ramFree && r.value.diskFree == last.beat.diskFree
    decreases |history|
  {
    hide EffectiveUser;
    var next := Some(Upsert(row, history[0].beat, history[0].now));
    if history[1..] == [] {
      assert Replay(next, history[1..]) == next;
    } else {
      RestIsLast(next, history[1..]);
    }
  }

  /** After any arrivals from any hosts, starting from an empty table, a host that got a heartbeat
      through has the first telling user it reported, or if there is none the last user; */
  lemma StoredUserIsHistory(arrivals: seq<Arrival>, id: string, i: nat)
    requires var h := History(arrivals, id);
             && i < |h|
             && (if Users(h, i) then forall j :: 0 <= j < i ==> !Users(h, j)
                 else i == |h| - 1 && forall j :: 0 <= j < |h| ==> !Users(h, j))
    ensures id in ReceiveAll(map[], arrivals)
    ensures ReceiveAll(map[], arrivals)[id].sshUser == Some(EffectiveUser(History(arrivals, id)[i].beat))
  {
    hide EffectiveUser, ReceiveAll, Replay, History;
    RowIsReplay(map[], arrivals, id);
    var h := History(arrivals, id);
    if Users(h, i) { FirstTellingUser(None, h, i); } else { LastUser(None, h); }
  }

  /** and the last key it reported that was not empty, or the empty key. */
  lemma StoredKeyIsHistory(arrivals: seq<Arrival>, id: string, k: nat)
    requires var h := History(arrivals, id);
             && k < |h|
             && (if h[k].beat.sshPrivateKey != "" then forall j :: k < j < |h| ==> h[j].beat.sshPrivateKey == ""
                 else forall j :: 0 <= j < |h| ==> h[j].beat.sshPrivateKey == "")
    ensures id in ReceiveAll(map[], arrivals)
    ensures ReceiveAll(map[], arrivals)[id].sshPrivateKey == Some(History(arrivals, id)[k].beat.sshPrivateKey)
  {
    hide EffectiveUser, ReceiveAll, History;
    RowIsReplay(map[], arrivals, id);
    var h := History(arrivals, id);
    if h[k].beat.sshPrivateKey != "" {
      LastKey(None, h, k);
    } else {
      assert h[0].beat.sshPrivateKey == "";
      KeyStays(Some(Upsert(None, h[0].beat, h[0].now)), h[1..]);
    }
  }

  /** Seven or more parts with a telling seventh decide, whatever the ssh_user field says. */
  lemma HostnameDecides(b: Heartbeat, parts: seq<string>)
    requires |parts| >= 7 && (forall p :: p in parts ==> ':' !in p)
    requires b.hostname == Join(parts, ':') && Telling(parts[6])
    ensures EffectiveUser(b) == parts[6]
  {
    SplitJoinRoundTrip(parts, ':');
  }

  /** With fewer parts, or a seventh that is empty or "root", the ssh_user field does. */
  lemma PlainHostname(b: Heartbeat, parts: seq<string>)
    requires parts != [] && (forall p :: p in parts ==> ':' !in p) && b.hostname == Join(parts, ':')
    requires |parts| < 7 || parts[6] == "" || parts[6] == "root"
    ensures EffectiveUser(b) == b.sshUser
  {
    SplitJoinRoundTrip(parts, ':');
  }

  /** What the heartbeat says about the user, read off the parts its hostname is joined from. */
  ghost predicate Reports(b: Heartbeat, user: string) {
    exists parts: seq<string> ::
      && parts != [] && (forall p :: p in parts ==> ':' !in p) && b.hostname == Join(parts, ':')
      && user == if |parts| < 7 || parts[6] == "" || parts[6] == "root" then b.sshUser else parts[6]
  }

  lemma ReportsEffectiveUser(b: Heartbeat, user: string)
    requires Reports(b, user)
    ensures EffectiveUser(b) == user
  {
    var parts: seq<string> :|
      && parts != [] && (forall p :: p in parts ==> ':' !in p) && b.hostname == Join(parts, ':')
      && user == if |parts| < 7 || parts[6] == "" || parts[6] == "root" then b.sshUser else parts[6];
    SplitJoinRoundTrip(parts, ':');
  }

  /** The i-th of these users is the first that is neither empty nor "root"; or all are, and it is
      the last. */
  predicate FirstOrLast(users: seq<string>, i: nat) {
    && i < |users|
    && if users[i] != "" && users[i] != "root" then forall j :: 0 <= j < i ==> users[j] == "" || users[j] == "root"
       else i == |users| - 1 && forall j :: 0 <= j < |users| ==> users[j] == "" || users[j] == "root"
  }

  /** The stored ssh_user in terms of what the heartbeats say. */
  lemma StoredUserIsReported(arrivals: seq<Arrival>, id: string, users: seq<string>, i: nat)
    requires |users| == |History(arrivals, id)| && FirstOrLast(users, i)
    requires forall j :: 0 <= j < |users| ==> Reports(History(arrivals, id)[j].beat, users[j])
    ensures id in ReceiveAll(map[], arrivals)
    ensures ReceiveAll(map[], arrivals)[id].sshUser == Some(users[i])
  {
    hide EffectiveUser, ReceiveAll, History, Reports;
    var h := History(arrivals, id);
    forall j | 0 <= j < |users| ensures EffectiveUser(h[j].beat) == users[j] {
      ReportsEffectiveUser(h[j].beat, users[j]);
    }
    StoredUserIsHistory(arrivals, id, i);
  }

  /** For a host whose hostnames have no separator in them: the first ssh_user it sent that is
      neither empty nor "root", else the last. */
  lemma StoredUserOfPlainHost(arrivals: seq<Arrival>, id: string, users: seq<string>, i: nat)
    requires |users| == |History(arrivals, id)| && FirstOrLast(users, i)
    requires forall j :: 0 <= j < |users| ==>
               var b := History(arrivals, id)[j].beat;
               users[j] == b.sshUser && ':' !in b.hostname
    ensures id in ReceiveAll(map[], arrivals)
    ensures ReceiveAll(map[], arrivals)[id].sshUser == Some(users[i])
  {
    hide EffectiveUser, ReceiveAll, History;
    forall j | 0 <= j < |users| ensures Reports(History(arrivals, id)[j].beat, users[j]) {
      var b := History(arrivals, id)[j].beat;
      assert Join([b.hostname], ':') == b.hostname;
    }
    StoredUserIsReported(arrivals, id, users, i);
  }
}
