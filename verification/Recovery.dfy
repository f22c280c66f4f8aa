/**
 * The helper's recovery store: which processes it may stop, the record it saves before stopping one, and what the
 * store looks like after any sequence of helper requests.
 */
module Recovery {
  import opened Basics
  import Redaction

  const KEEP: nat := 100

  /** storedRecord: a service to start again, or an executable with its arguments. */
  datatype Record = Record(id: string, service: string, canStart: bool, exe: string, args: seq<string>)

  /** What readProcessDetail found out, reduced to what stopping and restarting look at. */
  datatype Process = Process(
    pid: int, protectedByName: bool, service: string, serviceSafe: bool, managed: bool,
    container: bool, cron: bool, exe: string, args: seq<string>)

  /** The store file: absent, unreadable, or a list of records, newest first. */
  datatype Store = Missing | Unreadable | Records(records: seq<Record>)

  // ---------- readProcessDetail, the part that decides ----------

  predicate Protected(p: Process) {
    p.pid <= 1 || p.protectedByName || (p.service != "" && !p.serviceSafe)
  }

  predicate Guarded(url: Redaction.UrlParser, args: seq<string>) {
    exists i :: 0 <= i < |args| && Redaction.Sensitive(url, args[i])
  }

  datatype Mode = NoRestart | Systemd | Direct

  function RestartMode(url: Redaction.UrlParser, p: Process): Mode {
    if && !Protected(p) && p.service == "" && !p.container && !p.cron
       && p.exe != "" && p.args != [] && !Guarded(url, p.args)
    then Direct
    else if !Protected(p) && p.service != "" && p.serviceSafe then Systemd
    else NoRestart
  }

  predicate CanRestart(url: Redaction.UrlParser, p: Process) {
    RestartMode(url, p) != NoRestart
  }

  /**
   * captureRestart. The command line and the executable are read again and may have changed; statusOk tells whether
   * the process's status could still be read.
   */
  function Capture(url: Redaction.UrlParser, p: Process, id: string, args: seq<string>, exe: string, statusOk: bool)
    : Option<Record>
  {
    var r := Record(id, p.service, CanRestart(url, p), "", []);
    if RestartMode(url, p) == Systemd && !p.managed then Some(r)
    else if Guarded(url, args) || !statusOk || exe == "" || args == [] then None
    else Some(r.(service := if p.managed then "" else p.service, exe := exe, args := args))
  }

  // ---------- The store ----------

  function Loaded(s: Store): seq<Record> {
    if s.Records? then s.records else []
  }

  function Capped(records: seq<Record>): seq<Record> {
    if |records| > KEEP then records[..KEEP] else records
  }

  /** saveStopped; a store that cannot be read is overwritten. */
  function Saved(s: Store, r: Record): Store {
    Records(Capped([r] + Loaded(s)))
  }

  /** The records with another id, in order. */
  function Without(records: seq<Record>, id: string): seq<Record> {
    if records == [] then []
    else
      var last := records[|records| - 1];
      Without(records[..|records| - 1], id) + (if last.id != id then [last] else [])
  }

  /** removeStopped when the file can be read and written. */
  function Removed(s: Store, id: string): Store {
    if s.Unreadable? then s else Records(Without(Loaded(s), id))
  }

  // ---------- Requests ----------

  datatype Failure = Refused | CannotSave | SignalFailed | StillRunning | StartFailed | NotFound | ServiceFailed | BadId

  datatype Reply = Ok | Failed(why: Failure)

  /** What the operating system does with a request: fresh id, captured command line, and which calls succeed. */
  datatype Os = Os(
    id: string, args: seq<string>, exe: string, statusOk: bool,
    saveOk: bool, removeOk: bool, signalOk: bool, gone: bool, serviceOk: bool, launchOk: bool)

  /** A signal that was sent, and what the store held at that moment. */
  datatype Signal = Signal(pid: int, record: Option<Record>, store: Store)

  datatype Request =
    | Stop(p: Process)
    | Restart(p: Process)
    | ServiceStop(p: Process)
    | StartSaved(id: string)

  datatype Helper = Helper(store: Store, signals: seq<Signal>)

  function AfterRemove(h: Helper, id: string, os: Os): Helper {
    if os.removeOk then h.(store := Removed(h.store, id)) else h
  }

  /** stopProcess: the record is saved first, and taken back if the process survives. */
  function StopStep(url: Redaction.UrlParser, h: Helper, p: Process, os: Os): (Helper, Reply) {
    if Protected(p) then (h, Failed(Refused))
    else
      var captured := Capture(url, p, os.id, os.args, os.exe, os.statusOk);
      if captured.Some? && !os.saveOk then (h, Failed(CannotSave))
      else
        var saved := if captured.Some? then h.(store := Saved(h.store, captured.value)) else h;
        var signalled := if os.signalOk then saved.(signals := saved.signals + [Signal(p.pid, captured, saved.store)])
                         else saved;
        if os.signalOk && os.gone then (signalled, Ok)
        else
          (if captured.Some? then AfterRemove(signalled, os.id, os) else signalled,
           Failed(if os.signalOk then StillRunning else SignalFailed))
  }

  /** The two snapshot guards of startRecord; the launch itself succeeds or fails. */
  predicate Startable(url: Redaction.UrlParser, r: Record) {
    r.exe != "" && r.args != [] && !Guarded(url, r.args)
  }

  /** restartProcess: like a stop, then the saved record is started and dropped. */
  function RestartStep(url: Redaction.UrlParser, h: Helper, p: Process, os: Os): (Helper, Reply) {
    if Protected(p) || !CanRestart(url, p) then (h, Failed(Refused))
    else if RestartMode(url, p) == Systemd then (h, if os.serviceOk then Ok else Failed(ServiceFailed))
    else
      var captured := Capture(url, p, os.id, os.args, os.exe, os.statusOk);
      if captured.None? then (h, Failed(Refused))
      else if !os.saveOk then (h, Failed(CannotSave))
      else
        var saved := h.(store := Saved(h.store, captured.value));
        if !os.signalOk then (AfterRemove(saved, os.id, os), Failed(SignalFailed))
        else
          var signalled := saved.(signals := saved.signals + [Signal(p.pid, captured, saved.store)]);
          if !os.gone then (AfterRemove(signalled, os.id, os), Failed(StillRunning))
          else if !Startable(url, captured.value) || !os.launchOk then (signalled, Failed(StartFailed))
          else (AfterRemove(signalled, os.id, os), Ok)
  }

  /** The service_stop request: managed units are stopped as processes, others through their service manager. */
  function ServiceStopStep(url: Redaction.UrlParser, h: Helper, p: Process, os: Os): (Helper, Reply) {
    if p.pid <= 0 || p.service == "" then (h, Failed(Refused))
    else if p.managed then StopStep(url, h, p, os)
    else if !p.serviceSafe then (h, Failed(Refused))
    else if !os.saveOk then (h, Failed(CannotSave))
    else
      var saved := h.(store := Saved(h.store, Record(os.id, p.service, true, "", [])));
      if os.serviceOk then (saved, Ok) else (AfterRemove(saved, os.id, os), Failed(ServiceFailed))
  }

  function IndexOf(records: seq<Record>, id: string): (i: nat)
    ensures i <= |records|
    ensures i < |records| ==> records[i].id == id
    ensures forall j :: 0 <= j < i ==> records[j].id != id
  {
    if records == [] || records[0].id == id then 0
    else
      var i := IndexOf(records[1..], id);
      assert forall j :: 0 < j < i + 1 ==> records[j] == records[1..][j - 1];
      i + 1
  }

  /** startSaved: the record is dropped once its process or service runs again. */
  function StartSavedStep(url: Redaction.UrlParser, h: Helper, id: string, os: Os): (Helper, Reply) {
    if id == "" || |id| > 128 then (h, Failed(BadId))
    else if h.store.Unreadable? then (h, Failed(NotFound))
    else
      var records := Loaded(h.store);
      var i := IndexOf(records, id);
      if i == |records| then (h, Failed(NotFound))
      else if !records[i].canStart then (h, Failed(Refused))
      else if records[i].service != "" && !os.serviceOk then (h, Failed(ServiceFailed))
      else if records[i].service == "" && (!Startable(url, records[i]) || !os.launchOk) then (h, Failed(StartFailed))
      else (if os.saveOk then h.(store := Records(records[..i] + records[i + 1..])) else h, Ok)
  }

  function Step(url: Redaction.UrlParser, h: Helper, q: Request, os: Os): (Helper, Reply) {
    match q
    case Stop(p) => StopStep(url, h, p, os)
    case Restart(p) => RestartStep(url, h, p, os)
    case ServiceStop(p) => ServiceStopStep(url, h, p, os)
    case StartSaved(id) => StartSavedStep(url, h, id, os)
  }

  // ---------- The same requests, as they run ----------

  /** The helper and its store file; signals records what was sent to processes. */
  class Supervisor {
    var store: Store
    ghost var signals: seq<Signal>

    ghost function View(): Helper
      reads this
    {
      Helper(store, signals)
    }

    constructor (store: Store)
      ensures View() == Helper(store, [])
    {
      this.store := store;
      signals := [];
    }

    method SaveStopped(r: Record, writeOk: bool)
      modifies this`store
      ensures store == if writeOk then Saved(old(store), r) else old(store)
    {
      var x := if store.Records? then store.records else [];
      x := [r] + x;
      if |x| > 100 {
        x := x[..100];
      }
      if writeOk {
        store := Records(x);
      }
    }

    method RemoveStopped(id: string, writeOk: bool)
      modifies this`store
      ensures View() == AfterRemove(old(View()), id, ANY.(removeOk := writeOk))
    {
      if store.Unreadable? {
        return;
      }
      var x := if store.Records? then store.records else [];
      var out: seq<Record> := [];
      for k := 0 to |x|
        invariant out == Without(x[..k], id)
      {
        assert x[..k + 1][..k] == x[..k];
        if x[k].id != id {
          out := out + [x[k]];
        }
      }
      assert x[..|x|] == x;
      if writeOk {
        store := Records(out);
      }
    }

    method StopProcess(url: Redaction.UrlParser, p: Process, os: Os) returns (reply: Reply)
      modifies this
      ensures (View(), reply) == StopStep(url, old(View()), p, os)
    {
      hide Capture, Saved, Removed;
      if Protected(p) {
        return Failed(Refused);
      }
      var rec := Capture(url, p, os.id, os.args, os.exe, os.statusOk);
      if rec.Some? {
        SaveStopped(rec.value, os.saveOk);
        if !os.saveOk {
          return Failed(CannotSave);
        }
      }
      if !os.signalOk {
        if rec.Some? {
          RemoveStopped(os.id, os.removeOk);
        }
        return Failed(SignalFailed);
      }
      signals := signals + [Signal(p.pid, rec, store)];
      if !os.gone {
        if rec.Some? {
          RemoveStopped(os.id, os.removeOk);
        }
        return Failed(StillRunning);
      }
      return Ok;
    }

    method RestartProcess(url: Redaction.UrlParser, p: Process, os: Os) returns (reply: Reply)
      modifies this
      ensures (View(), reply) == RestartStep(url, old(View()), p, os)
    {
      hide Capture, Saved, Removed, Startable;
      if Protected(p) || !CanRestart(url, p) {
        return Failed(Refused);
      }
      if RestartMode(url, p) == Systemd {
        return if os.serviceOk then Ok else Failed(ServiceFailed);
      }
      var rec := Capture(url, p, os.id, os.args, os.exe, os.statusOk);
      if rec.None? {
        return Failed(Refused);
      }
      SaveStopped(rec.value, os.saveOk);
      if !os.saveOk {
        return Failed(CannotSave);
      }
      if !os.signalOk {
        RemoveStopped(os.id, os.removeOk);
        return Failed(SignalFailed);
      }
      signals := signals + [Signal(p.pid, rec, store)];
      if !os.gone {
        RemoveStopped(os.id, os.removeOk);
        return Failed(StillRunning);
      }
      if !Startable(url, rec.value) || !os.launchOk {
        return Failed(StartFailed);
      }
      RemoveStopped(os.id, os.removeOk);
      return Ok;
    }

    method StopService(url: Redaction.UrlParser, p: Process, os: Os) returns (reply: Reply)
      modifies this
      ensures (View(), reply) == ServiceStopStep(url, old(View()), p, os)
    {
      hide StopStep, Saved, Removed;
      if p.pid <= 0 || p.service == "" {
        return Failed(Refused);
      }
      if p.managed {
        reply := StopProcess(url, p, os);
        return;
      }
      if !p.serviceSafe {
        return Failed(Refused);
      }
      SaveStopped(Record(os.id, p.service, true, "", []), os.saveOk);
      if !os.saveOk {
        return Failed(CannotSave);
      }
      if !os.serviceOk {
        RemoveStopped(os.id, os.removeOk);
        return Failed(ServiceFailed);
      }
      return Ok;
    }

    method StartSaved(url: Redaction.UrlParser, id: string, os: Os) returns (reply: Reply)
      modifies this`store
      ensures (View(), reply) == StartSavedStep(url, old(View()), id, os)
    {
      hide Startable;
      if id == "" || |id| > 128 {
        return Failed(BadId);
      }
      if store.Unreadable? {
        return Failed(NotFound);
      }
      var x := if store.Records? then store.records else [];
      var i := 0;
      while i < |x| && x[i].id != id
        invariant 0 <= i <= |x| && forall j :: 0 <= j < i ==> x[j].id != id
      {
        i := i + 1;
      }
      assert i == IndexOf(x, id);
      if i == |x| {
        return Failed(NotFound);
      }
      var r := x[i];
      if !r.canStart {
        return Failed(Refused);
      }
      if r.service != "" {
        if !os.serviceOk {
          return Failed(ServiceFailed);
        }
      } else if !Startable(url, r) || !os.launchOk {
        return Failed(StartFailed);
      }
      x := x[..i] + x[i + 1..];
      if os.saveOk {
        store := Records(x);
      }
      return Ok;
    }
  }

  const ANY := Os("", [], "", true, true, true, true, true, true, true)

  // ---------- What every request keeps ----------

  ghost predicate RecordOk(url: Redaction.UrlParser, r: Record) {
    if r.service != "" then r.exe == "" && r.args == [] else Startable(url, r)
  }

  ghost predicate UniqueIds(records: seq<Record>) {
    forall i, j :: 0 <= i < j < |records| ==> records[i].id != records[j].id
  }

  ghost predicate StoreOk(url: Redaction.UrlParser, s: Store) {
    var records := Loaded(s);
    && |records| <= 100
    && UniqueIds(records)
    && forall r :: r in records ==> RecordOk(url, r)
  }

  ghost predicate Fresh(s: Store, id: string) {
    forall r :: r in Loaded(s) ==> r.id != id
  }

  /** Whatever is captured from an unprotected process is either a service or a startable, unguarded command. */
  lemma CapturedOk(url: Redaction.UrlParser, p: Process, id: string, args: seq<string>, exe: string, statusOk: bool)
    requires !Protected(p) && Capture(url, p, id, args, exe, statusOk).Some?
    ensures RecordOk(url, Capture(url, p, id, args, exe, statusOk).value)
    ensures Capture(url, p, id, args, exe, statusOk).value.id == id
  {
    hide Guarded;
  }

  lemma SavedOk(url: Redaction.UrlParser, s: Store, r: Record)
    requires StoreOk(url, s) && RecordOk(url, r) && Fresh(s, r.id)
    ensures StoreOk(url, Saved(s, r))
    ensures r == Loaded(Saved(s, r))[0]
  {
    hide RecordOk;
    var earlier := Loaded(s);
    var all := [r] + earlier;
    assert forall i :: 0 < i < |all| ==> all[i] == earlier[i - 1] && all[i] in earlier;
    assert forall x :: x in Capped(all) ==> x in all;
  }

  lemma WithoutSnoc(records: seq<Record>, last: Record, id: string)
    ensures Without(records + [last], id) == Without(records, id) + (if last.id != id then [last] else [])
    ensures Without([], id) == []
  {
    assert (records + [last])[..|records|] == records;
  }

  lemma {:induction false} WithoutHead(r: Record, rest: seq<Record>)
    requires forall x :: x in rest ==> x.id != r.id
    ensures Without([r] + rest, r.id) == rest
  {
    hide Without;
    if rest == [] {
      WithoutSnoc([], r, r.id);
      assert [] + [r] == [r] + rest;
    } else {
      var front, last := rest[..|rest| - 1], rest[|rest| - 1];
      WithoutHead(r, front);
      WithoutSnoc([r] + front, last, r.id);
      assert [r] + front + [last] == [r] + rest;
      assert rest == front + [last];
    }
  }

  /** The old records, except the oldest when the cap was reached. */
  function Kept(records: seq<Record>): seq<Record> {
    if |records| >= 100 then records[..99] else records
  }

  /** Saving a record and taking it back leaves the old records, except for one the cap may have dropped. */
  lemma SaveThenRemove(s: Store, r: Record)
    requires Fresh(s, r.id) && |Loaded(s)| <= 100
    ensures Loaded(Removed(Saved(s, r), r.id)) == Kept(Loaded(s))
  {
    var records := Loaded(s);
    assert Loaded(Saved(s, r)) == [r] + Kept(records);
    assert forall x :: x in Kept(records) ==> x in records;
    WithoutHead(r, Kept(records));
  }

  lemma SmallerOk(url: Redaction.UrlParser, s: Store, s': Store)
    requires StoreOk(url, s)
    requires |Loaded(s')| <= |Loaded(s)|
    requires UniqueIds(Loaded(s')) && forall r :: r in Loaded(s') ==> r in Loaded(s)
    ensures StoreOk(url, s')
  {
  }

  lemma KeptOk(url: Redaction.UrlParser, s: Store, s': Store)
    requires StoreOk(url, s) && Loaded(s') == Kept(Loaded(s))
    ensures StoreOk(url, s')
  {
    SmallerOk(url, s, s');
  }

  lemma DropOk(url: Redaction.UrlParser, s: Store, i: nat)
    requires StoreOk(url, s) && i < |Loaded(s)|
    ensures StoreOk(url, Records(Loaded(s)[..i] + Loaded(s)[i + 1..]))
  {
    hide RecordOk;
    SmallerOk(url, s, Records(Loaded(s)[..i] + Loaded(s)[i + 1..]));
  }

  /** How a request can leave the store: as it was, with one record saved, with that record saved and taken back, or
      with one record dropped. */
  ghost predicate StoreMoves(url: Redaction.UrlParser, s: Store, s': Store, id: string) {
    || s' == s
    || (exists r: Record :: r.id == id && RecordOk(url, r) && s' == Saved(s, r))
    || (exists r: Record :: r.id == id && RecordOk(url, r) && s' == Removed(Saved(s, r), id))
    || (exists i :: 0 <= i < |Loaded(s)| && s' == Records(Loaded(s)[..i] + Loaded(s)[i + 1..]))
  }

  lemma StopMoves(url: Redaction.UrlParser, h: Helper, p: Process, os: Os)
    ensures StoreMoves(url, h.store, StopStep(url, h, p, os).0.store, os.id)
  {
    hide Capture, Saved, Removed, RecordOk;
    if !Protected(p) && Capture(url, p, os.id, os.args, os.exe, os.statusOk).Some? {
      CapturedOk(url, p, os.id, os.args, os.exe, os.statusOk);
    }
  }

  lemma RestartMoves(url: Redaction.UrlParser, h: Helper, p: Process, os: Os)
    ensures StoreMoves(url, h.store, RestartStep(url, h, p, os).0.store, os.id)
  {
    hide Capture, Saved, Removed, RecordOk, Startable;
    if !Protected(p) && Capture(url, p, os.id, os.args, os.exe, os.statusOk).Some? {
      CapturedOk(url, p, os.id, os.args, os.exe, os.statusOk);
    }
  }

  lemma ServiceStopMoves(url: Redaction.UrlParser, h: Helper, p: Process, os: Os)
    ensures StoreMoves(url, h.store, ServiceStopStep(url, h, p, os).0.store, os.id)
  {
    hide Saved, Removed, StopStep;
    StopMoves(url, h, p, os);
    assert p.service != "" ==> RecordOk(url, Record(os.id, p.service, true, "", []));
  }

  lemma StepMoves(url: Redaction.UrlParser, h: Helper, q: Request, os: Os)
    ensures StoreMoves(url, h.store, Step(url, h, q, os).0.store, os.id)
  {
    match q {
      case Stop(p) => hide StopStep; StopMoves(url, h, p, os);
      case Restart(p) => hide RestartStep; RestartMoves(url, h, p, os);
      case ServiceStop(p) => hide ServiceStopStep; ServiceStopMoves(url, h, p, os);
      case StartSaved(id) => hide Saved, Removed, RecordOk, Startable;
    }
  }

  /** Every request keeps the store in order. */
  lemma StepKeepsStore(url: Redaction.UrlParser, h: Helper, q: Request, os: Os)
    requires StoreOk(url, h.store) && Fresh(h.store, os.id)
    ensures StoreOk(url, Step(url, h, q, os).0.store)
  {
    hide Step, RecordOk, Saved, Removed, StoreOk;
    var s, s' := h.store, Step(url, h, q, os).0.store;
    StepMoves(url, h, q, os);
    if s' == s {
    } else if exists r: Record :: r.id == os.id && RecordOk(url, r) && s' == Saved(s, r) {
      var r: Record :| r.id == os.id && RecordOk(url, r) && s' == Saved(s, r);
      SavedOk(url, s, r);
    } else if exists r: Record :: r.id == os.id && RecordOk(url, r) && s' == Removed(Saved(s, r), os.id) {
      var r: Record :| r.id == os.id && RecordOk(url, r) && s' == Removed(Saved(s, r), os.id);
      StoreBounded(url, s);
      SaveThenRemove(s, r);
      KeptOk(url, s, s');
    } else {
      var i :| 0 <= i < |Loaded(s)| && s' == Records(Loaded(s)[..i] + Loaded(s)[i + 1..]);
      DropOk(url, s, i);
    }
  }

  lemma StoreBounded(url: Redaction.UrlParser, s: Store)
    requires StoreOk(url, s)
    ensures |Loaded(s)| <= 100
  {
  }

  // ---------- Runs ----------

  ghost predicate Possible(url: Redaction.UrlParser, h: Helper, qs: seq<(Request, Os)>)
    decreases qs
  {
    qs == [] || (Fresh(h.store, qs[0].1.id) && Possible(url, Step(url, h, qs[0].0, qs[0].1).0, qs[1..]))
  }

  ghost function After(url: Redaction.UrlParser, h: Helper, qs: seq<(Request, Os)>): Helper
    decreases qs
  {
    if qs == [] then h else After(url, Step(url, h, qs[0].0, qs[0].1).0, qs[1..])
  }

  /** A signal sent to a process that can be recovered was sent with its record in the store. */
  ghost predicate SignalCovered(g: Signal) {
    g.record.Some? ==> g.record.value in Loaded(g.store)
  }

  ghost predicate SignalsCovered(h: Helper) {
    forall g :: g in h.signals ==> SignalCovered(g)
  }

  lemma SavedHolds(s: Store, r: Record)
    ensures r in Loaded(Saved(s, r))
  {
    assert Loaded(Saved(s, r))[0] == r;
  }

  lemma StepKeepsSignals(url: Redaction.UrlParser, h: Helper, q: Request, os: Os)
    requires SignalsCovered(h)
    ensures SignalsCovered(Step(url, h, q, os).0)
  {
    hide Saved, Removed, Startable, Protected, Guarded;
    if !q.StartSaved? {
      var captured := Capture(url, q.p, os.id, os.args, os.exe, os.statusOk);
      if captured.Some? {
        SavedHolds(h.store, captured.value);
      }
      hide Capture, RestartMode;
      var g := Signal(q.p.pid, captured, if captured.Some? then Saved(h.store, captured.value) else h.store);
      assert SignalCovered(g);
      assert Step(url, h, q, os).0.signals == h.signals || Step(url, h, q, os).0.signals == h.signals + [g];
    }
  }

  /**
   * Over any run of requests from an orderly store: at most 100 records with distinct ids, each a service without
   * arguments or a command that the snapshot guards accept; and no recoverable process was ever signalled without its
   * record being on disk.
   */
  lemma {:induction false} RunKeepsStore(url: Redaction.UrlParser, h: Helper, qs: seq<(Request, Os)>)
    requires StoreOk(url, h.store) && SignalsCovered(h) && Possible(url, h, qs)
    ensures StoreOk(url, After(url, h, qs).store) && SignalsCovered(After(url, h, qs))
    decreases qs
  {
    hide Step, StoreOk, SignalsCovered;
    if qs != [] {
      StepKeepsStore(url, h, qs[0].0, qs[0].1);
      StepKeepsSignals(url, h, qs[0].0, qs[0].1);
      RunKeepsStore(url, Step(url, h, qs[0].0, qs[0].1).0, qs[1..]);
    }
  }

  /** A helper that starts without a store file has an orderly store. */
  lemma EmptyStoreOk(url: Redaction.UrlParser)
    ensures StoreOk(url, Missing) && SignalsCovered(Helper(Missing, []))
  {
  }

  // ---------- Consequences ----------

  /** A stored command always passes startRecord's guards: starting it fails only if launching does. */
  lemma StoredCommandsStart(url: Redaction.UrlParser, h: Helper, id: string, os: Os)
    requires StoreOk(url, h.store)
    requires StartSavedStep(url, h, id, os).1 == Failed(StartFailed)
    ensures !os.launchOk
  {
    hide Startable, Guarded;
    var records := Loaded(h.store);
    assert records[IndexOf(records, id)] in records;
  }

  /** A restart that has stopped the old process fails only if launching the new one does. */
  lemma CapturedCommandsStart(url: Redaction.UrlParser, h: Helper, p: Process, os: Os)
    requires RestartStep(url, h, p, os).1 == Failed(StartFailed)
    ensures !os.launchOk
    ensures exists r: Record :: r.id == os.id && r in Loaded(RestartStep(url, h, p, os).0.store)
  {
    var r := Capture(url, p, os.id, os.args, os.exe, os.statusOk).value;
    CapturedOk(url, p, os.id, os.args, os.exe, os.statusOk);
    SavedHolds(h.store, r);
  }

  /** The record a request writes to the store before it acts, if it gets that far. */
  function RecordWritten(url: Redaction.UrlParser, q: Request, os: Os): Option<Record> {
    match q
    case Stop(p) => RecordOfStop(url, p, os)
    case Restart(p) =>
      if CanRestart(url, p) && RestartMode(url, p) != Systemd then RecordOfStop(url, p, os) else None
    case ServiceStop(p) =>
      if p.pid <= 0 || p.service == "" then None
      else if p.managed then RecordOfStop(url, p, os)
      else if p.serviceSafe && os.saveOk then Some(Record(os.id, p.service, true, "", []))
      else None
    case StartSaved(_) => None
  }

  function RecordOfStop(url: Redaction.UrlParser, p: Process, os: Os): Option<Record> {
    if Protected(p) || !os.saveOk then None else Capture(url, p, os.id, os.args, os.exe, os.statusOk)
  }

  /** A failed request whose failure means that nothing was stopped. */
  predicate FailedBefore(url: Redaction.UrlParser, h: Helper, q: Request, os: Os) {
    var reply := Step(url, h, q, os).1;
    reply.Failed? && !(q.Restart? && reply.why == StartFailed)
  }

  lemma CaptureKeepsId(url: Redaction.UrlParser, p: Process, id: string, args: seq<string>, exe: string, statusOk: bool)
    ensures var c := Capture(url, p, id, args, exe, statusOk);
      c.Some? ==> c.value.id == id
  {
    hide RestartMode, Guarded;
  }

  lemma RecordWrittenId(url: Redaction.UrlParser, q: Request, os: Os)
    ensures RecordWritten(url, q, os).Some? ==> RecordWritten(url, q, os).value.id == os.id
  {
    hide Capture, RestartMode, Protected;
    if !q.StartSaved? {
      CaptureKeepsId(url, q.p, os.id, os.args, os.exe, os.statusOk);
    }
  }

  /** What a failed request did to the store: nothing, or it saved its record and then took it back if it could. */
  lemma FailureTakesBack(url: Redaction.UrlParser, h: Helper, q: Request, os: Os)
    requires FailedBefore(url, h, q, os)
    ensures match RecordWritten(url, q, os)
      case None => Step(url, h, q, os).0.store == h.store
      case Some(r) =>
        Step(url, h, q, os).0.store == if os.removeOk then Removed(Saved(h.store, r), os.id) else Saved(h.store, r)
  {
    hide Saved, Removed, Startable, Guarded, Capture, RestartMode;
  }

  /** The records a failed request leaves: the old ones, less one the cap dropped, behind its own if that stayed. */
  lemma FailureLeaves(url: Redaction.UrlParser, h: Helper, q: Request, os: Os)
    requires StoreOk(url, h.store) && Fresh(h.store, os.id) && FailedBefore(url, h, q, os)
    ensures var s' := Step(url, h, q, os).0.store;
      match RecordWritten(url, q, os)
      case None => s' == h.store
      case Some(r) => s'.Records? && s'.records == (if os.removeOk then [] else [r]) + Kept(Loaded(h.store))
  {
    FailureTakesBack(url, h, q, os);
    RecordWrittenId(url, q, os);
    StoreBounded(url, h.store);
    hide Step, RecordWritten, StoreOk, FailedBefore;
    if RecordWritten(url, q, os).Some? {
      var r := RecordWritten(url, q, os).value;
      SaveThenRemove(h.store, r);
      SavedRecords(h.store, r);
    }
  }

  lemma SavedRecords(s: Store, r: Record)
    requires |Loaded(s)| <= 100
    ensures Saved(s, r) == Records([r] + Kept(Loaded(s)))
  {
  }

  /** The store holds what it held: the same records in the same order, less the oldest one if the store was full. */
  ghost predicate PutBack(s: Store, s': Store) {
    s' == s || (!s.Unreadable? && Loaded(s') == Kept(Loaded(s)))
  }

  /**
   * Exactly when a failed request puts the store back: when it wrote no record at all, or when the store could be read
   * and the record could be removed again.
   */
  lemma FailureRestoresStore(url: Redaction.UrlParser, h: Helper, q: Request, os: Os)
    requires StoreOk(url, h.store) && Fresh(h.store, os.id) && FailedBefore(url, h, q, os)
    ensures PutBack(h.store, Step(url, h, q, os).0.store)
      <==> RecordWritten(url, q, os).None? || (!h.store.Unreadable? && os.removeOk)
  {
    FailureLeaves(url, h, q, os);
    RecordWrittenId(url, q, os);
    hide Step, RecordWritten, StoreOk, FailedBefore;
    if RecordWritten(url, q, os).Some? && !os.removeOk {
      var r := RecordWritten(url, q, os).value;
      assert r == ([r] + Kept(Loaded(h.store)))[0];
      assert forall x :: x in Kept(Loaded(h.store)) ==> x in Loaded(h.store);
    }
  }

  /** A store that cannot be read is lost: saving overwrites it, and taking the record back leaves an empty one. */
  lemma UnreadableStoreIsLost(url: Redaction.UrlParser, h: Helper, q: Request, os: Os)
    requires h.store.Unreadable? && FailedBefore(url, h, q, os) && RecordWritten(url, q, os).Some? && os.removeOk
    ensures Step(url, h, q, os).0.store == Records([])
  {
    FailureLeaves(url, h, q, os);
  }

  /** A request that loses it: a stop whose signal fails. */
  lemma FailedStopLosesUnreadableStore(url: Redaction.UrlParser, os: Os)
    requires os.saveOk && os.removeOk && !os.signalOk
    ensures var stop := Stop(Process(2, false, "a.service", true, false, false, false, "", []));
      Step(url, Helper(Unreadable, []), stop, os) == (Helper(Records([]), []), Failed(SignalFailed))
  {
    var stop := Stop(Process(2, false, "a.service", true, false, false, false, "", []));
    assert RecordWritten(url, stop, os) == Some(Record(os.id, "a.service", true, "", []));
    UnreadableStoreIsLost(url, Helper(Unreadable, []), stop, os);
  }

  /** A successful stop of a recoverable process leaves its record at the head of the store. */
  lemma StopLeavesRecord(url: Redaction.UrlParser, h: Helper, p: Process, os: Os)
    requires StopStep(url, h, p, os).1 == Ok
    requires Capture(url, p, os.id, os.args, os.exe, os.statusOk).Some?
    ensures var r := Capture(url, p, os.id, os.args, os.exe, os.statusOk).value;
      StopStep(url, h, p, os).0.store == Saved(h.store, r) && Loaded(Saved(h.store, r))[0] == r
  {
    hide Capture;
    assert ([Capture(url, p, os.id, os.args, os.exe, os.statusOk).value] + Loaded(h.store))[0]
      == Capture(url, p, os.id, os.args, os.exe, os.statusOk).value;
  }

  // ---------- Who is touched, and which record goes ----------

  /** A process that is init, protected by name, or of a service that must not be handled, is never signalled. */
  lemma ProtectedNeverSignalled(url: Redaction.UrlParser, h: Helper, q: Request, os: Os)
    requires !q.StartSaved? && (q.p.pid <= 1 || q.p.protectedByName || (q.p.service != "" && !q.p.serviceSafe))
    ensures Step(url, h, q, os).0.signals == h.signals
    ensures q.Stop? || q.Restart? ==> Step(url, h, q, os) == (h, Failed(Refused))
  {
    hide Capture, Guarded;
  }

  /** A signal is for the process asked about, at most one per request, and only if it has a pid above 1. */
  lemma SignalsOnlyTarget(url: Redaction.UrlParser, h: Helper, q: Request, os: Os)
    ensures var signals := Step(url, h, q, os).0.signals;
      || signals == h.signals
      || (&& !q.StartSaved? && q.p.pid > 1 && |signals| == |h.signals| + 1
          && signals[..|h.signals|] == h.signals && signals[|h.signals|].pid == q.p.pid)
  {
    hide Capture, Guarded, RestartMode;
  }

  /** Over any run, no process with a pid of 1 or less was ever signalled. */
  lemma {:induction false} InitNeverSignalled(url: Redaction.UrlParser, h: Helper, qs: seq<(Request, Os)>)
    requires forall g :: g in h.signals ==> g.pid > 1
    ensures forall g :: g in After(url, h, qs).signals ==> g.pid > 1
    decreases qs
  {
    hide Step;
    if qs != [] {
      var h' := Step(url, h, qs[0].0, qs[0].1).0;
      SignalsOnlyTarget(url, h, qs[0].0, qs[0].1);
      if h'.signals != h.signals {
        assert h'.signals == h'.signals[..|h.signals|] + [h'.signals[|h.signals|]];
      }
      InitNeverSignalled(url, h', qs[1..]);
    }
  }

  /** A restart signals only a process of no service, container or cron job, with a command line free of secrets. */
  lemma RestartSignalsOnlyPlainCommands(url: Redaction.UrlParser, h: Helper, p: Process, os: Os)
    requires RestartStep(url, h, p, os).0.signals != h.signals
    ensures p.service == "" && !p.container && !p.cron && p.exe != "" && p.args != []
    ensures forall a :: a in p.args ==> !Redaction.Sensitive(url, a)
    ensures forall a :: a in os.args ==> !Redaction.Sensitive(url, a)
  {
    assert !Guarded(url, p.args) && (p.managed || !Guarded(url, os.args));
    assert !Guarded(url, os.args);
  }

  /** What is recorded: a service by its name, anything else by the executable and arguments it was running with. */
  lemma CapturedContents(
    url: Redaction.UrlParser, p: Process, id: string, args: seq<string>, exe: string, statusOk: bool)
    requires !Protected(p) && Capture(url, p, id, args, exe, statusOk).Some?
    ensures var r := Capture(url, p, id, args, exe, statusOk).value;
      && (p.service != "" && !p.managed ==> r == Record(id, p.service, true, "", []))
      && (p.service == "" || p.managed ==> r.service == "" && r.exe == exe && r.args == args && exe != "" && args != [])
  {
    hide Guarded;
  }

  /**
   * Starting a saved record: it succeeds exactly when the id is usable, the store readable, a record with that id there
   * and startable, and the service or the command starts; then that record goes, and every other one stays in order.
   */
  lemma StartSavedExactly(url: Redaction.UrlParser, h: Helper, id: string, os: Os)
    requires StoreOk(url, h.store)
    ensures var (h', reply) := StartSavedStep(url, h, id, os);
      && (reply == Ok <==>
            && 0 < |id| <= 128 && !h.store.Unreadable?
            && exists r :: r in Loaded(h.store) && r.id == id && r.canStart
                 && (if r.service != "" then os.serviceOk else os.launchOk))
      && (reply != Ok ==> h' == h)
      && (reply == Ok && !os.saveOk ==> h' == h)
      && (reply == Ok && os.saveOk ==> h'.signals == h.signals && exists front, r, back ::
            Loaded(h.store) == front + [r] + back && r.id == id && Loaded(h'.store) == front + back)
  {
    hide Startable;
    var records := Loaded(h.store);
    var i := IndexOf(records, id);
    if i < |records| {
      assert records == records[..i] + [records[i]] + records[i + 1..];
      assert records[i] in records;
      assert records[i].service == "" ==> Startable(url, records[i]);
    }
    assert forall r :: r in records && r.id == id ==> i < |records| && r == records[i];
  }

  /** A process of no service, container or cron job, whose command line holds no secrets, now and at its start. */
  predicate PlainCommand(url: Redaction.UrlParser, p: Process, os: Os) {
    && p.pid > 1 && !p.protectedByName && p.service == "" && !p.container && !p.cron
    && p.exe != "" && p.args != [] && os.exe != "" && os.args != [] && os.statusOk
    && (forall i :: 0 <= i < |p.args| ==> !Redaction.Sensitive(url, p.args[i]))
    && (forall i :: 0 <= i < |os.args| ==> !Redaction.Sensitive(url, os.args[i]))
  }

  lemma PlainCommandCaptured(url: Redaction.UrlParser, p: Process, os: Os)
    requires PlainCommand(url, p, os)
    ensures !Protected(p) && CanRestart(url, p) && RestartMode(url, p) == Direct
    ensures Capture(url, p, os.id, os.args, os.exe, os.statusOk) == Some(Record(os.id, "", true, os.exe, os.args))
    ensures Startable(url, Record(os.id, "", true, os.exe, os.args))
  {
  }

  /** Such a process can be stopped, and is then the newest record; and restarted, which leaves no record of it. */
  lemma PlainCommandHandled(url: Redaction.UrlParser, h: Helper, p: Process, os: Os)
    requires PlainCommand(url, p, os) && StoreOk(url, h.store) && Fresh(h.store, os.id)
    requires os.saveOk && os.signalOk && os.gone
    ensures var (h', reply) := Step(url, h, Stop(p), os);
      && reply == Ok && Loaded(h'.store) == [Record(os.id, "", true, os.exe, os.args)] + Kept(Loaded(h.store))
      && |h'.signals| == |h.signals| + 1
    ensures os.launchOk && os.removeOk ==>
      var (h', reply) := Step(url, h, Restart(p), os);
      && reply == Ok && Loaded(h'.store) == Kept(Loaded(h.store)) && |h'.signals| == |h.signals| + 1
  {
    PlainCommandCaptured(url, p, os);
    StoreBounded(url, h.store);
    var r := Record(os.id, "", true, os.exe, os.args);
    SavedRecords(h.store, r);
    SaveThenRemove(h.store, r);
    hide PlainCommand, Capture, RestartMode, CanRestart, Startable, Saved, Removed, StoreOk, Protected, Kept;
  }

  /** A service that may be handled is stopped through its manager, and is then the newest record. */
  lemma ServiceStopped(url: Redaction.UrlParser, h: Helper, p: Process, os: Os)
    requires p.pid > 0 && p.service != "" && p.serviceSafe && !p.managed && StoreOk(url, h.store)
    requires os.saveOk && os.serviceOk
    ensures var (h', reply) := Step(url, h, ServiceStop(p), os);
      && reply == Ok && Loaded(h'.store) == [Record(os.id, p.service, true, "", [])] + Kept(Loaded(h.store))
      && h'.signals == h.signals
  {
    StoreBounded(url, h.store);
    SavedRecords(h.store, Record(os.id, p.service, true, "", []));
    hide Saved, StoreOk, Kept;
  }
}
