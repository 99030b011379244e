/**
 * The `DataManager` object: its connection to the device, its status
 * notices, the latest-reading slot, the two sinks, and the worker that runs
 * the real-data loop or the demo loop until collection is stopped.
 *
 * The outside world enters as parameters: whether opening a port succeeds
 * (an `OpenOutcome`), the ports a scan finds, what one read of the serial
 * line gives, the clock, and the raw values of the demo generator.
 */
module Manager {
  import opened Wrappers
  import opened Text
  import opened Sensor
  import opened Storage
  import opened LineParser
  import opened Simulation

  /** An open serial port object; `isOpen` turns false when it is closed. */
  datatype Handle = Handle(port: string, isOpen: bool)

  /** The `latest_data` slot; the timestamp is `None` until the first reading. */
  datatype Latest = Latest(voltage: real, temperature: real, current: real, timestamp: Option<real>)

  const NoReading := Latest(0.0, 0.0, 0.0, None)

  /** The four statuses `update_status` is called with. */
  datatype Status = Connecting | Connected | Error | DemoRunning

  /** The messages that go with them; a port name is part of two of them. */
  datatype Message =
    | ConnectingToArduino
    | ConnectedTo(port: string)
    | PortBusy(port: string)
    | ConnectionFailed
    | ConnectionError
    | DemoHint
    | CollectingRealData

  /** The status string the callback receives. */
  function StatusText(s: Status): string {
    match s
    case Connecting => "connecting"
    case Connected => "connected"
    case Error => "error"
    case DemoRunning => "demo"
  }

  /** The message string the callback receives. */
  function MessageText(m: Message): string {
    match m
    case ConnectingToArduino => "Connecting to Arduino..."
    case ConnectedTo(port) => "Connected to " + port
    case PortBusy(port) => "Port " + port + " busy"
    case ConnectionFailed => "Connection failed"
    case ConnectionError => "Connection error"
    case DemoHint => "Demo mode - plug Arduino to switch"
    case CollectingRealData => "Collecting real data"
  }

  /** The four statuses are four different strings. */
  lemma StatusTextInjective(s: Status, t: Status)
    ensures StatusText(s) == StatusText(t) <==> s == t
  {
    if s != t {
      assert StatusText(s)[0] != StatusText(t)[0] || StatusText(s)[|StatusText(s)| - 1] != StatusText(t)[|StatusText(t)| - 1];
    }
  }

  /** One call of the registered status callback `to`, with `StatusText(status)` and `MessageText(message)`. */
  datatype Notice = Notice(to: nat, status: Status, message: Message)

  /**
   * How opening a port goes: it opens; it raises a `SerialException` that
   * mentions a permission error or denied access (the port is busy); it
   * raises any other `SerialException`; or it raises some other exception.
   */
  datatype OpenOutcome = Opened | Busy | SerialFailed | OtherFailure

  /** What one pass of the real-data loop reads from the port. */
  datatype ReadResult =
    | NoData               // no connection, or nothing waiting
    | Received(text: string)  // one line, decoded as UTF-8
    | ReadFailure          // reading or decoding raised

  /** Which loop the worker is in: neither yet, the real-data loop, or the demo loop. */
  datatype Mode = Idle | Real | Demo

  /**
   * What happens between two passes of the worker's loop: the user stops
   * collection, or the loop runs once at time `now`, reading `read` in the
   * real loop, or (in the demo loop) finding the ports of `scan` if it probes
   * and generating `raw` before clamping.
   */
  datatype Event =
    | StopRequest
    | Tick(now: real, read: ReadResult, scan: seq<(string, OpenOutcome)>, raw: Triple)

  /** The object's fields, compared as a whole to say what a method leaves unchanged. */
  datatype State = State(
    port: string, connection: Option<Handle>, isCollecting: bool, latest: Latest,
    callback: Option<nat>, notices: seq<Notice>, store: seq<StoreRow>, csv: seq<CsvLine>,
    mode: Mode, lastProbe: real)

  /** The callback call `update_status(status, message)` makes: none when no callback is registered. */
  function Deliver(callback: Option<nat>, status: Status, message: Message): (ns: seq<Notice>)
    ensures callback.None? ==> ns == []
    ensures callback.Some? ==> ns == [Notice(callback.value, status, message)]
  {
    match callback
    case None => []
    case Some(c) => [Notice(c, status, message)]
  }

  /** The status and message `connect_arduino` reports once the attempt on `port` is over. */
  function ConnectNotice(port: string, outcome: OpenOutcome): (Status, Message) {
    match outcome
    case Opened => (Connected, ConnectedTo(port))
    case Busy => (Error, PortBusy(port))
    case SerialFailed => (Error, ConnectionFailed)
    case OtherFailure => (Error, ConnectionError)
  }

  /** The notices of one `connect_arduino` call on `port`. */
  function Attempt(callback: Option<nat>, port: string, outcome: OpenOutcome): seq<Notice> {
    var (status, message) := ConnectNotice(port, outcome);
    Deliver(callback, Connecting, ConnectingToArduino) + Deliver(callback, status, message)
  }

  /** The notices of the attempts on the first `n` ports of a scan, one port after the other. */
  function AttemptTrace(callback: Option<nat>, scan: seq<(string, OpenOutcome)>, n: nat): seq<Notice>
    requires n <= |scan|
    decreases n
  {
    if n == 0 then []
    else AttemptTrace(callback, scan, n - 1) + Attempt(callback, scan[n - 1].0, scan[n - 1].1)
  }

  /**
   * With a callback registered, each attempt makes two notices: `connecting`,
   * then `connected` if the port opened and `error` if it did not.
   */
  lemma {:induction false} AttemptTraceShape(callback: Option<nat>, scan: seq<(string, OpenOutcome)>, n: nat)
    requires callback.Some? && n <= |scan|
    ensures |AttemptTrace(callback, scan, n)| == 2 * n
    ensures forall k :: 0 <= k < n ==>
      && AttemptTrace(callback, scan, n)[2 * k] == Notice(callback.value, Connecting, ConnectingToArduino)
      && AttemptTrace(callback, scan, n)[2 * k + 1].to == callback.value
      && AttemptTrace(callback, scan, n)[2 * k + 1].status == (if scan[k].1 == Opened then Connected else Error)
    decreases n
  {
    if n > 0 {
      AttemptTraceShape(callback, scan, n - 1);
      var t := AttemptTrace(callback, scan, n);
      var front := AttemptTrace(callback, scan, n - 1);
      assert t == front + Attempt(callback, scan[n - 1].0, scan[n - 1].1);
      forall k | 0 <= k < n
        ensures t[2 * k] == Notice(callback.value, Connecting, ConnectingToArduino)
        ensures t[2 * k + 1].to == callback.value
        ensures t[2 * k + 1].status == (if scan[k].1 == Opened then Connected else Error)
      {
        if k < n - 1 {
          assert t[2 * k] == front[2 * k] && t[2 * k + 1] == front[2 * k + 1];
        }
      }
    }
  }

  /** Without a callback, connection attempts make no notices at all. */
  lemma {:induction false} AttemptTraceSilent(scan: seq<(string, OpenOutcome)>, n: nat)
    requires n <= |scan|
    ensures AttemptTrace(None, scan, n) == []
    decreases n
  {
    if n > 0 {
      AttemptTraceSilent(scan, n - 1);
    }
  }

  /** The index of the first port of the scan, from offset `i` on, that opens, if any. */
  function FirstOpenedFrom(scan: seq<(string, OpenOutcome)>, i: nat): (r: Option<nat>)
    requires i <= |scan|
    ensures r.Some? ==> i <= r.value < |scan| && scan[r.value].1 == Opened
    ensures r.Some? ==> forall k :: i <= k < r.value ==> scan[k].1 != Opened
    ensures r.None? ==> forall k :: i <= k < |scan| ==> scan[k].1 != Opened
    decreases |scan| - i
  {
    if i == |scan| then None
    else if scan[i].1 == Opened then Some(i)
    else FirstOpenedFrom(scan, i + 1)
  }

  /** The index of the first scanned port that opens, if any. */
  function FirstOpened(scan: seq<(string, OpenOutcome)>): Option<nat> {
    FirstOpenedFrom(scan, 0)
  }

  /** How many ports `auto_connect` tries: up to and including the first that opens, else all. */
  function Tried(scan: seq<(string, OpenOutcome)>): (n: nat)
    ensures n <= |scan|
  {
    match FirstOpened(scan)
    case Some(k) => k + 1
    case None => |scan|
  }

  /**
   * The notices of `auto_connect` with a callback registered: every port it
   * tried reported `connecting` and then `error`, except that the port it
   * stopped at, when one opened, reported `connected`, and no other did.
   */
  lemma AutoConnectNotices(callback: Option<nat>, scan: seq<(string, OpenOutcome)>)
    requires callback.Some?
    ensures |AttemptTrace(callback, scan, Tried(scan))| == 2 * Tried(scan)
    ensures forall k :: 0 <= k < Tried(scan) ==>
      AttemptTrace(callback, scan, Tried(scan))[2 * k].status == Connecting
    ensures forall k :: 0 <= k < Tried(scan) ==>
      (AttemptTrace(callback, scan, Tried(scan))[2 * k + 1].status == Connected <==> FirstOpened(scan) == Some(k))
    ensures forall k :: 0 <= k < Tried(scan) ==>
      (AttemptTrace(callback, scan, Tried(scan))[2 * k + 1].status == Error <==> FirstOpened(scan) != Some(k))
  {
    AttemptTraceShape(callback, scan, Tried(scan));
  }

  /**
   * The notices of one probe of the demo loop: those of `auto_connect`, and
   * the real-data loop's opening notice when a port opened.
   */
  function ProbeNotices(callback: Option<nat>, scan: seq<(string, OpenOutcome)>): seq<Notice> {
    AttemptTrace(callback, scan, Tried(scan))
      + if FirstOpened(scan).Some? then Deliver(callback, Connected, CollectingRealData) else []
  }

  /** The slot after processing the samples of `log`: the last sample, or zeros before the first. */
  function LatestAfter(log: seq<Sample>): (l: Latest)
    ensures log == [] ==> l == NoReading
    ensures log != [] ==> l.timestamp == Some(log[|log| - 1].at)
  {
    if log == [] then NoReading
    else
      var s := log[|log| - 1];
      Latest(s.reading.voltage, s.reading.temperature, s.reading.current, Some(s.at))
  }

  /**
   * `s` is the reading one pass of the worker made of event `e`: the clamped
   * synthetic reading of a demo pass, or the reading of the line a real pass
   * received, stamped with the pass's time.
   */
  predicate FromEvent(s: Sample, e: Event) {
    && e.Tick?
    && s.at == e.now
    && if s.isDemo then s.reading == ClampReading(e.raw)
       else e.read.Received? && ClassifyLine(Strip(e.read.text)) == Reading(s.reading)
  }

  /**
   * `log` is `log0` followed by readings each made by its own event of
   * `events`, in the order of the events: `origin[j]` is the event of the
   * `j`-th new reading.
   */
  ghost predicate Traced(log0: seq<Sample>, log: seq<Sample>, events: seq<Event>, origin: seq<nat>) {
    && |log0| <= |log| && log[..|log0|] == log0
    && |origin| == |log| - |log0|
    && (forall j :: 0 <= j < |origin| ==> origin[j] < |events| && FromEvent(log[|log0| + j], events[origin[j]]))
    && (forall j, k :: 0 <= j < k < |origin| ==> origin[j] < origin[k])
  }

  /** A reading made by an event later than all traced so far extends the trace. */
  lemma TracedStep(log0: seq<Sample>, log: seq<Sample>, events: seq<Event>, origin: seq<nat>, s: Sample, i: nat)
    requires Traced(log0, log, events, origin)
    requires forall j :: 0 <= j < |origin| ==> origin[j] < i
    requires i < |events| && FromEvent(s, events[i])
    ensures Traced(log0, log + [s], events, origin + [i])
  {
    var log', origin' := log + [s], origin + [i];
    assert log'[..|log0|] == log[..|log0|];
    forall j | 0 <= j < |origin'|
      ensures origin'[j] < |events| && FromEvent(log'[|log0| + j], events[origin'[j]])
    {
      if j < |origin| {
        assert log'[|log0| + j] == log[|log0| + j];
      }
    }
  }

  /**
   * What `get_historical_data(limit)` returns: the newest `limit` rows, newest
   * first; nothing when the database cannot be read (`fails`), and nothing
   * for a `None` limit, which SQLite refuses as a LIMIT value.
   */
  function HistoricalRows(store: seq<StoreRow>, limit: Option<int>, fails: bool): seq<StoreRow> {
    if fails || limit.None? then [] else Query(store, limit.value)
  }

  /** The "All" range passes `None`, and a table with rows then shows none of them. */
  lemma AllRangeShowsNothing(store: seq<StoreRow>)
    requires store != []
    ensures HistoricalRows(store, None, false) == []
    ensures HistoricalRows(store, None, false) != AllRows(store)
  {
    assert |AllRows(store)| == |store|;
  }

  /** Every row of the table, newest first: what the "All" range is meant to show. */
  function AllRows(store: seq<StoreRow>): (rows: seq<StoreRow>)
    ensures multiset(rows) == multiset(store)
    ensures |rows| == |store|
    ensures SortedDesc(rows)
  {
    QuerySpec(store, -1);
    SortDescPermutes(store);
    Query(store, -1)
  }

  /** The fields after `process_data` handles `smp`: the slot takes it, and each sink gains what it adds. */
  function Processed(s: State, smp: Sample): State {
    s.(latest := Latest(smp.reading.voltage, smp.reading.temperature, smp.reading.current, Some(smp.at)),
       store := s.store + StoreAdded(smp), csv := s.csv + CsvAdded(smp))
  }

  /** What one pass of the worker, or a run of passes, leaves: the fields afterwards, and the readings processed. */
  datatype PassResult = PassResult(state: State, made: seq<Sample>)

  /**
   * One pass of the real-data loop at time `now`: a received line is
   * stripped and, when it is a reading, processed; a failed read drops the
   * connection and starts the demo loop.
   */
  function RealPass(s: State, now: real, read: ReadResult): PassResult {
    match read
    case NoData => PassResult(s, [])
    case Received(text) =>
      var c := ClassifyLine(Strip(text));
      if c.Reading? then PassResult(Processed(s, Sample(c.t, now, false)), [Sample(c.t, now, false)])
      else PassResult(s, [])
    case ReadFailure =>
      PassResult(s.(connection := None, notices := s.notices + Deliver(s.callback, DemoRunning, DemoHint),
                 isCollecting := true, lastProbe := 0.0, mode := Demo), [])
  }

  /**
   * The probe at the head of a demo pass: after more than five seconds it
   * runs `auto_connect` over `scan`, and either enters the real-data loop or
   * records `now` as the time of the last probe.
   */
  function Probed(s: State, now: real, scan: seq<(string, OpenOutcome)>): State {
    if now - s.lastProbe <= 5.0 then s
    else
      var t := s.(notices := s.notices + ProbeNotices(s.callback, scan));
      match FirstOpened(scan)
      case Some(k) => t.(port := scan[k].0, connection := Some(Handle(scan[k].0, true)), mode := Real)
      case None => t.(port := if scan == [] then s.port else scan[|scan| - 1].0, lastProbe := now)
  }

  /** One pass of the demo loop: the probe, then the clamped synthetic reading unless the probe switched. */
  function DemoPass(s: State, now: real, scan: seq<(string, OpenOutcome)>, raw: Triple): PassResult {
    var p := Probed(s, now, scan);
    if now - s.lastProbe > 5.0 && FirstOpened(scan).Some? then PassResult(p, [])
    else PassResult(Processed(p, Sample(ClampReading(raw), now, true)), [Sample(ClampReading(raw), now, true)])
  }

  /** The fields after `stop_collection`. */
  function Stopped(s: State): State {
    s.(isCollecting := false,
       connection := if s.connection.Some? then Some(s.connection.value.(isOpen := false)) else None)
  }

  /** One pass of the worker for event `e`, in the loop that `s.mode` names. */
  function PassOf(s: State, e: Event): PassResult {
    match e
    case StopRequest => PassResult(Stopped(s), [])
    case Tick(now, read, scan, raw) =>
      if s.mode == Real then RealPass(s, now, read) else DemoPass(s, now, scan, raw)
  }

  /** The worker's loop: one pass per event, for as long as collection goes on. */
  function RunOf(s: State, events: seq<Event>): PassResult
    decreases |events|
  {
    if events == [] || !s.isCollecting then PassResult(s, [])
    else
      var p := PassOf(s, events[0]);
      var r := RunOf(p.state, events[1..]);
      PassResult(r.state, p.made + r.made)
  }

  /** A pass processes at most one reading, and it is one its event makes. */
  lemma PassMadeFromEvent(s: State, e: Event)
    ensures |PassOf(s, e).made| <= 1
    ensures forall smp :: smp in PassOf(s, e).made ==> FromEvent(smp, e)
  {
  }

  /** A pass keeps the callback and every notice sent so far; it can only add notices. */
  lemma PassKeepsNotices(s: State, e: Event)
    ensures PassOf(s, e).state.callback == s.callback
    ensures |s.notices| <= |PassOf(s, e).state.notices|
    ensures PassOf(s, e).state.notices[..|s.notices|] == s.notices
  {
  }

  /** The loop keeps the callback and every notice sent before it started. */
  lemma {:induction false} RunKeepsNotices(s: State, events: seq<Event>)
    ensures RunOf(s, events).state.callback == s.callback
    ensures |s.notices| <= |RunOf(s, events).state.notices|
    ensures RunOf(s, events).state.notices[..|s.notices|] == s.notices
    decreases |events|
  {
    if events != [] && s.isCollecting {
      var p := PassOf(s, events[0]).state;
      PassKeepsNotices(s, events[0]);
      RunKeepsNotices(p, events[1..]);
      var n := RunOf(s, events).state.notices;
      assert n[..|s.notices|] == n[..|p.notices|][..|s.notices|];
    }
  }

  /** Without a stop request, collection goes on: no pass ends it. */
  lemma {:induction false} RunWithoutStop(s: State, events: seq<Event>)
    requires s.isCollecting
    requires forall j :: 0 <= j < |events| ==> events[j].Tick?
    ensures RunOf(s, events).state.isCollecting
    decreases |events|
  {
    if events != [] {
      assert events[0].Tick?;
      RunWithoutStop(PassOf(s, events[0]).state, events[1..]);
    }
  }

  /** A stop request among the events ends collection. */
  lemma {:induction false} RunStops(s: State, events: seq<Event>)
    requires exists j :: 0 <= j < |events| && events[j].StopRequest?
    ensures !RunOf(s, events).state.isCollecting
    decreases |events|
  {
    if s.isCollecting {
      var j :| 0 <= j < |events| && events[j].StopRequest?;
      if j > 0 {
        assert events[1..][j - 1].StopRequest?;
        RunStops(PassOf(s, events[0]).state, events[1..]);
      }
    }
  }

  /** Until a read fails, the real-data loop stays the real-data loop and processes only real readings. */
  lemma {:induction false} RealRunStaysReal(s: State, events: seq<Event>)
    requires s.mode == Real
    requires forall j :: 0 <= j < |events| && events[j].Tick? ==> !events[j].read.ReadFailure?
    ensures RunOf(s, events).state.mode == Real
    ensures forall smp :: smp in RunOf(s, events).made ==> !smp.isDemo
    decreases |events|
  {
    if events != [] && s.isCollecting {
      var p := PassOf(s, events[0]);
      assert events[0].Tick? ==> !events[0].read.ReadFailure?;
      assert p.state.mode == Real && forall smp :: smp in p.made ==> !smp.isDemo;
      RealRunStaysReal(p.state, events[1..]);
      assert RunOf(s, events).made == p.made + RunOf(p.state, events[1..]).made;
    }
  }

  /**
   * The demo loop's way back: a probe that finds a port switches the worker
   * to the real-data loop without a synthetic reading, so the next pass
   * processes no demo reading, and neither does any later pass until a read
   * fails.
   */
  lemma FallbackRecovery(s: State, now: real, scan: seq<(string, OpenOutcome)>, raw: Triple, e: Event,
                         events: seq<Event>)
    requires s.mode == Demo && now - s.lastProbe > 5.0 && FirstOpened(scan).Some?
    requires forall j :: 0 <= j < |events| && events[j].Tick? ==> !events[j].read.ReadFailure?
    ensures DemoPass(s, now, scan, raw).state.mode == Real && DemoPass(s, now, scan, raw).made == []
    ensures forall smp :: smp in PassOf(DemoPass(s, now, scan, raw).state, e).made ==> !smp.isDemo
    ensures forall smp :: smp in RunOf(DemoPass(s, now, scan, raw).state, events).made ==> !smp.isDemo
  {
    RealRunStaysReal(DemoPass(s, now, scan, raw).state, events);
  }

  /** The loop started in `s0` is, after `made`, the loop resumed at event `i` in state `s`. */
  ghost predicate Resumes(s0: State, events: seq<Event>, i: nat, s: State, made: seq<Sample>)
    requires i <= |events|
  {
    RunOf(s0, events) == PassResult(RunOf(s, events[i..]).state, made + RunOf(s, events[i..]).made)
  }

  /** The loop resumed at event `i` in state `s` has nothing left to do once the events run out or collection stops. */
  lemma RunDone(s0: State, events: seq<Event>, i: nat, s: State, made: seq<Sample>)
    requires i <= |events| && (i == |events| || !s.isCollecting)
    requires Resumes(s0, events, i, s, made)
    ensures RunOf(s0, events) == PassResult(s, made)
  {
    assert RunOf(s, events[i..]) == PassResult(s, []);
    assert made + [] == made;
  }

  /** Every synthetic reading of a trace is the clamp of its event's raw values, so it lies in the demo ranges. */
  lemma TracedDemoInRange(log0: seq<Sample>, log: seq<Sample>, events: seq<Event>, origin: seq<nat>)
    requires Traced(log0, log, events, origin)
    ensures forall j :: |log0| <= j < |log| && log[j].isDemo ==> InDemoRange(log[j].reading)
  {
    forall j | |log0| <= j < |log| && log[j].isDemo
      ensures InDemoRange(log[j].reading)
    {
      assert FromEvent(log[|log0| + (j - |log0|)], events[origin[j - |log0|]]);
    }
  }

  /**
   * `start_collection` tries the configured port, then the scan; it enters the
   * real-data loop exactly when one of them opens, over that port, and the
   * demo loop otherwise, with the probe clock at 0.
   */
  lemma BeginStateFields(s: State, first: OpenOutcome, scan: seq<(string, OpenOutcome)>)
    ensures var b := BeginState(s, first, scan);
      && b.isCollecting
      && (b.mode == Real <==> first == Opened || FirstOpened(scan).Some?)
      && (b.mode == Real || b.mode == Demo)
      && (first == Opened ==> b.port == s.port && b.connection == Some(Handle(s.port, true)))
      && (first != Opened && FirstOpened(scan).Some? ==>
            b.port == scan[FirstOpened(scan).value].0 && b.connection == Some(Handle(b.port, true)))
      && (first != Opened && FirstOpened(scan).None? ==>
            b.connection == s.connection && b.port == if scan == [] then s.port else scan[|scan| - 1].0)
      && b.notices == s.notices + BeginNotices(s.callback, s.port, first, scan)
      && b.callback == s.callback && b.latest == s.latest && b.store == s.store && b.csv == s.csv
      && b.lastProbe == if b.mode == Demo then 0.0 else s.lastProbe
  {
  }

  /** Appending to a list that already extends `a` by `b`. */
  lemma Regrouped<T>(a: seq<T>, b: seq<T>, c: seq<T>, d: seq<T>)
    requires d == a + b
    ensures d + c == a + (b + c)
  {
  }

  /** Appending twice to a list that already extends `a` by `b`. */
  lemma RegroupedTwice<T>(a: seq<T>, b: seq<T>, c: seq<T>, e: seq<T>, d: seq<T>)
    requires d == a + b
    ensures d + c + e == a + (b + c + e)
  {
    Regrouped(a, b, c, d);
    Regrouped(a, b + c, e, d + c);
  }

  /** The first pass of the loop, then the loop over the rest. */
  lemma RunUnfold(s: State, events: seq<Event>, i: nat)
    requires i < |events| && s.isCollecting
    ensures RunOf(s, events[i..]) == PassResult(
      RunOf(PassOf(s, events[i]).state, events[i + 1..]).state,
      PassOf(s, events[i]).made + RunOf(PassOf(s, events[i]).state, events[i + 1..]).made)
  {
    assert events[i..][0] == events[i];
    assert events[i..][1..] == events[i + 1..];
  }

  /** The loop resumed at event `i` in state `s`, after `made`, advances by one pass. */
  lemma RunAdvance(s0: State, events: seq<Event>, i: nat, s: State, made: seq<Sample>)
    requires i < |events| && s.isCollecting
    requires Resumes(s0, events, i, s, made)
    ensures var p := PassOf(s, events[i]); Resumes(s0, events, i + 1, p.state, made + p.made)
  {
    var p := PassOf(s, events[i]);
    RunUnfold(s, events, i);
    var rest := RunOf(p.state, events[i + 1..]).made;
    assert made + (p.made + rest) == (made + p.made) + rest;
  }

  /**
   * The notices of `start_collection` before a loop runs: the configured port,
   * then the scanned ports unless it opened, then the opening notice of the
   * loop it enters.
   */
  function BeginNotices(callback: Option<nat>, port: string, first: OpenOutcome,
                        scan: seq<(string, OpenOutcome)>): seq<Notice> {
    Attempt(callback, port, first)
      + (if first == Opened then [] else AttemptTrace(callback, scan, Tried(scan)))
      + (if first == Opened || FirstOpened(scan).Some? then Deliver(callback, Connected, CollectingRealData)
         else Deliver(callback, DemoRunning, DemoHint))
  }

  /** The fields when `start_collection` enters a loop: the real-data loop when a port opened, else the demo loop. */
  function BeginState(s: State, first: OpenOutcome, scan: seq<(string, OpenOutcome)>): State {
    var t := s.(isCollecting := true, notices := s.notices + BeginNotices(s.callback, s.port, first, scan));
    if first == Opened then t.(connection := Some(Handle(s.port, true)), mode := Real)
    else
      match FirstOpened(scan)
      case Some(k) => t.(port := scan[k].0, connection := Some(Handle(scan[k].0, true)), mode := Real)
      case None => t.(port := if scan == [] then s.port else scan[|scan| - 1].0, lastProbe := 0.0, mode := Demo)
  }

  class DataManager {
    var port: string
    var connection: Option<Handle>
    var isCollecting: bool
    var latest: Latest
    var callback: Option<nat>
    var notices: seq<Notice>
    /** The rows of `sensor_readings`. */
    var store: seq<StoreRow>
    /** The lines of the dated CSV file. */
    var csv: seq<CsvLine>
    var mode: Mode
    /** `last_arduino_check` of the demo loop. */
    var lastProbe: real

    /** Every reading `process_data` has handled, in order. */
    ghost var log: seq<Sample>
    /** The table and the CSV file as they were when the object was made. */
    ghost const store0: seq<StoreRow>
    ghost const csv0: seq<CsvLine>

    function Current(): State
      reads this
    {
      State(port, connection, isCollecting, latest, callback, notices, store, csv, mode, lastProbe)
    }

    /**
     * The sinks hold what was there before plus exactly what the processed
     * readings contribute, the slot holds the last reading, and the real-data
     * loop only runs over an open port.
     */
    ghost predicate Valid()
      reads this
    {
      && store == store0 + StoreImage(log)
      && csv == csv0 + CsvImage(log)
      && latest == LatestAfter(log)
      && (isCollecting && mode == Real ==> connection.Some? && connection.value.isOpen)
    }

    /**
     * A manager for `port` over a table that already holds `existing` rows
     * and a CSV file that is `csvFile` (`None` when there is no file yet).
     */
    constructor(port: string, existing: seq<StoreRow>, csvFile: Option<seq<CsvLine>>)
      ensures Valid()
      ensures Current() == State(port, None, false, NoReading, None, [], existing,
                                 InitCsvFile(csvFile), Idle, 0.0)
      ensures log == []
    {
      this.port := port;
      connection := None;
      isCollecting := false;
      latest := NoReading;
      callback := None;
      notices := [];
      store := existing;
      csv := InitCsvFile(csvFile);
      mode := Idle;
      lastProbe := 0.0;
      log := [];
      store0 := existing;
      csv0 := InitCsvFile(csvFile);
    }

    method RegisterStatusCallback(c: Option<nat>)
      modifies this
      ensures Current() == old(Current()).(callback := c)
      ensures log == old(log)
    {
      callback := c;
    }

    /** Calls the registered callback, if there is one. */
    method UpdateStatus(status: Status, message: Message)
      modifies this
      ensures Current() == old(Current()).(notices := old(notices) + Deliver(callback, status, message))
      ensures log == old(log)
    {
      notices := notices + Deliver(callback, status, message);
    }

    /** Opens `port`; only success replaces the connection. */
    method ConnectArduino(outcome: OpenOutcome) returns (ok: bool)
      modifies this
      ensures ok <==> outcome == Opened
      ensures connection == if ok then Some(Handle(port, true)) else old(connection)
      ensures notices == old(notices) + Attempt(callback, port, outcome)
      ensures port == old(port) && callback == old(callback) && isCollecting == old(isCollecting)
      ensures latest == old(latest) && store == old(store) && csv == old(csv)
      ensures mode == old(mode) && lastProbe == old(lastProbe)
      ensures log == old(log)
    {
      UpdateStatus(Connecting, ConnectingToArduino);
      match outcome
      case Opened =>
        connection := Some(Handle(port, true));
        UpdateStatus(Connected, ConnectedTo(port));
        ok := true;
      case Busy =>
        UpdateStatus(Error, PortBusy(port));
        ok := false;
      case SerialFailed =>
        UpdateStatus(Error, ConnectionFailed);
        ok := false;
      case OtherFailure =>
        UpdateStatus(Error, ConnectionError);
        ok := false;
    }

    /**
     * Tries the scanned ports in order, pointing `port` at each before the
     * attempt, and stops at the first that opens.
     */
    method AutoConnect(scan: seq<(string, OpenOutcome)>) returns (ok: bool)
      modifies this
      ensures ok <==> FirstOpened(scan).Some?
      ensures ok ==> port == scan[FirstOpened(scan).value].0 && connection == Some(Handle(port, true))
      ensures !ok ==> connection == old(connection)
      ensures !ok ==> port == if scan == [] then old(port) else scan[|scan| - 1].0
      ensures notices == old(notices) + AttemptTrace(callback, scan, Tried(scan))
      ensures callback == old(callback) && isCollecting == old(isCollecting) && latest == old(latest)
      ensures store == old(store) && csv == old(csv) && mode == old(mode) && lastProbe == old(lastProbe)
      ensures log == old(log)
    {
      var i := 0;
      while i < |scan|
        invariant 0 <= i <= |scan|
        invariant forall k :: 0 <= k < i ==> scan[k].1 != Opened
        invariant i == 0 ==> port == old(port)
        invariant i > 0 ==> port == scan[i - 1].0
        invariant notices == old(notices) + AttemptTrace(callback, scan, i)
        invariant connection == old(connection) && callback == old(callback)
        invariant isCollecting == old(isCollecting) && latest == old(latest) && mode == old(mode)
        invariant store == old(store) && csv == old(csv) && lastProbe == old(lastProbe)
        invariant log == old(log)
      {
        port := scan[i].0;
        ok := ConnectArduino(scan[i].1);
        if ok {
          assert FirstOpened(scan) == Some(i);
          assert Tried(scan) == i + 1;
          return;
        }
        assert scan[i].1 != Opened;
        i := i + 1;
      }
      assert FirstOpened(scan).None? && Tried(scan) == |scan|;
      ok := false;
    }

    /**
     * Processes one reading at time `now`: the slot always takes it; a
     * reading that is not all zeros adds a database row, and a CSV row too
     * unless it is synthetic.
     */
    method ProcessData(reading: Triple, isDemo: bool, now: real)
      requires Valid()
      modifies this
      ensures Valid()
      ensures log == old(log) + [Sample(reading, now, isDemo)]
      ensures Current() == Processed(old(Current()), Sample(reading, now, isDemo))
    {
      var sample := Sample(reading, now, isDemo);
      latest := Latest(reading.voltage, reading.temperature, reading.current, Some(now));
      if IsValid(reading) {
        StoreData(reading.voltage, reading.temperature, reading.current, now);
        if !isDemo {
          StoreCsvData(reading.voltage, reading.current, reading.temperature, now);
        } else {
          assert csv == old(csv) + [];
        }
      } else {
        assert store == old(store) + [] && csv == old(csv) + [];
      }
      ImagesAppend(store0, csv0, log, sample);
      log := log + [sample];
    }

    /** Inserts one row into `sensor_readings`. */
    method StoreData(voltage: real, temperature: real, current: real, timestamp: real)
      modifies this
      ensures Current() == old(Current()).(store := old(store) + [StoreRow(timestamp, voltage, temperature, current)])
      ensures log == old(log)
    {
      store := store + [StoreRow(timestamp, voltage, temperature, current)];
    }

    /** Appends one row to the CSV file, with its power column. */
    method StoreCsvData(voltage: real, current: real, temperature: real, timestamp: real)
      modifies this
      ensures Current() == old(Current()).(csv := old(csv) + [Row(timestamp, voltage, current, temperature, Power(voltage, current))])
      ensures log == old(log)
    {
      var power := Power(voltage, current);
      csv := csv + [Row(timestamp, voltage, current, temperature, power)];
    }

    /** The dispatch of one line in the real-data loop: only a reading reaches `process_data`. */
    method HandleLine(line: string, now: real)
      requires Valid()
      modifies this
      ensures Valid()
      ensures ClassifyLine(line).Reading? ==> log == old(log) + [Sample(ClassifyLine(line).t, now, false)]
      ensures !ClassifyLine(line).Reading? ==> log == old(log) && Current() == old(Current())
      ensures ClassifyLine(line).Reading? ==>
        Current() == Processed(old(Current()), Sample(ClassifyLine(line).t, now, false))
    {
      match ClassifyLine(line)
      case Reading(t) => ProcessData(t, false, now);
      case _ =>
    }

    /** Entering the demo loop. */
    method EnterDemo()
      modifies this
      ensures Current() == old(Current()).(
        notices := old(notices) + Deliver(callback, DemoRunning, DemoHint),
        isCollecting := true, lastProbe := 0.0, mode := Demo)
      ensures log == old(log)
    {
      UpdateStatus(DemoRunning, DemoHint);
      isCollecting := true;
      lastProbe := 0.0;
      mode := Demo;
    }

    /** Entering the real-data loop. */
    method EnterReal()
      modifies this
      ensures Current() == old(Current()).(
        notices := old(notices) + Deliver(callback, Connected, CollectingRealData), mode := Real)
      ensures log == old(log)
    {
      UpdateStatus(Connected, CollectingRealData);
      mode := Real;
    }

    /**
     * One pass of the real-data loop: a line that arrived is stripped and
     * dispatched; a failed read drops the connection and starts the demo loop.
     */
    method RealStep(now: real, read: ReadResult)
      requires Valid()
      modifies this
      ensures Valid()
      ensures mode == old(mode) || mode == Demo
      ensures read.NoData? ==> Current() == old(Current()) && log == old(log)
      ensures read.Received? && ClassifyLine(Strip(read.text)).Reading? ==>
        log == old(log) + [Sample(ClassifyLine(Strip(read.text)).t, now, false)]
      ensures read.Received? && !ClassifyLine(Strip(read.text)).Reading? ==> log == old(log)
      ensures read.Received? ==> Current() == old(Current()).(latest := latest, store := store, csv := csv)
      ensures read.ReadFailure? ==> log == old(log)
      ensures read.ReadFailure? ==> Current() == old(Current()).(
        connection := None, notices := old(notices) + Deliver(callback, DemoRunning, DemoHint),
        isCollecting := true, lastProbe := 0.0, mode := Demo)
      ensures Current() == RealPass(old(Current()), now, read).state
      ensures log == old(log) + RealPass(old(Current()), now, read).made
    {
      match read
      case NoData =>
      case Received(text) =>
        HandleLine(Strip(text), now);
      case ReadFailure =>
        connection := None;
        EnterDemo();
    }

    /**
     * The probe at the head of a demo pass at time `now`: when more than five
     * seconds have passed since the last probe it scans for the device, and
     * enters the real-data loop if a port opens (`switched`); a probe that
     * finds nothing moves the time of the last probe to `now`.
     */
    method Probe(now: real, scan: seq<(string, OpenOutcome)>) returns (switched: bool)
      requires Valid()
      modifies this
      ensures Valid() && log == old(log)
      ensures switched <==> now - old(lastProbe) > 5.0 && FirstOpened(scan).Some?
      ensures notices == old(notices) + if now - old(lastProbe) > 5.0 then ProbeNotices(callback, scan) else []
      ensures now - old(lastProbe) <= 5.0 ==>
        port == old(port) && connection == old(connection) && lastProbe == old(lastProbe)
      ensures switched ==>
        && mode == Real && lastProbe == old(lastProbe)
        && port == scan[FirstOpened(scan).value].0 && connection == Some(Handle(port, true))
      ensures now - old(lastProbe) > 5.0 && !switched ==>
        && lastProbe == now && connection == old(connection)
        && port == if scan == [] then old(port) else scan[|scan| - 1].0
      ensures !switched ==> mode == old(mode)
      ensures callback == old(callback) && isCollecting == old(isCollecting)
      ensures latest == old(latest) && store == old(store) && csv == old(csv)
      ensures Current() == Probed(old(Current()), now, scan)
    {
      switched := false;
      if now - lastProbe > 5.0 {
        var found := AutoConnect(scan);
        if found {
          EnterReal();
          switched := true;
          return;
        }
        lastProbe := now;
      }
    }

    /**
     * One pass of the demo loop at time `now`: the probe, and unless it
     * switched to the real-data loop, the clamped synthetic reading.
     */
    method DemoStep(now: real, scan: seq<(string, OpenOutcome)>, raw: Triple)
      requires Valid()
      modifies this
      ensures Valid()
      ensures notices == old(notices) + if now - old(lastProbe) > 5.0 then ProbeNotices(callback, scan) else []
      ensures now - old(lastProbe) <= 5.0 ==>
        port == old(port) && connection == old(connection) && lastProbe == old(lastProbe)
      ensures now - old(lastProbe) > 5.0 && FirstOpened(scan).Some? ==>
        && mode == Real && log == old(log) && lastProbe == old(lastProbe)
        && port == scan[FirstOpened(scan).value].0 && connection == Some(Handle(port, true))
      ensures now - old(lastProbe) > 5.0 && FirstOpened(scan).None? ==>
        && lastProbe == now && connection == old(connection)
        && port == if scan == [] then old(port) else scan[|scan| - 1].0
      ensures !(now - old(lastProbe) > 5.0 && FirstOpened(scan).Some?) ==>
        mode == old(mode) && log == old(log) + [Sample(ClampReading(raw), now, true)]
      ensures callback == old(callback) && isCollecting == old(isCollecting)
      ensures mode == old(mode) || mode == Real
      ensures Current() == DemoPass(old(Current()), now, scan, raw).state
      ensures log == old(log) + DemoPass(old(Current()), now, scan, raw).made
    {
      var switched := Probe(now, scan);
      if !switched {
        ProcessData(ClampReading(raw), true, now);
      }
    }

    /** `stop_collection`: the loops end at their next check, and an existing port is closed. */
    method StopCollection()
      modifies this
      ensures Current() == Stopped(old(Current()))
      ensures log == old(log)
    {
      isCollecting := false;
      if connection.Some? {
        connection := Some(connection.value.(isOpen := false));
      }
    }

    /**
     * One pass of the worker's loop for `e`: a stop request ends collection;
     * a tick runs one pass of the loop the worker is in. At most one reading
     * is processed, and it is the one `e` makes.
     */
    method Pass(e: Event)
      requires Valid() && mode != Idle
      modifies this
      ensures Valid() && mode != Idle
      ensures log != old(log) ==>
        |log| == |old(log)| + 1 && log == old(log) + [log[|old(log)|]] && FromEvent(log[|old(log)|], e)
      ensures e.StopRequest? ==> !isCollecting
      ensures Current() == PassOf(old(Current()), e).state
      ensures log == old(log) + PassOf(old(Current()), e).made
    {
      match e
      case StopRequest =>
        StopCollection();
      case Tick(now, read, scan, raw) =>
        if mode == Real {
          RealStep(now, read);
        } else {
          DemoStep(now, scan, raw);
        }
    }

    /**
     * The worker's loop over both modes, driven by `events` while collection
     * goes on. A stop request ends it. Every reading it processes comes from
     * its own event, in the order of the events (`origin` says which), so a
     * synthetic reading is always within the demo ranges.
     */
    method Run(events: seq<Event>) returns (ghost origin: seq<nat>)
      requires Valid()
      requires mode != Idle
      modifies this
      ensures Valid()
      ensures Current() == RunOf(old(Current()), events).state
      ensures log == old(log) + RunOf(old(Current()), events).made
      ensures Traced(old(log), log, events, origin)
      ensures forall j :: |old(log)| <= j < |log| && log[j].isDemo ==> InDemoRange(log[j].reading)
      ensures (exists j :: 0 <= j < |events| && events[j].StopRequest?) ==> !isCollecting
      ensures old(isCollecting) && (forall j :: 0 <= j < |events| ==> events[j].Tick?) ==> isCollecting
      ensures callback == old(callback)
      ensures |old(notices)| <= |notices| && notices[..|old(notices)|] == old(notices)
    {
      ghost var s0 := Current();
      ghost var made, stop;
      origin, made, stop := Loop(events);
      RunDone(s0, events, stop, Current(), made);
      RunKeepsNotices(s0, events);
      if old(isCollecting) && forall j :: 0 <= j < |events| ==> events[j].Tick? {
        RunWithoutStop(s0, events);
      }
      TracedDemoInRange(old(log), log, events, origin);
    }

    /**
     * The loop of `Run`: it ends at event `stop`, past the last event or
     * where collection stopped, with what `RunOf` leaves for the rest.
     */
    method Loop(events: seq<Event>) returns (ghost origin: seq<nat>, ghost made: seq<Sample>, ghost stop: nat)
      requires Valid() && mode != Idle
      modifies this
      ensures Valid() && mode != Idle
      ensures stop <= |events| && (stop == |events| || !isCollecting)
      ensures Traced(old(log), log, events, origin)
      ensures (exists j :: 0 <= j < |events| && events[j].StopRequest?) ==> !isCollecting
      ensures log == old(log) + made
      ensures Resumes(old(Current()), events, stop, Current(), made)
    {
      origin := [];
      made := [];
      var i := 0;
      while i < |events| && isCollecting
        invariant 0 <= i <= |events|
        invariant Valid()
        invariant mode != Idle
        invariant Traced(old(log), log, events, origin)
        invariant forall j :: 0 <= j < |origin| ==> origin[j] < i
        invariant isCollecting ==> forall j :: 0 <= j < i ==> events[j].Tick?
        invariant log == old(log) + made
        invariant Resumes(old(Current()), events, i, Current(), made)
        decreases |events| - i
      {
        origin, made := TracedPass(events, i, old(Current()), old(log), origin, made);
        i := i + 1;
      }
      stop := i;
    }

    /**
     * The pass of `Run` for event `i`: it extends the trace of the readings
     * made since `log0`, and the loop started in `s0` still ends where
     * `RunOf` says.
     */
    method TracedPass(events: seq<Event>, i: nat, ghost s0: State, ghost log0: seq<Sample>,
                      ghost origin: seq<nat>, ghost made: seq<Sample>)
      returns (ghost origin': seq<nat>, ghost made': seq<Sample>)
      requires i < |events| && isCollecting && Valid() && mode != Idle
      requires Traced(log0, log, events, origin)
      requires forall j :: 0 <= j < |origin| ==> origin[j] < i
      requires forall j :: 0 <= j < i ==> events[j].Tick?
      requires log == log0 + made
      requires Resumes(s0, events, i, Current(), made)
      modifies this
      ensures Valid() && mode != Idle
      ensures Traced(log0, log, events, origin')
      ensures forall j :: 0 <= j < |origin'| ==> origin'[j] < i + 1
      ensures isCollecting ==> forall j :: 0 <= j < i + 1 ==> events[j].Tick?
      ensures log == log0 + made'
      ensures Resumes(s0, events, i + 1, Current(), made')
    {
      ghost var s, before := Current(), log;
      RunAdvance(s0, events, i, s, made);
      Pass(events[i]);
      ghost var p := PassOf(s, events[i]).made;
      made' := made + p;
      Regrouped(log0, made, p, before);
      origin' := origin;
      if log != before {
        TracedStep(log0, before, events, origin, log[|before|], i);
        origin' := origin + [i];
      }
    }

    /**
     * The part of `start_collection` before a loop runs: the configured port,
     * then the scanned ports, then the opening notice of the real-data loop
     * when a port opened and of the demo loop when none did.
     */
    method Begin(first: OpenOutcome, scan: seq<(string, OpenOutcome)>)
      requires Valid()
      modifies this
      ensures Valid() && log == old(log)
      ensures isCollecting
      ensures mode == Real <==> first == Opened || FirstOpened(scan).Some?
      ensures mode == Real || mode == Demo
      ensures first == Opened ==> port == old(port) && connection == Some(Handle(old(port), true))
      ensures first != Opened && FirstOpened(scan).Some? ==>
        port == scan[FirstOpened(scan).value].0 && connection == Some(Handle(port, true))
      ensures first != Opened && FirstOpened(scan).None? ==>
        connection == old(connection) && port == if scan == [] then old(port) else scan[|scan| - 1].0
      ensures notices == old(notices) + BeginNotices(callback, old(port), first, scan)
      ensures callback == old(callback) && latest == old(latest) && store == old(store) && csv == old(csv)
      ensures lastProbe == if mode == Demo then 0.0 else old(lastProbe)
      ensures Current() == BeginState(old(Current()), first, scan)
    {
      ghost var s0 := Current();
      ghost var attempt := Attempt(callback, port, first);
      BeginStateFields(s0, first, scan);
      isCollecting := true;
      var ok := ConnectArduino(first);
      ghost var tried := notices;
      if ok {
        EnterReal();
        ghost var last := Deliver(callback, Connected, CollectingRealData);
        assert attempt + [] == attempt;
        Regrouped(s0.notices, attempt, last, tried);
        assert Current() == BeginState(s0, first, scan);
        return;
      }
      ghost var trace := AttemptTrace(callback, scan, Tried(scan));
      ok := AutoConnect(scan);
      ghost var last := if ok then Deliver(callback, Connected, CollectingRealData)
                        else Deliver(callback, DemoRunning, DemoHint);
      RegroupedTwice(s0.notices, attempt, trace, last, tried);
      if ok {
        EnterReal();
      } else {
        EnterDemo();
      }
      assert Current() == BeginState(s0, first, scan);
    }

    /**
     * `start_collection`: `Begin`, then the loop it chose (`chosen`), driven
     * by `events`. The notices start with those of `Begin`, and every reading
     * processed comes from its own event, in order.
     */
    method StartCollection(first: OpenOutcome, scan: seq<(string, OpenOutcome)>, events: seq<Event>)
      returns (ghost chosen: Mode, ghost origin: seq<nat>)
      requires Valid()
      modifies this
      ensures Valid()
      ensures chosen == Real <==> first == Opened || FirstOpened(scan).Some?
      ensures chosen == Real || chosen == Demo
      ensures chosen == BeginState(old(Current()), first, scan).mode
      ensures Current() == RunOf(BeginState(old(Current()), first, scan), events).state
      ensures log == old(log) + RunOf(BeginState(old(Current()), first, scan), events).made
      ensures events == [] ==> Current() == BeginState(old(Current()), first, scan) && log == old(log)
      ensures var b := BeginNotices(old(callback), old(port), first, scan);
        |old(notices)| + |b| <= |notices| && notices[..|old(notices)| + |b|] == old(notices) + b
      ensures Traced(old(log), log, events, origin)
      ensures forall j :: |old(log)| <= j < |log| && log[j].isDemo ==> InDemoRange(log[j].reading)
      ensures (exists j :: 0 <= j < |events| && events[j].StopRequest?) ==> !isCollecting
      ensures (forall j :: 0 <= j < |events| ==> events[j].Tick?) ==> isCollecting
    {
      ghost var b := BeginNotices(callback, port, first, scan);
      Begin(first, scan);
      ghost var begun := notices;
      assert begun == old(notices) + b;
      chosen := mode;
      origin := Run(events);
      assert notices[..|begun|] == begun;
    }

    /** A copy of the slot: zeros and no timestamp until the first reading, then the last reading. */
    method GetLatestData() returns (r: Latest)
      requires Valid()
      ensures r == LatestAfter(log)
      ensures r.timestamp.None? <==> log == []
    {
      r := latest;
    }

    /**
     * `get_historical_data(limit)`: the newest `limit` rows, newest first (all
     * rows for a negative limit); nothing for a `None` limit or when the
     * database cannot be read (`fails`).
     */
    method GetHistoricalData(limit: Option<int>, fails: bool) returns (rows: seq<StoreRow>)
      requires Valid()
      ensures rows == HistoricalRows(store, limit, fails)
      ensures fails || limit.None? ==> rows == []
      ensures !fails && limit.Some? ==>
        |rows| == if limit.value < 0 || limit.value >= |store| then |store| else limit.value
      ensures SortedDesc(rows)
      ensures multiset(rows) <= multiset(store)
      ensures forall r :: r in rows ==> r in store0 || StoredFrom(log, r)
    {
      if fails || limit.None? {
        return [];
      }
      rows := Query(store, limit.value);
      QuerySpec(store, limit.value);
      StoreRowsFromValidSamples(log);
      forall r | r in rows
        ensures r in store0 || StoredFrom(log, r)
      {
        assert r in multiset(store);
        var k :| 0 <= k < |store| && store[k] == r;
        if k >= |store0| {
          assert store[k] == StoreImage(log)[k - |store0|];
        }
      }
    }

    /** `get_historical_data()` with its default limit of 100 rows. */
    method GetRecentData(fails: bool) returns (rows: seq<StoreRow>)
      requires Valid()
      ensures rows == HistoricalRows(store, Some(100), fails)
      ensures !fails ==> |rows| == if |store| <= 100 then |store| else 100
      ensures SortedDesc(rows)
    {
      rows := GetHistoricalData(Some(100), fails);
    }
  }
}
