/** The scanner session (raspberry-scanner/scanner_service.py, `ScannerSession`): start and stop
    requests racing with the reader thread, which opens, installs, reads and records. Each lock-held
    region is one step; so is each call outside the lock. */
module ScannerSession {
  import opened Options

  type ReaderId = nat
  type ThreadId = nat

  datatype ScannerState = NotConfigured | Stopped | WaitingForScanner | Connected

  datatype Reading = Reading(sequence: nat, value: string, at: real)

  /** The fields the lock guards. */
  datatype Session = Session(
    requested: bool,
    generation: nat,
    reader: Option<ReaderId>,
    state: ScannerState,
    sequence: nat,
    readings: seq<Reading>)

  datatype Config = Config(configured: bool, maxReadings: nat)

  function Last<T>(n: nat, xs: seq<T>): seq<T> {
    if |xs| <= n then xs else xs[|xs| - n..]
  }

  /** The readings that `values` become, numbered from `count + 1`. */
  function Numbered(count: nat, values: seq<string>, now: real): seq<Reading> {
    seq(|values|, i requires 0 <= i < |values| => Reading(count + i + 1, values[i], now))
  }

  // ----- critical sections -----

  function Fresh(cfg: Config): Session {
    Session(false, 0, None, if cfg.configured then Stopped else NotConfigured, 0, [])
  }

  /** `start` up to the thread check. */
  function Started(cfg: Config, s: Session): Session {
    if !cfg.configured then s.(state := NotConfigured)
    else if s.requested then s
    else s.(requested := true, generation := s.generation + 1, state := WaitingForScanner)
  }

  function StoppedBy(cfg: Config, s: Session): Session {
    s.(requested := false, generation := s.generation + 1, reader := None,
       state := if cfg.configured then Stopped else NotConfigured)
  }

  function Installed(s: Session, r: ReaderId): Session {
    if s.requested then s.(reader := Some(r), state := Connected) else s
  }

  function WaitingAfterError(s: Session): Session {
    if s.requested then s.(state := WaitingForScanner) else s
  }

  function ClearedAfterError(s: Session, r: ReaderId, readerGeneration: int): Session {
    var cleared := if s.reader == Some(r) then s.(reader := None) else s;
    if s.requested && s.generation == readerGeneration then cleared.(state := WaitingForScanner) else cleared
  }

  predicate Accepts(s: Session, readerGeneration: int) {
    s.requested && s.generation == readerGeneration
  }

  function Recorded(cfg: Config, s: Session, values: seq<string>, readerGeneration: int, now: real): Session {
    if !Accepts(s, readerGeneration) then s
    else s.(sequence := s.sequence + |values|,
            readings := Last(cfg.maxReadings, s.readings + Numbered(s.sequence, values, now)))
  }

  lemma LastOfLast<T>(n: nat, xs: seq<T>, ys: seq<T>)
    ensures Last(n, Last(n, xs) + ys) == Last(n, xs + ys)
  {
    if |xs| > n {
      assert Last(n, xs) + ys == (xs + ys)[|xs| - n..];
    }
  }

  class Scanner {
    const cfg: Config
    var requested: bool
    var generation: nat
    var reader: Option<ReaderId>
    var state: ScannerState
    var sequence: nat
    var readings: seq<Reading>

    ghost function View(): Session
      reads this
    {
      Session(requested, generation, reader, state, sequence, readings)
    }

    constructor (cfg: Config)
      ensures this.cfg == cfg && View() == Fresh(cfg)
    {
      this.cfg := cfg;
      requested, generation, reader := false, 0, None;
      state := if cfg.configured then Stopped else NotConfigured;
      sequence, readings := 0, [];
    }

    /** True when a reader thread has to be created. */
    method Start(threadAlive: bool) returns (spawn: bool)
      modifies this
      ensures View() == Started(cfg, old(View()))
      ensures spawn == (cfg.configured && !threadAlive)
    {
      if !cfg.configured {
        state := NotConfigured;
        return false;
      }
      if !requested {
        requested := true;
        generation := generation + 1;
        state := WaitingForScanner;
      }
      spawn := !threadAlive;
    }

    /** The reader to close once the lock is released. */
    method Stop() returns (toClose: Option<ReaderId>)
      modifies this
      ensures View() == StoppedBy(cfg, old(View())) && toClose == old(reader)
    {
      requested := false;
      generation := generation + 1;
      toClose := reader;
      reader := None;
      state := if cfg.configured then Stopped else NotConfigured;
    }

    /** The reader thread puts its new reader in place, or must close it and return. */
    method Install(r: ReaderId) returns (readerGeneration: Option<nat>)
      modifies this
      ensures View() == Installed(old(View()), r)
      ensures readerGeneration == if old(requested) then Some(generation) else None
    {
      if !requested {
        return None;
      }
      reader := Some(r);
      state := Connected;
      readerGeneration := Some(generation);
    }

    method SetWaitingError()
      modifies this
      ensures View() == WaitingAfterError(old(View()))
    {
      if requested { state := WaitingForScanner; }
    }

    method ReaderFailed(r: ReaderId, readerGeneration: int)
      modifies this
      ensures View() == ClearedAfterError(old(View()), r, readerGeneration)
    {
      if reader == Some(r) { reader := None; }
      if requested && generation == readerGeneration { state := WaitingForScanner; }
    }

    /** A bounded deque: appending to a full one drops its oldest reading. */
    method Append(reading: Reading)
      modifies this`readings
      ensures readings == Last(cfg.maxReadings, old(readings) + [reading])
    {
      readings := readings + [reading];
      if |readings| > cfg.maxReadings {
        readings := readings[|readings| - cfg.maxReadings..];
      }
    }

    method Record(values: seq<string>, readerGeneration: int, now: real)
      requires |readings| <= cfg.maxReadings
      modifies this
      ensures View() == Recorded(cfg, old(View()), values, readerGeneration, now)
    {
      hide Last, Numbered;
      if values == [] {
        RecordedNothing(cfg, View(), readerGeneration, now);
        return;
      }
      if !requested || generation != readerGeneration {
        return;
      }
      ghost var before := readings;
      ghost var all := Numbered(sequence, values, now);
      NumberedLength(sequence, values, now);
      assert before + all[..0] == before;
      LastOfShort(cfg.maxReadings, before);
      for i := 0 to |values|
        invariant sequence == old(sequence) + i
        invariant readings == Last(cfg.maxReadings, before + all[..i])
        invariant requested == old(requested) && generation == old(generation)
        invariant reader == old(reader) && state == old(state)
      {
        NumberedAt(old(sequence), values, now, i);
        LastAppend(cfg.maxReadings, before, all, i);
        sequence := sequence + 1;
        Append(Reading(sequence, values[i], now));
      }
      assert all[..|values|] == all;
    }
  }

  lemma NumberedLength(count: nat, values: seq<string>, now: real)
    ensures |Numbered(count, values, now)| == |values|
  {
  }

  lemma NumberedAt(count: nat, values: seq<string>, now: real, i: nat)
    requires i < |values|
    ensures |Numbered(count, values, now)| == |values|
    ensures Numbered(count, values, now)[i] == Reading(count + i + 1, values[i], now)
  {
  }

  lemma LastOfShort<T>(n: nat, xs: seq<T>)
    requires |xs| <= n
    ensures Last(n, xs) == xs
  {
  }

  lemma LastAppend<T>(n: nat, before: seq<T>, all: seq<T>, i: nat)
    requires i < |all|
    ensures Last(n, Last(n, before + all[..i]) + [all[i]]) == Last(n, before + all[..i + 1])
  {
    LastOfLast(n, before + all[..i], [all[i]]);
    assert before + all[..i] + [all[i]] == before + all[..i + 1];
  }

  lemma RecordedNothing(cfg: Config, s: Session, readerGeneration: int, now: real)
    requires |s.readings| <= cfg.maxReadings
    ensures Recorded(cfg, s, [], readerGeneration, now) == s
  {
    assert s.readings + Numbered(s.sequence, [], now) == s.readings;
  }

  // ----- the reader thread -----

  datatype Pc =
    | Top
    | Opening                                              // calling the factory
    | Installing(reader: ReaderId)                         // opened, before the lock
    | Reads(reader: ReaderId)
    | Records(reader: ReaderId, values: seq<string>)
    | Closing(reader: ReaderId)                            // the read raised
    | Clearing(reader: ReaderId)                           // closed after an error, before the lock
    | Finished                                             // `_run` is over, the thread not yet gone

  datatype Thread = Thread(pc: Pc, readerGeneration: int, alive: bool)

  datatype Stamp = Stamp(generation: nat, stops: nat)
  datatype Logged = Logged(reading: Reading, reader: ReaderId, stops: nat)

  datatype System = System(
    s: Session,
    threads: map<ThreadId, Thread>,
    current: Option<ThreadId>,
    stopping: set<ReaderId>,            // taken by a stop that has yet to close them
    seen: set<ReaderId>,
    closed: set<ReaderId>,
    stops: nat,                         // stop requests so far
    installs: map<ReaderId, Stamp>,     // when each reader was installed
    log: seq<Logged>)                   // everything ever recorded

  datatype Event =
    | DoStart(t: ThreadId)
    | DoStop
    | CloseStopped(r: ReaderId)
    | Look(t: ThreadId)
    | OpenFailed(t: ThreadId)
    | Opened(t: ThreadId, r: ReaderId)
    | DoInstall(t: ThreadId)
    | Got(t: ThreadId, values: seq<string>)
    | ReadFailed(t: ThreadId)
    | CloseFailed(t: ThreadId, raises: bool)
    | Clear(t: ThreadId)
    | DoRecord(t: ThreadId, now: real)
    | Exit(t: ThreadId)

  function Initial(cfg: Config): System {
    System(Fresh(cfg), map[], None, {}, {}, {}, 0, map[], [])
  }

  predicate At(s: System, t: ThreadId, pc: Pc) {
    t in s.threads && s.threads[t].alive && s.threads[t].pc == pc
  }

  predicate Enabled(s: System, e: Event) {
    match e
    case DoStart(t) => t !in s.threads
    case DoStop => true
    case CloseStopped(r) => r in s.stopping
    case Look(t) => At(s, t, Top)
    case OpenFailed(t) => At(s, t, Opening)
    case Opened(t, r) => At(s, t, Opening) && r !in s.seen
    case DoInstall(t) => t in s.threads && s.threads[t].alive && s.threads[t].pc.Installing?
    case Got(t, _) => t in s.threads && s.threads[t].alive && s.threads[t].pc.Reads?
    case ReadFailed(t) => t in s.threads && s.threads[t].alive && s.threads[t].pc.Reads?
    case CloseFailed(t, _) => t in s.threads && s.threads[t].alive && s.threads[t].pc.Closing?
    case Clear(t) => t in s.threads && s.threads[t].alive && s.threads[t].pc.Clearing?
    case DoRecord(t, _) => t in s.threads && s.threads[t].alive && s.threads[t].pc.Records?
    case Exit(t) => At(s, t, Finished)
  }

  function GoTo(s: System, t: ThreadId, pc: Pc): System
    requires t in s.threads
  {
    s.(threads := s.threads[t := s.threads[t].(pc := pc)])
  }

  predicate ThreadAlive(s: System) {
    s.current.Some? && s.current.value in s.threads && s.threads[s.current.value].alive
  }

  function StepStart(cfg: Config, s: System, t: ThreadId): System {
    var after := s.(s := Started(cfg, s.s));
    if cfg.configured && !ThreadAlive(s)
    then after.(threads := s.threads[t := Thread(Top, -1, true)], current := Some(t))
    else after
  }

  function StepStop(cfg: Config, s: System): System {
    s.(s := StoppedBy(cfg, s.s), stops := s.stops + 1,
       stopping := s.stopping + (if s.s.reader.Some? then {s.s.reader.value} else {}))
  }

  function StepLook(s: System, t: ThreadId): System
    requires t in s.threads
  {
    GoTo(s, t, if !s.s.requested then Finished else if s.s.reader.None? then Opening else Reads(s.s.reader.value))
  }

  function StepInstall(s: System, t: ThreadId): System
    requires t in s.threads && s.threads[t].pc.Installing?
  {
    var r := s.threads[t].pc.reader;
    if !s.s.requested then GoTo(s, t, Finished).(closed := s.closed + {r})
    else s.(s := Installed(s.s, r),
            threads := s.threads[t := Thread(Reads(r), s.s.generation, s.threads[t].alive)],
            installs := s.installs[r := Stamp(s.s.generation, s.stops)])
  }

  function StepRecord(cfg: Config, s: System, t: ThreadId, now: real): System
    requires t in s.threads && s.threads[t].pc.Records?
  {
    var Records(r, values) := s.threads[t].pc;
    var generation := s.threads[t].readerGeneration;
    var batch := Numbered(s.s.sequence, values, now);
    GoTo(s, t, Top).(
      s := Recorded(cfg, s.s, values, generation, now),
      log := if Accepts(s.s, generation)
             then s.log + seq(|batch|, i requires 0 <= i < |batch| => Logged(batch[i], r, s.stops))
             else s.log)
  }

  function Next(cfg: Config, s: System, e: Event): System
    requires Enabled(s, e)
  {
    match e
    case DoStart(t) => StepStart(cfg, s, t)
    case DoStop => StepStop(cfg, s)
    case CloseStopped(r) => s.(stopping := s.stopping - {r}, closed := s.closed + {r})
    case Look(t) => StepLook(s, t)
    case OpenFailed(t) => GoTo(s, t, Top).(s := WaitingAfterError(s.s))
    case Opened(t, r) => GoTo(s, t, Installing(r)).(seen := s.seen + {r})
    case DoInstall(t) => StepInstall(s, t)
    case Got(t, values) => GoTo(s, t, Records(s.threads[t].pc.reader, values))
    case ReadFailed(t) => GoTo(s, t, Closing(s.threads[t].pc.reader))
    case CloseFailed(t, raises) =>
      var r := s.threads[t].pc.reader;
      GoTo(s, t, if raises then Finished else Clearing(r)).(closed := s.closed + {r})
    case Clear(t) =>
      GoTo(s, t, Top).(s := ClearedAfterError(s.s, s.threads[t].pc.reader, s.threads[t].readerGeneration))
    case DoRecord(t, now) => StepRecord(cfg, s, t, now)
    case Exit(t) => s.(threads := s.threads[t := s.threads[t].(alive := false)])
  }

  ghost predicate IsRun(cfg: Config, s: System, es: seq<Event>)
    decreases |es|
  {
    es == [] || (Enabled(s, es[0]) && IsRun(cfg, Next(cfg, s, es[0]), es[1..]))
  }

  ghost function After(cfg: Config, s: System, es: seq<Event>): System
    requires IsRun(cfg, s, es)
    decreases |es|
  {
    if es == [] then s else After(cfg, Next(cfg, s, es[0]), es[1..])
  }

  // ----- what every run keeps -----

  /** Only the session's own thread can be alive. */
  ghost predicate OneThread(s: System) {
    && (forall t :: t in s.threads && s.threads[t].alive ==> s.current == Some(t))
    && (s.current.Some? ==> s.current.value in s.threads)
  }

  predicate HasReader(pc: Pc) {
    pc.Installing? || pc.Reads? || pc.Records? || pc.Closing? || pc.Clearing?
  }

  predicate UsesReader(pc: Pc) {
    pc.Reads? || pc.Records? || pc.Closing? || pc.Clearing?
  }

  /** An installed reader belongs to a wanted session of its own generation. */
  ghost predicate InstalledOk(s: System) {
    s.s.reader.Some? ==>
      && s.s.requested && s.s.state == Connected
      && s.s.reader.value in s.installs
      && s.installs[s.s.reader.value].generation == s.s.generation
  }

  predicate StateOk(cfg: Config, s: Session) {
    && (s.requested <==> s.state == WaitingForScanner || s.state == Connected)
    && (s.requested ==> cfg.configured)
    && (s.state == NotConfigured <==> !cfg.configured)
  }

  /** Generations and stops only grow, and every stop takes a generation. */
  ghost predicate StampsOk(s: System) {
    forall r :: r in s.installs ==>
      && s.installs[r].generation <= s.s.generation
      && s.installs[r].stops <= s.stops
      && s.stops - s.installs[r].stops <= s.s.generation - s.installs[r].generation
  }

  ghost predicate ThreadOk(s: System, t: ThreadId)
    requires t in s.threads
  {
    var (pc, g) := (s.threads[t].pc, s.threads[t].readerGeneration);
    s.threads[t].alive ==>
      && g <= s.s.generation
      && (s.s.reader.Some? ==> g == -1 || g == s.s.generation)
      && (s.s.reader.Some? && UsesReader(pc) && g == s.s.generation ==> s.s.reader.value == pc.reader)
      && (pc.Opening? || pc.Installing? ==> s.s.reader.None?)
      && (UsesReader(pc) && g != -1 ==> pc.reader in s.installs && s.installs[pc.reader].generation == g)
      && (pc.Installing? ==> pc.reader !in s.installs)
  }

  ghost predicate ThreadsOk(s: System) {
    forall t :: t in s.threads ==> ThreadOk(s, t)
  }

  function Readings(log: seq<Logged>): seq<Reading> {
    seq(|log|, i requires 0 <= i < |log| => log[i].reading)
  }

  ghost predicate LogOk(cfg: Config, s: System) {
    && s.s.sequence == |s.log|
    && s.s.readings == Last(cfg.maxReadings, Readings(s.log))
    && (forall i :: 0 <= i < |s.log| ==> s.log[i].reading.sequence == i + 1)
    && (forall i :: 0 <= i < |s.log| ==>
          s.log[i].reader in s.installs && s.installs[s.log[i].reader].stops == s.log[i].stops)
  }

  /** Somebody will see to this reader: it is installed, or a stop or the opening thread has it. */
  ghost predicate Tended(s: System, r: ReaderId) {
    || r in s.closed || s.s.reader == Some(r) || r in s.stopping
    || exists t :: t in s.threads && s.threads[t].alive && s.threads[t].pc == Installing(r)
  }

  /** Every reader ever opened has been closed or is tended. */
  ghost predicate NoLeak(s: System) {
    && s.installs.Keys <= s.seen
    && (forall r :: r in s.seen ==> Tended(s, r))
    && (forall t :: t in s.threads && HasReader(s.threads[t].pc) ==> s.threads[t].pc.reader in s.seen)
    && (forall t :: t in s.threads && s.threads[t].pc.Clearing? ==> s.threads[t].pc.reader in s.closed)
  }

  ghost predicate Inv(cfg: Config, s: System) {
    && OneThread(s) && InstalledOk(s) && StateOk(cfg, s.s) && StampsOk(s)
    && ThreadsOk(s) && LogOk(cfg, s) && NoLeak(s)
  }

  lemma InitiallyInv(cfg: Config)
    ensures Inv(cfg, Initial(cfg))
  {
  }

  lemma KeepsOneThread(cfg: Config, s: System, e: Event)
    requires OneThread(s) && Enabled(s, e)
    ensures OneThread(Next(cfg, s, e))
  {
  }

  lemma KeepsInstalled(cfg: Config, s: System, e: Event)
    requires OneThread(s) && InstalledOk(s) && StateOk(cfg, s.s) && ThreadsOk(s) && Enabled(s, e)
    ensures InstalledOk(Next(cfg, s, e)) && StateOk(cfg, Next(cfg, s, e).s)
  {
  }

  lemma KeepsStamps(cfg: Config, s: System, e: Event)
    requires StampsOk(s) && Enabled(s, e)
    ensures StampsOk(Next(cfg, s, e))
  {
  }

  lemma KeepsThreads(cfg: Config, s: System, e: Event)
    requires OneThread(s) && InstalledOk(s) && StateOk(cfg, s.s) && StampsOk(s) && ThreadsOk(s) && NoLeak(s) && Enabled(s, e)
    ensures ThreadsOk(Next(cfg, s, e))
  {
  }

  lemma KeepsLog(cfg: Config, s: System, e: Event)
    requires StampsOk(s) && ThreadsOk(s) && LogOk(cfg, s) && NoLeak(s) && Enabled(s, e)
    ensures LogOk(cfg, Next(cfg, s, e))
  {
    hide Last;
    match e {
      case DoRecord(t, now) => RecordKeepsLog(cfg, s, t, now);
      case DoInstall(t) => assert s.threads[t].pc.reader !in s.installs; assert ThreadOk(s, t);
      case _ =>
    }
  }

  lemma RecordKeepsLog(cfg: Config, s: System, t: ThreadId, now: real)
    requires StampsOk(s) && ThreadsOk(s) && LogOk(cfg, s) && Enabled(s, DoRecord(t, now))
    ensures LogOk(cfg, StepRecord(cfg, s, t, now))
  {
    hide Last, ThreadsOk;
    assert ThreadOk(s, t) by { ThreadIsOk(s, t); }
    var after := StepRecord(cfg, s, t, now);
    var Records(r, values) := s.threads[t].pc;
    if Accepts(s.s, s.threads[t].readerGeneration) {
      var batch := Numbered(s.s.sequence, values, now);
      LastOfLast(cfg.maxReadings, Readings(s.log), batch);
      assert Readings(after.log) == Readings(s.log) + batch;
      assert s.installs[r].stops == s.stops;
    }
  }

  lemma ThreadIsOk(s: System, t: ThreadId)
    requires ThreadsOk(s) && t in s.threads
    ensures ThreadOk(s, t)
  {
  }

  lemma StaysTended(cfg: Config, s: System, e: Event, r: ReaderId)
    requires OneThread(s) && InstalledOk(s) && ThreadsOk(s) && NoLeak(s) && Enabled(s, e)
    requires Tended(s, r)
    ensures Tended(Next(cfg, s, e), r)
  {
    hide ThreadsOk, InstalledOk;
    var after := Next(cfg, s, e);
    if e.DoInstall? { assert ThreadOk(s, e.t) by { ThreadIsOk(s, e.t); } }
    if t :| t in s.threads && s.threads[t].alive && s.threads[t].pc == Installing(r) {
      assert ThreadOk(s, t) by { ThreadIsOk(s, t); }
      assert t in after.threads;
    }
  }

  lemma KeepsNoLeak(cfg: Config, s: System, e: Event)
    requires OneThread(s) && InstalledOk(s) && ThreadsOk(s) && NoLeak(s) && Enabled(s, e)
    ensures NoLeak(Next(cfg, s, e))
  {
    hide ThreadsOk, Tended;
    var after := Next(cfg, s, e);
    forall r | r in after.seen ensures Tended(after, r) {
      if r in s.seen { StaysTended(cfg, s, e, r); } else { NewIsTended(cfg, s, e, r); }
    }
  }

  lemma NewIsTended(cfg: Config, s: System, e: Event, r: ReaderId)
    requires Enabled(s, e) && r !in s.seen && r in Next(cfg, s, e).seen
    ensures Tended(Next(cfg, s, e), r)
  {
    var after := Next(cfg, s, e);
    if e.Opened? { assert after.threads[e.t].pc == Installing(r); }
  }

  // ----- over whole runs -----

  lemma {:induction false} RunKeepsInv(cfg: Config, s: System, es: seq<Event>)
    requires Inv(cfg, s) && IsRun(cfg, s, es)
    ensures Inv(cfg, After(cfg, s, es))
    decreases |es|
  {
    hide OneThread, InstalledOk, StateOk, StampsOk, ThreadsOk, LogOk, NoLeak, Next;
    if es != [] {
      KeepsOneThread(cfg, s, es[0]);
      KeepsInstalled(cfg, s, es[0]);
      KeepsStamps(cfg, s, es[0]);
      KeepsThreads(cfg, s, es[0]);
      KeepsLog(cfg, s, es[0]);
      KeepsNoLeak(cfg, s, es[0]);
      RunKeepsInv(cfg, Next(cfg, s, es[0]), es[1..]);
    }
  }

  ghost predicate Reachable(cfg: Config, s: System) {
    exists es :: IsRun(cfg, Initial(cfg), es) && After(cfg, Initial(cfg), es) == s
  }

  lemma ReachableInv(cfg: Config, s: System)
    requires Reachable(cfg, s)
    ensures Inv(cfg, s)
  {
    hide OneThread, InstalledOk, StateOk, StampsOk, ThreadsOk, LogOk, NoLeak, Next;
    var es :| IsRun(cfg, Initial(cfg), es) && After(cfg, Initial(cfg), es) == s;
    InitiallyInv(cfg);
    RunKeepsInv(cfg, Initial(cfg), es);
  }

  /** At most one reader thread is alive. */
  lemma OneReaderThread(cfg: Config, s: System, t: ThreadId, u: ThreadId)
    requires Reachable(cfg, s)
    requires t in s.threads && u in s.threads && s.threads[t].alive && s.threads[u].alive
    ensures t == u
  {
    ReachableInv(cfg, s);
  }

  /** The installed reader was installed in the session's own generation, with no stop since. */
  lemma InstalledReaderIsCurrent(cfg: Config, s: System)
    requires Reachable(cfg, s) && s.s.reader.Some?
    ensures s.s.requested && s.s.state == Connected
    ensures s.s.reader.value in s.installs
    ensures s.installs[s.s.reader.value] == Stamp(s.s.generation, s.stops)
  {
    ReachableInv(cfg, s);
  }

  /** A step that records something records values of a reader after whose install no stop came. */
  lemma NothingIsRecordedAfterAStop(cfg: Config, s: System, e: Event)
    requires Reachable(cfg, s) && Enabled(s, e)
    ensures s.log <= Next(cfg, s, e).log
    ensures s.log != Next(cfg, s, e).log ==>
      && e.DoRecord? && s.s.requested
      && var r := s.threads[e.t].pc.reader;
         r in s.installs && s.installs[r] == Stamp(s.s.generation, s.stops)
  {
    ReachableInv(cfg, s);
    if e.DoRecord? { ThreadIsOk(s, e.t); }
  }

  /** `count` is the number of values ever recorded, they are numbered 1, 2, ..., and the readings are
      exactly the last `max_readings` of them. */
  lemma CountIsExact(cfg: Config, s: System)
    requires Reachable(cfg, s)
    ensures s.s.sequence == |s.log|
    ensures s.s.readings == Last(cfg.maxReadings, Readings(s.log))
    ensures forall i :: 0 <= i < |s.log| ==> s.log[i].reading.sequence == i + 1
  {
    hide OneThread, InstalledOk, StateOk, StampsOk, ThreadsOk, NoLeak, Last;
    ReachableInv(cfg, s);
  }

  /** Once no reader thread is alive and every stop has closed what it took, the only reader not closed
      is the installed one. */
  lemma NoReaderLeaks(cfg: Config, s: System)
    requires Reachable(cfg, s)
    requires s.stopping == {} && forall t :: t in s.threads ==> !s.threads[t].alive
    ensures forall r :: r in s.seen ==> r in s.closed || s.s.reader == Some(r)
  {
    hide OneThread, InstalledOk, StateOk, StampsOk, ThreadsOk, LogOk;
    ReachableInv(cfg, s);
    forall r | r in s.seen ensures r in s.closed || s.s.reader == Some(r) {
      assert Tended(s, r);
    }
  }

  /** After a stop nothing is recorded and no reader is installed until the next start. */
  lemma {:induction false} StoppedStaysSilent(cfg: Config, s: System, es: seq<Event>)
    requires IsRun(cfg, s, es) && !s.s.requested
    requires forall i :: 0 <= i < |es| ==> !es[i].DoStart?
    ensures !After(cfg, s, es).s.requested
    ensures After(cfg, s, es).log == s.log && After(cfg, s, es).installs == s.installs
    decreases |es|
  {
    if es != [] { StoppedStaysSilent(cfg, Next(cfg, s, es[0]), es[1..]); }
  }

  // ----- what start, read and failure achieve -----

  /** A start of a configured session makes it wanted, with a reader thread alive, and leaves the readings alone; of
      a session not yet wanted it makes a new generation that waits for its scanner, of a wanted one it changes
      nothing. Without a configured scanner there is nothing to want. */
  lemma StartMakesWanted(cfg: Config, s: System, t: ThreadId)
    requires Inv(cfg, s) && Enabled(s, DoStart(t))
    ensures var s' := Next(cfg, s, DoStart(t));
      && s'.log == s.log && s'.s.readings == s.s.readings && s'.s.sequence == s.s.sequence
      && if cfg.configured then
           && s'.s.requested && ThreadAlive(s')
           && (ThreadAlive(s) ==> s'.threads == s.threads)
           && (if s.s.requested then s'.s == s.s
               else s'.s.generation == s.s.generation + 1 && s'.s.state == WaitingForScanner && s'.s.reader.None?)
         else !s'.s.requested && s'.s.state == NotConfigured && s'.threads == s.threads
  {
    hide ThreadsOk, LogOk, StampsOk, NoLeak;
  }

  /** What a reader thread has read is recorded exactly when the session is wanted and the thread's reader was
      installed by that thread in the session's present generation, with no stop since; then all of it is, numbered
      on from the count, and otherwise nothing changes but the thread's place. */
  lemma RecordedIff(cfg: Config, s: System, t: ThreadId, now: real)
    requires Reachable(cfg, s) && Enabled(s, DoRecord(t, now))
    ensures var s' := Next(cfg, s, DoRecord(t, now));
      var r, values := s.threads[t].pc.reader, s.threads[t].pc.values;
      if s.s.requested && s.threads[t].readerGeneration != -1
         && r in s.installs && s.installs[r] == Stamp(s.s.generation, s.stops)
      then
        && |s'.log| == |s.log| + |values| && s.log <= s'.log
        && (forall i :: 0 <= i < |values| ==>
              s'.log[|s.log| + i] == Logged(Reading(s.s.sequence + i + 1, values[i], now), r, s.stops))
      else s'.log == s.log && s'.s == s.s
  {
    hide OneThread, InstalledOk, LogOk, NoLeak, Last;
    ReachableInv(cfg, s);
    ThreadIsOk(s, t);
    var r := s.threads[t].pc.reader;
    if Accepts(s.s, s.threads[t].readerGeneration) { assert s.installs[r].stops == s.stops; }
  }

  /** A read that fails, with a reader that closes, takes a current reader out and leaves the session waiting and the
      thread about to look for the next one. */
  lemma FailedReadIsCleared(cfg: Config, s: System, t: ThreadId, r: ReaderId)
    requires Enabled(s, ReadFailed(t)) && s.threads[t].pc == Reads(r)
    requires s.s.requested && s.s.reader == Some(r) && s.threads[t].readerGeneration == s.s.generation
    ensures var s1 := Next(cfg, s, ReadFailed(t));
      Enabled(s1, CloseFailed(t, false))
      && var s2 := Next(cfg, s1, CloseFailed(t, false));
         Enabled(s2, Clear(t))
         && var s3 := Next(cfg, s2, Clear(t));
            && s3.s == s.s.(reader := None, state := WaitingForScanner)
            && At(s3, t, Top) && s3.closed == s.closed + {r} && s3.log == s.log
  {
  }

  lemma RunCons(cfg: Config, s: System, e: Event, es: seq<Event>)
    requires Enabled(s, e) && IsRun(cfg, Next(cfg, s, e), es)
    ensures IsRun(cfg, s, [e] + es) && After(cfg, s, [e] + es) == After(cfg, Next(cfg, s, e), es)
  {
    hide Next, Enabled;
    assert ([e] + es)[1..] == es;
  }

  /** A thread that looks for a reader of a wanted session without one opens it, installs it, reads and records. */
  lemma ReaderReads(cfg: Config, s: System, t: ThreadId, r: ReaderId, values: seq<string>, now: real)
    returns (es: seq<Event>)
    requires At(s, t, Top) && s.s.requested && s.s.reader.None? && r !in s.seen
    ensures IsRun(cfg, s, es)
    ensures var s' := After(cfg, s, es);
      && s'.s.requested && s'.s.state == Connected && s'.s.reader == Some(r) && s'.s.generation == s.s.generation
      && At(s', t, Top) && s'.s.sequence == s.s.sequence + |values|
      && |s'.log| == |s.log| + |values| && s.log <= s'.log
      && (forall i :: 0 <= i < |values| ==>
            s'.log[|s.log| + i] == Logged(Reading(s.s.sequence + i + 1, values[i], now), r, s.stops))
  {
    hide IsRun, After, Last;
    var s1 := Next(cfg, s, Look(t));
    var s2 := Next(cfg, s1, Opened(t, r));
    var s3 := Next(cfg, s2, DoInstall(t));
    var s4 := Next(cfg, s3, Got(t, values));
    var s5 := Next(cfg, s4, DoRecord(t, now));
    NoEvents(cfg, s5);
    RunCons(cfg, s4, DoRecord(t, now), []);
    RunCons(cfg, s3, Got(t, values), [DoRecord(t, now)] + []);
    RunCons(cfg, s2, DoInstall(t), [Got(t, values)] + ([DoRecord(t, now)] + []));
    RunCons(cfg, s1, Opened(t, r), [DoInstall(t)] + ([Got(t, values)] + ([DoRecord(t, now)] + [])));
    RunCons(cfg, s, Look(t), [Opened(t, r)] + ([DoInstall(t)] + ([Got(t, values)] + ([DoRecord(t, now)] + []))));
    es := [Look(t)] + ([Opened(t, r)] + ([DoInstall(t)] + ([Got(t, values)] + ([DoRecord(t, now)] + []))));
  }

  lemma NoEvents(cfg: Config, s: System)
    ensures IsRun(cfg, s, []) && After(cfg, s, []) == s
  {
  }

  /** A stop takes the reader out, to be closed, and makes the session unwanted; the readings stay. From then on
      nothing is recorded and no reader is installed until the next start, whatever the reader thread still does. */
  lemma StopSilences(cfg: Config, s: System, es: seq<Event>)
    requires Inv(cfg, s) && IsRun(cfg, Next(cfg, s, DoStop), es)
    requires forall i :: 0 <= i < |es| ==> !es[i].DoStart?
    ensures var s1 := Next(cfg, s, DoStop);
      && !s1.s.requested && s1.s.reader.None? && s1.s.generation == s.s.generation + 1
      && s1.s.state == (if cfg.configured then Stopped else NotConfigured)
      && (s.s.reader.Some? ==> s.s.reader.value in s1.stopping)
      && s1.s.readings == s.s.readings && s1.s.sequence == s.s.sequence
      && After(cfg, s1, es).log == s.log && After(cfg, s1, es).installs == s.installs
      && !After(cfg, s1, es).s.requested
  {
    StoppedStaysSilent(cfg, Next(cfg, s, DoStop), es);
  }
}
