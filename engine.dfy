/** The control plane of both entry points: the state their `Run` functions
    build up step by step (kernel-side operations issued, the Go `defer`
    stack, the mode and allow maps, the reused `event` variable) and the
    loops that change it, each proved against the functions of `Attach`,
    `AllowList` and `ModeGate`. */
module Engine {
  import opened Common
  import opened LittleEndian
  import opened Text
  import opened EventCodec
  import opened NetIP
  import opened ModeGate
  import opened Attach
  import opened AllowList

  const EventsMap: string := "ipv4_events"
  const ClosedEventsMap: string := "ipv4_closed_events"

  /** A kernel-side operation, in the order it is issued. */
  datatype Op =
    | RemoveMemlock
    | LoadSpec
    | NewCollection
    | ClientLoad
    | AttachOp(call: Call)
    | PutMode(code: Uint32)
    | PutAllow(key: Uint32, value: Uint32)
    | OpenReader(name: string)

  /** The attach calls as operations. */
  function AsOps(calls: seq<Call>): (r: seq<Op>)
    ensures |r| == |calls|
    ensures forall k :: 0 <= k < |calls| ==> r[k] == AttachOp(calls[k])
  {
    seq(|calls|, k requires 0 <= k < |calls| => AttachOp(calls[k]))
  }

  lemma AsOpsAppend(a: seq<Call>, b: seq<Call>)
    ensures AsOps(a + b) == AsOps(a) + AsOps(b)
  {
  }

  /** The puts the seeding loop issues: one per address, up to the first
      address too short to convert. */
  function SeedOps(ips: seq<IP>, value: Uint32): seq<Op>
    decreases |ips|
  {
    if ips == [] || |ips[0]| < 4 then [] else [PutAllow(Uint32LE(ips[0]), value)] + SeedOps(ips[1..], value)
  }

  /** Why `Run` returned an error. */
  datatype RunError =
    | ModeErr(mode: ModeError)
    | HostsUnparsable
    | NotRoot
    | MemlockFailed
    | AttachFailed(cause: AttachError)

  /** Why `logger.Log.Fatalf` ended the process. */
  datatype Fatal = LoadSpecFailed | NewCollectionFailed | ClientLoadFailed | ReaderFailed(name: string) | ReporterFailed

  /** Where a run stands: still in the event loop (`Running`), returned
      (deferred releases ran), exited through `Fatalf` (they did not), or
      panicked (they ran while unwinding). */
  datatype Outcome = Running | Returned(err: Option<RunError>) | Exited(fatal: Fatal) | Panicked(fault: Fault)

  /** The two runtime panics: `binary.LittleEndian.Uint32` on an address
      shorter than four bytes, and the suffix index running off its list. */
  datatype Fault = ShortAddress | SuffixIndexOutOfRange

  /** How `Run` ends when the event loop ends. */
  function LoopOutcome(end: LoopEnd): (r: Outcome)
    ensures r == Running <==> end == AwaitingRead
  {
    match end
    case ReaderClosed => Returned(None)
    case ScanPanicked => Panicked(SuffixIndexOutOfRange)
    case AwaitingRead => Running
  }

  /** What the kernel, the file system and the host answer. */
  datatype Kernel = Kernel(
    isRoot: bool,
    memlockOk: bool,
    spec: Option<seq<ProgramSpec>>,
    collectionOk: bool,
    attach: Oracle,
    eventsReaderOk: bool,
    closedReaderOk: bool,
    reporterOk: bool)

  /** The programs of the collection spec, when there is one. */
  function Programs(k: Kernel): seq<ProgramSpec>
  {
    if k.spec.Some? then k.spec.value else []
  }

  /** The result of attaching every program of the spec. */
  function Attached(k: Kernel): AttachRun
  {
    AttachUpTo(Programs(k), k.attach, |Programs(k)|)
  }

  /** The collection loads (`ebpfProgram.load`, `ebpfClient.Load`). */
  predicate Loads(k: Kernel)
  {
    k.spec.Some? && k.collectionOk
  }

  /** Where a setup stopped: how the run ended, and the operations issued
      and releases deferred by the steps that ran. */
  datatype Stop = Stop(outcome: Outcome, ops: seq<Op>, defers: seq<Release>)

  /** A stop that comes after operations `ops` and releases `rels`. */
  function After(ops: seq<Op>, rels: seq<Release>, s: Option<Stop>): (r: Option<Stop>)
    ensures r.Some? <==> s.Some?
  {
    match s
    case None => None
    case Some(t) => Some(Stop(t.outcome, ops + t.ops, rels + t.defers))
  }

  /** Opening the two readers: the first that fails is fatal. */
  function ReaderStop(k: Kernel): Option<Stop>
  {
    if !k.eventsReaderOk then Some(Stop(Exited(ReaderFailed(EventsMap)), [OpenReader(EventsMap)], []))
    else if !k.closedReaderOk then
      Some(Stop(Exited(ReaderFailed(ClosedEventsMap)), [OpenReader(EventsMap), OpenReader(ClosedEventsMap)],
                [CloseReader(EventsMap)]))
    else None
  }

  /** Seeding, then the readers: a short address panics before any reader
      is opened. */
  function SeedStop(hosts: seq<IP>, k: Kernel): Option<Stop>
  {
    if !AllWide(hosts) then Some(Stop(Panicked(ShortAddress), SeedOps(hosts, 1), []))
    else After(SeedOps(hosts, 1), [], ReaderStop(k))
  }

  // ------------------------------------------------------------- tracer.go

  /** tracer.go gets past its guards: a valid mode, parsable hosts, root. */
  predicate TracerAdmitted(modeFlag: string, parsedHosts: Option<seq<IP>>, names: ModeNames, k: Kernel)
  {
    CheckMode(modeFlag, names) == None && parsedHosts.Some? && k.isRoot
  }

  /** The mode code tracer.go writes for a valid mode flag. */
  function TracerCode(modeFlag: string, names: ModeNames, codes: ModeCodes): Uint32
    requires CheckMode(modeFlag, names) == None
  {
    SwitchAfterCheck(modeFlag, names);
    ModeCode(SelectMode(modeFlag, names).value, codes)
  }

  /** Every setup step of tracer.go succeeds. */
  predicate TracerSetupOk(modeFlag: string, parsedHosts: Option<seq<IP>>, names: ModeNames, k: Kernel)
  {
    && TracerAdmitted(modeFlag, parsedHosts, names, k) && Loads(k) && AllWide(parsedHosts.value)
    && k.eventsReaderOk && k.closedReaderOk && k.reporterOk && k.memlockOk && Attached(k).err.None?
  }

  /** The operations of tracer.go from loading to the second reader. */
  function TracerHead(code: Uint32, hosts: seq<IP>): seq<Op>
  {
    [ClientLoad, PutMode(code)] + SeedOps(hosts, 1) + [OpenReader(EventsMap), OpenReader(ClosedEventsMap)]
  }

  /** The operations of tracer.go after the reporter: memlock, attaching. */
  function TracerArmOps(k: Kernel): seq<Op>
  {
    [RemoveMemlock] + AsOps(Attached(k).calls)
  }

  /** The kernel-side operations of tracer.go, in order: load, mode write,
      seeding, the two readers, memlock, then attaching. */
  function TracerPlan(modeFlag: string, hosts: seq<IP>, names: ModeNames, codes: ModeCodes, k: Kernel): seq<Op>
    requires CheckMode(modeFlag, names) == None
  {
    TracerHead(TracerCode(modeFlag, names, codes), hosts) + TracerArmOps(k)
  }

  /** The releases tracer.go defers, in the order it registers them. */
  function TracerStack(k: Kernel): seq<Release>
  {
    [CleanCollection] + ReaderStack + Attached(k).pushed
  }

  /** The guards of tracer.go, in order; none touches the kernel. */
  function GuardStop(modeFlag: string, parsedHosts: Option<seq<IP>>, names: ModeNames, k: Kernel): Option<Stop>
  {
    if CheckMode(modeFlag, names).Some? then Some(Stop(Returned(Some(ModeErr(CheckMode(modeFlag, names).value))), [], []))
    else if parsedHosts.None? then Some(Stop(Returned(Some(HostsUnparsable)), [], []))
    else if !k.isRoot then Some(Stop(Returned(Some(NotRoot)), [], []))
    else None
  }

  /** Seeding, the readers and the reporter of tracer.go. */
  function FillStop(hosts: seq<IP>, k: Kernel): Option<Stop>
  {
    if SeedStop(hosts, k).Some? then SeedStop(hosts, k)
    else if !k.reporterOk then
      Some(Stop(Exited(ReporterFailed), SeedOps(hosts, 1) + [OpenReader(EventsMap), OpenReader(ClosedEventsMap)], ReaderStack))
    else None
  }

  /** tracer.go from the load to the reporter: a load failure is fatal
      before the collection's release is deferred. */
  function TracerLoadStop(code: Uint32, hosts: seq<IP>, k: Kernel): Option<Stop>
  {
    if !Loads(k) then Some(Stop(Exited(ClientLoadFailed), [ClientLoad], []))
    else After([ClientLoad, PutMode(code)], [CleanCollection], FillStop(hosts, k))
  }

  /** Memlock, then attaching: either failure returns. */
  function ArmStop(k: Kernel): Option<Stop>
  {
    if !k.memlockOk then Some(Stop(Returned(Some(MemlockFailed)), [RemoveMemlock], []))
    else if Attached(k).err.Some? then
      Some(Stop(Returned(Some(AttachFailed(Attached(k).err.value))), TracerArmOps(k), Attached(k).pushed))
    else None
  }

  /** tracer.go once its guards have passed. */
  function TracerBootStop(code: Uint32, hosts: seq<IP>, k: Kernel): Option<Stop>
  {
    if TracerLoadStop(code, hosts, k).Some? then TracerLoadStop(code, hosts, k)
    else After(TracerHead(code, hosts), [CleanCollection] + ReaderStack, ArmStop(k))
  }

  /** Where tracer.go's setup stops, if a step fails: the first failing
      step decides the outcome, and nothing after it runs. */
  function TracerStop(modeFlag: string, parsedHosts: Option<seq<IP>>, names: ModeNames, codes: ModeCodes, k: Kernel)
    : Option<Stop>
  {
    if GuardStop(modeFlag, parsedHosts, names, k).Some? then GuardStop(modeFlag, parsedHosts, names, k)
    else TracerBootStop(TracerCode(modeFlag, names, codes), parsedHosts.value, k)
  }

  // ------------------------------------------------------------- kntrl.go

  /** kntrl.go gets through root, memlock, load and attach. */
  predicate KntrlPrepared(k: Kernel)
  {
    k.isRoot && k.memlockOk && Loads(k) && Attached(k).err.None?
  }

  /** The operations of kntrl.go up to attaching. */
  function KntrlPrep(k: Kernel): seq<Op>
  {
    [RemoveMemlock, LoadSpec, NewCollection] + AsOps(Attached(k).calls)
  }

  /** The operations of kntrl.go after attaching. */
  function KntrlTail(mode: Uint32, hosts: seq<IP>): seq<Op>
  {
    [PutMode(mode)] + SeedOps(hosts, 1) + [OpenReader(EventsMap), OpenReader(ClosedEventsMap)]
  }

  const ReaderStack: seq<Release> := [CloseReader(EventsMap), CloseReader(ClosedEventsMap)]

  /** `ebpfProgram.load`: either failure is fatal. */
  function LoadStop(k: Kernel): Option<Stop>
  {
    if k.spec.None? then Some(Stop(Exited(LoadSpecFailed), [LoadSpec], []))
    else if !k.collectionOk then Some(Stop(Exited(NewCollectionFailed), [LoadSpec, NewCollection], []))
    else None
  }

  /** kntrl.go up to attaching; the collection's release is deferred
      before the first step. */
  function KntrlPrepStop(k: Kernel): Option<Stop>
  {
    if !k.isRoot then Some(Stop(Returned(Some(NotRoot)), [], [CleanCollection]))
    else if !k.memlockOk then Some(Stop(Returned(Some(MemlockFailed)), [RemoveMemlock], [CleanCollection]))
    else if !Loads(k) then After([RemoveMemlock], [CleanCollection], LoadStop(k))
    else if Attached(k).err.Some? then
      Some(Stop(Returned(Some(AttachFailed(Attached(k).err.value))), KntrlPrep(k), [CleanCollection] + Attached(k).pushed))
    else None
  }

  /** kntrl.go after attaching: the mode write, then seeding and the readers. */
  function KntrlTailStop(mode: Uint32, hosts: seq<IP>, k: Kernel): Option<Stop>
  {
    After([PutMode(mode)], [], SeedStop(hosts, k))
  }

  /** Where kntrl.go's setup stops, if a step fails: the first failing step
      decides the outcome, and nothing after it runs. */
  function KntrlStop(mode: Uint32, hosts: seq<IP>, k: Kernel): Option<Stop>
  {
    if KntrlPrepStop(k).Some? then KntrlPrepStop(k)
    else After(KntrlPrep(k), [CleanCollection] + Attached(k).pushed, KntrlTailStop(mode, hosts, k))
  }

  /** Every setup step of kntrl.go succeeds. */
  predicate KntrlSetupOk(hosts: seq<IP>, k: Kernel)
  {
    k.isRoot && k.memlockOk && Loads(k) && Attached(k).err.None? && AllWide(hosts)
      && k.eventsReaderOk && k.closedReaderOk
  }

  /** The kernel-side operations of kntrl.go, in order: memlock, spec,
      collection, attaching, mode write, seeding, the two readers. */
  function KntrlPlan(mode: Uint32, hosts: seq<IP>, k: Kernel): seq<Op>
  {
    KntrlPrep(k) + KntrlTail(mode, hosts)
  }

  /** The releases kntrl.go defers, in the order it registers them: the
      collection's first, before anything is loaded. */
  function KntrlStack(k: Kernel): seq<Release>
  {
    [CleanCollection] + Attached(k).pushed + ReaderStack
  }

  class Engine {
    /** Kernel-side operations issued so far. */
    var log: seq<Op>
    /** Deferred releases, in the order they were registered. */
    var deferred: seq<Release>
    /** Releases that have run, in the order they ran. */
    var released: seq<Release>
    var modeMap: map<Uint32, Uint32>
    var allow: AllowMap
    /** The `event` variable the loop decodes into. */
    var event: IP4Event
    var outcome: Outcome

    constructor()
      ensures log == [] && deferred == [] && released == []
      ensures modeMap == map[] && allow == map[]
      ensures event == ZeroEvent && outcome == Running
    {
      log := [];
      deferred := [];
      released := [];
      modeMap := map[];
      allow := map[];
      event := ZeroEvent;
      outcome := Running;
    }

    /** `ebpfProgram.load`: the collection spec, then the collection; a
        failure of either is fatal. */
    method Load(k: Kernel) returns (ok: bool)
      modifies this`log, this`outcome
      ensures ok <==> k.spec.Some? && k.collectionOk
      ensures log == old(log) + (if k.spec.Some? then [LoadSpec, NewCollection] else [LoadSpec])
      ensures outcome == (if ok then old(outcome)
                          else if k.spec.None? then Exited(LoadSpecFailed)
                          else Exited(NewCollectionFailed))
    {
      log := log + [LoadSpec];
      if k.spec.None? {
        outcome := Exited(LoadSpecFailed);
        return false;
      }
      log := log + [NewCollection];
      if !k.collectionOk {
        outcome := Exited(NewCollectionFailed);
        return false;
      }
      return true;
    }

    /** The put at key 0 of the mode map. */
    method SetMode(code: Uint32)
      modifies this`log, this`modeMap
      ensures modeMap == WriteMode(old(modeMap), code)
      ensures log == old(log) + [PutMode(code)]
    {
      modeMap := modeMap[0 := code];
      log := log + [PutMode(code)];
    }

    /** The seeding loop. */
    method Seed(ips: seq<IP>, value: Uint32) returns (panicked: bool)
      modifies this`allow, this`log
      ensures SeedResult(allow, panicked) == SeedAll(old(allow), ips, value)
      ensures log == old(log) + SeedOps(ips, value)
    {
      var i := 0;
      while i < |ips|
        invariant 0 <= i <= |ips|
        invariant SeedAll(allow, ips[i..], value) == SeedAll(old(allow), ips, value)
        invariant log + SeedOps(ips[i..], value) == old(log) + SeedOps(ips, value)
      {
        if |ips[i]| < 4 {
          return true;
        }
        assert ips[i..][1..] == ips[i + 1..];
        var key := Uint32LE(ips[i]);
        allow := allow[key := value];
        log := log + [PutAllow(key, value)];
        i := i + 1;
      }
      return false;
    }

    /** One pass of the attach loop: the switch on the program's kind. */
    method AttachOne(p: ProgramSpec, i: nat, oracle: Oracle) returns (err: Option<AttachError>)
      modifies this`log, this`deferred
      ensures var s := AttachStep(p, i, oracle);
              && log == old(log) + AsOps(s.calls)
              && deferred == old(deferred) + s.pushed
              && err == s.err
    {
      match HookFor(p) {
        case None =>
          return None;
        case Some(h) =>
          if p.kind == CGroupSKB {
            log := log + [AttachOp(OpenDir(i, RootCgroup))];
            if !oracle.openOk(i) {
              return Some(OpenFailed(i, RootCgroup));
            }
            log := log + [AttachOp(Link(i, h))];
            if !oracle.linkOk(i, h) {
              return Some(LinkFailed(i, h));
            }
            deferred := deferred + [CloseLink(i), CloseFile(i, RootCgroup)];
          } else {
            log := log + [AttachOp(Link(i, h))];
            if !oracle.linkOk(i, h) {
              return Some(LinkFailed(i, h));
            }
            deferred := deferred + [CloseLink(i)];
          }
          return None;
      }
    }

    /** The attach loop over the programs of the spec; it returns on the
        first error. */
    method AttachAll(progs: seq<ProgramSpec>, oracle: Oracle) returns (err: Option<AttachError>)
      modifies this`log, this`deferred
      ensures var r := AttachUpTo(progs, oracle, |progs|);
              && log == old(log) + AsOps(r.calls)
              && deferred == old(deferred) + r.pushed
              && err == r.err
    {
      var i := 0;
      err := None;
      ghost var run := AttachRun([], [], None);
      while i < |progs| && err.None?
        invariant 0 <= i <= |progs|
        invariant run == AttachUpTo(progs, oracle, i) && err == run.err
        invariant log == old(log) + AsOps(run.calls)
        invariant deferred == old(deferred) + run.pushed
      {
        ghost var step := AttachStep(progs[i], i, oracle);
        AttachNext(progs, oracle, i);
        err := AttachOne(progs[i], i, oracle);
        run := AttachRun(run.calls + step.calls, run.pushed + step.pushed, step.err);
        i := i + 1;
      }
      if err.Some? {
        AttachStable(progs, oracle, i, |progs|);
      }
    }

    /** The nested suffix scan for one event: index `i` runs up to `bound`,
        and indexing past the two-element suffix list panics. */
    method ScanSuffixes(names: seq<string>, key: Uint32, bound: nat) returns (panicked: bool)
      modifies this`allow
      ensures panicked == ScanPanics(bound, names)
      ensures allow == if AnyMatch(names, Tested(bound)) then old(allow)[key := 1] else old(allow)
    {
      var i := 0;
      while i < bound
        invariant 0 <= i <= bound
        invariant i > |AllowSuffixes| ==> names == []
        invariant allow == if AnyMatch(names, Tested(i)) then old(allow)[key := 1] else old(allow)
      {
        var v := 0;
        while v < |names|
          invariant 0 <= v <= |names|
          invariant i >= |AllowSuffixes| ==> v == 0
          invariant allow == if AnyMatch(names, Tested(i)) || MatchBefore(names, v, i)
                             then old(allow)[key := 1] else old(allow)
        {
          if i >= |AllowSuffixes| {
            TestedAll(i);
            TestedAll(bound);
            return true;
          }
          if Contains(names[v], AllowSuffixes[i]) {
            allow := allow[key := 1];
          }
          v := v + 1;
        }
        if i < |AllowSuffixes| {
          TestedStep(names, i);
        }
        i := i + 1;
      }
      return false;
    }

    /** The event loop, over the sequence of read outcomes. */
    method EventLoop(input: seq<ReadOutcome>, bound: nat, res: Resolver) returns (end: LoopEnd)
      modifies this`allow, this`event
      ensures Consume(old(allow), old(event), input, bound, res) == LoopResult(allow, event, end)
    {
      var i := 0;
      while i < |input|
        invariant 0 <= i <= |input|
        invariant Consume(allow, event, input[i..], bound, res) == Consume(old(allow), old(event), input, bound, res)
      {
        var read := input[i];
        if read.Closed? {
          return ReaderClosed;
        }
        assert input[i..][1..] == input[i + 1..];
        var raw := if read.Sample? then read.raw else [];
        var decoded := Decode(raw);
        if decoded.Ok? {
          event := decoded.value;
          var names := Resolved(res.lookup(event.daddr));
          var panicked := ScanSuffixes(names, res.keyOf(event.daddr), bound);
          if panicked {
            return ScanPanicked;
          }
        }
        i := i + 1;
      }
      return AwaitingRead;
    }

    /** The event loop and what follows it: the loop decides the run's
        outcome, and once it has ended the deferred releases run. */
    method Finish(input: seq<ReadOutcome>, bound: nat, res: Resolver)
      requires outcome == Running && released == []
      modifies this`allow, this`event, this`outcome, this`released
      ensures var c := Consume(old(allow), old(event), input, bound, res);
              outcome == LoopOutcome(c.end) && allow == c.allow && event == c.event
      ensures outcome == Running || outcome == Returned(None) || outcome == Panicked(SuffixIndexOutOfRange)
      ensures outcome.Running? ==> released == []
      ensures !outcome.Running? ==> released == Reverse(deferred)
      ensures outcome == Panicked(SuffixIndexOutOfRange) ==> bound > |AllowSuffixes|
      ensures old(allow).Keys <= allow.Keys && (AllMarked(old(allow)) ==> AllMarked(allow))
    {
      ConsumeMonotone(allow, event, input, bound, res);
      var end := EventLoop(input, bound, res);
      outcome := LoopOutcome(end);
      if end != AwaitingRead {
        Unwind();
      }
    }

    /** How a run that has ended leaves: on a return or a panic its deferred
        releases run, last registered first; `Fatalf` exits the process
        without running them. */
    method Unwind()
      requires outcome != Running && released == []
      modifies this`released
      ensures released == if outcome.Exited? then [] else Reverse(deferred)
    {
      if !outcome.Exited? {
        RunDeferred();
      }
    }

    /** The deferred releases run, last registered first. */
    method RunDeferred()
      modifies this`released
      ensures released == old(released) + Reverse(deferred)
    {
      var j := |deferred|;
      while j > 0
        invariant 0 <= j <= |deferred|
        invariant released == old(released) + Reverse(deferred[j..])
      {
        ReverseCons(deferred[j - 1..]);
        assert deferred[j - 1..][1..] == deferred[j..];
        j := j - 1;
        released := released + [deferred[j]];
      }
    }
    /** kntrl.go's `Run` up to and including attaching: the collection's
        release is deferred first, then root, memlock, load and attach;
        `stopped` says this ended the run. */
    method KntrlPrepare(k: Kernel) returns (stopped: bool)
      requires log == [] && deferred == [] && outcome == Running
      modifies this`log, this`deferred, this`outcome
      ensures stopped <==> !KntrlPrepared(k)
      ensures !stopped ==> outcome == Running && log == KntrlPrep(k) && deferred == [CleanCollection] + Attached(k).pushed
      ensures stopped ==> var s := KntrlPrepStop(k).value;
                          outcome == s.outcome && log == s.ops && deferred == s.defers
    {
      deferred := deferred + [CleanCollection];
      if !k.isRoot {
        outcome := Returned(Some(NotRoot));
        return true;
      }
      log := log + [RemoveMemlock];
      if !k.memlockOk {
        outcome := Returned(Some(MemlockFailed));
        return true;
      }
      var loaded := Load(k);
      if !loaded {
        assert log == [RemoveMemlock] + LoadStop(k).value.ops;
        return true;
      }
      var attachErr := AttachAll(k.spec.value, k.attach);
      assert log == KntrlPrep(k) && deferred == [CleanCollection] + Attached(k).pushed;
      if attachErr.Some? {
        outcome := Returned(Some(AttachFailed(attachErr.value)));
        return true;
      }
      return false;
    }

    /** kntrl.go's `Run` from the mode write to the second reader. */
    method KntrlConfigure(mode: Uint32, hosts: seq<IP>, k: Kernel) returns (stopped: bool)
      requires outcome == Running
      modifies this`log, this`deferred, this`outcome, this`modeMap, this`allow
      ensures stopped <==> !(AllWide(hosts) && k.eventsReaderOk && k.closedReaderOk)
      ensures !stopped ==> outcome == Running && log == old(log) + KntrlTail(mode, hosts)
                           && deferred == old(deferred) + ReaderStack
      ensures stopped ==> var s := KntrlTailStop(mode, hosts, k).value;
                          outcome == s.outcome && log == old(log) + s.ops && deferred == old(deferred) + s.defers
      ensures modeMap == WriteMode(old(modeMap), mode)
      ensures allow == SeedAll(old(allow), hosts, 1).allow
    {
      SetMode(mode);
      var seedPanic := Seed(hosts, 1);
      if seedPanic {
        outcome := Panicked(ShortAddress);
        PushOne(old(log), PutMode(mode), SeedOps(hosts, 1));
        return true;
      }
      stopped := OpenReaders(k);
      if stopped {
        PushThen(old(log), PutMode(mode), SeedOps(hosts, 1), ReaderStop(k).value.ops);
      } else {
        PushThen(old(log), PutMode(mode), SeedOps(hosts, 1), [OpenReader(EventsMap), OpenReader(ClosedEventsMap)]);
      }
    }

    /** kntrl.go's `Run` up to the event loop; `stopped` says the run ended
        there. */
    method KntrlSetup(mode: Uint32, hosts: seq<IP>, k: Kernel) returns (stopped: bool)
      requires log == [] && deferred == [] && outcome == Running
      modifies this`log, this`deferred, this`outcome, this`modeMap, this`allow
      ensures stopped <==> !KntrlSetupOk(hosts, k)
      ensures !stopped ==> outcome == Running && log == KntrlPlan(mode, hosts, k) && deferred == KntrlStack(k)
      ensures stopped <==> KntrlStop(mode, hosts, k).Some?
      ensures stopped ==> var s := KntrlStop(mode, hosts, k).value;
                          outcome == s.outcome && log == s.ops && deferred == s.defers
      ensures modeMap == if KntrlPrepared(k) then WriteMode(old(modeMap), mode) else old(modeMap)
      ensures allow == if KntrlPrepared(k) then SeedAll(old(allow), hosts, 1).allow else old(allow)
      ensures old(allow).Keys <= allow.Keys && (AllMarked(old(allow)) ==> AllMarked(allow))
    {
      SeedMonotone(allow, hosts, 1);
      KntrlStopShape(mode, hosts, k);
      stopped := KntrlPrepare(k);
      if !stopped {
        stopped := KntrlConfigure(mode, hosts, k);
      }
    }

    /** `Run` of kntrl.go. */
    method RunKntrl(mode: Uint32, hosts: seq<IP>, k: Kernel, input: seq<ReadOutcome>, res: Resolver)
      requires log == [] && deferred == [] && released == [] && outcome == Running
      modifies this
      ensures log <= KntrlPlan(mode, hosts, k)
      ensures deferred <= KntrlStack(k) && deferred != []
      ensures outcome.Returned? || outcome.Panicked? ==> released == Reverse(deferred)
      ensures outcome.Running? || outcome.Exited? ==> released == []
      ensures !k.isRoot ==> outcome == Returned(Some(NotRoot)) && log == [] && released == [CleanCollection]
      ensures outcome.Returned? && outcome.err.Some? && outcome.err.value.AttachFailed? ==>
                && Some(outcome.err.value.cause) == Attached(k).err
                && released == Reverse([CleanCollection] + Attached(k).pushed)
      ensures modeMap == if KntrlPrepared(k) then WriteMode(old(modeMap), mode) else old(modeMap)
      ensures outcome == Panicked(ShortAddress) ==> !AllWide(hosts)
      ensures outcome != Panicked(SuffixIndexOutOfRange)
      ensures KntrlSetupOk(hosts, k) ==>
                var c := Consume(SeedAll(old(allow), hosts, 1).allow, old(event), input, FixedBound, res);
                && log == KntrlPlan(mode, hosts, k) && deferred == KntrlStack(k)
                && outcome == LoopOutcome(c.end) && allow == c.allow && event == c.event
      ensures !KntrlSetupOk(hosts, k) ==> outcome != Running && outcome != Returned(None)
      ensures KntrlStop(mode, hosts, k).Some? ==>
                var s := KntrlStop(mode, hosts, k).value;
                && outcome == s.outcome && log == s.ops && deferred == s.defers
                && released == if s.outcome.Exited? then [] else Reverse(s.defers)
      ensures old(allow).Keys <= allow.Keys && (AllMarked(old(allow)) ==> AllMarked(allow))
    {
      var stopped := KntrlSetup(mode, hosts, k);
      if stopped {
        Unwind();
        KntrlEndsEarly(mode, hosts, k, outcome, log, deferred, released);
        return;
      }
      KntrlRunsThrough(mode, hosts, k);
      Finish(input, FixedBound, res);
    }

    /** The guards of tracer.go's `Run`: mode flag, hosts, root. Nothing
        kernel-side happens when one fails. */
    method TracerGuard(modeFlag: string, parsedHosts: Option<seq<IP>>, names: ModeNames, k: Kernel) returns (stopped: bool)
      requires outcome == Running
      modifies this`outcome
      ensures stopped <==> !TracerAdmitted(modeFlag, parsedHosts, names, k)
      ensures !stopped ==> outcome == Running
      ensures stopped ==> outcome.Returned? && outcome.err.Some? && !outcome.err.value.AttachFailed?
      ensures CheckMode(modeFlag, names).Some? ==> outcome == Returned(Some(ModeErr(CheckMode(modeFlag, names).value)))
      ensures CheckMode(modeFlag, names) == None && parsedHosts.None? ==> outcome == Returned(Some(HostsUnparsable))
      ensures stopped <==> GuardStop(modeFlag, parsedHosts, names, k).Some?
      ensures stopped ==> outcome == GuardStop(modeFlag, parsedHosts, names, k).value.outcome
    {
      var modeErr := CheckMode(modeFlag, names);
      if modeErr.Some? {
        outcome := Returned(Some(ModeErr(modeErr.value)));
        return true;
      }
      if parsedHosts.None? {
        outcome := Returned(Some(HostsUnparsable));
        return true;
      }
      if !k.isRoot {
        outcome := Returned(Some(NotRoot));
        return true;
      }
      return false;
    }

    /** tracer.go's `Run` from the load to the reporter: the collection's
        release is deferred once it loaded, the mode is written through the
        `switch`, the addresses seeded, the readers opened. */
    method TracerLoad(code: Uint32, hosts: seq<IP>, k: Kernel) returns (stopped: bool)
      requires outcome == Running
      modifies this`log, this`deferred, this`outcome, this`modeMap, this`allow
      ensures stopped <==> !(Loads(k) && AllWide(hosts) && k.eventsReaderOk && k.closedReaderOk && k.reporterOk)
      ensures !stopped ==> && outcome == Running
                           && log == old(log) + TracerHead(code, hosts)
                           && deferred == old(deferred) + [CleanCollection] + ReaderStack
      ensures stopped ==> var s := TracerLoadStop(code, hosts, k).value;
                          outcome == s.outcome && log == old(log) + s.ops && deferred == old(deferred) + s.defers
      ensures modeMap == if Loads(k) then WriteMode(old(modeMap), code) else old(modeMap)
      ensures allow == if Loads(k) then SeedAll(old(allow), hosts, 1).allow else old(allow)
    {
      log := log + [ClientLoad];
      if !(k.spec.Some? && k.collectionOk) {
        outcome := Exited(ClientLoadFailed);
        return true;
      }
      deferred := deferred + [CleanCollection];
      SetMode(code);
      stopped := TracerFill(hosts, k);
      if stopped {
        PushTwo(old(log), ClientLoad, PutMode(code), FillStop(hosts, k).value.ops);
        PushOne(old(deferred), CleanCollection, FillStop(hosts, k).value.defers);
      } else {
        PushTwo(old(log), ClientLoad, PutMode(code), SeedOps(hosts, 1) + [OpenReader(EventsMap), OpenReader(ClosedEventsMap)]);
      }
    }

    /** tracer.go's seeding, readers and reporter, after the mode write. */
    method TracerFill(hosts: seq<IP>, k: Kernel) returns (stopped: bool)
      requires outcome == Running
      modifies this`log, this`deferred, this`outcome, this`allow
      ensures stopped <==> !(AllWide(hosts) && k.eventsReaderOk && k.closedReaderOk && k.reporterOk)
      ensures !stopped ==> && outcome == Running
                           && log == old(log) + SeedOps(hosts, 1) + [OpenReader(EventsMap), OpenReader(ClosedEventsMap)]
                           && deferred == old(deferred) + ReaderStack
      ensures stopped ==> var s := FillStop(hosts, k).value;
                          outcome == s.outcome && log == old(log) + s.ops && deferred == old(deferred) + s.defers
      ensures allow == SeedAll(old(allow), hosts, 1).allow
    {
      var seedPanic := Seed(hosts, 1);
      if seedPanic {
        outcome := Panicked(ShortAddress);
        return true;
      }
      ghost var seeded := log;
      stopped := OpenReaders(k);
      if stopped {
        assert log == old(log) + (SeedOps(hosts, 1) + ReaderStop(k).value.ops);
        return;
      }
      if !k.reporterOk {
        outcome := Exited(ReporterFailed);
        return true;
      }
    }

    /** The two perf readers, each closed by a deferred release; a failure
        to open one is fatal. */
    method OpenReaders(k: Kernel) returns (stopped: bool)
      requires outcome == Running
      modifies this`log, this`deferred, this`outcome
      ensures stopped <==> !(k.eventsReaderOk && k.closedReaderOk)
      ensures !stopped ==> && outcome == Running
                           && log == old(log) + [OpenReader(EventsMap), OpenReader(ClosedEventsMap)]
                           && deferred == old(deferred) + ReaderStack
      ensures stopped ==> var s := ReaderStop(k).value;
                          outcome == s.outcome && log == old(log) + s.ops && deferred == old(deferred) + s.defers
    {
      log := log + [OpenReader(EventsMap)];
      if !k.eventsReaderOk {
        outcome := Exited(ReaderFailed(EventsMap));
        return true;
      }
      deferred := deferred + [CloseReader(EventsMap)];
      log := log + [OpenReader(ClosedEventsMap)];
      if !k.closedReaderOk {
        outcome := Exited(ReaderFailed(ClosedEventsMap));
        return true;
      }
      deferred := deferred + [CloseReader(ClosedEventsMap)];
      return false;
    }

    /** tracer.go's memlock relaxation and attach loop, after the readers. */
    method TracerArm(k: Kernel) returns (stopped: bool)
      requires Loads(k) && outcome == Running
      modifies this`log, this`deferred, this`outcome
      ensures stopped <==> !(k.memlockOk && Attached(k).err.None?)
      ensures !stopped ==> outcome == Running && log == old(log) + TracerArmOps(k)
      ensures deferred == old(deferred) + (if k.memlockOk then Attached(k).pushed else [])
      ensures stopped ==> var s := ArmStop(k).value;
                          outcome == s.outcome && log == old(log) + s.ops && deferred == old(deferred) + s.defers
    {
      log := log + [RemoveMemlock];
      if !k.memlockOk {
        outcome := Returned(Some(MemlockFailed));
        return true;
      }
      var attachErr := AttachAll(k.spec.value, k.attach);
      if attachErr.Some? {
        outcome := Returned(Some(AttachFailed(attachErr.value)));
        return true;
      }
      return false;
    }

    /** tracer.go's `Run` up to the event loop. */
    method TracerSetup(modeFlag: string, parsedHosts: Option<seq<IP>>, names: ModeNames, codes: ModeCodes, k: Kernel)
      returns (stopped: bool)
      requires log == [] && deferred == [] && outcome == Running
      modifies this`log, this`deferred, this`outcome, this`modeMap, this`allow
      ensures stopped <==> !TracerSetupOk(modeFlag, parsedHosts, names, k)
      ensures !stopped ==> outcome == Running && log == TracerPlan(modeFlag, parsedHosts.value, names, codes, k)
                           && deferred == TracerStack(k)
      ensures stopped <==> TracerStop(modeFlag, parsedHosts, names, codes, k).Some?
      ensures stopped ==> var s := TracerStop(modeFlag, parsedHosts, names, codes, k).value;
                          outcome == s.outcome && log == s.ops && deferred == s.defers
      ensures modeMap == if TracerAdmitted(modeFlag, parsedHosts, names, k) && Loads(k)
                         then WriteMode(old(modeMap), TracerCode(modeFlag, names, codes)) else old(modeMap)
      ensures allow == if TracerAdmitted(modeFlag, parsedHosts, names, k) && Loads(k)
                       then SeedAll(old(allow), parsedHosts.value, 1).allow else old(allow)
      ensures old(allow).Keys <= allow.Keys && (AllMarked(old(allow)) ==> AllMarked(allow))
    {
      if parsedHosts.Some? {
        SeedMonotone(allow, parsedHosts.value, 1);
      }
      TracerStopShape(modeFlag, parsedHosts, names, codes, k);
      stopped := TracerGuard(modeFlag, parsedHosts, names, k);
      if stopped {
        return;
      }
      // the `switch` on the mode flag picks the code that loading writes
      var code := TracerCode(modeFlag, names, codes);
      assert TracerPlan(modeFlag, parsedHosts.value, names, codes, k) == TracerHead(code, parsedHosts.value) + TracerArmOps(k);
      stopped := TracerBoot(code, parsedHosts.value, k);
      assert log == [] + log && deferred == [] + deferred;
    }

    /** tracer.go's `Run` once the mode, the hosts and root are accepted:
        loading through attaching. */
    method TracerBoot(code: Uint32, hosts: seq<IP>, k: Kernel) returns (stopped: bool)
      requires outcome == Running
      modifies this`log, this`deferred, this`outcome, this`modeMap, this`allow
      ensures stopped <==> !(Loads(k) && AllWide(hosts) && k.eventsReaderOk && k.closedReaderOk && k.reporterOk
                             && k.memlockOk && Attached(k).err.None?)
      ensures !stopped ==> outcome == Running && log == old(log) + (TracerHead(code, hosts) + TracerArmOps(k))
                           && deferred == old(deferred) + TracerStack(k)
      ensures stopped ==> var s := TracerBootStop(code, hosts, k).value;
                          outcome == s.outcome && log == old(log) + s.ops && deferred == old(deferred) + s.defers
      ensures modeMap == if Loads(k) then WriteMode(old(modeMap), code) else old(modeMap)
      ensures allow == if Loads(k) then SeedAll(old(allow), hosts, 1).allow else old(allow)
    {
      stopped := TracerLoad(code, hosts, k);
      if stopped {
        return;
      }
      ghost var loaded := log;
      stopped := TracerArm(k);
      if stopped {
        ghost var a := ArmStop(k).value;
        Regroup(old(log), TracerHead(code, hosts), a.ops);
        Regroup(old(deferred), [CleanCollection] + ReaderStack, a.defers);
      } else {
        Regroup(old(log), TracerHead(code, hosts), TracerArmOps(k));
        Regroup(old(deferred), [CleanCollection] + ReaderStack, Attached(k).pushed);
      }
    }

    /** `Run` of tracer.go; the suffix scan is bounded by Go's `len` of the
        hosts flag string, its length in UTF-8 bytes. */
    method RunTracer(modeFlag: string, hostsFlag: string, parsedHosts: Option<seq<IP>>, names: ModeNames,
                     codes: ModeCodes, k: Kernel, input: seq<ReadOutcome>, res: Resolver)
      requires log == [] && deferred == [] && released == [] && outcome == Running
      modifies this
      ensures CheckMode(modeFlag, names).Some? ==> outcome == Returned(Some(ModeErr(CheckMode(modeFlag, names).value)))
      ensures !TracerAdmitted(modeFlag, parsedHosts, names, k) ==>
                && outcome.Returned? && outcome.err.Some?
                && log == [] && deferred == [] && released == [] && modeMap == old(modeMap) && allow == old(allow)
      ensures TracerAdmitted(modeFlag, parsedHosts, names, k) ==>
                && log <= TracerPlan(modeFlag, parsedHosts.value, names, codes, k)
                && deferred <= TracerStack(k)
      ensures outcome.Returned? || outcome.Panicked? ==> released == Reverse(deferred)
      ensures outcome.Running? || outcome.Exited? ==> released == []
      ensures outcome.Returned? && outcome.err.Some? && outcome.err.value.AttachFailed? ==>
                && Some(outcome.err.value.cause) == Attached(k).err
                && released == Reverse(TracerStack(k))
      ensures modeMap == if TracerAdmitted(modeFlag, parsedHosts, names, k) && Loads(k)
                         then WriteMode(old(modeMap), TracerCode(modeFlag, names, codes)) else old(modeMap)
      ensures outcome == Panicked(ShortAddress) ==> parsedHosts.Some? && !AllWide(parsedHosts.value)
      ensures outcome == Panicked(SuffixIndexOutOfRange) ==> ByteLen(hostsFlag) > |AllowSuffixes|
      ensures TracerSetupOk(modeFlag, parsedHosts, names, k) ==>
                var c := Consume(SeedAll(old(allow), parsedHosts.value, 1).allow, old(event), input, ByteLen(hostsFlag), res);
                && log == TracerPlan(modeFlag, parsedHosts.value, names, codes, k) && deferred == TracerStack(k)
                && outcome == LoopOutcome(c.end) && allow == c.allow && event == c.event
      ensures !TracerSetupOk(modeFlag, parsedHosts, names, k) ==>
                outcome != Running && outcome != Returned(None) && outcome != Panicked(SuffixIndexOutOfRange)
      ensures TracerStop(modeFlag, parsedHosts, names, codes, k).Some? ==>
                var s := TracerStop(modeFlag, parsedHosts, names, codes, k).value;
                && outcome == s.outcome && log == s.ops && deferred == s.defers
                && released == if s.outcome.Exited? then [] else Reverse(s.defers)
      ensures old(allow).Keys <= allow.Keys && (AllMarked(old(allow)) ==> AllMarked(allow))
    {
      var stopped := TracerSetup(modeFlag, parsedHosts, names, codes, k);
      if stopped {
        Unwind();
        TracerEndsEarly(modeFlag, parsedHosts, names, codes, k, outcome, log, deferred, released);
        return;
      }
      TracerRunsThrough(modeFlag, parsedHosts, names, codes, k);
      Finish(input, ByteLen(hostsFlag), res);
    }
  }

  /** A bound no larger than the suffix list, such as the one of kntrl.go,
      never lets the event loop panic. */
  lemma {:induction false} NoPanicWithinBound(m: AllowMap, event: IP4Event, input: seq<ReadOutcome>, bound: nat, res: Resolver)
    requires bound <= |AllowSuffixes|
    ensures Consume(m, event, input, bound, res).end != ScanPanicked
    decreases |input|
  {
    if input != [] && !input[0].Closed? {
      var s := EventStep(m, event, input[0], bound, res);
      NoPanicWithinBound(s.allow, s.event, input[1..], bound, res);
    }
  }

  /** Some name before `v` contains suffix `i`. */
  predicate MatchBefore(names: seq<string>, v: nat, i: nat)
  {
    i < |AllowSuffixes| && exists w :: 0 <= w < v && w < |names| && Contains(names[w], AllowSuffixes[i])
  }

  lemma TestedStep(names: seq<string>, i: nat)
    requires i < |AllowSuffixes|
    ensures AnyMatch(names, Tested(i + 1)) <==> AnyMatch(names, Tested(i)) || MatchBefore(names, |names|, i)
  {
    assert Tested(i + 1) == Tested(i) + [AllowSuffixes[i]];
    if AnyMatch(names, Tested(i + 1)) {
      var v, j :| 0 <= v < |names| && 0 <= j < |Tested(i + 1)| && Contains(names[v], Tested(i + 1)[j]);
      if j == i {
        assert MatchBefore(names, |names|, i);
      } else {
        assert Contains(names[v], Tested(i)[j]);
      }
    }
    if AnyMatch(names, Tested(i)) {
      var v, j :| 0 <= v < |names| && 0 <= j < |Tested(i)| && Contains(names[v], Tested(i)[j]);
      assert Contains(names[v], Tested(i + 1)[j]);
    }
    if MatchBefore(names, |names|, i) {
      var w :| 0 <= w < |names| && Contains(names[w], AllowSuffixes[i]);
      assert Contains(names[w], Tested(i + 1)[i]);
    }
  }

  lemma TestedAll(i: nat)
    requires i >= |AllowSuffixes|
    ensures Tested(i) == AllowSuffixes
  {
  }

  lemma ReverseCons<T>(s: seq<T>)
    requires s != []
    ensures Reverse(s) == Reverse(s[1..]) + [s[0]]
  {
  }

  /** One more pass of a loop that has not failed, with its calls as
      operations. */
  lemma AttachNext(progs: seq<ProgramSpec>, oracle: Oracle, i: nat)
    requires i < |progs| && AttachUpTo(progs, oracle, i).err.None?
    ensures var prev := AttachUpTo(progs, oracle, i);
            var s := AttachStep(progs[i], i, oracle);
            && AttachUpTo(progs, oracle, i + 1) == AttachRun(prev.calls + s.calls, prev.pushed + s.pushed, s.err)
            && AsOps(prev.calls + s.calls) == AsOps(prev.calls) + AsOps(s.calls)
  {
    var prev := AttachUpTo(progs, oracle, i);
    AsOpsAppend(prev.calls, AttachStep(progs[i], i, oracle).calls);
  }

  // ------------------------------------------------------ where setups stop

  lemma ReaderStopShape(k: Kernel)
    ensures ReaderStop(k).Some? <==> !(k.eventsReaderOk && k.closedReaderOk)
    ensures ReaderStop(k).Some? ==> var s := ReaderStop(k).value;
              s.ops <= [OpenReader(EventsMap), OpenReader(ClosedEventsMap)] && s.defers <= ReaderStack && s.outcome.Exited?
  {
  }

  /** Seeding and the readers stop on a short address (a panic) or a
      reader failure (fatal), within the operations they would issue. */
  lemma SeedStopShape(hosts: seq<IP>, k: Kernel)
    ensures SeedStop(hosts, k).Some? <==> !(AllWide(hosts) && k.eventsReaderOk && k.closedReaderOk)
    ensures SeedStop(hosts, k).Some? ==> var s := SeedStop(hosts, k).value;
              && s.ops <= SeedOps(hosts, 1) + [OpenReader(EventsMap), OpenReader(ClosedEventsMap)]
              && s.defers <= ReaderStack
              && ((s.outcome == Panicked(ShortAddress) && !AllWide(hosts)) || s.outcome.Exited?)
  {
    var tail := [OpenReader(EventsMap), OpenReader(ClosedEventsMap)];
    if SeedStop(hosts, k).Some? {
      var s := SeedStop(hosts, k).value;
      if !AllWide(hosts) {
        PrefixOfConcat(SeedOps(hosts, 1), SeedOps(hosts, 1), tail);
      } else {
        ReaderStopShape(k);
        PrefixAfter(SeedOps(hosts, 1), ReaderStop(k).value.ops, tail);
      }
    }
  }

  lemma FillStopShape(hosts: seq<IP>, k: Kernel)
    ensures FillStop(hosts, k).Some? <==> !(AllWide(hosts) && k.eventsReaderOk && k.closedReaderOk && k.reporterOk)
    ensures FillStop(hosts, k).Some? ==> var s := FillStop(hosts, k).value;
              && s.ops <= SeedOps(hosts, 1) + [OpenReader(EventsMap), OpenReader(ClosedEventsMap)]
              && s.defers <= ReaderStack
              && ((s.outcome == Panicked(ShortAddress) && !AllWide(hosts)) || s.outcome.Exited?)
  {
    SeedStopShape(hosts, k);
  }

  lemma TracerLoadStopShape(code: Uint32, hosts: seq<IP>, k: Kernel)
    ensures TracerLoadStop(code, hosts, k).Some? <==>
              !(Loads(k) && AllWide(hosts) && k.eventsReaderOk && k.closedReaderOk && k.reporterOk)
    ensures TracerLoadStop(code, hosts, k).Some? ==> var s := TracerLoadStop(code, hosts, k).value;
              && s.ops <= TracerHead(code, hosts)
              && s.defers <= [CleanCollection] + ReaderStack
              && ((s.outcome == Panicked(ShortAddress) && !AllWide(hosts)) || s.outcome.Exited?)
  {
    FillStopShape(hosts, k);
    var tail := SeedOps(hosts, 1) + [OpenReader(EventsMap), OpenReader(ClosedEventsMap)];
    assert TracerHead(code, hosts) == [ClientLoad, PutMode(code)] + tail;
    if Loads(k) && FillStop(hosts, k).Some? {
      var f := FillStop(hosts, k).value;
      PrefixAfter([ClientLoad, PutMode(code)], f.ops, tail);
      PrefixAfter([CleanCollection], f.defers, ReaderStack);
    }
  }

  lemma ArmStopShape(k: Kernel)
    ensures ArmStop(k).Some? <==> !(k.memlockOk && Attached(k).err.None?)
    ensures ArmStop(k).Some? ==> var s := ArmStop(k).value;
              && s.ops <= TracerArmOps(k)
              && s.defers == (if k.memlockOk then Attached(k).pushed else [])
              && s.outcome.Returned? && s.outcome.err.Some?
              && (s.outcome.err.value.AttachFailed? ==> k.memlockOk && Some(s.outcome.err.value.cause) == Attached(k).err)
  {
  }

  /** tracer.go after its guards stops within its plan; an attach failure
      leaves the whole stack deferred. */
  lemma TracerBootStopShape(code: Uint32, hosts: seq<IP>, k: Kernel)
    ensures TracerBootStop(code, hosts, k).Some? <==>
              !(Loads(k) && AllWide(hosts) && k.eventsReaderOk && k.closedReaderOk && k.reporterOk
                && k.memlockOk && Attached(k).err.None?)
    ensures TracerBootStop(code, hosts, k).Some? ==> var s := TracerBootStop(code, hosts, k).value;
              && s.ops <= TracerHead(code, hosts) + TracerArmOps(k)
              && s.defers <= TracerStack(k)
              && ((s.outcome.Returned? && s.outcome.err.Some?) || s.outcome.Exited? || s.outcome == Panicked(ShortAddress))
              && (s.outcome == Panicked(ShortAddress) ==> !AllWide(hosts))
              && (s.outcome.Returned? && s.outcome.err.Some? && s.outcome.err.value.AttachFailed? ==>
                    Some(s.outcome.err.value.cause) == Attached(k).err && s.defers == TracerStack(k))
  {
    TracerLoadStopShape(code, hosts, k);
    ArmStopShape(k);
    var head := TracerHead(code, hosts);
    var loaded := [CleanCollection] + ReaderStack;
    assert TracerStack(k) == loaded + Attached(k).pushed;
    if TracerLoadStop(code, hosts, k).Some? {
      var s := TracerLoadStop(code, hosts, k).value;
      PrefixOfConcat(s.ops, head, TracerArmOps(k));
      PrefixOfConcat(s.defers, loaded, Attached(k).pushed);
    } else if ArmStop(k).Some? {
      var a := ArmStop(k).value;
      PrefixAfter(head, a.ops, TracerArmOps(k));
      if !k.memlockOk {
        assert loaded + a.defers == loaded;
        PrefixOfConcat(loaded, loaded, Attached(k).pushed);
      }
    }
  }

  /** Where tracer.go's setup stops lies within its plan, and a guard that
      fails stops it before anything kernel-side. */
  lemma TracerStopShape(modeFlag: string, parsedHosts: Option<seq<IP>>, names: ModeNames, codes: ModeCodes, k: Kernel)
    ensures TracerStop(modeFlag, parsedHosts, names, codes, k).None? <==> TracerSetupOk(modeFlag, parsedHosts, names, k)
    ensures TracerStop(modeFlag, parsedHosts, names, codes, k).Some? ==>
              var s := TracerStop(modeFlag, parsedHosts, names, codes, k).value;
              && (!TracerAdmitted(modeFlag, parsedHosts, names, k) ==>
                    s.ops == [] && s.defers == [] && s.outcome.Returned? && s.outcome.err.Some?)
              && (TracerAdmitted(modeFlag, parsedHosts, names, k) ==>
                    s.ops <= TracerPlan(modeFlag, parsedHosts.value, names, codes, k) && s.defers <= TracerStack(k))
              && (CheckMode(modeFlag, names).Some? ==> s.outcome == Returned(Some(ModeErr(CheckMode(modeFlag, names).value))))
              && ((s.outcome.Returned? && s.outcome.err.Some?) || s.outcome.Exited? || s.outcome == Panicked(ShortAddress))
              && (s.outcome == Panicked(ShortAddress) ==> parsedHosts.Some? && !AllWide(parsedHosts.value))
              && (s.outcome.Returned? && s.outcome.err.Some? && s.outcome.err.value.AttachFailed? ==>
                    Some(s.outcome.err.value.cause) == Attached(k).err && s.defers == TracerStack(k))
  {
    if TracerAdmitted(modeFlag, parsedHosts, names, k) {
      TracerBootStopShape(TracerCode(modeFlag, names, codes), parsedHosts.value, k);
    }
  }

  /** A tracer.go run that stops in its setup: where it stops, and what it
      releases on the way out. */
  lemma TracerEndsEarly(modeFlag: string, parsedHosts: Option<seq<IP>>, names: ModeNames, codes: ModeCodes, k: Kernel,
                        outcome: Outcome, log: seq<Op>, deferred: seq<Release>, released: seq<Release>)
    requires !TracerSetupOk(modeFlag, parsedHosts, names, k)
    requires var s := TracerStop(modeFlag, parsedHosts, names, codes, k).value;
             outcome == s.outcome && log == s.ops && deferred == s.defers
    requires released == if outcome.Exited? then [] else Reverse(deferred)
    ensures CheckMode(modeFlag, names).Some? ==> outcome == Returned(Some(ModeErr(CheckMode(modeFlag, names).value)))
    ensures !TracerAdmitted(modeFlag, parsedHosts, names, k) ==>
              outcome.Returned? && outcome.err.Some? && log == [] && deferred == [] && released == []
    ensures TracerAdmitted(modeFlag, parsedHosts, names, k) ==>
              log <= TracerPlan(modeFlag, parsedHosts.value, names, codes, k) && deferred <= TracerStack(k)
    ensures outcome.Returned? || outcome.Panicked? ==> released == Reverse(deferred)
    ensures !outcome.Running? && (outcome.Exited? ==> released == [])
    ensures outcome.Returned? && outcome.err.Some? && outcome.err.value.AttachFailed? ==>
              Some(outcome.err.value.cause) == Attached(k).err && released == Reverse(TracerStack(k))
    ensures outcome == Panicked(ShortAddress) ==> parsedHosts.Some? && !AllWide(parsedHosts.value)
    ensures outcome != Returned(None) && outcome != Panicked(SuffixIndexOutOfRange)
  {
    TracerStopShape(modeFlag, parsedHosts, names, codes, k);
  }

  /** A tracer.go setup that completes passed every guard and stopped nowhere. */
  lemma TracerRunsThrough(modeFlag: string, parsedHosts: Option<seq<IP>>, names: ModeNames, codes: ModeCodes, k: Kernel)
    requires TracerSetupOk(modeFlag, parsedHosts, names, k)
    ensures CheckMode(modeFlag, names) == None && parsedHosts.Some? && TracerAdmitted(modeFlag, parsedHosts, names, k)
    ensures Loads(k) && TracerStop(modeFlag, parsedHosts, names, codes, k).None?
  {
    TracerStopShape(modeFlag, parsedHosts, names, codes, k);
  }

  /** Which failures of tracer.go exit through `Fatalf`, so that no
      deferred release runs: the load, a reader and the reporter. The
      guards, memlock and attaching return instead, and a short address
      panics. */
  lemma TracerStopExits(modeFlag: string, parsedHosts: Option<seq<IP>>, names: ModeNames, codes: ModeCodes, k: Kernel)
    ensures var stop := TracerStop(modeFlag, parsedHosts, names, codes, k);
            stop.Some? && stop.value.outcome.Exited? <==>
              && TracerAdmitted(modeFlag, parsedHosts, names, k)
              && (!Loads(k) || (AllWide(parsedHosts.value) && !(k.eventsReaderOk && k.closedReaderOk && k.reporterOk)))
  {
    if TracerAdmitted(modeFlag, parsedHosts, names, k) {
      var code := TracerCode(modeFlag, names, codes);
      var hosts := parsedHosts.value;
      if Loads(k) && AllWide(hosts) && FillStop(hosts, k).None? {
        assert TracerLoadStop(code, hosts, k).None?;
      }
    }
  }

  lemma KntrlPrepStopShape(k: Kernel)
    ensures KntrlPrepStop(k).Some? <==> !KntrlPrepared(k)
    ensures KntrlPrepStop(k).Some? ==> var s := KntrlPrepStop(k).value;
              && s.ops <= KntrlPrep(k)
              && s.defers <= [CleanCollection] + Attached(k).pushed && s.defers != []
              && ((s.outcome.Returned? && s.outcome.err.Some?) || s.outcome.Exited?)
              && (!k.isRoot ==> s == Stop(Returned(Some(NotRoot)), [], [CleanCollection]))
              && (s.outcome.Returned? && s.outcome.err.Some? && s.outcome.err.value.AttachFailed? ==>
                    Some(s.outcome.err.value.cause) == Attached(k).err && s.defers == [CleanCollection] + Attached(k).pushed)
  {
    var three := [RemoveMemlock, LoadSpec, NewCollection];
    PrefixOfConcat([CleanCollection], [CleanCollection], Attached(k).pushed);
    if k.isRoot && !k.memlockOk {
      PrefixOfConcat([RemoveMemlock], three, AsOps(Attached(k).calls));
    } else if k.isRoot && !Loads(k) {
      PrefixOfConcat(KntrlPrepStop(k).value.ops, three, AsOps(Attached(k).calls));
    }
  }

  lemma KntrlTailStopShape(mode: Uint32, hosts: seq<IP>, k: Kernel)
    ensures KntrlTailStop(mode, hosts, k).Some? <==> !(AllWide(hosts) && k.eventsReaderOk && k.closedReaderOk)
    ensures KntrlTailStop(mode, hosts, k).Some? ==> var s := KntrlTailStop(mode, hosts, k).value;
              && s.ops <= KntrlTail(mode, hosts) && s.defers <= ReaderStack
              && ((s.outcome == Panicked(ShortAddress) && !AllWide(hosts)) || s.outcome.Exited?)
  {
    SeedStopShape(hosts, k);
    var tail := SeedOps(hosts, 1) + [OpenReader(EventsMap), OpenReader(ClosedEventsMap)];
    assert KntrlTail(mode, hosts) == [PutMode(mode)] + tail;
    if SeedStop(hosts, k).Some? {
      PrefixAfter([PutMode(mode)], SeedStop(hosts, k).value.ops, tail);
    }
  }

  /** Where kntrl.go's setup stops lies within its plan; the collection's
      release is always deferred by then. */
  lemma KntrlStopShape(mode: Uint32, hosts: seq<IP>, k: Kernel)
    ensures KntrlStop(mode, hosts, k).None? <==> KntrlSetupOk(hosts, k)
    ensures KntrlStop(mode, hosts, k).Some? ==> var s := KntrlStop(mode, hosts, k).value;
              && s.ops <= KntrlPlan(mode, hosts, k) && s.defers <= KntrlStack(k) && s.defers != []
              && ((s.outcome.Returned? && s.outcome.err.Some?) || s.outcome.Exited? || s.outcome == Panicked(ShortAddress))
              && (s.outcome == Panicked(ShortAddress) ==> !AllWide(hosts))
              && (!k.isRoot ==> s == Stop(Returned(Some(NotRoot)), [], [CleanCollection]))
              && (s.outcome.Returned? && s.outcome.err.Some? && s.outcome.err.value.AttachFailed? ==>
                    Some(s.outcome.err.value.cause) == Attached(k).err && s.defers == [CleanCollection] + Attached(k).pushed)
  {
    KntrlPrepStopShape(k);
    KntrlTailStopShape(mode, hosts, k);
    var prep := KntrlPrep(k);
    var stacked := [CleanCollection] + Attached(k).pushed;
    assert KntrlPlan(mode, hosts, k) == prep + KntrlTail(mode, hosts);
    assert KntrlStack(k) == stacked + ReaderStack;
    if KntrlPrepStop(k).Some? {
      var s := KntrlPrepStop(k).value;
      PrefixOfConcat(s.ops, prep, KntrlTail(mode, hosts));
      PrefixOfConcat(s.defers, stacked, ReaderStack);
    } else if KntrlTailStop(mode, hosts, k).Some? {
      var t := KntrlTailStop(mode, hosts, k).value;
      PrefixAfter(prep, t.ops, KntrlTail(mode, hosts));
      PrefixAfter(stacked, t.defers, ReaderStack);
    }
  }

  /** A kntrl.go run that stops in its setup: where it stops, and what it
      releases on the way out. */
  lemma KntrlEndsEarly(mode: Uint32, hosts: seq<IP>, k: Kernel,
                       outcome: Outcome, log: seq<Op>, deferred: seq<Release>, released: seq<Release>)
    requires !KntrlSetupOk(hosts, k)
    requires var s := KntrlStop(mode, hosts, k).value;
             outcome == s.outcome && log == s.ops && deferred == s.defers
    requires released == if outcome.Exited? then [] else Reverse(deferred)
    ensures log <= KntrlPlan(mode, hosts, k) && deferred <= KntrlStack(k) && deferred != []
    ensures outcome.Returned? || outcome.Panicked? ==> released == Reverse(deferred)
    ensures !outcome.Running? && (outcome.Exited? ==> released == [])
    ensures !k.isRoot ==> outcome == Returned(Some(NotRoot)) && log == [] && released == [CleanCollection]
    ensures outcome.Returned? && outcome.err.Some? && outcome.err.value.AttachFailed? ==>
              && Some(outcome.err.value.cause) == Attached(k).err
              && released == Reverse([CleanCollection] + Attached(k).pushed)
    ensures outcome == Panicked(ShortAddress) ==> !AllWide(hosts)
    ensures outcome != Returned(None) && outcome != Panicked(SuffixIndexOutOfRange)
  {
    KntrlStopShape(mode, hosts, k);
    if !k.isRoot {
      assert Reverse([CleanCollection]) == [CleanCollection];
    }
  }

  /** A kntrl.go setup that completes got through attaching and stopped nowhere. */
  lemma KntrlRunsThrough(mode: Uint32, hosts: seq<IP>, k: Kernel)
    requires KntrlSetupOk(hosts, k)
    ensures k.isRoot && KntrlPrepared(k) && KntrlStop(mode, hosts, k).None?
  {
    KntrlStopShape(mode, hosts, k);
  }

  /** Which failures of kntrl.go exit through `Fatalf`, so that no deferred
      release runs: the load and a reader. Root, memlock and attaching
      return instead, and a short address panics. */
  lemma KntrlStopExits(mode: Uint32, hosts: seq<IP>, k: Kernel)
    ensures var stop := KntrlStop(mode, hosts, k);
            stop.Some? && stop.value.outcome.Exited? <==>
              && k.isRoot && k.memlockOk
              && (!Loads(k) || (Attached(k).err.None? && AllWide(hosts) && !(k.eventsReaderOk && k.closedReaderOk)))
  {
    if k.isRoot && k.memlockOk && Loads(k) && Attached(k).err.None? && AllWide(hosts) {
      assert KntrlPrepStop(k).None?;
    }
  }

  /** A log that grew in two steps. */
  lemma Regroup<T>(o: seq<T>, a: seq<T>, b: seq<T>)
    ensures o + a + b == o + (a + b)
  {
  }

  /** A log that grew by one entry and then by `rest`. */
  lemma PushOne<T>(o: seq<T>, x: T, rest: seq<T>)
    ensures o + [x] + rest == o + ([x] + rest)
  {
  }

  /** A log that grew by one entry, then by `a`, then by `b`. */
  lemma PushThen<T>(o: seq<T>, x: T, a: seq<T>, b: seq<T>)
    ensures o + [x] + a + b == o + ([x] + (a + b))
    ensures o + [x] + a + b == o + ([x] + a + b)
  {
  }

  /** A log that grew by two entries and then by `rest`. */
  lemma PushTwo<T>(o: seq<T>, x: T, y: T, rest: seq<T>)
    ensures o + [x] + [y] + rest == o + ([x, y] + rest)
  {
    assert [x] + [y] == [x, y];
  }

  /** Extending the front of a prefix and of what it prefixes alike. */
  lemma PrefixAfter<T>(c: seq<T>, a: seq<T>, b: seq<T>)
    requires a <= b
    ensures c + a <= c + b
  {
    assert (c + b)[..|c + a|] == c + b[..|a|];
  }

  /** A prefix of `h` is a prefix of anything `h` starts. */
  lemma PrefixOfConcat<T>(a: seq<T>, h: seq<T>, b: seq<T>)
    requires a <= h
    ensures a <= h + b
  {
    assert (h + b)[..|a|] == h[..|a|];
  }

  /** A loop that has stopped on an error stays stopped. */
  lemma {:induction false} AttachStable(progs: seq<ProgramSpec>, oracle: Oracle, n: nat, m: nat)
    requires n <= m <= |progs|
    requires AttachUpTo(progs, oracle, n).err.Some?
    ensures AttachUpTo(progs, oracle, m) == AttachUpTo(progs, oracle, n)
    decreases m
  {
    if m > n {
      AttachStable(progs, oracle, n, m - 1);
    }
  }
}
