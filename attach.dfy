/** Attach dispatch: each loaded program is linked to the one hook its kind
    calls for; unrecognised kinds are skipped with a warning; the first
    failure ends the loop. Each successful link (and each cgroup directory
    opened for one) is a Go `defer`, released last-in first-out when `Run`
    returns. The kernel and file system calls are an oracle. */
module Attach {
  import opened Common

  const RootCgroup: string := "/sys/fs/cgroup"
  const TracepointGroup: string := "syscalls"
  const TracepointName: string := "sys_enter_connect"

  /** `spec.Type`, as far as the dispatch distinguishes it. */
  datatype ProgramKind = Kprobe | Tracing | TracePoint | CGroupSKB | Other

  /** One entry of `Spec.Programs`: its name, kind and `AttachTo` symbol. */
  datatype ProgramSpec = ProgramSpec(name: string, kind: ProgramKind, attachTo: string)

  datatype CgroupAttach = InetEgress

  /** The hook a program is linked to. */
  datatype Hook =
    | KprobeHook(symbol: string)
    | TracingHook
    | TracepointHook(group: string, event: string)
    | CgroupHook(path: string, attach: CgroupAttach)

  /** The one hook each recognised kind is linked to. */
  function HookFor(p: ProgramSpec): (r: Option<Hook>)
    ensures r.None? <==> p.kind == Other
  {
    match p.kind
    case Kprobe => Some(KprobeHook(p.attachTo))
    case Tracing => Some(TracingHook)
    case TracePoint => Some(TracepointHook(TracepointGroup, TracepointName))
    case CGroupSKB => Some(CgroupHook(RootCgroup, InetEgress))
    case Other => None
  }

  /** Whether `os.Open(rootCgroup)` succeeds when program `i` needs it, and
      whether linking program `i` to a hook succeeds. */
  datatype Oracle = Oracle(openOk: nat -> bool, linkOk: (nat, Hook) -> bool)

  /** A call the loop makes on behalf of program `prog`. */
  datatype Call = OpenDir(prog: nat, path: string) | Link(prog: nat, hook: Hook)

  datatype AttachError = OpenFailed(prog: nat, path: string) | LinkFailed(prog: nat, hook: Hook)

  /** A deferred release: a link, the cgroup directory opened for a program,
      the loaded collection, a perf reader. */
  datatype Release =
    | CloseLink(prog: nat)
    | CloseFile(prog: nat, path: string)
    | CleanCollection
    | CloseReader(name: string)

  /** The calls made, the releases deferred and the error, if any. */
  datatype AttachRun = AttachRun(calls: seq<Call>, pushed: seq<Release>, err: Option<AttachError>)

  /** One pass of the loop body, for program `i`. A cgroup program opens
      the root cgroup directory first; its release is deferred only once
      the link succeeded. */
  function AttachStep(p: ProgramSpec, i: nat, oracle: Oracle): (r: AttachRun)
    ensures p.kind == Other <==> r.calls == []
    ensures r.err.Some? ==> r.pushed == []
    ensures |r.pushed| <= 2
  {
    match HookFor(p)
    case None => AttachRun([], [], None)
    case Some(h) =>
      if p.kind == CGroupSKB then
        if !oracle.openOk(i) then AttachRun([OpenDir(i, RootCgroup)], [], Some(OpenFailed(i, RootCgroup)))
        else if !oracle.linkOk(i, h) then
          AttachRun([OpenDir(i, RootCgroup), Link(i, h)], [], Some(LinkFailed(i, h)))
        else AttachRun([OpenDir(i, RootCgroup), Link(i, h)], [CloseLink(i), CloseFile(i, RootCgroup)], None)
      else if !oracle.linkOk(i, h) then AttachRun([Link(i, h)], [], Some(LinkFailed(i, h)))
      else AttachRun([Link(i, h)], [CloseLink(i)], None)
  }

  /** A pass succeeds exactly when the kind is unrecognised, or the cgroup
      directory opens (for a cgroup program) and the link succeeds. The
      directory is opened first, and only for a cgroup program; on success
      the link is the last call and its release the first one deferred. */
  lemma AttachStepSpec(p: ProgramSpec, i: nat, oracle: Oracle)
    ensures var r := AttachStep(p, i, oracle);
            && (r.err.None? <==> p.kind == Other
                                 || ((p.kind != CGroupSKB || oracle.openOk(i)) && oracle.linkOk(i, HookFor(p).value)))
            && (r.calls != [] ==> (r.calls[0] == OpenDir(i, RootCgroup) <==> p.kind == CGroupSKB))
            && (r.err.None? && p.kind != Other ==>
                  && r.calls[|r.calls| - 1] == Link(i, HookFor(p).value)
                  && r.pushed != [] && r.pushed[0] == CloseLink(i))
  {
  }

  /** The loop over the first `n` programs, stopping at the first error. */
  function AttachUpTo(progs: seq<ProgramSpec>, oracle: Oracle, n: nat): (r: AttachRun)
    requires n <= |progs|
    ensures |r.pushed| <= 2 * n
    ensures r.err.Some? ==> r.err.value.prog < n
  {
    if n == 0 then AttachRun([], [], None)
    else
      var prev := AttachUpTo(progs, oracle, n - 1);
      if prev.err.Some? then prev
      else
        var s := AttachStep(progs[n - 1], n - 1, oracle);
        AttachRun(prev.calls + s.calls, prev.pushed + s.pushed, s.err)
  }

  /** Program `k` was attached (or skipped) without error. */
  predicate StepOk(progs: seq<ProgramSpec>, oracle: Oracle, k: nat)
    requires k < |progs|
  {
    AttachStep(progs[k], k, oracle).err.None?
  }

  /** Every call and every release concerns one of the first `n` programs. */
  lemma {:induction false} CallsInRange(progs: seq<ProgramSpec>, oracle: Oracle, n: nat)
    requires n <= |progs|
    ensures forall c :: c in AttachUpTo(progs, oracle, n).calls ==> c.prog < n
    ensures forall r :: r in AttachUpTo(progs, oracle, n).pushed ==> (r.CloseLink? || r.CloseFile?) && r.prog < n
  {
    if n > 0 {
      CallsInRange(progs, oracle, n - 1);
    }
  }

  /** The loop succeeds exactly when every program's step does. */
  lemma {:induction false} AttachSucceedsIff(progs: seq<ProgramSpec>, oracle: Oracle, n: nat)
    requires n <= |progs|
    ensures AttachUpTo(progs, oracle, n).err.None? <==> forall k :: 0 <= k < n ==> StepOk(progs, oracle, k)
  {
    if n > 0 {
      AttachSucceedsIff(progs, oracle, n - 1);
      if AttachUpTo(progs, oracle, n - 1).err.Some? {
        var k :| 0 <= k < n - 1 && !StepOk(progs, oracle, k);
        assert !StepOk(progs, oracle, k);
      } else if StepOk(progs, oracle, n - 1) {
        forall k | 0 <= k < n ensures StepOk(progs, oracle, k) {
          if k < n - 1 {
            assert StepOk(progs, oracle, k);
          }
        }
      }
    }
  }

  /** The error returned is that of the first failing program; no program
      after it is touched. */
  lemma {:induction false} AttachFailsAtFirst(progs: seq<ProgramSpec>, oracle: Oracle, n: nat)
    requires n <= |progs|
    requires AttachUpTo(progs, oracle, n).err.Some?
    ensures exists k :: 0 <= k < n
              && (forall j :: 0 <= j < k ==> StepOk(progs, oracle, j))
              && AttachUpTo(progs, oracle, n).err == AttachStep(progs[k], k, oracle).err
              && (forall c :: c in AttachUpTo(progs, oracle, n).calls ==> c.prog <= k)
  {
    var prev := AttachUpTo(progs, oracle, n - 1);
    if prev.err.Some? {
      AttachFailsAtFirst(progs, oracle, n - 1);
      assert AttachUpTo(progs, oracle, n) == prev;
    } else {
      AttachSucceedsIff(progs, oracle, n - 1);
      CallsInRange(progs, oracle, n);
      var k := n - 1;
      assert forall j :: 0 <= j < k ==> StepOk(progs, oracle, j);
      assert AttachUpTo(progs, oracle, n).err == AttachStep(progs[k], k, oracle).err;
    }
  }

  /** After a successful loop every recognised program holds a deferred
      link release, cgroup programs also a directory release, and
      unrecognised programs were never touched. */
  lemma {:induction false} AttachSuccessReleases(progs: seq<ProgramSpec>, oracle: Oracle, n: nat)
    requires n <= |progs|
    requires AttachUpTo(progs, oracle, n).err.None?
    ensures forall k :: 0 <= k < n && progs[k].kind != Other ==> CloseLink(k) in AttachUpTo(progs, oracle, n).pushed
    ensures forall k :: 0 <= k < n && progs[k].kind == CGroupSKB ==>
              CloseFile(k, RootCgroup) in AttachUpTo(progs, oracle, n).pushed
    ensures forall c :: c in AttachUpTo(progs, oracle, n).calls ==> c.prog < n && progs[c.prog].kind != Other
  {
    if n > 0 {
      AttachSuccessReleases(progs, oracle, n - 1);
      CallsInRange(progs, oracle, n - 1);
    }
  }

  /** When a cgroup program's link fails after its directory was opened, the
      directory has no deferred release: it stays open. */
  lemma CgroupDirNotReleasedOnLinkFailure(progs: seq<ProgramSpec>, oracle: Oracle, n: nat, k: nat)
    requires n <= |progs| && k < n
    requires AttachUpTo(progs, oracle, n).err == Some(LinkFailed(k, CgroupHook(RootCgroup, InetEgress)))
    ensures OpenDir(k, RootCgroup) in AttachUpTo(progs, oracle, n).calls
    ensures CloseFile(k, RootCgroup) !in AttachUpTo(progs, oracle, n).pushed
  {
    AttachFailsAtFirst(progs, oracle, n);
    var j :| 0 <= j < n
              && (forall i :: 0 <= i < j ==> StepOk(progs, oracle, i))
              && AttachUpTo(progs, oracle, n).err == AttachStep(progs[j], j, oracle).err
              && (forall c :: c in AttachUpTo(progs, oracle, n).calls ==> c.prog <= j);
    assert j == k;
    StopsAt(progs, oracle, n, k);
    CallsInRange(progs, oracle, k);
  }

  /** A loop that failed at program `k` is the loop up to `k` followed by
      `k`'s failing step. */
  lemma {:induction false} StopsAt(progs: seq<ProgramSpec>, oracle: Oracle, n: nat, k: nat)
    requires k < n <= |progs|
    requires forall i :: 0 <= i < k ==> StepOk(progs, oracle, i)
    requires !StepOk(progs, oracle, k)
    ensures var prev := AttachUpTo(progs, oracle, k);
            var s := AttachStep(progs[k], k, oracle);
            AttachUpTo(progs, oracle, n) == AttachRun(prev.calls + s.calls, prev.pushed + s.pushed, s.err)
  {
    if n > k + 1 {
      StopsAt(progs, oracle, n - 1, k);
    } else {
      AttachSucceedsIff(progs, oracle, k);
    }
  }
}
