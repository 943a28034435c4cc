/** The helper process: it carries out commands on the volume step by step and may die before any step.

Each command is proved to take exactly the steps its plan lists, or a prefix of them when it dies.
The read-back comparisons the helper makes after its own copies (digest of the copy against digest of
the source, and "did the source change") appear as assertions: nothing else writes while it runs.

Methods follow the commands' own structure. A method of one part promises the steps of that part; the
callers chain these promises, and a process that has died promises a prefix of whatever was planned.
*/
module RestoreHelper {
  import opened Common
  import opened Volume
  import opened RestorePlan
  import opened RestoreInvariant
  import opened ActivateSafety
  import opened RollbackSafety
  import opened RestoreRuns

  lemma PrefixOfLonger(t: seq<Op>, a: seq<Op>, b: seq<Op>)
    requires t <= a
    ensures t <= a + b
  {
    assert (a + b)[..|t|] == a[..|t|];
  }

  class Process {
    var disk: Disk
    var stepsLeft: nat       // primitive steps before the process dies
    var crashed: bool
    ghost var origin: Disk   // the volume when the command started
    ghost var trace: seq<Op> // the steps taken since

    constructor (d: Disk, steps: nat)
      ensures disk == d == origin && stepsLeft == steps && !crashed && trace == [] && Valid()
    {
      disk, stepsLeft, crashed, origin, trace := d, steps, false, d, [];
    }

    ghost predicate Valid()
      reads this
    {
      disk == Run(origin, trace)
    }

    // After `t`, the process took all of `ops`, or died within them.
    ghost predicate Took(t: seq<Op>, ops: seq<Op>)
      reads this
    {
      && t <= trace
      && (if crashed then trace <= t + ops else trace == t + ops)
      && (crashed ==> stepsLeft == 0)
    }

    method Step(op: Op)
      requires Valid() && !crashed
      modifies this
      ensures Valid() && origin == old(origin)
      ensures crashed == (old(stepsLeft) == 0)
      ensures crashed ==> disk == old(disk) && trace == old(trace) && stepsLeft == 0
      ensures !crashed ==> disk == Apply(old(disk), op) && trace == old(trace) + [op] && stepsLeft == old(stepsLeft) - 1
    {
      if stepsLeft == 0 {
        crashed := true;
        return;
      }
      RunSnoc(origin, trace, op);
      disk, trace, stepsLeft := Apply(disk, op), trace + [op], stepsLeft - 1;
    }

    // `open("xb")`: the target must not exist.
    method CopyDurable(source: Path, target: Path, torn: Bytes)
      requires Valid() && !crashed && source in disk.files && target !in disk.files
      modifies this
      ensures Valid() && origin == old(origin)
      ensures Took(old(trace), Copy(target, old(disk).files[source], torn))
      ensures !crashed ==> disk == Run(old(disk), Copy(target, old(disk).files[source], torn))
    {
      ghost var d, t := disk, trace;
      var bytes := disk.files[source];
      CopyRun(d, target, bytes, torn);
      Step(Put(target, torn));
      if !crashed {
        Step(Put(target, bytes));
        assert !crashed ==> disk.files == d.files[target := bytes];
      }
      assert [Put(target, torn), Put(target, bytes)] == [Put(target, torn)] + [Put(target, bytes)];
    }

    method CopyOne(place: Place, m: Member, torn: Bytes) returns (digest: Option<Digest>)
      requires Valid() && !crashed && At(place, m) !in disk.files
      modifies this
      ensures Valid() && origin == old(origin)
      ensures Took(old(trace), CopyMember(place, m, Source(place, old(disk).files), torn))
      ensures !crashed ==> disk == Run(old(disk), CopyMember(place, m, Source(place, old(disk).files), torn))
      ensures !crashed ==> forall p | p != At(place, m) :: SameAt(old(disk), disk, p)
      ensures !crashed ==> digest == DigestAt(Source(place, old(disk).files), m)
    {
      digest := None;
      if From(place, m) in disk.files {
        ghost var d := disk;
        var before := Sha(disk.files[From(place, m)]);
        digest := Some(before);
        CopyDurable(From(place, m), At(place, m), torn);
        CopyRun(d, At(place, m), d.files[From(place, m)], torn);
        if !crashed {
          assert Sha(disk.files[At(place, m)]) == before && Sha(disk.files[From(place, m)]) == before;
        }
      }
    }

    // The live family (or, into the scratch directory, the archived one), copied member by member.
    method CopyMembers(place: Place, torn: Bytes) returns (digests: map<Member, Digest>)
      requires Valid() && !crashed
      requires forall m :: At(place, m) !in disk.files
      modifies this
      ensures Valid() && origin == old(origin)
      ensures Took(old(trace), CopyFamily(place, Source(place, old(disk).files), torn))
      ensures !crashed ==> disk == Run(old(disk), CopyFamily(place, Source(place, old(disk).files), torn))
      ensures !crashed ==> digests == Digests(Source(place, old(disk).files))
    {
      ghost var d, t := disk, trace;
      ghost var family := Source(place, disk.files);
      digests := map[];
      for i := 0 to 3
        invariant Valid() && origin == old(origin) && !crashed
        invariant trace == t + UpTo(place, family, torn, i)
        invariant disk == Run(d, UpTo(place, family, torn, i))
        invariant digests == DigestsUpTo(family, i)
        invariant Ready(d, disk, place, i)
      {
        ghost var before := disk;
        ReadySource(d, disk, place, i);
        var digest := CopyOne(place, ORDER[i], torn);
        UpToNext(place, family, torn, i, t, trace);
        if crashed {
          return;
        }
        CopiedNext(d, before, disk, place, torn, i);
        if digest.Some? {
          digests := digests[ORDER[i] := digest.value];
        }
        DigestsNext(family, i);
      }
      DigestsAll(family);
      UpToAll(place, family, torn);
    }

    method DisplaceSidecars(forward: bool)
      requires Valid() && !crashed
      requires forall m | m != Main && Live(m) in disk.files :: Aside(forward, m) !in disk.files
      modifies this
      ensures Valid() && origin == old(origin)
      ensures Took(old(trace), Displace(old(disk).files, forward))
      ensures !crashed ==> disk == Run(old(disk), Displace(old(disk).files, forward))
    {
      ghost var d, t := disk, trace;
      ghost var a := if Live(Wal) in d.files then [Rename(Live(Wal), Aside(forward, Wal))] else [];
      ghost var b := if Live(Shm) in d.files then [Rename(Live(Shm), Aside(forward, Shm))] else [];
      assert Displace(d.files, forward) == a + b;
      if Live(Wal) in disk.files {
        Step(Rename(Live(Wal), Aside(forward, Wal)));
        if crashed {
          assert trace + (a + b) == t + (a + b);
          return;
        }
        RunSnoc(d, [], Rename(Live(Wal), Aside(forward, Wal)));
        assert [] + a == a;
      }
      assert disk == Run(d, a) && trace == t + a;
      if Live(Shm) in disk.files {
        Step(Rename(Live(Shm), Aside(forward, Shm)));
        if crashed {
          PrefixOfLonger(trace, t + a, b);
          assert t + a + b == t + (a + b);
          return;
        }
        RunSnoc(d, a, Rename(Live(Shm), Aside(forward, Shm)));
      }
      assert t + a + b == t + (a + b);
    }

    // `_remove_incoming`: only a leftover byte-identical to the candidate is removed.
    method RemoveLeftover(sha: Digest)
      requires Valid() && !crashed
      modifies this
      ensures Valid() && origin == old(origin)
      ensures Took(old(trace), RemoveIncoming(old(disk).files, sha))
      ensures !crashed ==> disk == Run(old(disk), RemoveIncoming(old(disk).files, sha))
    {
      if Incoming in disk.files && Sha(disk.files[Incoming]) == sha {
        RunSnoc(disk, [], Unlink(Incoming));
        assert [] + [Unlink(Incoming)] == [Unlink(Incoming)];
        Step(Unlink(Incoming));
      }
    }

    // `_require_writable`: probe the installed file and record the outcome.
    method RecordProbe(state: Record, probeOk: bool)
      requires Valid() && !crashed
      modifies this
      ensures Valid() && origin == old(origin)
      ensures Took(old(trace), ProbeAndRecord(state, probeOk))
      ensures !crashed ==> disk == Run(old(disk), ProbeAndRecord(state, probeOk))
    {
      ghost var t := trace;
      TwoSteps(disk, ProbeWrite(probeOk), Save(state.(writeProbe := Some(ProbeResult(probeOk)))));
      Step(ProbeWrite(probeOk));
      if !crashed {
        Step(Save(state.(writeProbe := Some(ProbeResult(probeOk)))));
      }
      SplitTwo(t, ProbeWrite(probeOk), Save(state.(writeProbe := Some(ProbeResult(probeOk)))));
    }

    method Opening(info: Info)
      requires Valid() && !crashed
      modifies this
      ensures Valid() && origin == old(origin)
      ensures Took(old(trace), OpenArchive(info))
      ensures !crashed ==> disk == Run(old(disk), OpenArchive(info))
    {
      ThreeSteps(disk, trace, Mkdir(Recovery), Save(ArchivingRecord(info)), Mkdir(RawDir));
      Step(Mkdir(Recovery));
      if !crashed {
        Step(Save(ArchivingRecord(info)));
      }
      if !crashed {
        Step(Mkdir(RawDir));
      }
    }

    method Archive(info: Info, torn: Bytes) returns (state: Record)
      requires Valid() && !crashed && forall m :: RawOld(m) !in disk.files
      modifies this
      ensures Valid() && origin == old(origin)
      ensures Took(old(trace), ArchiveSteps(info, LiveFamily(old(disk).files), torn))
      ensures !crashed ==> disk == Run(old(disk), ArchiveSteps(info, LiveFamily(old(disk).files), torn))
      ensures !crashed ==> state == ArchivingRecord(info).(rawFiles := Digests(LiveFamily(old(disk).files)))
    {
      ghost var d, t := disk, trace;
      ghost var family := LiveFamily(disk.files);
      ghost var a, b := OpenArchive(info), CopyFamily(InRaw, family, torn);
      ghost var c := [Save(ArchivingRecord(info).(rawFiles := Digests(family)))];
      ArchiveShape(info, family, torn);
      state := ArchivingRecord(info);
      Opening(info);
      Within(t, trace, a, b + c);
      if crashed {
        return;
      }
      OpenArchiveFiles(d, info);
      assert Source(InRaw, disk.files) == family;
      var digests := CopyMembers(InRaw, torn);
      Chain(t, trace, a, b, c);
      if crashed {
        return;
      }
      RunConcat(d, a, b);
      state := state.(rawFiles := digests);
      RunSnoc(d, a + b, Save(state));
      Snoc(t, a + b, Save(state));
      Step(Save(state));
    }

    // A disposable copy of raw-old, for SQLite to open.
    method CopyToScratch(torn: Bytes)
      requires Valid() && !crashed && forall m :: Scratch(m) !in disk.files
      modifies this
      ensures Valid() && origin == old(origin)
      ensures var ops := [Mkdir(ScratchDir)] + CopyFamily(InScratch, Source(InScratch, old(disk).files), torn);
              Took(old(trace), ops) && (!crashed ==> disk == Run(old(disk), ops))
    {
      ghost var d, t := disk, trace;
      ghost var copies := CopyFamily(InScratch, Source(InScratch, disk.files), torn);
      RunSnoc(d, [], Mkdir(ScratchDir));
      assert [] + [Mkdir(ScratchDir)] == [Mkdir(ScratchDir)];
      Step(Mkdir(ScratchDir));
      Within(t, trace, [Mkdir(ScratchDir)], copies);
      if crashed {
        return;
      }
      assert disk.files == d.files;
      var _ := CopyMembers(InScratch, torn);
      Chain(t, trace, [Mkdir(ScratchDir)], copies, []);
      RunConcat(d, [Mkdir(ScratchDir)], copies);
    }

    // `_assess_old_state`: None when SQLite raised something other than "not a database".
    method Assess(w: World, torn: Bytes) returns (outcome: Option<OldState>)
      requires Valid() && !crashed && forall m :: Scratch(m) !in disk.files
      modifies this
      ensures Valid() && origin == old(origin)
      ensures Took(old(trace), AssessSteps(w, Source(InScratch, old(disk).files), torn))
      ensures !crashed ==> disk == Run(old(disk), AssessSteps(w, Source(InScratch, old(disk).files), torn))
      ensures var c := w.consolidate(Source(InScratch, old(disk).files));
              !crashed ==> outcome == if c.Raised? then None else Some(OldStateOf(w, c))
    {
      ghost var d, t := disk, trace;
      var family := Source(InScratch, disk.files);
      ghost var a := [Mkdir(ScratchDir)] + CopyFamily(InScratch, family, torn);
      ghost var b, c := Consolidate(w.consolidate(family), torn), RemoveScratch(family);
      outcome := None;
      AssessShape(w, family, torn);
      CopyToScratch(torn);
      Within(t, trace, a, b + c);
      if crashed {
        return;
      }
      ConsolidateScratch(w.consolidate(family), torn);
      Chain(t, trace, a, b, c);
      if crashed {
        return;
      }
      RunConcat(d, a, b);
      RemoveScratchFiles(family);
      Chain(t, trace, a + b, c, []);
      RunConcat(d, a + b, c);
      if !w.consolidate(family).Raised? {
        outcome := Some(OldStateOf(w, w.consolidate(family)));
      }
    }

    method ConsolidateScratch(c: Consolidation, torn: Bytes)
      requires Valid() && !crashed
      modifies this
      ensures Valid() && origin == old(origin)
      ensures Took(old(trace), Consolidate(c, torn))
      ensures !crashed ==> disk == Run(old(disk), Consolidate(c, torn))
    {
      ghost var d, t := disk, trace;
      RunSnoc(d, [], Put(OldConsistent, torn));
      assert [] + [Put(OldConsistent, torn)] == [Put(OldConsistent, torn)];
      Step(Put(OldConsistent, torn));
      match c
      case Consolidated(bytes) =>
        TwoSteps(d, Put(OldConsistent, torn), Put(OldConsistent, bytes));
        SplitTwo(t, Put(OldConsistent, torn), Put(OldConsistent, bytes));
        if !crashed {
          Step(Put(OldConsistent, bytes));
        }
      case NotADatabase =>
        TwoSteps(d, Put(OldConsistent, torn), Unlink(OldConsistent));
        SplitTwo(t, Put(OldConsistent, torn), Unlink(OldConsistent));
        if !crashed {
          Step(Unlink(OldConsistent));
        }
      case Raised =>
    }

    method RemoveOne(family: Family, m: Member)
      requires Valid() && !crashed
      modifies this
      ensures Valid() && origin == old(origin)
      ensures Took(old(trace), RemoveMember(InScratch, m, family))
      ensures !crashed ==> disk == Run(old(disk), RemoveMember(InScratch, m, family))
    {
      if m in family {
        RunSnoc(disk, [], Unlink(Scratch(m)));
        assert [] + [Unlink(Scratch(m))] == [Unlink(Scratch(m))];
        Step(Unlink(Scratch(m)));
      }
    }

    // `shutil.rmtree(scratch)`.
    method RemoveScratchFiles(family: Family)
      requires Valid() && !crashed
      modifies this
      ensures Valid() && origin == old(origin)
      ensures Took(old(trace), RemoveScratch(family))
      ensures !crashed ==> disk == Run(old(disk), RemoveScratch(family))
    {
      ghost var d, t := disk, trace;
      for i := 0 to 3
        invariant Valid() && origin == old(origin) && !crashed
        invariant trace == t + Removed(family, i) && disk == Run(d, Removed(family, i))
      {
        RemoveOne(family, ORDER[i]);
        RemovedNext(t, trace, family, i);
        if crashed {
          return;
        }
        RunConcat(d, Removed(family, i), RemoveMember(InScratch, ORDER[i], family));
      }
      RemovedAll(family);
      RunSnoc(d, Removed(family, 3), Rmdir(ScratchDir));
      Step(Rmdir(ScratchDir));
      assert t + Removed(family, 3) + [Rmdir(ScratchDir)] == t + RemoveScratch(family);
    }

    method Prepare(assessed: Record, torn: Bytes) returns (prepared: Record)
      requires Valid() && !crashed && Candidate in disk.files && Incoming !in disk.files
      modifies this
      ensures Valid() && origin == old(origin)
      ensures Took(old(trace), PrepareOps(assessed, old(disk).files[Candidate], torn))
      ensures !crashed ==> disk == Run(old(disk), PrepareOps(assessed, old(disk).files[Candidate], torn))
      ensures prepared == ToPrepared(assessed)
    {
      ghost var d, t := disk, trace;
      ghost var b := Copy(Incoming, disk.files[Candidate], torn);
      prepared := assessed.(phase := Phase.Prepared, writeProbe := Some(Pending));
      RunSnoc(d, [], Save(assessed));
      assert [] + [Save(assessed)] == [Save(assessed)];
      Step(Save(assessed));
      Within(t, trace, [Save(assessed)], b + [Save(prepared)]);
      assert [Save(assessed)] + (b + [Save(prepared)]) == PrepareOps(assessed, d.files[Candidate], torn);
      if crashed {
        return;
      }
      CopyDurable(Candidate, Incoming, torn);
      Chain(t, trace, [Save(assessed)], b, [Save(prepared)]);
      if crashed {
        return;
      }
      RunConcat(d, [Save(assessed)], b);
      RunSnoc(d, [Save(assessed)] + b, Save(prepared));
      Snoc(t, [Save(assessed)] + b, Save(prepared));
      Step(Save(prepared));
    }

    // Rename the staged copy over the main file, then record the phase.
    method Swap(source: Path, next: Record)
      requires Valid() && !crashed
      modifies this
      ensures Valid() && origin == old(origin)
      ensures Took(old(trace), [Rename(source, Live(Main)), Save(next)])
      ensures !crashed ==> disk == Run(old(disk), [Rename(source, Live(Main)), Save(next)])
    {
      TwoSteps(disk, Rename(source, Live(Main)), Save(next));
      SplitTwo(trace, Rename(source, Live(Main)), Save(next));
      Step(Rename(source, Live(Main)));
      if !crashed {
        Step(Save(next));
      }
    }

    method Install(prepared: Record, probeOk: bool)
      requires Valid() && !crashed
      requires forall m | m != Main && Live(m) in disk.files :: Displaced(m) !in disk.files
      modifies this
      ensures Valid() && origin == old(origin)
      ensures Took(old(trace), InstallOps(prepared, old(disk).files, probeOk))
      ensures !crashed ==> disk == Run(old(disk), InstallOps(prepared, old(disk).files, probeOk))
    {
      ghost var d, t := disk, trace;
      var activated := prepared.(phase := Activated);
      ghost var a, b := Displace(disk.files, false), [Rename(Incoming, Live(Main)), Save(activated)];
      ghost var c := ProbeAndRecord(activated, probeOk);
      assert a + (b + c) == a + b + c == InstallOps(prepared, d.files, probeOk);
      DisplaceSidecars(false);
      Within(t, trace, a, b + c);
      if crashed {
        return;
      }
      Swap(Incoming, activated);
      Chain(t, trace, a, b, c);
      if crashed {
        return;
      }
      RunConcat(d, a, b);
      RecordProbe(activated, probeOk);
      Chain(t, trace, a + b, c, []);
      assert a + b + c + [] == a + b + c;
      RunConcat(d, a + b, c);
    }

    // Archive and assess the old state; None when the activation stops there.
    method Preserve(w: World, info: Info, torn: Bytes) returns (assessed: Option<Record>)
      requires Valid() && !crashed && Started(w, disk, info)
      modifies this
      ensures Valid() && origin == old(origin)
      ensures Took(old(trace), PreserveOps(w, info, LiveFamily(old(disk).files), torn))
      ensures !crashed ==> disk == Run(old(disk), PreserveOps(w, info, LiveFamily(old(disk).files), torn))
      ensures !crashed ==> assessed == if w.consolidate(LiveFamily(old(disk).files)).Raised? then None
                                       else Some(AssessedRecord(w, info, LiveFamily(old(disk).files)))
    {
      ghost var d, t, family := disk, trace, LiveFamily(disk.files);
      ghost var a, b := ArchiveSteps(info, family, torn), AssessSteps(w, family, torn);
      assessed := None;
      var state := Archive(info, torn);
      Within(t, trace, a, b);
      if crashed {
        return;
      }
      Archived(w, d, info, torn);
      var outcome := Assess(w, torn);
      Chain(t, trace, a, b, []);
      if crashed {
        return;
      }
      RunConcat(d, a, b);
      if outcome.Some? {
        assessed := Some(state.(oldState := outcome));
      }
    }

    method PrepareAndInstall(w: World, assessed: Record, torn: Bytes, probeOk: bool)
      requires Valid() && !crashed && Candidate in disk.files && Incoming !in disk.files
      requires forall m :: Displaced(m) !in disk.files
      modifies this
      ensures Valid() && origin == old(origin)
      ensures Took(old(trace), SwapOps(assessed, old(disk).files, torn, probeOk))
      ensures !crashed ==> disk == Run(old(disk), SwapOps(assessed, old(disk).files, torn, probeOk))
    {
      ghost var d, t := disk, trace;
      ghost var a := PrepareOps(assessed, disk.files[Candidate], torn);
      ghost var b := InstallOps(ToPrepared(assessed), d.files, probeOk);
      var prepared := Prepare(assessed, torn);
      Within(t, trace, a, b);
      if crashed {
        return;
      }
      PreparedFiles(d, assessed, torn);
      Install(prepared, probeOk);
      Chain(t, trace, a, b, []);
      RunConcat(d, a, b);
    }

    /** `activate --apply`. The process takes exactly the planned steps, or dies within them; either way
    the recorded phase stays truthful. */
    method Activate(w: World, expected: Expected, torn: Bytes, probeOk: bool)
      requires Valid() && !crashed && trace == [] && Inv(w, disk)
      modifies this
      ensures Valid() && origin == old(origin)
      ensures Took([], Plan(w, old(disk), Command.Activate(expected, torn, probeOk)))
      ensures Inv(w, disk)
    {
      ghost var d := disk;
      if Live(Main) !in disk.files || Candidate !in disk.files || Recovery in disk.dirs {
        return;
      }
      var facts := w.inspect(disk.files[Candidate]);
      if facts.None? || Sha(disk.files[Candidate]) != expected.sha
        || facts.value.schema != expected.schema || facts.value.projects != expected.projects {
        return;
      }
      var info := Info(Sha(disk.files[Candidate]), facts.value);
      ghost var a := PreserveOps(w, info, LiveFamily(disk.files), torn);
      PlanShape(w, d, info, torn, probeOk);
      var assessed := Preserve(w, info, torn);
      TookPlan(w, d, info, torn, probeOk, trace);
      if crashed || assessed.None? {
        return;
      }
      AssessedFiles(w, d, info, torn);
      assert SwapOps(assessed.value, disk.files, torn, probeOk) == SwapOps(assessed.value, d.files, torn, probeOk);
      PrepareAndInstall(w, assessed.value, torn, probeOk);
      Chain([], trace, a, SwapOps(assessed.value, d.files, torn, probeOk), []);
      TookPlan(w, d, info, torn, probeOk, trace);
    }

    method ForwardArchive(state: Record, torn: Bytes) returns (rolling: Record)
      requires Valid() && !crashed && forall m :: Path.Forward(m) !in disk.files
      modifies this
      ensures Valid() && origin == old(origin)
      ensures Took(old(trace), ForwardSteps(state, LiveFamily(old(disk).files), torn))
      ensures !crashed ==> disk == Run(old(disk), ForwardSteps(state, LiveFamily(old(disk).files), torn))
      ensures !crashed ==> rolling == RollingRecord(state, LiveFamily(old(disk).files))
    {
      ghost var d, t, family := disk, trace, LiveFamily(disk.files);
      ghost var b, c := CopyFamily(InForward, family, torn), [Save(RollingRecord(state, family))];
      rolling := state;
      RunSnoc(d, [], Mkdir(ForwardDir));
      assert [] + [Mkdir(ForwardDir)] == [Mkdir(ForwardDir)];
      Step(Mkdir(ForwardDir));
      Within(t, trace, [Mkdir(ForwardDir)], b + c);
      assert [Mkdir(ForwardDir)] + (b + c) == ForwardSteps(state, family, torn);
      if crashed {
        return;
      }
      assert Source(InForward, disk.files) == family;
      var forwardFiles := CopyMembers(InForward, torn);
      Chain(t, trace, [Mkdir(ForwardDir)], b, c);
      if crashed {
        return;
      }
      RunConcat(d, [Mkdir(ForwardDir)], b);
      rolling := state.(forwardFiles := forwardFiles, phase := RollingBack, writeProbe := Some(Pending));
      RunSnoc(d, [Mkdir(ForwardDir)] + b, Save(rolling));
      Snoc(t, [Mkdir(ForwardDir)] + b, Save(rolling));
      Step(Save(rolling));
    }

    method BeginReinstall(torn: Bytes)
      requires Valid() && !crashed && OldConsistent in disk.files
      requires forall m | m != Main && Live(m) in disk.files :: ForwardDisplaced(m) !in disk.files
      modifies this
      ensures Valid() && origin == old(origin)
      ensures Took(old(trace), ReinstallBegin(old(disk).files, old(disk).files[OldConsistent], torn))
      ensures !crashed ==> disk == Run(old(disk), ReinstallBegin(old(disk).files, old(disk).files[OldConsistent], torn))
    {
      ghost var d, t := disk, trace;
      ghost var a, b := [Unlink(RollbackCopy)], Copy(RollbackCopy, disk.files[OldConsistent], torn);
      ghost var c := Displace(disk.files, true);
      assert a + (b + c) == a + b + c == ReinstallBegin(d.files, d.files[OldConsistent], torn);
      RunSnoc(d, [], Unlink(RollbackCopy));
      assert [] + a == a;
      Step(Unlink(RollbackCopy));
      Within(t, trace, a, b + c);
      if crashed {
        return;
      }
      CopyDurable(OldConsistent, RollbackCopy, torn);
      Chain(t, trace, a, b, c);
      if crashed {
        return;
      }
      RunConcat(d, a, b);
      CopyRun(Apply(d, a[0]), RollbackCopy, d.files[OldConsistent], torn);
      assert Displace(disk.files, true) == c;
      DisplaceSidecars(true);
      Chain(t, trace, a + b, c, []);
      assert a + b + c + [] == a + b + c;
      RunConcat(d, a + b, c);
    }

    method EndReinstall(state: Record, probeOk: bool)
      requires Valid() && !crashed
      modifies this
      ensures Valid() && origin == old(origin)
      ensures Took(old(trace), ReinstallEnd(old(disk).files, state, probeOk))
      ensures !crashed ==> disk == Run(old(disk), ReinstallEnd(old(disk).files, state, probeOk))
    {
      ghost var d, t := disk, trace;
      var rolledBack := state.(phase := RolledBack);
      ghost var a, b := [Rename(RollbackCopy, Live(Main)), Save(rolledBack)], RemoveIncoming(disk.files, state.candidate.sha);
      ghost var c := ProbeAndRecord(rolledBack, probeOk);
      assert a + (b + c) == a + b + c == ReinstallEnd(d.files, state, probeOk);
      Swap(RollbackCopy, rolledBack);
      Within(t, trace, a, b + c);
      if crashed {
        return;
      }
      AvoidRun(d, a, Incoming);
      RemoveLeftover(state.candidate.sha);
      Chain(t, trace, a, b, c);
      if crashed {
        return;
      }
      RunConcat(d, a, b);
      RecordProbe(rolledBack, probeOk);
      Chain(t, trace, a + b, c, []);
      assert a + b + c + [] == a + b + c;
      RunConcat(d, a + b, c);
    }

    method Reinstall(state: Record, torn: Bytes, probeOk: bool)
      requires Valid() && !crashed && OldConsistent in disk.files
      requires forall m | m != Main && Live(m) in disk.files :: ForwardDisplaced(m) !in disk.files
      modifies this
      ensures Valid() && origin == old(origin)
      ensures Took(old(trace), ReinstallSteps(old(disk).files, state, old(disk).files[OldConsistent], torn, probeOk))
      ensures !crashed ==>
                disk == Run(old(disk), ReinstallSteps(old(disk).files, state, old(disk).files[OldConsistent], torn, probeOk))
    {
      ghost var d, t := disk, trace;
      ghost var a := ReinstallBegin(disk.files, disk.files[OldConsistent], torn);
      ghost var b := ReinstallEnd(disk.files, state, probeOk);
      ReinstallShape(disk.files, state, disk.files[OldConsistent], torn, probeOk);
      BeginReinstall(torn);
      Within(t, trace, a, b);
      if crashed {
        return;
      }
      AvoidRun(d, a, Incoming);
      EndReinstall(state, probeOk);
      Chain(t, trace, a, b, []);
      RunConcat(d, a, b);
    }

    // Archive the current family forward, then reinstall the old state.
    method FirstRollback(ghost w: World, state: Record, torn: Bytes, probeOk: bool)
      requires Valid() && !crashed && CanStartRollback(w, disk) && disk.state == Some(state)
      modifies this
      ensures Valid() && origin == old(origin)
      ensures Took(old(trace), RollbackSteps(old(disk), torn, probeOk))
      ensures !crashed ==> disk == Run(old(disk), RollbackSteps(old(disk), torn, probeOk))
    {
      ghost var d, t := disk, trace;
      ghost var a := ForwardSteps(state, LiveFamily(disk.files), torn);
      ghost var b := ReinstallSteps(disk.files, RollingRecord(state, LiveFamily(disk.files)), disk.files[OldConsistent], torn, probeOk);
      FirstRollbackReady(w, d, torn, probeOk);
      var rolling := ForwardArchive(state, torn);
      Within(t, trace, a, b);
      if crashed {
        return;
      }
      Reinstall(rolling, torn, probeOk);
      Chain(t, trace, a, b, []);
      RunConcat(d, a, b);
    }

    /** `rollback --apply`, first or resumed. */
    method Rollback(ghost w: World, torn: Bytes, probeOk: bool)
      requires Valid() && !crashed && trace == [] && Inv(w, disk)
      modifies this
      ensures Valid() && origin == old(origin)
      ensures Took([], Plan(w, old(disk), Command.Rollback(torn, probeOk)))
      ensures Inv(w, disk)
    {
      ghost var d, plan := disk, RollbackSteps(disk, torn, probeOk);
      if Live(Main) !in disk.files || disk.state.None? {
        return;
      }
      RollbackCommandSafe(w, d, torn, probeOk);
      var state := disk.state.value;
      if state.phase == Archiving {
        Abandon(state);
      } else if state.phase !in {Phase.Prepared, Activated, RollingBack} || !RollbackTarget(disk, state) {
        return;
      } else if state.phase != RollingBack {
        if ForwardDir in disk.dirs {
          return;
        }
        FirstRollback(w, state, torn, probeOk);
      } else {
        if !Resumable(disk, state) {
          return;
        }
        NotDisplaced(w, d);
        Reinstall(state, torn, probeOk);
      }
      TookSafe(w, d, plan, trace);
    }

    method Abandon(state: Record)
      requires Valid() && !crashed
      modifies this
      ensures Valid() && origin == old(origin)
      ensures Took(old(trace), AbandonSteps(old(disk), state))
      ensures !crashed ==> disk == Run(old(disk), AbandonSteps(old(disk), state))
    {
      ghost var d, t, a := disk, trace, RemoveIncoming(disk.files, state.candidate.sha);
      RemoveLeftover(state.candidate.sha);
      Within(t, trace, a, [Save(state.(phase := Abandoned))]);
      if crashed {
        return;
      }
      RunSnoc(d, a, Save(state.(phase := Abandoned)));
      Snoc(t, a, Save(state.(phase := Abandoned)));
      Step(Save(state.(phase := Abandoned)));
    }

    /** `probe`: re-run the write probe on an installed file nothing has written since the swap. */
    method Probe(ghost w: World, probeOk: bool)
      requires Valid() && !crashed && trace == [] && Inv(w, disk)
      modifies this
      ensures Valid() && origin == old(origin)
      ensures Took([], Plan(w, old(disk), ProbeInstalled(probeOk)))
      ensures Inv(w, disk)
    {
      ghost var d, plan := disk, ProbeSteps(disk, probeOk);
      ProbeCommandSafe(w, d, probeOk);
      if Live(Main) !in disk.files || disk.state.None? {
        return;
      }
      var state := disk.state.value;
      if state.phase !in {Activated, RolledBack} || ForeignSidecar(disk) {
        return;
      }
      if !UnchangedSinceSwap(disk, InstalledSha(state)) {
        // The earlier result must not be left to describe a file that is no longer this one.
        Step(Save(state.(writeProbe := Some(Stale))));
      } else {
        RecordProbe(state, probeOk);
      }
      assert [] + plan == plan;
      TookSafe(w, d, plan, trace);
    }

    /** `retire-stage --apply`. */
    method RetireStage(w: World)
      requires Valid() && !crashed && trace == [] && Inv(w, disk)
      modifies this
      ensures Valid() && origin == old(origin)
      ensures Took([], Plan(w, old(disk), Command.RetireStage))
      ensures Inv(w, disk)
    {
      ghost var d, plan := disk, RetireSteps(w, disk);
      if disk.state.None? || !RetireAccepts(w, disk, disk.state.value) {
        return;
      }
      RetireSafe(w, d);
      var state := disk.state.value;
      ghost var a := [Save(state.(retirement := InProgress)), Unlink(Candidate), Save(state.(retirement := Done))];
      ghost var b := RemoveIncoming(disk.files, state.candidate.sha);
      Retire(state);
      Within([], trace, a, b);
      TookSafe(w, d, plan, trace);
      if crashed {
        return;
      }
      AvoidRun(d, a, Incoming);
      RemoveLeftover(state.candidate.sha);
      Chain([], trace, a, b, []);
      TookSafe(w, d, plan, trace);
    }

    method Retire(state: Record)
      requires Valid() && !crashed
      modifies this
      ensures Valid() && origin == old(origin)
      ensures var a := [Save(state.(retirement := InProgress)), Unlink(Candidate), Save(state.(retirement := Done))];
              Took(old(trace), a) && (!crashed ==> disk == Run(old(disk), a))
    {
      ThreeSteps(disk, trace, Save(state.(retirement := InProgress)), Unlink(Candidate), Save(state.(retirement := Done)));
      Step(Save(state.(retirement := InProgress)));
      if !crashed {
        Step(Unlink(Candidate));
      }
      if !crashed {
        Step(Save(state.(retirement := Done)));
      }
    }
  }

  // Where the copies into a place come from.
  function From(place: Place, m: Member): Path {
    if place == InScratch then RawOld(m) else Live(m)
  }

  function Source(place: Place, files: map<Path, Bytes>): Family {
    map m: Member | From(place, m) in files :: files[From(place, m)]
  }

  const ORDER: seq<Member> := [Main, Wal, Shm]

  ghost function UpTo(place: Place, family: Family, torn: Bytes, i: nat): seq<Op>
    requires i <= 3
  {
    if i == 0 then [] else UpTo(place, family, torn, i - 1) + CopyMember(place, ORDER[i - 1], family, torn)
  }

  ghost function DigestsUpTo(family: Family, i: nat): map<Member, Digest>
    requires i <= 3
  {
    map m | m in family && m in ORDER[..i] :: Sha(family[m])
  }

  // Members from `i` on are still where they came from and not yet copied.
  ghost predicate Ready(d: Disk, e: Disk, place: Place, i: nat) {
    forall j | i <= j < 3 :: At(place, ORDER[j]) !in e.files && SameAt(d, e, From(place, ORDER[j]))
  }

  lemma ReadySource(d: Disk, e: Disk, place: Place, i: nat)
    requires i < 3 && Ready(d, e, place, i)
    ensures At(place, ORDER[i]) !in e.files
    ensures forall torn: Bytes ::
              CopyMember(place, ORDER[i], Source(place, e.files), torn) == CopyMember(place, ORDER[i], Source(place, d.files), torn)
    ensures DigestAt(Source(place, e.files), ORDER[i]) == DigestAt(Source(place, d.files), ORDER[i])
  {
    assert SameAt(d, e, From(place, ORDER[i]));
  }

  lemma CopiedNext(d: Disk, e: Disk, f: Disk, place: Place, torn: Bytes, i: nat)
    requires i < 3 && Ready(d, e, place, i)
    requires e == Run(d, UpTo(place, Source(place, d.files), torn, i))
    requires f == Run(e, CopyMember(place, ORDER[i], Source(place, d.files), torn))
    requires forall p | p != At(place, ORDER[i]) :: SameAt(e, f, p)
    ensures f == Run(d, UpTo(place, Source(place, d.files), torn, i + 1))
    ensures Ready(d, f, place, i + 1)
  {
    var family := Source(place, d.files);
    RunConcat(d, UpTo(place, family, torn, i), CopyMember(place, ORDER[i], family, torn));
    ReadyNext(d, e, f, place, i);
  }

  lemma ReadyNext(d: Disk, e: Disk, f: Disk, place: Place, i: nat)
    requires i < 3 && Ready(d, e, place, i)
    requires forall p | p != At(place, ORDER[i]) :: SameAt(e, f, p)
    ensures Ready(d, f, place, i + 1)
  {
    forall j | i + 1 <= j < 3
      ensures At(place, ORDER[j]) !in f.files && SameAt(d, f, From(place, ORDER[j]))
    {
      assert SameAt(e, f, At(place, ORDER[j])) && SameAt(e, f, From(place, ORDER[j]));
    }
  }

  function DigestAt(family: Family, m: Member): Option<Digest> {
    if m in family then Some(Sha(family[m])) else None
  }

  lemma DigestsNext(family: Family, i: nat)
    requires i < 3
    ensures DigestsUpTo(family, i + 1)
         == if ORDER[i] in family then DigestsUpTo(family, i)[ORDER[i] := Sha(family[ORDER[i]])] else DigestsUpTo(family, i)
  {
    assert ORDER[..i + 1] == ORDER[..i] + [ORDER[i]];
  }

  lemma DigestsAll(family: Family)
    ensures DigestsUpTo(family, 3) == Digests(family)
  {
    assert ORDER[..3] == ORDER;
    forall m: Member ensures m in ORDER {
      match m
      case Main => assert ORDER[0] == m;
      case Wal => assert ORDER[1] == m;
      case Shm => assert ORDER[2] == m;
    }
  }

  lemma UpToAll(place: Place, family: Family, torn: Bytes)
    ensures UpTo(place, family, torn, 3) == CopyFamily(place, family, torn)
  {
    assert ORDER[0] == Main && ORDER[1] == Wal && ORDER[2] == Shm;
    assert UpTo(place, family, torn, 1) == CopyMember(place, Main, family, torn);
  }

  lemma {:induction false} UpToGrows(place: Place, family: Family, torn: Bytes, i: nat, j: nat)
    requires i <= j <= 3
    ensures UpTo(place, family, torn, i) <= UpTo(place, family, torn, j)
    decreases j
  {
    if i < j {
      UpToGrows(place, family, torn, i, j - 1);
      PrefixOfLonger(UpTo(place, family, torn, i), UpTo(place, family, torn, j - 1), CopyMember(place, ORDER[j - 1], family, torn));
    }
  }

  lemma PrefixAfter(t: seq<Op>, a: seq<Op>, b: seq<Op>)
    requires a <= b
    ensures t + a <= t + b
  {
    assert (t + b)[..|t + a|] == t + b[..|a|];
  }

  // Whatever prefix of the next member's copy was taken lies within the whole archive.
  lemma UpToNext(place: Place, family: Family, torn: Bytes, i: nat, t: seq<Op>, trace: seq<Op>)
    requires i < 3
    requires t + UpTo(place, family, torn, i) <= trace
    requires trace <= t + UpTo(place, family, torn, i) + CopyMember(place, ORDER[i], family, torn)
    ensures t + UpTo(place, family, torn, i) + CopyMember(place, ORDER[i], family, torn) == t + UpTo(place, family, torn, i + 1)
    ensures t <= trace <= t + CopyFamily(place, family, torn)
  {
    var a, c := UpTo(place, family, torn, i), CopyMember(place, ORDER[i], family, torn);
    assert t + a + c == t + (a + c);
    UpToAll(place, family, torn);
    UpToGrows(place, family, torn, i + 1, 3);
    PrefixAfter(t, UpTo(place, family, torn, i + 1), CopyFamily(place, family, torn));
  }

  function ProbeAndRecord(state: Record, probeOk: bool): seq<Op> {
    [ProbeWrite(probeOk), Save(state.(writeProbe := Some(ProbeResult(probeOk))))]
  }

  ghost function Removed(family: Family, i: nat): seq<Op>
    requires i <= 3
  {
    if i == 0 then [] else Removed(family, i - 1) + RemoveMember(InScratch, ORDER[i - 1], family)
  }

  lemma RemovedAll(family: Family)
    ensures Removed(family, 3) + [Rmdir(ScratchDir)] == RemoveScratch(family)
  {
    assert ORDER[0] == Main && ORDER[1] == Wal && ORDER[2] == Shm;
    assert Removed(family, 1) == RemoveMember(InScratch, Main, family);
  }

  lemma {:induction false} RemovedGrows(family: Family, i: nat, j: nat)
    requires i <= j <= 3
    ensures Removed(family, i) <= Removed(family, j)
    decreases j
  {
    if i < j {
      RemovedGrows(family, i, j - 1);
      PrefixOfLonger(Removed(family, i), Removed(family, j - 1), RemoveMember(InScratch, ORDER[j - 1], family));
    }
  }

  lemma RemovedNext(t: seq<Op>, trace: seq<Op>, family: Family, i: nat)
    requires i < 3
    requires t + Removed(family, i) <= trace <= t + Removed(family, i) + RemoveMember(InScratch, ORDER[i], family)
    ensures t <= trace <= t + RemoveScratch(family)
    ensures t + Removed(family, i) + RemoveMember(InScratch, ORDER[i], family) == t + Removed(family, i + 1)
  {
    var a, b := Removed(family, i), RemoveMember(InScratch, ORDER[i], family);
    assert t + a + b == t + (a + b);
    RemovedGrows(family, i + 1, 3);
    RemovedAll(family);
    PrefixOfLonger(Removed(family, i + 1), Removed(family, 3), [Rmdir(ScratchDir)]);
    PrefixAfter(t, Removed(family, i + 1), RemoveScratch(family));
  }

  lemma ArchiveShape(info: Info, family: Family, torn: Bytes)
    ensures var a, b := OpenArchive(info), CopyFamily(InRaw, family, torn);
            var c := [Save(ArchivingRecord(info).(rawFiles := Digests(family)))];
            ArchiveSteps(info, family, torn) == a + b + c && a + (b + c) == a + b + c
  {
  }

  lemma AssessShape(w: World, family: Family, torn: Bytes)
    ensures var a := [Mkdir(ScratchDir)] + CopyFamily(InScratch, family, torn);
            var b, c := Consolidate(w.consolidate(family), torn), RemoveScratch(family);
            && a + (b + c) == a + b + c == AssessSteps(w, family, torn)
            && a + b + c + [] == a + b + c
  {
  }

  lemma Snoc(t: seq<Op>, a: seq<Op>, op: Op)
    ensures t + a + [op] == t + (a + [op])
    ensures t + a <= t + (a + [op])
  {
  }

  lemma OpenArchiveFiles(d: Disk, info: Info)
    ensures Run(d, OpenArchive(info)).files == d.files
  {
    ThreeSteps(d, [], Mkdir(Recovery), Save(ArchivingRecord(info)), Mkdir(RawDir));
  }

  lemma TwoSteps(d: Disk, a: Op, b: Op)
    ensures Run(d, [a, b]) == Apply(Apply(d, a), b)
  {
    assert [a] + [b] == [a, b];
    assert [] + [a] == [a];
    RunSnoc(d, [], a);
    RunSnoc(d, [a], b);
  }

  lemma SplitTwo(t: seq<Op>, a: Op, b: Op)
    ensures t + [a] + [b] == t + [a, b]
    ensures t <= t + [a] <= t + [a, b] && t <= t + [a, b]
  {
  }

  lemma ThreeSteps(d: Disk, t: seq<Op>, a: Op, b: Op, c: Op)
    ensures Run(d, [a, b, c]) == Apply(Apply(Apply(d, a), b), c)
    ensures t + [a] + [b] + [c] == t + [a, b, c]
    ensures t <= t + [a] <= t + [a] + [b] <= t + [a, b, c]
  {
    assert [a, b] + [c] == [a, b, c];
    TwoSteps(d, a, b);
    RunSnoc(d, [a, b], c);
  }

  lemma Within(t: seq<Op>, trace: seq<Op>, a: seq<Op>, b: seq<Op>)
    requires t <= trace <= t + a
    ensures trace <= t + (a + b)
  {
    PrefixOfLonger(trace, t + a, b);
    assert t + a + b == t + (a + b);
  }

  // Some of `b` taken after all of `a` is some of `a + b + c`.
  lemma Chain(t: seq<Op>, trace: seq<Op>, a: seq<Op>, b: seq<Op>, c: seq<Op>)
    requires t + a <= trace <= t + a + b
    ensures t <= trace <= t + (a + b + c) && trace <= t + (a + b)
    ensures t + a + b == t + (a + b)
  {
    assert t + a + b == t + (a + b);
    Within(t, trace, a + b, c);
  }

  function ToPrepared(assessed: Record): Record {
    assessed.(phase := Phase.Prepared, writeProbe := Some(Pending))
  }

  function PrepareOps(assessed: Record, candidate: Bytes, torn: Bytes): seq<Op> {
    [Save(assessed)] + Copy(Incoming, candidate, torn) + [Save(ToPrepared(assessed))]
  }

  function InstallOps(prepared: Record, files: map<Path, Bytes>, probeOk: bool): seq<Op> {
    var activated := prepared.(phase := Activated);
    Displace(files, false) + [Rename(Incoming, Live(Main)), Save(activated)] + ProbeAndRecord(activated, probeOk)
  }

  function PreserveOps(w: World, info: Info, family: Family, torn: Bytes): seq<Op> {
    ArchiveSteps(info, family, torn) + AssessSteps(w, family, torn)
  }

  function SwapOps(assessed: Record, files: map<Path, Bytes>, torn: Bytes, probeOk: bool): seq<Op>
    requires Candidate in files
  {
    PrepareOps(assessed, files[Candidate], torn) + InstallOps(ToPrepared(assessed), files, probeOk)
  }

  lemma PlanShape(w: World, d: Disk, info: Info, torn: Bytes, probeOk: bool)
    requires Candidate in d.files && InspectInfo(w, d.files[Candidate]) == Some(info)
    ensures ActivateSteps(w, d, torn, probeOk)
         == PreserveOps(w, info, LiveFamily(d.files), torn)
          + if w.consolidate(LiveFamily(d.files)).Raised? then []
            else SwapOps(AssessedRecord(w, info, LiveFamily(d.files)), d.files, torn, probeOk)
  {
  }

  // Dying within a safe plan leaves a truthful record.
  lemma TookPlan(w: World, d: Disk, info: Info, torn: Bytes, probeOk: bool, trace: seq<Op>)
    requires Started(w, d, info)
    ensures trace <= ActivateSteps(w, d, torn, probeOk) ==> Inv(w, Run(d, trace))
    ensures trace <= PreserveOps(w, info, LiveFamily(d.files), torn) ==> trace <= ActivateSteps(w, d, torn, probeOk)
    ensures [] + ActivateSteps(w, d, torn, probeOk) == ActivateSteps(w, d, torn, probeOk)
    ensures [] + PreserveOps(w, info, LiveFamily(d.files), torn) == PreserveOps(w, info, LiveFamily(d.files), torn)
  {
    var plan, head := ActivateSteps(w, d, torn, probeOk), PreserveOps(w, info, LiveFamily(d.files), torn);
    PlanShape(w, d, info, torn, probeOk);
    assert head <= plan;
    if trace <= head {
      PrefixOfPrefix(trace, head, plan);
    }
    if trace <= plan {
      ActivateSafe(w, d, info, torn, probeOk);
      AllInvPrefix(w, d, plan, |trace|);
      assert plan[..|trace|] == trace;
    }
  }

  lemma PrefixOfPrefix(a: seq<Op>, b: seq<Op>, c: seq<Op>)
    requires a <= b && b <= c
    ensures a <= c
  {
  }

  lemma ArchivedFile(info: Info, family: Family, torn: Bytes, d: Disk, p: Path)
    requires !(p.RawOld? && p.m in family)
    ensures SameAt(d, Run(d, ArchiveSteps(info, family, torn)), p)
  {
    ArchiveAvoids(info, family, torn, p);
    AvoidRun(d, ArchiveSteps(info, family, torn), p);
  }

  lemma CopiesAvoid(family: Family, torn: Bytes, p: Path)
    requires !(p.RawOld? && p.m in family)
    ensures forall op | op in CopyFamily(InRaw, family, torn) :: Avoids(op, p)
  {
  }

  lemma ArchiveAvoids(info: Info, family: Family, torn: Bytes, p: Path)
    requires !(p.RawOld? && p.m in family)
    ensures forall op | op in ArchiveSteps(info, family, torn) :: Avoids(op, p)
  {
    var copies := CopyFamily(InRaw, family, torn);
    CopiesAvoid(family, torn, p);
    forall op | op in ArchiveSteps(info, family, torn)
      ensures Avoids(op, p)
    {
      assert op in copies || op.Mkdir? || op.Save?;
    }
  }

  lemma ArchivedRaw(w: World, d: Disk, info: Info, torn: Bytes)
    requires Started(w, d, info)
    ensures var e := Run(d, ArchiveSteps(info, LiveFamily(d.files), torn));
            forall m | m in LiveFamily(d.files) :: RawOld(m) in e.files && e.files[RawOld(m)] == LiveFamily(d.files)[m]
  {
    var family := LiveFamily(d.files);
    var e := Run(d, ArchiveSteps(info, family, torn));
    ArchiveSafe(w, d, info, torn);
    AllInvEnds(w, d, ArchiveSteps(info, family, torn));
    assert Main in family && Main in e.state.value.rawFiles;
    assert ArchiveKept(e, e.state.value);
  }

  lemma Archived(w: World, d: Disk, info: Info, torn: Bytes)
    requires Started(w, d, info)
    ensures var e := Run(d, ArchiveSteps(info, LiveFamily(d.files), torn));
            && (forall m :: Scratch(m) !in e.files)
            && OldConsistent !in e.files
            && Source(InScratch, e.files) == LiveFamily(d.files)
  {
    var family := LiveFamily(d.files);
    var e := Run(d, ArchiveSteps(info, family, torn));
    ArchivedRaw(w, d, info, torn);
    forall p: Path | p == OldConsistent || p.Scratch? || (p.RawOld? && p.m !in family) ensures p !in e.files {
      ArchivedFile(info, family, torn, d, p);
    }
  }

  lemma AssessedFiles(w: World, d: Disk, info: Info, torn: Bytes)
    requires Started(w, d, info)
    ensures var e := Run(d, PreserveOps(w, info, LiveFamily(d.files), torn));
            && Candidate in e.files && e.files[Candidate] == d.files[Candidate]
            && Incoming !in e.files
            && Displace(e.files, false) == Displace(d.files, false)
            && (forall m :: Displaced(m) !in e.files)
  {
    var family := LiveFamily(d.files);
    var a, b := ArchiveSteps(info, family, torn), AssessSteps(w, family, torn);
    RunConcat(d, a, b);
    var e := Run(Run(d, a), b);
    forall p: Path | p == Candidate || p == Incoming || p.Live? || p.Displaced?
      ensures SameAt(d, e, p)
    {
      ArchivedFile(info, family, torn, d, p);
      AssessAvoids(w, family, torn, p);
      AvoidRun(Run(d, a), b, p);
      assert SameAt(d, Run(d, a), p) && SameAt(Run(d, a), e, p);
    }
    assert SameAt(d, e, Incoming) && SameAt(d, e, Candidate) && SameAt(d, e, Live(Wal)) && SameAt(d, e, Live(Shm));
    forall m ensures Displaced(m) !in e.files {
      assert SameAt(d, e, Displaced(m));
    }
  }

  lemma AssessAvoids(w: World, family: Family, torn: Bytes, p: Path)
    requires p == Candidate || p == Incoming || p.Live? || p.Displaced?
    ensures forall op | op in AssessSteps(w, family, torn) :: Avoids(op, p)
  {
    var copies, body, tail := CopyFamily(InScratch, family, torn), Consolidate(w.consolidate(family), torn), RemoveScratch(family);
    ScratchAvoids(family, torn, p);
    assert forall op | op in body :: Avoids(op, p);
    forall op | op in AssessSteps(w, family, torn)
      ensures Avoids(op, p)
    {
      assert op == Mkdir(ScratchDir) || op in copies || op in body || op in tail;
    }
  }

  lemma ScratchAvoids(family: Family, torn: Bytes, p: Path)
    requires p == Candidate || p == Incoming || p.Live? || p.Displaced?
    ensures forall op | op in CopyFamily(InScratch, family, torn) :: Avoids(op, p)
    ensures forall op | op in RemoveScratch(family) :: Avoids(op, p)
  {
  }

  lemma PreparedFiles(d: Disk, assessed: Record, torn: Bytes)
    requires Candidate in d.files && forall m :: Displaced(m) !in d.files
    ensures var e := Run(d, PrepareOps(assessed, d.files[Candidate], torn));
            && Displace(e.files, false) == Displace(d.files, false)
            && (forall m :: Displaced(m) !in e.files)
  {
    var ops := PrepareOps(assessed, d.files[Candidate], torn);
    var e := Run(d, ops);
    AvoidRun(d, ops, Live(Wal));
    AvoidRun(d, ops, Live(Shm));
    forall m ensures Displaced(m) !in e.files {
      AvoidRun(d, ops, Displaced(m));
    }
  }

  // Dying within a plan all of whose steps keep the invariant leaves a truthful record.
  lemma TookSafe(w: World, d: Disk, plan: seq<Op>, trace: seq<Op>)
    requires AllInv(w, d, plan)
    ensures [] + plan == plan
    ensures trace <= plan ==> Inv(w, Run(d, trace))
  {
    if trace <= plan {
      AllInvPrefix(w, d, plan, |trace|);
      assert plan[..|trace|] == trace;
    }
  }

  lemma NotDisplaced(w: World, d: Disk)
    requires Inv(w, d) && d.state.Some? && d.state.value.phase == RollingBack
    ensures forall m | m != Main && Live(m) in d.files :: ForwardDisplaced(m) !in d.files
  {
    var family := d.history.forwarded.value;
    assert SidecarSafe(d, family, Wal, ForwardDisplaced(Wal)) && SidecarSafe(d, family, Shm, ForwardDisplaced(Shm));
  }

  lemma FirstRollbackReady(w: World, d: Disk, torn: Bytes, probeOk: bool)
    requires CanStartRollback(w, d)
    ensures forall m :: Path.Forward(m) !in d.files
    ensures var family := LiveFamily(d.files);
            var rolling := RollingRecord(d.state.value, family);
            var e := Run(d, ForwardSteps(d.state.value, family, torn));
            && OldConsistent in e.files
            && (forall m | m != Main && Live(m) in e.files :: ForwardDisplaced(m) !in e.files)
            && ReinstallSteps(e.files, rolling, e.files[OldConsistent], torn, probeOk)
            == ReinstallSteps(d.files, rolling, d.files[OldConsistent], torn, probeOk)
            && RollbackSteps(d, torn, probeOk)
            == ForwardSteps(d.state.value, family, torn) + ReinstallSteps(d.files, rolling, d.files[OldConsistent], torn, probeOk)
  {
    var ops := ForwardSteps(d.state.value, LiveFamily(d.files), torn);
    ForwardSafe(w, d, torn);
    RollingOldConsistent(w, d, torn);
    NotDisplaced(w, Run(d, ops));
  }
}
