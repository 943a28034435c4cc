/** Whole histories of the restore helper: any commands, cut anywhere, and the service writing in between. */
module RestoreRuns {
  import opened Common
  import opened Volume
  import opened RestorePlan
  import opened RestoreInvariant
  import opened ActivateSafety
  import opened RollbackSafety

  // A helper command that stops after `steps` primitive steps (all of them when there are fewer),
  // or a write by the live service.
  datatype Event =
    | Helper(command: Command, steps: nat)
    | Service(family: Family)

  // The runbook keeps the service stopped from `prepared` on, until a probe of the installed file passed.
  predicate ServiceMayRun(d: Disk) {
    match d.state
    case None => true
    case Some(r) =>
      r.phase in {Archiving, Abandoned} || (r.phase in {Activated, RolledBack} && r.writeProbe == Some(Ok))
  }

  function WriteLive(files: map<Path, Bytes>, family: Family): map<Path, Bytes> {
    map p: Path | p in files.Keys + {Live(Main), Live(Wal), Live(Shm)}
                  && (if p.Live? then p.m in family else p in files) ::
      if p.Live? then family[p.m] else files[p]
  }

  // The live family as somebody else left it: the service, or another operation on the same volume.
  function Written(d: Disk, family: Family): Disk {
    d.(files := WriteLive(d.files, family), history := d.history.(left := family))
  }

  // No swap or displacement of this operation is under way.
  predicate OthersMayWrite(d: Disk) {
    d.state.None? || d.state.value.phase in {Archiving, Abandoned, Activated, RolledBack}
  }

  function Cut(ops: seq<Op>, steps: nat): seq<Op> {
    if steps <= |ops| then ops[..steps] else ops
  }

  function Next(w: World, d: Disk, e: Event): Disk {
    match e
    case Helper(c, steps) => Run(d, Cut(Plan(w, d, c), steps))
    case Service(family) =>
      if ServiceMayRun(d) && Main in family then Written(d, family) else d
  }

  function After(w: World, d: Disk, events: seq<Event>): Disk
    decreases |events|
  {
    if events == [] then d else After(w, Next(w, d, events[0]), events[1..])
  }

  // A volume with a live family and perhaps a staged candidate, before the operation.
  ghost predicate Fresh(d: Disk) {
    && Live(Main) in d.files
    && (forall p | p in d.files :: p.Live? || p == Candidate)
    && d.dirs == {} && d.state.None?
    && d.history == History(LiveFamily(d.files), None, None, None, false)
  }

  // ---------- safety ----------

  /** In `rolling_back` every check a resumed rollback makes passes, wherever the last run stopped. */
  lemma ResumePasses(w: World, d: Disk)
    requires Inv(w, d) && d.state.Some? && d.state.value.phase == RollingBack
    ensures RollbackTarget(d, d.state.value) && Resumable(d, d.state.value)
  {
    var r := d.state.value;
    var family := d.history.forwarded.value;
    assert Main in Digests(family);
    assert RollbackTarget(d, r);
  }

  lemma RollbackCommandSafe(w: World, d: Disk, torn: Bytes, probeOk: bool)
    requires Inv(w, d)
    ensures AllInv(w, d, RollbackSteps(d, torn, probeOk))
  {
    if d.state.Some? {
      var r := d.state.value;
      if r.phase == Archiving {
        AbandonSafe(w, d);
      } else if r.phase in {Prepared, Activated} && RollbackTarget(d, r) && ForwardDir !in d.dirs {
        RollbackFromInstalled(w, d, torn, probeOk);
      } else if r.phase == RollingBack {
        ResumePasses(w, d);
        ReinstallSafe(w, d, r, torn, probeOk);
      }
    }
  }

  lemma PlanSafe(w: World, d: Disk, c: Command)
    requires Inv(w, d)
    ensures AllInv(w, d, Plan(w, d, c))
  {
    match c
    case Activate(e, torn, ok) =>
      if ActivateAccepts(w, d, e) {
        ActivateSafe(w, d, InspectInfo(w, d.files[Candidate]).value, torn, ok);
      }
    case Rollback(torn, ok) => RollbackCommandSafe(w, d, torn, ok);
    case ProbeInstalled(ok) => ProbeCommandSafe(w, d, ok);
    case RetireStage =>
      if d.state.Some? && RetireAccepts(w, d, d.state.value) {
        RetireSafe(w, d);
      }
  }

  lemma ServiceFiles(d: Disk, family: Family)
    requires Main in family
    ensures LiveFamily(WriteLive(d.files, family)) == family
    ensures forall p: Path | !p.Live? :: SameAt(d, d.(files := WriteLive(d.files, family)), p)
  {
    var files := WriteLive(d.files, family);
    forall m: Member ensures Live(m) in files <==> m in family {
      match m
      case Main =>
      case Wal =>
      case Shm =>
    }
  }

  lemma WrittenSafe(w: World, d: Disk, family: Family)
    requires Inv(w, d) && OthersMayWrite(d) && Main in family
    ensures Inv(w, Written(d, family))
  {
    var e := Written(d, family);
    ServiceFiles(d, family);
    assert Main in LiveFamily(e.files);
    if d.state.Some? {
      var r := d.state.value;
      assert SameAt(d, e, OldConsistent) && SameAt(d, e, Candidate);
      assert forall m: Member :: SameAt(d, e, RawOld(m)) && SameAt(d, e, Forward(m));
      assert forall m: Member :: SameAt(d, e, Displaced(m)) && SameAt(d, e, ForwardDisplaced(m));
      assert ArchiveKept(e, r) && AssessmentKept(w, e, r) && CandidateKept(w, e, r) && ForwardFresh(e, r.phase);
      assert r.phase == Activated ==> ActivatedFacts(e, r);
      assert r.phase == RolledBack ==> RolledBackFacts(e, r);
    } else {
      forall p | p in e.files ensures p.Live? || p == Candidate {
        if !p.Live? {
          assert SameAt(d, e, p);
        }
      }
    }
  }

  lemma ServiceSafe(w: World, d: Disk, family: Family)
    requires Inv(w, d) && ServiceMayRun(d) && Main in family
    ensures Inv(w, Next(w, d, Service(family)))
  {
    WrittenSafe(w, d, family);
  }

  lemma NextSafe(w: World, d: Disk, e: Event)
    requires Inv(w, d)
    ensures Inv(w, Next(w, d, e))
  {
    match e
    case Helper(c, steps) =>
      var plan := Plan(w, d, c);
      PlanSafe(w, d, c);
      AllInvPrefix(w, d, plan, if steps <= |plan| then steps else |plan|);
      assert plan[..|plan|] == plan;
    case Service(family) =>
      if ServiceMayRun(d) && Main in family {
        ServiceSafe(w, d, family);
      }
  }

  lemma {:induction false} AfterSafe(w: World, d: Disk, events: seq<Event>)
    requires Inv(w, d)
    ensures Inv(w, After(w, d, events))
    decreases |events|
  {
    if events != [] {
      NextSafe(w, d, events[0]);
      AfterSafe(w, Next(w, d, events[0]), events[1..]);
    }
  }

  /** In every state any history reaches, with a crash after any primitive step of any command, the main
  file exists and the recorded phase tells the truth about the volume. */
  lemma EveryHistoryIsSafe(w: World, d: Disk, events: seq<Event>)
    requires Fresh(d)
    ensures var e := After(w, d, events);
            && Live(Main) in e.files
            && (e.state.Some? ==>
                  var r := e.state.value;
                  && PhaseFacts(e, r) && ArchiveKept(e, r) && AssessmentKept(w, e, r) && CandidateKept(w, e, r))
  {
    assert Inv(w, d);
    AfterSafe(w, d, events);
  }

  lemma OkFacts(w: World, e: Disk)
    requires Inv(w, e) && e.state.Some? && e.state.value.writeProbe == Some(Ok)
    ensures e.state.value.phase in {Activated, RolledBack}
    ensures e.history.probed && e.history.installed.Some?
    ensures Some(Sha(e.history.installed.value)) == InstalledSha(e.state.value)
  {
  }

  /** A recorded "ok" always describes the file the latest swap installed: a probe passed after that
  swap while the main file held exactly those bytes. */
  lemma OkIsNeverInherited(w: World, d: Disk, events: seq<Event>)
    requires Fresh(d)
    ensures var e := After(w, d, events);
            e.state.Some? && e.state.value.writeProbe == Some(Ok) ==>
              && e.state.value.phase in {Activated, RolledBack}
              && e.history.probed
              && e.history.installed.Some?
              && Some(Sha(e.history.installed.value)) == InstalledSha(e.state.value)
  {
    assert Inv(w, d);
    AfterSafe(w, d, events);
    var e := After(w, d, events);
    if e.state.Some? && e.state.value.writeProbe == Some(Ok) {
      OkFacts(w, e);
    }
  }

  // ---------- frozen archives ----------

  // Once recorded, an archive's record and the family it copies never change.
  ghost predicate Frozen(d: Disk, e: Disk) {
    d.state.Some? ==>
      && e.state.Some?
      && var r, s := d.state.value, e.state.value;
      && (r.rawFiles != map[] ==> s.rawFiles == r.rawFiles && e.history.archived == d.history.archived)
      && (r.phase in {RollingBack, RolledBack} ==>
            s.phase in {RollingBack, RolledBack} && s.forwardFiles == r.forwardFiles
            && (r.phase == RolledBack ==> s.phase == RolledBack)
            && e.history.forwarded == d.history.forwarded)
  }

  // A record that may be saved over the one in `d` without touching a recorded archive.
  ghost predicate SaveFits(d: Disk, op: Op) {
    op.Save? && d.state.Some? ==>
      && var r, s := d.state.value, op.record;
      && (r.rawFiles != map[] ==> s.rawFiles == r.rawFiles)
      && (r.phase in {RollingBack, RolledBack} ==> s.phase == RolledBack && s.forwardFiles == r.forwardFiles)
  }

  lemma {:induction false} RunFrozen(d: Disk, ops: seq<Op>)
    requires d.state.Some?
    requires forall op | op in ops :: SaveFits(d, op)
    ensures Frozen(d, Run(d, ops))
    decreases |ops|
  {
    if ops != [] {
      var e := Apply(d, ops[0]);
      assert SaveFits(d, ops[0]);
      assert Frozen(d, e);
      forall op | op in ops[1..] && (e.state.value.rawFiles == d.state.value.rawFiles || d.state.value.rawFiles != map[])
        ensures SaveFits(d, op)
      {
      }
      RunFrozenFrom(d, e, ops[1..]);
    }
  }

  lemma {:induction false} RunFrozenFrom(d: Disk, e: Disk, ops: seq<Op>)
    requires d.state.Some? && Frozen(d, e)
    requires forall op | op in ops :: SaveFits(d, op)
    ensures Frozen(d, Run(e, ops))
    decreases |ops|
  {
    if ops != [] {
      assert SaveFits(d, ops[0]);
      assert Frozen(d, Apply(e, ops[0]));
      RunFrozenFrom(d, Apply(e, ops[0]), ops[1..]);
    }
  }

  lemma ReinstallFits(d: Disk, r: Record, snapshot: Bytes, torn: Bytes, probeOk: bool)
    requires d.state.Some?
    requires d.state.value.rawFiles != map[] ==> r.rawFiles == d.state.value.rawFiles
    requires d.state.value.phase == RollingBack ==> r.forwardFiles == d.state.value.forwardFiles
    requires d.state.value.phase != RolledBack
    ensures forall op | op in ReinstallSteps(d.files, r, snapshot, torn, probeOk) :: SaveFits(d, op)
  {
    ReinstallShape(d.files, r, snapshot, torn, probeOk);
    assert forall op | op in ReinstallBegin(d.files, snapshot, torn) :: !op.Save?;
    assert forall op | op in ReinstallEnd(d.files, r, probeOk) :: SaveFits(d, op);
  }

  lemma RollbackFits(d: Disk, torn: Bytes, probeOk: bool)
    requires d.state.Some?
    ensures forall op | op in RollbackSteps(d, torn, probeOk) :: SaveFits(d, op)
  {
    var r := d.state.value;
    if OldConsistent in d.files && r.phase in {Prepared, Activated} {
      ForwardRollsAs(r, LiveFamily(d.files), torn);
      assert forall op | op in ForwardSteps(r, LiveFamily(d.files), torn) && op.Save? ::
          op.record == RollingRecord(r, LiveFamily(d.files)) by {
        assert forall op | op in CopyFamily(InForward, LiveFamily(d.files), torn) :: !op.Save?;
      }
      ReinstallFits(d, RollingRecord(r, LiveFamily(d.files)), d.files[OldConsistent], torn, probeOk);
    } else if OldConsistent in d.files && r.phase == RollingBack {
      ReinstallFits(d, r, d.files[OldConsistent], torn, probeOk);
    }
  }

  lemma PlanFits(w: World, d: Disk, c: Command)
    requires Inv(w, d) && d.state.Some?
    ensures forall op | op in Plan(w, d, c) :: SaveFits(d, op)
  {
    match c
    case Activate(_, _, _) =>
    case Rollback(torn, ok) => RollbackFits(d, torn, ok);
    case ProbeInstalled(_) =>
    case RetireStage =>
  }

  lemma NextFrozen(w: World, d: Disk, e: Event)
    requires Inv(w, d)
    ensures Frozen(d, Next(w, d, e))
  {
    if e.Helper? && d.state.Some? {
      PlanFits(w, d, e.command);
      RunFrozen(d, Cut(Plan(w, d, e.command), e.steps));
    }
  }

  /** raw-old once archived, and forward-state once `rolling_back` is recorded, stay byte-exact copies of
  what was live at those moments, through every later command, crash and service write. */
  lemma {:induction false} ArchivesStayExact(w: World, d: Disk, events: seq<Event>)
    requires Inv(w, d)
    ensures var e := After(w, d, events);
            && Frozen(d, e)
            && (d.state.Some? ==>
                  && (d.state.value.rawFiles != map[] ==>
                        && d.history.archived.Some?
                        && forall m | m in d.history.archived.value ::
                             RawOld(m) in e.files && e.files[RawOld(m)] == d.history.archived.value[m])
                  && (d.state.value.phase in {RollingBack, RolledBack} ==>
                        && d.history.forwarded.Some?
                        && forall m | m in d.history.forwarded.value ::
                             Forward(m) in e.files && e.files[Forward(m)] == d.history.forwarded.value[m]))
    decreases |events|
  {
    AfterSafe(w, d, events);
    AfterFrozen(w, d, events);
  }

  lemma {:induction false} AfterFrozen(w: World, d: Disk, events: seq<Event>)
    requires Inv(w, d)
    ensures Frozen(d, After(w, d, events))
    decreases |events|
  {
    if events != [] {
      NextFrozen(w, d, events[0]);
      NextSafe(w, d, events[0]);
      AfterFrozen(w, Next(w, d, events[0]), events[1..]);
    }
  }

  // ---------- resumption ----------

  /** From any state a history reaches in `rolling_back`, one uninterrupted rollback ends rolled back, with
  the consolidation of the archived family as the whole live family. */
  lemma RollingBackFinishes(w: World, d: Disk, torn: Bytes, probeOk: bool)
    requires Inv(w, d) && d.state.Some? && d.state.value.phase == RollingBack
    ensures var e := Next(w, d, Helper(Rollback(torn, probeOk), |RollbackSteps(d, torn, probeOk)|));
            && e.state == Some(d.state.value.(phase := RolledBack, writeProbe := Some(ProbeResult(probeOk))))
            && d.history.archived.Some?
            && w.consolidate(d.history.archived.value).Consolidated?
            && LiveFamily(e.files) == map[Main := w.consolidate(d.history.archived.value).bytes]
  {
    var r := d.state.value;
    ResumePasses(w, d);
    ReinstallSafe(w, d, r, torn, probeOk);
    var plan := RollbackSteps(d, torn, probeOk);
    assert plan[..|plan|] == plan;
    assert AssessmentKept(w, d, r);
  }

  lemma {:induction false} StateIsSaved(d: Disk, ops: seq<Op>)
    ensures Run(d, ops).state == d.state || exists op | op in ops :: op.Save? && Run(d, ops).state == Some(op.record)
    decreases |ops|
  {
    if ops != [] {
      var e := Apply(d, ops[0]);
      StateIsSaved(e, ops[1..]);
      if Run(d, ops).state == e.state && e.state != d.state {
        assert ops[0].Save? && ops[0] in ops;
      } else if Run(d, ops).state != e.state {
        var op :| op in ops[1..] && op.Save? && Run(e, ops[1..]).state == Some(op.record);
        assert op in ops;
      }
    }
  }

  // A step that leaves old-consistent.db alone and records `rolling_back` only as `rolling`.
  predicate RollsAs(op: Op, rolling: Record) {
    Avoids(op, OldConsistent) && (op.Save? && op.record.phase == RollingBack ==> op.record == rolling)
  }

  lemma ForwardRollsAs(r: Record, family: Family, torn: Bytes)
    ensures forall op | op in ForwardSteps(r, family, torn) :: RollsAs(op, RollingRecord(r, family))
  {
    assert forall o | o in CopyFamily(InForward, family, torn) :: o.Put? && o.path.Forward?;
  }

  predicate AllRollAs(ops: seq<Op>, rolling: Record) {
    forall op | op in ops :: RollsAs(op, rolling)
  }

  lemma ReinstallBeginRollsAs(files: map<Path, Bytes>, r: Record, snapshot: Bytes, torn: Bytes)
    ensures AllRollAs(ReinstallBegin(files, snapshot, torn), r)
  {
    assert forall op | op in Displace(files, true) :: RollsAs(op, r);
  }

  lemma ReinstallEndRollsAs(files: map<Path, Bytes>, r: Record, probeOk: bool)
    ensures AllRollAs(ReinstallEnd(files, r, probeOk), r)
  {
    assert forall op | op in RemoveIncoming(files, r.candidate.sha) :: RollsAs(op, r);
  }

  lemma ReinstallRollsAs(files: map<Path, Bytes>, r: Record, snapshot: Bytes, torn: Bytes, probeOk: bool)
    ensures forall op | op in ReinstallSteps(files, r, snapshot, torn, probeOk) :: RollsAs(op, r)
  {
    ReinstallShape(files, r, snapshot, torn, probeOk);
    ReinstallBeginRollsAs(files, r, snapshot, torn);
    ReinstallEndRollsAs(files, r, probeOk);
  }

  lemma RollbackRollsAs(w: World, d: Disk, torn: Bytes, probeOk: bool)
    requires CanStartRollback(w, d)
    ensures forall op | op in RollbackSteps(d, torn, probeOk) ::
              RollsAs(op, RollingRecord(d.state.value, LiveFamily(d.files)))
  {
    var rolling := RollingRecord(d.state.value, LiveFamily(d.files));
    ForwardRollsAs(d.state.value, LiveFamily(d.files), torn);
    ReinstallRollsAs(d.files, rolling, d.files[OldConsistent], torn, probeOk);
  }

  /** A rollback that crashes anywhere after recording `rolling_back`, run again, ends with the same record
  and the same live family as a rollback that never crashed. */
  lemma CrashedRollbackEndsAlike(w: World, d: Disk, steps: nat, torn: Bytes, torn': Bytes, probeOk: bool)
    requires CanStartRollback(w, d)
    requires steps <= |RollbackSteps(d, torn, probeOk)|
    requires Run(d, RollbackSteps(d, torn, probeOk)[..steps]).state.Some?
    requires Run(d, RollbackSteps(d, torn, probeOk)[..steps]).state.value.phase == RollingBack
    ensures var plan := RollbackSteps(d, torn, probeOk);
            var crashed := Run(d, plan[..steps]);
            var again := Run(crashed, RollbackSteps(crashed, torn', probeOk));
            && again.state == Run(d, plan).state
            && LiveFamily(again.files) == LiveFamily(Run(d, plan).files)
  {
    var plan := RollbackSteps(d, torn, probeOk);
    var head := plan[..steps];
    var crashed := Run(d, head);
    var rolling := RollingRecord(d.state.value, LiveFamily(d.files));
    RollbackFromInstalled(w, d, torn, probeOk);
    AllInvPrefix(w, d, plan, steps);
    RollbackRollsAs(w, d, torn, probeOk);
    StateIsSaved(d, head);
    if crashed.state != d.state {
      var op :| op in head && op.Save? && crashed.state == Some(op.record);
      assert op in plan && RollsAs(op, rolling);
    }
    assert crashed.state == Some(rolling);
    forall op | op in head ensures Avoids(op, OldConsistent) {
      assert op in plan && RollsAs(op, rolling);
    }
    AvoidRun(d, head, OldConsistent);
    ResumePasses(w, crashed);
    ReinstallSafe(w, crashed, rolling, torn', probeOk);
  }

  // A forward archive without the record that it is complete: later rollbacks find it and refuse.
  predicate Blocked(d: Disk, phase: Phase) {
    && d.state.Some? && d.state.value.phase == phase && phase in {Prepared, Activated}
    && ForwardDir in d.dirs && Recovery in d.dirs
  }

  predicate StaysBlocked(op: Op, phase: Phase) {
    && op != Rmdir(ForwardDir) && op != Rmdir(Recovery)
    && (op.Save? ==> op.record.phase == phase)
  }

  lemma {:induction false} BlockedRun(d: Disk, ops: seq<Op>, phase: Phase)
    requires Blocked(d, phase) && forall op | op in ops :: StaysBlocked(op, phase)
    ensures Blocked(Run(d, ops), phase)
    decreases |ops|
  {
    if ops != [] {
      assert StaysBlocked(ops[0], phase);
      BlockedRun(Apply(d, ops[0]), ops[1..], phase);
    }
  }

  lemma BlockedPlan(w: World, d: Disk, c: Command, phase: Phase)
    requires Blocked(d, phase)
    ensures forall op | op in Plan(w, d, c) :: StaysBlocked(op, phase)
    ensures c.Rollback? ==> Plan(w, d, c) == []
  {
  }

  lemma {:induction false} BlockedForever(w: World, d: Disk, events: seq<Event>, phase: Phase)
    requires Blocked(d, phase)
    ensures Blocked(After(w, d, events), phase)
    decreases |events|
  {
    if events != [] {
      var e := events[0];
      if e.Helper? {
        BlockedPlan(w, d, e.command, phase);
        BlockedRun(d, Cut(Plan(w, d, e.command), e.steps), phase);
      }
      BlockedForever(w, Next(w, d, e), events[1..], phase);
    }
  }

  lemma CrashedCopies(w: World, e: Disk, family: Family, torn: Bytes, copied: nat)
    requires Inv(w, e) && e.state.Some? && copied <= |CopyFamily(InForward, family, torn)|
    requires forall op | op in CopyFamily(InForward, family, torn) :: Quiet(e, op)
    ensures var crashed := Run(e, CopyFamily(InForward, family, torn)[..copied]);
            && crashed.state == e.state && LiveFamily(crashed.files) == LiveFamily(e.files)
            && (ForwardDir in e.dirs ==> ForwardDir in crashed.dirs)
            && (Recovery in e.dirs ==> Recovery in crashed.dirs)
  {
    var some := CopyFamily(InForward, family, torn)[..copied];
    QuietRun(w, e, some);
    SameLive(e, Run(e, some));
  }

  lemma ForwardCrash(w: World, d: Disk, steps: nat, torn: Bytes, probeOk: bool)
    requires CanStartRollback(w, d)
    requires 1 <= steps <= |CopyFamily(InForward, LiveFamily(d.files), torn)| + 1
    ensures var crashed := Run(d, RollbackSteps(d, torn, probeOk)[..steps]);
            && crashed.state == d.state && ForwardDir in crashed.dirs && Recovery in crashed.dirs
            && LiveFamily(crashed.files) == LiveFamily(d.files)
  {
    var family := LiveFamily(d.files);
    var copies := CopyFamily(InForward, family, torn);
    var e := Apply(d, Mkdir(ForwardDir));
    assert RollbackSteps(d, torn, probeOk)[..steps] == [Mkdir(ForwardDir)] + copies[..steps - 1];
    RunConcat(d, [Mkdir(ForwardDir)], copies[..steps - 1]);
    assert Run(d, [Mkdir(ForwardDir)]) == e;
    ForwardDirInv(w, d);
    CopyFamilyQuiet(e, InForward, family, torn);
    CrashedCopies(w, e, family, torn, steps - 1);
  }

  /** A rollback that crashes while still archiving forward leaves the live family as it was and is never
  resumed: after any later commands, crashes and service writes the phase is the same, and every rollback
  refuses. */
  lemma HalfArchiveBlocksRollback(w: World, d: Disk, steps: nat, torn: Bytes, probeOk: bool, events: seq<Event>)
    requires CanStartRollback(w, d)
    requires 1 <= steps <= |CopyFamily(InForward, LiveFamily(d.files), torn)| + 1
    ensures var crashed := Run(d, RollbackSteps(d, torn, probeOk)[..steps]);
            && crashed.state == d.state
            && LiveFamily(crashed.files) == LiveFamily(d.files)
            && var later := After(w, crashed, events);
            && later.state.Some? && later.state.value.phase == d.state.value.phase
            && ForwardDir in later.dirs
            && forall torn', ok :: RollbackSteps(later, torn', ok) == []
  {
    ForwardCrash(w, d, steps, torn, probeOk);
    var crashed := Run(d, RollbackSteps(d, torn, probeOk)[..steps]);
    BlockedForever(w, crashed, events, d.state.value.phase);
    var later := After(w, crashed, events);
    forall torn', ok
      ensures RollbackSteps(later, torn', ok) == []
    {
      BlockedPlan(w, later, Rollback(torn', ok), d.state.value.phase);
    }
  }

  /** Retirement crashed anywhere after `in_progress` was recorded finishes when run again. */
  lemma CrashedRetirementFinishes(w: World, d: Disk, steps: nat)
    requires Inv(w, d) && d.state.Some? && RetireAccepts(w, d, d.state.value)
    requires 1 <= steps <= |RetireSteps(w, d)|
    ensures var crashed := Run(d, RetireSteps(w, d)[..steps]);
            var again := Run(crashed, RetireSteps(w, crashed));
            again.state == Some(d.state.value.(retirement := Done)) && Candidate !in again.files
  {
    var r := d.state.value;
    var plan := RetireSteps(w, d);
    RetireSafe(w, d);
    AllInvPrefix(w, d, plan, steps);
    var crashed := Run(d, plan[..steps]);
    if steps >= 3 {
      RetireHead(w, d);
      var head := [Save(r.(retirement := InProgress)), Unlink(Candidate), Save(r.(retirement := Done))];
      var rest := plan[3..steps];
      assert plan[..steps] == head + rest;
      RunConcat(d, head, rest);
      RetireRest(w, d, Run(d, head), rest);
    } else {
      RetireCrashAccepts(w, d, steps);
      RetireSafe(w, crashed);
    }
  }

  lemma RetireRest(w: World, d: Disk, e: Disk, rest: seq<Op>)
    requires e.state.Some? && e.state.value.retirement == Done && Candidate !in e.files
    requires forall op | op in rest :: op == Unlink(Incoming)
    ensures Run(e, rest).state == e.state && Candidate !in Run(e, rest).files
    ensures RetireSteps(w, Run(e, rest)) == []
  {
    StateIsSaved(e, rest);
    AvoidRun(e, rest, Candidate);
  }

  lemma RetireCrashAccepts(w: World, d: Disk, steps: nat)
    requires Inv(w, d) && d.state.Some? && RetireAccepts(w, d, d.state.value)
    requires 1 <= steps <= 2
    ensures var crashed := Run(d, RetireSteps(w, d)[..steps]);
            && crashed.state == Some(d.state.value.(retirement := InProgress))
            && RetireAccepts(w, crashed, crashed.state.value)
  {
    var progress := d.state.value.(retirement := InProgress);
    var plan := RetireSteps(w, d);
    assert plan[..1] == [] + [Save(progress)];
    assert plan[..2] == [Save(progress)] + [Unlink(Candidate)];
    RunSnoc(d, [], Save(progress));
    RunSnoc(d, [Save(progress)], Unlink(Candidate));
  }

  // ---------- the round trip ----------

  /** Rollback undoes activation: after a completed activation and any later history, a completed rollback
  leaves the consolidation of the family that was live when the activation began, and nothing else. */
  lemma RollbackUndoesActivation(w: World, d: Disk, e: Expected, torn: Bytes, events: seq<Event>, torn': Bytes, probeOk: bool)
    requires Inv(w, d) && ActivateAccepts(w, d, e)
    requires !w.consolidate(LiveFamily(d.files)).Raised?
    requires var now := After(w, Run(d, ActivateSteps(w, d, torn, probeOk)), events);
             && now.state.Some? && now.state.value.phase in {Activated, RollingBack}
             && RollbackSteps(now, torn', probeOk) != []
    ensures var now := After(w, Run(d, ActivateSteps(w, d, torn, probeOk)), events);
            var done := Run(now, RollbackSteps(now, torn', probeOk));
            && done.state.Some? && done.state.value.phase == RolledBack
            && w.consolidate(LiveFamily(d.files)).Consolidated?
            && LiveFamily(done.files) == map[Main := w.consolidate(LiveFamily(d.files)).bytes]
  {
    ActivatedStaysArchived(w, d, e, torn, events, probeOk);
    FinishedRollback(w, After(w, Run(d, ActivateSteps(w, d, torn, probeOk)), events), torn', probeOk);
  }

  // After an activation the archive is the family it found, whatever happens.
  lemma ActivatedStaysArchived(w: World, d: Disk, e: Expected, torn: Bytes, events: seq<Event>, probeOk: bool)
    requires Inv(w, d) && ActivateAccepts(w, d, e)
    requires !w.consolidate(LiveFamily(d.files)).Raised?
    ensures var now := After(w, Run(d, ActivateSteps(w, d, torn, probeOk)), events);
            Inv(w, now) && now.history.archived == Some(LiveFamily(d.files))
  {
    var plan, family := ActivateSteps(w, d, torn, probeOk), LiveFamily(d.files);
    ActivateSafe(w, d, InspectInfo(w, d.files[Candidate]).value, torn, probeOk);
    var active := Run(d, plan);
    AllInvEnds(w, d, plan);
    assert Main in family && Main in active.state.value.rawFiles;
    DigestsInjective(active.history.archived.value, family);
    AfterSafe(w, active, events);
    AfterFrozen(w, active, events);
  }

  lemma FinishedRollback(w: World, now: Disk, torn: Bytes, probeOk: bool)
    requires Inv(w, now) && now.history.archived.Some?
    requires now.state.Some? && now.state.value.phase in {Activated, RollingBack}
    requires RollbackSteps(now, torn, probeOk) != []
    ensures var done, c := Run(now, RollbackSteps(now, torn, probeOk)), w.consolidate(now.history.archived.value);
            && done.state.Some? && done.state.value.phase == RolledBack
            && c.Consolidated? && LiveFamily(done.files) == map[Main := c.bytes]
  {
    if now.state.value.phase == RollingBack {
      RollingBackFinishes(w, now, torn, probeOk);
      var plan := RollbackSteps(now, torn, probeOk);
      assert plan[..|plan|] == plan;
    } else {
      RollbackFromInstalled(w, now, torn, probeOk);
      assert AssessmentKept(w, now, now.state.value);
    }
  }

  lemma DigestsInjective(a: Family, b: Family)
    requires Digests(a) == Digests(b)
    ensures a == b
  {
    assert a.Keys == Digests(a).Keys == b.Keys;
    forall m | m in a ensures a[m] == b[m] {
      assert Digests(a)[m] == Digests(b)[m];
    }
  }
}
