/** Every crash point of `rollback`, `probe` and `retire-stage` keeps the recorded phase truthful.

A rollback archives the current family, records `rolling_back`, and from there on can be resumed: the
part that re-installs the old snapshot is therefore proved from any state in that phase, whichever of
the sidecars and the main file an interrupted run has already replaced.
*/
module RollbackSafety {
  import opened Common
  import opened Volume
  import opened RestorePlan
  import opened RestoreInvariant
  import opened ActivateSafety

  // ---------- abandon ----------

  lemma RemoveIncomingSafe(w: World, d: Disk, sha: Digest)
    requires Inv(w, d) && d.state.Some?
    ensures var ops := RemoveIncoming(d.files, sha);
            && AllInv(w, d, ops) && Inv(w, Run(d, ops)) && SameCore(d, Run(d, ops))
            && !(Incoming in Run(d, ops).files && Sha(Run(d, ops).files[Incoming]) == sha)
            && (forall p | p != Incoming :: SameAt(d, Run(d, ops), p))
            && Run(d, ops).dirs == d.dirs
  {
    var ops := RemoveIncoming(d.files, sha);
    assert Private(d, Incoming);
    QuietRun(w, d, ops);
    AllInvEnds(w, d, ops);
    if ops != [] {
      RunSnoc(d, [], Unlink(Incoming));
      assert [] + [Unlink(Incoming)] == ops;
    }
  }

  lemma AbandonSafe(w: World, d: Disk)
    requires Inv(w, d) && d.state.Some? && d.state.value.phase == Archiving
    ensures var ops := AbandonSteps(d, d.state.value);
            && AllInv(w, d, ops)
            && Run(d, ops).state == Some(d.state.value.(phase := Abandoned))
            && LiveFamily(Run(d, ops).files) == LiveFamily(d.files)
  {
    var r := d.state.value;
    var remove := RemoveIncoming(d.files, r.candidate.sha);
    RemoveIncomingSafe(w, d, r.candidate.sha);
    var e := Run(d, remove);
    SameLive(d, e);
    AbandonedInv(w, e);
    AllInvThen(w, d, remove, Save(r.(phase := Abandoned)));
  }

  lemma AbandonedInv(w: World, e: Disk)
    requires Inv(w, e) && e.state.Some? && e.state.value.phase == Archiving
    ensures Inv(w, Apply(e, Save(e.state.value.(phase := Abandoned))))
  {
    var a := e.state.value.(phase := Abandoned);
    var f := Apply(e, Save(a));
    assert f.history == e.history && f.files == e.files;
    assert ArchiveKept(f, a) && AssessmentKept(w, f, a) && CandidateKept(w, f, a);
  }

  // ---------- forward archive ----------

  ghost predicate CanStartRollback(w: World, d: Disk) {
    && Inv(w, d)
    && d.state.Some? && d.state.value.phase in {Prepared, Activated}
    && RollbackTarget(d, d.state.value)
    && ForwardDir !in d.dirs
  }

  lemma ForwardDirInv(w: World, d: Disk)
    requires CanStartRollback(w, d)
    ensures Inv(w, Apply(d, Mkdir(ForwardDir)))
  {
    var r := d.state.value;
    var e := Apply(d, Mkdir(ForwardDir));
    assert ArchiveKept(e, r) && AssessmentKept(w, e, r) && CandidateKept(w, e, r) && ForwardFresh(e, r.phase);
    assert r.phase == Prepared ==> PreparedFacts(e, r);
    assert r.phase == Activated ==> ActivatedFacts(e, r);
  }

  // `rolling_back` recorded: the forward archive is complete and nothing live has moved.
  ghost predicate RollingFresh(d: Disk, e: Disk) {
    && d.state.Some?
    && e.state == Some(RollingRecord(d.state.value, LiveFamily(d.files)))
    && e.history == d.history.(forwarded := Some(LiveFamily(d.files)))
    && (forall m: Member :: SameAt(d, e, Live(m)))
    && SameAt(d, e, OldConsistent) && SameAt(d, e, Incoming)
  }

  lemma RollingInv(w: World, d: Disk, e: Disk)
    requires CanStartRollback(w, d)
    requires Inv(w, e) && e.state == d.state && e.history == d.history && ForwardDir in e.dirs
    requires forall m: Member :: SameAt(d, e, Live(m))
    requires SameAt(d, e, OldConsistent) && SameAt(d, e, Incoming)
    requires forall m | m in LiveFamily(d.files) ::
               Forward(m) in e.files && e.files[Forward(m)] == LiveFamily(d.files)[m]
    ensures var f := Apply(e, Save(RollingRecord(d.state.value, LiveFamily(d.files))));
            Inv(w, f) && RollingFresh(d, f)
  {
    var family := LiveFamily(d.files);
    var r := RollingRecord(d.state.value, family);
    var f := Apply(e, Save(r));
    assert SameAt(d, e, Live(Main)) && SameAt(d, e, Live(Wal)) && SameAt(d, e, Live(Shm));
    assert LiveFamily(e.files) == family;
    assert f.files == e.files;
    assert ForwardKept(f, r);
    assert RollbackTarget(f, r);
    assert ArchiveKept(f, r) && AssessmentKept(w, f, r) && CandidateKept(w, f, r) && ForwardFresh(f, r.phase);
    assert ForwardFresh(e, d.state.value.phase);
    assert SidecarSafe(f, family, Wal, ForwardDisplaced(Wal)) && SidecarSafe(f, family, Shm, ForwardDisplaced(Shm));
    assert RollingFacts(f, r);
  }

  lemma ForwardCopiesQuiet(w: World, d: Disk, torn: Bytes)
    requires CanStartRollback(w, d)
    ensures var e := Apply(d, Mkdir(ForwardDir));
            var ops := CopyFamily(InForward, LiveFamily(d.files), torn);
            AllInv(w, e, ops) && SameCore(e, Run(e, ops))
  {
    var e := Apply(d, Mkdir(ForwardDir));
    ForwardDirInv(w, d);
    CopyFamilyQuiet(e, InForward, LiveFamily(d.files), torn);
    QuietRun(w, e, CopyFamily(InForward, LiveFamily(d.files), torn));
  }

  lemma ForwardCopiesHold(d: Disk, torn: Bytes)
    ensures var e := Run(Apply(d, Mkdir(ForwardDir)), CopyFamily(InForward, LiveFamily(d.files), torn));
            && (forall m | m in LiveFamily(d.files) ::
                  Forward(m) in e.files && e.files[Forward(m)] == LiveFamily(d.files)[m])
            && SameAt(d, e, OldConsistent) && SameAt(d, e, Incoming)
  {
    var e := Apply(d, Mkdir(ForwardDir));
    var ops := CopyFamily(InForward, LiveFamily(d.files), torn);
    forall m | m in LiveFamily(d.files)
      ensures Forward(m) in Run(e, ops).files && Run(e, ops).files[Forward(m)] == LiveFamily(d.files)[m]
    {
      CopyFamilyHolds(e, InForward, LiveFamily(d.files), torn, m);
    }
    AvoidRun(e, ops, OldConsistent);
    AvoidRun(e, ops, Incoming);
  }

  lemma ForwardSafe(w: World, d: Disk, torn: Bytes)
    requires CanStartRollback(w, d)
    ensures var ops := ForwardSteps(d.state.value, LiveFamily(d.files), torn);
            && AllInv(w, d, ops)
            && Inv(w, Run(d, ops)) && RollingFresh(d, Run(d, ops))
  {
    var family := LiveFamily(d.files);
    var copies := CopyFamily(InForward, family, torn);
    var rolling := RollingRecord(d.state.value, family);
    ForwardDirInv(w, d);
    AllInvOne(w, d, Mkdir(ForwardDir));
    ForwardCopiesQuiet(w, d, torn);
    ForwardCopiesHold(d, torn);
    var e := Apply(d, Mkdir(ForwardDir));
    AllInvEnds(w, e, copies);
    SameLive(e, Run(e, copies));
    AllInvConcat(w, d, [Mkdir(ForwardDir)], copies);
    RunConcat(d, [Mkdir(ForwardDir)], copies);
    forall m: Member ensures SameAt(d, Run(e, copies), Live(m)) {
      assert SameAt(e, Run(e, copies), Live(m));
    }
    RollingInv(w, d, Run(e, copies));
    AllInvThen(w, d, [Mkdir(ForwardDir)] + copies, Save(rolling));
  }

  // ---------- reinstall ----------

  ghost predicate Rolling(w: World, d: Disk, r: Record) {
    Inv(w, d) && d.state == Some(r) && r.phase == RollingBack
  }

  lemma RollbackCopySafe(w: World, d: Disk, r: Record, torn: Bytes)
    requires Rolling(w, d, r)
    ensures var ops := [Unlink(RollbackCopy)] + Copy(RollbackCopy, d.files[OldConsistent], torn);
            var e := Run(d, ops);
            && AllInv(w, d, ops)
            && Rolling(w, e, r)
            && RollbackCopy in e.files && e.files[RollbackCopy] == e.files[OldConsistent]
            && (forall p | p != RollbackCopy :: SameAt(d, e, p))
  {
    var bytes := d.files[OldConsistent];
    var ops := [Unlink(RollbackCopy)] + Copy(RollbackCopy, bytes, torn);
    assert Private(d, RollbackCopy);
    QuietRun(w, d, ops);
    AllInvEnds(w, d, ops);
    var e := Apply(d, Unlink(RollbackCopy));
    assert [] + [Unlink(RollbackCopy)] == [Unlink(RollbackCopy)];
    RunSnoc(d, [], Unlink(RollbackCopy));
    RunConcat(d, [Unlink(RollbackCopy)], Copy(RollbackCopy, bytes, torn));
    CopyRun(e, RollbackCopy, bytes, torn);
  }

  ghost predicate Restoring(w: World, d: Disk, r: Record) {
    && Rolling(w, d, r)
    && RollbackCopy in d.files && d.files[RollbackCopy] == d.files[OldConsistent]
  }

  // `e` is `d` with one live sidecar moved into the forward archive.
  ghost predicate MovedAside(d: Disk, e: Disk, m: Member) {
    && m != Main && Live(m) in d.files && Live(m) !in e.files
    && ForwardDisplaced(m) in e.files && e.files[ForwardDisplaced(m)] == d.files[Live(m)]
    && e.state == d.state && e.history == d.history && e.dirs == d.dirs
    && (forall p | p != Live(m) && p != ForwardDisplaced(m) :: SameAt(d, e, p))
  }

  lemma MovedArchives(w: World, d: Disk, e: Disk, r: Record, m: Member)
    requires MovedAside(d, e, m) && d.state == Some(r)
    ensures ArchiveKept(d, r) ==> ArchiveKept(e, r)
    ensures AssessmentKept(w, d, r) ==> AssessmentKept(w, e, r)
    ensures CandidateKept(w, d, r) ==> CandidateKept(w, e, r)
  {
    assert SameAt(d, e, OldConsistent) && SameAt(d, e, Candidate);
    assert forall n: Member :: SameAt(d, e, RawOld(n));
  }

  lemma MovedForward(d: Disk, e: Disk, r: Record, m: Member)
    requires MovedAside(d, e, m) && d.state == Some(r) && r.phase == RollingBack
    ensures ForwardKept(d, r) ==> ForwardKept(e, r)
    ensures RollbackTarget(d, r) ==> RollbackTarget(e, r)
    ensures ForwardFresh(d, r.phase) ==> ForwardFresh(e, r.phase)
  {
    assert SameAt(d, e, OldConsistent);
    assert forall n: Member :: SameAt(d, e, Forward(n));
  }

  lemma MovedSidecars(w: World, d: Disk, e: Disk, r: Record, m: Member)
    requires Restoring(w, d, r) && MovedAside(d, e, m)
    ensures var family := d.history.forwarded.value;
            && SidecarSafe(e, family, Wal, ForwardDisplaced(Wal))
            && SidecarSafe(e, family, Shm, ForwardDisplaced(Shm))
            && Live(Main) in e.files
            && e.files[Live(Main)] == d.files[Live(Main)]
            && d.files[Live(Main)] == family[Main]
  {
    var n := if m == Wal then Shm else Wal;
    assert SameAt(d, e, Live(n)) && SameAt(d, e, ForwardDisplaced(n)) && SameAt(d, e, Live(Main));
  }

  lemma SetForwardAside(w: World, d: Disk, r: Record, m: Member)
    requires Restoring(w, d, r) && m != Main && Live(m) in d.files
    ensures var e := Apply(d, Rename(Live(m), ForwardDisplaced(m)));
            Restoring(w, e, r) && Live(m) !in e.files && e.history == d.history
  {
    var e := Apply(d, Rename(Live(m), ForwardDisplaced(m)));
    assert MovedAside(d, e, m);
    MovedArchives(w, d, e, r, m);
    MovedForward(d, e, r, m);
    MovedSidecars(w, d, e, r, m);
    assert SameAt(d, e, RollbackCopy) && SameAt(d, e, OldConsistent);
  }

  function DisplaceOne(files: map<Path, Bytes>, m: Member): seq<Op> {
    if Live(m) in files then [Rename(Live(m), ForwardDisplaced(m))] else []
  }

  lemma DisplaceOneSafe(w: World, d: Disk, r: Record, m: Member)
    requires Restoring(w, d, r) && m != Main
    ensures var e := Run(d, DisplaceOne(d.files, m));
            && AllInv(w, d, DisplaceOne(d.files, m))
            && Restoring(w, e, r) && Live(m) !in e.files && e.history == d.history
  {
    if Live(m) in d.files {
      SetForwardAside(w, d, r, m);
      AllInvOne(w, d, Rename(Live(m), ForwardDisplaced(m)));
    }
  }

  lemma DisplaceAvoids(d: Disk, forward: bool)
    ensures SameAt(d, Run(d, Displace(d.files, forward)), Incoming)
    ensures SameAt(d, Run(d, Displace(d.files, forward)), OldConsistent)
  {
    AvoidRun(d, Displace(d.files, forward), Incoming);
    AvoidRun(d, Displace(d.files, forward), OldConsistent);
  }

  lemma DisplaceShmNext(d: Disk)
    ensures var e := Run(d, DisplaceOne(d.files, Wal));
            && DisplaceOne(d.files, Shm) == DisplaceOne(e.files, Shm)
            && SameAt(e, Run(e, DisplaceOne(e.files, Shm)), Live(Wal))
  {
    var e := Run(d, DisplaceOne(d.files, Wal));
    AvoidRun(d, DisplaceOne(d.files, Wal), Live(Shm));
    AvoidRun(e, DisplaceOne(e.files, Shm), Live(Wal));
  }

  lemma ForwardDisplaceSafe(w: World, d: Disk, r: Record)
    requires Restoring(w, d, r)
    ensures var ops := Displace(d.files, true);
            && AllInv(w, d, ops)
            && Restoring(w, Run(d, ops), r)
            && NoSidecars(Run(d, ops))
            && Run(d, ops).history == d.history
  {
    var a, b := DisplaceOne(d.files, Wal), DisplaceOne(d.files, Shm);
    assert Displace(d.files, true) == a + b;
    DisplaceOneSafe(w, d, r, Wal);
    DisplaceShmNext(d);
    DisplaceOneSafe(w, Run(d, a), r, Shm);
    AllInvConcat(w, d, a, b);
    RunConcat(d, a, b);
  }

  lemma ReplaceInv(w: World, d: Disk, r: Record)
    requires Restoring(w, d, r) && NoSidecars(d)
    ensures var e := Apply(d, Rename(RollbackCopy, Live(Main)));
            && Rolling(w, e, r)
            && NoSidecars(e)
            && LiveFamily(e.files) == map[Main := d.files[OldConsistent]]
            && e.history == d.history.(left := LiveFamily(e.files), installed := Some(d.files[OldConsistent]), probed := false)
            && SameAt(d, e, Incoming) && SameAt(d, e, OldConsistent)
  {
    var e := Apply(d, Rename(RollbackCopy, Live(Main)));
    OnlyMain(e.files, d.files[OldConsistent]);
    assert ArchiveKept(e, r) && AssessmentKept(w, e, r) && CandidateKept(w, e, r);
    assert ForwardKept(e, r) && RollbackTarget(e, r) && ForwardFresh(e, r.phase);
    assert RollingFacts(e, r);
  }

  lemma RolledBackInv(w: World, e: Disk, r: Record)
    requires Rolling(w, e, r) && NoSidecars(e)
    requires LiveFamily(e.files) == e.history.left
    requires e.history.installed == Some(e.files[OldConsistent]) && e.files[Live(Main)] == e.files[OldConsistent]
    ensures Installed(w, Apply(e, Save(r.(phase := RolledBack))))
  {
    var b := r.(phase := RolledBack);
    var f := Apply(e, Save(b));
    assert f.history == e.history && f.files == e.files;
    assert ArchiveKept(f, b) && AssessmentKept(w, f, b) && CandidateKept(w, f, b) && ForwardFresh(f, b.phase);
    assert ForwardKept(f, b) && RollbackTarget(f, b);
    assert RolledBackFacts(f, b);
  }

  ghost predicate Ended(e: Disk, r: Record, restored: Bytes, result: Probe) {
    && e.state == Some(r.(phase := RolledBack, writeProbe := Some(result)))
    && LiveFamily(e.files) == map[Main := restored]
    && !(Incoming in e.files && Sha(e.files[Incoming]) == r.candidate.sha)
  }

  lemma FinishSafe(w: World, e: Disk, r: Record, probeOk: bool)
    requires Installed(w, e) && e.state == Some(r) && r.phase == RolledBack && NoSidecars(e)
    requires LiveFamily(e.files) == map[Main := e.files[OldConsistent]]
    ensures var done := r.(writeProbe := Some(ProbeResult(probeOk)));
            var ops := RemoveIncoming(e.files, r.candidate.sha) + [ProbeWrite(probeOk), Save(done)];
            && AllInv(w, e, ops)
            && Ended(Run(e, ops), r, e.files[OldConsistent], ProbeResult(probeOk))
  {
    var remove := RemoveIncoming(e.files, r.candidate.sha);
    RemoveIncomingSafe(w, e, r.candidate.sha);
    var f := Run(e, remove);
    SameLive(e, f);
    assert SameAt(e, f, Live(Main)) && SameAt(e, f, Live(Wal)) && SameAt(e, f, Live(Shm));
    ProbeSafe(w, f, probeOk);
    var tail := [ProbeWrite(probeOk), Save(r.(writeProbe := Some(ProbeResult(probeOk))))];
    AllInvConcat(w, e, remove, tail);
    RunConcat(e, remove, tail);
  }

  lemma ReplaceSafe(w: World, d: Disk, r: Record)
    requires Restoring(w, d, r) && NoSidecars(d)
    ensures var b := r.(phase := RolledBack);
            var ops := [Rename(RollbackCopy, Live(Main)), Save(b)];
            var e := Run(d, ops);
            && AllInv(w, d, ops)
            && Installed(w, e) && e.state == Some(b) && NoSidecars(e)
            && OldConsistent in e.files && e.files[OldConsistent] == d.files[OldConsistent]
            && LiveFamily(e.files) == map[Main := e.files[OldConsistent]]
            && SameAt(d, e, Incoming)
  {
    var swap, b := Rename(RollbackCopy, Live(Main)), r.(phase := RolledBack);
    var e := Apply(d, swap);
    ReplaceInv(w, d, r);
    assert Main in LiveFamily(e.files) && Live(Main) in e.files && e.files[Live(Main)] == LiveFamily(e.files)[Main];
    RolledBackInv(w, e, r);
    AllInvOne(w, d, swap);
    AllInvThen(w, d, [swap], Save(b));
    assert [swap] + [Save(b)] == [swap, Save(b)];
  }

  function ReinstallEnd(files: map<Path, Bytes>, r: Record, probeOk: bool): seq<Op> {
    [Rename(RollbackCopy, Live(Main)), Save(r.(phase := RolledBack))]
    + (RemoveIncoming(files, r.candidate.sha)
       + [ProbeWrite(probeOk), Save(r.(phase := RolledBack, writeProbe := Some(ProbeResult(probeOk))))])
  }

  lemma ReinstallTail(w: World, e: Disk, r: Record, probeOk: bool)
    requires Restoring(w, e, r) && NoSidecars(e)
    ensures var tail := ReinstallEnd(e.files, r, probeOk);
            && AllInv(w, e, tail)
            && Ended(Run(e, tail), r, e.files[OldConsistent], ProbeResult(probeOk))
  {
    var b := r.(phase := RolledBack);
    var a := [Rename(RollbackCopy, Live(Main)), Save(b)];
    ReplaceSafe(w, e, r);
    var f := Run(e, a);
    assert RemoveIncoming(e.files, r.candidate.sha) == RemoveIncoming(f.files, b.candidate.sha);
    FinishSafe(w, f, b, probeOk);
    var c := RemoveIncoming(e.files, r.candidate.sha) + [ProbeWrite(probeOk), Save(b.(writeProbe := Some(ProbeResult(probeOk))))];
    AllInvConcat(w, e, a, c);
    RunConcat(e, a, c);
  }

  function ReinstallBegin(files: map<Path, Bytes>, snapshot: Bytes, torn: Bytes): seq<Op> {
    [Unlink(RollbackCopy)] + Copy(RollbackCopy, snapshot, torn) + Displace(files, true)
  }

  lemma ReinstallShape(files: map<Path, Bytes>, r: Record, snapshot: Bytes, torn: Bytes, probeOk: bool)
    ensures ReinstallSteps(files, r, snapshot, torn, probeOk)
         == ReinstallBegin(files, snapshot, torn) + ReinstallEnd(files, r, probeOk)
  {
  }

  lemma ReinstallHead(w: World, d: Disk, r: Record, torn: Bytes)
    requires Rolling(w, d, r)
    ensures var ops := ReinstallBegin(d.files, d.files[OldConsistent], torn);
            var e := Run(d, ops);
            && AllInv(w, d, ops)
            && Restoring(w, e, r) && NoSidecars(e)
            && SameAt(d, e, Incoming) && SameAt(d, e, OldConsistent)
  {
    var a := [Unlink(RollbackCopy)] + Copy(RollbackCopy, d.files[OldConsistent], torn);
    RollbackCopySafe(w, d, r, torn);
    var e := Run(d, a);
    assert SameAt(d, e, Live(Wal)) && SameAt(d, e, Live(Shm)) && SameAt(d, e, OldConsistent) && SameAt(d, e, Incoming);
    var b := Displace(e.files, true);
    assert b == Displace(d.files, true);
    ForwardDisplaceSafe(w, e, r);
    DisplaceAvoids(e, true);
    AllInvConcat(w, d, a, b);
    RunConcat(d, a, b);
  }

  /** From any volume whose recorded phase is `rolling_back`, carrying the steps through installs the
  consolidated old state alone, and every crash point on the way keeps the invariant. */
  lemma ReinstallSafe(w: World, d: Disk, r: Record, torn: Bytes, probeOk: bool)
    requires Rolling(w, d, r)
    ensures var ops := ReinstallSteps(d.files, r, d.files[OldConsistent], torn, probeOk);
            && AllInv(w, d, ops)
            && Ended(Run(d, ops), r, d.files[OldConsistent], ProbeResult(probeOk))
  {
    var head := ReinstallBegin(d.files, d.files[OldConsistent], torn);
    ReinstallHead(w, d, r, torn);
    var e := Run(d, head);
    ReinstallTail(w, e, r, probeOk);
    AllInvConcat(w, d, head, ReinstallEnd(e.files, r, probeOk));
    RunConcat(d, head, ReinstallEnd(e.files, r, probeOk));
    assert ReinstallEnd(e.files, r, probeOk) == ReinstallEnd(d.files, r, probeOk);
    ReinstallShape(d.files, r, d.files[OldConsistent], torn, probeOk);
  }

  lemma RollingOldConsistent(w: World, d: Disk, torn: Bytes)
    requires CanStartRollback(w, d)
    ensures var e := Run(d, ForwardSteps(d.state.value, LiveFamily(d.files), torn));
            && OldConsistent in e.files && e.files[OldConsistent] == d.files[OldConsistent]
            && Displace(e.files, true) == Displace(d.files, true)
            && (forall sha :: RemoveIncoming(e.files, sha) == RemoveIncoming(d.files, sha))
  {
    ForwardSafe(w, d, torn);
    var e := Run(d, ForwardSteps(d.state.value, LiveFamily(d.files), torn));
    assert SameAt(d, e, Live(Wal)) && SameAt(d, e, Live(Shm));
  }

  /** A first rollback: it archives the live family, then installs the consolidated old state alone. */
  lemma RollbackFromInstalled(w: World, d: Disk, torn: Bytes, probeOk: bool)
    requires CanStartRollback(w, d)
    ensures var ops := RollbackSteps(d, torn, probeOk);
            && AllInv(w, d, ops)
            && Ended(Run(d, ops), RollingRecord(d.state.value, LiveFamily(d.files)), d.files[OldConsistent], ProbeResult(probeOk))
  {
    var r := d.state.value;
    var rolling := RollingRecord(r, LiveFamily(d.files));
    var a := ForwardSteps(r, LiveFamily(d.files), torn);
    ForwardSafe(w, d, torn);
    RollingOldConsistent(w, d, torn);
    var e := Run(d, a);
    ReinstallSafe(w, e, rolling, torn, probeOk);
    var b := ReinstallSteps(d.files, rolling, d.files[OldConsistent], torn, probeOk);
    assert b == ReinstallSteps(e.files, rolling, e.files[OldConsistent], torn, probeOk);
    AllInvConcat(w, d, a, b);
    RunConcat(d, a, b);
  }

  // ---------- probe ----------

  lemma StaleInv(w: World, d: Disk)
    requires Inv(w, d) && d.state.Some? && d.state.value.phase in {Activated, RolledBack}
    ensures Inv(w, Apply(d, Save(d.state.value.(writeProbe := Some(Stale)))))
  {
    ProbeResultInv(w, d, Stale);
  }

  lemma UnchangedIsInstalled(w: World, d: Disk)
    requires Inv(w, d) && d.state.Some? && d.state.value.phase in {Activated, RolledBack}
    requires UnchangedSinceSwap(d, InstalledSha(d.state.value))
    ensures Installed(w, d)
  {
  }

  lemma ProbeCommandSafe(w: World, d: Disk, probeOk: bool)
    requires Inv(w, d)
    ensures AllInv(w, d, ProbeSteps(d, probeOk))
  {
    var ops := ProbeSteps(d, probeOk);
    if ops != [] {
      var r := d.state.value;
      if UnchangedSinceSwap(d, InstalledSha(r)) {
        UnchangedIsInstalled(w, d);
        ProbeSafe(w, d, probeOk);
      } else {
        StaleInv(w, d);
        AllInvOne(w, d, ops[0]);
      }
    }
  }

  // ---------- retire-stage ----------

  lemma RetirementInv(w: World, d: Disk, next: Retirement)
    requires Inv(w, d) && d.state.Some? && d.state.value.phase in {Activated, RolledBack, Abandoned}
    requires next == InProgress || (next == Done && Candidate !in d.files)
    requires d.state.value.retirement != Done
    ensures Inv(w, Apply(d, Save(d.state.value.(retirement := next))))
  {
    var r := d.state.value;
    var n := r.(retirement := next);
    var f := Apply(d, Save(n));
    assert f.history == d.history && f.files == d.files && f.dirs == d.dirs;
    assert ArchiveKept(f, n) && AssessmentKept(w, f, n) && CandidateKept(w, f, n) && ForwardFresh(f, n.phase);
    assert r.phase == Activated ==> ActivatedFacts(f, n);
    assert r.phase == RolledBack ==> RolledBackFacts(f, n);
    assert r.phase == Abandoned ==> Untouched(f);
  }

  lemma UnlinkCandidateInv(w: World, d: Disk)
    requires Inv(w, d) && d.state.Some? && d.state.value.phase in {Activated, RolledBack, Abandoned}
    requires d.state.value.retirement == InProgress
    ensures Inv(w, Apply(d, Unlink(Candidate)))
  {
    var r := d.state.value;
    var f := Apply(d, Unlink(Candidate));
    assert LiveFamily(f.files) == LiveFamily(d.files);
    assert ArchiveKept(f, r) && AssessmentKept(w, f, r) && CandidateKept(w, f, r) && ForwardFresh(f, r.phase);
    assert r.phase == Activated ==> ActivatedFacts(f, r);
    assert r.phase == RolledBack ==> RolledBackFacts(f, r);
    assert r.phase == Abandoned ==> Untouched(f);
  }

  lemma RetireHead(w: World, d: Disk)
    requires Inv(w, d) && d.state.Some? && RetireAccepts(w, d, d.state.value)
    ensures var r := d.state.value;
            var ops := [Save(r.(retirement := InProgress)), Unlink(Candidate), Save(r.(retirement := Done))];
            var e := Run(d, ops);
            && AllInv(w, d, ops) && Inv(w, e)
            && e.state == Some(r.(retirement := Done))
            && e.files == d.files - {Candidate}
  {
    var r := d.state.value;
    var progress, gone := r.(retirement := InProgress), r.(retirement := Done);
    RetirementInv(w, d, InProgress);
    AllInvOne(w, d, Save(progress));
    var e1 := Apply(d, Save(progress));
    UnlinkCandidateInv(w, e1);
    AllInvThen(w, d, [Save(progress)], Unlink(Candidate));
    var e2 := Apply(e1, Unlink(Candidate));
    RetirementInv(w, e2, Done);
    AllInvThen(w, d, [Save(progress)] + [Unlink(Candidate)], Save(gone));
    assert [Save(progress)] + [Unlink(Candidate)] + [Save(gone)] == [Save(progress), Unlink(Candidate), Save(gone)];
  }

  /** Retiring a stage from any volume it accepts ends with the candidate gone and the fact recorded. */
  lemma RetireSafe(w: World, d: Disk)
    requires Inv(w, d) && d.state.Some? && RetireAccepts(w, d, d.state.value)
    ensures var e := Run(d, RetireSteps(w, d));
            && AllInv(w, d, RetireSteps(w, d))
            && e.state == Some(d.state.value.(retirement := Done))
            && Candidate !in e.files
            && LiveFamily(e.files) == LiveFamily(d.files)
            && !(Incoming in e.files && Sha(e.files[Incoming]) == d.state.value.candidate.sha)
  {
    var r := d.state.value;
    var head := [Save(r.(retirement := InProgress)), Unlink(Candidate), Save(r.(retirement := Done))];
    RetireHead(w, d);
    var e := Run(d, head);
    RetireTail(w, d, e);
    var tail := RemoveIncoming(e.files, r.candidate.sha);
    assert tail == RemoveIncoming(d.files, r.candidate.sha);
    AllInvConcat(w, d, head, tail);
    RunConcat(d, head, tail);
  }

  lemma RetireTail(w: World, d: Disk, e: Disk)
    requires Inv(w, e) && e.state.Some? && Candidate !in e.files
    requires LiveFamily(e.files) == LiveFamily(d.files)
    ensures var sha := e.state.value.candidate.sha;
            var f := Run(e, RemoveIncoming(e.files, sha));
            && AllInv(w, e, RemoveIncoming(e.files, sha))
            && f.state == e.state && Candidate !in f.files && LiveFamily(f.files) == LiveFamily(d.files)
            && !(Incoming in f.files && Sha(f.files[Incoming]) == sha)
  {
    var sha := e.state.value.candidate.sha;
    RemoveIncomingSafe(w, e, sha);
    SameLive(e, Run(e, RemoveIncoming(e.files, sha)));
  }
}
