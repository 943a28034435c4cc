/** When each command of the restore helper does anything, read off the volume, and what it leaves there. */
module RestoreGates {
  import opened Common
  import opened Volume
  import opened RestorePlan
  import opened RestoreInvariant
  import opened ActivateSafety
  import opened RollbackSafety
  import opened RestoreRuns
  import opened RestorePair

  // ---------- refusals ----------

  /** An activation goes ahead exactly for the file the operator named: by its digest, schema version and
  project identity, with a live main file and no recovery directory of this operation. */
  lemma ActivationGate(w: World, d: Disk, e: Expected, torn: Bytes, probeOk: bool)
    ensures Plan(w, d, Activate(e, torn, probeOk)) != [] <==>
            && Live(Main) in d.files && Recovery !in d.dirs
            && Candidate in d.files && Sha(d.files[Candidate]) == e.sha
            && w.inspect(d.files[Candidate]).Some?
            && w.inspect(d.files[Candidate]).value.schema == e.schema
            && w.inspect(d.files[Candidate]).value.projects == e.projects
  {
    if ActivateAccepts(w, d, e) {
      assert ActivateSteps(w, d, torn, probeOk)[0] == Mkdir(Recovery);
    }
  }

  // Exactly one of the live sidecar and the one set aside is there, as recorded; or neither ever was.
  predicate InOnePlace(d: Disk, recorded: map<Member, Digest>, m: Member) {
    var live, aside := Live(m) in d.files, ForwardDisplaced(m) in d.files;
    if m in recorded
    then live != aside && Sha(if live then d.files[Live(m)] else d.files[ForwardDisplaced(m)]) == recorded[m]
    else !live && !aside
  }

  /** A rollback abandons a half-archived operation, and otherwise goes ahead exactly when the assessed
  snapshot is there with its recorded digest and either no forward archive was begun, or a recorded one is
  complete and nothing was lost since. */
  lemma RollbackGate(w: World, d: Disk, torn: Bytes, probeOk: bool)
    ensures Plan(w, d, Rollback(torn, probeOk)) != [] <==>
            && Live(Main) in d.files && d.state.Some?
            && var r := d.state.value;
            (r.phase == Archiving ||
             (&& r.phase in {Prepared, Activated, RollingBack}
              && OldConsistent in d.files && r.oldState == Some(Assessed(Sha(d.files[OldConsistent]), true))
              && if r.phase != RollingBack then ForwardDir !in d.dirs else
                 && ForwardDir in d.dirs && r.forwardFiles != map[]
                 && (forall m | m in r.forwardFiles ::
                       Forward(m) in d.files && Sha(d.files[Forward(m)]) == r.forwardFiles[m])
                 && (Sha(d.files[Live(Main)]) == Sha(d.files[OldConsistent])
                     || (Main in r.forwardFiles && Sha(d.files[Live(Main)]) == r.forwardFiles[Main]))
                 && InOnePlace(d, r.forwardFiles, Wal) && InOnePlace(d, r.forwardFiles, Shm)))
  {
    if Live(Main) in d.files && d.state.Some? {
      var r := d.state.value;
      AbandonHasSteps(d, r);
      if OldConsistent in d.files {
        ReinstallHasSteps(d.files, r, d.files[OldConsistent], torn, probeOk);
        ForwardHasSteps(r, LiveFamily(d.files), torn);
      }
    }
  }

  lemma AbandonHasSteps(d: Disk, r: Record)
    ensures AbandonSteps(d, r) != []
  {
  }

  lemma ReinstallHasSteps(files: map<Path, Bytes>, r: Record, snapshot: Bytes, torn: Bytes, probeOk: bool)
    ensures ReinstallSteps(files, r, snapshot, torn, probeOk) != []
  {
    assert ReinstallSteps(files, r, snapshot, torn, probeOk)[0] == Unlink(RollbackCopy);
  }

  lemma ForwardHasSteps(r: Record, family: Family, torn: Bytes)
    ensures ForwardSteps(r, family, torn) != []
  {
    assert ForwardSteps(r, family, torn)[0] == Mkdir(ForwardDir);
  }

  /** A probe runs for an installed file, unless a `-shm` lies there without its `-wal`. */
  lemma ProbeGate(w: World, d: Disk, probeOk: bool)
    ensures Plan(w, d, ProbeInstalled(probeOk)) != [] <==>
            && Live(Main) in d.files && d.state.Some? && d.state.value.phase in {Activated, RolledBack}
            && (Live(Shm) in d.files ==> Live(Wal) in d.files)
  {
  }

  /** Retirement goes ahead after an outcome, once, for the very candidate that was recorded; a candidate
  that is gone is accepted only when its removal had been announced. */
  lemma RetirementGate(w: World, d: Disk)
    ensures Plan(w, d, RetireStage) != [] <==>
            && d.state.Some?
            && var r := d.state.value;
            && r.phase in {Activated, RolledBack, Abandoned} && r.retirement in {NotRetired, InProgress}
            && (if Candidate in d.files
                then Sha(d.files[Candidate]) == r.candidate.sha && w.inspect(d.files[Candidate]) == Some(r.candidate.facts)
                else r.retirement == InProgress)
  {
  }

  // ---------- outcomes ----------

  // A leftover copy is removed when it is byte-identical to the candidate, and left alone otherwise.
  function Leftover(d: Disk, sha: Digest): set<Path> {
    if Incoming in d.files && Sha(d.files[Incoming]) == sha then {Incoming} else {}
  }

  lemma RemoveIncomingRuns(d: Disk, sha: Digest)
    ensures Run(d, RemoveIncoming(d.files, sha)) == d.(files := d.files - Leftover(d, sha))
  {
    if Leftover(d, sha) == {} {
      assert d.files - {} == d.files;
    } else {
      assert [Unlink(Incoming)][1..] == [];
    }
  }

  lemma AbandonOutcome(w: World, d: Disk, torn: Bytes, probeOk: bool)
    requires Live(Main) in d.files && d.state.Some? && d.state.value.phase == Archiving
    ensures var e, r := Run(d, Plan(w, d, Rollback(torn, probeOk))), d.state.value;
            && e.state == Some(r.(phase := Abandoned)) && e.dirs == d.dirs
            && e.files == d.files - Leftover(d, r.candidate.sha)
  {
    var r := d.state.value;
    RemoveIncomingRuns(d, r.candidate.sha);
    RunSnoc(d, RemoveIncoming(d.files, r.candidate.sha), Save(r.(phase := Abandoned)));
  }

  lemma OneStep(d: Disk, a: Op)
    ensures Run(d, [a]) == Apply(d, a)
  {
    RunSnoc(d, [], a);
    assert [] + [a] == [a];
  }

  lemma TwoSteps(d: Disk, a: Op, b: Op)
    ensures Run(d, [a, b]) == Apply(Apply(d, a), b)
  {
    OneStep(d, a);
    assert [a] + [b] == [a, b];
    RunSnoc(d, [a], b);
  }

  // The main file is what the record says was installed, and no writer left anything in the `-wal`.
  predicate IsAsInstalled(d: Disk, r: Record)
    requires Live(Main) in d.files
  {
    && (Live(Wal) in d.files ==> d.files[Live(Wal)] == [])
    && (if r.phase == Activated then Sha(d.files[Live(Main)]) == r.candidate.sha
        else r.oldState.Some? && r.oldState.value.Assessed? && Sha(d.files[Live(Main)]) == r.oldState.value.sha)
  }

  lemma ProbePlan(d: Disk, probeOk: bool)
    requires ProbeSteps(d, probeOk) != []
    ensures ProbeSteps(d, probeOk)
         == (var r := d.state.value;
             if IsAsInstalled(d, r)
             then [ProbeWrite(probeOk), Save(r.(writeProbe := Some(if probeOk then Ok else Failed)))]
             else [Save(r.(writeProbe := Some(Stale)))])
  {
  }

  /** What a probe records: `stale` when the main file is not what this operation installed, or a writer left
  something in the `-wal`; otherwise whether the write succeeded. Nothing else in the record changes. */
  lemma ProbeOutcome(w: World, d: Disk, probeOk: bool)
    requires Plan(w, d, ProbeInstalled(probeOk)) != []
    ensures Live(Main) in d.files && d.state.Some?
    ensures var e, r := Run(d, Plan(w, d, ProbeInstalled(probeOk))), d.state.value;
            var same := IsAsInstalled(d, r);
            && e.state == Some(r.(writeProbe := Some(if !same then Stale else if probeOk then Ok else Failed)))
            && e.files == (if same && probeOk then d.files - {Live(Wal), Live(Shm)} else d.files)
            && e.dirs == d.dirs
  {
    var r := d.state.value;
    ProbePlan(d, probeOk);
    if IsAsInstalled(d, r) {
      TwoSteps(d, ProbeWrite(probeOk), Save(r.(writeProbe := Some(if probeOk then Ok else Failed))));
    } else {
      OneStep(d, Save(r.(writeProbe := Some(Stale))));
    }
  }

  lemma RetirementOutcome(w: World, d: Disk)
    requires Plan(w, d, RetireStage) != []
    ensures d.state.Some?
    ensures var e, r := Run(d, Plan(w, d, RetireStage)), d.state.value;
            && e.state == Some(r.(retirement := Done)) && e.dirs == d.dirs
            && e.files == d.files - {Candidate} - Leftover(d, r.candidate.sha)
  {
    var r := d.state.value;
    var a, b, c := Save(r.(retirement := InProgress)), Unlink(Candidate), Save(r.(retirement := Done));
    var head := [a, b, c];
    var e := Apply(Apply(Apply(d, a), b), c);
    assert head == [a, b] + [c];
    TwoSteps(d, a, b);
    RunSnoc(d, [a, b], c);
    RunConcat(d, head, RemoveIncoming(d.files, r.candidate.sha));
    assert RemoveIncoming(d.files, r.candidate.sha) == RemoveIncoming(e.files, r.candidate.sha);
    assert Leftover(e, r.candidate.sha) == Leftover(d, r.candidate.sha);
    RemoveIncomingRuns(e, r.candidate.sha);
  }

  // What the record says of the old state.
  function OldStateFor(w: World, family: Family): Option<OldState> {
    match w.consolidate(family)
    case Consolidated(b) => Some(Assessed(Sha(b), w.rollbackAvailable(b)))
    case NotADatabase => Some(Unreadable)
    case Raised => None
  }

  lemma LastStep(d: Disk, ops: seq<Op>)
    requires ops != [] && ops[|ops| - 1].Save?
    ensures Run(d, ops).state == Some(ops[|ops| - 1].record)
  {
    var n := |ops| - 1;
    assert ops == ops[..n] + [ops[n]];
    RunSnoc(d, ops[..n], ops[n]);
  }

  lemma LastOfActivation(w: World, d: Disk, torn: Bytes, probeOk: bool)
    requires Candidate in d.files && w.inspect(d.files[Candidate]).Some?
    ensures var ops := ActivateSteps(w, d, torn, probeOk);
            var family := LiveFamily(d.files);
            var candidate := Info(Sha(d.files[Candidate]), w.inspect(d.files[Candidate]).value);
            !w.consolidate(family).Raised? ==>
              && ops != []
              && ops[|ops| - 1] == Save(Record(Activated, Digests(family), candidate, OldStateFor(w, family), map[],
                                               Some(if probeOk then Ok else Failed), NotRetired))
  {
  }

  /** A finished activation: the record, field by field, and the files it leaves. */
  lemma ActivationOutcome(w: World, d: Disk, e: Expected, torn: Bytes, probeOk: bool)
    requires Inv(w, d) && Plan(w, d, Activate(e, torn, probeOk)) != [] && !w.consolidate(LiveFamily(d.files)).Raised?
    ensures Candidate in d.files && w.inspect(d.files[Candidate]).Some?
    ensures var done, family := Run(d, Plan(w, d, Activate(e, torn, probeOk))), LiveFamily(d.files);
            && done.state == Some(Record(Activated, Digests(family), Info(e.sha, w.inspect(d.files[Candidate]).value),
                                         OldStateFor(w, family), map[], Some(if probeOk then Ok else Failed), NotRetired))
            && LiveFamily(done.files) == map[Main := d.files[Candidate]]
            && (forall m | m in family :: RawOld(m) in done.files && done.files[RawOld(m)] == family[m])
            && (forall m | m in family && m != Main :: Displaced(m) in done.files && done.files[Displaced(m)] == family[m])
            && (w.consolidate(family).Consolidated? ==>
                  OldConsistent in done.files && done.files[OldConsistent] == w.consolidate(family).bytes)
  {
    var plan, family := ActivateSteps(w, d, torn, probeOk), LiveFamily(d.files);
    ActivateSafe(w, d, InspectInfo(w, d.files[Candidate]).value, torn, probeOk);
    AllInvEnds(w, d, plan);
    LastOfActivation(w, d, torn, probeOk);
    LastStep(d, plan);
    var done := Run(d, plan);
    assert Main in family && Main in done.state.value.rawFiles;
    DigestsInjective(done.history.archived.value, family);
    forall m | m in family && m != Main
      ensures Displaced(m) in done.files && done.files[Displaced(m)] == family[m]
    {
      assert SidecarAside(done, family, Wal, Displaced(Wal)) && SidecarAside(done, family, Shm, Displaced(Shm));
    }
  }

  lemma ConsolidationRuns(d: Disk, c: Consolidation, torn: Bytes)
    ensures Run(d, Consolidate(c, torn)).files
         == match c
            case Consolidated(b) => d.files[OldConsistent := b]
            case NotADatabase => d.files - {OldConsistent}
            case Raised => d.files[OldConsistent := torn]
  {
    match c
    case Consolidated(b) =>
      TwoSteps(d, Put(OldConsistent, torn), Put(OldConsistent, b));
    case NotADatabase =>
      TwoSteps(d, Put(OldConsistent, torn), Unlink(OldConsistent));
    case Raised =>
      OneStep(d, Put(OldConsistent, torn));
  }

  /** What assessing the old family leaves: the standalone snapshot when SQLite produced one, nothing when it
  found no database, and whatever it had written when it raised; and no scratch directory. */
  lemma AssessmentLeaves(w: World, d: Disk, family: Family, torn: Bytes)
    ensures var e := Run(d, AssessSteps(w, family, torn));
            && ScratchDir !in e.dirs
            && match w.consolidate(family)
               case Consolidated(b) => OldConsistent in e.files && e.files[OldConsistent] == b
               case NotADatabase => OldConsistent !in e.files
               case Raised => OldConsistent in e.files && e.files[OldConsistent] == torn
  {
    var head := [Mkdir(ScratchDir)] + CopyFamily(InScratch, family, torn);
    var body, tail := Consolidate(w.consolidate(family), torn), RemoveScratch(family);
    RunConcat(d, head + body, tail);
    RunConcat(d, head, body);
    ConsolidationRuns(Run(d, head), w.consolidate(family), torn);
    AvoidRun(Run(d, head + body), tail, OldConsistent);
    var removals := tail[..|tail| - 1];
    assert tail == removals + [Rmdir(ScratchDir)];
    RunSnoc(Run(d, head + body), removals, Rmdir(ScratchDir));
  }

  /** When SQLite raised anything but "not a database", the activation stops: the old family stays live, every
  member of it is archived, and the record says no more than that. */
  lemma HaltedActivationOutcome(w: World, d: Disk, e: Expected, torn: Bytes, probeOk: bool)
    requires Inv(w, d) && Plan(w, d, Activate(e, torn, probeOk)) != [] && w.consolidate(LiveFamily(d.files)).Raised?
    ensures Candidate in d.files && w.inspect(d.files[Candidate]).Some?
    ensures var done, family := Run(d, Plan(w, d, Activate(e, torn, probeOk))), LiveFamily(d.files);
            && done.state == Some(Record(Archiving, Digests(family), Info(e.sha, w.inspect(d.files[Candidate]).value), None,
                                         map[], None, NotRetired))
            && (forall m: Member :: SameAt(d, done, Live(m)))
            && ScratchDir !in done.dirs && OldConsistent in done.files && done.files[OldConsistent] == torn
            && (forall m | m in family :: RawOld(m) in done.files && done.files[RawOld(m)] == family[m])
  {
    var family, info := LiveFamily(d.files), InspectInfo(w, d.files[Candidate]).value;
    var a, b := ArchiveSteps(info, family, torn), AssessSteps(w, family, torn);
    ArchiveSafe(w, d, info, torn);
    AllInvEnds(w, d, a);
    AssessSafe(w, d, Run(d, a), info, torn);
    RunConcat(d, a, b);
    AllInvEnds(w, Run(d, a), b);
    AssessmentLeaves(w, Run(d, a), family, torn);
    var done := Run(d, a + b);
    assert Main in family && Main in done.state.value.rawFiles;
    DigestsInjective(done.history.archived.value, family);
  }

  // ---------- the corollary for cut runs ----------

  predicate Names(op: Op, sha: Digest) {
    op.Save? ==> op.record.candidate.sha == sha
  }

  predicate AllName(ops: seq<Op>, sha: Digest) {
    forall op | op in ops :: Names(op, sha)
  }

  lemma PreservingNames(w: World, info: Info, family: Family, torn: Bytes)
    ensures AllName(ArchiveSteps(info, family, torn), info.sha) && AllName(AssessSteps(w, family, torn), info.sha)
  {
    assert AllName(CopyFamily(InRaw, family, torn), info.sha) && AllName(CopyFamily(InScratch, family, torn), info.sha);
    assert AllName(Consolidate(w.consolidate(family), torn), info.sha) && AllName(RemoveScratch(family), info.sha);
  }

  lemma InstallingNames(w: World, info: Info, family: Family, files: map<Path, Bytes>, candidate: Bytes, torn: Bytes,
                        probeOk: bool)
    ensures AllName(PrepareSteps(w, info, family, candidate, torn), info.sha)
    ensures AllName(InstallSteps(w, info, family, files, probeOk), info.sha)
  {
    assert AllName(Displace(files, false), info.sha);
  }

  lemma ActivationNames(w: World, d: Disk, torn: Bytes, probeOk: bool)
    requires Candidate in d.files && InspectInfo(w, d.files[Candidate]).Some?
    ensures AllName(ActivateSteps(w, d, torn, probeOk), Sha(d.files[Candidate]))
  {
    var info, family := InspectInfo(w, d.files[Candidate]).value, LiveFamily(d.files);
    PreservingNames(w, info, family, torn);
    InstallingNames(w, info, family, d.files, d.files[Candidate], torn, probeOk);
  }

  /** However far an activation got, if the record it left reads `activated` then the main file is the one
  whose digest the operator named. */
  lemma ActivatedIsWhatWasNamed(w: World, d: Disk, e: Expected, torn: Bytes, probeOk: bool, steps: nat)
    requires Inv(w, d) && d.state.None?
    requires var cut := Run(d, Cut(Plan(w, d, Activate(e, torn, probeOk)), steps));
             cut.state.Some? && cut.state.value.phase == Activated
    ensures var cut := Run(d, Cut(Plan(w, d, Activate(e, torn, probeOk)), steps));
            Live(Main) in cut.files && Sha(cut.files[Live(Main)]) == e.sha && cut.state.value.candidate.sha == e.sha
  {
    var plan := Plan(w, d, Activate(e, torn, probeOk));
    var ops := Cut(plan, steps);
    var cut := Run(d, ops);
    NextSafe(w, d, Helper(Activate(e, torn, probeOk), steps));
    ActivationGate(w, d, e, torn, probeOk);
    StateIsSaved(d, ops);
    ActivationNames(w, d, torn, probeOk);
    var op :| op in ops && op.Save? && cut.state == Some(op.record);
    assert op in plan && Names(op, e.sha);
    PlanSwapsOnly(w, d, Activate(e, torn, probeOk));
    SwapTracks(d, ops);
    assert cut.history.installed == Some(cut.files[Live(Main)]);
  }

  /** A finished rollback: the record says what was rolled away, that family is in the forward archive, its
  sidecars are set aside, and the old snapshot is all that is live. */
  lemma RollbackOutcome(w: World, d: Disk, torn: Bytes, probeOk: bool)
    requires Inv(w, d) && Plan(w, d, Rollback(torn, probeOk)) != []
    requires d.state.Some? && d.state.value.phase in {Prepared, Activated}
    ensures OldConsistent in d.files
    ensures var done, family, r := Run(d, Plan(w, d, Rollback(torn, probeOk))), LiveFamily(d.files), d.state.value;
            && done.state == Some(r.(forwardFiles := Digests(family), phase := RolledBack,
                                     writeProbe := Some(if probeOk then Ok else Failed)))
            && LiveFamily(done.files) == map[Main := d.files[OldConsistent]]
            && (forall m | m in family :: Forward(m) in done.files && done.files[Forward(m)] == family[m])
            && (forall m | m in family && m != Main ::
                  ForwardDisplaced(m) in done.files && done.files[ForwardDisplaced(m)] == family[m])
            && !(Incoming in done.files && Sha(done.files[Incoming]) == r.candidate.sha)
  {
    RollbackGate(w, d, torn, probeOk);
    RollbackFromInstalled(w, d, torn, probeOk);
    AllInvEnds(w, d, RollbackSteps(d, torn, probeOk));
    RolledBackFiles(w, Run(d, RollbackSteps(d, torn, probeOk)), LiveFamily(d.files));
  }

  lemma RolledBackFiles(w: World, done: Disk, family: Family)
    requires Inv(w, done) && done.state.Some? && done.state.value.phase == RolledBack
    requires done.state.value.forwardFiles == Digests(family)
    ensures forall m | m in family :: Forward(m) in done.files && done.files[Forward(m)] == family[m]
    ensures forall m | m in family && m != Main ::
              ForwardDisplaced(m) in done.files && done.files[ForwardDisplaced(m)] == family[m]
  {
    DigestsInjective(done.history.forwarded.value, family);
    forall m | m in family && m != Main
      ensures ForwardDisplaced(m) in done.files && done.files[ForwardDisplaced(m)] == family[m]
    {
      assert SidecarAside(done, family, Wal, ForwardDisplaced(Wal)) && SidecarAside(done, family, Shm, ForwardDisplaced(Shm));
    }
  }
}
