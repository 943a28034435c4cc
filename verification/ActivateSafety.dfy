/** Every crash point of `activate` keeps the recorded phase truthful.

The plan of an activation is cut into the parts the helper records between: the raw archive, the
assessment of the old state, the staged candidate, the swap and the probe. Of each part it is shown that
the invariant holds after every one of its steps, and what holds at its end. Steps that touch neither the
live family nor a recorded file are handled wholesale, as quiet runs.

The lemmas about a single step come first, then the parts, then the whole command.
*/
module ActivateSafety {
  import opened Common
  import opened Volume
  import opened RestorePlan
  import opened RestoreInvariant

  lemma AllInvOne(w: World, d: Disk, op: Op)
    requires Inv(w, d) && Inv(w, Apply(d, op))
    ensures AllInv(w, d, [op]) && Run(d, [op]) == Apply(d, op)
  {
    assert [op][1..] == [];
    assert AllInv(w, Apply(d, op), []);
    RunSnoc(d, [], op);
    assert [] + [op] == [op];
  }

  lemma AllInvThen(w: World, d: Disk, ops: seq<Op>, op: Op)
    requires AllInv(w, d, ops) && Inv(w, Run(d, ops)) && Inv(w, Apply(Run(d, ops), op))
    ensures AllInv(w, d, ops + [op]) && Run(d, ops + [op]) == Apply(Run(d, ops), op)
  {
    AllInvOne(w, Run(d, ops), op);
    AllInvConcat(w, d, ops, [op]);
    RunSnoc(d, ops, op);
  }

  lemma AllInvEnds(w: World, d: Disk, ops: seq<Op>)
    requires AllInv(w, d, ops)
    ensures Inv(w, Run(d, ops))
  {
    AllInvPrefix(w, d, ops, |ops|);
    assert ops[..|ops|] == ops;
  }

  // ---------- what copies leave ----------

  predicate Avoids(op: Op, p: Path) {
    match op
    case Put(q, _) => q != p
    case Unlink(q) => q != p
    case Rename(q, t) => q != p && t != p
    case ProbeWrite(_) => p != Live(Wal) && p != Live(Shm)
    case _ => true
  }

  lemma {:induction false} AvoidRun(d: Disk, ops: seq<Op>, p: Path)
    requires forall op | op in ops :: Avoids(op, p)
    ensures SameAt(d, Run(d, ops), p)
    decreases |ops|
  {
    if ops != [] {
      assert Avoids(ops[0], p);
      AvoidRun(Apply(d, ops[0]), ops[1..], p);
    }
  }

  lemma CopyRun(d: Disk, p: Path, b: Bytes, torn: Bytes)
    ensures Run(d, Copy(p, b, torn)) == d.(files := d.files[p := b])
  {
    var ops := Copy(p, b, torn);
    assert ops == ([] + [Put(p, torn)]) + [Put(p, b)];
    RunSnoc(d, [Put(p, torn)], Put(p, b));
    RunSnoc(d, [], Put(p, torn));
    assert d.files[p := torn][p := b] == d.files[p := b];
  }

  lemma CopyFamilyHolds(d: Disk, place: Place, family: Family, torn: Bytes, m: Member)
    requires m in family
    ensures At(place, m) in Run(d, CopyFamily(place, family, torn)).files
    ensures Run(d, CopyFamily(place, family, torn)).files[At(place, m)] == family[m]
  {
    var a, b, c := CopyMember(place, Main, family, torn), CopyMember(place, Wal, family, torn), CopyMember(place, Shm, family, torn);
    RunConcat(d, a + b, c);
    RunConcat(d, a, b);
    var e1 := Run(d, a);
    var e2 := Run(e1, b);
    match m
    case Main =>
      CopyRun(d, At(place, m), family[m], torn);
      AvoidRun(e1, b, At(place, m));
      AvoidRun(e2, c, At(place, m));
    case Wal =>
      CopyRun(e1, At(place, m), family[m], torn);
      AvoidRun(e2, c, At(place, m));
    case Shm =>
      CopyRun(e2, At(place, m), family[m], torn);
  }

  lemma CopyFamilyQuiet(d: Disk, place: Place, family: Family, torn: Bytes)
    requires forall m | m in family :: Private(d, At(place, m))
    ensures forall op | op in CopyFamily(place, family, torn) :: Quiet(d, op)
  {
  }

  // ---------- archive ----------

  // The volume a started activation has reached: record `r`, the live family and the candidate as they were.
  ghost predicate Reached(d: Disk, e: Disk, r: Record) {
    && e.state == Some(r)
    && e.history == d.history.(archived := Some(LiveFamily(d.files)))
    && (forall m: Member :: SameAt(d, e, Live(m)))
    && SameAt(d, e, Candidate)
  }

  ghost predicate Started(w: World, d: Disk, info: Info) {
    && Inv(w, d)
    && Recovery !in d.dirs
    && d.state.None?
    && Candidate in d.files
    && InspectInfo(w, d.files[Candidate]) == Some(info)
  }

  function OpenArchive(info: Info): seq<Op> {
    [Mkdir(Recovery), Save(ArchivingRecord(info)), Mkdir(RawDir)]
  }

  lemma OpenArchiveInv(w: World, d: Disk, info: Info)
    requires Started(w, d, info)
    ensures var e1 := Apply(d, Mkdir(Recovery));
            var e2 := Apply(e1, Save(ArchivingRecord(info)));
            Inv(w, e1) && Inv(w, e2) && Inv(w, Apply(e2, Mkdir(RawDir)))
  {
    var e1 := Apply(d, Mkdir(Recovery));
    var e2 := Apply(e1, Save(ArchivingRecord(info)));
    assert RecordFacts(w, e2, ArchivingRecord(info));
    SameCoreKeepsInv(w, e2, Apply(e2, Mkdir(RawDir)));
  }

  lemma OpenArchiveSafe(w: World, d: Disk, info: Info)
    requires Started(w, d, info)
    ensures AllInv(w, d, OpenArchive(info))
    ensures Run(d, OpenArchive(info))
         == d.(state := Some(ArchivingRecord(info)), dirs := d.dirs + {Recovery} + {RawDir})
  {
    var r0 := ArchivingRecord(info);
    OpenArchiveInv(w, d, info);
    AllInvOne(w, d, Mkdir(Recovery));
    AllInvThen(w, d, [Mkdir(Recovery)], Save(r0));
    AllInvThen(w, d, [Mkdir(Recovery)] + [Save(r0)], Mkdir(RawDir));
    assert [Mkdir(Recovery)] + [Save(r0)] + [Mkdir(RawDir)] == OpenArchive(info);
  }

  lemma ArchiveSafe(w: World, d: Disk, info: Info, torn: Bytes)
    requires Started(w, d, info)
    ensures var ops := ArchiveSteps(info, LiveFamily(d.files), torn);
            && AllInv(w, d, ops)
            && Reached(d, Run(d, ops), ArchivingRecord(info).(rawFiles := Digests(LiveFamily(d.files))))
  {
    var family := LiveFamily(d.files);
    var r1 := ArchivingRecord(info).(rawFiles := Digests(family));
    var head, copies := OpenArchive(info), CopyFamily(InRaw, family, torn);
    OpenArchiveSafe(w, d, info);
    AllInvEnds(w, d, head);
    var e3 := Run(d, head);
    CopyFamilyQuiet(e3, InRaw, family, torn);
    QuietRun(w, e3, copies);
    AllInvEnds(w, e3, copies);
    AllInvConcat(w, d, head, copies);
    RunConcat(d, head, copies);
    ArchiveRecorded(w, d, e3, Run(e3, copies), info, torn);
    AllInvThen(w, d, head + copies, Save(r1));
    assert ArchiveSteps(info, family, torn) == head + copies + [Save(r1)];
  }

  lemma ArchiveRecorded(w: World, d: Disk, e3: Disk, e4: Disk, info: Info, torn: Bytes)
    requires Started(w, d, info)
    requires Inv(w, e4) && SameCore(e3, e4)
    requires e3.files == d.files && e3.state == Some(ArchivingRecord(info)) && e3.history == d.history
    requires e4 == Run(e3, CopyFamily(InRaw, LiveFamily(d.files), torn))
    ensures var r1 := ArchivingRecord(info).(rawFiles := Digests(LiveFamily(d.files)));
            Inv(w, Apply(e4, Save(r1))) && Reached(d, Apply(e4, Save(r1)), r1)
  {
    var family := LiveFamily(d.files);
    SameLive(e3, e4);
    forall m: Member ensures SameAt(d, e4, Live(m)) {
      assert SameAt(e3, e4, Live(m));
    }
    forall m | m in family
      ensures RawOld(m) in e4.files && e4.files[RawOld(m)] == family[m]
    {
      CopyFamilyHolds(e3, InRaw, family, torn, m);
    }
    assert SameAt(d, e4, Candidate);
    ArchiveRecordedInv(w, d, e4, info);
  }

  lemma ArchiveRecordedInv(w: World, d: Disk, e: Disk, info: Info)
    requires Started(w, d, info)
    requires Inv(w, e) && e.state == Some(ArchivingRecord(info)) && e.history == d.history
    requires LiveFamily(e.files) == LiveFamily(d.files)
    requires (forall m: Member :: SameAt(d, e, Live(m))) && SameAt(d, e, Candidate)
    requires forall m | m in LiveFamily(d.files) :: RawOld(m) in e.files && e.files[RawOld(m)] == LiveFamily(d.files)[m]
    ensures var r1 := ArchivingRecord(info).(rawFiles := Digests(LiveFamily(d.files)));
            Inv(w, Apply(e, Save(r1))) && Reached(d, Apply(e, Save(r1)), r1)
  {
    var r1 := ArchivingRecord(info).(rawFiles := Digests(LiveFamily(d.files)));
    var f := Apply(e, Save(r1));
    assert Main in LiveFamily(d.files) && Main in r1.rawFiles;
    assert f.files == e.files;
    assert ArchiveKept(f, r1);
    assert RecordFacts(w, f, r1);
  }

  // ---------- assess ----------

  lemma AssessQuiet(w: World, e: Disk, r: Record, family: Family, torn: Bytes)
    requires e.state == Some(r) && r.phase == Archiving && r.oldState.None?
    ensures forall op | op in AssessSteps(w, family, torn) :: Quiet(e, op)
  {
    assert forall p: Path | p.Scratch? || p == OldConsistent :: Private(e, p);
    CopyFamilyQuiet(e, InScratch, family, torn);
    assert forall op | op in Consolidate(w.consolidate(family), torn) :: Quiet(e, op);
    assert forall op | op in RemoveScratch(family) :: Quiet(e, op);
  }

  lemma AssessHolds(w: World, e: Disk, family: Family, torn: Bytes)
    requires w.consolidate(family).Consolidated?
    ensures var f := Run(e, AssessSteps(w, family, torn));
            OldConsistent in f.files && f.files[OldConsistent] == w.consolidate(family).bytes
  {
    var c := w.consolidate(family);
    var head := [Mkdir(ScratchDir)] + CopyFamily(InScratch, family, torn);
    RunConcat(e, head + Consolidate(c, torn), RemoveScratch(family));
    RunConcat(e, head, Consolidate(c, torn));
    CopyRun(Run(e, head), OldConsistent, c.bytes, torn);
    AvoidRun(Run(e, head + Consolidate(c, torn)), RemoveScratch(family), OldConsistent);
  }

  lemma ReachedSame(d: Disk, e: Disk, f: Disk, r: Record)
    requires Reached(d, e, r) && SameCore(e, f)
    ensures Reached(d, f, r)
  {
    SameLive(e, f);
    forall m: Member ensures SameAt(d, f, Live(m)) {
      assert SameAt(d, e, Live(m)) && SameAt(e, f, Live(m));
    }
  }

  lemma AssessSafe(w: World, d: Disk, e: Disk, info: Info, torn: Bytes)
    requires Inv(w, e) && Reached(d, e, ArchivingRecord(info).(rawFiles := Digests(LiveFamily(d.files))))
    ensures var family := LiveFamily(d.files);
            var ops := AssessSteps(w, family, torn);
            && AllInv(w, e, ops)
            && Reached(d, Run(e, ops), ArchivingRecord(info).(rawFiles := Digests(family)))
            && (w.consolidate(family).Consolidated? ==>
                  OldConsistent in Run(e, ops).files && Run(e, ops).files[OldConsistent] == w.consolidate(family).bytes)
  {
    var family := LiveFamily(d.files);
    var r := ArchivingRecord(info).(rawFiles := Digests(family));
    var ops := AssessSteps(w, family, torn);
    AssessQuiet(w, e, r, family, torn);
    QuietRun(w, e, ops);
    ReachedSame(d, e, Run(e, ops), r);
    if w.consolidate(family).Consolidated? {
      AssessHolds(w, e, family, torn);
    }
  }

  // ---------- prepare ----------

  lemma AssessedInv(w: World, d: Disk, e: Disk, info: Info)
    requires Started(w, d, info)
    requires Inv(w, e) && Reached(d, e, ArchivingRecord(info).(rawFiles := Digests(LiveFamily(d.files))))
    requires var c := w.consolidate(LiveFamily(d.files));
             !c.Raised? && (c.Consolidated? ==> OldConsistent in e.files && e.files[OldConsistent] == c.bytes)
    ensures var r2 := AssessedRecord(w, info, LiveFamily(d.files));
            Inv(w, Apply(e, Save(r2))) && Reached(d, Apply(e, Save(r2)), r2)
  {
    var family := LiveFamily(d.files);
    var r2 := AssessedRecord(w, info, family);
    var e1 := Apply(e, Save(r2));
    assert SameAt(d, e, Live(Main));
    assert Main in family && Main in r2.rawFiles;
    assert forall m: Member :: SameAt(d, e1, Live(m)) by {
      assert forall m: Member :: SameAt(d, e, Live(m));
    }
    assert ArchiveKept(e1, r2);
    assert AssessmentKept(w, e1, r2);
    assert RecordFacts(w, e1, r2);
  }

  lemma PreparedInv(w: World, d: Disk, e: Disk, info: Info)
    requires Started(w, d, info)
    requires Inv(w, e) && Reached(d, e, AssessedRecord(w, info, LiveFamily(d.files)))
    requires !w.consolidate(LiveFamily(d.files)).Raised?
    ensures var r3 := PreparedRecord(w, info, LiveFamily(d.files));
            Inv(w, Apply(e, Save(r3))) && Reached(d, Apply(e, Save(r3)), r3)
  {
    var family := LiveFamily(d.files);
    var r3 := PreparedRecord(w, info, family);
    var e1 := Apply(e, Save(r3));
    assert SameAt(d, e, Live(Main)) && SameAt(d, e, Live(Wal)) && SameAt(d, e, Live(Shm));
    assert Main in family && Main in r3.rawFiles;
    assert forall m: Member :: SameAt(d, e1, Live(m)) by {
      assert forall m: Member :: SameAt(d, e, Live(m));
    }
    assert ArchiveKept(e1, r3);
    assert AssessmentKept(w, e1, r3);
    assert PreparedFacts(e1, r3);
    assert RecordFacts(w, e1, r3);
  }

  lemma IncomingSafe(w: World, d: Disk, e: Disk, r: Record, bytes: Bytes, torn: Bytes)
    requires Inv(w, e) && Reached(d, e, r)
    ensures var f := Run(e, Copy(Incoming, bytes, torn));
            && AllInv(w, e, Copy(Incoming, bytes, torn))
            && Inv(w, f) && Reached(d, f, r)
            && Incoming in f.files && f.files[Incoming] == bytes
  {
    var copy := Copy(Incoming, bytes, torn);
    QuietRun(w, e, copy);
    CopyRun(e, Incoming, bytes, torn);
    AllInvEnds(w, e, copy);
    ReachedSame(d, e, Run(e, copy), r);
  }

  lemma PrepareHead(w: World, d: Disk, e: Disk, r: Record, bytes: Bytes, torn: Bytes)
    requires Inv(w, e) && Inv(w, Apply(e, Save(r))) && Reached(d, Apply(e, Save(r)), r)
    ensures var ops := [Save(r)] + Copy(Incoming, bytes, torn);
            && AllInv(w, e, ops)
            && Inv(w, Run(e, ops)) && Reached(d, Run(e, ops), r)
            && Incoming in Run(e, ops).files && Run(e, ops).files[Incoming] == bytes
  {
    var copy := Copy(Incoming, bytes, torn);
    AllInvOne(w, e, Save(r));
    IncomingSafe(w, d, Apply(e, Save(r)), r, bytes, torn);
    AllInvConcat(w, e, [Save(r)], copy);
    RunConcat(e, [Save(r)], copy);
  }

  lemma PrepareSafe(w: World, d: Disk, e: Disk, info: Info, torn: Bytes)
    requires Started(w, d, info)
    requires Inv(w, e) && Reached(d, e, ArchivingRecord(info).(rawFiles := Digests(LiveFamily(d.files))))
    requires var c := w.consolidate(LiveFamily(d.files));
             !c.Raised? && (c.Consolidated? ==> OldConsistent in e.files && e.files[OldConsistent] == c.bytes)
    ensures var family := LiveFamily(d.files);
            var ops := PrepareSteps(w, info, family, d.files[Candidate], torn);
            && AllInv(w, e, ops)
            && Reached(d, Run(e, ops), PreparedRecord(w, info, family))
            && Incoming in Run(e, ops).files && Run(e, ops).files[Incoming] == d.files[Candidate]
  {
    var family := LiveFamily(d.files);
    var r2, r3 := AssessedRecord(w, info, family), PreparedRecord(w, info, family);
    var head := [Save(r2)] + Copy(Incoming, d.files[Candidate], torn);
    AssessedInv(w, d, e, info);
    PrepareHead(w, d, e, r2, d.files[Candidate], torn);
    var f := Run(e, head);
    PreparedInv(w, d, f, info);
    PrepareTail(w, e, head, r3);
  }

  lemma PrepareTail(w: World, e: Disk, head: seq<Op>, r: Record)
    requires AllInv(w, e, head) && Inv(w, Apply(Run(e, head), Save(r)))
    ensures AllInv(w, e, head + [Save(r)])
    ensures Run(e, head + [Save(r)]) == Apply(Run(e, head), Save(r))
    ensures Run(e, head + [Save(r)]).files == Run(e, head).files
  {
    AllInvEnds(w, e, head);
    AllInvThen(w, e, head, Save(r));
  }

  // ---------- install ----------

  // Prepared and not yet swapped; sidecars may already be set aside.
  ghost predicate Installing(w: World, d: Disk, r: Record, candidate: Bytes) {
    && Inv(w, d)
    && d.state == Some(r) && r.phase == Prepared
    && d.history.installed.None?
    && Incoming in d.files && d.files[Incoming] == candidate
    && Sha(candidate) == r.candidate.sha
  }

  lemma SetAsideFacts(w: World, d: Disk, r: Record, candidate: Bytes, m: Member)
    requires Installing(w, d, r, candidate) && m != Main && Live(m) in d.files
    ensures PreparedFacts(Apply(d, Rename(Live(m), Displaced(m))), r)
  {
    var e := Apply(d, Rename(Live(m), Displaced(m)));
    var family := d.history.archived.value;
    assert Main in family;
    assert forall n: Member | n != m :: SameAt(d, e, Live(n)) && SameAt(d, e, Displaced(n));
    assert SidecarSafe(e, family, Wal, Displaced(Wal)) && SidecarSafe(e, family, Shm, Displaced(Shm));
  }

  lemma SetAside(w: World, d: Disk, r: Record, candidate: Bytes, m: Member)
    requires Installing(w, d, r, candidate) && m != Main && Live(m) in d.files
    ensures var e := Apply(d, Rename(Live(m), Displaced(m)));
            && Installing(w, e, r, candidate)
            && Live(m) !in e.files
            && (forall n: Member | n != m :: SameAt(d, e, Live(n)))
            && e.history == d.history
  {
    var e := Apply(d, Rename(Live(m), Displaced(m)));
    SetAsideFacts(w, d, r, candidate, m);
    assert ArchiveKept(e, r) && AssessmentKept(w, e, r) && CandidateKept(w, e, r) && ForwardFresh(e, r.phase);
  }

  lemma DisplaceSafe(w: World, d: Disk, r: Record, candidate: Bytes)
    requires Installing(w, d, r, candidate)
    ensures var ops := Displace(d.files, false);
            && AllInv(w, d, ops)
            && Installing(w, Run(d, ops), r, candidate)
            && NoSidecars(Run(d, ops))
            && Run(d, ops).history == d.history
  {
    var a := if Live(Wal) in d.files then [Rename(Live(Wal), Displaced(Wal))] else [];
    var b := if Live(Shm) in d.files then [Rename(Live(Shm), Displaced(Shm))] else [];
    assert Displace(d.files, false) == a + b;
    var e := d;
    if Live(Wal) in d.files {
      SetAside(w, d, r, candidate, Wal);
      e := Apply(d, a[0]);
      AllInvOne(w, d, a[0]);
      assert SameAt(d, e, Live(Shm));
    }
    assert Run(d, a) == e && AllInv(w, d, a);
    if Live(Shm) in d.files {
      SetAside(w, e, r, candidate, Shm);
      assert SameAt(e, Apply(e, b[0]), Live(Wal));
      AllInvOne(w, e, b[0]);
    }
    AllInvConcat(w, d, a, b);
    RunConcat(d, a, b);
  }

  lemma OnlyMain(files: map<Path, Bytes>, b: Bytes)
    requires Live(Main) in files && files[Live(Main)] == b && Live(Wal) !in files && Live(Shm) !in files
    ensures LiveFamily(files) == map[Main := b]
  {
    forall m: Member ensures Live(m) in files <==> m == Main {
      match m
      case Main =>
      case Wal =>
      case Shm =>
    }
  }

  lemma SwapInv(w: World, d: Disk, r: Record, candidate: Bytes)
    requires Installing(w, d, r, candidate) && NoSidecars(d)
    ensures var e := Apply(d, Rename(Incoming, Live(Main)));
            var f := Apply(e, Save(r.(phase := Activated)));
            && Inv(w, e) && Inv(w, f)
            && f.files == e.files && NoSidecars(f)
            && LiveFamily(f.files) == map[Main := candidate]
  {
    var e := Apply(d, Rename(Incoming, Live(Main)));
    assert Live(Wal) !in e.files && Live(Shm) !in e.files;
    OnlyMain(e.files, candidate);
    assert ArchiveKept(e, r) && AssessmentKept(w, e, r);
    assert PreparedFacts(e, r);
    assert Inv(w, e);
    ActivatedInv(w, e, r);
  }

  lemma ActivatedInv(w: World, e: Disk, r: Record)
    requires Inv(w, e) && e.state == Some(r) && r.phase == Prepared && e.history.installed.Some?
    ensures Inv(w, Apply(e, Save(r.(phase := Activated))))
  {
    var a := r.(phase := Activated);
    var f := Apply(e, Save(a));
    assert ArchiveKept(f, a) && AssessmentKept(w, f, a);
    assert ActivatedFacts(f, a);
    assert RecordFacts(w, f, a);
  }

  ghost predicate Installed(w: World, d: Disk) {
    && Inv(w, d)
    && d.state.Some? && d.state.value.phase in {Activated, RolledBack}
    && d.history.installed == Some(d.files[Live(Main)])
  }

  lemma ProbeWriteInv(w: World, d: Disk)
    requires Installed(w, d)
    ensures Installed(w, Apply(d, ProbeWrite(true))) && Apply(d, ProbeWrite(true)).history.probed
  {
    var r := d.state.value;
    var e := Apply(d, ProbeWrite(true));
    assert forall p: Path | !p.Live? :: SameAt(d, e, p);
    assert ArchiveKept(e, r) && AssessmentKept(w, e, r);
    assert ForwardFresh(e, r.phase);
    assert r.phase == Activated ==> ActivatedFacts(e, r);
    assert r.phase == RolledBack ==> RolledBackFacts(e, r);
  }

  lemma ProbeResultInv(w: World, d: Disk, result: Probe)
    requires Inv(w, d) && d.state.Some? && d.state.value.phase in {Activated, RolledBack}
    requires result == Ok ==> d.history.probed
    ensures Inv(w, Apply(d, Save(d.state.value.(writeProbe := Some(result)))))
  {
    var r := d.state.value;
    var done := r.(writeProbe := Some(result));
    var f := Apply(d, Save(done));
    assert f.history == d.history && f.files == d.files;
    assert ArchiveKept(f, done) && AssessmentKept(w, f, done);
    assert r.phase == Activated ==> ActivatedFacts(f, done);
    assert r.phase == RolledBack ==> RolledBackFacts(f, done);
  }

  // A probe of an unchanged installed file, and the record of its outcome, in either installed phase.
  lemma ProbeInv(w: World, d: Disk, ok: bool)
    requires Installed(w, d)
    ensures var e := Apply(d, ProbeWrite(ok));
            var done := d.state.value.(writeProbe := Some(ProbeResult(ok)));
            Inv(w, e) && e.state == d.state && Inv(w, Apply(e, Save(done)))
  {
    if ok {
      ProbeWriteInv(w, d);
    }
    ProbeResultInv(w, Apply(d, ProbeWrite(ok)), ProbeResult(ok));
  }

  lemma ProbeSafe(w: World, d: Disk, ok: bool)
    requires Installed(w, d)
    ensures var done := d.state.value.(writeProbe := Some(ProbeResult(ok)));
            var ops := [ProbeWrite(ok), Save(done)];
            && AllInv(w, d, ops)
            && Run(d, ops).state == Some(done)
            && (NoSidecars(d) ==> Run(d, ops).files == d.files)
  {
    var done := d.state.value.(writeProbe := Some(ProbeResult(ok)));
    ProbeInv(w, d, ok);
    AllInvOne(w, d, ProbeWrite(ok));
    AllInvThen(w, d, [ProbeWrite(ok)], Save(done));
    assert [ProbeWrite(ok)] + [Save(done)] == [ProbeWrite(ok), Save(done)];
    if NoSidecars(d) {
      assert d.files - {Live(Wal), Live(Shm)} == d.files;
    }
  }

  lemma SwapSafe(w: World, d: Disk, r: Record, candidate: Bytes, probeOk: bool)
    requires Installing(w, d, r, candidate) && NoSidecars(d)
    ensures var activated := r.(phase := Activated);
            var done := activated.(writeProbe := Some(ProbeResult(probeOk)));
            var ops := [Rename(Incoming, Live(Main)), Save(activated), ProbeWrite(probeOk), Save(done)];
            && AllInv(w, d, ops)
            && Run(d, ops).state == Some(done)
            && LiveFamily(Run(d, ops).files) == map[Main := candidate]
  {
    var activated := r.(phase := Activated);
    var done := activated.(writeProbe := Some(ProbeResult(probeOk)));
    var swap := Rename(Incoming, Live(Main));
    SwapInv(w, d, r, candidate);
    AllInvOne(w, d, swap);
    AllInvThen(w, d, [swap], Save(activated));
    var head, tail := [swap] + [Save(activated)], [ProbeWrite(probeOk), Save(done)];
    ProbeSafe(w, Run(d, head), probeOk);
    AllInvConcat(w, d, head, tail);
    RunConcat(d, head, tail);
    assert head + tail == [swap, Save(activated), ProbeWrite(probeOk), Save(done)];
  }

  lemma InstallSafe(w: World, d: Disk, e: Disk, info: Info, probeOk: bool)
    requires Started(w, d, info)
    requires Inv(w, e) && Reached(d, e, PreparedRecord(w, info, LiveFamily(d.files)))
    requires Incoming in e.files && e.files[Incoming] == d.files[Candidate]
    ensures var family := LiveFamily(d.files);
            var ops := InstallSteps(w, info, family, d.files, probeOk);
            && AllInv(w, e, ops)
            && Run(e, ops).state.Some?
            && Run(e, ops).state.value.phase == Activated
            && Run(e, ops).state.value.writeProbe == Some(ProbeResult(probeOk))
            && LiveFamily(Run(e, ops).files) == map[Main := d.files[Candidate]]
            && Run(e, ops).state.value.rawFiles == Digests(family)
  {
    var family := LiveFamily(d.files);
    var r := PreparedRecord(w, info, family);
    var candidate := d.files[Candidate];
    assert SameAt(d, e, Live(Wal)) && SameAt(d, e, Live(Shm)) && SameAt(d, e, Live(Main));
    assert Displace(e.files, false) == Displace(d.files, false);
    DisplaceSafe(w, e, r, candidate);
    var f := Run(e, Displace(e.files, false));
    SwapSafe(w, f, r, candidate, probeOk);
    var activated := r.(phase := Activated);
    var tail := [Rename(Incoming, Live(Main)), Save(activated), ProbeWrite(probeOk),
                 Save(activated.(writeProbe := Some(ProbeResult(probeOk))))];
    AllInvConcat(w, e, Displace(e.files, false), tail);
    RunConcat(e, Displace(e.files, false), tail);
  }

  /** Activation: every crash point keeps the invariant, and a run to the end installs exactly the
  candidate, alone, with the outcome of the write probe recorded. */
  lemma ActivateSafe(w: World, d: Disk, info: Info, torn: Bytes, probeOk: bool)
    requires Started(w, d, info)
    ensures AllInv(w, d, ActivateSteps(w, d, torn, probeOk))
    ensures !w.consolidate(LiveFamily(d.files)).Raised? ==>
              var e := Run(d, ActivateSteps(w, d, torn, probeOk));
              && e.state.Some? && e.state.value.phase == Activated
              && e.state.value.writeProbe == Some(ProbeResult(probeOk))
              && LiveFamily(e.files) == map[Main := d.files[Candidate]]
              && e.state.value.rawFiles == Digests(LiveFamily(d.files))
  {
    var family := LiveFamily(d.files);
    var a := ArchiveSteps(info, family, torn);
    var b := AssessSteps(w, family, torn);
    ArchiveSafe(w, d, info, torn);
    AllInvEnds(w, d, a);
    AssessSafe(w, d, Run(d, a), info, torn);
    AllInvConcat(w, d, a, b);
    RunConcat(d, a, b);
    AllInvEnds(w, Run(d, a), b);
    if !w.consolidate(family).Raised? {
      var c := PrepareSteps(w, info, family, d.files[Candidate], torn);
      var e := InstallSteps(w, info, family, d.files, probeOk);
      PrepareSafe(w, d, Run(d, a + b), info, torn);
      AllInvConcat(w, d, a + b, c);
      RunConcat(d, a + b, c);
      AllInvEnds(w, Run(d, a + b), c);
      InstallSafe(w, d, Run(d, a + b + c), info, probeOk);
      AllInvConcat(w, d, a + b + c, e);
      RunConcat(d, a + b + c, e);
    }
  }
}
