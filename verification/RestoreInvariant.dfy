/** The facts a recorded phase implies about the volume, and why every primitive step keeps them.

Each phase of the record has its own facts; the archive, the assessment of the old state and the
staged candidate have theirs in every phase.
*/
module RestoreInvariant {
  import opened Common
  import opened Volume
  import opened RestorePlan

  // The archive of the live family, once recorded, is a byte-exact copy of what was live then.
  ghost predicate ArchiveKept(d: Disk, r: Record) {
    if r.rawFiles == map[] then d.history.archived.None? else
    && d.history.archived.Some?
    && var family := d.history.archived.value;
    && Main in family
    && r.rawFiles == Digests(family)
    && forall m | m in family :: RawOld(m) in d.files && d.files[RawOld(m)] == family[m]
  }

  ghost predicate ForwardKept(d: Disk, r: Record) {
    && d.history.forwarded.Some?
    && ForwardDir in d.dirs
    && var family := d.history.forwarded.value;
    && Main in family
    && r.forwardFiles == Digests(family)
    && forall m | m in family :: Forward(m) in d.files && d.files[Forward(m)] == family[m]
  }

  // old-consistent.db is the consolidation of the archived family, as recorded.
  ghost predicate AssessmentKept(w: World, d: Disk, r: Record) {
    r.oldState.Some? ==>
      && d.history.archived.Some?
      && var c := w.consolidate(d.history.archived.value);
      && !c.Raised?
      && r.oldState.value == OldStateOf(w, c)
      && (c.Consolidated? ==> OldConsistent in d.files && d.files[OldConsistent] == c.bytes)
  }

  ghost predicate CandidateKept(w: World, d: Disk, r: Record) {
    match r.retirement
    case NotRetired => Candidate in d.files && InspectInfo(w, d.files[Candidate]) == Some(r.candidate)
    case InProgress => Candidate in d.files ==> InspectInfo(w, d.files[Candidate]) == Some(r.candidate)
    case Done => Candidate !in d.files
  }

  // A sidecar of `family` is either still live or set aside, never both, never lost.
  ghost predicate SidecarSafe(d: Disk, family: Family, m: Member, aside: Path) {
    if m !in family then Live(m) !in d.files && aside !in d.files
    else if Live(m) in d.files then d.files[Live(m)] == family[m] && aside !in d.files
    else aside in d.files && d.files[aside] == family[m]
  }

  ghost predicate SidecarAside(d: Disk, family: Family, m: Member, aside: Path) {
    if m in family then aside in d.files && d.files[aside] == family[m] else aside !in d.files
  }

  ghost predicate NoSidecars(d: Disk) {
    Live(Wal) !in d.files && Live(Shm) !in d.files
  }

  ghost predicate Untouched(d: Disk) {
    && LiveFamily(d.files) == d.history.left
    && d.history.installed.None?
    && !d.history.probed
    && d.history.forwarded.None?
  }

  ghost predicate PreparedFacts(d: Disk, r: Record)
    requires Live(Main) in d.files
  {
    && r.rawFiles != map[] && r.oldState.Some?
    && d.history.archived.Some? && Main in d.history.archived.value
    && d.history.forwarded.None?
    && r.writeProbe == Some(Pending)
    && var family := d.history.archived.value;
    && SidecarSafe(d, family, Wal, Displaced(Wal))
    && SidecarSafe(d, family, Shm, Displaced(Shm))
    && ((d.files[Live(Main)] == family[Main] && d.history.installed.None? && !d.history.probed)
        || (Sha(d.files[Live(Main)]) == r.candidate.sha && d.history.installed == Some(d.files[Live(Main)])
            && NoSidecars(d) && LiveFamily(d.files) == d.history.left))
  }

  ghost predicate ActivatedFacts(d: Disk, r: Record) {
    && r.rawFiles != map[] && r.oldState.Some?
    && d.history.archived.Some?
    && d.history.forwarded.None?
    && r.writeProbe.Some?
    && (r.writeProbe == Some(Ok) ==> d.history.probed)
    && LiveFamily(d.files) == d.history.left
    && d.history.installed.Some? && Sha(d.history.installed.value) == r.candidate.sha
    && SidecarAside(d, d.history.archived.value, Wal, Displaced(Wal))
    && SidecarAside(d, d.history.archived.value, Shm, Displaced(Shm))
  }

  ghost predicate RollingFacts(d: Disk, r: Record)
    requires Live(Main) in d.files
  {
    && RollbackTarget(d, r)
    && ForwardKept(d, r)
    && r.writeProbe == Some(Pending)
    && var family := d.history.forwarded.value;
    && SidecarSafe(d, family, Wal, ForwardDisplaced(Wal))
    && SidecarSafe(d, family, Shm, ForwardDisplaced(Shm))
    && (d.files[Live(Main)] == family[Main]
        || (d.files[Live(Main)] == d.files[OldConsistent] && d.history.installed == Some(d.files[OldConsistent])
            && NoSidecars(d)))
  }

  ghost predicate RolledBackFacts(d: Disk, r: Record) {
    && RollbackTarget(d, r)
    && ForwardKept(d, r)
    && r.writeProbe.Some?
    && (r.writeProbe == Some(Ok) ==> d.history.probed)
    && LiveFamily(d.files) == d.history.left
    && d.history.installed == Some(d.files[OldConsistent])
    && SidecarAside(d, d.history.forwarded.value, Wal, ForwardDisplaced(Wal))
    && SidecarAside(d, d.history.forwarded.value, Shm, ForwardDisplaced(Shm))
  }

  ghost predicate PhaseFacts(d: Disk, r: Record)
    requires Live(Main) in d.files
  {
    match r.phase
    case Archiving => Untouched(d) && r.writeProbe.None?
    case Abandoned => Untouched(d) && r.writeProbe.None?
    case Prepared => PreparedFacts(d, r)
    case Activated => ActivatedFacts(d, r)
    case RollingBack => RollingFacts(d, r)
    case RolledBack => RolledBackFacts(d, r)
  }

  // No forward archive without its directory, and nothing displaced into it before `rolling_back`.
  ghost predicate ForwardFresh(d: Disk, phase: Phase) {
    && (ForwardDir !in d.dirs ==> forall m :: Forward(m) !in d.files)
    && (phase !in {RollingBack, RolledBack} ==> forall m :: ForwardDisplaced(m) !in d.files)
    && (phase in {Archiving, Abandoned} ==> forall m :: Displaced(m) !in d.files)
  }

  ghost predicate RecordFacts(w: World, d: Disk, r: Record)
    requires Live(Main) in d.files
  {
    && Recovery in d.dirs
    && ArchiveKept(d, r)
    && AssessmentKept(w, d, r)
    && CandidateKept(w, d, r)
    && ForwardFresh(d, r.phase)
    && PhaseFacts(d, r)
  }

  ghost predicate Inv(w: World, d: Disk) {
    && Live(Main) in d.files
    && match d.state
       case None =>
         Untouched(d) && d.history.archived.None? && (forall p | p in d.files :: p.Live? || p == Candidate)
         && ForwardDir !in d.dirs
       case Some(r) => RecordFacts(w, d, r)
  }

  // ---------- steps that touch nothing a recorded phase speaks about ----------

  // Paths whose content no recorded phase depends on in the current state.
  predicate Private(d: Disk, p: Path) {
    && d.state.Some?
    && var r := d.state.value;
    match p
    case Live(_) => false
    case RawOld(_) => r.rawFiles == map[]
    case Scratch(_) => true
    case Displaced(_) => false
    case Forward(_) => r.phase in {Prepared, Activated} && ForwardDir in d.dirs
    case ForwardDisplaced(_) => false
    case OldConsistent => r.oldState.None? && r.phase == Archiving
    case Candidate => false
    case Incoming => true
    case RollbackCopy => true
  }

  predicate Quiet(d: Disk, op: Op) {
    match op
    case Mkdir(x) => d.state.Some? && x in {RawDir, ScratchDir}
    case Rmdir(x) => d.state.Some? && x in {RawDir, ScratchDir}
    case Put(p, _) => Private(d, p)
    case Unlink(p) => Private(d, p)
    case Rename(_, _) => false
    case Save(_) => false
    case ProbeWrite(_) => false
  }

  // The live family, everything set aside, the candidate, the record and the history are the same.
  ghost predicate SameCore(d: Disk, e: Disk) {
    && e.state == d.state
    && e.history == d.history
    && (ForwardDir in e.dirs <==> ForwardDir in d.dirs)
    && (Recovery in e.dirs <==> Recovery in d.dirs)
    && (forall p | !Private(d, p) :: SameAt(d, e, p))
  }

  ghost predicate SameAt(d: Disk, e: Disk, p: Path) {
    (p in e.files <==> p in d.files) && (p in d.files ==> e.files[p] == d.files[p])
  }

  ghost predicate AllInv(w: World, d: Disk, ops: seq<Op>)
    decreases |ops|
  {
    Inv(w, d) && (ops != [] ==> AllInv(w, Apply(d, ops[0]), ops[1..]))
  }

  lemma {:induction false} AllInvConcat(w: World, d: Disk, a: seq<Op>, b: seq<Op>)
    requires AllInv(w, d, a) && AllInv(w, Run(d, a), b)
    ensures AllInv(w, d, a + b)
    decreases |a|
  {
    if a == [] {
      assert a + b == b;
    } else {
      assert (a + b)[1..] == a[1..] + b;
      AllInvConcat(w, Apply(d, a[0]), a[1..], b);
    }
  }

  // Every crash point of a plan whose steps all keep the invariant satisfies it.
  lemma {:induction false} AllInvPrefix(w: World, d: Disk, ops: seq<Op>, k: nat)
    requires AllInv(w, d, ops) && k <= |ops|
    ensures Inv(w, Run(d, ops[..k]))
    decreases |ops|
  {
    if k > 0 {
      assert ops[..k][0] == ops[0];
      assert ops[..k][1..] == ops[1..][..k - 1];
      AllInvPrefix(w, Apply(d, ops[0]), ops[1..], k - 1);
    }
  }

  lemma SameLive(d: Disk, e: Disk)
    requires SameCore(d, e)
    ensures LiveFamily(e.files) == LiveFamily(d.files)
    ensures forall m: Member ::
      SameAt(d, e, Live(m)) && SameAt(d, e, Displaced(m)) && SameAt(d, e, ForwardDisplaced(m))
    ensures SameAt(d, e, Candidate)
  {
    forall m: Member
      ensures SameAt(d, e, Live(m)) && SameAt(d, e, Displaced(m)) && SameAt(d, e, ForwardDisplaced(m))
    {
      assert !Private(d, Live(m)) && !Private(d, Displaced(m)) && !Private(d, ForwardDisplaced(m));
    }
    assert !Private(d, Candidate);
  }

  lemma SameArchives(w: World, d: Disk, e: Disk, r: Record)
    requires SameCore(d, e) && d.state == Some(r)
    ensures ArchiveKept(d, r) ==> ArchiveKept(e, r)
    ensures AssessmentKept(w, d, r) ==> AssessmentKept(w, e, r)
    ensures r.phase in {RollingBack, RolledBack} && ForwardKept(d, r) ==> ForwardKept(e, r)
    ensures r.oldState.Some? && RollbackTarget(d, r) ==> RollbackTarget(e, r) && SameAt(d, e, OldConsistent)
    ensures ForwardDir !in d.dirs ==> forall m: Member :: SameAt(d, e, Forward(m))
  {
    if r.rawFiles != map[] {
      assert forall m: Member :: !Private(d, RawOld(m));
    }
    if r.oldState.Some? {
      assert !Private(d, OldConsistent);
    }
    if r.phase in {RollingBack, RolledBack} || ForwardDir !in d.dirs {
      assert forall m: Member :: !Private(d, Forward(m));
    }
  }

  lemma SamePhaseFacts(d: Disk, e: Disk, r: Record)
    requires SameCore(d, e) && d.state == Some(r)
    requires Live(Main) in d.files && Live(Main) in e.files && PhaseFacts(d, r)
    requires forall m: Member ::
      SameAt(d, e, Live(m)) && SameAt(d, e, Displaced(m)) && SameAt(d, e, ForwardDisplaced(m))
    requires LiveFamily(e.files) == LiveFamily(d.files)
    requires r.phase in {RollingBack, RolledBack} ==>
      ForwardKept(e, r) && RollbackTarget(e, r) && SameAt(d, e, OldConsistent)
    ensures PhaseFacts(e, r)
  {
    assert SameAt(d, e, Live(Main)) && SameAt(d, e, Live(Wal)) && SameAt(d, e, Live(Shm));
    assert SameAt(d, e, Displaced(Wal)) && SameAt(d, e, Displaced(Shm));
    assert SameAt(d, e, ForwardDisplaced(Wal)) && SameAt(d, e, ForwardDisplaced(Shm));
  }

  lemma SameCoreKeepsInv(w: World, d: Disk, e: Disk)
    requires Inv(w, d) && SameCore(d, e) && d.state.Some?
    ensures Inv(w, e)
  {
    var r := d.state.value;
    SameLive(d, e);
    SameArchives(w, d, e, r);
    assert SameAt(d, e, Live(Main));
    SamePhaseFacts(d, e, r);
    assert CandidateKept(w, e, r);
    assert ForwardFresh(e, r.phase);
  }

  lemma {:induction false} QuietRun(w: World, d: Disk, ops: seq<Op>)
    requires Inv(w, d) && d.state.Some?
    requires forall op | op in ops :: Quiet(d, op)
    ensures AllInv(w, d, ops)
    ensures SameCore(d, Run(d, ops))
    decreases |ops|
  {
    if ops != [] {
      var e := Apply(d, ops[0]);
      assert ops[0] in ops;
      assert Quiet(d, ops[0]);
      assert SameCore(d, e);
      SameCoreKeepsInv(w, d, e);
      assert forall p :: Private(e, p) == Private(d, p);
      forall op | op in ops[1..] ensures Quiet(e, op) {
        assert op in ops;
        assert Quiet(d, op);
      }
      QuietRun(w, e, ops[1..]);
    }
  }
}
