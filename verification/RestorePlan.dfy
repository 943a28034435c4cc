/** What each command of the restore helper does to a volume, as a sequence of primitive steps.

A command reads the volume, refuses (no steps) or carries out its steps in order. Nothing else
writes the volume while a command runs, so the bytes every step writes are known when it starts.
*/
module RestorePlan {
  import opened Common
  import opened Volume

  datatype Consolidation =
    | Consolidated(bytes: Bytes)  // SQLite produced a standalone file
    | NotADatabase                // SQLITE_CORRUPT or SQLITE_NOTADB
    | Raised                      // any other error: activation stops here

  // What SQLite does is not modelled: inspection, consolidation and assessment are arbitrary functions.
  datatype World = World(
    inspect: Bytes -> Option<Facts>,
    consolidate: Family -> Consolidation,
    rollbackAvailable: Bytes -> bool)

  datatype Expected = Expected(sha: Digest, schema: nat, projects: string)

  // `torn` is what an interrupted copy leaves; `probeOk` is whether the write probe succeeds.
  datatype Command =
    | Activate(expected: Expected, torn: Bytes, probeOk: bool)
    | Rollback(torn: Bytes, probeOk: bool)
    | ProbeInstalled(probeOk: bool)
    | RetireStage

  datatype Place = InRaw | InScratch | InForward

  function At(place: Place, m: Member): Path {
    match place
    case InRaw => RawOld(m)
    case InScratch => Scratch(m)
    case InForward => Forward(m)
  }

  function Copy(target: Path, bytes: Bytes, torn: Bytes): seq<Op> {
    [Put(target, torn), Put(target, bytes)]
  }

  function CopyMember(place: Place, m: Member, family: Family, torn: Bytes): seq<Op> {
    if m in family then Copy(At(place, m), family[m], torn) else []
  }

  function CopyFamily(place: Place, family: Family, torn: Bytes): seq<Op> {
    CopyMember(place, Main, family, torn) + CopyMember(place, Wal, family, torn) + CopyMember(place, Shm, family, torn)
  }

  function RemoveMember(place: Place, m: Member, family: Family): seq<Op> {
    if m in family then [Unlink(At(place, m))] else []
  }

  function RemoveScratch(family: Family): seq<Op> {
    RemoveMember(InScratch, Main, family) + RemoveMember(InScratch, Wal, family) + RemoveMember(InScratch, Shm, family)
    + [Rmdir(ScratchDir)]
  }

  // Move the live sidecars aside, into the recovery directory or the forward archive.
  function Displace(files: map<Path, Bytes>, forward: bool): seq<Op> {
    (if Live(Wal) in files then [Rename(Live(Wal), Aside(forward, Wal))] else [])
    + (if Live(Shm) in files then [Rename(Live(Shm), Aside(forward, Shm))] else [])
  }

  function Aside(forward: bool, m: Member): Path {
    if forward then ForwardDisplaced(m) else Displaced(m)
  }

  // Remove a leftover activation copy only if it is byte-identical to the candidate.
  function RemoveIncoming(files: map<Path, Bytes>, sha: Digest): seq<Op> {
    if Incoming in files && Sha(files[Incoming]) == sha then [Unlink(Incoming)] else []
  }

  function ProbeResult(ok: bool): Probe {
    if ok then Ok else Failed
  }

  function InspectInfo(w: World, b: Bytes): Option<Info> {
    match w.inspect(b)
    case None => None
    case Some(f) => Some(Info(Sha(b), f))
  }

  // ---------- activate ----------

  predicate ActivateAccepts(w: World, d: Disk, e: Expected) {
    && Live(Main) in d.files
    && Candidate in d.files
    && InspectInfo(w, d.files[Candidate]).Some?
    && (var i := InspectInfo(w, d.files[Candidate]).value;
        i.sha == e.sha && i.facts.schema == e.schema && i.facts.projects == e.projects)
    && Recovery !in d.dirs
  }

  function OldStateOf(w: World, c: Consolidation): OldState {
    match c
    case Consolidated(b) => Assessed(Sha(b), w.rollbackAvailable(b))
    case NotADatabase => Unreadable
    case Raised => Unreadable
  }

  function Consolidate(c: Consolidation, torn: Bytes): seq<Op> {
    match c
    case Consolidated(b) => Copy(OldConsistent, b, torn)
    case NotADatabase => [Put(OldConsistent, torn), Unlink(OldConsistent)]
    case Raised => [Put(OldConsistent, torn)]
  }

  function ArchivingRecord(info: Info): Record {
    Record(Archiving, map[], info, None, map[], None, NotRetired)
  }

  // Up to and including the recorded archive of the live family.
  function ArchiveSteps(info: Info, family: Family, torn: Bytes): seq<Op> {
    [Mkdir(Recovery), Save(ArchivingRecord(info)), Mkdir(RawDir)]
    + CopyFamily(InRaw, family, torn)
    + [Save(ArchivingRecord(info).(rawFiles := Digests(family)))]
  }

  // Consolidate a disposable copy of the archive; SQLite never opens the live files.
  function AssessSteps(w: World, family: Family, torn: Bytes): seq<Op> {
    [Mkdir(ScratchDir)]
    + CopyFamily(InScratch, family, torn)
    + Consolidate(w.consolidate(family), torn)
    + RemoveScratch(family)
  }

  function AssessedRecord(w: World, info: Info, family: Family): Record {
    ArchivingRecord(info).(rawFiles := Digests(family), oldState := Some(OldStateOf(w, w.consolidate(family))))
  }

  function PreparedRecord(w: World, info: Info, family: Family): Record {
    AssessedRecord(w, info, family).(phase := Prepared, writeProbe := Some(Pending))
  }

  function PrepareSteps(w: World, info: Info, family: Family, candidate: Bytes, torn: Bytes): seq<Op> {
    [Save(AssessedRecord(w, info, family))]
    + Copy(Incoming, candidate, torn)
    + [Save(PreparedRecord(w, info, family))]
  }

  function InstallSteps(w: World, info: Info, family: Family, files: map<Path, Bytes>, probeOk: bool): seq<Op> {
    var activated := PreparedRecord(w, info, family).(phase := Activated);
    Displace(files, false)
    + [Rename(Incoming, Live(Main)), Save(activated), ProbeWrite(probeOk),
       Save(activated.(writeProbe := Some(ProbeResult(probeOk))))]
  }

  function ActivateSteps(w: World, d: Disk, torn: Bytes, probeOk: bool): seq<Op>
    requires Candidate in d.files && InspectInfo(w, d.files[Candidate]).Some?
  {
    var info := InspectInfo(w, d.files[Candidate]).value;
    var family := LiveFamily(d.files);
    var head := ArchiveSteps(info, family, torn) + AssessSteps(w, family, torn);
    if w.consolidate(family).Raised? then head else
    head
    + PrepareSteps(w, info, family, d.files[Candidate], torn)
    + InstallSteps(w, info, family, d.files, probeOk)
  }

  // ---------- rollback ----------

  predicate RollbackTarget(d: Disk, r: Record) {
    && r.oldState.Some?
    && r.oldState.value.Assessed?
    && r.oldState.value.rollbackAvailable
    && OldConsistent in d.files
    && Sha(d.files[OldConsistent]) == r.oldState.value.sha
  }

  predicate SidecarResumable(d: Disk, r: Record, m: Member) {
    if m !in r.forwardFiles then
      Live(m) !in d.files && ForwardDisplaced(m) !in d.files
    else if Live(m) in d.files then
      ForwardDisplaced(m) !in d.files && Sha(d.files[Live(m)]) == r.forwardFiles[m]
    else
      ForwardDisplaced(m) in d.files && Sha(d.files[ForwardDisplaced(m)]) == r.forwardFiles[m]
  }

  // The checks a resumed rollback makes before it touches anything.
  predicate Resumable(d: Disk, r: Record)
    requires RollbackTarget(d, r)
  {
    && Live(Main) in d.files
    && ForwardDir in d.dirs
    && r.forwardFiles != map[]
    && (forall m | m in r.forwardFiles ::
          Forward(m) in d.files && Sha(d.files[Forward(m)]) == r.forwardFiles[m])
    && ((Main in r.forwardFiles && Sha(d.files[Live(Main)]) == r.forwardFiles[Main])
        || Sha(d.files[Live(Main)]) == r.oldState.value.sha)
    && SidecarResumable(d, r, Wal)
    && SidecarResumable(d, r, Shm)
  }

  function RollingRecord(r: Record, family: Family): Record {
    r.(forwardFiles := Digests(family), phase := RollingBack, writeProbe := Some(Pending))
  }

  function ForwardSteps(r: Record, family: Family, torn: Bytes): seq<Op> {
    [Mkdir(ForwardDir)] + CopyFamily(InForward, family, torn) + [Save(RollingRecord(r, family))]
  }

  // From a recorded `rolling_back` to the recorded result.
  function ReinstallSteps(files: map<Path, Bytes>, r: Record, snapshot: Bytes, torn: Bytes, probeOk: bool): seq<Op> {
    [Unlink(RollbackCopy)]
    + Copy(RollbackCopy, snapshot, torn)
    + Displace(files, true)
    + [Rename(RollbackCopy, Live(Main)), Save(r.(phase := RolledBack))]
    + RemoveIncoming(files, r.candidate.sha)
    + [ProbeWrite(probeOk), Save(r.(phase := RolledBack, writeProbe := Some(ProbeResult(probeOk))))]
  }

  function AbandonSteps(d: Disk, r: Record): seq<Op> {
    RemoveIncoming(d.files, r.candidate.sha) + [Save(r.(phase := Abandoned))]
  }

  function RollbackSteps(d: Disk, torn: Bytes, probeOk: bool): seq<Op> {
    if Live(Main) !in d.files || d.state.None? then [] else
    var r := d.state.value;
    if r.phase == Archiving then AbandonSteps(d, r)
    else if r.phase !in {Prepared, Activated, RollingBack} || !RollbackTarget(d, r) then []
    else if r.phase != RollingBack then
      if ForwardDir in d.dirs then [] else
      var family := LiveFamily(d.files);
      ForwardSteps(r, family, torn)
      + ReinstallSteps(d.files, RollingRecord(r, family), d.files[OldConsistent], torn, probeOk)
    else if !Resumable(d, r) then []
    else ReinstallSteps(d.files, r, d.files[OldConsistent], torn, probeOk)
  }

  // ---------- probe ----------

  predicate ForeignSidecar(d: Disk) {
    Live(Shm) in d.files && Live(Wal) !in d.files
  }

  function InstalledSha(r: Record): Option<Digest> {
    if r.phase == Activated then Some(r.candidate.sha)
    else if r.oldState.Some? && r.oldState.value.Assessed? then Some(r.oldState.value.sha)
    else None
  }

  predicate UnchangedSinceSwap(d: Disk, sha: Option<Digest>)
    requires Live(Main) in d.files
  {
    && sha.Some?
    && (Live(Wal) in d.files ==> d.files[Live(Wal)] == [])
    && Sha(d.files[Live(Main)]) == sha.value
  }

  function ProbeSteps(d: Disk, probeOk: bool): seq<Op> {
    if Live(Main) !in d.files || d.state.None? then [] else
    var r := d.state.value;
    if r.phase !in {Activated, RolledBack} || ForeignSidecar(d) then []
    else if !UnchangedSinceSwap(d, InstalledSha(r)) then [Save(r.(writeProbe := Some(Stale)))]
    else [ProbeWrite(probeOk), Save(r.(writeProbe := Some(ProbeResult(probeOk))))]
  }

  // ---------- retire-stage ----------

  predicate RetireAccepts(w: World, d: Disk, r: Record) {
    && r.phase in {Activated, RolledBack, Abandoned}
    && r.retirement != Done
    && (if Candidate in d.files then InspectInfo(w, d.files[Candidate]) == Some(r.candidate)
        else r.retirement == InProgress)
  }

  function RetireSteps(w: World, d: Disk): seq<Op> {
    if d.state.None? || !RetireAccepts(w, d, d.state.value) then [] else
    var r := d.state.value;
    [Save(r.(retirement := InProgress)), Unlink(Candidate), Save(r.(retirement := Done))]
    + RemoveIncoming(d.files, r.candidate.sha)
  }

  function Plan(w: World, d: Disk, c: Command): seq<Op> {
    match c
    case Activate(e, torn, ok) => if ActivateAccepts(w, d, e) then ActivateSteps(w, d, torn, ok) else []
    case Rollback(torn, ok) => RollbackSteps(d, torn, ok)
    case ProbeInstalled(ok) => ProbeSteps(d, ok)
    case RetireStage => RetireSteps(w, d)
  }
}
