/** Two restore operations on one volume, each with its own recovery directory and record. */
module RestorePair {
  import opened Common
  import opened Volume
  import opened RestorePlan
  import opened RestoreInvariant
  import opened ActivateSafety
  import opened RollbackSafety
  import opened RestoreRuns

  datatype Which = First | Second

  // What each operation sees: its own files and record, and the one live family. The candidate is the file
  // it was started with, which may be the same staged file for both (`oneFile`). `last` is the operation
  // that swapped the main file last; no command reads it.
  datatype Pair = Pair(first: Disk, second: Disk, oneFile: bool, last: Option<Which>)

  // A command that may die on the way, or a service that writes the live family. Nothing here keeps to
  // the runbook.
  datatype Turn =
    | Act(who: Which, command: Command, steps: nat)
    | Serve(family: Family)

  function Of(p: Pair, who: Which): Disk {
    if who.First? then p.first else p.second
  }

  function Other(who: Which): Which {
    if who.First? then Second else First
  }

  // A step that puts another file in the place of the main file
  predicate Swaps(d: Disk, ops: seq<Op>)
    decreases |ops|
  {
    ops != [] && ((ops[0].Rename? && ops[0].target == Live(Main) && ops[0].path in d.files)
                  || Swaps(Apply(d, ops[0]), ops[1..]))
  }

  function Seen(o: Disk, before: Family, after: Family): Disk {
    if before == after then o else Written(o, after)
  }

  function WithoutCandidate(o: Disk): Disk {
    o.(files := o.files - {Candidate})
  }

  predicate Retires(p: Pair, d: Disk, e: Disk) {
    p.oneFile && Candidate in d.files && Candidate !in e.files
  }

  // What is left of `o` when the other operation turns `d` into `e`
  function Left(p: Pair, o: Disk, d: Disk, e: Disk): Disk {
    var seen := Seen(o, LiveFamily(d.files), LiveFamily(e.files));
    if Retires(p, d, e) then WithoutCandidate(seen) else seen
  }

  function Acted(w: World, p: Pair, who: Which, command: Command, steps: nat): Pair {
    var d, o := Of(p, who), Of(p, Other(who));
    var ops := Cut(Plan(w, d, command), steps);
    var e := Run(d, ops);
    var left := Left(p, o, d, e);
    var last := if Swaps(d, ops) then Some(who) else p.last;
    if who.First? then Pair(e, left, p.oneFile, last) else Pair(left, e, p.oneFile, last)
  }

  function Next(w: World, p: Pair, t: Turn): Pair {
    match t
    case Act(who, command, steps) => Acted(w, p, who, command, steps)
    case Serve(family) =>
      if Main in family then p.(first := Written(p.first, family), second := Written(p.second, family)) else p
  }

  function After(w: World, p: Pair, turns: seq<Turn>): Pair
    decreases |turns|
  {
    if turns == [] then p else After(w, Next(w, p, turns[0]), turns[1..])
  }

  ghost predicate Start(p: Pair) {
    && Fresh(p.first) && Fresh(p.second) && LiveFamily(p.first.files) == LiveFamily(p.second.files)
    && (p.oneFile ==> SameAt(p.first, p.second, Candidate)) && p.last.None?
  }

  // ---------- what survives every history ----------

  // The archive and the assessed snapshot of an operation are what its record says.
  ghost predicate RecordKept(w: World, d: Disk) {
    && d.state.Some? && Recovery in d.dirs
    && ArchiveKept(d, d.state.value) && AssessmentKept(w, d, d.state.value)
  }

  ghost predicate Kept(w: World, d: Disk) {
    && Live(Main) in d.files
    && (if d.state.None? then Inv(w, d) else RecordKept(w, d))
  }

  // A step that touches neither the archive nor the snapshot, and records them as they are
  predicate Spares(op: Op, r: Record) {
    match op
    case Put(p, _) => !p.RawOld? && p != OldConsistent
    case Unlink(p) => !p.RawOld? && p != OldConsistent
    case Rename(p, q) => !p.RawOld? && p != OldConsistent && !q.RawOld? && q != OldConsistent
    case Rmdir(x) => x != Recovery
    case Save(s) => s.rawFiles == r.rawFiles && s.oldState == r.oldState
    case _ => true
  }

  predicate AllSpare(ops: seq<Op>, r: Record) {
    forall op | op in ops :: Spares(op, r)
  }

  lemma CopiesSpare(family: Family, torn: Bytes, r: Record)
    ensures AllSpare(CopyFamily(InForward, family, torn), r)
  {
  }

  lemma ReinstallSpares(files: map<Path, Bytes>, rolling: Record, snapshot: Bytes, torn: Bytes, probeOk: bool, r: Record)
    requires rolling.rawFiles == r.rawFiles && rolling.oldState == r.oldState
    ensures AllSpare(ReinstallSteps(files, rolling, snapshot, torn, probeOk), r)
  {
    assert AllSpare(Displace(files, true), r);
    assert AllSpare(RemoveIncoming(files, rolling.candidate.sha), r);
  }

  lemma RollbackSpares(d: Disk, torn: Bytes, probeOk: bool)
    requires d.state.Some?
    ensures AllSpare(RollbackSteps(d, torn, probeOk), d.state.value)
  {
    var r, family := d.state.value, LiveFamily(d.files);
    CopiesSpare(family, torn, r);
    assert AllSpare(AbandonSteps(d, r), r);
    if RollbackTarget(d, r) {
      ReinstallSpares(d.files, r, d.files[OldConsistent], torn, probeOk, r);
      ReinstallSpares(d.files, RollingRecord(r, family), d.files[OldConsistent], torn, probeOk, r);
    }
  }

  lemma PlanSpares(w: World, d: Disk, c: Command)
    requires d.state.Some? && Recovery in d.dirs
    ensures AllSpare(Plan(w, d, c), d.state.value)
  {
    match c
    case Activate(e, torn, ok) =>
    case Rollback(torn, ok) => RollbackSpares(d, torn, ok);
    case ProbeInstalled(ok) =>
    case RetireStage => assert AllSpare(RemoveIncoming(d.files, d.state.value.candidate.sha), d.state.value);
  }

  lemma SpareKeeps(w: World, d: Disk, op: Op, r: Record)
    requires RecordKept(w, d) && d.state.value.rawFiles == r.rawFiles && d.state.value.oldState == r.oldState && Spares(op, r)
    ensures RecordKept(w, Apply(d, op))
    ensures Apply(d, op).state.value.rawFiles == r.rawFiles && Apply(d, op).state.value.oldState == r.oldState
  {
  }

  lemma {:induction false} SparedRun(w: World, d: Disk, ops: seq<Op>, r: Record)
    requires RecordKept(w, d) && d.state.value.rawFiles == r.rawFiles && d.state.value.oldState == r.oldState
    requires AllSpare(ops, r)
    ensures RecordKept(w, Run(d, ops))
    decreases |ops|
  {
    if ops != [] {
      assert Spares(ops[0], r);
      SpareKeeps(w, d, ops[0], r);
      SparedRun(w, Apply(d, ops[0]), ops[1..], r);
    }
  }

  lemma OwnKeeps(w: World, d: Disk, command: Command, steps: nat)
    requires Kept(w, d)
    ensures Kept(w, Run(d, Cut(Plan(w, d, command), steps)))
  {
    var ops := Cut(Plan(w, d, command), steps);
    if d.state.None? {
      NextSafe(w, d, Helper(command, steps));
    } else {
      PlanSpares(w, d, command);
      SparedRun(w, d, ops, d.state.value);
      PlanSwapsOnly(w, d, command);
      SwapTracks(d, ops);
    }
  }

  lemma WrittenKeeps(w: World, o: Disk, family: Family)
    requires Kept(w, o) && Main in family
    ensures Kept(w, Written(o, family)) && LiveFamily(Written(o, family).files) == family
  {
    var e := Written(o, family);
    ServiceFiles(o, family);
    assert Main in LiveFamily(e.files);
    if o.state.None? {
      WrittenSafe(w, o, family);
    } else {
      assert SameAt(o, e, OldConsistent) && forall m: Member :: SameAt(o, e, RawOld(m));
    }
  }

  lemma WithoutCandidateKeeps(w: World, o: Disk)
    requires Kept(w, o)
    ensures Kept(w, WithoutCandidate(o)) && LiveFamily(WithoutCandidate(o).files) == LiveFamily(o.files)
  {
    assert LiveFamily(WithoutCandidate(o).files) == LiveFamily(o.files);
  }

  lemma LeftKeeps(w: World, p: Pair, o: Disk, d: Disk, e: Disk)
    requires Kept(w, o) && LiveFamily(o.files) == LiveFamily(d.files) && Live(Main) in e.files
    ensures Kept(w, Left(p, o, d, e)) && LiveFamily(Left(p, o, d, e).files) == LiveFamily(e.files)
  {
    var after := LiveFamily(e.files);
    assert Main in after;
    if LiveFamily(d.files) != after {
      WrittenKeeps(w, o, after);
    }
    WithoutCandidateKeeps(w, Seen(o, LiveFamily(d.files), after));
  }

  ghost predicate PairKept(w: World, p: Pair) {
    Kept(w, p.first) && Kept(w, p.second) && LiveFamily(p.first.files) == LiveFamily(p.second.files)
  }

  lemma TurnKeeps(w: World, p: Pair, t: Turn)
    requires PairKept(w, p)
    ensures PairKept(w, Next(w, p, t))
  {
    match t
    case Act(who, command, steps) =>
      var d := Of(p, who);
      OwnKeeps(w, d, command, steps);
      LeftKeeps(w, p, Of(p, Other(who)), d, Run(d, Cut(Plan(w, d, command), steps)));
    case Serve(family) =>
      if Main in family {
        WrittenKeeps(w, p.first, family);
        WrittenKeeps(w, p.second, family);
      }
  }

  lemma {:induction false} TurnsKeep(w: World, p: Pair, turns: seq<Turn>)
    requires PairKept(w, p)
    ensures PairKept(w, After(w, p, turns))
    decreases |turns|
  {
    if turns != [] {
      TurnKeeps(w, p, turns[0]);
      TurnsKeep(w, Next(w, p, turns[0]), turns[1..]);
    }
  }

  /** Over every history of two operations, started with one staged file or two, in any order, with crashes,
  service writes at any time and whether or not the runbook is kept: the main file exists, both see one live
  family, and each operation's raw-old and snapshot are, byte for byte, what its record says. */
  lemma ArchivesSurviveEverything(w: World, p: Pair, turns: seq<Turn>)
    requires Start(p)
    ensures var q := After(w, p, turns);
            && Live(Main) in q.first.files && LiveFamily(q.first.files) == LiveFamily(q.second.files)
            && (q.first.state.Some? ==>
                  ArchiveKept(q.first, q.first.state.value) && AssessmentKept(w, q.first, q.first.state.value))
            && (q.second.state.Some? ==>
                  ArchiveKept(q.second, q.second.state.value) && AssessmentKept(w, q.second, q.second.state.value))
  {
    assert Inv(w, p.first) && Inv(w, p.second);
    TurnsKeep(w, p, turns);
  }

  // ---------- the whole record, when the runbook is kept ----------

  // No other operation has stopped between displacing sidecars and recording its swap, and none loses the
  // staged file to this one's retirement.
  predicate InTurn(w: World, p: Pair, t: Turn) {
    match t
    case Act(who, command, steps) =>
      var d, o := Of(p, who), Of(p, Other(who));
      var e := Run(d, Cut(Plan(w, d, command), steps));
      && (LiveFamily(d.files) == LiveFamily(e.files) || OthersMayWrite(o))
      && (Retires(p, d, e) ==> o.state.None?)
    case Serve(_) => OthersMayWrite(p.first) && OthersMayWrite(p.second)
  }

  predicate Orderly(w: World, p: Pair, turns: seq<Turn>)
    decreases |turns|
  {
    turns == [] || (InTurn(w, p, turns[0]) && Orderly(w, Next(w, p, turns[0]), turns[1..]))
  }

  ghost predicate PairInv(w: World, p: Pair) {
    Inv(w, p.first) && Inv(w, p.second) && LiveFamily(p.first.files) == LiveFamily(p.second.files)
  }

  lemma LeftSafe(w: World, p: Pair, o: Disk, d: Disk, e: Disk)
    requires Inv(w, o) && LiveFamily(o.files) == LiveFamily(d.files) && Live(Main) in e.files
    requires LiveFamily(d.files) == LiveFamily(e.files) || OthersMayWrite(o)
    requires Retires(p, d, e) ==> o.state.None?
    ensures Inv(w, Left(p, o, d, e)) && LiveFamily(Left(p, o, d, e).files) == LiveFamily(e.files)
  {
    var after := LiveFamily(e.files);
    assert Main in after;
    if LiveFamily(d.files) != after {
      WrittenSafe(w, o, after);
      ServiceFiles(o, after);
    }
    if Retires(p, d, e) {
      WithoutCandidateKeeps(w, Seen(o, LiveFamily(d.files), after));
    }
  }

  lemma TurnSafe(w: World, p: Pair, t: Turn)
    requires PairInv(w, p) && InTurn(w, p, t)
    ensures PairInv(w, Next(w, p, t))
  {
    match t
    case Act(who, command, steps) =>
      var d := Of(p, who);
      NextSafe(w, d, Helper(command, steps));
      LeftSafe(w, p, Of(p, Other(who)), d, Run(d, Cut(Plan(w, d, command), steps)));
    case Serve(family) =>
      if Main in family {
        WrittenSafe(w, p.first, family);
        WrittenSafe(w, p.second, family);
        ServiceFiles(p.first, family);
        ServiceFiles(p.second, family);
      }
  }

  lemma {:induction false} TurnsSafe(w: World, p: Pair, turns: seq<Turn>)
    requires PairInv(w, p) && Orderly(w, p, turns)
    ensures PairInv(w, After(w, p, turns))
    decreases |turns|
  {
    if turns != [] {
      TurnSafe(w, p, turns[0]);
      TurnsSafe(w, Next(w, p, turns[0]), turns[1..]);
    }
  }

  /** While the operations and the service keep out of each other's swaps, each record keeps telling the
  truth about its own phase, archive, assessment and candidate too. */
  lemma BothStaySafe(w: World, p: Pair, turns: seq<Turn>)
    requires Start(p) && Orderly(w, p, turns)
    ensures var q := After(w, p, turns);
            Inv(w, q.first) && Inv(w, q.second) && LiveFamily(q.first.files) == LiveFamily(q.second.files)
  {
    assert Inv(w, p.first) && Inv(w, p.second);
    TurnsSafe(w, p, turns);
  }

  // ---------- whose "ok" describes the live file ----------

  // The recorded result is about the file that is live now.
  predicate Describes(d: Disk) {
    Live(Main) in d.files && d.state.Some? && InstalledSha(d.state.value) == Some(Sha(d.files[Live(Main)]))
  }

  predicate SwapsOnly(op: Op) {
    match op
    case Put(p, _) => p != Live(Main)
    case Unlink(p) => p != Live(Main)
    case Rename(p, _) => p != Live(Main)
    case _ => true
  }

  predicate AllSwapOnly(ops: seq<Op>) {
    forall op | op in ops :: SwapsOnly(op)
  }

  lemma CopiesSwapOnly(place: Place, family: Family, torn: Bytes)
    ensures AllSwapOnly(CopyFamily(place, family, torn))
  {
  }

  lemma AssessSwapsOnly(w: World, family: Family, torn: Bytes)
    ensures AllSwapOnly(AssessSteps(w, family, torn))
  {
    CopiesSwapOnly(InScratch, family, torn);
    assert AllSwapOnly(Consolidate(w.consolidate(family), torn));
    assert AllSwapOnly(RemoveScratch(family));
  }

  lemma ActivateSwapsOnly(w: World, d: Disk, torn: Bytes, probeOk: bool)
    requires Candidate in d.files && InspectInfo(w, d.files[Candidate]).Some?
    ensures AllSwapOnly(ActivateSteps(w, d, torn, probeOk))
  {
    var info, family := InspectInfo(w, d.files[Candidate]).value, LiveFamily(d.files);
    ArchiveSwapsOnly(info, family, torn);
    AssessSwapsOnly(w, family, torn);
    InstallSwapsOnly(w, info, family, d.files, d.files[Candidate], torn, probeOk);
  }

  lemma ArchiveSwapsOnly(info: Info, family: Family, torn: Bytes)
    ensures AllSwapOnly(ArchiveSteps(info, family, torn))
  {
    CopiesSwapOnly(InRaw, family, torn);
  }

  lemma InstallSwapsOnly(w: World, info: Info, family: Family, files: map<Path, Bytes>, candidate: Bytes, torn: Bytes, probeOk: bool)
    ensures AllSwapOnly(PrepareSteps(w, info, family, candidate, torn))
    ensures AllSwapOnly(InstallSteps(w, info, family, files, probeOk))
  {
    assert AllSwapOnly(Displace(files, false));
  }

  lemma RollbackSwapsOnly(d: Disk, torn: Bytes, probeOk: bool)
    ensures AllSwapOnly(RollbackSteps(d, torn, probeOk))
  {
    CopiesSwapOnly(InForward, LiveFamily(d.files), torn);
    if d.state.Some? && RollbackTarget(d, d.state.value) {
      ReinstallSwapsOnly(d.files, d.state.value, d.files[OldConsistent], torn, probeOk);
      ReinstallSwapsOnly(d.files, RollingRecord(d.state.value, LiveFamily(d.files)), d.files[OldConsistent], torn, probeOk);
    }
  }

  lemma ReinstallSwapsOnly(files: map<Path, Bytes>, r: Record, snapshot: Bytes, torn: Bytes, probeOk: bool)
    ensures AllSwapOnly(ReinstallSteps(files, r, snapshot, torn, probeOk))
  {
    assert AllSwapOnly(Displace(files, true));
    assert AllSwapOnly(RemoveIncoming(files, r.candidate.sha));
  }

  lemma PlanSwapsOnly(w: World, d: Disk, c: Command)
    ensures AllSwapOnly(Plan(w, d, c))
  {
    match c
    case Activate(e, torn, ok) =>
      if ActivateAccepts(w, d, e) {
        ActivateSwapsOnly(w, d, torn, ok);
      }
    case Rollback(torn, ok) => RollbackSwapsOnly(d, torn, ok);
    case ProbeInstalled(ok) =>
    case RetireStage =>
  }

  // The main file and what was installed last change together, by a swap.
  lemma {:induction false} SwapTracks(d: Disk, ops: seq<Op>)
    requires Live(Main) in d.files && AllSwapOnly(ops)
    ensures var e := Run(d, ops);
            && Live(Main) in e.files
            && (Swaps(d, ops) ==> e.history.installed == Some(e.files[Live(Main)]))
            && (!Swaps(d, ops) ==>
                  e.files[Live(Main)] == d.files[Live(Main)] && e.history.installed == d.history.installed)
    decreases |ops|
  {
    if ops != [] {
      assert SwapsOnly(ops[0]);
      SwapTracks(Apply(d, ops[0]), ops[1..]);
    }
  }

  ghost predicate LastInstalled(p: Pair) {
    && (p.first.history.installed.Some? || p.second.history.installed.Some? ==> p.last.Some?)
    && (p.last.Some? ==>
          var d := Of(p, p.last.value);
          Live(Main) in d.files && d.history.installed == Some(d.files[Live(Main)]))
  }

  lemma MainIsShared(a: Disk, b: Disk)
    requires Live(Main) in a.files && LiveFamily(a.files) == LiveFamily(b.files)
    ensures Live(Main) in b.files && a.files[Live(Main)] == b.files[Live(Main)]
  {
    assert Main in LiveFamily(b.files) && LiveFamily(a.files)[Main] == LiveFamily(b.files)[Main];
  }

  lemma ActLast(w: World, p: Pair, who: Which, command: Command, steps: nat)
    requires PairKept(w, p) && LastInstalled(p)
    ensures LastInstalled(Acted(w, p, who, command, steps))
  {
    var q := Acted(w, p, who, command, steps);
    var d := Of(p, who);
    var ops := Cut(Plan(w, d, command), steps);
    PlanSwapsOnly(w, d, command);
    SwapTracks(d, ops);
    TurnKeeps(w, p, Act(who, command, steps));
    MainIsShared(p.first, p.second);
    MainIsShared(q.first, q.second);
  }

  lemma {:induction false} TurnsLast(w: World, p: Pair, turns: seq<Turn>)
    requires PairKept(w, p) && LastInstalled(p) && forall t | t in turns :: t.Act?
    ensures PairKept(w, After(w, p, turns)) && LastInstalled(After(w, p, turns))
    decreases |turns|
  {
    if turns != [] {
      var t := turns[0];
      TurnKeeps(w, p, t);
      ActLast(w, p, t.who, t.command, t.steps);
      TurnsLast(w, Next(w, p, t), turns[1..]);
    }
  }

  /** While the service does not write, a recorded "ok" describes the live file exactly when its operation
  installed what the last swap installed: always for the operation that swapped last, and for the other
  one only if it installed the same bytes. */
  lemma OkDescribesTheLastSwap(w: World, p: Pair, turns: seq<Turn>, who: Which)
    requires Start(p) && Orderly(w, p, turns) && forall t | t in turns :: t.Act?
    requires var d := Of(After(w, p, turns), who); d.state.Some? && d.state.value.writeProbe == Some(Ok)
    ensures var q := After(w, p, turns);
            && q.last.Some?
            && (Describes(Of(q, who)) <==> Of(q, who).history.installed == Of(q, q.last.value).history.installed)
  {
    assert Inv(w, p.first) && Inv(w, p.second);
    TurnsSafe(w, p, turns);
    TurnsLast(w, p, turns);
    var q := After(w, p, turns);
    OkFacts(w, Of(q, who));
    MainIsShared(q.first, q.second);
  }

  lemma ActivationDescribes(w: World, d: Disk, e: Expected, torn: Bytes)
    requires Inv(w, d) && ActivateAccepts(w, d, e) && !w.consolidate(LiveFamily(d.files)).Raised?
    ensures var plan := ActivateSteps(w, d, torn, true);
            var done := Run(d, plan);
            && Swaps(d, plan) && LiveFamily(done.files) == map[Main := d.files[Candidate]]
            && done.state.Some? && done.state.value.writeProbe == Some(Ok) && Describes(done)
  {
    var plan := ActivateSteps(w, d, torn, true);
    ActivateSafe(w, d, InspectInfo(w, d.files[Candidate]).value, torn, true);
    AllInvEnds(w, d, plan);
    ActivateSwapsOnly(w, d, torn, true);
    SwapTracks(d, plan);
    OkFacts(w, Run(d, plan));
  }

  lemma RecordIsOutdated(w: World, d: Disk, installed: Bytes)
    requires Inv(w, d) && d.state.Some? && d.state.value.phase == Activated
    requires Sha(installed) != d.state.value.candidate.sha
    ensures var e := Seen(d, LiveFamily(d.files), map[Main := installed]);
            && e.state == d.state && !Describes(e)
            && (forall ok :: ProbeSteps(e, ok) == [Save(e.state.value.(writeProbe := Some(Stale)))])
            && (forall torn, ok :: RollbackSteps(e, torn, ok) == [] <==> RollbackSteps(d, torn, ok) == [])
  {
    var family := map[Main := installed];
    var e := Seen(d, LiveFamily(d.files), family);
    if LiveFamily(d.files) != family {
      ServiceFiles(d, family);
      assert SameAt(d, e, OldConsistent);
    }
    MainStandsAlone(e.files, installed);
  }

  lemma MainStandsAlone(files: map<Path, Bytes>, installed: Bytes)
    requires LiveFamily(files) == map[Main := installed]
    ensures Live(Main) in files && files[Live(Main)] == installed
    ensures Live(Wal) !in files && Live(Shm) !in files
  {
    assert LiveFamily(files)[Main] == installed && Wal !in LiveFamily(files) && Shm !in LiveFamily(files);
  }

  /** Another operation's activation leaves the first one's record as it was: it still reads "ok" of a file
  that is no longer live. Its probe would say so, and its rollback is refused or accepted as before. */
  lemma ActivationOutdatesTheOther(w: World, p: Pair, e: Expected, torn: Bytes, steps: nat)
    requires PairInv(w, p)
    requires p.first.state.Some? && p.first.state.value.phase == Activated
    requires ActivateAccepts(w, p.second, e) && !w.consolidate(LiveFamily(p.second.files)).Raised?
    requires Sha(p.second.files[Candidate]) != p.first.state.value.candidate.sha
    requires steps == |ActivateSteps(w, p.second, torn, true)|
    ensures var q := Next(w, p, Act(Second, Activate(e, torn, true), steps));
            && q.last == Some(Second)
            && q.second.state.Some? && q.second.state.value.writeProbe == Some(Ok) && Describes(q.second)
            && q.first.state == p.first.state && !Describes(q.first)
            && (forall ok :: ProbeSteps(q.first, ok) == [Save(q.first.state.value.(writeProbe := Some(Stale)))])
            && (forall torn', ok :: RollbackSteps(q.first, torn', ok) == [] <==> RollbackSteps(p.first, torn', ok) == [])
  {
    var d, plan := p.second, ActivateSteps(w, p.second, torn, true);
    assert plan[..steps] == plan;
    ActivationDescribes(w, d, e, torn);
    RecordIsOutdated(w, p.first, d.files[Candidate]);
    ActivationKeepsTheCandidate(w, d, torn, true);
  }

  predicate AllAvoid(ops: seq<Op>, p: Path) {
    forall op | op in ops :: Avoids(op, p)
  }

  lemma PreservingAvoidsCandidate(w: World, info: Info, family: Family, torn: Bytes)
    ensures AllAvoid(ArchiveSteps(info, family, torn), Candidate)
    ensures AllAvoid(AssessSteps(w, family, torn), Candidate)
  {
    assert AllAvoid(CopyFamily(InRaw, family, torn), Candidate) && AllAvoid(CopyFamily(InScratch, family, torn), Candidate);
    assert AllAvoid(Consolidate(w.consolidate(family), torn), Candidate);
    assert AllAvoid(RemoveScratch(family), Candidate);
  }

  lemma InstallingAvoidsCandidate(w: World, info: Info, family: Family, files: map<Path, Bytes>, candidate: Bytes,
                                  torn: Bytes, probeOk: bool)
    ensures AllAvoid(PrepareSteps(w, info, family, candidate, torn), Candidate)
    ensures AllAvoid(InstallSteps(w, info, family, files, probeOk), Candidate)
  {
    assert AllAvoid(Displace(files, false), Candidate);
  }

  lemma ActivationKeepsTheCandidate(w: World, d: Disk, torn: Bytes, probeOk: bool)
    requires Candidate in d.files && InspectInfo(w, d.files[Candidate]).Some?
    ensures Candidate in Run(d, ActivateSteps(w, d, torn, probeOk)).files
  {
    var info, family := InspectInfo(w, d.files[Candidate]).value, LiveFamily(d.files);
    PreservingAvoidsCandidate(w, info, family, torn);
    InstallingAvoidsCandidate(w, info, family, d.files, d.files[Candidate], torn, probeOk);
    AvoidRun(d, ActivateSteps(w, d, torn, probeOk), Candidate);
  }

  lemma StillRefused(d: Disk, e: Disk)
    requires e.state == d.state && e.dirs == d.dirs && SameAt(d, e, OldConsistent) && Live(Main) in d.files
    requires d.state.Some? && d.state.value.phase in {Prepared, Activated}
    requires forall torn, ok :: RollbackSteps(d, torn, ok) == []
    ensures forall torn, ok :: RollbackSteps(e, torn, ok) == []
  {
    forall torn, ok
      ensures RollbackSteps(e, torn, ok) == []
    {
      assert RollbackSteps(d, torn, ok) == [];
    }
  }

  /** The way out of an operation whose rollback is refused, stopped in `prepared` or later: the activation
  of another one succeeds, its record describes the live file, and the stuck operation keeps its record, its
  raw-old and its snapshot, refused as before. */
  lemma AnotherActivationIsAWayOut(w: World, p: Pair, e: Expected, torn: Bytes, steps: nat)
    requires PairKept(w, p) && p.first.state.Some? && p.first.state.value.phase in {Prepared, Activated}
    requires forall torn', ok :: RollbackSteps(p.first, torn', ok) == []
    requires ActivateAccepts(w, p.second, e) && !w.consolidate(LiveFamily(p.second.files)).Raised?
    requires p.second.state.None? && steps == |ActivateSteps(w, p.second, torn, true)|
    ensures var q := Next(w, p, Act(Second, Activate(e, torn, true), steps));
            && q.second.state.Some? && q.second.state.value.writeProbe == Some(Ok) && Describes(q.second)
            && q.first.state == p.first.state && RecordKept(w, q.first)
            && q.first.history.archived == p.first.history.archived
            && (forall torn', ok :: RollbackSteps(q.first, torn', ok) == [])
  {
    var plan := ActivateSteps(w, p.second, torn, true);
    var t := Act(Second, Activate(e, torn, true), steps);
    var q := Next(w, p, t);
    assert plan[..steps] == plan;
    ActivationDescribes(w, p.second, e, torn);
    ActivationKeepsTheCandidate(w, p.second, torn, true);
    TurnKeeps(w, p, t);
    StillRefused(p.first, q.first);
  }
}
