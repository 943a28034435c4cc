/** The snapshot directory: staged copies, published pairs of database and manifest, quarantined failures,
  * and pruning, as one system whose creators and pruners interleave step by step and may all crash. */
module BackupCatalog {
  import opened Common
  import Retention

  datatype Part = Database | DatabaseTmp | FailedQuickCheck | FailedVerify | Manifest | ManifestTmp

  datatype Name = Name(id: string, part: Part)

  // What inspection reads off a database, and what a manifest records
  datatype Inspection = Inspection(size: nat, sha: string, counts: seq<int>)

  datatype Meta = Meta(id: string, seen: Inspection)

  // A file holds database bytes, or a manifest that may be half written
  datatype Content = Data(bytes: Bytes) | Note(meta: Option<Meta>)

  type Dir = map<Name, Content>

  // quick_check on a staged copy, and the catalog's full inspection: arbitrary functions of the bytes
  datatype World = World(quickCheck: Bytes -> bool, inspect: Bytes -> Option<Inspection>)

  // Creation, one stage per change to the directory
  datatype Stage = Begin | Copying | Staged | Placed | Inspected | Noting | Noted | Published | Undoing | Dropping

  datatype Process =
    | Creating(id: string, bytes: Bytes, torn: Bytes, at: Stage)
    | Pruning(ids: seq<string>, databaseGone: bool)

  datatype System = System(dir: Dir, running: map<nat, Process>, used: set<string>)

  datatype Step =
    | Create(pid: nat, id: string, bytes: Bytes, torn: Bytes)
    | Prune(pid: nat, ids: seq<string>)
    | Advance(pid: nat, ok: bool)
    | Crash

  function Rename(dir: Dir, from: Name, to: Name): Dir {
    if from in dir then (dir - {from})[to := dir[from]] else dir
  }

  function Finished(dir: Dir): (Dir, Option<Process>) {
    (dir, None)
  }

  // How many stages can follow
  function Rank(at: Stage): nat {
    match at
    case Begin => 9
    case Copying => 8
    case Staged => 7
    case Placed => 6
    case Inspected => 5
    case Noting => 4
    case Noted => 3
    case Published => 2
    case Undoing => 1
    case Dropping => 0
  }

  /** One step of creating a snapshot. When `ok` is false, the operation of this step raised. */
  function CreateStep(w: World, dir: Dir, p: Process, ok: bool): (r: (Dir, Option<Process>))
    requires p.Creating?
    ensures r.1.Some? ==> r.1.value.Creating? && Rank(r.1.value.at) < Rank(p.at)
  {
    var db, tmp := Name(p.id, Database), Name(p.id, DatabaseTmp);
    var manifest, note := Name(p.id, Manifest), Name(p.id, ManifestTmp);
    match p.at
    case Begin => if ok then (dir[tmp := Data(p.torn)], Some(p.(at := Copying))) else Finished(dir)
    case Copying => if ok then (dir[tmp := Data(p.bytes)], Some(p.(at := Staged))) else Finished(dir - {tmp})
    case Staged =>
      if !ok then Finished(dir - {tmp})
      else if !w.quickCheck(p.bytes) then Finished(Rename(dir, tmp, Name(p.id, FailedQuickCheck)))
      else (Rename(dir, tmp, db), Some(p.(at := Placed)))
    case Placed =>
      if !ok then Finished(dir)
      else if w.inspect(p.bytes).None? then Finished(Rename(dir, db, Name(p.id, FailedVerify)))
      else (dir, Some(p.(at := Inspected)))
    case Inspected => if ok then (dir[note := Note(None)], Some(p.(at := Noting))) else (dir, Some(p.(at := Undoing)))
    case Noting =>
      if ok && w.inspect(p.bytes).Some?
      then (dir[note := Note(Some(Meta(p.id, w.inspect(p.bytes).value)))], Some(p.(at := Noted)))
      else (dir, Some(p.(at := Undoing)))
    case Noted => if ok then (Rename(dir, note, manifest), Some(p.(at := Published))) else (dir, Some(p.(at := Undoing)))
    case Published => if ok then Finished(dir - {note}) else (dir, Some(p.(at := Undoing)))
    case Undoing => (dir - {note}, Some(p.(at := Dropping)))
    case Dropping => Finished(if ok then dir - {db} else dir)
  }

  /** One step of pruning: the database goes first, then its manifest; an error skips to the next. */
  function PruneStep(dir: Dir, p: Process, ok: bool): (Dir, Option<Process>)
    requires p.Pruning?
  {
    if p.ids == [] then Finished(dir)
    else if !ok then (dir, Some(Pruning(p.ids[1..], false)))
    else if !p.databaseGone then (dir - {Name(p.ids[0], Database)}, Some(Pruning(p.ids, true)))
    else (dir - {Name(p.ids[0], Manifest)}, Some(Pruning(p.ids[1..], false)))
  }

  predicate IsPublished(dir: Dir, id: string) {
    Name(id, Database) in dir && Name(id, Manifest) in dir
  }

  /** Pruning picks from the published snapshots; which of them is up to retention. */
  predicate AllPublished(dir: Dir, ids: seq<string>) {
    forall id :: id in ids ==> IsPublished(dir, id)
  }

  predicate Enabled(s: System, step: Step) {
    match step
    case Create(pid, id, _, _) => pid !in s.running && id !in s.used
    case Prune(pid, ids) => pid !in s.running && AllPublished(s.dir, ids)
    case Advance(pid, _) => pid in s.running
    case Crash => true
  }

  function Moved(w: World, dir: Dir, p: Process, ok: bool): (Dir, Option<Process>) {
    if p.Creating? then CreateStep(w, dir, p, ok) else PruneStep(dir, p, ok)
  }

  function Next(w: World, s: System, step: Step): System
    requires Enabled(s, step)
  {
    match step
    case Create(pid, id, bytes, torn) =>
      System(s.dir, s.running[pid := Creating(id, bytes, torn, Begin)], s.used + {id})
    case Prune(pid, ids) => System(s.dir, s.running[pid := Pruning(ids, false)], s.used)
    case Advance(pid, ok) =>
      var (dir, p) := Moved(w, s.dir, s.running[pid], ok);
      System(dir, if p.Some? then s.running[pid := p.value] else s.running - {pid}, s.used)
    case Crash => System(s.dir, map[], s.used)
  }

  predicate Runs(w: World, s: System, steps: seq<Step>)
    decreases |steps|
  {
    steps == [] || (Enabled(s, steps[0]) && Runs(w, Next(w, s, steps[0]), steps[1..]))
  }

  function After(w: World, s: System, steps: seq<Step>): System
    requires Runs(w, s, steps)
    decreases |steps|
  {
    if steps == [] then s else After(w, Next(w, s, steps[0]), steps[1..])
  }

  const EMPTY := System(map[], map[], {})

  // What callers see

  /** The catalog lists an artifact when both files are there and the manifest is whole and its own. */
  predicate Listed(dir: Dir, id: string) {
    && Name(id, Database) in dir && Name(id, Manifest) in dir
    && var note := dir[Name(id, Manifest)];
       note.Note? && note.meta.Some? && note.meta.value.id == id
  }

  /** Verification inspects the database again and compares everything the manifest recorded. */
  predicate Verifies(w: World, dir: Dir, id: string) {
    && Listed(dir, id)
    && var db := dir[Name(id, Database)];
       db.Data? && w.inspect(db.bytes) == Some(dir[Name(id, Manifest)].meta.value.seen)
  }

  // The invariant

  /** A manifest is never half written, and describes the sound database beside it. */
  ghost predicate Sound(w: World, dir: Dir, id: string) {
    Name(id, Manifest) in dir ==>
      && dir[Name(id, Manifest)].Note? && dir[Name(id, Manifest)].meta.Some?
      && dir[Name(id, Manifest)].meta.value.id == id
      && (Name(id, Database) in dir ==>
            && dir[Name(id, Database)].Data?
            && w.quickCheck(dir[Name(id, Database)].bytes)
            && w.inspect(dir[Name(id, Database)].bytes) == Some(dir[Name(id, Manifest)].meta.value.seen))
  }

  predicate Unpublished(at: Stage) {
    at !in {Published, Undoing, Dropping}
  }

  ghost predicate CreatorFacts(w: World, dir: Dir, p: Process)
    requires p.Creating?
  {
    var db, manifest := Name(p.id, Database), Name(p.id, Manifest);
    && (Unpublished(p.at) ==> manifest !in dir)
    && (p.at == Staged ==> Name(p.id, DatabaseTmp) in dir && dir[Name(p.id, DatabaseTmp)] == Data(p.bytes))
    && (p.at in {Placed, Inspected, Noting, Noted} ==> db in dir && dir[db] == Data(p.bytes) && w.quickCheck(p.bytes))
    && (p.at in {Inspected, Noting, Noted} ==> w.inspect(p.bytes).Some?)
    && (p.at == Noted ==>
          && Name(p.id, ManifestTmp) in dir
          && dir[Name(p.id, ManifestTmp)] == Note(Some(Meta(p.id, w.inspect(p.bytes).value))))
  }

  /** A pruner only ever holds ids of published snapshots, or of snapshots whose database is gone. */
  ghost predicate PrunerFacts(dir: Dir, p: Process)
    requires p.Pruning?
  {
    && (forall id :: id in p.ids ==> Name(id, Manifest) in dir || Name(id, Database) !in dir)
    && (p.databaseGone ==> p.ids != [] && Name(p.ids[0], Database) !in dir)
  }

  ghost predicate Facts(w: World, dir: Dir, p: Process) {
    if p.Creating? then CreatorFacts(w, dir, p) else PrunerFacts(dir, p)
  }

  /** Two processes do not work on one snapshot before it is published. */
  ghost predicate Apart(p: Process, q: Process) {
    && (p.Creating? && q.Creating? ==> p.id != q.id)
    && (p.Creating? && q.Pruning? && Unpublished(p.at) ==> p.id !in q.ids)
    && (q.Creating? && p.Pruning? && Unpublished(q.at) ==> q.id !in p.ids)
  }

  ghost predicate Known(used: set<string>, p: Process) {
    if p.Creating? then p.id in used else forall id :: id in p.ids ==> id in used
  }

  ghost predicate Inv(w: World, s: System) {
    && (forall name :: name in s.dir ==> name.id in s.used)
    && (forall id :: Sound(w, s.dir, id))
    && (forall pid :: pid in s.running ==> Facts(w, s.dir, s.running[pid]) && Known(s.used, s.running[pid]))
    && (forall pid, other :: pid in s.running && other in s.running && pid != other ==>
          Apart(s.running[pid], s.running[other]))
  }

  // One process moves

  /** Only files of this snapshot change. */
  ghost predicate OnlyTouches(before: Dir, after: Dir, id: string) {
    forall name: Name :: name.id != id ==>
      (name in before <==> name in after) && (name in before ==> before[name] == after[name])
  }

  lemma CreateStepIsSafe(w: World, dir: Dir, p: Process, ok: bool)
    requires p.Creating? && CreatorFacts(w, dir, p) && Sound(w, dir, p.id)
    ensures var (after, q) := CreateStep(w, dir, p, ok);
            && OnlyTouches(dir, after, p.id) && Sound(w, after, p.id)
            && (q.Some? ==> q.value.Creating? && q.value.id == p.id && CreatorFacts(w, after, q.value))
  {
  }

  lemma PruneStepIsSafe(w: World, dir: Dir, p: Process, ok: bool)
    requires p.Pruning? && PrunerFacts(dir, p) && forall id :: Sound(w, dir, id)
    ensures var (after, q) := PruneStep(dir, p, ok);
            && (p.ids == [] ==> after == dir)
            && (p.ids != [] ==> OnlyTouches(dir, after, p.ids[0]) && Sound(w, after, p.ids[0]))
            && (q.Some? ==> q.value.Pruning? && PrunerFacts(after, q.value) && forall id :: id in q.value.ids ==> id in p.ids)
  {
    var (after, q) := PruneStep(dir, p, ok);
    assert p.ids != [] ==> Sound(w, dir, p.ids[0]);
    if q.Some? {
      forall id | id in q.value.ids
        ensures Name(id, Manifest) in after || Name(id, Database) !in after
      {
        assert id in p.ids;
      }
    }
  }

  // What it means for the others

  lemma OthersSeeCreation(w: World, dir: Dir, p: Process, ok: bool, o: Process)
    requires p.Creating? && CreatorFacts(w, dir, p) && Facts(w, dir, o) && Apart(p, o)
    ensures var (after, q) := CreateStep(w, dir, p, ok);
            && Facts(w, after, o) && (q.Some? ==> Apart(q.value, o) && Apart(o, q.value))
  {
    var (after, q) := CreateStep(w, dir, p, ok);
    if o.Pruning? {
      forall id | id in o.ids
        ensures Name(id, Manifest) in after || Name(id, Database) !in after
      {
        assert Name(id, Manifest) in dir || Name(id, Database) !in dir;
      }
    }
  }

  lemma OthersSeePruning(w: World, dir: Dir, p: Process, ok: bool, o: Process)
    requires p.Pruning? && PrunerFacts(dir, p) && Facts(w, dir, o) && Apart(p, o)
    ensures var (after, q) := PruneStep(dir, p, ok);
            && Facts(w, after, o) && (q.Some? ==> Apart(q.value, o) && Apart(o, q.value))
  {
    var (after, q) := PruneStep(dir, p, ok);
    if o.Pruning? {
      forall id | id in o.ids
        ensures Name(id, Manifest) in after || Name(id, Database) !in after
      {
        assert Name(id, Manifest) in dir || Name(id, Database) !in dir;
      }
    }
  }

  lemma StaysSound(w: World, before: Dir, after: Dir, touched: string)
    requires OnlyTouches(before, after, touched) && Sound(w, after, touched)
    requires forall id :: Sound(w, before, id)
    ensures forall id :: Sound(w, after, id)
  {
    forall id
      ensures Sound(w, after, id)
    {
      if id != touched {
        assert Sound(w, before, id);
        var db, manifest := Name(id, Database), Name(id, Manifest);
        assert db in before <==> db in after;
        assert manifest in before <==> manifest in after;
      }
    }
  }

  lemma MoveIsSafe(w: World, s: System, pid: nat, ok: bool)
    requires Inv(w, s) && pid in s.running
    ensures var (dir, q) := Moved(w, s.dir, s.running[pid], ok);
            && (forall name :: name in dir ==> name.id in s.used)
            && (forall id :: Sound(w, dir, id))
            && (q.Some? ==> Facts(w, dir, q.value) && Known(s.used, q.value))
  {
    var p := s.running[pid];
    assert Facts(w, s.dir, p) && Known(s.used, p);
    var (dir, q) := Moved(w, s.dir, p, ok);
    if p.Creating? {
      assert Sound(w, s.dir, p.id);
      CreateStepIsSafe(w, s.dir, p, ok);
      StaysSound(w, s.dir, dir, p.id);
    } else {
      PruneStepIsSafe(w, s.dir, p, ok);
      if p.ids != [] {
        StaysSound(w, s.dir, dir, p.ids[0]);
      }
    }
  }

  lemma OthersAreSafe(w: World, s: System, pid: nat, ok: bool, other: nat)
    requires Inv(w, s) && pid in s.running && other in s.running && other != pid
    ensures var (dir, q) := Moved(w, s.dir, s.running[pid], ok);
            && Facts(w, dir, s.running[other])
            && (q.Some? ==> Apart(q.value, s.running[other]) && Apart(s.running[other], q.value))
  {
    var p, o := s.running[pid], s.running[other];
    assert Facts(w, s.dir, p) && Facts(w, s.dir, o) && Apart(s.running[pid], s.running[other]);
    if p.Creating? {
      OthersSeeCreation(w, s.dir, p, ok, o);
    } else {
      OthersSeePruning(w, s.dir, p, ok, o);
    }
  }

  lemma AdvanceIsSafe(w: World, s: System, pid: nat, ok: bool)
    requires Inv(w, s) && pid in s.running
    ensures Inv(w, Next(w, s, Advance(pid, ok)))
  {
    var next := Next(w, s, Advance(pid, ok));
    MoveIsSafe(w, s, pid, ok);
    forall other | other in s.running && other != pid
      ensures Facts(w, next.dir, s.running[other]) && Known(s.used, s.running[other])
      ensures pid in next.running ==>
        Apart(next.running[pid], s.running[other]) && Apart(s.running[other], next.running[pid])
    {
      OthersAreSafe(w, s, pid, ok, other);
    }
    forall a, b | a in next.running && b in next.running && a != b
      ensures Apart(next.running[a], next.running[b])
    {
      if a != pid && b != pid {
        assert Apart(s.running[a], s.running[b]);
      }
    }
  }

  // The other steps

  lemma PruneIsSafe(w: World, s: System, pid: nat, ids: seq<string>)
    requires Inv(w, s) && Enabled(s, Prune(pid, ids))
    ensures Inv(w, Next(w, s, Prune(pid, ids)))
  {
    var next := Next(w, s, Prune(pid, ids));
    var p := Pruning(ids, false);
    forall id | id in ids
      ensures Name(id, Manifest) in s.dir && id in s.used
    {
      assert IsPublished(s.dir, id);
      assert Name(id, Manifest) in s.dir;
    }
    forall other | other in s.running
      ensures Apart(p, s.running[other]) && Apart(s.running[other], p)
    {
      assert Facts(w, s.dir, s.running[other]);
    }
    forall a, b | a in next.running && b in next.running && a != b
      ensures Apart(next.running[a], next.running[b])
    {
      if a != pid && b != pid {
        assert Apart(s.running[a], s.running[b]);
      }
    }
  }

  lemma CreateIsSafe(w: World, s: System, pid: nat, id: string, bytes: Bytes, torn: Bytes)
    requires Inv(w, s) && Enabled(s, Create(pid, id, bytes, torn))
    ensures Inv(w, Next(w, s, Create(pid, id, bytes, torn)))
  {
    var next := Next(w, s, Create(pid, id, bytes, torn));
    var p := Creating(id, bytes, torn, Begin);
    assert Name(id, Manifest) !in s.dir;
    forall other | other in s.running
      ensures Apart(p, s.running[other]) && Apart(s.running[other], p)
      ensures Facts(w, s.dir, s.running[other]) && Known(next.used, s.running[other])
    {
      assert Known(s.used, s.running[other]);
    }
    forall a, b | a in next.running && b in next.running && a != b
      ensures Apart(next.running[a], next.running[b])
    {
      if a != pid && b != pid {
        assert Apart(s.running[a], s.running[b]);
      }
    }
  }

  lemma NextIsSafe(w: World, s: System, step: Step)
    requires Inv(w, s) && Enabled(s, step)
    ensures Inv(w, Next(w, s, step))
  {
    match step
    case Create(pid, id, bytes, torn) => CreateIsSafe(w, s, pid, id, bytes, torn);
    case Prune(pid, ids) => PruneIsSafe(w, s, pid, ids);
    case Advance(pid, ok) => AdvanceIsSafe(w, s, pid, ok);
    case Crash =>
  }

  lemma {:induction false} AfterIsSafe(w: World, s: System, steps: seq<Step>)
    requires Inv(w, s) && Runs(w, s, steps)
    ensures Inv(w, After(w, s, steps))
    decreases |steps|
  {
    if steps != [] {
      NextIsSafe(w, s, steps[0]);
      AfterIsSafe(w, Next(w, s, steps[0]), steps[1..]);
    }
  }

  // The main results

  /** Whatever creators and pruners did, and wherever they crashed: every listed artifact passes
    * verification, and its database passed quick_check. */
  lemma ListedAlwaysVerifies(w: World, steps: seq<Step>, id: string)
    requires Runs(w, EMPTY, steps)
    ensures var dir := After(w, EMPTY, steps).dir;
            Listed(dir, id) ==> Verifies(w, dir, id) && w.quickCheck(dir[Name(id, Database)].bytes)
    ensures var dir := After(w, EMPTY, steps).dir;
            Name(id, Database) in dir && Name(id, Manifest) in dir ==>
              && dir[Name(id, Database)].Data?
              && w.inspect(dir[Name(id, Database)].bytes).Some?
              && dir[Name(id, Manifest)] == Note(Some(Meta(id, w.inspect(dir[Name(id, Database)].bytes).value)))
  {
    AfterIsSafe(w, EMPTY, steps);
    assert Sound(w, After(w, EMPTY, steps).dir, id);
  }

  /** A published pair is always listed: no reader meets half a manifest. */
  lemma PublishedIsListed(w: World, steps: seq<Step>, id: string)
    requires Runs(w, EMPTY, steps)
    ensures var dir := After(w, EMPTY, steps).dir;
            IsPublished(dir, id) <==> Listed(dir, id)
    ensures var dir := After(w, EMPTY, steps).dir;
            Listed(dir, id) <==> Name(id, Database) in dir && Name(id, Manifest) in dir
  {
    AfterIsSafe(w, EMPTY, steps);
    assert Sound(w, After(w, EMPTY, steps).dir, id);
  }

  predicate StaysListed(before: Dir, after: Dir, id: string)
    requires Listed(before, id)
  {
    && Listed(after, id)
    && after[Name(id, Database)] == before[Name(id, Database)]
    && after[Name(id, Manifest)] == before[Name(id, Manifest)]
  }

  lemma CreationUnlists(w: World, dir: Dir, p: Process, ok: bool, id: string)
    requires p.Creating? && CreatorFacts(w, dir, p) && Listed(dir, id)
    ensures StaysListed(dir, CreateStep(w, dir, p, ok).0, id) || (p.id == id && p.at == Dropping)
  {
  }

  lemma PruningUnlists(dir: Dir, p: Process, ok: bool, id: string)
    requires p.Pruning? && Listed(dir, id)
    ensures StaysListed(dir, PruneStep(dir, p, ok).0, id) || (p.ids != [] && p.ids[0] == id)
  {
  }

  /** Only pruning, or a creation that failed while publishing, ever takes an artifact off the list; and
    * nothing rewrites one that stays. */
  lemma OnlyPruningUnlists(w: World, s: System, step: Step, id: string)
    requires Inv(w, s) && Enabled(s, step) && Listed(s.dir, id)
    ensures StaysListed(s.dir, Next(w, s, step).dir, id)
         || (step.Advance?
             && var p := s.running[step.pid];
                if p.Pruning? then p.ids != [] && p.ids[0] == id else p.id == id && p.at == Dropping)
  {
    if step.Advance? {
      var p := s.running[step.pid];
      assert Facts(w, s.dir, p);
      if p.Creating? {
        CreationUnlists(w, s.dir, p, step.ok, id);
      } else {
        PruningUnlists(s.dir, p, step.ok, id);
      }
    }
  }

  /** A database without a manifest that no creator is working on is never touched again. */
  predicate LeftBehind(s: System, id: string) {
    && id in s.used && Name(id, Database) in s.dir && Name(id, Manifest) !in s.dir
    && forall pid :: pid in s.running && s.running[pid].Creating? ==> s.running[pid].id != id
  }

  lemma LeftBehindStays(w: World, s: System, step: Step, id: string)
    requires Inv(w, s) && Enabled(s, step) && LeftBehind(s, id)
    ensures var next := Next(w, s, step);
            LeftBehind(next, id) && next.dir[Name(id, Database)] == s.dir[Name(id, Database)]
  {
    if step.Advance? {
      var p := s.running[step.pid];
      assert Facts(w, s.dir, p);
      if p.Pruning? && p.ids != [] {
        assert p.ids[0] in p.ids;
      }
    }
  }

  lemma {:induction false} UnpublishedIsNeverPruned(w: World, s: System, steps: seq<Step>, id: string)
    requires Inv(w, s) && Runs(w, s, steps) && LeftBehind(s, id)
    ensures var end := After(w, s, steps);
            LeftBehind(end, id) && end.dir[Name(id, Database)] == s.dir[Name(id, Database)]
    decreases |steps|
  {
    if steps != [] {
      NextIsSafe(w, s, steps[0]);
      LeftBehindStays(w, s, steps[0], id);
      UnpublishedIsNeverPruned(w, Next(w, s, steps[0]), steps[1..], id);
    }
  }

  // No creation of another snapshot, and no pruning, touches a quarantined copy.
  lemma MoveKeepsEvidence(w: World, dir: Dir, p: Process, ok: bool, name: Name)
    requires name.part in {FailedQuickCheck, FailedVerify} && name in dir && (p.Creating? ==> p.id != name.id)
    ensures var (after, q) := Moved(w, dir, p, ok);
            && name in after && after[name] == dir[name]
            && (q.Some? && q.value.Creating? ==> p.Creating? && q.value.id == p.id)
  {
  }

  /** What failed a check is evidence about the live database, and stays as it was. */
  lemma EvidenceStays(w: World, s: System, step: Step, id: string, part: Part)
    requires Inv(w, s) && Enabled(s, step) && part in {FailedQuickCheck, FailedVerify}
    requires Name(id, part) in s.dir
    requires forall pid :: pid in s.running && s.running[pid].Creating? ==> s.running[pid].id != id
    ensures var next := Next(w, s, step);
            Name(id, part) in next.dir && next.dir[Name(id, part)] == s.dir[Name(id, part)]
    ensures forall pid :: pid in Next(w, s, step).running && Next(w, s, step).running[pid].Creating? ==>
              Next(w, s, step).running[pid].id != id
  {
    if step.Advance? {
      MoveKeepsEvidence(w, s.dir, s.running[step.pid], step.ok, Name(id, part));
    }
  }

  lemma {:induction false} EvidenceIsKept(w: World, s: System, steps: seq<Step>, id: string, part: Part)
    requires Inv(w, s) && Runs(w, s, steps) && part in {FailedQuickCheck, FailedVerify}
    requires Name(id, part) in s.dir
    requires forall pid :: pid in s.running && s.running[pid].Creating? ==> s.running[pid].id != id
    ensures var end := After(w, s, steps);
            Name(id, part) in end.dir && end.dir[Name(id, part)] == s.dir[Name(id, part)]
    decreases |steps|
  {
    if steps != [] {
      NextIsSafe(w, s, steps[0]);
      EvidenceStays(w, s, steps[0], id, part);
      EvidenceIsKept(w, Next(w, s, steps[0]), steps[1..], id, part);
    }
  }

  // What retention prunes

  function IdsOf(snapshots: seq<Retention.Snapshot>): seq<string> {
    seq(|snapshots|, i requires 0 <= i < |snapshots| => snapshots[i].id)
  }

  lemma ListedArePublished(dir: Dir, listing: seq<Retention.Snapshot>,
                           doomed: seq<Retention.Snapshot>, kept: set<Retention.Snapshot>)
    requires AllPublished(dir, IdsOf(listing))
    requires forall i, j :: 0 <= i < j < |listing| ==> listing[i].id != listing[j].id
    requires forall x :: x in doomed ==> x in listing && x !in kept
    requires forall x :: x in kept ==> x in listing
    ensures AllPublished(dir, IdsOf(doomed)) && forall x :: x in kept ==> x.id !in IdsOf(doomed)
  {
    forall id | id in IdsOf(doomed)
      ensures IsPublished(dir, id) && forall x :: x in kept ==> x.id != id
    {
      var k :| 0 <= k < |doomed| && doomed[k].id == id;
      assert doomed[k] in listing;
      var i :| 0 <= i < |listing| && listing[i] == doomed[k];
      assert IdsOf(listing)[i] == id;
      forall x | x in kept
        ensures x.id != id
      {
        var j :| 0 <= j < |listing| && listing[j] == x;
        assert i != j;
      }
    }
  }

  /** Retention, given a listing of published snapshots, is one such pruning: what it deletes is published,
    * and it deletes nothing of a snapshot it keeps. */
  lemma RetentionPrunesPublished(dir: Dir, listing: seq<Retention.Snapshot>, keep: nat)
    returns (doomed: seq<Retention.Snapshot>, kept: set<Retention.Snapshot>)
    requires AllPublished(dir, IdsOf(listing))
    requires forall i, j :: 0 <= i < j < |listing| ==> listing[i].id != listing[j].id
    ensures kept == Retention.Kept(Retention.SortNewestFirst(listing), keep)
    ensures doomed == Retention.Doomed(Retention.SortNewestFirst(listing), kept)
    ensures AllPublished(dir, IdsOf(doomed)) && forall x :: x in kept ==> x.id !in IdsOf(doomed)
  {
    doomed, kept := Retention.DoomedWereListed(listing, keep);
    ListedArePublished(dir, listing, doomed, kept);
  }

  // A creation that nothing disturbs

  function RunCreate(w: World, dir: Dir, p: Process): Dir
    requires p.Creating?
    decreases Rank(p.at)
  {
    var (next, q) := CreateStep(w, dir, p, true);
    if q.None? then next else RunCreate(w, next, q.value)
  }

  /** What an undisturbed creation leaves: a listed pair, or the copy under the name of the check it failed. */
  lemma CreateOutcome(w: World, dir: Dir, id: string, bytes: Bytes, torn: Bytes)
    requires forall part :: Name(id, part) !in dir
    ensures RunCreate(w, dir, Creating(id, bytes, torn, Begin))
         == if !w.quickCheck(bytes) then dir[Name(id, FailedQuickCheck) := Data(bytes)]
            else if w.inspect(bytes).None? then dir[Name(id, FailedVerify) := Data(bytes)]
            else dir[Name(id, Database) := Data(bytes)]
                    [Name(id, Manifest) := Note(Some(Meta(id, w.inspect(bytes).value)))]
  {
    var tmp, db := Name(id, DatabaseTmp), Name(id, Database);
    var p := Creating(id, bytes, torn, Begin);
    var staged := dir[tmp := Data(bytes)];
    assert dir[tmp := Data(torn)][tmp := Data(bytes)] == staged;
    assert RunCreate(w, dir, p) == RunCreate(w, dir[tmp := Data(torn)], p.(at := Copying))
        == RunCreate(w, staged, p.(at := Staged));
    assert staged - {tmp} == dir;
    if w.quickCheck(bytes) {
      var placed := dir[db := Data(bytes)];
      assert RunCreate(w, staged, p.(at := Staged)) == RunCreate(w, placed, p.(at := Placed));
      if w.inspect(bytes).Some? {
        PublishOutcome(w, placed, p.(at := Inspected));
      } else {
        assert placed - {db} == dir;
      }
    }
  }

  lemma PublishOutcome(w: World, dir: Dir, p: Process)
    requires p.Creating? && p.at == Inspected && w.inspect(p.bytes).Some?
    requires Name(p.id, ManifestTmp) !in dir
    ensures RunCreate(w, dir, p) == dir[Name(p.id, Manifest) := Note(Some(Meta(p.id, w.inspect(p.bytes).value)))]
  {
    var note, manifest := Name(p.id, ManifestTmp), Name(p.id, Manifest);
    var whole := Note(Some(Meta(p.id, w.inspect(p.bytes).value)));
    assert dir[note := Note(None)][note := whole] == dir[note := whole];
    assert RunCreate(w, dir, p) == RunCreate(w, dir[note := Note(None)], p.(at := Noting))
        == RunCreate(w, dir[note := whole], p.(at := Noted));
    assert dir[note := whole] - {note} == dir;
    assert RunCreate(w, dir[note := whole], p.(at := Noted)) == RunCreate(w, dir[manifest := whole], p.(at := Published));
    assert dir[manifest := whole] - {note} == dir[manifest := whole];
  }

  // A creation in which one step raises

  function RunFailing(w: World, dir: Dir, p: Process, fails: Stage): Dir
    requires p.Creating?
    decreases Rank(p.at)
  {
    var (next, q) := CreateStep(w, dir, p, p.at != fails);
    if q.None? then next else RunFailing(w, next, q.value, fails)
  }

  lemma FailingSteps(w: World, dir: Dir, p: Process, fails: Stage)
    requires p.Creating?
    ensures var (next, q) := CreateStep(w, dir, p, p.at != fails);
            RunFailing(w, dir, p, fails) == if q.None? then next else RunFailing(w, next, q.value, fails)
  {
  }

  lemma FailsWhileStaging(w: World, dir: Dir, id: string, bytes: Bytes, torn: Bytes, fails: Stage)
    requires Name(id, DatabaseTmp) !in dir && w.quickCheck(bytes)
    ensures var p := Creating(id, bytes, torn, Begin);
            RunFailing(w, dir, p, fails)
            == if fails in {Begin, Copying, Staged} then dir
               else RunFailing(w, dir[Name(id, Database) := Data(bytes)], p.(at := Placed), fails)
  {
    var tmp, p := Name(id, DatabaseTmp), Creating(id, bytes, torn, Begin);
    var half, staged := dir[tmp := Data(torn)], dir[tmp := Data(bytes)];
    FailingSteps(w, dir, p, fails);
    FailingSteps(w, half, p.(at := Copying), fails);
    FailingSteps(w, staged, p.(at := Staged), fails);
    assert half - {tmp} == dir && staged - {tmp} == dir && half[tmp := Data(bytes)] == staged;
  }

  lemma Undone(w: World, dir: Dir, p: Process, fails: Stage)
    requires p.Creating? && fails !in {Undoing, Dropping}
    ensures RunFailing(w, dir, p.(at := Undoing), fails) == dir - {Name(p.id, ManifestTmp)} - {Name(p.id, Database)}
  {
    FailingSteps(w, dir, p.(at := Undoing), fails);
    FailingSteps(w, dir - {Name(p.id, ManifestTmp)}, p.(at := Dropping), fails);
  }

  lemma FailsWhilePublishing(w: World, dir: Dir, p: Process, fails: Stage)
    requires p.Creating? && p.at == Placed && w.inspect(p.bytes).Some?
    requires Name(p.id, ManifestTmp) !in dir && fails in {Placed, Inspected, Noting, Noted, Published}
    ensures RunFailing(w, dir, p, fails)
         == match fails
            case Placed => dir
            case Published => dir[Name(p.id, Manifest) := Note(Some(Meta(p.id, w.inspect(p.bytes).value)))] - {Name(p.id, Database)}
            case _ => dir - {Name(p.id, Database)}
  {
    var note, manifest, db := Name(p.id, ManifestTmp), Name(p.id, Manifest), Name(p.id, Database);
    var whole := Note(Some(Meta(p.id, w.inspect(p.bytes).value)));
    var half, noted := dir[note := Note(None)], dir[note := whole];
    assert half[note := whole] == noted && noted - {note} == dir && half - {note} == dir && dir - {note} == dir;
    FailingSteps(w, dir, p, fails);
    FailingSteps(w, dir, p.(at := Inspected), fails);
    FailingSteps(w, half, p.(at := Noting), fails);
    FailingSteps(w, noted, p.(at := Noted), fails);
    FailingSteps(w, dir[manifest := whole], p.(at := Published), fails);
    assert dir[manifest := whole] - {note} == dir[manifest := whole];
    Undone(w, dir, p, fails);
    Undone(w, half, p, fails);
    Undone(w, noted, p, fails);
    Undone(w, dir[manifest := whole], p, fails);
  }

  /** What a creation leaves when one of its steps raises, everything else going well: nothing at all, but for
    * the copy in its final place when only its inspection raised, and for a manifest without a database when
    * the step after its publication did. */
  lemma FailedCreationOutcome(w: World, dir: Dir, id: string, bytes: Bytes, torn: Bytes, fails: Stage)
    requires forall part :: Name(id, part) !in dir
    requires w.quickCheck(bytes) && w.inspect(bytes).Some? && fails !in {Undoing, Dropping}
    ensures RunFailing(w, dir, Creating(id, bytes, torn, Begin), fails)
         == match fails
            case Placed => dir[Name(id, Database) := Data(bytes)]
            case Published => dir[Name(id, Manifest) := Note(Some(Meta(id, w.inspect(bytes).value)))]
            case _ => dir
  {
    var db, p := Name(id, Database), Creating(id, bytes, torn, Begin);
    var placed := dir[db := Data(bytes)];
    FailsWhileStaging(w, dir, id, bytes, torn, fails);
    if fails !in {Begin, Copying, Staged} {
      FailsWhilePublishing(w, placed, p.(at := Placed), fails);
      assert placed - {db} == dir;
      var whole := Note(Some(Meta(id, w.inspect(bytes).value)));
      assert placed[Name(id, Manifest) := whole] - {db} == dir[Name(id, Manifest) := whole];
    }
  }

  // A pruning in which the removal of some files raises

  function RunPrune(dir: Dir, ids: seq<string>, stuck: set<Name>): Dir
    decreases |ids|
  {
    if ids == [] then dir
    else
      var (next, q) := PruneStep(dir, Pruning(ids, false), Name(ids[0], Database) !in stuck);
      if q.None? then next
      else if !q.value.Pruning? || !q.value.databaseGone then RunPrune(next, ids[1..], stuck)
      else RunPrune(PruneStep(next, q.value, Name(ids[0], Manifest) !in stuck).0, ids[1..], stuck)
  }

  /** A pruning removes the database of every snapshot it was given, but for those that will not go, and then
    * the manifest of every one whose database went. Nothing else changes. */
  lemma {:induction false} PruneOutcome(dir: Dir, ids: seq<string>, stuck: set<Name>)
    ensures forall name: Name :: name in RunPrune(dir, ids, stuck) <==>
              && name in dir
              && !(name.id in ids && Name(name.id, Database) !in stuck
                   && (name.part == Database || (name.part == Manifest && name !in stuck)))
    ensures forall name: Name :: name in RunPrune(dir, ids, stuck) ==> RunPrune(dir, ids, stuck)[name] == dir[name]
    decreases |ids|
  {
    if ids != [] {
      assert ids == [ids[0]] + ids[1..];
      var db, manifest := Name(ids[0], Database), Name(ids[0], Manifest);
      if db in stuck {
        PruneOutcome(dir, ids[1..], stuck);
      } else if manifest in stuck {
        PruneOutcome(dir - {db}, ids[1..], stuck);
      } else {
        PruneOutcome(dir - {db} - {manifest}, ids[1..], stuck);
      }
    }
  }
}
