/** The data volume as the offline restore helper sees it, one primitive step at a time.

A volume is a map from path to bytes, the directories that exist, and the recovery record
(`state.json`, replaced atomically). Commands are sequences of primitive steps, so a crash is
a prefix of a command. A durable copy is two steps: the target first holds torn bytes, then
the whole content, which is what an interrupted copy can leave behind.
*/
module Volume {
  import opened Common

  // SHA-256 as an injective function: the digest remembers what it digests.
  datatype Digest = Sha(of: Bytes)

  datatype Member = Main | Wal | Shm

  // A SQLite family: the main file and the sidecars that exist.
  type Family = map<Member, Bytes>

  datatype Path =
    | Live(m: Member)              // /data/openchronicle.db[-wal|-shm]
    | RawOld(m: Member)            // recovery/raw-old/<name>
    | Scratch(m: Member)           // recovery/consolidate-source/<name>
    | Displaced(m: Member)         // recovery/displaced-<name>
    | Forward(m: Member)           // recovery/forward-state/<name>
    | ForwardDisplaced(m: Member)  // recovery/forward-state/displaced-<name>
    | OldConsistent                // recovery/old-consistent.db
    | Candidate                    // .restore-stage/candidate-<hex>.db
    | Incoming                     // .incoming-<operation>.db
    | RollbackCopy                 // .rollback-<operation>.db

  datatype Dir = Recovery | RawDir | ScratchDir | ForwardDir

  datatype Phase = Archiving | Abandoned | Prepared | Activated | RollingBack | RolledBack

  // `write_probe` in the record.
  datatype Probe = Pending | Stale | Ok | Failed

  // What inspecting a standalone database yields, apart from its digest.
  datatype Facts = Facts(schema: nat, projects: string, memories: nat)

  datatype Info = Info(sha: Digest, facts: Facts)

  datatype OldState = Unreadable | Assessed(sha: Digest, rollbackAvailable: bool)

  datatype Retirement = NotRetired | InProgress | Done

  datatype Record = Record(
    phase: Phase,
    rawFiles: map<Member, Digest>,
    candidate: Info,
    oldState: Option<OldState>,
    forwardFiles: map<Member, Digest>,
    writeProbe: Option<Probe>,
    retirement: Retirement)

  /** What has happened so far, kept by the primitives themselves and read by no command.
  - left: the live family as the last swap, probe or service write left it
  - archived: the live family at the moment its archive was first recorded
  - forwarded: the live family at the moment `rolling_back` was recorded
  - installed: the bytes the latest swap put in the main file
  - probed: a write probe succeeded since then, on exactly those bytes */
  datatype History = History(
    left: Family,
    archived: Option<Family>,
    forwarded: Option<Family>,
    installed: Option<Bytes>,
    probed: bool)

  datatype Disk = Disk(files: map<Path, Bytes>, dirs: set<Dir>, state: Option<Record>, history: History)

  datatype Op =
    | Mkdir(dir: Dir)
    | Rmdir(dir: Dir)
    | Put(path: Path, bytes: Bytes)
    | Unlink(path: Path)
    | Rename(path: Path, target: Path)
    | Save(record: Record)
    | ProbeWrite(ok: bool)

  function LiveFamily(files: map<Path, Bytes>): Family {
    map m: Member | Live(m) in files :: files[Live(m)]
  }

  function Digests(family: Family): map<Member, Digest> {
    map m | m in family :: Sha(family[m])
  }

  function Apply(d: Disk, op: Op): Disk {
    match op
    case Mkdir(x) => d.(dirs := d.dirs + {x})
    case Rmdir(x) => d.(dirs := d.dirs - {x})
    case Put(p, b) => d.(files := d.files[p := b])
    case Unlink(p) => d.(files := d.files - {p})
    case Rename(p, q) =>
      if p !in d.files then d else
      var files := (d.files - {p})[q := d.files[p]];
      if q == Live(Main) then
        d.(files := files,
           history := d.history.(left := LiveFamily(files), installed := Some(d.files[p]), probed := false))
      else
        d.(files := files)
    case Save(r) =>
      var first := r.rawFiles != map[] && (d.state.None? || d.state.value.rawFiles == map[]);
      var rolling := r.phase == RollingBack && (d.state.None? || d.state.value.phase != RollingBack);
      d.(state := Some(r),
         history := d.history.(
           archived := if first then Some(LiveFamily(d.files)) else d.history.archived,
           forwarded := if rolling then Some(LiveFamily(d.files)) else d.history.forwarded))
    case ProbeWrite(ok) =>
      // The change is rolled back, so the main file keeps its bytes; closing the last
      // connection removes the empty sidecars a read-only open may have left.
      if !ok then d else
      var files := d.files - {Live(Wal), Live(Shm)};
      d.(files := files,
         history := d.history.(
           left := LiveFamily(files),
           probed := d.history.probed
             || (Live(Main) in d.files && d.history.installed == Some(d.files[Live(Main)]))))
  }

  function Run(d: Disk, ops: seq<Op>): Disk
    decreases |ops|
  {
    if ops == [] then d else Run(Apply(d, ops[0]), ops[1..])
  }

  lemma {:induction false} RunConcat(d: Disk, a: seq<Op>, b: seq<Op>)
    ensures Run(d, a + b) == Run(Run(d, a), b)
    decreases |a|
  {
    if a == [] {
      assert a + b == b;
    } else {
      assert (a + b)[1..] == a[1..] + b;
      RunConcat(Apply(d, a[0]), a[1..], b);
    }
  }

  lemma RunSnoc(d: Disk, ops: seq<Op>, op: Op)
    ensures Run(d, ops + [op]) == Apply(Run(d, ops), op)
  {
    RunConcat(d, ops, [op]);
    assert [op][1..] == [];
  }
}
