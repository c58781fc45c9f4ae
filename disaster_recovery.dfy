/** The backup store with its retention policy and restore path, and the
    recovery monitor that escalates sustained health-check failures
    (backup/disaster_recovery.py).

    The backup directory is two maps: the sidecar metadata files by backup id
    and the archive files by path. The SHA-256 digest is an uninterpreted
    function fixed when the manager is built; the clock, the timestamp text,
    the file-existence checks, the archive bytes the tar writer produces and
    the outcome of extraction are parameters. */
module DisasterRecovery {
  import opened Common

  type Content = seq<bv8>
  type Digest = string

  /** Timestamps are microseconds since the epoch. */
  const MicrosPerDay: int := 86_400_000_000

  const DefaultRetentionDays: int := 7
  const DefaultMaxBackups: int := 10
  const FallbackBackupDir: string := "/tmp/grokapp_backups"

  /** The configuration dictionary a caller may pass; a key left out is None. */
  datatype ConfigInput = ConfigInput(
    backupDir: Option<string>,
    retentionDays: Option<int>,
    maxBackups: Option<int>,
    criticalPaths: seq<string>)

  datatype Config = Config(
    backupDir: string,
    retentionDays: int,
    maxBackups: int,
    criticalPaths: seq<string>)

  function DefaultConfig(): Config {
    Config("/Users/jlow/.gemini/antigravity/scratch/GrokApp/backup/snapshots",
           DefaultRetentionDays, DefaultMaxBackups,
           ["security/", "monitoring/", "config/", ".env", "requirements.txt"])
  }

  /** No configuration means the default one; a missing key means its default. */
  function ResolveConfig(input: Option<ConfigInput>): Config {
    match input
    case None => DefaultConfig()
    case Some(c) =>
      Config(c.backupDir.GetOr(FallbackBackupDir),
             c.retentionDays.GetOr(DefaultRetentionDays),
             c.maxBackups.GetOr(DefaultMaxBackups),
             c.criticalPaths)
  }

  /** The sidecar `{backup_id}_metadata.json` record. */
  datatype BackupMetadata = BackupMetadata(
    backupId: string,
    backupType: string,
    timestamp: int,
    path: string,
    sizeBytes: nat,
    checksum: Digest,
    filesIncluded: seq<string>,
    status: string)

  function BackupName(backupType: string, stamp: string): string {
    "grokapp_" + backupType + "_" + stamp
  }

  function ArchivePath(dir: string, name: string): string {
    dir + "/" + name + ".tar.gz"
  }

  /** Distinct backup ids never share an archive file. */
  lemma ArchivePathInjective(dir: string, a: string, b: string)
    requires ArchivePath(dir, a) == ArchivePath(dir, b)
    ensures a == b
  {
    var s := ArchivePath(dir, a);
    var lo := |dir| + 1;
    assert |a| == |b|;
    assert a == s[lo..lo + |a|];
    assert b == ArchivePath(dir, b)[lo..lo + |b|];
  }

  /** Every metadata file names its own id and the archive beside it. */
  ghost predicate Consistent(metas: map<string, BackupMetadata>, dir: string) {
    forall id | id in metas :: metas[id].backupId == id && metas[id].path == ArchivePath(dir, id)
  }

  lemma ConsistentMinus(metas: map<string, BackupMetadata>, dir: string, d: set<string>)
    requires Consistent(metas, dir)
    ensures Consistent(metas - d, dir)
  {
  }

  /** The critical paths that exist, in configuration order. */
  function ExistingPaths(paths: seq<string>, present: string -> bool): seq<string> {
    if |paths| == 0 then []
    else ExistingPaths(paths[..|paths| - 1], present)
         + (if present(paths[|paths| - 1]) then [paths[|paths| - 1]] else [])
  }

  /** A path is archived iff it is configured and exists; none is invented. */
  lemma {:induction false} ExistingPathsMembers(paths: seq<string>, present: string -> bool)
    ensures |ExistingPaths(paths, present)| <= |paths|
    ensures forall p :: p in ExistingPaths(paths, present) <==> p in paths && present(p)
  {
    if |paths| > 0 {
      var init := paths[..|paths| - 1];
      ExistingPathsMembers(init, present);
      assert paths == init + [paths[|paths| - 1]];
    }
  }

  /** Filtering commutes with concatenation, so the configured order is kept. */
  lemma {:induction false} ExistingPathsAppend(ps: seq<string>, qs: seq<string>, present: string -> bool)
    ensures ExistingPaths(ps + qs, present) == ExistingPaths(ps, present) + ExistingPaths(qs, present)
    decreases |qs|
  {
    if |qs| > 0 {
      var qi := qs[..|qs| - 1];
      assert (ps + qs)[..|ps + qs| - 1] == ps + qi;
      ExistingPathsAppend(ps, qi, present);
    } else {
      assert ps + qs == ps;
    }
  }

  // ---------------------------------------------------------------------------
  // Listing and retention, stated over a newest-first listing.

  ghost predicate NewestFirst(bs: seq<BackupMetadata>) {
    forall i, j | 0 <= i < j < |bs| :: bs[i].timestamp >= bs[j].timestamp
  }

  /** `bs` lists every metadata record exactly once, newest first. */
  ghost predicate IsListing(bs: seq<BackupMetadata>, metas: map<string, BackupMetadata>) {
    && |bs| == |metas|
    && (forall i | 0 <= i < |bs| :: bs[i].backupId in metas && metas[bs[i].backupId] == bs[i])
    && (forall i, j | 0 <= i < j < |bs| :: bs[i].backupId != bs[j].backupId)
    && NewestFirst(bs)
  }

  ghost function IdsOf(bs: seq<BackupMetadata>): set<string> {
    set i | 0 <= i < |bs| :: bs[i].backupId
  }

  lemma IdsOfCons(bs: seq<BackupMetadata>)
    requires |bs| > 0
    ensures IdsOf(bs) == {bs[0].backupId} + IdsOf(bs[1..])
  {
    var t := bs[1..];
    forall x | x in IdsOf(bs) ensures x in {bs[0].backupId} + IdsOf(t) {
      var i :| 0 <= i < |bs| && bs[i].backupId == x;
      if i > 0 { assert t[i - 1].backupId == x; }
    }
    forall x | x in IdsOf(t) ensures x in IdsOf(bs) {
      var i :| 0 <= i < |t| && t[i].backupId == x;
      assert bs[i + 1].backupId == x;
    }
  }

  lemma {:induction false} DistinctIdsCount(bs: seq<BackupMetadata>)
    requires forall i, j | 0 <= i < j < |bs| :: bs[i].backupId != bs[j].backupId
    ensures |IdsOf(bs)| == |bs|
  {
    if |bs| > 0 {
      var t := bs[1..];
      forall i, j | 0 <= i < j < |t| ensures t[i].backupId != t[j].backupId {
        assert t[i] == bs[i + 1] && t[j] == bs[j + 1];
      }
      DistinctIdsCount(t);
      IdsOfCons(bs);
      forall i | 0 <= i < |t| ensures t[i].backupId != bs[0].backupId {
        assert t[i] == bs[i + 1];
      }
      assert bs[0].backupId !in IdsOf(t);
    }
  }

  /** A listing names every record of the store: as many distinct ids as
      records, all of them keys. */
  lemma ListingCovers(bs: seq<BackupMetadata>, metas: map<string, BackupMetadata>, id: string)
    requires IsListing(bs, metas) && id in metas
    ensures exists i | 0 <= i < |bs| :: bs[i].backupId == id
  {
    DistinctIdsCount(bs);
    if id !in IdsOf(bs) {
      assert IdsOf(bs) <= metas.Keys - {id};
      assert |metas.Keys - {id}| == |metas| - 1;
      SubsetCard(IdsOf(bs), metas.Keys - {id});
      assert false;
    }
  }

  lemma {:induction false} SubsetCard(a: set<string>, b: set<string>)
    requires a <= b
    ensures |a| <= |b|
    decreases |b|
  {
    if a != {} {
      var x :| x in a;
      SubsetCard(a - {x}, b - {x});
    }
  }

  function Cutoff(now: int, retentionDays: int): int {
    now - retentionDays * MicrosPerDay
  }

  /** The record at rank `rank` survives cleanup. */
  predicate Keep(rank: int, m: BackupMetadata, cutoff: int, maxBackups: int) {
    rank < maxBackups && m.timestamp > cutoff
  }

  ghost function DeletedIds(bs: seq<BackupMetadata>, n: nat, cutoff: int, maxBackups: int): set<string>
    requires n <= |bs|
  {
    set i | 0 <= i < n && !Keep(i, bs[i], cutoff, maxBackups) :: bs[i].backupId
  }

  ghost function DeletedPaths(bs: seq<BackupMetadata>, n: nat, cutoff: int, maxBackups: int): set<string>
    requires n <= |bs|
  {
    set i | 0 <= i < n && !Keep(i, bs[i], cutoff, maxBackups) :: bs[i].path
  }

  lemma DeletedStep(bs: seq<BackupMetadata>, n: nat, cutoff: int, maxBackups: int)
    requires n < |bs|
    ensures DeletedIds(bs, n + 1, cutoff, maxBackups) ==
            DeletedIds(bs, n, cutoff, maxBackups) + (if Keep(n, bs[n], cutoff, maxBackups) then {} else {bs[n].backupId})
    ensures DeletedPaths(bs, n + 1, cutoff, maxBackups) ==
            DeletedPaths(bs, n, cutoff, maxBackups) + (if Keep(n, bs[n], cutoff, maxBackups) then {} else {bs[n].path})
  {
    if !Keep(n, bs[n], cutoff, maxBackups) {
      assert bs[n].backupId in DeletedIds(bs, n + 1, cutoff, maxBackups);
      assert bs[n].path in DeletedPaths(bs, n + 1, cutoff, maxBackups);
    }
  }

  /** Number of leading records newer than the cutoff. */
  function FreshPrefix(bs: seq<BackupMetadata>, cutoff: int): nat {
    if |bs| == 0 || bs[0].timestamp <= cutoff then 0 else 1 + FreshPrefix(bs[1..], cutoff)
  }

  /** Number of records a cleanup pass keeps from a newest-first listing. */
  function RetainedCount(bs: seq<BackupMetadata>, cutoff: int, maxBackups: int): nat {
    var f := FreshPrefix(bs, cutoff);
    if maxBackups <= 0 then 0 else if f < maxBackups then f else maxBackups
  }

  /** On a newest-first listing, the records newer than the cutoff are a prefix. */
  lemma {:induction false} FreshPrefixExact(bs: seq<BackupMetadata>, cutoff: int)
    requires NewestFirst(bs)
    ensures FreshPrefix(bs, cutoff) <= |bs|
    ensures forall i | 0 <= i < |bs| :: bs[i].timestamp > cutoff <==> i < FreshPrefix(bs, cutoff)
  {
    if |bs| > 0 {
      if bs[0].timestamp <= cutoff {
        assert forall i | 0 <= i < |bs| :: bs[i].timestamp <= bs[0].timestamp;
      } else {
        FreshPrefixExact(bs[1..], cutoff);
        forall i | 0 < i < |bs|
          ensures bs[i].timestamp > cutoff <==> i < FreshPrefix(bs, cutoff)
        {
          assert bs[1..][i - 1] == bs[i];
        }
      }
    }
  }

  /** The retention rule (rank below `max_backups` AND newer than the cutoff)
      keeps exactly a prefix of the newest-first listing, of at most
      `max_backups` records; a non-positive `max_backups` keeps nothing. */
  lemma RetentionKeepsPrefix(bs: seq<BackupMetadata>, cutoff: int, maxBackups: int)
    requires NewestFirst(bs)
    ensures RetainedCount(bs, cutoff, maxBackups) <= |bs|
    ensures maxBackups <= 0 ==> RetainedCount(bs, cutoff, maxBackups) == 0
    ensures maxBackups > 0 ==> RetainedCount(bs, cutoff, maxBackups) <= maxBackups
    ensures forall i | 0 <= i < |bs| ::
              Keep(i, bs[i], cutoff, maxBackups) <==> i < RetainedCount(bs, cutoff, maxBackups)
  {
    FreshPrefixExact(bs, cutoff);
  }

  /** A record whose timestamp is not after the cutoff is deleted whatever its rank. */
  lemma ExpiredRecordIsDeleted(bs: seq<BackupMetadata>, i: nat, cutoff: int, maxBackups: int)
    requires i < |bs| && bs[i].timestamp <= cutoff
    ensures bs[i].backupId in DeletedIds(bs, |bs|, cutoff, maxBackups)
    ensures bs[i].path in DeletedPaths(bs, |bs|, cutoff, maxBackups)
  {
    assert !Keep(i, bs[i], cutoff, maxBackups);
  }

  /** Under a consistent store, an archive is deleted exactly when its record is. */
  lemma DeletedPathIffDeletedId(bs: seq<BackupMetadata>, metas: map<string, BackupMetadata>,
                                dir: string, cutoff: int, maxBackups: int, id: string)
    requires Consistent(metas, dir)
    requires forall i | 0 <= i < |bs| :: bs[i].backupId in metas && metas[bs[i].backupId] == bs[i]
    ensures ArchivePath(dir, id) in DeletedPaths(bs, |bs|, cutoff, maxBackups)
        <==> id in DeletedIds(bs, |bs|, cutoff, maxBackups)
  {
    if ArchivePath(dir, id) in DeletedPaths(bs, |bs|, cutoff, maxBackups) {
      var i :| 0 <= i < |bs| && !Keep(i, bs[i], cutoff, maxBackups) && bs[i].path == ArchivePath(dir, id);
      ArchivePathInjective(dir, bs[i].backupId, id);
    }
    if id in DeletedIds(bs, |bs|, cutoff, maxBackups) {
      var i :| 0 <= i < |bs| && !Keep(i, bs[i], cutoff, maxBackups) && bs[i].backupId == id;
      assert bs[i].path == ArchivePath(dir, id);
    }
  }

  /** Where a record goes in a newest-first listing: after every strictly newer one. */
  function InsertionPoint(bs: seq<BackupMetadata>, t: int): (p: nat)
    ensures p <= |bs|
    ensures forall i | 0 <= i < p :: bs[i].timestamp > t
    ensures p < |bs| ==> bs[p].timestamp <= t
  {
    if |bs| == 0 || bs[0].timestamp <= t then 0 else 1 + InsertionPoint(bs[1..], t)
  }

  /** `bs` with `r` placed at index `p`. */
  function InsertAt(bs: seq<BackupMetadata>, r: BackupMetadata, p: nat): (out: seq<BackupMetadata>)
    requires p <= |bs|
    ensures |out| == |bs| + 1
    ensures forall i | 0 <= i < |out| :: out[i] == if i < p then bs[i] else if i == p then r else bs[i - 1]
  {
    seq(|bs| + 1, i requires 0 <= i <= |bs| => if i < p then bs[i] else if i == p then r else bs[i - 1])
  }

  lemma InsertKeepsNewestFirst(bs: seq<BackupMetadata>, r: BackupMetadata, p: nat)
    requires NewestFirst(bs) && p <= |bs|
    requires forall i | 0 <= i < p :: bs[i].timestamp > r.timestamp
    requires p < |bs| ==> bs[p].timestamp <= r.timestamp
    ensures NewestFirst(InsertAt(bs, r, p))
  {
  }

  /** The loop state of a listing under construction: the ids in `done`,
      each once, newest first. */
  ghost predicate PartialListing(bs: seq<BackupMetadata>, metas: map<string, BackupMetadata>, done: set<string>) {
    && |bs| == |done|
    && (forall i | 0 <= i < |bs| :: bs[i].backupId in done && bs[i].backupId in metas && metas[bs[i].backupId] == bs[i])
    && (forall i, j | 0 <= i < j < |bs| :: bs[i].backupId != bs[j].backupId)
    && NewestFirst(bs)
  }

  lemma CompleteListing(bs: seq<BackupMetadata>, metas: map<string, BackupMetadata>)
    requires PartialListing(bs, metas, metas.Keys)
    ensures IsListing(bs, metas)
  {
  }

  /** Inserting one more record at its insertion point keeps a partial listing. */
  lemma InsertIntoListing(bs: seq<BackupMetadata>, metas: map<string, BackupMetadata>,
                          done: set<string>, k: string, p: nat)
    requires PartialListing(bs, metas, done)
    requires k in metas && metas[k].backupId == k && k !in done
    requires p == InsertionPoint(bs, metas[k].timestamp)
    ensures PartialListing(InsertAt(bs, metas[k], p), metas, done + {k})
  {
    var r := metas[k];
    var next := InsertAt(bs, r, p);
    InsertKeepsNewestFirst(bs, r, p);
    assert |done + {k}| == |done| + 1;
    forall i | 0 <= i < |next|
      ensures next[i].backupId in done + {k} && next[i].backupId in metas && metas[next[i].backupId] == next[i]
    {
      if i != p {
        assert next[i] == bs[if i < p then i else i - 1];
      }
    }
    forall i, j | 0 <= i < j < |next| ensures next[i].backupId != next[j].backupId {
      if i != p && j != p {
        assert next[i] == bs[if i < p then i else i - 1] && next[j] == bs[if j < p then j else j - 1];
      } else if i == p {
        assert next[j] == bs[j - 1];
      } else {
        assert next[i] == bs[i];
      }
    }
  }

  lemma MapMinusStep<V>(m: map<string, V>, d: set<string>, x: string)
    ensures (m - d) - {x} == m - (d + {x})
  {
  }

  /** After deleting the records a listing marks, exactly its first
      `RetainedCount` entries survive; a non-positive `max_backups` leaves
      the store empty. */
  lemma SurvivorsArePrefix(bs: seq<BackupMetadata>, metas: map<string, BackupMetadata>, cutoff: int, maxBackups: int)
    requires IsListing(bs, metas)
    ensures forall i | 0 <= i < |bs| ::
              bs[i].backupId in metas - DeletedIds(bs, |bs|, cutoff, maxBackups) <==> i < RetainedCount(bs, cutoff, maxBackups)
    ensures maxBackups <= 0 ==> metas - DeletedIds(bs, |bs|, cutoff, maxBackups) == map[]
  {
    RetentionKeepsPrefix(bs, cutoff, maxBackups);
    var deleted := DeletedIds(bs, |bs|, cutoff, maxBackups);
    forall j | 0 <= j < |bs|
      ensures bs[j].backupId in deleted <==> !Keep(j, bs[j], cutoff, maxBackups)
    {
      if bs[j].backupId in deleted {
        var k :| 0 <= k < |bs| && !Keep(k, bs[k], cutoff, maxBackups) && bs[k].backupId == bs[j].backupId;
        assert k == j;
      }
    }
    if maxBackups <= 0 {
      forall id | id in metas ensures id in deleted {
        ListingCovers(bs, metas, id);
        var j :| 0 <= j < |bs| && bs[j].backupId == id;
      }
    }
  }

  /** The newest record of a store. */
  ghost predicate IsNewest(id: string, metas: map<string, BackupMetadata>) {
    id in metas && forall other | other in metas :: metas[other].timestamp <= metas[id].timestamp
  }

  ghost predicate IsOldest(id: string, metas: map<string, BackupMetadata>) {
    id in metas && forall other | other in metas :: metas[other].timestamp >= metas[id].timestamp
  }

  /** The first and last entries of a listing are the newest and the oldest record. */
  lemma ListingEnds(bs: seq<BackupMetadata>, metas: map<string, BackupMetadata>)
    requires IsListing(bs, metas) && |bs| > 0
    ensures IsNewest(bs[0].backupId, metas)
    ensures IsOldest(bs[|bs| - 1].backupId, metas)
  {
    forall other | other in metas
      ensures metas[other].timestamp <= bs[0].timestamp
      ensures metas[other].timestamp >= bs[|bs| - 1].timestamp
    {
      ListingCovers(bs, metas, other);
      var i :| 0 <= i < |bs| && bs[i].backupId == other;
      assert metas[other] == bs[i];
    }
  }

  /** The report of `get_recovery_status`, without its clock reading. */
  datatype RecoveryStatus = RecoveryStatus(
    status: string,
    totalBackups: nat,
    latestBackup: Option<BackupMetadata>,
    oldestBackup: Option<BackupMetadata>,
    backupDir: string,
    retentionDays: int)

  function StatusOf(bs: seq<BackupMetadata>, dir: string, retentionDays: int): RecoveryStatus {
    RecoveryStatus(
      if |bs| > 0 then "healthy" else "no_backups",
      |bs|,
      if |bs| > 0 then Some(bs[0]) else None,
      if |bs| > 0 then Some(bs[|bs| - 1]) else None,
      dir,
      retentionDays)
  }

  class DisasterRecoveryManager {
    const config: Config
    const checksumOf: Content -> Digest
    /** The `*_metadata.json` files, by backup id. */
    var metas: map<string, BackupMetadata>
    /** The archive files, by path. */
    var archives: map<string, Content>
    var lastBackupTime: Option<int>
    var recoveryPoints: seq<BackupMetadata>

    ghost predicate Valid()
      reads this
    {
      Consistent(metas, config.backupDir)
    }

    /** Opens a manager over a backup directory that already holds `metas0`
        and `archives0` (the directory survives between runs). */
    constructor (input: Option<ConfigInput>, checksumOf: Content -> Digest,
                 metas0: map<string, BackupMetadata>, archives0: map<string, Content>)
      requires Consistent(metas0, ResolveConfig(input).backupDir)
      ensures Valid()
      ensures config == ResolveConfig(input) && this.checksumOf == checksumOf
      ensures metas == metas0 && archives == archives0
      ensures lastBackupTime == None && recoveryPoints == []
    {
      this.config := ResolveConfig(input);
      this.checksumOf := checksumOf;
      metas := metas0;
      archives := archives0;
      lastBackupTime := None;
      recoveryPoints := [];
    }

    /** Recomputes the archive digest and compares it with the stored one. */
    function VerifyBackup(id: string): (ok: bool)
      reads this
      ensures id !in metas ==> !ok
      ensures id in metas && metas[id].path !in archives ==> !ok
      ensures ok ==> checksumOf(archives[metas[id].path]) == metas[id].checksum
    {
      id in metas && metas[id].path in archives
      && checksumOf(archives[metas[id].path]) == metas[id].checksum
    }

    /** Every metadata record, newest first; records with equal timestamps
        come in directory order, which is left open. */
    method ListBackups() returns (bs: seq<BackupMetadata>)
      requires Valid()
      ensures IsListing(bs, metas)
    {
      bs := [];
      var remaining := metas.Keys;
      ghost var done: set<string> := {};
      while remaining != {}
        invariant remaining !! done && remaining + done == metas.Keys
        invariant PartialListing(bs, metas, done)
        decreases remaining
      {
        var k :| k in remaining;
        var r := metas[k];
        var p := InsertionPoint(bs, r.timestamp);
        InsertIntoListing(bs, metas, done, k, p);
        bs := InsertAt(bs, r, p);
        remaining := remaining - {k};
        done := done + {k};
      }
      CompleteListing(bs, metas);
    }

    /** Deletes, archive and metadata together, every record whose rank in
        the newest-first listing is not below `max_backups` or whose
        timestamp is not after `now - retention_days`. */
    method CleanupOldBackups(now: int) returns (ghost listing: seq<BackupMetadata>)
      requires Valid()
      modifies this`metas, this`archives
      ensures Valid()
      ensures IsListing(listing, old(metas))
      ensures metas == old(metas) - DeletedIds(listing, |listing|, Cutoff(now, config.retentionDays), config.maxBackups)
      ensures archives == old(archives) - DeletedPaths(listing, |listing|, Cutoff(now, config.retentionDays), config.maxBackups)
      ensures forall i | 0 <= i < |listing| ::
                listing[i].backupId in metas <==> i < RetainedCount(listing, Cutoff(now, config.retentionDays), config.maxBackups)
      ensures config.maxBackups <= 0 ==> metas == map[]
    {
      var cutoff := Cutoff(now, config.retentionDays);
      var maxBackups := config.maxBackups;
      var backups := ListBackups();
      listing := backups;
      DeleteUnkept(backups, cutoff, maxBackups);
      SurvivorsArePrefix(backups, old(metas), cutoff, maxBackups);
      ConsistentMinus(old(metas), config.backupDir, DeletedIds(backups, |backups|, cutoff, maxBackups));
    }

    /** The deletion loop of a cleanup pass over a given listing. */
    method DeleteUnkept(backups: seq<BackupMetadata>, cutoff: int, maxBackups: int)
      modifies this`metas, this`archives
      ensures metas == old(metas) - DeletedIds(backups, |backups|, cutoff, maxBackups)
      ensures archives == old(archives) - DeletedPaths(backups, |backups|, cutoff, maxBackups)
    {
      var i := 0;
      while i < |backups|
        invariant 0 <= i <= |backups|
        invariant metas == old(metas) - DeletedIds(backups, i, cutoff, maxBackups)
        invariant archives == old(archives) - DeletedPaths(backups, i, cutoff, maxBackups)
      {
        DeletedStep(backups, i, cutoff, maxBackups);
        if !Keep(i, backups[i], cutoff, maxBackups) {
          MapMinusStep(old(archives), DeletedPaths(backups, i, cutoff, maxBackups), backups[i].path);
          MapMinusStep(old(metas), DeletedIds(backups, i, cutoff, maxBackups), backups[i].backupId);
          archives := archives - {backups[i].path};
          metas := metas - {backups[i].backupId};
        } else {
          assert DeletedIds(backups, i + 1, cutoff, maxBackups) == DeletedIds(backups, i, cutoff, maxBackups);
          assert DeletedPaths(backups, i + 1, cutoff, maxBackups) == DeletedPaths(backups, i, cutoff, maxBackups);
        }
        i := i + 1;
      }
    }

    /** Archives the configured critical paths that exist, stamps the record
        with the digest of the written archive, saves the metadata, appends
        it to the recovery points and runs cleanup. */
    method CreateBackup(backupType: string, stamp: string, now: int,
                        present: string -> bool, archive: Content)
      returns (meta: BackupMetadata, ghost listing: seq<BackupMetadata>)
      requires Valid()
      modifies this`metas, this`archives, this`lastBackupTime, this`recoveryPoints
      ensures Valid()
      ensures meta.backupId == BackupName(backupType, stamp) && meta.backupType == backupType
      ensures meta.timestamp == now && meta.status == "completed"
      ensures meta.path == ArchivePath(config.backupDir, meta.backupId)
      ensures meta.sizeBytes == |archive| && meta.checksum == checksumOf(archive)
      ensures meta.filesIncluded == ExistingPaths(config.criticalPaths, present)
      ensures recoveryPoints == old(recoveryPoints) + [meta] && lastBackupTime == Some(now)
      ensures IsListing(listing, old(metas)[meta.backupId := meta])
      ensures metas == old(metas)[meta.backupId := meta]
                       - DeletedIds(listing, |listing|, Cutoff(now, config.retentionDays), config.maxBackups)
      ensures archives == old(archives)[meta.path := archive]
                          - DeletedPaths(listing, |listing|, Cutoff(now, config.retentionDays), config.maxBackups)
      ensures forall i | 0 <= i < |listing| ::
                listing[i].backupId in metas <==> i < RetainedCount(listing, Cutoff(now, config.retentionDays), config.maxBackups)
      ensures meta.backupId in metas ==> VerifyBackup(meta.backupId)
    {
      var name := BackupName(backupType, stamp);
      var path := ArchivePath(config.backupDir, name);
      var paths := config.criticalPaths;
      var files: seq<string> := [];
      var i := 0;
      while i < |paths|
        invariant 0 <= i <= |paths|
        invariant files == ExistingPaths(paths[..i], present)
      {
        assert paths[..i + 1][..i] == paths[..i];
        if present(paths[i]) {
          files := files + [paths[i]];
        }
        i := i + 1;
      }
      assert paths[..i] == paths;
      archives := archives[path := archive];
      meta := BackupMetadata(name, backupType, now, path, |archive|, checksumOf(archive), files, "completed");
      metas := metas[name := meta];
      lastBackupTime := Some(now);
      recoveryPoints := recoveryPoints + [meta];
      ghost var written := archives;
      listing := CleanupOldBackups(now);
      if name in metas {
        var cutoff := Cutoff(now, config.retentionDays);
        DeletedPathIffDeletedId(listing, old(metas)[name := meta], config.backupDir, cutoff, config.maxBackups, name);
        assert path in written;
      }
    }

    /** Verifies the backup, takes a `pre_restore` backup, then extracts the
        archive whose path it read before that backup ran; an error while
        extracting (`extracted` false, or the archive gone) yields false.
        As written, the pre-restore backup's cleanup may delete the very
        backup being restored. */
    method RestoreBackup(id: string, stamp: string, now: int, present: string -> bool,
                         archive: Content, extracted: bool)
      returns (ok: bool, ghost pre: BackupMetadata, ghost listing: seq<BackupMetadata>)
      requires Valid()
      modifies this`metas, this`archives, this`lastBackupTime, this`recoveryPoints
      ensures Valid()
      ensures !old(VerifyBackup(id)) ==>
                !ok && metas == old(metas) && archives == old(archives)
                && recoveryPoints == old(recoveryPoints) && lastBackupTime == old(lastBackupTime)
      ensures old(VerifyBackup(id)) ==>
                && pre.backupId == BackupName("pre_restore", stamp) && pre.backupType == "pre_restore"
                && pre.timestamp == now && pre.path == ArchivePath(config.backupDir, pre.backupId)
                && pre.checksum == checksumOf(archive) && pre.sizeBytes == |archive|
                && pre.filesIncluded == ExistingPaths(config.criticalPaths, present) && pre.status == "completed"
                && recoveryPoints == old(recoveryPoints) + [pre]
                && lastBackupTime == Some(now)
      ensures old(VerifyBackup(id)) ==>
                && IsListing(listing, old(metas)[pre.backupId := pre])
                && metas == old(metas)[pre.backupId := pre]
                            - DeletedIds(listing, |listing|, Cutoff(now, config.retentionDays), config.maxBackups)
                && archives == old(archives)[pre.path := archive]
                               - DeletedPaths(listing, |listing|, Cutoff(now, config.retentionDays), config.maxBackups)
      ensures old(VerifyBackup(id)) ==> (ok <==> extracted && id in metas)
      ensures ok ==> old(VerifyBackup(id)) && extracted
      ensures old(VerifyBackup(id)) && id != BackupName("pre_restore", stamp)
              && old(metas[id].timestamp) <= Cutoff(now, config.retentionDays) ==>
                !ok && id !in metas && old(metas[id].path) !in archives
    {
      listing := [];
      pre := BackupMetadata("", "", 0, "", 0, checksumOf(archive), [], "");
      if !VerifyBackup(id) {
        return false, pre, listing;
      }
      var target := metas[id];
      var path := target.path;
      var meta;
      meta, listing := CreateBackup("pre_restore", stamp, now, present, archive);
      pre := meta;
      ok := path in archives && extracted;
      var cutoff := Cutoff(now, config.retentionDays);
      ghost var m1 := old(metas)[pre.backupId := pre];
      assert id in m1;
      DeletedPathIffDeletedId(listing, m1, config.backupDir, cutoff, config.maxBackups, id);
      if id != pre.backupId && target.timestamp <= cutoff {
        ListingCovers(listing, m1, id);
        ghost var j :| 0 <= j < |listing| && listing[j].backupId == id;
        assert listing[j] == target;
        ExpiredRecordIsDeleted(listing, j, cutoff, config.maxBackups);
      }
    }

    /** Restore that reads the archive before the pre-restore backup, so that
        the backup's cleanup cannot take the restore target away. */
    method RestoreBackupKeepingTarget(id: string, stamp: string, now: int, present: string -> bool,
                                      archive: Content, extracted: bool)
      returns (ok: bool, restored: Content, ghost pre: BackupMetadata, ghost listing: seq<BackupMetadata>)
      requires Valid()
      modifies this`metas, this`archives, this`lastBackupTime, this`recoveryPoints
      ensures Valid()
      ensures !old(VerifyBackup(id)) ==>
                !ok && metas == old(metas) && archives == old(archives)
                && recoveryPoints == old(recoveryPoints) && lastBackupTime == old(lastBackupTime)
      ensures old(VerifyBackup(id)) ==>
                && pre.backupId == BackupName("pre_restore", stamp) && pre.backupType == "pre_restore"
                && pre.timestamp == now && pre.path == ArchivePath(config.backupDir, pre.backupId)
                && pre.checksum == checksumOf(archive) && pre.sizeBytes == |archive|
                && pre.filesIncluded == ExistingPaths(config.criticalPaths, present) && pre.status == "completed"
                && recoveryPoints == old(recoveryPoints) + [pre]
                && lastBackupTime == Some(now)
      ensures old(VerifyBackup(id)) ==>
                && IsListing(listing, old(metas)[pre.backupId := pre])
                && metas == old(metas)[pre.backupId := pre]
                            - DeletedIds(listing, |listing|, Cutoff(now, config.retentionDays), config.maxBackups)
                && archives == old(archives)[pre.path := archive]
                               - DeletedPaths(listing, |listing|, Cutoff(now, config.retentionDays), config.maxBackups)
      ensures ok <==> old(VerifyBackup(id)) && extracted
      ensures ok ==> checksumOf(restored) == old(metas[id].checksum)
    {
      listing := [];
      pre := BackupMetadata("", "", 0, "", 0, checksumOf(archive), [], "");
      if !VerifyBackup(id) {
        return false, [], pre, listing;
      }
      var target := metas[id];
      restored := archives[target.path];
      var meta;
      meta, listing := CreateBackup("pre_restore", stamp, now, present, archive);
      pre := meta;
      ok := extracted;
    }

    /** `healthy` iff some backup exists, with the newest and oldest record. */
    method GetRecoveryStatus() returns (st: RecoveryStatus)
      requires Valid()
      ensures st.status == (if |metas| > 0 then "healthy" else "no_backups")
      ensures st.totalBackups == |metas|
      ensures st.latestBackup.Some? <==> |metas| > 0
      ensures st.oldestBackup.Some? <==> |metas| > 0
      ensures st.latestBackup.Some? ==>
                IsNewest(st.latestBackup.value.backupId, metas)
                && metas[st.latestBackup.value.backupId] == st.latestBackup.value
      ensures st.oldestBackup.Some? ==>
                IsOldest(st.oldestBackup.value.backupId, metas)
                && metas[st.oldestBackup.value.backupId] == st.oldestBackup.value
      ensures st.backupDir == config.backupDir && st.retentionDays == config.retentionDays
    {
      var bs := ListBackups();
      if |bs| > 0 {
        ListingEnds(bs, metas);
      }
      st := StatusOf(bs, config.backupDir, config.retentionDays);
    }
  }

  // ---------------------------------------------------------------------------
  // Recovery monitor

  datatype RecoveryAction =
    | NoAction(reason: string)
    | Monitoring(failures: seq<string>, count: nat)
    | RecoveryInitiated(backupAvailable: string, timestamp: int, requiresManualConfirmation: bool)
    | RecoveryFailed(reason: string)

  /** Names of the failing checks of one batch, in the batch's order. */
  function Failures(health: seq<(string, bool)>): seq<string> {
    if |health| == 0 then []
    else (if health[0].1 then [] else [health[0].0]) + Failures(health[1..])
  }

  /** A batch has failures iff one of its entries is false; each failure is
      the name of a false entry. */
  lemma {:induction false} FailuresExact(health: seq<(string, bool)>)
    ensures |Failures(health)| == 0 <==> forall i | 0 <= i < |health| :: health[i].1
    ensures forall k | k in Failures(health) :: exists i | 0 <= i < |health| :: health[i] == (k, false)
  {
    if |health| > 0 {
      FailuresExact(health[1..]);
      forall k | k in Failures(health)
        ensures exists i | 0 <= i < |health| :: health[i] == (k, false)
      {
        if k in Failures(health[1..]) {
          var i :| 0 <= i < |health[1..]| && health[1..][i] == (k, false);
          assert health[i + 1] == (k, false);
        } else {
          assert health[0] == (k, false);
        }
      }
      if forall i | 0 < i < |health| :: health[i].1 {
        assert forall i | 0 <= i < |health[1..]| :: health[1..][i].1 by {
          forall i | 0 <= i < |health[1..]| ensures health[1..][i].1 {
            assert health[1..][i] == health[i + 1];
          }
        }
      }
    }
  }

  class AutoRecoveryMonitor {
    const drManager: DisasterRecoveryManager
    var failureCount: nat
    var failureThreshold: int

    constructor (drManager: DisasterRecoveryManager)
      ensures this.drManager == drManager
      ensures failureCount == 0 && failureThreshold == 3
    {
      this.drManager := drManager;
      failureCount := 0;
      failureThreshold := 3;
    }

    /** Proposes a restore of the newest backup and resets the count; with
        no backup at all it reports failure and leaves the count alone. */
    method TriggerRecovery(now: int) returns (action: RecoveryAction)
      requires drManager.Valid()
      modifies this`failureCount
      ensures |drManager.metas| == 0 ==>
                action == RecoveryFailed("no_backups_available") && failureCount == old(failureCount)
      ensures |drManager.metas| > 0 ==>
                && action.RecoveryInitiated?
                && IsNewest(action.backupAvailable, drManager.metas)
                && action.requiresManualConfirmation
                && failureCount == 0
    {
      var backups := drManager.ListBackups();
      if |backups| == 0 {
        return RecoveryFailed("no_backups_available");
      }
      ListingEnds(backups, drManager.metas);
      failureCount := 0;
      action := RecoveryInitiated(backups[0].backupId, now, true);
    }

    /** One health batch: any false entry counts one more failure and, at the
        threshold, triggers recovery; an all-true batch resets the count. */
    method CheckAndRecover(health: seq<(string, bool)>, now: int) returns (action: RecoveryAction)
      requires drManager.Valid()
      modifies this`failureCount
      ensures (forall i | 0 <= i < |health| :: health[i].1) ==>
                action == NoAction("all_services_healthy") && failureCount == 0
      ensures (exists i | 0 <= i < |health| :: !health[i].1) && old(failureCount) + 1 < failureThreshold ==>
                action == Monitoring(Failures(health), old(failureCount) + 1)
                && failureCount == old(failureCount) + 1
      ensures (exists i | 0 <= i < |health| :: !health[i].1) && old(failureCount) + 1 >= failureThreshold ==>
                && (|drManager.metas| == 0 ==>
                      action == RecoveryFailed("no_backups_available") && failureCount == old(failureCount) + 1)
                && (|drManager.metas| > 0 ==>
                      action.RecoveryInitiated? && IsNewest(action.backupAvailable, drManager.metas)
                      && action.requiresManualConfirmation && failureCount == 0)
      ensures failureThreshold > 0 ==> failureCount < failureThreshold || action.RecoveryFailed?
    {
      var failures := Failures(health);
      FailuresExact(health);
      if |failures| > 0 {
        failureCount := failureCount + 1;
        if failureCount >= failureThreshold {
          action := TriggerRecovery(now);
          return;
        }
      } else {
        failureCount := 0;
        return NoAction("all_services_healthy");
      }
      action := Monitoring(failures, failureCount);
    }
  }

  /** Three consecutive failing batches against a store with a backup yield
      `monitoring`, `monitoring`, `recovery_initiated`. */
  method ThreeFailingBatches(dr: DisasterRecoveryManager, check: string, now: int)
    returns (a1: RecoveryAction, a2: RecoveryAction, a3: RecoveryAction)
    requires dr.Valid() && |dr.metas| > 0
    ensures a1 == Monitoring([check], 1) && a2 == Monitoring([check], 2)
    ensures a3.RecoveryInitiated? && IsNewest(a3.backupAvailable, dr.metas)
  {
    var monitor := new AutoRecoveryMonitor(dr);
    var batch := [(check, false)];
    assert Failures(batch) == [check];
    a1 := monitor.CheckAndRecover(batch, now);
    a2 := monitor.CheckAndRecover(batch, now);
    a3 := monitor.CheckAndRecover(batch, now);
  }

  /** A healthy batch between two failing ones resets the count. */
  method HealthyBatchResets(dr: DisasterRecoveryManager, check: string, now: int)
    returns (a1: RecoveryAction, a2: RecoveryAction, a3: RecoveryAction)
    requires dr.Valid()
    ensures a1 == Monitoring([check], 1)
    ensures a2 == NoAction("all_services_healthy")
    ensures a3 == Monitoring([check], 1)
  {
    var monitor := new AutoRecoveryMonitor(dr);
    var failing := [(check, false)];
    assert Failures(failing) == [check];
    a1 := monitor.CheckAndRecover(failing, now);
    a2 := monitor.CheckAndRecover([(check, true)], now);
    a3 := monitor.CheckAndRecover(failing, now);
  }
}
