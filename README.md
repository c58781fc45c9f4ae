# GrokApp recovery and monitoring core, modelled in Dafny

This project models four components of the GrokApp operations tooling and
proves properties of them:

- **Backup store and recovery monitor** (`disaster_recovery.dfy`, module
  `DisasterRecovery`). The backup directory is two maps: metadata records by
  backup id, and archive contents by path. The manager creates backups from
  the critical paths that exist, verifies them against a stored digest, lists
  them newest first, prunes them by rank and age, restores them and reports
  status. `AutoRecoveryMonitor` counts consecutive failing health batches and
  proposes a restore at the threshold.
- **Service recovery and rollback** (`service_recovery.dfy`, module
  `ServiceRecovery`). It covers the service registry, dry-run and live
  restarts with their recovery log, and the recovery playbook. It also covers
  parsing of `git log --pretty=format:%H|%s|%ai` output, and rollback to a
  commit with its history.
- **Performance bookkeeping** (`performance.dfy`, module `Performance`). It
  covers per-name duration lists with slow-operation capture, profiles with
  percentiles, the `timer` wrapper, a TTL cache with hit and miss counters,
  and a bounded connection pool.
- **Metrics registry** (`metrics_exporter.dfy`, module `MetricsExporter`). It
  covers series keys built from a name and sorted labels, counter, gauge and
  histogram updates, the Prometheus and JSON exports, and the `AppMetrics`
  helpers, which here take the registry as a parameter.

`common.dfy` (module `Common`) holds an `Option` type and code-point
lexicographic string order. That order is what Python uses to compare `str`
values.

The environment is passed in as parameters:

- clocks are integers (microseconds for backups, seconds for the cache) or
  preformatted stamp strings;
- the SHA-256 of an archive is a function `checksumOf` fixed per manager;
- which critical paths exist is a predicate `present`;
- a TCP port probe is a predicate `portUp`;
- each `git` process is given by how it ended (`GitRun`, `CommandRun`);
- the archive that `tar` would write is a `Content` value, and whether
  extraction succeeds is a boolean.

## Model

| member | source | states |
|---|---|---|
| DisasterRecovery.ArchivePathInjective | backup/disaster_recovery.py:75-76 | Two backup ids in one directory never share an archive file name. |
| DisasterRecovery.ExistingPathsMembers | backup/disaster_recovery.py:87-91 | A path is archived iff it is configured and exists; there are never more archived paths than configured ones. |
| DisasterRecovery.ExistingPathsAppend | backup/disaster_recovery.py:87-91 | Keeping the existing paths commutes with concatenating path lists, so the configured order is kept. |
| DisasterRecovery.DistinctIdsCount | backup/disaster_recovery.py:168-178 | A listing whose ids are pairwise distinct names as many distinct ids as it has records, which is how a listing covers every metadata file. |
| DisasterRecovery.ListingCovers | backup/disaster_recovery.py:168-178 | Every stored backup id appears in the listing. |
| DisasterRecovery.FreshPrefixExact | backup/disaster_recovery.py:226-232 | In a newest-first listing, the records newer than the cutoff are exactly a prefix. |
| DisasterRecovery.RetentionKeepsPrefix | backup/disaster_recovery.py:219-243 | Keeping only records ranked below `max_backups` AND newer than the cutoff keeps a prefix of at most `max_backups` records; a non-positive `max_backups` keeps none. |
| DisasterRecovery.ExpiredRecordIsDeleted | backup/disaster_recovery.py:226-232 | A record at or before the cutoff is deleted whatever its rank. |
| DisasterRecovery.DeletedPathIffDeletedId | backup/disaster_recovery.py:234-241 | In a consistent store, cleanup deletes a backup's archive iff it deletes its metadata. |
| DisasterRecovery.InsertKeepsNewestFirst | backup/disaster_recovery.py:170-178 | Inserting a record at its timestamp's position keeps a listing newest first. |
| DisasterRecovery.SurvivorsArePrefix | backup/disaster_recovery.py:219-243 | After deletion, the ids still stored are exactly the first `RetainedCount` entries of the listing. |
| DisasterRecovery.ListingEnds | backup/disaster_recovery.py:245-257 | The first listed record has the greatest timestamp and the last one the least. |
| DisasterRecovery.DisasterRecoveryManager.constructor | backup/disaster_recovery.py:31-62 | With no configuration the defaults apply, and a missing key takes its own default; the recovery points start empty. |
| DisasterRecovery.DisasterRecoveryManager.VerifyBackup | backup/disaster_recovery.py:134-166 | False for a missing metadata record or a missing archive; true only when the recomputed digest equals the stored one. |
| DisasterRecovery.DisasterRecoveryManager.ListBackups | backup/disaster_recovery.py:168-178 | Returns every metadata record exactly once, ordered by timestamp descending. |
| DisasterRecovery.DisasterRecoveryManager.CleanupOldBackups | backup/disaster_recovery.py:219-243 | Deletes exactly the records failing the keep rule, archive and metadata together; the survivors are a prefix of the listing; `max_backups <= 0` empties the store; the store stays consistent. |
| DisasterRecovery.DisasterRecoveryManager.DeleteUnkept | backup/disaster_recovery.py:226-243 | The deletion loop removes exactly the unkept ids and their archive paths. |
| DisasterRecovery.DisasterRecoveryManager.CreateBackup | backup/disaster_recovery.py:64-124 | The record has id `grokapp_<type>_<stamp>`, status `completed`, the archive's size and digest, and exactly the existing critical paths in configured order. It is appended to the recovery points, `last_backup_time` is set, and cleanup then runs. A surviving new backup verifies. |
| DisasterRecovery.DisasterRecoveryManager.RestoreBackup | backup/disaster_recovery.py:180-217 | Failed verification returns false and changes nothing. Otherwise exactly one `pre_restore` backup is taken (id `grokapp_pre_restore_<stamp>`, status `completed`, the archive's size and digest, exactly the existing critical paths, appended to the recovery points, `last_backup_time` set), and the new store is the old one plus that backup minus what its cleanup deleted, archives likewise. The result is true iff extraction succeeds and the target survived that cleanup. An expired target is deleted and the result is false (see Findings). |
| DisasterRecovery.DisasterRecoveryManager.RestoreBackupKeepingTarget | backup/disaster_recovery.py:180-217 | The corrected restore: the same new state as `RestoreBackup` (one `pre_restore` backup with the same fields, the store after its cleanup, `last_backup_time` set), but the result is true iff verification and extraction succeed, and the restored content carries the stored digest. |
| DisasterRecovery.DisasterRecoveryManager.GetRecoveryStatus | backup/disaster_recovery.py:245-257 | Reports `healthy` iff some backup exists, else `no_backups`, with the count. `latest` is a newest record and `oldest` an oldest one, both taken from the store. |
| DisasterRecovery.FailuresExact | backup/disaster_recovery.py:281 | A batch has no failures iff every entry is true; each failure names a false entry. |
| DisasterRecovery.AutoRecoveryMonitor.constructor | backup/disaster_recovery.py:265-268 | The count starts at 0 and the threshold is 3. |
| DisasterRecovery.AutoRecoveryMonitor.TriggerRecovery | backup/disaster_recovery.py:296-329 | With no backups it returns `no_backups_available` and leaves the count alone. Otherwise it names a newest backup, requires manual confirmation and resets the count to 0. |
| DisasterRecovery.AutoRecoveryMonitor.CheckAndRecover | backup/disaster_recovery.py:270-294 | An all-true batch (empty included) resets the count and returns `none`. A failing batch increments the count and returns `monitoring` below the threshold, or triggers recovery at it. Afterwards the count is below the threshold unless recovery failed. |
| DisasterRecovery.ThreeFailingBatches | backup/disaster_recovery.py:270-329 | Three failing batches against a store with a backup give `monitoring` (1), `monitoring` (2), `recovery_initiated`. |
| DisasterRecovery.HealthyBatchResets | backup/disaster_recovery.py:283-291 | A healthy batch between two failing ones brings the count back to 1. |
| ServiceRecovery.PlaybookSucceedsIffAllKnown | backup/service_recovery.py:152-172 | Some playbook entry fails iff some requested name is not registered. |
| ServiceRecovery.PlaybookLogEntries | backup/service_recovery.py:157-168 | Every log entry a playbook adds is a successful dry run of a registered service whose port was down, and there are at most as many as names. |
| ServiceRecovery.ServiceRecovery.constructor | backup/service_recovery.py:26-54 | The registry holds the four default services and the recovery log is empty. |
| ServiceRecovery.ServiceRecovery.GetServiceStatus | backup/service_recovery.py:62-76 | An error record iff the name is unregistered. Otherwise the service's port and health endpoint, with `running` equal to the probe of that port. |
| ServiceRecovery.ServiceRecovery.GetAllStatuses | backup/service_recovery.py:78-80 | One status per registered service, each the probe of its own port. |
| ServiceRecovery.ServiceRecovery.AttemptRestart | backup/service_recovery.py:82-131 | An unknown name fails and logs nothing. A known one logs exactly one result. A dry run succeeds with `Would execute: <start_cmd>`. A live restart succeeds iff the probe after it reports the port up, and a raised probe becomes an error result. |
| ServiceRecovery.ServiceRecovery.RunRecoveryPlaybook | backup/service_recovery.py:133-182 | One entry per name, in order: skipped when running, otherwise a dry-run restart. The log grows by exactly the playbook's restarts. The overall flag is true iff no restart failed, iff every name is registered. |
| ServiceRecovery.TrimStart | backup/service_recovery.py:212 | The result is a suffix of the input, starts with a non-space character, and every character removed before it is whitespace. |
| ServiceRecovery.TrimEnd | backup/service_recovery.py:212 | The result is a prefix of the input, ends with a non-space character, and every character removed after it is whitespace. |
| ServiceRecovery.Strip | backup/service_recovery.py:212 | The result is a contiguous slice of the input that neither starts nor ends with whitespace, and everything cut off on either side is whitespace. |
| ServiceRecovery.SplitJoin | backup/service_recovery.py:212-214 | Joining the pieces of a split gives back the text, and no piece contains the separator. |
| ServiceRecovery.JoinSplit | backup/service_recovery.py:212-214 | Splitting a join of separator-free pieces gives back the pieces. |
| ServiceRecovery.ParseCommitLineFields | backup/service_recovery.py:214-219 | No field of a parsed commit contains `|`. |
| ServiceRecovery.ParseCommits | backup/service_recovery.py:211-221 | At most one commit per line; no commits when no line has a `|`; no field contains `|`. |
| ServiceRecovery.GetGitHistory | backup/service_recovery.py:198-225 | Empty when git could not run or exited non-zero; otherwise at most one commit per output line. |
| ServiceRecovery.ParseFormattedCommit | backup/service_recovery.py:202-219 | A line git prints for a commit parses back into that commit. |
| ServiceRecovery.ParseFormattedLines | backup/service_recovery.py:211-221 | Parsing the printed lines of several commits gives back those commits in order. |
| ServiceRecovery.GitHistoryRoundTrip | backup/service_recovery.py:198-225 | Parsing git's whole output for commits whose fields hold no `|` or newline gives back the same commits. |
| ServiceRecovery.RollbackManager.constructor | backup/service_recovery.py:194-196 | The rollback history starts empty. |
| ServiceRecovery.RollbackManager.RollbackToCommit | backup/service_recovery.py:227-273 | A dry run issues no command and succeeds with `Would execute: git checkout <sha>`. A live run creates `pre_rollback_<stamp>` first and checks out only if that branch was created; it succeeds iff both commands exit with 0. Every returned result is appended to the history. |
| Performance.Insert | monitoring/performance.py:119 | Inserting into a sorted list keeps it sorted and adds exactly the new value. |
| Performance.SortAscending | monitoring/performance.py:119 | The result is sorted and a permutation of the measurements. |
| Performance.MinOf | monitoring/performance.py:124 | The result is a measurement and at most every measurement. |
| Performance.MaxOf | monitoring/performance.py:125 | The result is a measurement and at least every measurement. |
| Performance.PercentileIndexBounds | monitoring/performance.py:126-128 | For a non-empty list, every percentile below 100 indexes inside the list, and a larger percentile never selects an earlier index. |
| Performance.ProfileOf | monitoring/performance.py:112-131 | The profile of a non-empty list: call count, total, mean, and extremes that are measurements bounding all others. |
| Performance.ProfilePercentilesOrdered | monitoring/performance.py:118-131 | min <= p50 <= p95 <= p99 <= max, and each percentile is one of the measurements. |
| Performance.PySliceFromEnd | monitoring/performance.py:139 | Python's `s[-limit:]` for every integer limit: the last `limit` elements when positive, all of them when 0, all but the first `-limit` when negative. |
| Performance.LastN | monitoring/performance.py:137-139 | The last `min(limit, len)` elements, in order. |
| Performance.SliceZeroReturnsEverything | monitoring/performance.py:139 | With limit 0 the slice as written returns the whole list, where the last 0 elements are none. |
| Performance.SliceAgreesForPositiveLimits | monitoring/performance.py:139 | For positive limits the slice as written is the last `limit` elements. |
| Performance.MetricName | monitoring/performance.py:79 | The given name unless it is absent or empty; otherwise `<module>.<function>`. |
| Performance.PerformanceMonitor.constructor | monitoring/performance.py:53-63 | Empty metrics and slow operations; monitoring enabled. |
| Performance.PerformanceMonitor.Record | monitoring/performance.py:98-110 | Appends the duration to its name's list. The slow operations grow by this metric iff the duration is strictly above the threshold. |
| Performance.PerformanceMonitor.GetProfile | monitoring/performance.py:112-131 | None iff the name is unknown or has no measurements; otherwise the count and extremes of its measurements. |
| Performance.PerformanceMonitor.GetAllProfiles | monitoring/performance.py:133-135 | One profile per tracked name, none of them missing. |
| Performance.PerformanceMonitor.GetSlowOperations | monitoring/performance.py:137-139 | As written: the last `limit` slow operations for a positive limit, but every one of them for 0 (see Findings). |
| Performance.PerformanceMonitor.RecentSlowOperations | monitoring/performance.py:137-139 | The last `limit` slow operations in recording order, none for 0. |
| Performance.PerformanceMonitor.Clear | monitoring/performance.py:141-144 | Empties both the metrics and the slow operations. |
| Performance.PerformanceMonitor.Timed | monitoring/performance.py:65-96 | When enabled, exactly one measurement under the metric name, whether the call returned or raised, and a slow operation (with empty metadata) iff the duration is above the threshold. When disabled, nothing is recorded. The call's outcome is passed on unchanged. |
| Performance.EffectiveTtl | monitoring/performance.py:255 | A given non-zero TTL is used; None or 0 falls back to the default. |
| Performance.CacheManager.constructor | monitoring/performance.py:232-236 | An empty cache with zero counters. |
| Performance.CacheManager.Get | monitoring/performance.py:238-251 | An absent key is a miss. An entry past its expiry is a miss and is evicted. Otherwise a hit returning the stored value. Exactly one counter moves. |
| Performance.CacheManager.Set | monitoring/performance.py:253-260 | Overwrites the entry with expiry `now + ttl` (the effective TTL). |
| Performance.CacheManager.Delete | monitoring/performance.py:262-265 | Removes the key; an absent key changes nothing. |
| Performance.CacheManager.Clear | monitoring/performance.py:267-271 | Empties the cache and zeroes both counters. |
| Performance.CacheManager.GetStats | monitoring/performance.py:273-281 | Size, hits and misses. The hit rate lies between 0 and 1 and is `hits / (hits + misses)`, or 0 before any lookup. |
| Performance.SetThenGet | monitoring/performance.py:238-260 | A value set at time t is read back exactly while `now <= t + ttl`; after that the lookup misses and evicts it. |
| Performance.ConnectionPool.constructor | monitoring/performance.py:289-293 | An empty pool with nothing lent. |
| Performance.ConnectionPool.Acquire | monitoring/performance.py:295-305 | Reuses the last pooled connection first. Otherwise it creates one while fewer than `max_size` are lent, else fails with `Connection pool exhausted`. `len(pool) + in_use <= max_size` is preserved. |
| Performance.ConnectionPool.Release | monitoring/performance.py:307-311 | Re-pools only below `max_size`. `in_use` drops by one but never below 0. The bound is preserved. |
| Performance.ConnectionPool.GetStatus | monitoring/performance.py:313-319 | Reports the bound, the idle count and the lent count. |
| MetricsExporter.PairLeqTotal | monitoring/metrics_exporter.py:63 | Any two label pairs are comparable in Python's tuple order. |
| MetricsExporter.InsertLabelCorrect | monitoring/metrics_exporter.py:63 | Inserting into a sorted label list keeps it sorted and adds exactly that pair. |
| MetricsExporter.SortLabelsCorrect | monitoring/metrics_exporter.py:63 | The sorted labels are sorted and hold the same pairs. |
| MetricsExporter.SortedLabelsUnique | monitoring/metrics_exporter.py:63 | Two sorted label lists holding the same pairs are equal. |
| MetricsExporter.MakeKey | monitoring/metrics_exporter.py:60-65 | The bare name without labels, otherwise `name{` ... `}`. |
| MetricsExporter.MakeKeyOrderIndependent | monitoring/metrics_exporter.py:60-65 | Label lists holding the same pairs, in any order, give the same key. |
| MetricsExporter.MetricsRegistry.constructor | monitoring/metrics_exporter.py:25-30 | All four dictionaries start empty. |
| MetricsExporter.MetricsRegistry.Counter | monitoring/metrics_exporter.py:32-40 | Adds the value to the series, starting an unseen one at 0. An unseen series is appended to the counter order, a seen one keeps its place. Labels are stored only when given. Gauges and histograms are unchanged. |
| MetricsExporter.MetricsRegistry.Gauge | monitoring/metrics_exporter.py:42-48 | Overwrites the series with the value. An unseen series is appended to the gauge order, a seen one keeps its place. Labels are stored only when given. Counters and histograms are unchanged. |
| MetricsExporter.MetricsRegistry.Histogram | monitoring/metrics_exporter.py:50-58 | Appends the observation to the series in order. An unseen series is appended to the histogram order, a seen one keeps its place. Labels are stored only when given. Counters and gauges are unchanged. |
| MetricsExporter.CountTimes | monitoring/metrics_exporter.py:32-40 | k increments of 1 raise the series by exactly k and leave every other series unchanged; a valid registry stays valid. |
| MetricsExporter.CountAtMost | monitoring/metrics_exporter.py:85-86 | A bucket never counts more observations than the histogram has. |
| MetricsExporter.CountAtMostMonotone | monitoring/metrics_exporter.py:84-86 | A larger bound never counts fewer observations. |
| MetricsExporter.CountAtMostAll | monitoring/metrics_exporter.py:84-88 | A bound at or above every observation counts all of them. |
| MetricsExporter.BucketLines | monitoring/metrics_exporter.py:84-86 | One `_bucket{le="<bound>"}` line per bound, holding the number of observations at most that bound. |
| MetricsExporter.HistogramLines | monitoring/metrics_exporter.py:80-90 | Nothing for an empty histogram. Otherwise, in this order: `_count` with the number of observations, `_sum` with their sum, one `_bucket{le=...}` line per fixed bound giving how many observations are at most that bound, and `+Inf` with the number of observations. |
| MetricsExporter.HistogramBucketsCumulative | monitoring/metrics_exporter.py:80-90 | Bucket counts never decrease along the bounds and never exceed `_count`; `+Inf` equals `_count`. |
| MetricsExporter.ScalarLines | monitoring/metrics_exporter.py:71-78 | Every listed key that is stored has a line with its value; every line is for a listed, stored key and carries its stored value; there are at most as many lines as listed keys. |
| MetricsExporter.HistogramSection | monitoring/metrics_exporter.py:80-90 | Every line of every listed histogram appears in the section, every line of the section belongs to a listed histogram, and a section whose histograms are all empty has no lines. |
| MetricsExporter.MetricsRegistry.ExportPrometheus | monitoring/metrics_exporter.py:67-92 | Every listed counter and gauge appears with its value, and every line of every listed histogram (`_count`, `_sum`, buckets, `+Inf`) appears; for a valid registry that covers every series. Conversely every line is a counter with its value, a gauge with its value, or a line of some histogram. |
| MetricsExporter.Summarize | monitoring/metrics_exporter.py:97-100 | Count and sum of the observations; the mean times the count is the sum, and the mean is 0 when empty. |
| MetricsExporter.MetricsRegistry.ExportJson | monitoring/metrics_exporter.py:94-101 | Counters and gauges as stored, and one count/sum/avg summary per histogram: avg times count is the sum, and avg is 0 when empty. |
| MetricsExporter.NatToString | monitoring/metrics_exporter.py:151 | `str(n)` of a natural number is a non-empty string of decimal digits. |
| MetricsExporter.NatToStringValue | monitoring/metrics_exporter.py:151 | Reading the digits back as a decimal number gives `n`. |
| MetricsExporter.NatToStringInjective | monitoring/metrics_exporter.py:151 | Distinct natural numbers render differently. |
| MetricsExporter.IntToStringSign | monitoring/metrics_exporter.py:151 | The rendering of an integer starts with `-` exactly when it is negative. |
| MetricsExporter.IntToStringInjective | monitoring/metrics_exporter.py:151 | Distinct status codes give distinct `status` label values. |
| MetricsExporter.RecordRequest | monitoring/metrics_exporter.py:149-153 | Increments `http_requests_total` and observes the duration under the same method/endpoint/status labels, and stores those labels for both keys; gauges are unchanged and a valid registry stays valid. |
| MetricsExporter.RecordError | monitoring/metrics_exporter.py:156-159 | Increments `errors_total` for the type and component and stores those labels for its key; gauges and histograms are unchanged and a valid registry stays valid. |
| MetricsExporter.RecordAuditEvent | monitoring/metrics_exporter.py:162-165 | Increments `audit_events_total` for the action and severity and stores those labels for its key; gauges and histograms are unchanged and a valid registry stays valid. |
| MetricsExporter.SetServiceHealth | monitoring/metrics_exporter.py:168-171 | Sets `service_health` for the service to 1.0 or 0.0 and stores the service label; counters and histograms are unchanged and a valid registry stays valid. |
| MetricsExporter.SetActiveConnections | monitoring/metrics_exporter.py:174-177 | Sets `active_connections` for the service to the count and stores the service label; counters and histograms are unchanged and a valid registry stays valid. |
| MetricsExporter.RecordBackupStatus | monitoring/metrics_exporter.py:180-189 | On success it increments `backup_success_total` and sets the timestamp and size gauges. On failure it increments `backup_failure_total`. Either way `backup_last_status` becomes 1.0 or 0.0. No labels or histograms change, and a valid registry stays valid. |
| MetricsExporter.RecordApiCall | monitoring/metrics_exporter.py:192-197 | Increments `api_calls_total`, adds the tokens to `api_tokens_total` and observes the duration, all under provider/model labels, which are stored for all three keys; gauges are unchanged and a valid registry stays valid. |
| Common.StrLessTransitive | monitoring/metrics_exporter.py:63 | Python's string order is transitive. |
| Common.StrLessTotal | monitoring/metrics_exporter.py:63 | Python's string order is total on distinct strings. |

## Left out

- Filesystem I/O is not modelled: tar writing and extraction, `mkdir`, JSON reading and writing of metadata, and file-existence checks. The store is two maps, the written archive is a parameter, and extraction success is a boolean.
- SHA-256 streaming (`_calculate_checksum`) is a fixed uninterpreted function `checksumOf` over archive content.
- Clock readings are parameters: one `now` per call, where the source reads `utcnow()` several times. Backup timestamps are integers in microseconds, so ISO-8601 parsing and formatting are left out. Stamps in names (`%Y%m%d_%H%M%S`) are strings passed in.
- `restore_backup`'s `target_dir` only chooses where extraction writes, which is I/O.
- An exception raised by `create_backup` itself (a tar or JSON error) is not modelled; only extraction errors are.
- A supplied configuration without a `critical_paths` key makes `create_backup` raise `KeyError` (backup/disaster_recovery.py:87). The model's configuration always carries the list, so that error path is not modelled.
- `DisasterRecovery.DisasterRecoveryManager.constructor` requires a consistent store: every metadata file names its own id and the archive `<backup_dir>/<id>.tar.gz` beside it. Hand-edited or foreign metadata files, which the source would also open, are not modelled.
- `DisasterRecovery.DisasterRecoveryManager.ListBackups`: records with equal timestamps come in directory order, which is left open. The contract fixes only the newest-first order.
- `DisasterRecovery.AutoRecoveryMonitor.CheckAndRecover` follows the code where it differs from the component's description. The count is reset after a trigger only when a backup exists (the early return at backup/disaster_recovery.py:303-307 skips the reset at line 322). So with no backups the count keeps growing past the threshold. Three failing batches give `monitoring`, `monitoring`, `recovery_initiated`.
- TCP port probes, `time.sleep` and the start command launched by `subprocess.Popen` are left out. A probe is a predicate, and the post-restart probe is given as a `Probe` value.
- `ServiceRecovery.ServiceRecovery.GetRecoveryHistory` returns the recovery log as it is; it states nothing beyond that, so it has no row.
- `ServiceRecovery.GetGitHistory`: `--pretty`/`-<count>` are git's business. The model starts from git's exit status and output, and the commit count limit is not modelled.
- `ServiceRecovery.RollbackManager.RollbackToCommit` follows the code where it differs from "every call appends one history entry". Only `CalledProcessError` (a non-zero exit) is caught. A command that cannot be launched at all raises out of the method, and nothing is appended.
- `Performance.PerformanceMonitor.Timed`: the wrapped call is an outcome passed in, so it cannot touch the monitor. A timed call that itself records into the same monitor (a nested timer) or clears it would add or remove entries that the frame of `Timed` rules out; that interleaving is not modelled.
- Floating point is modelled as exact reals: durations, `statistics.mean`, the hit rate, and Prometheus value rendering. `Performance.PercentileIndex` uses exact `(n * pct) / 100`, which agrees with `int(n * 0.95)` for the list sizes a process can hold.
- `report()`, `export_json` of the performance monitor (file writing), the `__main__` demos and all `print` output are I/O and are left out.
- `threading.Lock`, `MetricsHandler` and `start_metrics_server` are concurrency and HTTP, and are left out.
- `MetricsExporter.MetricsRegistry.ExportPrometheus`: lines are `(series, value)` samples, so float rendering and the text layout are left out. The histogram section is given by `HistogramLines`.
- `MetricsExporter.MetricsRegistry.ExportPrometheus`: the contract states which lines appear, not their order. Counters, then gauges, then histograms, each in the insertion order kept by `counterOrder`, `gaugeOrder` and `histogramOrder`, is fixed only by the body; the update methods state how those orders grow.
- `MetricsExporter.RecordBackupStatus`: `time.time()` is the parameter `now`.
- `monitoring/health_checks.py`, `security/audit_logger.py`, `sovereign_master.py` and `backup/backup_script.py` are not part of this model. They are probes, log-file appends, a polling loop and a tar wrapper.

## Findings

| source | as written | input that shows it | evidently intended | confidence | as-written member | corrected member |
|---|---|---|---|---|---|---|
| backup/disaster_recovery.py:195-217 | `restore_backup` reads the target's archive path, then calls `create_backup('pre_restore')`, whose cleanup may delete the target before extraction | a verified backup older than `now - retention_days` (or ranked at `max_backups - 1` once the new backup is listed first): cleanup deletes it and the restore returns false | the backup being restored survives until it is extracted | medium, not executed | DisasterRecovery.DisasterRecoveryManager.RestoreBackup | DisasterRecovery.DisasterRecoveryManager.RestoreBackupKeepingTarget |
| monitoring/performance.py:137-139 | `self.slow_operations[-limit:]` | `limit = 0` with one recorded slow operation returns that operation, since `s[-0:]` is `s[0:]` | the last `limit` operations, so none for 0 | medium, not executed | Performance.PerformanceMonitor.GetSlowOperations | Performance.PerformanceMonitor.RecentSlowOperations |
