/** domain/models.py and the settings the orchestrator extracts from the configuration. */
module Models {
  import opened Paths
  import opened Outcomes

  datatype ServerConfig = ServerConfig(
    name: string, hostname: string, zfsPool: string, isLocal: bool, backupConfigfiles: bool, backupSnapshot: bool)

  datatype BackupSettings = BackupSettings(
    baseDir: Path, maxParallel: int, zfsRetention: int, configRetention: int, packagesRetention: int)

  datatype BackupType = CONFIG | ZFS | ALL

  /** An error text is kept as the fault it came from. */
  datatype BackupResult = BackupResult(
    server: string,
    configOk: bool, configError: Result<()>, configSkipped: bool,
    zfsOk: bool, zfsError: Result<()>, zfsSkipped: bool)
  {
    predicate HasErrors() {
      (!configOk && !configSkipped) || (!zfsOk && !zfsSkipped)
    }
  }

  function Failed(results: seq<BackupResult>): seq<BackupResult> {
    if results == [] then []
    else (if results[0].HasErrors() then [results[0]] else []) + Failed(results[1..])
  }

  datatype BackupSummary = BackupSummary(results: seq<BackupResult>) {
    predicate AllOk() {
      forall k :: 0 <= k < |results| ==> !results[k].HasErrors()
    }

    function FailedServers(): seq<BackupResult> {
      Failed(results)
    }
  }
}
