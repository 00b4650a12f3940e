/** The counter records the two run loops of server/lib/engine.js return. */
module EngineStats {
  import opened Wrappers

  /** The `stats` object of runIngestion. */
  datatype IngestStats = IngestStats(
    total: nat, filtered: nat, deduped: nat, analyzed: nat,
    clusteredExisting: nat, clusteredNew: nat, skipped: nat,
    prunedOrphans: nat, notified: nat, notifyErrors: nat)

  /** The `stats` object of rerunAnalysisForExistingPosts; `prunedOrphans` is absent
      when there were no stored posts and the run returned early. */
  datatype RerunStats = RerunStats(
    total: nat, analyzed: nat, clusteredExisting: nat, clusteredNew: nat,
    skipped: nat, reusedAnalysis: nat, prunedOrphans: Option<nat>)
}
