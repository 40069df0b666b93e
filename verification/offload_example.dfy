/**
  The storage offload handler and the storage panel on the repository's
  seeded models drive (server/storage.ts).
 */
module OffloadExample {
  import opened Wrappers
  import opened Schema
  import Handlers
  import Monitors
  import NumberFormat

  const ModelsDrive := Storage("models", "Models Drive", "/mnt/models", 1880.0, 2000.0, 94.0, "models", None)

  /**
    Offloading the seeded models drive takes it from 1880 GB (94%) to 1680 GB
    (84%): below the warning level, so its offload button goes away.
   */
  lemma OffloadModelsDrive()
    ensures Handlers.UsedAfterOffload(ModelsDrive.usedGB) == 1680.0
    ensures Handlers.PercentOf(1680.0, ModelsDrive.totalGB) == 84.0
    ensures Monitors.OffloadButton(ModelsDrive, true) == Some("models")
    ensures Monitors.OffloadButton(ModelsDrive.(usedGB := 1680.0, usagePercent := 84.0), true).None?
    ensures NumberFormat.Fixed1(84.0) == "84.0"
  {
    assert NumberFormat.RoundTenths(84.0) == 840;
    assert NumberFormat.NatToString(84) == "84";
  }
}
