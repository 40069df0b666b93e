/**
  The display rules of the storage and GPU panels
  (client/src/components/storage-monitor.tsx, gpu-monitor.tsx): warning and
  critical thresholds, bar colours, the offload button, utilisation and VRAM
  percentages, free VRAM, the queued-jobs badge and the temperature read-out.
 */
module Monitors {
  import opened Wrappers
  import opened Schema
  import Seqs

  /** The colour a progress bar or alert icon is drawn in. */
  datatype Tone = Neutral | Yellow | Red

  function Severity(t: Tone): nat {
    match t
    case Neutral => 0
    case Yellow => 1
    case Red => 2
  }

  // ---------------------------------------------------------------------------
  // Storage panel
  // ---------------------------------------------------------------------------

  const WarningPercent: real := 85.0
  const CriticalPercent: real := 95.0

  predicate IsWarning(usagePercent: real) { usagePercent >= WarningPercent }
  predicate IsCritical(usagePercent: real) { usagePercent >= CriticalPercent }

  /** Every critical volume is also a warning volume. */
  lemma CriticalIsWarning(p: real)
    ensures IsCritical(p) ==> IsWarning(p)
  {
  }

  /**
    The usage bar: red when critical, yellow when only a warning, otherwise
    the default colour.
   */
  function StorageTone(usagePercent: real): (t: Tone)
    ensures t == Red <==> IsCritical(usagePercent)
    ensures t == Yellow <==> IsWarning(usagePercent) && !IsCritical(usagePercent)
    ensures t == Neutral <==> !IsWarning(usagePercent)
  {
    if usagePercent >= CriticalPercent then Red
    else if usagePercent >= WarningPercent then Yellow
    else Neutral
  }

  /** The alert triangle: shown only for warnings, in the bar's colour. */
  function AlertIcon(usagePercent: real): (r: Option<Tone>)
    ensures r.Some? <==> IsWarning(usagePercent)
    ensures r.Some? ==> r.value == StorageTone(usagePercent) && r.value != Neutral
  {
    if IsWarning(usagePercent) then Some(StorageTone(usagePercent)) else None
  }

  /** A fuller volume is never drawn in a milder colour. */
  lemma StorageToneMonotone(p: real, q: real)
    requires p <= q
    ensures Severity(StorageTone(p)) <= Severity(StorageTone(q))
  {
  }

  /**
    The "Offload to MinIO" button of a drive: present exactly when the drive
    is at warning level and the panel was given an offload handler; pressing
    it passes the drive's id.
   */
  function OffloadButton(drive: Storage, hasHandler: bool): (r: Option<string>)
    ensures r.Some? <==> hasHandler && IsWarning(drive.usagePercent)
    ensures r.Some? ==> r.value == drive.id
  {
    if IsWarning(drive.usagePercent) && hasHandler then Some(drive.id) else None
  }

  predicate DriveIsWarning(d: Storage) { IsWarning(d.usagePercent) }

  /** The drives showing an offload button, in panel order. */
  function DrivesWithButton(drives: seq<Storage>, hasHandler: bool): (r: seq<Storage>)
    ensures !hasHandler ==> r == []
    ensures forall i :: 0 <= i < |r| ==> r[i] in drives && OffloadButton(r[i], hasHandler) == Some(r[i].id)
    ensures forall i :: 0 <= i < |drives| && IsWarning(drives[i].usagePercent) && hasHandler ==> drives[i] in r
    ensures Seqs.IsSubsequence(r, drives)
  {
    if hasHandler then Seqs.Filter(drives, DriveIsWarning) else []
  }

  // ---------------------------------------------------------------------------
  // GPU panel
  // ---------------------------------------------------------------------------

  const RedAbove: real := 90.0
  const YellowAbove: real := 70.0

  /** The bar colour for a finite percentage: red above 90, yellow above 70 up to 90. */
  function Band(percent: real): (t: Tone)
    ensures t == Red <==> percent > RedAbove
    ensures t == Yellow <==> YellowAbove < percent <= RedAbove
    ensures t == Neutral <==> percent <= YellowAbove
  {
    if percent > RedAbove then Red
    else if percent > YellowAbove then Yellow
    else Neutral
  }

  lemma BandMonotone(p: real, q: real)
    requires p <= q
    ensures Severity(Band(p)) <= Severity(Band(q))
  {
  }

  /** The GPU bands are strict where the storage thresholds are not: exactly 90% is yellow, exactly 95% storage is red. */
  lemma ThresholdEdges()
    ensures Band(90.0) == Yellow && Band(70.0) == Neutral
    ensures StorageTone(95.0) == Red && StorageTone(85.0) == Yellow
  {
  }

  /** `utilization * 100`: utilisation is stored as a fraction. */
  function UtilizationPercent(g: Gpu): (p: real)
    ensures 0.0 <= g.utilization <= 1.0 ==> 0.0 <= p <= 100.0
    ensures p / 100.0 == g.utilization
  {
    g.utilization * 100.0
  }

  /** Utilisation is red above 0.9 and yellow above 0.7, as fractions. */
  lemma UtilizationBandAsFraction(g: Gpu)
    ensures Band(UtilizationPercent(g)) == Red <==> g.utilization > 0.9
    ensures Band(UtilizationPercent(g)) == Yellow <==> 0.7 < g.utilization <= 0.9
  {
  }

  /**
    The VRAM bar colour for `(vramUsed / vramTotal) * 100`. With no capacity
    the division gives Infinity when some memory is used (which is above 90:
    red) and NaN or -Infinity otherwise (no comparison holds: neutral).
   */
  function VramTone(g: Gpu): (t: Tone)
    ensures g.vramTotal != 0.0 ==> t == Band(g.vramUsed / g.vramTotal * 100.0)
    ensures g.vramTotal == 0.0 ==> (t == Red <==> g.vramUsed > 0.0) && t != Yellow
  {
    if g.vramTotal != 0.0 then Band(g.vramUsed / g.vramTotal * 100.0)
    else if g.vramUsed > 0.0 then Red
    else Neutral
  }

  /** `vramTotal - vramUsed`, shown as "GB free". */
  function FreeVram(g: Gpu): (free: real)
    ensures free + g.vramUsed == g.vramTotal
    ensures free >= 0.0 <==> g.vramUsed <= g.vramTotal
  {
    g.vramTotal - g.vramUsed
  }

  /** On a card with capacity, the VRAM bar is red exactly when less than a tenth of it is free. */
  lemma VramRedIffLittleFree(g: Gpu)
    requires g.vramTotal > 0.0
    ensures VramTone(g) == Red <==> FreeVram(g) < g.vramTotal / 10.0
  {
    RatioAbove(g.vramUsed, g.vramTotal, 0.9);
  }

  /** For a positive divisor, a quotient exceeds `k` exactly when the dividend exceeds `k` times the divisor. */
  lemma RatioAbove(u: real, t: real, k: real)
    requires t > 0.0
    ensures u / t > k <==> u > k * t
  {
    var q := u / t;
    assert u == q * t;
    if q > k {
      assert (q - k) * t > 0.0;
    } else {
      assert (k - q) * t >= 0.0;
    }
  }

  /** The "n queued" badge: shown for a positive count only (`null > 0` is false). */
  function QueuedBadge(g: Gpu): (r: Option<int>)
    ensures r.Some? <==> g.jobsQueued.Some? && g.jobsQueued.value > 0
    ensures r.Some? ==> r == g.jobsQueued
  {
    if g.jobsQueued.Some? && g.jobsQueued.value > 0 then g.jobsQueued else None
  }

  // ---------------------------------------------------------------------------
  // The temperature read-out
  // ---------------------------------------------------------------------------

  /** What the header of a GPU card shows next to its name for the temperature. */
  datatype TemperatureView =
    | NoReading             // nothing rendered
    | StrayText(text: string) // a bare value rendered as text, outside the read-out
    | Reading(celsius: int) // the thermometer icon and "<n>°C"

  /**
    `{gpu.temperature && (...)}` as written: a `null` renders nothing, but a
    reading of 0 is a falsy number, which React renders as the text "0".
   */
  function TemperatureAsWritten(t: Option<int>): (v: TemperatureView)
    ensures t.None? ==> v == NoReading
    ensures t.Some? && t.value != 0 ==> v == Reading(t.value)
  {
    match t
    case None => NoReading
    case Some(c) => if c == 0 then StrayText("0") else Reading(c)
  }

  /** A card reporting 0 °C shows a stray "0" and no thermometer. */
  lemma ZeroDegreesRendersStrayZero()
    ensures TemperatureAsWritten(Some(0)) == StrayText("0")
  {
  }

  /** The read-out as intended: any reported temperature, 0 included, is shown; nothing else is. */
  function Temperature(t: Option<int>): (v: TemperatureView)
    ensures v.Reading? <==> t.Some?
    ensures v.Reading? ==> v.celsius == t.value
    ensures !v.StrayText?
  {
    if t.Some? then Reading(t.value) else NoReading
  }

  /** The two read-outs differ only on a reading of exactly 0. */
  lemma TemperatureDiffersOnlyAtZero(t: Option<int>)
    ensures TemperatureAsWritten(t) != Temperature(t) <==> t == Some(0)
  {
  }
}
