/** Where in the queue a client is put: keyframe search, burst on connect, start position and recovery. */
module Positions {
  import opened Basics
  import opened Buffers
  import opened Limits

  datatype SyncMethod = Latest | NextKeyframe | LatestKeyframe | Burst | BurstKeyframe | BurstWithKeyframe

  datatype Policy = NoRecovery | ResyncLatest | ResyncSoftLimit | ResyncKeyframe

  /** The amount of data a client asked for when it was added. */
  datatype BurstSpec = BurstSpec(minFormat: Format, minValue: int, maxFormat: Format, maxValue: int)

  /** The methods that promise to start on a sync frame. */
  predicate StartsOnKeyframe(sync: SyncMethod) {
    sync == NextKeyframe || sync == LatestKeyframe || sync == BurstKeyframe
  }

  /** The newest sync frame at index `idx` or older, or -1. */
  function NextSync(q: seq<Buffer>, idx: int): (r: int)
    requires 0 <= idx
    ensures r == -1 || (idx <= r < |q| && q[r].IsSync())
    ensures forall k :: idx <= k < (if r == -1 then |q| else r) ==> !q[k].IsSync()
    decreases |q| - idx
  {
    if idx >= |q| then -1 else if q[idx].IsSync() then idx else NextSync(q, idx + 1)
  }

  /** The oldest sync frame at index `idx` or newer, or -1. */
  function PrevSync(q: seq<Buffer>, idx: int): (r: int)
    requires -1 <= idx < |q|
    ensures r == -1 || (0 <= r <= idx && q[r].IsSync())
    ensures forall k :: r < k <= idx ==> !q[k].IsSync()
    decreases idx
  {
    if idx < 0 then -1 else if q[idx].IsSync() then idx else PrevSync(q, idx - 1)
  }

  method FindSyncFrame(q: seq<Buffer>, idx: int, direction: int) returns (result: int)
    requires -1 <= idx < |q| && (direction == 1 || direction == -1)
    requires direction == 1 ==> 0 <= idx
    ensures result == if direction == 1 then NextSync(q, idx) else PrevSync(q, idx)
  {
    result := -1;
    var i := idx;
    while 0 <= i < |q|
      invariant direction == 1 ==> idx <= i <= |q| && NextSync(q, i) == NextSync(q, idx)
      invariant direction == -1 ==> -1 <= i <= idx && PrevSync(q, i) == PrevSync(q, idx)
      decreases if direction == 1 then |q| - i else i
    {
      if q[i].IsSync() {
        return i;
      }
      i := i + direction;
    }
  }

  /** The value of the limit of one format; the other limits stay unset. */
  function Assigned(wanted: Format, format: Format, value: int): int {
    if format == wanted then value else UNSET
  }

  function BurstRange(q: seq<Buffer>, b: BurstSpec): (r: Range)
    requires |q| > 0
    ensures r.min <= r.max < |q|
  {
    LimitRange(q, Assigned(Bytes, b.minFormat, b.minValue), Assigned(Buffers, b.minFormat, b.minValue),
               Assigned(Time, b.minFormat, b.minValue), Assigned(Bytes, b.maxFormat, b.maxValue),
               Assigned(Time, b.maxFormat, b.maxValue))
  }

  method CountBurstUnit(q: seq<Buffer>, b: BurstSpec) returns (minIdx: int, maxIdx: int, ok: bool)
    requires |q| > 0
    ensures 0 <= minIdx <= maxIdx < |q| && Range(minIdx, maxIdx) == BurstRange(q, b)
  {
    var bytesMin, buffersMin, timeMin := UNSET, UNSET, UNSET;
    var bytesMax, buffersMax, timeMax := UNSET, UNSET, UNSET;
    match b.minFormat {
      case Buffers => buffersMin := b.minValue;
      case Time => timeMin := b.minValue;
      case Bytes => bytesMin := b.minValue;
      case Undefined =>
    }
    match b.maxFormat {
      case Buffers => buffersMax := b.maxValue;
      case Time => timeMax := b.maxValue;
      case Bytes => bytesMax := b.maxValue;
      case Undefined =>
    }
    minIdx, maxIdx, ok := FindLimits(q, bytesMin, buffersMin, timeMin, bytesMax, buffersMax, timeMax);
  }

  /** A start position, or -1 to wait, with the cursor and sync method the client is left with. */
  datatype Placement = Placement(position: int, bufpos: int, sync: SyncMethod)

  /** The start position of a client that has not received anything yet. */
  function NewPosition(q: seq<Buffer>, bufpos: int, sync: SyncMethod, burst: BurstSpec): (p: Placement)
    requires 0 <= bufpos < |q|
    ensures -1 <= p.position < |q|
    ensures p.position == -1 ==> p.bufpos == -1
    ensures p.position != -1 ==> p.bufpos == bufpos && p.sync == sync
    ensures StartsOnKeyframe(sync) <==> StartsOnKeyframe(p.sync)
    ensures StartsOnKeyframe(sync) && p.position != -1 ==> q[p.position].IsSync()
  {
    match sync
    case Latest => Placement(bufpos, bufpos, sync)
    case NextKeyframe =>
      var r := PrevSync(q, bufpos);
      Placement(r, if r != -1 then bufpos else -1, sync)
    case LatestKeyframe =>
      var r := NextSync(q, 0);
      if r != -1 then Placement(r, bufpos, sync) else Placement(-1, -1, NextKeyframe)
    case Burst =>
      var r := BurstRange(q, burst);
      Placement(if r.max <= r.min then Max(r.max - 1, 0) else r.min, bufpos, sync)
    case BurstKeyframe =>
      var r := BurstRange(q, burst);
      var next := NextSync(q, r.min);
      var prev := PrevSync(q, r.min);
      if next != -1 && next < r.max then Placement(next, bufpos, sync)
      else if prev != -1 then Placement(prev, bufpos, sync)
      else Placement(-1, -1, NextKeyframe)
    case BurstWithKeyframe =>
      var r := BurstRange(q, burst);
      var next := NextSync(q, r.min);
      if next != -1 && next < r.max then Placement(next, bufpos, sync)
      else Placement(if r.max <= r.min then Max(r.max - 1, 0) else r.min, bufpos, sync)
  }

  /** The range a burst asks for: the limits count in the format they are given in, and all of a queue is taken that is
      shorter than a minimum in buffers. A maximum in buffers has no effect. */
  lemma BurstRangeIs(q: seq<Buffer>, b: BurstSpec)
    requires |q| > 0
    ensures var r := BurstRange(q, b);
            if b.minFormat == Buffers && b.minValue != UNSET && |q| < b.minValue then r == Range(|q| - 1, |q| - 1)
            else IsRange(q, r.min, r.max,
                         if b.minFormat == Bytes then b.minValue else UNSET,
                         if b.minFormat == Time then b.minValue else UNSET,
                         if b.maxFormat == Bytes then b.maxValue else UNSET,
                         if b.maxFormat == Time then b.maxValue else UNSET)
  {
  }

  /** Index `k` is the first sync frame between the limits of a burst. */
  ghost predicate FirstBetween(q: seq<Buffer>, r: Range, k: int) {
    r.min <= k < r.max <= |q| && q[k].IsSync() && forall j :: r.min <= j < k ==> !q[j].IsSync()
  }

  /** Index `k` is the last sync frame up to index `top`. */
  ghost predicate LastUpTo(q: seq<Buffer>, top: int, k: int) {
    0 <= k <= top < |q| && q[k].IsSync() && forall j :: k < j <= top ==> !q[j].IsSync()
  }

  ghost predicate NoSync(q: seq<Buffer>, from: int, to: int) {
    forall j :: from <= j < to && 0 <= j < |q| ==> !q[j].IsSync()
  }

  /** Where a burst starts that does not look for a sync frame: where the minimum is met, or before the maximum if that
      is reached no later. */
  ghost predicate BurstStart(r: Range, position: int) {
    if r.min < r.max then position == r.min else position == if r.max > 0 then r.max - 1 else 0
  }

  /** Where each method starts a client whose cursor is at `bufpos`, and when it goes on waiting. */
  lemma StartsWhere(q: seq<Buffer>, bufpos: int, sync: SyncMethod, burst: BurstSpec)
    requires 0 <= bufpos < |q|
    ensures var p, r := NewPosition(q, bufpos, sync, burst), BurstRange(q, burst);
            match sync
            case Latest => p == Placement(bufpos, bufpos, Latest)
            case NextKeyframe =>
              (LastUpTo(q, bufpos, p.position) && p.bufpos == bufpos && p.sync == sync)
              || (NoSync(q, 0, bufpos + 1) && p == Placement(-1, -1, NextKeyframe))
            case LatestKeyframe =>
              (0 <= p.position < |q| && q[p.position].IsSync() && NoSync(q, 0, p.position) && p.bufpos == bufpos
               && p.sync == sync)
              || (NoSync(q, 0, |q|) && p == Placement(-1, -1, NextKeyframe))
            case Burst => BurstStart(r, p.position) && p.bufpos == bufpos && p.sync == sync
            case BurstKeyframe =>
              (FirstBetween(q, r, p.position) && p.bufpos == bufpos && p.sync == sync)
              || (NoSync(q, r.min, r.max) && LastUpTo(q, r.min, p.position) && p.bufpos == bufpos && p.sync == sync)
              || (NoSync(q, r.min, r.max) && NoSync(q, 0, r.min + 1) && p == Placement(-1, -1, NextKeyframe))
            case BurstWithKeyframe =>
              && p.bufpos == bufpos && p.sync == sync
              && (FirstBetween(q, r, p.position) || (NoSync(q, r.min, r.max) && BurstStart(r, p.position)))
  {
  }

  /** The method that starts on the latest keyframe picks the newest one there is, if there is any. */
  lemma LatestKeyframeIsNewest(q: seq<Buffer>, bufpos: int, burst: BurstSpec, k: int)
    requires 0 <= bufpos < |q| && 0 <= k < |q| && q[k].IsSync()
    ensures var p := NewPosition(q, bufpos, LatestKeyframe, burst).position;
            0 <= p <= k && q[p].IsSync() && forall j :: 0 <= j < p ==> !q[j].IsSync()
  {
    assert NextSync(q, 0) != -1;
  }

  /** The cursor a lagging client is given; `soft` is the position of the soft limit. */
  function Recover(policy: Policy, q: seq<Buffer>, soft: int, bufpos: int): (r: int)
    requires |q| > 0 && 0 < soft <= bufpos
    ensures -1 <= r <= bufpos
    ensures policy == ResyncLatest || policy == ResyncKeyframe ==> r < soft
    ensures policy == ResyncSoftLimit ==> r == soft
    ensures policy == ResyncKeyframe && r != -1 ==> r < |q| && q[r].IsSync()
  {
    match policy
    case NoRecovery => bufpos
    case ResyncLatest => -1
    case ResyncSoftLimit => soft
    case ResyncKeyframe => PrevSync(q, Min(|q| - 1, soft - 1))
  }

  /** Where each policy puts a client that lags behind the soft limit. */
  lemma RecoversTo(policy: Policy, q: seq<Buffer>, soft: int, bufpos: int)
    requires |q| > 0 && 0 < soft <= bufpos
    ensures var r := Recover(policy, q, soft, bufpos);
            match policy
            case NoRecovery => r == bufpos
            case ResyncLatest => r == -1
            case ResyncSoftLimit => r == soft
            case ResyncKeyframe =>
              LastUpTo(q, Min(|q| - 1, soft - 1), r) || (r == -1 && NoSync(q, 0, soft))
  {
  }

  /** A client whose backlog exceeds the soft limit never moves to older data, and both policies that leave the
      limit put it where the backlog no longer exceeds it. */
  lemma RecoveryShrinksBacklog(format: Format, q: seq<Buffer>, policy: Policy, softMax: int, bufpos: int)
    requires 0 <= bufpos <= |q| && |q| > 0 && 0 < softMax && Exceeds(format, q, bufpos, softMax)
    ensures var soft := BuffersMax(format, q, softMax);
            && 0 < soft <= bufpos
            && Recover(policy, q, soft, bufpos) <= bufpos
    ensures var r := Recover(policy, q, BuffersMax(format, q, softMax), bufpos);
            0 <= r && (policy == ResyncLatest || policy == ResyncKeyframe) ==> !Exceeds(format, q, r, softMax)
  {
    LagTestIsExact(format, q, softMax, bufpos);
    var r := Recover(policy, q, BuffersMax(format, q, softMax), bufpos);
    if 0 <= r && (policy == ResyncLatest || policy == ResyncKeyframe) {
      LagTestIsExact(format, q, softMax, r);
    }
  }
}
