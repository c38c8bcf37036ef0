// Progress of a job, as the collector computes it once a second and now and then reports it to the tracker
// (client/src/client.cc).
module Progress {
  import opened Arithmetic
  import opened Prelude
  import opened ChunkQueue
  import opened JobMachine
  import opened JobConservation
  import opened JobSafety
  import opened JobTheorems
  import Bitmaps

  const REPORT_PERIOD := 30

  // ----- percentages -----

  /** The set bits per hundred, rounded down. */
  function Percentage(bits: seq<bool>): (p: nat)
    requires bits != []
    ensures p <= 100
  {
    AtMostHundred(Bitmaps.Count(bits), |bits|);
    100 * Bitmaps.Count(bits) / |bits|
  }

  lemma AtMostHundred(count: nat, size: nat)
    requires count <= size && size > 0
    ensures 100 * count / size <= 100
    ensures 100 * count / size == 100 <==> count == size
  {
    var q := 100 * count / size;
    assert size * q <= 100 * count;
    if count < size {
      if q > 100 {
        MulMonotone(size, 100, q);
      }
    } else {
      QuotientRemainder(size, 100, 0);
    }
  }

  /** It is the set bits per hundred, rounded down. */
  lemma PercentageIs(bits: seq<bool>)
    requires bits != []
    ensures var count := |set i | 0 <= i < |bits| && bits[i]|;
            |bits| * Percentage(bits) <= 100 * count < |bits| * (Percentage(bits) + 1)
  {
    Bitmaps.CountIs(bits);
    assert Bitmaps.SetPositions(bits) == set i | 0 <= i < |bits| && bits[i];
    QuotientBounds(100 * Bitmaps.Count(bits), |bits|);
  }

  lemma QuotientBounds(a: nat, n: nat)
    requires n > 0
    ensures n * (a / n) <= a < n * (a / n + 1)
  {
  }

  /**
   * What the collector shows: the percentage, or whatever the cast of the undefined quotient gives for a file
   * without chunks.
   */
  function Shown(bits: seq<bool>, undefined: int): (p: int)
    ensures bits != [] ==> 0 <= p <= 100 && (p == 100 <==> forall i :: 0 <= i < |bits| ==> bits[i])
    ensures bits != [] ==> var count := |set i | 0 <= i < |bits| && bits[i]|;
                           |bits| * p <= 100 * count < |bits| * (p + 1)
    ensures bits == [] ==> p == undefined
  {
    if bits == [] then undefined
    else
      FullIff(bits);
      PercentageIs(bits);
      Percentage(bits)
  }

  ghost predicate Grown(bits: seq<bool>, later: seq<bool>) {
    |bits| == |later| && forall i :: 0 <= i < |bits| && bits[i] ==> later[i]
  }

  lemma {:induction false} CountGrows(bits: seq<bool>, later: seq<bool>)
    requires Grown(bits, later)
    ensures Bitmaps.Count(bits) <= Bitmaps.Count(later)
  {
    if bits != [] {
      CountGrows(bits[..|bits| - 1], later[..|bits| - 1]);
    }
  }

  lemma QuotientGrows(a: nat, b: nat, n: nat)
    requires a <= b && n > 0
    ensures a / n <= b / n
  {
    if b / n < a / n {
      MulMonotone(n, b / n + 1, a / n);
    }
  }

  /** More set bits never lower the percentage. */
  lemma PercentageGrows(bits: seq<bool>, later: seq<bool>)
    requires bits != [] && Grown(bits, later)
    ensures Percentage(bits) <= Percentage(later)
  {
    CountGrows(bits, later);
    QuotientGrows(100 * Bitmaps.Count(bits), 100 * Bitmaps.Count(later), |bits|);
  }

  /** The percentage is 100 exactly when every chunk is there. */
  lemma FullIff(bits: seq<bool>)
    requires bits != []
    ensures Percentage(bits) == 100 <==> forall i :: 0 <= i < |bits| ==> bits[i]
  {
    hide Bitmaps.Count;
    Bitmaps.CountIsFull(bits);
    AtMostHundred(Bitmaps.Count(bits), |bits|);
  }

  /** Reloading divides the same two numbers as integers, so it shows 0 until the file is complete, and then 1. */
  lemma ReloadedPercentage(bits: seq<bool>)
    requires bits != []
    ensures Bitmaps.Count(bits) / |bits| == (if Percentage(bits) == 100 then 1 else 0)
  {
    hide Bitmaps.Count, Percentage;
    FullIff(bits);
    Bitmaps.CountIsFull(bits);
  }

  lemma StepGrows(cfg: Config, s: State, a: Action, f: FileId)
    requires GoodLayout(cfg) && Good(cfg, s) && f in cfg.files
    ensures f in s.store.bits && f in Step(cfg, s, a).store.bits
    ensures Grown(s.store.bits[f], Step(cfg, s, a).store.bits[f])
  {
    hide Step, Good, GoodLayout;
    StepKeepsGood(cfg, s, a);
    ShapeAt(cfg, s, f);
    ShapeAt(cfg, Step(cfg, s, a), f);
    forall i | 0 <= i < |s.store.bits[f]| && s.store.bits[f][i] ensures IsSet(Step(cfg, s, a).store, ChunkId(f, i)) {
      assert IsSet(s.store, ChunkId(f, i));
      StepKeepsBits(cfg, s, a, ChunkId(f, i));
    }
  }

  lemma {:induction false} RunGrows(cfg: Config, s0: State, acts: seq<Action>, more: seq<Action>, f: FileId)
    requires GoodLayout(cfg) && Begins(cfg, s0) && f in cfg.files
    ensures var s, u := Exec(cfg, s0, acts), Exec(cfg, s0, acts + more);
            f in s.store.bits && f in u.store.bits && |s.store.bits[f]| == |cfg.files[f]|
            && Grown(s.store.bits[f], u.store.bits[f])
  {
    hide Step, Good, GoodLayout, Begins, BitsShape;
    if more == [] {
      assert acts + more == acts;
      RunsAreGood(cfg, s0, acts);
      ShapeAt(cfg, Exec(cfg, s0, acts), f);
    } else {
      var n := |more| - 1;
      RunGrows(cfg, s0, acts, more[..n], f);
      RunsAreGood(cfg, s0, acts + more[..n]);
      assert (acts + more)[..|acts + more| - 1] == acts + more[..n];
      StepGrows(cfg, Exec(cfg, s0, acts + more[..n]), more[n], f);
    }
  }

  lemma ShapeAt(cfg: Config, s: State, f: FileId)
    requires Good(cfg, s) && f in cfg.files
    ensures f in s.store.bits && |s.store.bits[f]| == |cfg.files[f]|
  {
    hide Conserved, AllReportedOnce, MeterFits, DiskOk, EndOk;
  }

  /**
   * While a job runs, the percentage of a file never falls, and it is 100 exactly when every chunk of the
   * file has been set.
   */
  lemma ProgressNeverFalls(cfg: Config, s0: State, acts: seq<Action>, more: seq<Action>, f: FileId)
    requires GoodLayout(cfg) && Begins(cfg, s0) && f in cfg.files && cfg.files[f] != []
    ensures var s, u := Exec(cfg, s0, acts), Exec(cfg, s0, acts + more);
            && f in s.store.bits && s.store.bits[f] != [] && f in u.store.bits && u.store.bits[f] != []
            && Percentage(s.store.bits[f]) <= Percentage(u.store.bits[f])
            && (Percentage(u.store.bits[f]) == 100 <==>
                  forall k: nat :: k < |cfg.files[f]| ==> IsSet(u.store, ChunkId(f, k)))
  {
    hide Exec, GoodLayout, Begins, Percentage;
    RunGrows(cfg, s0, acts, more, f);
    var s, u := Exec(cfg, s0, acts), Exec(cfg, s0, acts + more);
    PercentageGrows(s.store.bits[f], u.store.bits[f]);
    FullIff(u.store.bits[f]);
    forall k: nat | k < |cfg.files[f]| ensures IsSet(u.store, ChunkId(f, k)) <==> u.store.bits[f][k] {
    }
  }

  // ----- reports to the tracker -----

  /** The countdown after so many collector ticks; each entry says whether the job was running at its tick. */
  function Countdown(runs: seq<bool>): int {
    if runs == [] then REPORT_PERIOD
    else
      var left := Countdown(runs[..|runs| - 1]) - 1;
      if left == 0 && runs[|runs| - 1] then REPORT_PERIOD else left
  }

  /** The last tick queues a report. */
  predicate Reports(runs: seq<bool>)
    requires runs != []
  {
    Countdown(runs[..|runs| - 1]) - 1 == 0 && runs[|runs| - 1]
  }

  function ReportCount(runs: seq<bool>): nat {
    if runs == [] then 0 else ReportCount(runs[..|runs| - 1]) + if Reports(runs) then 1 else 0
  }

  /** The job ran at every multiple of the period so far. */
  ghost predicate OnTime(runs: seq<bool>) {
    forall i :: 0 <= i < |runs| && (i + 1) % 30 == 0 ==> runs[i]
  }

  lemma OnTimeStep(runs: seq<bool>)
    requires runs != []
    ensures OnTime(runs) <==> OnTime(runs[..|runs| - 1]) && (|runs| % 30 == 0 ==> runs[|runs| - 1])
  {
    var n := |runs| - 1;
    assert forall i :: 0 <= i < n ==> runs[..n][i] == runs[i];
  }

  lemma {:induction false} CountdownIs(runs: seq<bool>)
    ensures OnTime(runs) ==> Countdown(runs) == 30 - |runs| % 30
    ensures !OnTime(runs) ==> Countdown(runs) <= 0
  {
    if runs != [] {
      CountdownIs(runs[..|runs| - 1]);
      OnTimeStep(runs);
    }
  }

  /**
   * A tick reports exactly when its number is a multiple of 30 and the job was running at this and at every
   * earlier multiple of 30: a job that misses one never reports again.
   */
  lemma ReportsIff(runs: seq<bool>)
    requires runs != []
    ensures Reports(runs) <==> |runs| % 30 == 0 && OnTime(runs)
  {
    CountdownIs(runs[..|runs| - 1]);
    OnTimeStep(runs);
  }

  /** A job that runs at every tick reports once every 30 ticks. */
  lemma {:induction false} SteadyReports(runs: seq<bool>)
    requires forall i :: 0 <= i < |runs| ==> runs[i]
    ensures ReportCount(runs) == |runs| / 30
  {
    if runs != [] {
      SteadyReports(runs[..|runs| - 1]);
      ReportsIff(runs);
    }
  }

  // ----- the collector -----

  /** The data of a job that the collector reads and writes. */
  class DownloadInfo {
    var bytesUploadThisSecond: nat
    var bytesDownloadThisSecond: nat
    var uploadTotal: nat
    var downloadTotal: nat
    var timeToNextReport: int
    var bitmapMap: map<FileId, seq<bool>>
    var percentageMap: map<FileId, int>

    constructor (bitmaps: map<FileId, seq<bool>>)
      ensures bitmapMap == bitmaps && timeToNextReport == REPORT_PERIOD
      ensures uploadTotal == downloadTotal == bytesUploadThisSecond == bytesDownloadThisSecond == 0
    {
      bitmapMap, percentageMap, timeToNextReport := bitmaps, map[], REPORT_PERIOD;
      uploadTotal, downloadTotal, bytesUploadThisSecond, bytesDownloadThisSecond := 0, 0, 0, 0;
    }
  }

  datatype ProgressInfo = ProgressInfo(trackerAddress: string, fileid: FileId, percentage: int)

  /** Each file among `ids` has its percentage, and no other entry changed. */
  ghost predicate Scored(bitmaps: map<FileId, seq<bool>>, ids: set<FileId>, undefined: int, before: map<FileId, int>,
                         after: map<FileId, int>)
    requires forall f :: f in ids ==> f in bitmaps
  {
    && (forall f :: f in after <==> f in before || f in ids)
    && (forall f :: f in ids ==> after[f] == Shown(bitmaps[f], undefined))
    && (forall f :: f in before && f !in ids ==> after[f] == before[f])
  }

  /** Each file among `ids` is listed once, with its percentage. */
  ghost predicate Listed(bitmaps: map<FileId, seq<bool>>, ids: set<FileId>, undefined: int, address: string,
                         report: seq<ProgressInfo>)
    requires forall f :: f in ids ==> f in bitmaps
  {
    && |report| == |ids|
    && (forall p :: p in report ==> p.trackerAddress == address && p.fileid in ids
                                    && p.percentage == Shown(bitmaps[p.fileid], undefined))
    && (forall f :: f in ids ==> ProgressInfo(address, f, Shown(bitmaps[f], undefined)) in report)
  }

  lemma ScoredStep(bitmaps: map<FileId, seq<bool>>, ids: set<FileId>, f: FileId, undefined: int,
                   before: map<FileId, int>, after: map<FileId, int>)
    requires forall g :: g in ids + {f} ==> g in bitmaps
    requires Scored(bitmaps, ids, undefined, before, after)
    ensures Scored(bitmaps, ids + {f}, undefined, before, after[f := Shown(bitmaps[f], undefined)])
  {
    hide Shown;
  }

  lemma ListedStep(bitmaps: map<FileId, seq<bool>>, ids: set<FileId>, f: FileId, undefined: int, address: string,
                   report: seq<ProgressInfo>)
    requires forall g :: g in ids + {f} ==> g in bitmaps
    requires f !in ids && Listed(bitmaps, ids, undefined, address, report)
    ensures Listed(bitmaps, ids + {f}, undefined, address,
                   report + [ProgressInfo(address, f, Shown(bitmaps[f], undefined))])
  {
    hide Shown;
  }

  lemma NothingScored(bitmaps: map<FileId, seq<bool>>, undefined: int, before: map<FileId, int>, address: string)
    ensures Scored(bitmaps, {}, undefined, before, before) && Listed(bitmaps, {}, undefined, address, [])
  {
  }

  /** The loop over the files of one job. */
  method ScoreFiles(bitmaps: map<FileId, seq<bool>>, undefined: int, before: map<FileId, int>, needToReport: bool,
                    address: string)
    returns (percentages: map<FileId, int>, report: seq<ProgressInfo>)
    ensures Scored(bitmaps, bitmaps.Keys, undefined, before, percentages)
    ensures if needToReport then Listed(bitmaps, bitmaps.Keys, undefined, address, report) else report == []
  {
    hide Shown, Scored, Listed;
    percentages, report := before, [];
    NothingScored(bitmaps, undefined, before, address);
    var todo, done := bitmaps.Keys, {};
    while todo != {}
      invariant todo <= bitmaps.Keys && done == bitmaps.Keys - todo
      invariant Scored(bitmaps, done, undefined, before, percentages)
      invariant if needToReport then Listed(bitmaps, done, undefined, address, report) else report == []
      decreases todo
    {
      var f :| f in todo;
      var percentage := Shown(bitmaps[f], undefined);
      ScoredStep(bitmaps, done, f, undefined, before, percentages);
      percentages := percentages[f := percentage];
      if needToReport {
        ListedStep(bitmaps, done, f, undefined, address, report);
        report := report + [ProgressInfo(address, f, percentage)];
      }
      todo, done := todo - {f}, done + {f};
    }
    assert done == bitmaps.Keys;
  }

  /** What one tick does to a job whose tasks are quiet. The report lists every file once, if it is due. */
  method CollectJob(info: DownloadInfo, running: bool, trackerAddress: string, undefined: int, ghost runs: seq<bool>)
    returns (report: seq<ProgressInfo>)
    requires info.timeToNextReport == Countdown(runs)
    modifies info
    ensures info.uploadTotal == old(info.uploadTotal + info.bytesUploadThisSecond)
    ensures info.downloadTotal == old(info.downloadTotal + info.bytesDownloadThisSecond)
    ensures info.bytesUploadThisSecond == 0 && info.bytesDownloadThisSecond == 0
    ensures info.bitmapMap == old(info.bitmapMap)
    ensures Scored(info.bitmapMap, info.bitmapMap.Keys, undefined, old(info.percentageMap), info.percentageMap)
    ensures info.timeToNextReport == Countdown(runs + [running])
    ensures if (|runs| + 1) % 30 == 0 && OnTime(runs + [running])
            then Listed(info.bitmapMap, info.bitmapMap.Keys, undefined, trackerAddress, report)
            else report == []
  {
    hide Scored, Listed, OnTime;
    assert (runs + [running])[..|runs|] == runs;
    ReportsIff(runs + [running]);
    var up, down := info.bytesUploadThisSecond, info.bytesDownloadThisSecond;
    info.timeToNextReport := info.timeToNextReport - 1;
    var needToReport := false;
    if info.timeToNextReport == 0 && running {
      needToReport := true;
      info.timeToNextReport := REPORT_PERIOD;
    }
    info.percentageMap, report := ScoreFiles(info.bitmapMap, undefined, info.percentageMap, needToReport,
                                              trackerAddress);
    info.uploadTotal := info.uploadTotal + up;
    info.downloadTotal := info.downloadTotal + down;
    info.bytesUploadThisSecond := 0;
    info.bytesDownloadThisSecond := 0;
  }
}
