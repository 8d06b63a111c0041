/**
 * Properties of whole runs of the processFiles loop: one report per regular
 * entry whatever fails, cancellation that only cuts the run short, the two
 * export modes leaving each other's state alone, and re-running a finished
 * local batch changing nothing.
 */
module BatchRuns {
  import opened Prelude
  import opened Paths
  import opened BatchSpec

  /** The names of the entries that are not directories, in listing order. */
  function RegularNames(es: seq<Entry>): (names: seq<string>)
    ensures |names| <= |es|
  {
    if es == [] then []
    else RegularNames(es[..|es| - 1]) + (if es[|es| - 1].isDir then [] else [es[|es| - 1].name])
  }

  /** A report about one entry (as opposed to the listing failure or the interruption). */
  predicate PerEntry(r: Report) {
    r.Converted? || r.Skipped? || r.Failed?
  }

  /** The source paths of the regular entries. */
  function SourcePaths(es: seq<Entry>, s: Settings): set<Path> {
    set i | 0 <= i < |es| && !es[i].isDir :: Join(s.srcFolder, es[i].name)
  }

  // ---------------------------------------------------------------------------
  // One report per regular entry
  // ---------------------------------------------------------------------------

  /**
   * Every regular entry gets exactly one report, in listing order, whether it
   * was converted, skipped or failed: a failure never stops the loop, and
   * directories get none.
   */
  lemma {:induction false} OneReportPerRegularEntry(w: World, es: seq<Entry>, s: Settings)
    ensures var reports := Run(w, es, s).1;
      |reports| == |RegularNames(es)| &&
      forall j :: 0 <= j < |reports| ==> PerEntry(reports[j]) && reports[j].name == RegularNames(es)[j]
  {
    if es != [] {
      var init, last := es[..|es| - 1], es[|es| - 1];
      OneReportPerRegularEntry(w, init, s);
      var (w1, r1) := Run(w, init, s);
      var (w2, r2) := Step(w1, last, s);
      assert Run(w, es, s).1 == r1 + r2;
      assert RegularNames(es) == RegularNames(init) + (if last.isDir then [] else [last.name]);
    }
  }

  /** The reports of a run over a prefix of the listing are a prefix of the full run's reports. */
  lemma {:induction false} RunPrefix(w: World, es: seq<Entry>, s: Settings, k: nat)
    requires k <= |es|
    ensures Run(w, es[..k], s).1 <= Run(w, es, s).1
  {
    if k < |es| {
      var init := es[..|es| - 1];
      assert init[..k] == es[..k];
      RunPrefix(w, init, s, k);
    } else {
      assert es[..k] == es;
    }
  }

  // ---------------------------------------------------------------------------
  // Reads
  // ---------------------------------------------------------------------------

  /** One step reads nothing, or, for a regular entry, its own source file. */
  lemma StepReads(w: World, e: Entry, s: Settings)
    ensures var log := Step(w, e, s).0.disk.readLog;
      log == w.disk.readLog || (!e.isDir && log == w.disk.readLog + [Join(s.srcFolder, e.name)])
  {
  }

  /** A run reads only the source files of its own regular entries. */
  lemma {:induction false} RunReadsOnlyItsSources(w: World, es: seq<Entry>, s: Settings)
    ensures var log := Run(w, es, s).0.disk.readLog;
      w.disk.readLog <= log &&
      forall p :: p in log[|w.disk.readLog|..] ==> p in SourcePaths(es, s)
  {
    if es != [] {
      var init, last := es[..|es| - 1], es[|es| - 1];
      RunReadsOnlyItsSources(w, init, s);
      var w1 := Run(w, init, s).0;
      StepReads(w1, last, s);
      var log := Run(w, es, s).0.disk.readLog;
      assert log == Step(w1, last, s).0.disk.readLog;
      forall p | p in log[|w.disk.readLog|..] ensures p in SourcePaths(es, s) {
        var n0, n1 := |w.disk.readLog|, |w1.disk.readLog|;
        var k :| n0 <= k < |log| && log[k] == p;
        if k < n1 {
          assert p in w1.disk.readLog[n0..];
          assert p in SourcePaths(init, s);
          var i :| 0 <= i < |init| && !init[i].isDir && p == Join(s.srcFolder, init[i].name);
          assert es[i] == init[i];
        } else {
          assert !last.isDir && p == Join(s.srcFolder, last.name);
          assert es[|es| - 1] == last;
        }
      }
    }
  }

  // ---------------------------------------------------------------------------
  // Cancellation
  // ---------------------------------------------------------------------------

  /**
   * Cancellation observed before entry k: the reports of the entries before k
   * are those a full run would give, exactly those entries are reported, the
   * run ends with the interruption, and no later entry's source is read.
   */
  lemma CancellationOnlyCutsShort(w: World, es: seq<Entry>, s: Settings, k: nat)
    requires k < |es|
    ensures var (w', reports) := ProcessFiles(w, Some(es), s, k);
      && |reports| == |RegularNames(es[..k])| + 1
      && reports[|reports| - 1] == Interrupted
      && reports[..|reports| - 1] <= Run(w, es, s).1
      && w.disk.readLog <= w'.disk.readLog
      && forall p :: p in w'.disk.readLog[|w.disk.readLog|..] ==> p in SourcePaths(es[..k], s)
  {
    var r := Run(w, es[..k], s);
    assert ProcessFiles(w, Some(es), s, k) == (r.0, r.1 + [Interrupted]);
    assert (r.1 + [Interrupted])[..|r.1|] == r.1;
    OneReportPerRegularEntry(w, es[..k], s);
    RunPrefix(w, es, s, k);
    RunReadsOnlyItsSources(w, es[..k], s);
  }

  /** An unreadable listing ends processFiles before any entry: nothing changes. */
  lemma ListingFailureTouchesNothing(w: World, s: Settings, cancelAt: nat)
    ensures ProcessFiles(w, None, s, cancelAt) == (w, [ListingFailed])
  {
  }

  // ---------------------------------------------------------------------------
  // The two modes
  // ---------------------------------------------------------------------------

  /** The local mode makes no spreadsheet call; the spreadsheet mode writes no file. */
  lemma {:induction false} ModesAreSeparate(w: World, es: seq<Entry>, s: Settings)
    ensures s.option == LocalFolder ==> Run(w, es, s).0.remote == w.remote
    ensures s.option == GoogleSheets ==> Run(w, es, s).0.disk.files == w.disk.files
  {
    if es != [] {
      ModesAreSeparate(w, es[..|es| - 1], s);
    }
  }

  // ---------------------------------------------------------------------------
  // Re-running a local batch
  // ---------------------------------------------------------------------------

  /** Every regular entry's destination exists. */
  ghost predicate AllDestinationsExist(d: Disk, es: seq<Entry>, s: Settings) {
    forall i :: 0 <= i < |es| && !es[i].isDir ==> FileExists(d, DestPath(s.dstFolder, es[i].name))
  }

  /**
   * A local step deletes nothing, and when it did not fail the entry's
   * destination exists afterwards (converted now, or skipped as existing).
   */
  lemma LocalStepLeavesDestination(w: World, e: Entry, s: Settings)
    requires s.option == LocalFolder
    ensures var (w', reports) := Step(w, e, s);
      && (forall p :: FileExists(w.disk, p) ==> FileExists(w'.disk, p))
      && (!e.isDir && NoneFailed(reports) ==>
            FileExists(w'.disk, DestPath(s.dstFolder, e.name)))
  {
    if !e.isDir {
      var r := LocalStep(w, e.name, s);
      assert Step(w, e, s) == (r.0, [r.1]);
      assert NoneFailed([r.1]) ==> !r.1.Failed? by {
        assert [r.1][0] == r.1;
      }
    }
  }

  /** No report in the list is a failure. */
  predicate NoneFailed(reports: seq<Report>) {
    forall j :: 0 <= j < |reports| ==> !reports[j].Failed?
  }

  /** A list without failures splits into two lists without failures. */
  lemma NoneFailedSplit(a: seq<Report>, b: seq<Report>)
    requires NoneFailed(a + b)
    ensures NoneFailed(a) && NoneFailed(b)
  {
    assert forall j :: 0 <= j < |a| ==> (a + b)[j] == a[j];
    assert forall j :: 0 <= j < |b| ==> (a + b)[|a| + j] == b[j];
  }

  /** The destinations of a listing, given those of all but its last entry and the last one's own. */
  lemma DestinationsExtend(d: Disk, es: seq<Entry>, s: Settings)
    requires es != [] && AllDestinationsExist(d, es[..|es| - 1], s)
    requires !es[|es| - 1].isDir ==> FileExists(d, DestPath(s.dstFolder, es[|es| - 1].name))
    ensures AllDestinationsExist(d, es, s)
  {
    forall i | 0 <= i < |es| - 1 ensures es[i] == es[..|es| - 1][i] {}
  }

  /** Existing destinations stay existing on a disk that deletes nothing. */
  lemma DestinationsPersist(d: Disk, d': Disk, es: seq<Entry>, s: Settings)
    requires AllDestinationsExist(d, es, s)
    requires forall p :: FileExists(d, p) ==> FileExists(d', p)
    ensures AllDestinationsExist(d', es, s)
  {
  }

  /** After a local run in which nothing failed, every regular entry's destination exists. */
  lemma {:induction false} CleanRunLeavesDestinations(w: World, es: seq<Entry>, s: Settings)
    requires s.option == LocalFolder
    requires NoneFailed(Run(w, es, s).1)
    ensures AllDestinationsExist(Run(w, es, s).0.disk, es, s)
  {
    if es != [] {
      var init, last := es[..|es| - 1], es[|es| - 1];
      var (w1, r1) := Run(w, init, s);
      var (w2, r2) := Step(w1, last, s);
      NoneFailedSplit(r1, r2);
      CleanRunLeavesDestinations(w, init, s);
      LocalStepLeavesDestination(w1, last, s);
      DestinationsPersist(w1.disk, w2.disk, init, s);
      DestinationsExtend(w2.disk, es, s);
    }
  }

  /** When every destination already exists, a local run skips every regular entry and changes nothing. */
  lemma {:induction false} ExistingDestinationsSkipAll(w: World, es: seq<Entry>, s: Settings)
    requires s.option == LocalFolder
    requires AllDestinationsExist(w.disk, es, s)
    ensures Run(w, es, s).0 == w
    ensures forall r :: r in Run(w, es, s).1 ==> r.Skipped?
  {
    if es != [] {
      var init, last := es[..|es| - 1], es[|es| - 1];
      DestinationsOfPrefix(w.disk, es, s);
      ExistingDestinationsSkipAll(w, init, s);
      if !last.isDir {
        ExistingDestinationIsSkipped(w, last, s);
      }
    }
  }

  /** The destinations of a listing include those of all but its last entry. */
  lemma DestinationsOfPrefix(d: Disk, es: seq<Entry>, s: Settings)
    requires es != [] && AllDestinationsExist(d, es, s)
    ensures AllDestinationsExist(d, es[..|es| - 1], s)
    ensures !es[|es| - 1].isDir ==> FileExists(d, DestPath(s.dstFolder, es[|es| - 1].name))
  {
    forall i | 0 <= i < |es| - 1 ensures es[..|es| - 1][i] == es[i] {}
  }

  /**
   * Idempotent skip: running a local batch again after a run in which nothing
   * failed skips every entry and changes nothing.
   */
  lemma RerunChangesNothing(w: World, es: seq<Entry>, s: Settings)
    requires s.option == LocalFolder
    requires NoneFailed(Run(w, es, s).1)
    ensures var w1 := Run(w, es, s).0;
      Run(w1, es, s).0 == w1 && forall r :: r in Run(w1, es, s).1 ==> r.Skipped?
  {
    CleanRunLeavesDestinations(w, es, s);
    ExistingDestinationsSkipAll(Run(w, es, s).0, es, s);
  }
}
