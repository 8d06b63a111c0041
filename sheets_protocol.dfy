/**
 * The discipline exportToGoogleSheets keeps with the Sheets service, stated
 * over the log of calls a run makes. The spreadsheet id in GoogleConfig is a
 * small state machine: empty until a Create succeeds, then bound for good,
 * and every Append goes to the bound id with the fixed range, the RAW input
 * option and a two-cell row.
 */
module SheetsProtocol {
  import opened Prelude
  import opened Paths
  import opened BatchSpec
  import Base64

  /** The id after one call made while the id was cur, or None when the call breaks the discipline. */
  function Transition(apiKey: bool, cur: string, c: Call): Option<string> {
    match c
    case Create(title, reply) =>
      if cur == "" && !apiKey && title == Title then Some(if reply.Some? then reply.value else "") else None
    case Append(sid, range, row, inputOption, _) =>
      if cur != "" && sid == cur && range == SheetRange && |row| == 2 && inputOption == RawInput then Some(cur)
      else None
  }

  /** The id after a whole log of calls, starting from id, or None when some call breaks the discipline. */
  function Replay(apiKey: bool, id: string, calls: seq<Call>): Option<string>
    decreases |calls|
  {
    if calls == [] then Some(id)
    else match Replay(apiKey, id, calls[..|calls| - 1])
      case None => None
      case Some(cur) => Transition(apiKey, cur, calls[|calls| - 1])
  }

  /** The service hands out non-empty ids when a Create succeeds. */
  ghost predicate ValidReplies(rm: Remote) {
    forall i :: 0 <= i < |rm.createReplies| && rm.createReplies[i].Some? ==> rm.createReplies[i].value != ""
  }

  /** A Create that bound nothing: it failed, or returned an empty id. */
  predicate FailedCreate(c: Call) {
    c.Create? && (c.reply.None? || c.reply.value == "")
  }

  /** The rows of the successful Append calls, in order. */
  function OkRows(calls: seq<Call>): seq<seq<string>>
    decreases |calls|
  {
    if calls == [] then []
    else
      var last := calls[|calls| - 1];
      OkRows(calls[..|calls| - 1]) + (if last.Append? && last.ok then [last.row] else [])
  }

  /** The row a report stands for: for a converted entry, its name and the Base64 of its decoded bytes. */
  function RowFor(d: Disk, s: Settings, r: Report): seq<seq<string>> {
    if r.Converted? then
      match Load(d, Join(s.srcFolder, r.name))
      case Ok(ascii) => [[r.name, Base64.EncodeToString(ascii)]]
      case Err(_) => []
    else []
  }

  /** The rows a run in spreadsheet mode is meant to have stored: one per converted entry, in order. */
  function ExpectedRows(d: Disk, s: Settings, reports: seq<Report>): seq<seq<string>>
    decreases |reports|
  {
    if reports == [] then []
    else ExpectedRows(d, s, reports[..|reports| - 1]) + RowFor(d, s, reports[|reports| - 1])
  }

  // ---------------------------------------------------------------------------
  // The replay
  // ---------------------------------------------------------------------------

  /** Replaying two logs one after the other is replaying their concatenation. */
  lemma {:induction false} ReplayConcat(apiKey: bool, id: string, a: seq<Call>, b: seq<Call>)
    ensures Replay(apiKey, id, a + b) ==
      match Replay(apiKey, id, a)
      case None => None
      case Some(mid) => Replay(apiKey, mid, b)
    decreases |b|
  {
    if b == [] {
      assert a + b == a;
    } else {
      var init := b[..|b| - 1];
      assert (a + b)[..|a + b| - 1] == a + init;
      ReplayConcat(apiKey, id, a, init);
    }
  }

  /** OkRows of two logs one after the other. */
  lemma {:induction false} OkRowsConcat(a: seq<Call>, b: seq<Call>)
    ensures OkRows(a + b) == OkRows(a) + OkRows(b)
    decreases |b|
  {
    if b == [] {
      assert a + b == a;
    } else {
      var init := b[..|b| - 1];
      assert (a + b)[..|a + b| - 1] == a + init;
      OkRowsConcat(a, init);
    }
  }

  /**
   * What a log that keeps the discipline says: with an id bound at the start,
   * or with an API key, no spreadsheet is created and the id stays; every
   * Append goes to the final id; and every call before a Create is a failed
   * Create, so the id is bound at most once.
   */
  lemma {:induction false} ReplayConsequences(apiKey: bool, id: string, calls: seq<Call>, final: string)
    requires Replay(apiKey, id, calls) == Some(final)
    ensures id != "" || apiKey ==> final == id && forall i :: 0 <= i < |calls| ==> !calls[i].Create?
    ensures forall i :: 0 <= i < |calls| && calls[i].Append? ==> calls[i].spreadsheetId == final != ""
    ensures forall i, j :: 0 <= i < j < |calls| && calls[j].Create? ==> FailedCreate(calls[i])
    decreases |calls|
  {
    if calls != [] {
      var init, last := calls[..|calls| - 1], calls[|calls| - 1];
      var mid := Replay(apiKey, id, init).value;
      ReplayConsequences(apiKey, id, init, mid);
      assert Transition(apiKey, mid, last) == Some(final);
      forall i, j | 0 <= i < j < |calls| && calls[j].Create? ensures FailedCreate(calls[i]) {
        if j == |calls| - 1 {
          // mid is still empty: the last call of init was a failed Create, and the
          // calls before it were failed Creates by induction.
          assert mid == "";
          assert calls[i] == init[i];
        } else {
          assert calls[i] == init[i] && calls[j] == init[j];
        }
      }
      forall i | 0 <= i < |calls| && calls[i].Append? ensures calls[i].spreadsheetId == final != "" {
        if i < |init| {
          assert calls[i] == init[i];
          assert mid != "";
        }
      }
    }
  }

  // ---------------------------------------------------------------------------
  // The sink keeps the discipline
  // ---------------------------------------------------------------------------

  /** The calls made since rm0, given that rm extends rm0's log. */
  function NewCalls(rm0: Remote, rm: Remote): seq<Call>
    requires rm0.calls <= rm.calls
  {
    rm.calls[|rm0.calls|..]
  }

  /**
   * Sending one row keeps the discipline, keeps the service's ids valid, and
   * stores the row exactly when it succeeds.
   */
  lemma SendRowFollowsProtocol(rm: Remote, row: seq<string>)
    requires ValidReplies(rm) && |row| == 2
    ensures var (rm', err) := SendRow(rm, row);
      && rm.calls <= rm'.calls
      && Replay(rm.useApiKey, rm.spreadsheetId, NewCalls(rm, rm')) == Some(rm'.spreadsheetId)
      && ValidReplies(rm')
      && OkRows(NewCalls(rm, rm')) == (if err.None? then [row] else [])
  {
    var (rm', err) := SendRow(rm, row);
    var n := |rm.calls|;
    if rm.spreadsheetId == "" && rm.useApiKey {
      assert NewCalls(rm, rm') == [];
    } else if rm.spreadsheetId == "" {
      var (rm1, created) := CreateSpreadsheet(rm);
      var c := rm1.calls[n];
      assert rm1.calls[n..] == [c];
      assert [c][..0] == [];
      if created.None? {
        assert rm' == rm1;
      } else {
        assert created.value != "" by {
          assert rm.createReplies[0].Some?;
        }
        var rm2 := rm1.(spreadsheetId := created.value);
        var (rm3, ok) := AppendRow(rm2, row);
        assert rm' == rm3;
        var c2 := rm3.calls[n + 1];
        assert rm3.calls[n..] == [c, c2];
        assert [c, c2][..1] == [c];
        assert Replay(rm.useApiKey, rm.spreadsheetId, [c]) == Some(created.value);
        assert OkRows([c]) == [];
      }
    } else {
      var (rm3, ok) := AppendRow(rm, row);
      assert rm' == rm3;
      var c := rm3.calls[n];
      assert rm3.calls[n..] == [c];
      assert [c][..0] == [];
    }
  }

  /** One pass of the loop body keeps the discipline and stores the rows its report promises. */
  lemma StepFollowsProtocol(w: World, e: Entry, s: Settings)
    requires ValidReplies(w.remote)
    ensures var (w', reports) := Step(w, e, s);
      && |reports| <= 1
      && w.remote.calls <= w'.remote.calls
      && w'.remote.useApiKey == w.remote.useApiKey
      && Replay(w.remote.useApiKey, w.remote.spreadsheetId, NewCalls(w.remote, w'.remote)) == Some(w'.remote.spreadsheetId)
      && ValidReplies(w'.remote)
      && (s.option == GoogleSheets ==>
            w'.disk == w.disk.(readLog := w'.disk.readLog) &&
            OkRows(NewCalls(w.remote, w'.remote)) == ExpectedRows(w.disk, s, reports))
  {
    var (w', reports) := Step(w, e, s);
    if e.isDir || s.option == LocalFolder {
      assert NewCalls(w.remote, w'.remote) == [];
      assert reports == [] || reports == [reports[0]];
      if !e.isDir {
        assert [reports[0]][..0] == [];
      }
    } else {
      var src := Join(s.srcFolder, e.name);
      assert reports == [Outcome(e.name, Export(w, src, e.name).1)];
      assert [reports[0]][..0] == [];
      match Load(w.disk, src)
      case Err(_) =>
        assert NewCalls(w.remote, w'.remote) == [];
      case Ok(ascii) =>
        SendRowFollowsProtocol(w.remote, [e.name, Base64.EncodeToString(ascii)]);
    }
  }

  /**
   * A whole run keeps the discipline: the id is bound at most once, nothing is
   * created with an API key, and in spreadsheet mode the rows stored are
   * exactly one per converted entry, [name, Base64 of its decoded bytes], in
   * listing order.
   */
  lemma {:induction false} RunFollowsProtocol(w: World, es: seq<Entry>, s: Settings)
    requires ValidReplies(w.remote)
    ensures var (w', reports) := Run(w, es, s);
      && w.remote.calls <= w'.remote.calls
      && w'.remote.useApiKey == w.remote.useApiKey
      && Replay(w.remote.useApiKey, w.remote.spreadsheetId, NewCalls(w.remote, w'.remote)) == Some(w'.remote.spreadsheetId)
      && ValidReplies(w'.remote)
      && (s.option == GoogleSheets ==>
            w'.disk == w.disk.(readLog := w'.disk.readLog) &&
            OkRows(NewCalls(w.remote, w'.remote)) == ExpectedRows(w.disk, s, reports))
  {
    if es != [] {
      var init, last := es[..|es| - 1], es[|es| - 1];
      RunFollowsProtocol(w, init, s);
      var (w1, r1) := Run(w, init, s);
      StepFollowsProtocol(w1, last, s);
      var (w2, r2) := Step(w1, last, s);
      RemoteCompose(w.remote, w1.remote, w2.remote);
      if s.option == GoogleSheets {
        RowsCompose(w.disk, w1.disk, s, r1, r2);
      }
    }
  }

  /** Two stretches of calls that each keep the discipline keep it together; their stored rows add up. */
  lemma RemoteCompose(rm0: Remote, rm1: Remote, rm2: Remote)
    requires rm0.calls <= rm1.calls && rm1.calls <= rm2.calls && rm1.useApiKey == rm0.useApiKey
    requires Replay(rm0.useApiKey, rm0.spreadsheetId, NewCalls(rm0, rm1)) == Some(rm1.spreadsheetId)
    requires Replay(rm1.useApiKey, rm1.spreadsheetId, NewCalls(rm1, rm2)) == Some(rm2.spreadsheetId)
    ensures rm0.calls <= rm2.calls
    ensures Replay(rm0.useApiKey, rm0.spreadsheetId, NewCalls(rm0, rm2)) == Some(rm2.spreadsheetId)
    ensures OkRows(NewCalls(rm0, rm2)) == OkRows(NewCalls(rm0, rm1)) + OkRows(NewCalls(rm1, rm2))
  {
    var a, b := NewCalls(rm0, rm1), NewCalls(rm1, rm2);
    assert NewCalls(rm0, rm2) == a + b;
    ReplayConcat(rm0.useApiKey, rm0.spreadsheetId, a, b);
    OkRowsConcat(a, b);
  }

  /** The expected rows of the reports so far, then of one more step's reports, read on the same files. */
  lemma RowsCompose(d: Disk, d1: Disk, s: Settings, r1: seq<Report>, r2: seq<Report>)
    requires d1 == d.(readLog := d1.readLog) && |r2| <= 1
    ensures ExpectedRows(d, s, r1 + r2) == ExpectedRows(d, s, r1) + ExpectedRows(d1, s, r2)
  {
    ExpectedRowsIgnoresReadLog(d, d1, s, r2);
    if r2 == [] {
      assert r1 + r2 == r1;
    } else {
      assert r2 == [r2[0]] && [r2[0]][..0] == [];
      assert (r1 + r2)[..|r1|] == r1;
    }
  }

  /** Reading a file does not change what it decodes to. */
  lemma {:induction false} ExpectedRowsIgnoresReadLog(d: Disk, d': Disk, s: Settings, reports: seq<Report>)
    requires d' == d.(readLog := d'.readLog)
    ensures ExpectedRows(d', s, reports) == ExpectedRows(d, s, reports)
    decreases |reports|
  {
    if reports != [] {
      ExpectedRowsIgnoresReadLog(d, d', s, reports[..|reports| - 1]);
    }
  }

  /**
   * The spreadsheet id of GoogleConfig moves from empty to bound at most once:
   * a run that starts with an id keeps it and creates nothing, a run with an
   * API key creates nothing, every row goes to the final id, and every call
   * before a Create is a failed Create.
   */
  lemma SpreadsheetBoundAtMostOnce(w: World, es: seq<Entry>, s: Settings)
    requires ValidReplies(w.remote)
    ensures w.remote.calls <= Run(w, es, s).0.remote.calls
    ensures var w' := Run(w, es, s).0;
      var calls := w'.remote.calls[|w.remote.calls|..];
      && (w.remote.spreadsheetId != "" || w.remote.useApiKey ==>
            w'.remote.spreadsheetId == w.remote.spreadsheetId && forall i :: 0 <= i < |calls| ==> !calls[i].Create?)
      && (forall i :: 0 <= i < |calls| && calls[i].Append? ==> calls[i].spreadsheetId == w'.remote.spreadsheetId != "")
      && (forall i, j :: 0 <= i < j < |calls| && calls[j].Create? ==> FailedCreate(calls[i]))
  {
    RunFollowsProtocol(w, es, s);
    var w' := Run(w, es, s).0;
    ReplayConsequences(w.remote.useApiKey, w.remote.spreadsheetId, NewCalls(w.remote, w'.remote), w'.remote.spreadsheetId);
  }

  /**
   * With an API key and no spreadsheet id every regular entry fails and no
   * call reaches the service.
   */
  lemma {:induction false} ApiKeyWithoutIdFailsEveryFile(w: World, es: seq<Entry>, s: Settings)
    requires s.option == GoogleSheets && w.remote.spreadsheetId == "" && w.remote.useApiKey
    ensures Run(w, es, s).0.remote == w.remote
    ensures forall r :: r in Run(w, es, s).1 ==> r.Failed?
  {
    if es != [] {
      ApiKeyWithoutIdFailsEveryFile(w, es[..|es| - 1], s);
    }
  }
}
