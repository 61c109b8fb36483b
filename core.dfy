/**
 The change detection and version bookkeeping of the registry sync tool
 (core.py): normalising XML dates for storage, comparing the web service's
 version strings with the stored ones, and deciding whether the registry has
 published a new dump since the last sync. The remote answer of
 `get_last_dump_date_ex` and the two configuration flags are inputs; the
 `Dump` parameter table is the state these operations read and update.
 */
module Core {
  import opened Wrappers
  import opened Decimal
  import opened Db

  /** The answer of the registry's `get_last_dump_date_ex`: the two dump
      timestamps in epoch MILLISECONDS and the three version strings. */
  datatype LastDumpDateEx = LastDumpDateEx(
    lastDumpDate: int,
    lastDumpDateUrgently: int,
    webServiceVersion: string,
    dumpFormatVersion: string,
    docVersion: string)

  /** The two configuration switches `cfg.lastDumpDateUrgently()` and
      `cfg.lastDumpDate()`: which dump kinds the tool follows. */
  datatype Config = Config(lastDumpDateUrgently: bool, lastDumpDate: bool)

  // ---------------------------------------------------------------------------
  // Date normalisation

  /** `date_time_xml_to_db` (a static method of `Core`): every 'T' becomes a
      space, every other character stays where it is. */
  function DateTimeXmlToDb(s: string): (r: string)
    ensures |r| == |s|
    ensures forall i :: 0 <= i < |s| ==> r[i] == (if s[i] == 'T' then ' ' else s[i])
  {
    if s == [] then [] else [if s[0] == 'T' then ' ' else s[0]] + DateTimeXmlToDb(s[1..])
  }

  lemma DateTimeXmlToDbHasNoT(s: string)
    ensures 'T' !in DateTimeXmlToDb(s)
  {
  }

  lemma DateTimeXmlToDbIdempotent(s: string)
    ensures DateTimeXmlToDb(DateTimeXmlToDb(s)) == DateTimeXmlToDb(s)
  {
  }

  /** Normalisation works character by character, so it distributes over
      concatenation. */
  lemma {:induction false} DateTimeXmlToDbConcat(a: string, b: string)
    ensures DateTimeXmlToDb(a + b) == DateTimeXmlToDb(a) + DateTimeXmlToDb(b)
    decreases |a|
  {
    if a != [] {
      assert (a + b)[1..] == a[1..] + b;
      DateTimeXmlToDbConcat(a[1..], b);
    }
  }

  /** A text without any 'T' is already in storage form. */
  lemma DateTimeXmlToDbFixesNoT(s: string)
    requires 'T' !in s
    ensures DateTimeXmlToDb(s) == s
  {
  }

  /** An XML date-time, a date and a time joined by 'T', becomes the same
      date and time joined by a space. */
  lemma DateTimeXmlToDbSeparator(date: string, time: string)
    requires 'T' !in date && 'T' !in time
    ensures DateTimeXmlToDb(date + "T" + time) == date + " " + time
  {
    DateTimeXmlToDbFixesNoT(date);
    DateTimeXmlToDbFixesNoT(time);
    DateTimeXmlToDbConcat(date, "T");
    DateTimeXmlToDbConcat(date + "T", time);
  }

  lemma DateTimeXmlToDbExample()
    ensures DateTimeXmlToDb("2024-01-02" + "T" + "03:04:05") == "2024-01-02" + " " + "03:04:05"
  {
    DateTimeXmlToDbSeparator("2024-01-02", "03:04:05");
  }

  // ---------------------------------------------------------------------------
  // Service versions

  /** The paragraph of the version report for one changed field. */
  function VersionBlock(field: string, current: string, announced: string): string {
    "Current " + field + ":" + current + "\nNew " + field + ": " + announced + "\n\n"
  }

  /** The paragraph for one field, present exactly when the stored and the
      announced value differ. */
  function VersionDiff(field: string, current: string, announced: string): (block: string)
    ensures block == "" <==> current == announced
  {
    if announced != current then VersionBlock(field, current, announced) else ""
  }

  /** The report `check_service_upd` returns, computed from the table before
      the call: the reads made for its opening log line raise `DoesNotExist`
      for a missing version row before anything is written. */
  function ServiceCheck(m: map<string, string>, remote: LastDumpDateEx): (r: Result<string>)
    ensures r.Ok? <==> "webServiceVersion" in m && "dumpFormatVersion" in m && "docVersion" in m
    ensures "webServiceVersion" !in m ==> r == Err(DoesNotExist("webServiceVersion"))
    ensures "webServiceVersion" in m && "dumpFormatVersion" !in m ==> r == Err(DoesNotExist("dumpFormatVersion"))
    ensures "webServiceVersion" in m && "dumpFormatVersion" in m && "docVersion" !in m ==>
      r == Err(DoesNotExist("docVersion"))
    ensures r.Ok? ==>
      (r.value == "" <==>
         remote.webServiceVersion == m["webServiceVersion"]
         && remote.dumpFormatVersion == m["dumpFormatVersion"]
         && remote.docVersion == m["docVersion"])
  {
    match Lookup(m, "webServiceVersion")
    case Err(e) => Err(e)
    case Ok(web) =>
      match Lookup(m, "dumpFormatVersion")
      case Err(e) => Err(e)
      case Ok(format) =>
        match Lookup(m, "docVersion")
        case Err(e) => Err(e)
        case Ok(doc) =>
          Ok(VersionDiff("webservice", web, remote.webServiceVersion)
             + VersionDiff("dumpFormatVersion", format, remote.dumpFormatVersion)
             + VersionDiff("docVersion", doc, remote.docVersion))
  }

  /** The table after `check_service_upd` has persisted the announced versions. */
  function ApplyVersions(m: map<string, string>, remote: LastDumpDateEx): (r: map<string, string>)
    ensures r.Keys == m.Keys
    ensures "webServiceVersion" in m ==> r["webServiceVersion"] == remote.webServiceVersion
    ensures "dumpFormatVersion" in m ==> r["dumpFormatVersion"] == remote.dumpFormatVersion
    ensures "docVersion" in m ==> r["docVersion"] == remote.docVersion
    ensures forall k :: k in m && k != "webServiceVersion" && k != "dumpFormatVersion" && k != "docVersion" ==> r[k] == m[k]
  {
    UpdateWhere(UpdateWhere(UpdateWhere(m,
      "webServiceVersion", remote.webServiceVersion),
      "dumpFormatVersion", remote.dumpFormatVersion),
      "docVersion", remote.docVersion)
  }

  /** A second `check_service_upd` against the same answer reports nothing
      and writes nothing. */
  lemma ServiceCheckSettles(m: map<string, string>, remote: LastDumpDateEx)
    requires ServiceCheck(m, remote).Ok?
    ensures ServiceCheck(ApplyVersions(m, remote), remote) == Ok("")
    ensures ApplyVersions(ApplyVersions(m, remote), remote) == ApplyVersions(m, remote)
  {
  }

  // ---------------------------------------------------------------------------
  // New-dump detection

  predicate UrgentOnly(cfg: Config) {
    cfg.lastDumpDateUrgently && !cfg.lastDumpDate
  }

  predicate NormalOnly(cfg: Config) {
    cfg.lastDumpDate && !cfg.lastDumpDateUrgently
  }

  function Max(a: int, b: int): int {
    if a >= b then a else b
  }

  /** The timestamp `check_new_dump` compares, chosen the same way for the
      remote and the stored pair: the urgent one, the normal one, or with
      both switches on or both off the later of the two. */
  function Selected(normal: int, urgent: int, cfg: Config): (t: int)
    ensures UrgentOnly(cfg) ==> t == urgent
    ensures NormalOnly(cfg) ==> t == normal
    ensures cfg.lastDumpDate == cfg.lastDumpDateUrgently ==>
      (t == normal || t == urgent) && t >= normal && t >= urgent
  {
    if UrgentOnly(cfg) then urgent
    else if NormalOnly(cfg) then normal
    else Max(normal, urgent)
  }

  /** `int(Dump.get(Dump.param == name).value)`. */
  function StoredSeconds(m: map<string, string>, name: string): (r: Result<int>)
    ensures name !in m ==> r == Err(DoesNotExist(name))
    ensures name in m ==> (r.Ok? <==> ParseInt(m[name]).Some?)
    ensures r.Ok? ==> name in m && ParseInt(m[name]) == Some(r.value)
    ensures name in m && r.Err? ==> r.error == ValueError(m[name])
  {
    match Lookup(m, name)
    case Err(e) => Err(e)
    case Ok(text) =>
      match ParseInt(text)
      case None => Err(ValueError(text))
      case Some(n) => Ok(n)
  }

  /** Both stored timestamps as integers, or the first exception the reads of
      `check_new_dump` run into: in urgent-only mode it reads the urgent
      timestamp first, otherwise the normal one; the log lines after the
      selection read both. */
  function StoredTimestamps(m: map<string, string>, cfg: Config): (r: Result<(int, int)>)
    ensures r.Ok? <==> StoredSeconds(m, "lastDumpDate").Ok? && StoredSeconds(m, "lastDumpDateUrgently").Ok?
    ensures r.Ok? ==> r.value == (StoredSeconds(m, "lastDumpDate").value, StoredSeconds(m, "lastDumpDateUrgently").value)
    ensures r.Err? && UrgentOnly(cfg) && StoredSeconds(m, "lastDumpDateUrgently").Err? ==>
      r.error == StoredSeconds(m, "lastDumpDateUrgently").error
    ensures r.Err? && !UrgentOnly(cfg) && StoredSeconds(m, "lastDumpDate").Err? ==>
      r.error == StoredSeconds(m, "lastDumpDate").error
    ensures r.Err? && UrgentOnly(cfg) && StoredSeconds(m, "lastDumpDateUrgently").Ok? ==>
      r.error == StoredSeconds(m, "lastDumpDate").error
    ensures r.Err? && !UrgentOnly(cfg) && StoredSeconds(m, "lastDumpDate").Ok? ==>
      r.error == StoredSeconds(m, "lastDumpDateUrgently").error
  {
    var normal := StoredSeconds(m, "lastDumpDate");
    var urgent := StoredSeconds(m, "lastDumpDateUrgently");
    if UrgentOnly(cfg) && urgent.Err? then Err(urgent.error)
    else if normal.Err? then Err(normal.error)
    else if urgent.Err? then Err(urgent.error)
    else Ok((normal.value, urgent.value))
  }

  /** What `check_new_dump` returns on the table `m` before the call. The
      remote milliseconds are turned into seconds by division by 1000, which
      for a positive divisor is Python's floor division. A `lastResult` row is
      only read when the timestamps agree. */
  function NewDumpDecision(m: map<string, string>, remote: LastDumpDateEx, cfg: Config): (r: Result<bool>)
    ensures r.Ok? ==> StoredTimestamps(m, cfg).Ok?
    ensures r.Ok? && !r.value ==> "lastResult" in m && m["lastResult"] != "Error"
  {
    match StoredTimestamps(m, cfg)
    case Err(e) => Err(e)
    case Ok((normal, urgent)) =>
      if Selected(remote.lastDumpDate / 1000, remote.lastDumpDateUrgently / 1000, cfg) != Selected(normal, urgent, cfg) then
        Ok(true)
      else if "lastResult" !in m then
        Err(DoesNotExist("lastResult"))
      else
        Ok(m["lastResult"] == "Error")
  }

  /** The rows `check_new_dump` writes once it has decided: `lastAction`
      always, `lastResult` according to the answer; rows are only rewritten,
      never created. */
  function RecordCheck(m: map<string, string>, newDump: bool): (r: map<string, string>)
    ensures r.Keys == m.Keys
    ensures "lastAction" in m ==> r["lastAction"] == "getLastDumpDate"
    ensures "lastResult" in m ==> r["lastResult"] == (if newDump then "NewDump" else "lastDump")
    ensures forall k :: k in m && k != "lastAction" && k != "lastResult" ==> r[k] == m[k]
  {
    UpdateWhere(UpdateWhere(m, "lastAction", "getLastDumpDate"), "lastResult", if newDump then "NewDump" else "lastDump")
  }

  /** The decision in all four switch settings, both directions: once both
      stored timestamps read as integers, `check_new_dump` answers true
      exactly when the selected timestamps differ or the last result was
      'Error', and fails only for a missing `lastResult` row. */
  lemma NewDumpDecisionIff(m: map<string, string>, remote: LastDumpDateEx, cfg: Config, normal: int, urgent: int)
    requires "lastDumpDate" in m && ParseInt(m["lastDumpDate"]) == Some(normal)
    requires "lastDumpDateUrgently" in m && ParseInt(m["lastDumpDateUrgently"]) == Some(urgent)
    ensures var r := NewDumpDecision(m, remote, cfg);
      var changed := Selected(remote.lastDumpDate / 1000, remote.lastDumpDateUrgently / 1000, cfg) != Selected(normal, urgent, cfg);
      && (r.Ok? <==> changed || "lastResult" in m)
      && (r.Ok? ==> (r.value <==> changed || m["lastResult"] == "Error"))
  {
  }

  /** A stored 'Error' forces a new fetch whatever the timestamps say. */
  lemma ErrorForcesRetry(m: map<string, string>, remote: LastDumpDateEx, cfg: Config)
    requires StoredTimestamps(m, cfg).Ok?
    requires "lastResult" in m && m["lastResult"] == "Error"
    ensures NewDumpDecision(m, remote, cfg) == Ok(true)
  {
  }

  /** In every mode, a table recording exactly the announced seconds, with a
      last result other than 'Error', has no new dump. */
  lemma UnchangedTimestampsNoNewDump(m: map<string, string>, remote: LastDumpDateEx, cfg: Config)
    requires "lastDumpDate" in m && ParseInt(m["lastDumpDate"]) == Some(remote.lastDumpDate / 1000)
    requires "lastDumpDateUrgently" in m && ParseInt(m["lastDumpDateUrgently"]) == Some(remote.lastDumpDateUrgently / 1000)
    requires "lastResult" in m && m["lastResult"] != "Error"
    ensures NewDumpDecision(m, remote, cfg) == Ok(false)
  {
  }

  /** A seeded table keeps every row through both checks, and the version
      check cannot fail on it. */
  lemma ChecksKeepInitialized(m: map<string, string>, remote: LastDumpDateEx, newDump: bool)
    requires Initialized(m)
    ensures ServiceCheck(m, remote).Ok?
    ensures Initialized(ApplyVersions(m, remote))
    ensures Initialized(RecordCheck(m, newDump))
  {
    assert DumpDefaults[6].name == "webServiceVersion";
    assert DumpDefaults[5].name == "dumpFormatVersion";
    assert DumpDefaults[7].name == "docVersion";
  }

  lemma DefaultTimestampParses()
    ensures ParseInt("1325376000") == Some(1325376000)
  {
    var s := "1325376000";
    assert s[..1] == [] + ['1']; DigitsValueSnoc([], '1');
    assert s[..2] == s[..1] + ['3']; DigitsValueSnoc(s[..1], '3');
    assert s[..3] == s[..2] + ['2']; DigitsValueSnoc(s[..2], '2');
    assert s[..4] == s[..3] + ['5']; DigitsValueSnoc(s[..3], '5');
    assert s[..5] == s[..4] + ['3']; DigitsValueSnoc(s[..4], '3');
    assert s[..6] == s[..5] + ['7']; DigitsValueSnoc(s[..5], '7');
    assert s[..7] == s[..6] + ['6']; DigitsValueSnoc(s[..6], '6');
    assert s[..8] == s[..7] + ['0']; DigitsValueSnoc(s[..7], '0');
    assert s[..9] == s[..8] + ['0']; DigitsValueSnoc(s[..8], '0');
    assert s == s[..9] + ['0']; DigitsValueSnoc(s[..9], '0');
  }

  /** On a table whose timestamp and result rows were created by
      `init_dump_tbl`, `check_new_dump` always reaches a decision. */
  lemma SeededTableDecides(m: map<string, string>, remote: LastDumpDateEx, cfg: Config)
    requires "lastDumpDate" !in m && "lastDumpDateUrgently" !in m && "lastResult" !in m
    ensures NewDumpDecision(SeedFrom(m, DumpDefaults), remote, cfg).Ok?
  {
    DumpDefaultsDistinct();
    SeedFromFills(m, DumpDefaults, 0);
    SeedFromFills(m, DumpDefaults, 1);
    SeedFromFills(m, DumpDefaults, 3);
    DefaultTimestampParses();
  }

  /** A stored 1325376000 against an announced 1325462400000 ms in
      normal-only mode: a new dump, recorded as 'NewDump'. */
  lemma NormalOnlyNewDumpExample(m: map<string, string>, remote: LastDumpDateEx)
    requires "lastDumpDate" in m && m["lastDumpDate"] == "1325376000"
    requires StoredSeconds(m, "lastDumpDateUrgently").Ok?
    requires remote.lastDumpDate == 1325462400000
    ensures NewDumpDecision(m, remote, Config(false, true)) == Ok(true)
    ensures "lastAction" in m ==> RecordCheck(m, true)["lastAction"] == "getLastDumpDate"
    ensures "lastResult" in m ==> RecordCheck(m, true)["lastResult"] == "NewDump"
  {
    DefaultTimestampParses();
  }

  // ---------------------------------------------------------------------------
  // check_new_dump as written

  /** `check_new_dump` as the source has it: after the selection, the second
      log call puts a full stop instead of a comma after its format string,
      so Python looks up an attribute `datetime` on that string and raises
      `AttributeError` before anything is written. */
  function CheckNewDumpAsWritten(m: map<string, string>, remote: LastDumpDateEx, cfg: Config): (r: Result<bool>)
    ensures StoredTimestamps(m, cfg).Err? ==> r == Err(StoredTimestamps(m, cfg).error)
  {
    match StoredTimestamps(m, cfg)
    case Err(e) => Err(e)
    case Ok(_) => Err(AttributeError("datetime"))
  }

  /** As written, the method never answers, and on every table where the
      intended one decides it raises `AttributeError` instead. */
  lemma AsWrittenNeverDecides(m: map<string, string>, remote: LastDumpDateEx, cfg: Config)
    ensures CheckNewDumpAsWritten(m, remote, cfg).Err?
    ensures NewDumpDecision(m, remote, cfg).Ok? ==> CheckNewDumpAsWritten(m, remote, cfg) == Err(AttributeError("datetime"))
  {
  }

  // ---------------------------------------------------------------------------
  // The Core object

  class Core {
    const table: DumpTable
    /** The answer of `get_last_dump_date_ex`, fetched once when the object is built. */
    const updateDump: LastDumpDateEx
    const cfg: Config

    constructor (table: DumpTable, updateDump: LastDumpDateEx, cfg: Config)
      ensures this.table == table && this.updateDump == updateDump && this.cfg == cfg
    {
      this.table := table;
      this.updateDump := updateDump;
      this.cfg := cfg;
    }

    /** `int(Dump.get(Dump.param == name).value)`. */
    method ReadStoredSeconds(name: string) returns (r: Result<int>)
      ensures r == StoredSeconds(table.params, name)
    {
      var row := table.Get(name);
      if row.Err? {
        return Err(row.error);
      }
      var n := ParseInt(row.value);
      if n.None? {
        return Err(ValueError(row.value));
      }
      r := Ok(n.value);
    }

    /** One of the three blocks of `check_service_upd`: compares the stored
        value of `param` with the announced one and, if they differ, appends
        the paragraph for `field` to the report and persists the new value. */
    method CheckVersion(param: string, field: string, announced: string, msg: string) returns (msg': string)
      requires param in table.params
      modifies table
      ensures msg' == msg + VersionDiff(field, old(table.params)[param], announced)
      ensures table.params == UpdateWhere(old(table.params), param, announced)
    {
      var current := table.Get(param);
      msg' := msg;
      if announced != current.value {
        msg' := msg + VersionBlock(field, current.value, announced);
        table.Update(param, announced);
      } else {
        assert table.params == table.params[param := announced];
      }
    }

    /** `check_service_upd`: compares the three announced versions with the
        stored ones in a fixed order, reporting and persisting each change. */
    method CheckServiceUpd() returns (r: Result<string>)
      modifies table
      ensures r == ServiceCheck(old(table.params), updateDump)
      ensures table.params == if r.Ok? then ApplyVersions(old(table.params), updateDump) else old(table.params)
    {
      // The opening log line reads all three rows.
      var web := table.Get("webServiceVersion");
      if web.Err? { return Err(web.error); }
      var format := table.Get("dumpFormatVersion");
      if format.Err? { return Err(format.error); }
      var doc := table.Get("docVersion");
      if doc.Err? { return Err(doc.error); }

      ghost var before := table.params;
      ghost var webDiff := VersionDiff("webservice", web.value, updateDump.webServiceVersion);
      ghost var formatDiff := VersionDiff("dumpFormatVersion", format.value, updateDump.dumpFormatVersion);
      ghost var docDiff := VersionDiff("docVersion", doc.value, updateDump.docVersion);
      var msg := "";
      msg := CheckVersion("webServiceVersion", "webservice", updateDump.webServiceVersion, msg);
      assert msg == webDiff;
      msg := CheckVersion("dumpFormatVersion", "dumpFormatVersion", updateDump.dumpFormatVersion, msg);
      assert msg == webDiff + formatDiff;
      msg := CheckVersion("docVersion", "docVersion", updateDump.docVersion, msg);
      assert msg == webDiff + formatDiff + docDiff;
      assert ServiceCheck(before, updateDump) == Ok(webDiff + formatDiff + docDiff);
      r := Ok(msg);
    }

    /** `check_new_dump`, with the log call's punctuation corrected: decides
        whether a new dump is available and records the decision. */
    method CheckNewDump() returns (r: Result<bool>)
      modifies table
      ensures r == NewDumpDecision(old(table.params), updateDump, cfg)
      ensures table.params == if r.Ok? then RecordCheck(old(table.params), r.value) else old(table.params)
    {
      var lastDateDump: int;
      var currentDateDump: int;
      if cfg.lastDumpDateUrgently && !cfg.lastDumpDate {
        lastDateDump := updateDump.lastDumpDateUrgently / 1000;
        var urgent := ReadStoredSeconds("lastDumpDateUrgently");
        if urgent.Err? { return Err(urgent.error); }
        currentDateDump := urgent.value;
      } else if cfg.lastDumpDate && !cfg.lastDumpDateUrgently {
        lastDateDump := updateDump.lastDumpDate / 1000;
        var normal := ReadStoredSeconds("lastDumpDate");
        if normal.Err? { return Err(normal.error); }
        currentDateDump := normal.value;
      } else {
        lastDateDump := Max(updateDump.lastDumpDate / 1000, updateDump.lastDumpDateUrgently / 1000);
        var normal := ReadStoredSeconds("lastDumpDate");
        if normal.Err? { return Err(normal.error); }
        var urgent := ReadStoredSeconds("lastDumpDateUrgently");
        if urgent.Err? { return Err(urgent.error); }
        currentDateDump := Max(normal.value, urgent.value);
      }

      // The log lines read both stored timestamps as integers.
      var loggedNormal := ReadStoredSeconds("lastDumpDate");
      if loggedNormal.Err? { return Err(loggedNormal.error); }
      var loggedUrgent := ReadStoredSeconds("lastDumpDateUrgently");
      if loggedUrgent.Err? { return Err(loggedUrgent.error); }

      var newDump := lastDateDump != currentDateDump;
      if !newDump {
        var lastResult := table.Get("lastResult");
        if lastResult.Err? { return Err(lastResult.error); }
        newDump := lastResult.value == "Error";
      }
      table.Update("lastAction", "getLastDumpDate");
      if newDump {
        table.Update("lastResult", "NewDump");
      } else {
        table.Update("lastResult", "lastDump");
      }
      r := Ok(newDump);
    }
  }
}
