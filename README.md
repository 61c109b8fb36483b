# Dump change detection and version bookkeeping of the registry sync tool

The registry sync tool keeps a local copy of a government blocklist registry up
to date. It stores its own bookkeeping in the `Dump` parameter table, a
key-value table of named text parameters: the timestamps of the last normal and
urgent dumps it synchronised, the last action and result, the last request code
and the three version strings the registry's web service announced.

This project models, in Dafny, the part of the tool that works on that table:

- `init_dump_tbl` (db.py), which seeds each of the eight parameters with its
  default value unless a row for it already exists;
- `Core.date_time_xml_to_db` (core.py), which turns an XML date-time into the
  storage form by replacing each `T` with a space;
- `Core.check_service_upd` (core.py), which compares the three version strings
  announced by the registry with the stored ones in a fixed order, builds a
  report paragraph for each change, and persists the new values;
- `Core.check_new_dump` (core.py), which converts the announced millisecond
  timestamps to seconds, selects the normal timestamp, the urgent timestamp or
  the later of the two according to two configuration switches, answers whether
  a new dump is available (also when the last result was `Error`), and records
  `lastAction` and `lastResult`. As written, the method raises `AttributeError`
  at core.py:80 before it answers or writes anything (see "## Findings"); the
  model keeps that behaviour separately and otherwise describes the method
  with the full stop at core.py:80 read as a comma;
- the record shapes `Item`, `IP` and `URL` (db.py) with their column defaults.

Files:

- `wrappers.dfy`: `Option`, `Result` and the Python exceptions the modelled code
  raises (`DoesNotExist`, `ValueError`, `AttributeError`).
- `decimal.dfy`: Python's `int(...)` on the decimal text stored in the table,
  with its inverse and the round trip between them.
- `db.dfy`: the record datatypes, the seeding specification `SeedFrom` with its
  lemmas, and the `DumpTable` class whose `params: map<string, string>` field is
  the table (the parameter name is the primary key, so each name has at most
  one value); `InitDumpTbl` updates it in place.
- `core.dfy`: the pure specification functions of the two checks, their lemmas,
  and the `Core` class whose methods `CheckServiceUpd` and `CheckNewDump` update
  the table step by step and are proved equal to those specifications.
  `CheckServiceUpd` follows the source as written. `CheckNewDump` follows the
  corrected method, with the full stop at core.py:80 read as a comma; the
  method as written is `CheckNewDumpAsWritten` (see "## Findings").

The registry's answer to `get_last_dump_date_ex` (two millisecond timestamps and
three version strings) and the two configuration switches are inputs of the
`Core` object, given to its constructor. Dafny's `/` agrees with Python's `//`
for the positive divisor 1000, so the conversion to seconds is written as
`/ 1000`.

In these places the model follows the code as written:

- Normalising a date does not reject malformed input: every `T` becomes a space
  and nothing else changes.
- Reads of a missing parameter raise `DoesNotExist`, and a stored timestamp
  that is not an integer raises `ValueError`. Both end the call with an error
  and are modelled as `Err` results.
- The reads made to build the log messages count too. The opening log line of
  `check_service_upd` reads all three version rows before anything is written.
  The log lines of `check_new_dump` read both stored timestamps in every mode.
- `Dump.update(...).where(...)` rewrites an existing row and never inserts one.

## Model

| member | source | states |
|---|---|---|
| `Db.NewRecordDefaults` | db.py:21-69 | an `Item` created without them gets urgency type 0, block type 'default' and no purge epoch; an `IP` gets mask 32; every record has its add epoch set and no purge epoch |
| `Db.Names` | db.py:130-169 | the set of parameter names a list of defaults seeds, one per entry |
| `Db.Lookup` | db.py:13-15 | reading a parameter gives its value when the row exists and `DoesNotExist` for that name otherwise |
| `Db.UpdateWhere` | core.py:47 | an update by name rewrites only that row, creates no row and leaves every other row as it was |
| `Db.SeedFromKeys` | db.py:130-169 | after seeding, the table has exactly its old rows plus one row for every seeded name |
| `Db.SeedFromKeeps` | db.py:131-132 | a row that already existed keeps its value |
| `Db.SeedFromFills` | db.py:133-134 | a missing row is created with its default, when the seeded names are distinct |
| `Db.SeedFromCovered` | db.py:130-169 | seeding a table that already has every row changes nothing |
| `Db.SeedFromIdempotent` | db.py:130-169 | seeding twice gives the same table as seeding once |
| `Db.SeedFromSpec` | db.py:130-169 | all of the above together: keys, kept values, defaults and idempotence |
| `Db.DumpDefaultsDistinct` | db.py:130-169 | the eight seeded parameter names are pairwise different |
| `Db.InitDumpTblSpec` | db.py:130-169 | for the eight defaults ('1325376000' twice, 'get_last_dump_date', 'default' twice, '2.2', '3', '4'): all eight rows exist afterwards, old rows keep their values, missing ones hold the default, no other row is added or changed, and a second run changes nothing |
| `Db.DumpTable.constructor` | db.py:13-18 | a `Dump` table object holding the given rows |
| `Db.DumpTable.Get` | db.py:13-15 | `Dump.get`: the same answer as `Lookup` on the current rows, the row's value if it exists and `DoesNotExist` otherwise; the table is not changed |
| `Db.DumpTable.Update` | core.py:47 | the table afterwards is the old one with that row rewritten, if it existed |
| `Db.DumpTable.GetOrCreate` | db.py:131-134 | the row is created with the given value only when it did not exist |
| `Db.DumpTable.InitDumpTbl` | db.py:130-169 | the eight get-or-create steps in source order leave the table equal to the seeding specification, with every parameter present |
| `Decimal.ParseInt` | core.py:68 | `int(...)` of a stored text: all-digit text reads as its decimal value, a leading '+' keeps it and a leading '-' negates it, a lone sign is rejected, and a non-digit anywhere except a leading sign is rejected |
| `Decimal.DigitsValueSnoc` | core.py:68 | appending a digit multiplies the value by ten and adds the digit |
| `Decimal.NatToDigits` | core.py:68 | the decimal digits of a natural number: never empty, digits only, no leading zero |
| `Decimal.IntToString` | core.py:68 | the decimal text of an integer, with a leading '-' exactly for negative numbers |
| `Decimal.DigitsRoundTrip` | core.py:68 | the digits of a natural number read back as that number |
| `Decimal.ParseIntRoundTrip` | core.py:68 | the decimal text of any integer parses back to that integer |
| `Core.DateTimeXmlToDb` | core.py:31-34 | the output has the input's length; each 'T' becomes a space and every other character is unchanged |
| `Core.DateTimeXmlToDbHasNoT` | core.py:33 | the normalised text contains no 'T' |
| `Core.DateTimeXmlToDbIdempotent` | core.py:33 | normalising twice is normalising once |
| `Core.DateTimeXmlToDbConcat` | core.py:33 | normalisation distributes over concatenation |
| `Core.DateTimeXmlToDbFixesNoT` | core.py:33 | a text with no 'T' is left as it is |
| `Core.DateTimeXmlToDbSeparator` | core.py:33 | a date and a time joined by 'T' become the same date and time joined by a space |
| `Core.DateTimeXmlToDbExample` | core.py:33 | '2024-01-02T03:04:05' becomes '2024-01-02 03:04:05' |
| `Core.VersionDiff` | core.py:43-46 | the report paragraph for one field is empty exactly when the stored and announced values are equal |
| `Core.ServiceCheck` | core.py:36-61 | the report fails exactly when a version row is missing, with `DoesNotExist` for the first missing one in the read order webServiceVersion, dumpFormatVersion, docVersion; otherwise it is the paragraphs of the changed fields in the order webservice, dumpFormatVersion, docVersion, each naming the value stored before the call, and it is empty exactly when all three versions are equal |
| `Core.ApplyVersions` | core.py:43-59 | afterwards the three stored versions equal the announced ones; no row is added and every other row is unchanged |
| `Core.ServiceCheckSettles` | core.py:36-61 | a second check against the same announcement reports nothing and writes nothing |
| `Core.Core.CheckVersion` | core.py:43-47 | one field's step: the report gains that field's paragraph and the stored value becomes the announced one |
| `Core.Core.CheckServiceUpd` | core.py:36-61 | the method returns the report of `ServiceCheck` on the table before the call; it leaves the table as `ApplyVersions` describes, or unchanged when it fails |
| `Core.Selected` | core.py:66-75 | urgent switch only: the urgent timestamp; normal switch only: the normal timestamp; both or neither: the later of the two |
| `Core.StoredSeconds` | core.py:68 | a stored timestamp reads as an integer. A missing row fails with `DoesNotExist` and text that is not an integer fails with `ValueError` |
| `Core.StoredTimestamps` | core.py:66-79 | succeeds exactly when both stored timestamps read as integers; otherwise it fails with the first error the source's reads hit. In urgent-only mode that is the urgent timestamp's error, or the normal timestamp's when the urgent one reads. In the other modes it is the normal timestamp's error, or the urgent timestamp's when the normal one reads |
| `Core.NewDumpDecision` | core.py:63-92 | a decision needs both stored timestamps; a negative answer needs a `lastResult` row that is not 'Error' |
| `Core.RecordCheck` | core.py:85-91 | `lastAction` becomes 'getLastDumpDate'. `lastResult` becomes 'NewDump' or 'lastDump'. Every other row, the stored timestamps included, is unchanged, and no row is created |
| `Core.NewDumpDecisionIff` | core.py:66-92 | in all four switch settings, once both stored timestamps parse: the answer is true exactly when the selected announced seconds differ from the selected stored seconds or the last result is 'Error', and the only failure is a missing `lastResult` row |
| `Core.ErrorForcesRetry` | core.py:83 | a stored 'Error' result makes the answer true whatever the timestamps are |
| `Core.UnchangedTimestampsNoNewDump` | core.py:83-92 | if the stored timestamps equal the announced seconds and the last result is not 'Error', the answer is false in every mode |
| `Core.ChecksKeepInitialized` | core.py:43-91 | on a seeded table the version check cannot fail, and both checks keep all eight rows |
| `Core.DefaultTimestampParses` | db.py:134 | the default '1325376000' reads as the integer 1325376000 |
| `Core.SeededTableDecides` | core.py:63-92 | on any table whose timestamp and result rows `init_dump_tbl` created, the new-dump check always reaches a decision |
| `Core.NormalOnlyNewDumpExample` | core.py:69-87 | stored 1325376000, announced 1325462400000 ms, normal-only mode: the answer is true, `lastAction` becomes 'getLastDumpDate' and `lastResult` becomes 'NewDump' |
| `Core.CheckNewDumpAsWritten` | core.py:63-82 | the method as the source has it fails with the timestamp reads' own errors when they fail |
| `Core.AsWrittenNeverDecides` | core.py:80-82 | as written the method never returns an answer; wherever the corrected one decides, it raises `AttributeError` instead |
| `Core.Core.constructor` | core.py:22-29 | a `Core` object holding the table, the registry's timestamp and version answer, and the two switches |
| `Core.Core.ReadStoredSeconds` | core.py:68 | reads one stored timestamp as `StoredSeconds` describes, without changing the table |
| `Core.Core.CheckNewDump` | core.py:63-92 | the method returns `NewDumpDecision` of the table before the call; on an answer it leaves the table as `RecordCheck` describes, and on an error it leaves the table unchanged |

## Findings

| source | as written | input that shows it | evidently intended | confidence | as-written member | corrected member |
|---|---|---|---|---|---|---|
| core.py:80 | the format string of the second log call is followed by a full stop instead of a comma, so Python looks up an attribute `datetime` on a string and raises `AttributeError`; `check_new_dump` never returns and never records `lastAction`/`lastResult` | any call whose stored timestamps read as integers, e.g. the default table with normal-only mode | a comma, passing the two converted dates as the log arguments | high; not executed | `Core.CheckNewDumpAsWritten` (with `Core.AsWrittenNeverDecides`) | `Core.Core.CheckNewDump` (specified by `Core.NewDumpDecision`, with `Core.NewDumpDecisionIff`) |

## Left out

- Logging calls are left out. The model keeps only the parameter reads that their arguments perform.
- Local-time formatting with `datetime.fromtimestamp(...).strftime` is left out. It depends on the local timezone.
- `datetime.fromtimestamp` can fail on timestamps outside the platform's range. That failure is not modelled.
- `Core.__init__` calls the registry's `get_last_dump_date_ex` over the network. The model takes that answer as a constructor argument instead.
- The `transact`, `code` and `code_id` fields of `Core` are left out. No modelled method uses them.
- `send_request` is left out. It is truncated in the source and calls the remote service.
- `rkn_info.py` is left out. It wraps a SOAP client, checks that files exist and base64-encodes file contents before remote calls.
- `init_db` is left out. It selects the database engine, connects, and issues `CREATE DATABASE` and `GRANT` statements, all of which is I/O.
- `init_db` also refers to `os.path.abstract` and to an undefined `Domain` model. These are not modelled.
- peewee's ORM mechanics are left out: indexes, foreign-key cascades, table creation and transactions.
- The `DNSResolver` and `History` models are left out; they are outside the modelled operations.
- Peewee's implicit integer `id` column of `Item` is not part of the `Item` datatype. `IP.item` and `URL.item` hold that row id as a plain integer.
- Date and date-time columns of `Item` are kept as text.
- Parsing the dump archive and XML, hashing records, and reconciling additions and purges are left out. None of it is in the modelled source.
- Decimal.ParseInt: does not accept text that Python's `int()` also accepts. It rejects surrounding whitespace, underscores between digits and non-ASCII digits. Every value `init_dump_tbl` writes is plain ASCII digits.
