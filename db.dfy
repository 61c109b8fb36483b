/**
 The storage side of the registry sync tool (db.py): the record shapes of the
 blocklist tables and the `Dump` parameter table, a key-value store of named
 text parameters whose key is its primary key, together with `init_dump_tbl`,
 which seeds that table with defaults on first run.
 */
module Db {
  import opened Wrappers

  /** peewee's BigIntegerField and IntegerField: signed 64- and 32-bit columns. */
  newtype int64 = x: int | -0x8000_0000_0000_0000 <= x < 0x8000_0000_0000_0000
  newtype int32 = x: int | -0x8000_0000 <= x < 0x8000_0000

  /** One blocked registry entry. `add` is the epoch at which it became active
      and is always set; `purge` stays `None` while the entry is active.
      Dates are kept as their text. */
  datatype Item = Item(
    contentId: int64,
    includeTime: string,
    urgencyType: int32 := 0,
    entryType: int32,
    blockType: string := "default",
    hashRecord: string,
    decisionDate: string,
    decisionNum: string,
    decisionOrg: string,
    add: int64,
    purge: Option<int64> := None)

  /** An IP address or network of an item; `item` is the owning item's row id. */
  datatype IP = IP(
    item: int64,
    contentId: int64,
    ip: string,
    mask: int32 := 32,
    add: int64,
    purge: Option<int64> := None)

  /** A URL of an item; `item` is the owning item's row id. */
  datatype URL = URL(
    item: int64,
    contentId: int64,
    url: string,
    add: int64,
    purge: Option<int64> := None)

  /** A record created with only its required columns gets the column
      defaults: urgency 0, block type 'default', mask 32 and no purge epoch. */
  lemma NewRecordDefaults(contentId: int64, includeTime: string, entryType: int32, hashRecord: string,
                          decisionDate: string, decisionNum: string, decisionOrg: string,
                          item: int64, ip: string, url: string, add: int64)
    ensures var it := Item(contentId, includeTime, entryType := entryType, hashRecord := hashRecord,
                           decisionDate := decisionDate, decisionNum := decisionNum,
                           decisionOrg := decisionOrg, add := add);
            it.urgencyType == 0 && it.blockType == "default" && it.add == add && it.purge == None
    ensures var a := IP(item, contentId, ip, add := add);
            a.mask == 32 && a.add == add && a.purge == None
    ensures var u := URL(item, contentId, url, add);
            u.add == add && u.purge == None
  {
  }

  // ---------------------------------------------------------------------------
  // The Dump parameter table

  /** A parameter row: its name (the primary key) and its text value. */
  datatype Param = Param(name: string, value: string)

  /** The eight parameters `init_dump_tbl` seeds, with their defaults, in the
      order it visits them. */
  const DumpDefaults: seq<Param> := [
    Param("lastDumpDate", "1325376000"),
    Param("lastDumpDateUrgently", "1325376000"),
    Param("lastAction", "get_last_dump_date"),
    Param("lastResult", "default"),
    Param("lastCode", "default"),
    Param("dumpFormatVersion", "2.2"),
    Param("webServiceVersion", "3"),
    Param("docVersion", "4")
  ]

  function Names(ps: seq<Param>): (names: set<string>)
    ensures forall i :: 0 <= i < |ps| ==> ps[i].name in names
    ensures forall n :: n in names ==> exists i :: 0 <= i < |ps| && ps[i].name == n
  {
    set i | 0 <= i < |ps| :: ps[i].name
  }

  predicate DistinctNames(ps: seq<Param>) {
    forall i, j :: 0 <= i < j < |ps| ==> ps[i].name != ps[j].name
  }

  /** The table holds a row for every parameter `init_dump_tbl` seeds. */
  predicate Initialized(m: map<string, string>) {
    Names(DumpDefaults) <= m.Keys
  }

  /** `Dump.get(Dump.param == name).value`. */
  function Lookup(m: map<string, string>, name: string): (r: Result<string>)
    ensures r.Ok? <==> name in m
    ensures r.Ok? ==> r.value == m[name]
    ensures r.Err? ==> r.error == DoesNotExist(name)
  {
    if name in m then Ok(m[name]) else Err(DoesNotExist(name))
  }

  /** `Dump.update(value=value).where(Dump.param == name).execute()`: rewrites
      the row if there is one and inserts nothing otherwise. */
  function UpdateWhere(m: map<string, string>, name: string, value: string): (r: map<string, string>)
    ensures r.Keys == m.Keys
    ensures name in m ==> r[name] == value
    ensures forall k :: k in m && k != name ==> r[k] == m[k]
  {
    if name in m then m[name := value] else m
  }

  /** One `try: Dump.get(...) except Dump.DoesNotExist: Dump.create(...)`. */
  function SetDefault(m: map<string, string>, p: Param): map<string, string> {
    if p.name in m then m else m[p.name := p.value]
  }

  /** The table after seeding `ps` one after the other into `m`. */
  function SeedFrom(m: map<string, string>, ps: seq<Param>): map<string, string>
    decreases |ps|
  {
    if ps == [] then m else SeedFrom(SetDefault(m, ps[0]), ps[1..])
  }

  lemma {:induction false} SeedFromKeys(m: map<string, string>, ps: seq<Param>)
    ensures SeedFrom(m, ps).Keys == m.Keys + Names(ps)
    decreases |ps|
  {
    if ps != [] {
      SeedFromKeys(SetDefault(m, ps[0]), ps[1..]);
      assert Names(ps) == {ps[0].name} + Names(ps[1..]) by {
        forall n | n in Names(ps) ensures n in {ps[0].name} + Names(ps[1..]) {
          var i :| 0 <= i < |ps| && ps[i].name == n;
          if i > 0 { assert ps[1..][i - 1] == ps[i]; }
        }
      }
    }
  }

  /** A row that exists keeps its value. */
  lemma {:induction false} SeedFromKeeps(m: map<string, string>, ps: seq<Param>, k: string)
    requires k in m
    ensures k in SeedFrom(m, ps) && SeedFrom(m, ps)[k] == m[k]
    decreases |ps|
  {
    if ps != [] {
      SeedFromKeeps(SetDefault(m, ps[0]), ps[1..], k);
    }
  }

  /** A missing row is created with its default. */
  lemma {:induction false} SeedFromFills(m: map<string, string>, ps: seq<Param>, i: nat)
    requires DistinctNames(ps) && i < |ps| && ps[i].name !in m
    ensures ps[i].name in SeedFrom(m, ps) && SeedFrom(m, ps)[ps[i].name] == ps[i].value
    decreases |ps|
  {
    var m' := SetDefault(m, ps[0]);
    if i == 0 {
      SeedFromKeeps(m', ps[1..], ps[0].name);
    } else {
      assert ps[1..][i - 1] == ps[i];
      SeedFromFills(m', ps[1..], i - 1);
    }
  }

  /** Seeding a table that already has every row changes nothing. */
  lemma {:induction false} SeedFromCovered(m: map<string, string>, ps: seq<Param>)
    requires Names(ps) <= m.Keys
    ensures SeedFrom(m, ps) == m
    decreases |ps|
  {
    if ps != [] {
      assert Names(ps[1..]) <= Names(ps) by {
        forall n | n in Names(ps[1..]) ensures n in Names(ps) {
          var i :| 0 <= i < |ps[1..]| && ps[1..][i].name == n;
          assert ps[i + 1].name == n;
        }
      }
      SeedFromCovered(m, ps[1..]);
    }
  }

  /** Seeding twice is seeding once. */
  lemma SeedFromIdempotent(m: map<string, string>, ps: seq<Param>)
    ensures SeedFrom(SeedFrom(m, ps), ps) == SeedFrom(m, ps)
  {
    SeedFromKeys(m, ps);
    SeedFromCovered(SeedFrom(m, ps), ps);
  }

  /** Everything seeding promises, for any list of parameters with distinct
      names: every listed parameter has a row; a row that was there keeps its
      value; a row that was missing holds its default; no other row is added
      or changed; and seeding again changes nothing. */
  lemma SeedFromSpec(m: map<string, string>, ps: seq<Param>)
    requires DistinctNames(ps)
    ensures var r := SeedFrom(m, ps);
      && r.Keys == m.Keys + Names(ps)
      && (forall k :: k in m ==> r[k] == m[k])
      && (forall i :: 0 <= i < |ps| && ps[i].name !in m ==> r[ps[i].name] == ps[i].value)
      && SeedFrom(r, ps) == r
  {
    var r := SeedFrom(m, ps);
    SeedFromKeys(m, ps);
    forall k | k in m ensures r[k] == m[k] {
      SeedFromKeeps(m, ps, k);
    }
    forall i | 0 <= i < |ps| && ps[i].name !in m ensures r[ps[i].name] == ps[i].value {
      SeedFromFills(m, ps, i);
    }
    SeedFromIdempotent(m, ps);
  }

  /** What `init_dump_tbl` promises of the table it leaves behind: each of
      the eight parameters has a row, holding its old value if it had one and
      its default otherwise; no other row is added or changed; running it
      again changes nothing. */
  lemma InitDumpTblSpec(m: map<string, string>)
    ensures var r := SeedFrom(m, DumpDefaults);
      && Initialized(r)
      && r.Keys == m.Keys + Names(DumpDefaults)
      && (forall k :: k in m ==> r[k] == m[k])
      && (forall i :: 0 <= i < |DumpDefaults| && DumpDefaults[i].name !in m ==>
            r[DumpDefaults[i].name] == DumpDefaults[i].value)
      && SeedFrom(r, DumpDefaults) == r
  {
    DumpDefaultsDistinct();
    SeedFromSpec(m, DumpDefaults);
  }

  lemma DumpDefaultsDistinct()
    ensures DistinctNames(DumpDefaults)
  {
  }

  /** The `Dump` table: a parameter name maps to at most one value because the
      name is the primary key. */
  class DumpTable {
    var params: map<string, string>

    constructor (params: map<string, string>)
      ensures this.params == params
    {
      this.params := params;
    }

    /** `Dump.get(Dump.param == name).value`, raising `DoesNotExist`. */
    method Get(name: string) returns (r: Result<string>)
      ensures r == Lookup(params, name)
      ensures r.Ok? <==> name in params
      ensures r.Ok? ==> r.value == params[name]
      ensures r.Err? ==> r.error == DoesNotExist(name)
    {
      if name in params {
        r := Ok(params[name]);
      } else {
        r := Err(DoesNotExist(name));
      }
    }

    /** `Dump.update(value=value).where(Dump.param == name).execute()`. */
    method Update(name: string, value: string)
      modifies this
      ensures params == UpdateWhere(old(params), name, value)
    {
      if name in params {
        params := params[name := value];
      }
    }

    /** `Dump.get(...)` and, on `DoesNotExist`, `Dump.create(param=name, value=value)`. */
    method GetOrCreate(name: string, value: string)
      modifies this
      ensures params == SetDefault(old(params), Param(name, value))
    {
      var row := Get(name);
      if row.Err? {
        params := params[name := value];
      }
    }

    /** `init_dump_tbl`: seeds each of the eight parameters in turn. */
    method InitDumpTbl()
      modifies this
      ensures params == SeedFrom(old(params), DumpDefaults)
      ensures Initialized(params)
    {
      ghost var goal := SeedFrom(params, DumpDefaults);
      ghost var rest := DumpDefaults;
      GetOrCreate("lastDumpDate", "1325376000");
      rest := rest[1..];
      assert goal == SeedFrom(params, rest);
      GetOrCreate("lastDumpDateUrgently", "1325376000");
      rest := rest[1..];
      assert goal == SeedFrom(params, rest);
      GetOrCreate("lastAction", "get_last_dump_date");
      rest := rest[1..];
      assert goal == SeedFrom(params, rest);
      GetOrCreate("lastResult", "default");
      rest := rest[1..];
      assert goal == SeedFrom(params, rest);
      GetOrCreate("lastCode", "default");
      rest := rest[1..];
      assert goal == SeedFrom(params, rest);
      GetOrCreate("dumpFormatVersion", "2.2");
      rest := rest[1..];
      assert goal == SeedFrom(params, rest);
      GetOrCreate("webServiceVersion", "3");
      rest := rest[1..];
      assert goal == SeedFrom(params, rest);
      GetOrCreate("docVersion", "4");
      rest := rest[1..];
      assert goal == SeedFrom(params, rest);
      assert rest == [];
      InitDumpTblSpec(old(params));
    }
  }
}
