/** The revision table that one start-up of cmd/migrate leaves behind:
    baselineAtlasIfNeeded, statement by statement. */
module Migrate {

  import opened Wrappers

  // A row of atlas_schema_revisions. Version is the primary key; the columns that
  // every baselined row has the same are left out.
  datatype Revision = Revision(version: string, description: string, executedAt: int, hash: string)

  datatype Table = Absent | Rows(rows: seq<Revision>)

  /** What is compiled into the binary: the migration files, oldest first, and
      what parseAtlasSum makes of atlas.sum (nothing, if it cannot be read). */
  datatype Release = Release(files: seq<string>, hashes: map<string, string>) {

    // migrate.Dir.Files lists the *.sql files of one directory.
    ghost predicate WellFormed() {
      && (forall i :: 0 <= i < |files| ==> |files[i]| >= 4 && files[i][|files[i]| - 4..] == ".sql")
      && (forall i, j :: 0 <= i < j < |files| ==> files[i] != files[j])
    }

    // All files but the newest.
    function Count(): nat {
      if files == [] then 0 else |files| - 1
    }

    function Baseline(i: nat, when: int): Revision
      requires i < |files|
    {
      Revision(TrimSql(files[i]), files[i], when, if files[i] in hashes then hashes[files[i]] else "")
    }

    // The first k rows of a baseline done at this time.
    function Baselined(k: nat, when: int): seq<Revision>
      requires k <= |files|
    {
      seq(k, i requires 0 <= i < k => Baseline(i, when))
    }
  }

  function TrimSql(name: string): string {
    if |name| >= 4 && name[|name| - 4..] == ".sql" then name[..|name| - 4] else name
  }

  // INSERT ... ON CONFLICT (version) DO NOTHING.
  function Insert(rows: seq<Revision>, r: Revision): seq<Revision> {
    if exists i :: 0 <= i < |rows| && rows[i].version == r.version then rows else rows + [r]
  }

  // Dropping the suffix keeps the versions of different files apart.
  lemma VersionsDiffer(c: Release, i: nat, j: nat)
    requires c.WellFormed() && i < |c.files| && j < |c.files| && i != j
    ensures TrimSql(c.files[i]) != TrimSql(c.files[j])
  {
    var a, b := c.files[i], c.files[j];
    assert a == a[..|a| - 4] + a[|a| - 4..] && b == b[..|b| - 4] + b[|b| - 4..];
    if i < j {
      assert a != b;
    } else {
      assert b != a;
    }
  }

  // Row i is the baseline row of file i, written at whatever time.
  ghost predicate IsBaseline(c: Release, r: Revision, i: nat)
    requires i < |c.files|
  {
    r == c.Baseline(i, r.executedAt)
  }

  // The rows are those of files[0..k), in this order, with k below the number of files.
  ghost predicate IsPrefix(c: Release, rows: seq<Revision>) {
    |rows| <= c.Count() && forall i :: 0 <= i < |rows| ==> IsBaseline(c, rows[i], i)
  }

  // The row of a migration file: its name without the suffix, the name, and its hash,
  // which is empty if atlas.sum has none.
  ghost predicate Records(c: Release, r: Revision, file: string) {
    && file == r.version + ".sql"
    && r.description == file
    && r.hash == if file in c.hashes then c.hashes[file] else ""
  }

  // The rows are those of the oldest files, in order, and the newest has none.
  ghost predicate RecordsOldest(c: Release, rows: seq<Revision>) {
    && (rows == [] || |rows| < |c.files|)
    && forall i :: 0 <= i < |rows| ==> Records(c, rows[i], c.files[i])
  }

  // Every file but the newest has its row.
  ghost predicate Complete(c: Release, rows: seq<Revision>) {
    && |rows| == |c.files| - 1
    && forall i :: 0 <= i < |c.files| - 1 ==> Records(c, rows[i], c.files[i])
  }

  lemma BaselineRecords(c: Release, r: Revision, i: nat)
    requires c.WellFormed() && i < |c.files| && IsBaseline(c, r, i)
    ensures Records(c, r, c.files[i])
  {
    var file := c.files[i];
    assert file == file[..|file| - 4] + file[|file| - 4..];
  }

  lemma PrefixRecords(c: Release, rows: seq<Revision>)
    requires c.WellFormed() && IsPrefix(c, rows)
    ensures RecordsOldest(c, rows)
    ensures |rows| == c.Count() && c.files != [] <==> Complete(c, rows)
  {
    hide IsBaseline, Records;
    forall i | 0 <= i < |rows| ensures Records(c, rows[i], c.files[i]) {
      BaselineRecords(c, rows[i], i);
    }
  }

  // Inserting row j again does nothing, inserting the next one appends it.
  lemma InsertNext(c: Release, rows: seq<Revision>, j: nat, when: int)
    requires c.WellFormed() && IsPrefix(c, rows) && j <= |rows| && j < |c.files|
    ensures Insert(rows, c.Baseline(j, when)) == if j < |rows| then rows else rows + [c.Baseline(j, when)]
  {
    var r := c.Baseline(j, when);
    if j < |rows| {
      assert IsBaseline(c, rows[j], j);
      assert rows[j].version == r.version;
    } else {
      forall i | 0 <= i < |rows| ensures rows[i].version != r.version {
        assert IsBaseline(c, rows[i], i);
        VersionsDiffer(c, i, j);
      }
    }
  }

  /** baselineAtlasIfNeeded when the database executes this many statements and
      fails the next one: what it leaves in the table, and whether it fails. */
  function BaselineEffect(dir: Option<Release>, table: Table, when: int, healthy: nat): (Table, bool) {
    if healthy == 0 then (table, true)
    else if table.Rows? then (table, false)
    else if dir.None? then (table, true)
    else
      var c := dir.value;
      if c.files == [] then (table, false)
      else if healthy == 1 then (table, true)
      else if healthy - 2 < c.Count() then (Rows(c.Baselined(healthy - 2, when)), true)
      else (Rows(c.Baselined(c.Count(), when)), false)
  }

  lemma BaselinedNone(c: Release, when: int)
    ensures c.Baselined(0, when) == []
  {
  }

  lemma BaselinedOneMore(c: Release, k: nat, when: int)
    requires k < |c.files|
    ensures c.Baselined(k + 1, when) == c.Baselined(k, when) + [c.Baseline(k, when)]
  {
  }

  lemma BaselinedIsPrefix(c: Release, k: nat, when: int)
    requires k <= c.Count()
    ensures IsPrefix(c, c.Baselined(k, when)) && |c.Baselined(k, when)| == k
  {
  }

  lemma OwnBaseline(c: Release, j: nat, when: int)
    requires j < |c.files|
    ensures IsBaseline(c, c.Baseline(j, when), j)
  {
  }

  // The baseline of an empty database by one that executes h statements.
  lemma EffectRecords(c: Release, when: int, h: nat)
    requires c.WellFormed() && c.files != [] && h >= 2
    ensures var (table, fails) := BaselineEffect(Some(c), Absent, when, h);
            && table.Rows? && RecordsOldest(c, table.rows)
            && (forall i :: 0 <= i < |table.rows| ==> table.rows[i].executedAt == when)
            && (fails <==> h < |c.files| + 1)
            && (if fails then |table.rows| == h - 2 else Complete(c, table.rows))
  {
    hide Release.Baselined, IsPrefix, RecordsOldest, Complete;
    var k := if h - 2 < c.Count() then h - 2 else c.Count();
    BaselinedIsPrefix(c, k, when);
    PrefixRecords(c, c.Baselined(k, when));
    BaselinedTimes(c, k, when);
  }

  lemma BaselinedTimes(c: Release, k: nat, when: int)
    requires k <= |c.files|
    ensures forall i :: 0 <= i < k ==> c.Baselined(k, when)[i].executedAt == when
  {
  }

  // Inserting a baseline row of a file that is due keeps the rows a prefix.
  lemma InsertKeepsPrefix(c: Release, rows: seq<Revision>, j: nat, when: int)
    requires c.WellFormed() && IsPrefix(c, rows) && j <= |rows| && j < c.Count()
    ensures var more := Insert(rows, c.Baseline(j, when));
            IsPrefix(c, more) && |rows| <= |more| && j < |more|
  {
    hide IsBaseline, Insert;
    InsertNext(c, rows, j, when);
    OwnBaseline(c, j, when);
  }

  class Database {
    var table: Table
    var healthy: nat

    // Counts one statement; says whether it fails.
    method Statement() returns (fails: bool)
      modifies this`healthy
      ensures fails == (old(healthy) == 0)
      ensures healthy == if fails then 0 else old(healthy) - 1
    {
      fails := healthy == 0;
      if !fails {
        healthy := healthy - 1;
      }
    }

    /** With a table there is nothing to do. Without one, each statement that is
        executed after the first two adds the row of the next file, up to the last but
        one; undisturbed, every file but the newest has its row. */
    method BaselineAtlasIfNeeded(dir: Option<Release>, when: int) returns (fails: bool)
      requires dir.Some? ==> dir.value.WellFormed()
      modifies this
      ensures (table, fails) == BaselineEffect(dir, old(table), when, old(healthy))
      ensures old(healthy) == 0 ==> fails
      ensures old(table).Rows? ==> table == old(table) && (fails <==> old(healthy) == 0)
      ensures old(table).Absent? && dir.None? ==> fails && table.Absent?
      ensures old(table).Absent? && dir.Some? ==>
                var c := dir.value;
                if c.files == [] then table.Absent? && (fails <==> old(healthy) == 0)
                else if old(healthy) < 2 then table.Absent? && fails
                else
                  && table.Rows? && RecordsOldest(c, table.rows)
                  && (forall i :: 0 <= i < |table.rows| ==> table.rows[i].executedAt == when)
                  && (fails <==> old(healthy) < |c.files| + 1)
                  && if fails then |table.rows| == old(healthy) - 2 else Complete(c, table.rows)
    {
      hide RecordsOldest, Complete, Release.Baselined;
      if dir.Some? && dir.value.files != [] && healthy >= 2 {
        EffectRecords(dir.value, when, healthy);
      }
      fails := Statement();
      if fails {
        return;
      }
      if table.Rows? {
        return false;
      }
      if dir.None? {
        return true;
      }
      var c := dir.value;
      if |c.files| == 0 {
        return false;
      }
      fails := Statement();
      if fails {
        return;
      }
      if table.Absent? {
        table := Rows([]);
      }
      var baselineCount := |c.files| - 1;
      BaselinedNone(c, when);
      for i := 0 to baselineCount
        invariant table == Rows(c.Baselined(i, when))
        invariant healthy == old(healthy) - 2 - i
      {
        fails := Statement();
        if fails {
          return;
        }
        BaselinedIsPrefix(c, i, when);
        BaselinedOneMore(c, i, when);
        InsertNext(c, table.rows, i, when);
        table := Rows(Insert(table.rows, c.Baseline(i, when)));
      }
      return false;
    }
  }
}
