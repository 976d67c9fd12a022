/** The schema fixture generators of the Spanner accessor utilities: counted loops
    that build `c1..cN` column ids, `col1..colN` column definitions and
    `t1..tN` tables, and a random alphanumeric string. */
module SpannerUtils {
  import opened Decimal
  import opened Ddl

  /** The alphabet random strings are drawn from. */
  const Charset: string := "abcdefghijklmnopqrstuvwxyzABCDEFGHIJKLMNOPQRSTUVWXYZ0123456789"

  /** `fmt.Sprintf("c%d", i)` */
  function ColId(i: nat): string { "c" + Format(i) }

  /** `fmt.Sprintf("col%d", i)` */
  function ColName(i: nat): string { "col" + Format(i) }

  /** `fmt.Sprintf("t%d", i)` */
  function TableId(i: nat): string { "t" + Format(i) }

  /** `fmt.Sprintf("table%d", i)` */
  function TableName(i: nat): string { "table" + Format(i) }

  /** The ids `<prefix>1..<prefix><count>`; empty when count <= 0. */
  function NumberedRange(prefix: string, count: int): set<string> {
    set i: nat | 1 <= i <= count :: prefix + Format(i)
  }

  /** The ids `c1..c<count>`. */
  function ColIdRange(count: int): set<string> { NumberedRange("c", count) }

  /** The ids `t1..t<count>`. */
  function TableIdRange(count: int): set<string> { NumberedRange("t", count) }

  /** The column every generated table has: `c1`, named `col1`, of type INT64. */
  function FixtureColumn(): (c: ColumnDef)
    ensures c.id == ColId(1) && c.name == ColName(1) && c.t.name == Int64
  {
    ColumnDef("col1", "c1", Type(Int64, 0))
  }

  /** The i-th generated table. */
  function FixtureTable(i: nat): (t: CreateTable)
    ensures t.id == TableId(i) && t.name == TableName(i)
    ensures t.colIds == [ColId(1)] && t.colDefs == map[ColId(1) := FixtureColumn()]
    ensures t.primaryKeys == [IndexKey(ColId(1), false, 0)]
    ensures PrimaryKeysDeclared(t)
  {
    CreateTable(TableName(i), TableId(i), ["c1"], map["c1" := FixtureColumn()],
                [IndexKey("c1", false, 0)], [], [], [])
  }

  /** Column ids are pairwise distinct. */
  lemma ColIdInjective(i: nat, j: nat)
    ensures ColId(i) == ColId(j) ==> i == j
  {
    PrefixedInjective("c", i, j);
  }

  /** Table ids are pairwise distinct. */
  lemma TableIdInjective(i: nat, j: nat)
    ensures TableId(i) == TableId(j) ==> i == j
  {
    PrefixedInjective("t", i, j);
  }

  /** A numbered range holds exactly `count` distinct ids. */
  lemma {:induction false} NumberedRangeSize(prefix: string, count: int)
    ensures |NumberedRange(prefix, count)| == if count <= 0 then 0 else count
    decreases if count <= 0 then 0 else count
  {
    if count > 0 {
      NumberedRangeSize(prefix, count - 1);
      var last := prefix + Format(count);
      assert NumberedRange(prefix, count) == NumberedRange(prefix, count - 1) + {last};
      if last in NumberedRange(prefix, count - 1) {
        var i: nat :| 1 <= i <= count - 1 && prefix + Format(i) == last;
        PrefixedInjective(prefix, i, count);
      }
    } else {
      assert NumberedRange(prefix, count) == {};
    }
  }

  /** Extending a numbered range by its next id adds a new id. */
  lemma NumberedRangeStep(prefix: string, i: nat)
    requires i >= 1
    ensures NumberedRange(prefix, i) == NumberedRange(prefix, i - 1) + {prefix + Format(i)}
    ensures prefix + Format(i) !in NumberedRange(prefix, i - 1)
  {
    if prefix + Format(i) in NumberedRange(prefix, i - 1) {
      var j: nat :| 1 <= j <= i - 1 && prefix + Format(j) == prefix + Format(i);
      PrefixedInjective(prefix, j, i);
    }
  }

  /** The `%d` ids `c1..c<n>`, in order, as `GenerateColIds` appends them. */
  function ColIdsUpTo(n: int): seq<string>
    decreases if n <= 0 then 0 else n
  {
    if n <= 0 then [] else ColIdsUpTo(n - 1) + [ColId(n)]
  }

  /** The column `col<i>` of type INT64 stored under `c<i>`. */
  function GeneratedColumn(i: nat): (c: ColumnDef)
    ensures c.id == ColId(i) && c.name == ColName(i) && c.t == Type(Int64, 0)
  {
    ColumnDef(ColName(i), ColId(i), Type(Int64, 0))
  }

  /** The column map after inserting columns 1..n, as `GenerateColumnDefsForTable` does. */
  function ColumnDefsUpTo(n: int): map<string, ColumnDef>
    decreases if n <= 0 then 0 else n
  {
    if n <= 0 then map[] else ColumnDefsUpTo(n - 1)[ColId(n) := GeneratedColumn(n)]
  }

  /** The schema after inserting tables 1..n, as `GenerateTables` does. */
  function TablesUpTo(n: int): Schema
    decreases if n <= 0 then 0 else n
  {
    if n <= 0 then map[] else TablesUpTo(n - 1)[TableId(n) := FixtureTable(n)]
  }

  /** `GenerateColIds(n)` holds exactly n ids, the i-th (1-based) being `c<i>`;
      they are pairwise distinct and form the range `c1..c<n>`. */
  lemma {:induction false} ColIdsShape(n: int)
    ensures |ColIdsUpTo(n)| == if n <= 0 then 0 else n
    ensures forall i :: 0 <= i < |ColIdsUpTo(n)| ==> ColIdsUpTo(n)[i] == ColId(i + 1)
    ensures (set x | x in ColIdsUpTo(n)) == ColIdRange(n)
    decreases if n <= 0 then 0 else n
  {
    if n > 0 {
      ColIdsShape(n - 1);
      NumberedRangeStep("c", n);
      var prev := ColIdsUpTo(n - 1);
      assert (set x | x in prev + [ColId(n)]) == (set x | x in prev) + {ColId(n)};
    } else {
      assert ColIdRange(n) == {};
    }
  }

  /** The ids of `GenerateColIds(n)` are pairwise distinct. */
  lemma ColIdsDistinct(n: int)
    ensures forall i, j :: 0 <= i < j < |ColIdsUpTo(n)| ==> ColIdsUpTo(n)[i] != ColIdsUpTo(n)[j]
  {
    ColIdsShape(n);
    forall i, j | 0 <= i < j < |ColIdsUpTo(n)| ensures ColIdsUpTo(n)[i] != ColIdsUpTo(n)[j] {
      ColIdInjective(i + 1, j + 1);
    }
  }

  /** `GenerateColumnDefsForTable(n)` has exactly the keys `c1..c<n>`, the
      column under `c<i>` is `col<i>` of type INT64, and each entry's id is its key. */
  lemma {:induction false} ColumnDefsShape(n: int)
    ensures ColumnDefsUpTo(n).Keys == ColIdRange(n)
    ensures forall i: nat :: 1 <= i <= n ==> ColumnDefsUpTo(n)[ColId(i)] == GeneratedColumn(i)
    ensures forall k :: k in ColumnDefsUpTo(n) ==> ColumnDefsUpTo(n)[k].id == k && ColumnDefsUpTo(n)[k].t.name == Int64
    decreases if n <= 0 then 0 else n
  {
    if n > 0 {
      ColumnDefsShape(n - 1);
      NumberedRangeStep("c", n);
      forall i: nat | 1 <= i < n ensures ColumnDefsUpTo(n)[ColId(i)] == GeneratedColumn(i) {
        ColIdInjective(i, n);
      }
    } else {
      assert ColIdRange(n) == {};
    }
  }

  /** The key set of `GenerateColumnDefsForTable(n)` is the element set of
      `GenerateColIds(n)`, and both have n members (none when n <= 0). */
  lemma ColumnDefsMatchColIds(n: int)
    ensures ColumnDefsUpTo(n).Keys == (set x | x in ColIdsUpTo(n))
    ensures |ColumnDefsUpTo(n)| == |ColIdsUpTo(n)| == if n <= 0 then 0 else n
  {
    ColIdsShape(n);
    ColumnDefsShape(n);
    NumberedRangeSize("c", n);
  }

  /** `GenerateTables(n)` has exactly the keys `t1..t<n>`, n of them, and the
      table under `t<i>` is the fixture table i. */
  lemma {:induction false} TablesShape(n: int)
    ensures TablesUpTo(n).Keys == TableIdRange(n)
    ensures |TablesUpTo(n)| == if n <= 0 then 0 else n
    ensures forall i: nat :: 1 <= i <= n ==> TablesUpTo(n)[TableId(i)] == FixtureTable(i)
    decreases if n <= 0 then 0 else n
  {
    NumberedRangeSize("t", n);
    if n > 0 {
      TablesShape(n - 1);
      NumberedRangeStep("t", n);
      forall i: nat | 1 <= i < n ensures TablesUpTo(n)[TableId(i)] == FixtureTable(i) {
        TableIdInjective(i, n);
      }
    } else {
      assert TableIdRange(n) == {};
    }
  }

  /** In every generated table the id equals its key, and each primary-key
      column appears in the table's column ids and column definitions. */
  lemma {:induction false} TablesWellKeyed(n: int)
    ensures forall k :: k in TablesUpTo(n) ==> TablesUpTo(n)[k].id == k && PrimaryKeysDeclared(TablesUpTo(n)[k])
    decreases if n <= 0 then 0 else n
  {
    if n > 0 {
      TablesWellKeyed(n - 1);
      var t := FixtureTable(n);
      assert t.id == TableId(n) && PrimaryKeysDeclared(t);
    }
  }

  /** `GenerateColIds`: appends `c<i>` for i = 1..count. */
  method GenerateColIds(count: int) returns (colIds: seq<string>)
    ensures colIds == ColIdsUpTo(count)
    ensures |colIds| == if count <= 0 then 0 else count
    ensures forall i :: 0 <= i < |colIds| ==> colIds[i] == ColId(i + 1)
  {
    colIds := [];
    var i := 1;
    while i <= count
      invariant 1 <= i <= if count < 1 then 1 else count + 1
      invariant colIds == ColIdsUpTo(i - 1)
    {
      colIds := colIds + [ColId(i)];
      i := i + 1;
    }
    ColIdsShape(count);
  }

  /** `GenerateColumnDefsForTable`: inserts column `col<i>` under `c<i>` for i = 1..count. */
  method GenerateColumnDefsForTable(count: int) returns (columns: map<string, ColumnDef>)
    ensures columns == ColumnDefsUpTo(count)
    ensures columns.Keys == ColIdRange(count)
    ensures forall k :: k in columns ==> columns[k].id == k && columns[k].t.name == Int64
  {
    columns := map[];
    var i := 1;
    while i <= count
      invariant 1 <= i <= if count < 1 then 1 else count + 1
      invariant columns == ColumnDefsUpTo(i - 1)
    {
      columns := columns[ColId(i) := ColumnDef(ColName(i), ColId(i), Type(Int64, 0))];
      i := i + 1;
    }
    ColumnDefsShape(count);
  }

  /** `GenerateTables`: inserts table `table<i>` under `t<i>` for i = 1..count. */
  method GenerateTables(count: int) returns (tables: Schema)
    ensures tables == TablesUpTo(count)
    ensures tables.Keys == TableIdRange(count)
    ensures forall k :: k in tables ==> tables[k].id == k && PrimaryKeysDeclared(tables[k])
  {
    tables := map[];
    var i := 1;
    while i <= count
      invariant 1 <= i <= if count < 1 then 1 else count + 1
      invariant tables == TablesUpTo(i - 1)
    {
      tables := tables[TableId(i) := FixtureTable(i)];
      i := i + 1;
    }
    TablesShape(count);
    TablesWellKeyed(count);
  }

  /** `GenerateRandomString`: a buffer of `length` bytes, the i-th taken from the
      charset at the i-th draw of the random generator. The generator is not
      modelled: `draws` holds its successive results, each a valid charset index. */
  method GenerateRandomString(length: int, draws: seq<int>) returns (s: string)
    requires length >= 0
    requires |draws| == length
    requires forall i :: 0 <= i < |draws| ==> 0 <= draws[i] < |Charset|
    ensures |s| == length
    ensures forall i :: 0 <= i < length ==> s[i] == Charset[draws[i]]
    ensures forall i :: 0 <= i < length ==> s[i] in Charset
  {
    var buffer := new char[length];
    for i := 0 to length
      invariant forall k :: 0 <= k < i ==> buffer[k] == Charset[draws[k]]
    {
      buffer[i] := Charset[draws[i]];
    }
    s := buffer[..];
  }
}
