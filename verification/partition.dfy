/** The partitioner of `write_parquet_to_s3` (main.py:55-72) without its I/O:
    partition columns are derived per row and rows are grouped by them, one
    group per Hive-style `Year=<y>/Month=<mm>` directory. */
module Partitioning {
  import opened Transactions
  import opened Decimal

  /** The value of the `(Year, Month)` partition columns. */
  datatype PartitionKey = PartitionKey(year: int, month: string)

  /** A validated row with its two partition columns attached. */
  datatype KeyedRow = KeyedRow(row: Row, year: int, month: string)

  function KeyOf(k: KeyedRow): PartitionKey {
    PartitionKey(k.year, k.month)
  }

  /** `df["Year"] = ts.dt.year` and `df["Month"] = ts.dt.month` as `f"{x:02}"`. */
  function AddPartitionColumns(r: Row): (k: KeyedRow)
    ensures k.row == r
    ensures k.year == r.timestamp.year
    ensures |k.month| == 2 && IsDigits(k.month) && DecimalValue(k.month) == r.timestamp.month
  {
    KeyedRow(r, r.timestamp.year, ZeroPad2(r.timestamp.month))
  }

  /** The partition a row falls into: the key of its added `(Year, Month)` columns. */
  function RowKey(r: Row): PartitionKey {
    PartitionKey(r.timestamp.year, ZeroPad2(r.timestamp.month))
  }

  /** The partition columns of every row, in row order. */
  function DeriveKeys(rows: seq<Row>): (ks: seq<KeyedRow>)
    ensures |ks| == |rows|
    ensures forall i | 0 <= i < |rows| :: ks[i].row == rows[i]
    ensures forall i | 0 <= i < |rows| :: ks[i].year == rows[i].timestamp.year
    ensures forall i | 0 <= i < |rows| ::
              |ks[i].month| == 2 && IsDigits(ks[i].month) && DecimalValue(ks[i].month) == rows[i].timestamp.month
  {
    seq(|rows|, i requires 0 <= i < |rows| => AddPartitionColumns(rows[i]))
  }

  /** Dropping the added columns again. */
  function StripKeys(ks: seq<KeyedRow>): (rows: seq<Row>)
    ensures |rows| == |ks|
  {
    seq(|ks|, i requires 0 <= i < |ks| => ks[i].row)
  }

  /** Adding the partition columns changes no other field: dropping them gives back the rows. */
  lemma DeriveKeysRoundTrip(rows: seq<Row>)
    ensures StripKeys(DeriveKeys(rows)) == rows
  {
  }

  /** Two rows land in the same partition exactly when their timestamps fall
      in the same calendar month of the same year. */
  lemma SameKeyIffSameMonth(a: Row, b: Row)
    ensures KeyOf(AddPartitionColumns(a)) == KeyOf(AddPartitionColumns(b))
            <==> a.timestamp.year == b.timestamp.year && a.timestamp.month == b.timestamp.month
  {
    var ka, kb := AddPartitionColumns(a), AddPartitionColumns(b);
    if ka.month == kb.month {
      assert DecimalValue(ka.month) == DecimalValue(kb.month);
    }
  }

  // ---- Grouping ----

  /** The partition keys that occur in `rows`. */
  function KeySet(rows: seq<KeyedRow>): set<PartitionKey> {
    set i | 0 <= i < |rows| :: KeyOf(rows[i])
  }

  /** Reference definition of one partition group: the rows carrying key `k`,
      in their original order. */
  function Select(rows: seq<KeyedRow>, k: PartitionKey): (s: seq<KeyedRow>)
    ensures forall x | x in s :: KeyOf(x) == k
    ensures |s| == 0 <==> k !in KeySet(rows)
  {
    if |rows| == 0 then []
    else
      assert KeySet(rows) == {KeyOf(rows[0])} + KeySet(rows[1..]) by {
        assert forall i | 1 <= i < |rows| :: rows[i] == rows[1..][i - 1];
        assert forall i | 0 <= i < |rows| - 1 :: rows[1..][i] == rows[i + 1];
      }
      (if KeyOf(rows[0]) == k then [rows[0]] else []) + Select(rows[1..], k)
  }

  /** The rows whose key lies in `keys`, in their original order. */
  function SelectIn(rows: seq<KeyedRow>, keys: set<PartitionKey>): seq<KeyedRow> {
    if |rows| == 0 then []
    else (if KeyOf(rows[0]) in keys then [rows[0]] else []) + SelectIn(rows[1..], keys)
  }

  /** Grouping by `(Year, Month)` in one pass over the rows, appending each
      row to the group of its key. */
  function Group(rows: seq<KeyedRow>): (g: map<PartitionKey, seq<KeyedRow>>)
    // one group per key that occurs, and no other
    ensures g.Keys == KeySet(rows)
    // each group is exactly the rows with that key, in input order
    ensures forall k | k in g :: g[k] == Select(rows, k)
  {
    if |rows| == 0 then map[]
    else
      var init, x := rows[..|rows| - 1], rows[|rows| - 1];
      assert rows == init + [x];
      GroupStep(init, x, Group(init));
      AddToGroup(Group(init), x)
  }

  /** Appends `x` to the group of its key, opening that group if needed. */
  function AddToGroup(g: map<PartitionKey, seq<KeyedRow>>, x: KeyedRow): map<PartitionKey, seq<KeyedRow>> {
    var k := KeyOf(x);
    g[k := (if k in g then g[k] else []) + [x]]
  }

  /** An empty input gives no groups, and a non-empty one at least one. */
  lemma GroupEmptyIff(rows: seq<KeyedRow>)
    ensures Group(rows) == map[] <==> |rows| == 0
  {
    if |rows| > 0 {
      assert KeyOf(rows[0]) in Group(rows);
    }
  }

  /** Every row in a group carries the group's key, no group is empty, and
      no row is in two groups. */
  lemma GroupsDisjoint(rows: seq<KeyedRow>)
    ensures forall k | k in Group(rows) :: |Group(rows)[k]| > 0
    ensures forall k | k in Group(rows) :: forall x | x in Group(rows)[k] :: KeyOf(x) == k
    ensures forall k1, k2, x | k1 in Group(rows) && k2 in Group(rows) && k1 != k2 ::
              x in Group(rows)[k1] ==> x !in Group(rows)[k2]
  {
  }

  /** One step of the grouping pass: appending `x` to the group of its key
      keeps every group equal to its selection. */
  lemma GroupStep(init: seq<KeyedRow>, x: KeyedRow, g0: map<PartitionKey, seq<KeyedRow>>)
    requires g0.Keys == KeySet(init)
    requires forall k | k in g0 :: g0[k] == Select(init, k)
    ensures AddToGroup(g0, x).Keys == KeySet(init + [x])
    ensures forall k | k in AddToGroup(g0, x) :: AddToGroup(g0, x)[k] == Select(init + [x], k)
  {
    var g := AddToGroup(g0, x);
    KeySetSnoc(init, x);
    forall k | k in g ensures g[k] == Select(init + [x], k) {
      SelectSnoc(init, x, k);
    }
  }

  lemma KeySetSnoc(rows: seq<KeyedRow>, x: KeyedRow)
    ensures KeySet(rows + [x]) == KeySet(rows) + {KeyOf(x)}
  {
    var all := rows + [x];
    assert all[|rows|] == x;
    forall j | 0 <= j < |rows| ensures all[j] == rows[j] { }
  }

  lemma {:induction false} SelectSnoc(rows: seq<KeyedRow>, x: KeyedRow, k: PartitionKey)
    ensures Select(rows + [x], k) == Select(rows, k) + (if KeyOf(x) == k then [x] else [])
  {
    if |rows| == 0 {
      assert rows + [x] == [x];
    } else {
      assert (rows + [x])[1..] == rows[1..] + [x];
      SelectSnoc(rows[1..], x, k);
    }
  }

  // ---- The groups cover the rows exactly ----

  /** Picks some key of a non-empty map. */
  ghost function PickKey<V>(m: map<PartitionKey, V>): (k: PartitionKey)
    requires |m| > 0
    ensures k in m
  {
    var k :| k in m; k
  }

  /** The multiset union of all groups of `m`. */
  ghost function UnionOfGroups(m: map<PartitionKey, seq<KeyedRow>>): multiset<KeyedRow>
    decreases |m|
  {
    if |m| == 0 then multiset{}
    else
      var k := PickKey(m);
      multiset(m[k]) + UnionOfGroups(m - {k})
  }

  lemma {:induction false} SplitSelectIn(rows: seq<KeyedRow>, keys: set<PartitionKey>, k: PartitionKey)
    requires k in keys
    ensures multiset(SelectIn(rows, keys)) == multiset(Select(rows, k)) + multiset(SelectIn(rows, keys - {k}))
  {
    if |rows| > 0 {
      var x, t := rows[0], rows[1..];
      SplitSelectIn(t, keys, k);
      var hx := if KeyOf(x) in keys then [x] else [];
      var hk := if KeyOf(x) == k then [x] else [];
      var hr := if KeyOf(x) in keys - {k} then [x] else [];
      assert multiset(hx) == multiset(hk) + multiset(hr);
      assert SelectIn(rows, keys) == hx + SelectIn(t, keys);
      assert Select(rows, k) == hk + Select(t, k);
      assert SelectIn(rows, keys - {k}) == hr + SelectIn(t, keys - {k});
    }
  }

  lemma {:induction false} SelectInNone(rows: seq<KeyedRow>)
    ensures SelectIn(rows, {}) == []
  {
    if |rows| > 0 {
      SelectInNone(rows[1..]);
    }
  }

  lemma {:induction false} SelectInAll(rows: seq<KeyedRow>, keys: set<PartitionKey>)
    requires KeySet(rows) <= keys
    ensures SelectIn(rows, keys) == rows
  {
    if |rows| > 0 {
      assert KeyOf(rows[0]) in KeySet(rows);
      assert KeySet(rows[1..]) <= KeySet(rows) by {
        forall k | k in KeySet(rows[1..]) ensures k in KeySet(rows) {
          var j :| 0 <= j < |rows[1..]| && KeyOf(rows[1..][j]) == k;
          assert rows[1..][j] == rows[j + 1];
        }
      }
      SelectInAll(rows[1..], keys);
    }
  }

  /** Any map whose groups are selections of `rows` holds, in all, exactly
      the rows whose keys it has. */
  lemma {:induction false} UnionOfSelections(rows: seq<KeyedRow>, m: map<PartitionKey, seq<KeyedRow>>)
    requires forall k | k in m :: m[k] == Select(rows, k)
    ensures UnionOfGroups(m) == multiset(SelectIn(rows, m.Keys))
    decreases |m|
  {
    if |m| == 0 {
      assert m.Keys == {};
      SelectInNone(rows);
    } else {
      var k := PickKey(m);
      var rest := m - {k};
      UnionOfSelections(rows, rest);
      assert rest.Keys == m.Keys - {k};
      SplitSelectIn(rows, m.Keys, k);
    }
  }

  /** Grouping is an exhaustive and disjoint cover: taken together, the groups
      hold every input row exactly as often as the input does. */
  lemma {:induction false} GroupCover(rows: seq<KeyedRow>)
    ensures UnionOfGroups(Group(rows)) == multiset(rows)
  {
    var g := Group(rows);
    UnionOfSelections(rows, g);
    SelectInAll(rows, g.Keys);
  }

  /** The partitioner as a whole: partition columns, then grouping. */
  function Partition(rows: seq<Row>): (g: map<PartitionKey, seq<KeyedRow>>)
    ensures g.Keys == RowKeys(rows)
  {
    RowKeysDerived(rows);
    Group(DeriveKeys(rows))
  }

  /** The `(Year, Month)` pairs of the rows' timestamps. */
  function RowKeys(rows: seq<Row>): set<PartitionKey> {
    set i | 0 <= i < |rows| :: RowKey(rows[i])
  }

  /** The keys of the keyed rows are the rows' `(Year, Month)` pairs. */
  lemma RowKeysDerived(rows: seq<Row>)
    ensures KeySet(DeriveKeys(rows)) == RowKeys(rows)
  {
    var ks := DeriveKeys(rows);
    assert forall i | 0 <= i < |rows| ::
      KeyOf(ks[i]) == RowKey(rows[i]);
  }

  /** No rows, no partitions; every row's `(Year, Month)` has a partition,
      and every row in a partition carries its key. */
  lemma PartitionShape(rows: seq<Row>)
    ensures |rows| == 0 <==> Partition(rows) == map[]
    ensures forall k | k in Partition(rows) :: forall x | x in Partition(rows)[k] :: KeyOf(x) == k
    ensures forall i | 0 <= i < |rows| ::
              RowKey(rows[i]) in Partition(rows)
  {
    var ks := DeriveKeys(rows);
    GroupEmptyIff(ks);
    GroupsDisjoint(ks);
    assert forall i | 0 <= i < |rows| :: KeyOf(ks[i]) in KeySet(ks);
  }

  /** Every partition is the `(Year, Month)` of some input row. */
  lemma PartitionKeyOrigin(rows: seq<Row>, k: PartitionKey)
    requires k in Partition(rows)
    ensures exists i | 0 <= i < |rows| ::
              k == RowKey(rows[i])
  {
    assert k in RowKeys(rows);
  }

  /** Reading every group back and dropping the partition columns reproduces
      the validated rows, up to order. */
  lemma {:induction false} PartitionRoundTrip(rows: seq<Row>)
    ensures UnionOfGroups(Partition(rows)) == multiset(DeriveKeys(rows))
    ensures StripKeys(DeriveKeys(rows)) == rows
  {
    GroupCover(DeriveKeys(rows));
  }
}
