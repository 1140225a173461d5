/** The pick-and-place dataset: recorded tables are concatenated row by row, and each sample carries the
    actions of the next rows of its own episode, padded past the episode's end. */
module ActionDataset {
  import opened Wrappers
  import opened Vectors

  datatype Row = Row(episodeStart: int, action: Vec)
  type Table = seq<Row>

  /** What the constructor keeps about a row: its table, its place there, the end of its episode run
      there, and its global episode id. */
  datatype RowInfo = RowInfo(table: nat, local: nat, runEnd: nat, episode: nat)

  /** A training sample: its chunk of actions with pad flags, and the table and row its images come from. */
  datatype Sample = Sample(action: seq<Vec>, isPad: seq<bool>, imageTable: nat, imageRow: nat)

  /** First row behind the run of equal episode stamps that holds row `i`. */
  function RunEnd(t: Table, i: nat): (e: nat)
    requires i < |t|
    ensures i < e <= |t|
    ensures forall j :: i <= j < e ==> t[j].episodeStart == t[i].episodeStart
    ensures e < |t| ==> t[e].episodeStart != t[i].episodeStart
    decreases |t| - i
  {
    if i + 1 == |t| || t[i + 1].episodeStart != t[i].episodeStart then i + 1 else RunEnd(t, i + 1)
  }

  function Stamps(t: Table): set<int> {
    set i | 0 <= i < |t| :: t[i].episodeStart
  }

  function Below(s: set<int>, x: int): set<int> {
    set y | y in s && y < x
  }

  /** The position of a stamp among the table's distinct stamps, as `np.unique` numbers them. */
  function Rank(t: Table, x: int): nat {
    |Below(Stamps(t), x)|
  }

  /** Rows before table `n`. */
  function Offset(tables: seq<Table>, n: nat): nat
    requires n <= |tables|
  {
    if n == 0 then 0 else Offset(tables, n - 1) + |tables[n - 1]|
  }

  /** Episodes before table `n`. */
  function EpisodeBase(tables: seq<Table>, n: nat): nat
    requires n <= |tables|
  {
    if n == 0 then 0 else EpisodeBase(tables, n - 1) + |Stamps(tables[n - 1])|
  }

  ghost function InfoOf(tables: seq<Table>, t: nat, l: nat): RowInfo
    requires t < |tables| && l < |tables[t]|
  {
    RowInfo(t, l, RunEnd(tables[t], l), EpisodeBase(tables, t) + Rank(tables[t], tables[t][l].episodeStart))
  }

  ghost function TableRows(tables: seq<Table>, t: nat): seq<RowInfo>
    requires t < |tables|
  {
    seq(|tables[t]|, l requires 0 <= l < |tables[t]| => InfoOf(tables, t, l))
  }

  function TableActions(table: Table): seq<Vec> {
    seq(|table|, l requires 0 <= l < |table| => table[l].action)
  }

  /** The concatenated index of the first `n` tables. */
  ghost function AllRows(tables: seq<Table>, n: nat): seq<RowInfo>
    requires n <= |tables|
  {
    if n == 0 then [] else AllRows(tables, n - 1) + TableRows(tables, n - 1)
  }

  ghost function AllActions(tables: seq<Table>, n: nat): seq<Vec>
    requires n <= |tables|
  {
    if n == 0 then [] else AllActions(tables, n - 1) + TableActions(tables[n - 1])
  }

  lemma {:induction false} IndexLength(tables: seq<Table>, n: nat)
    requires n <= |tables|
    ensures |AllRows(tables, n)| == |AllActions(tables, n)| == Offset(tables, n)
  {
    if n > 0 {
      IndexLength(tables, n - 1);
    }
  }

  /** Where a table's row lands in the concatenation. */
  ghost predicate RowAt(tables: seq<Table>, n: nat, t: nat, l: nat)
    requires t < n <= |tables| && l < |tables[t]|
  {
    var r := Offset(tables, t) + l;
    && r < |AllRows(tables, n)| && AllRows(tables, n)[r] == InfoOf(tables, t, l)
    && r < |AllActions(tables, n)| && AllActions(tables, n)[r] == tables[t][l].action
  }

  lemma {:induction false} RowsLand(tables: seq<Table>, n: nat, t: nat, l: nat)
    requires t < n <= |tables| && l < |tables[t]|
    ensures RowAt(tables, n, t, l)
  {
    hide InfoOf;
    IndexLength(tables, n - 1);
    if t < n - 1 {
      RowsLand(tables, n - 1, t, l);
    }
  }

  /** Every row of the concatenation is the row its own entry names. */
  lemma {:induction false} EveryRowHasAPlace(tables: seq<Table>, n: nat, r: nat)
    requires n <= |tables| && r < |AllRows(tables, n)|
    ensures var info := AllRows(tables, n)[r];
      info.table < n && info.local < |tables[info.table]| && r == Offset(tables, info.table) + info.local
        && info == InfoOf(tables, info.table, info.local)
  {
    IndexLength(tables, n);
    IndexLength(tables, n - 1);
    if r < |AllRows(tables, n - 1)| {
      EveryRowHasAPlace(tables, n - 1, r);
    } else {
      var l := r - |AllRows(tables, n - 1)|;
      assert AllRows(tables, n)[r] == TableRows(tables, n - 1)[l] == InfoOf(tables, n - 1, l);
    }
  }

  /** Run ends of one table, filled run by run. */
  method RunEnds(t: Table) returns (ends: seq<nat>)
    ensures |ends| == |t| && forall i :: 0 <= i < |t| ==> ends[i] == RunEnd(t, i)
  {
    ends := [];
    var start := 0;
    while start < |t|
      invariant 0 <= start <= |t| && |ends| == start
      invariant forall i :: 0 <= i < start ==> ends[i] == RunEnd(t, i)
      invariant 0 < start < |t| ==> t[start].episodeStart != t[start - 1].episodeStart
    {
      var end := start + 1;
      while end < |t| && t[end].episodeStart == t[end - 1].episodeStart
        invariant start < end <= |t|
        invariant forall j :: start <= j < end ==> t[j].episodeStart == t[start].episodeStart
      {
        end := end + 1;
      }
      forall i | start <= i < end ensures RunEnd(t, i) == end {
        RunEndIs(t, i, end);
      }
      ends := ends + seq(end - start, _ => end);
      start := end;
    }
  }

  lemma RunEndIs(t: Table, i: nat, e: nat)
    requires i < e <= |t| && (forall j :: i <= j < e ==> t[j].episodeStart == t[i].episodeStart)
    requires e < |t| ==> t[e].episodeStart != t[i].episodeStart
    ensures RunEnd(t, i) == e
  {
  }

  class Dataset {
    const tables: seq<Table>
    const chunkSize: nat
    var rows: seq<RowInfo>
    var actions: seq<Vec>
    var imageTables: seq<nat>

    ghost predicate Valid()
      reads this
    {
      && rows == AllRows(tables, |tables|) && actions == AllActions(tables, |tables|)
      && imageTables == ImageColumns(tables, |tables|)
    }

    /** The constructor's loop over the tables. */
    constructor (tables: seq<Table>, chunkSize: nat)
      ensures Valid() && this.tables == tables && this.chunkSize == chunkSize
    {
      hide AllRows, AllActions, ImageColumns, EpisodeBase, Stamps, TableRows, TableActions;
      this.tables := tables;
      this.chunkSize := chunkSize;
      var rows: seq<RowInfo> := [];
      var actions: seq<Vec> := [];
      var imageTables: seq<nat> := [];
      var nextEpisode := 0;
      NoTable(tables);
      for n := 0 to |tables|
        invariant nextEpisode == EpisodeBase(tables, n)
        invariant rows == AllRows(tables, n) && actions == AllActions(tables, n)
        invariant imageTables == ImageColumns(tables, n)
      {
        var t := tables[n];
        OneMoreTable(tables, n);
        if t != [] {
          var more := TableIndex(tables, n, nextEpisode);
          rows := rows + more;
          actions := actions + TableActions(t);
          imageTables := imageTables + [n];
          nextEpisode := nextEpisode + |Stamps(t)|;
        }
      }
      this.rows := rows;
      this.actions := actions;
      this.imageTables := imageTables;
    }

    /** `__getitem__` for a row.  The image column is looked up by table number, in a list that leaves empty
        tables out; it fails when there is no such column or the column is too short. */
    method GetItem(row: nat) returns (r: Option<Sample>)
      requires Valid() && row < |rows|
      ensures r.Some? ==> |r.value.action| == chunkSize
      ensures r.Some? ==> Window(tables, rows[row].table, rows[row].local, row, r.value.action, r.value.isPad)
      ensures r.Some? ==> r.value.imageRow == rows[row].local
      ensures r.Some? ==> ImageFrom(tables, rows[row].table, rows[row].local, r.value.imageTable)
      ensures r.None? ==> forall u: nat :: !ImageFrom(tables, rows[row].table, rows[row].local, u)
      ensures rows[row].table < |tables|
      ensures (r.Some? && r.value.imageTable == rows[row].table)
        <==> forall i :: 0 <= i < rows[row].table ==> tables[i] != []
    {
      hide InfoOf, AllRows, AllActions, Offset, RunEnd, ImageColumns;
      EveryRowHasAPlace(tables, |tables|, row);
      var info := rows[row];
      ColumnMeaning(tables, info.table, info.local);
      ImageColumnIff(tables, info.table);
      if info.table >= |imageTables| || info.local >= |tables[imageTables[info.table]]| {
        return None;
      }
      var action, isPad := ChunkAt(row);
      r := Some(Sample(action, isPad, imageTables[info.table], info.local));
    }

    /** The chunk of actions and the pad flags of a row. */
    method ChunkAt(row: nat) returns (action: seq<Vec>, isPad: seq<bool>)
      requires Valid() && row < |rows|
      ensures |action| == |isPad| == chunkSize
      ensures Window(tables, rows[row].table, rows[row].local, row, action, isPad)
    {
      hide InfoOf, AllRows, AllActions, Offset, RunEnd, ImageColumns;
      EveryRowHasAPlace(tables, |tables|, row);
      RunLands(tables, rows[row].table, rows[row].local);
      var info := rows[row];
      var chunkEnd := info.local + chunkSize;
      var valid := (if chunkEnd <= info.runEnd then chunkEnd else info.runEnd) - info.local;
      action := actions[row..row + valid];
      if valid < chunkSize {
        var last := actions[row + valid - 1];
        action := action + seq(chunkSize - valid, _ => last);
      }
      isPad := seq(chunkSize, k requires 0 <= k => k >= valid);
      assert forall k :: 0 <= k < valid ==> action[k] == actions[row + k];
    }
  }

  lemma NoTable(tables: seq<Table>)
    ensures AllRows(tables, 0) == [] && AllActions(tables, 0) == []
    ensures ImageColumns(tables, 0) == [] && EpisodeBase(tables, 0) == 0
  {
  }

  /** What one more table adds; an empty one adds nothing. */
  lemma OneMoreTable(tables: seq<Table>, n: nat)
    requires n < |tables|
    ensures AllRows(tables, n + 1) == AllRows(tables, n) + (if tables[n] == [] then [] else TableRows(tables, n))
    ensures AllActions(tables, n + 1)
      == AllActions(tables, n) + (if tables[n] == [] then [] else TableActions(tables[n]))
    ensures ImageColumns(tables, n + 1) == ImageColumns(tables, n) + (if tables[n] == [] then [] else [n])
    ensures EpisodeBase(tables, n + 1)
      == EpisodeBase(tables, n) + (if tables[n] == [] then 0 else |Stamps(tables[n])|)
  {
    hide InfoOf;
    assert Stamps([]) == {};
  }

  /** Opening a list of files fails exactly when they hold no row at all. */
  method OpenDataset(tables: seq<Table>, chunkSize: nat) returns (d: Option<Dataset>)
    ensures d.None? <==> forall i :: 0 <= i < |tables| ==> tables[i] == []
    ensures d.Some? ==> fresh(d.value) && d.value.Valid() && d.value.tables == tables && d.value.chunkSize == chunkSize
  {
    var dataset := new Dataset(tables, chunkSize);
    if dataset.rows == [] {
      forall i | 0 <= i < |tables| ensures tables[i] == [] {
        if tables[i] != [] {
          RowsLand(tables, |tables|, i, 0);
        }
      }
      return None;
    }
    EveryRowHasAPlace(tables, |tables|, 0);
    d := Some(dataset);
  }

  /** The index entries of one table with rows. */
  method TableIndex(tables: seq<Table>, n: nat, nextEpisode: nat) returns (rows: seq<RowInfo>)
    requires n < |tables| && nextEpisode == EpisodeBase(tables, n)
    ensures rows == TableRows(tables, n)
  {
    hide Rank, RunEnd, EpisodeBase;
    var t := tables[n];
    var ends := RunEnds(t);
    rows := seq(|t|, l requires 0 <= l < |t| && |ends| == |t| =>
      RowInfo(n, l, ends[l], nextEpisode + Rank(t, t[l].episodeStart)));
  }

  /** A chunk for row `l` of table `t`: consecutive actions of that table up to the end of the row's
      episode run, then the run's last action, flagged as padding. */
  ghost predicate Window(tables: seq<Table>, t: nat, l: nat, row: nat, action: seq<Vec>, isPad: seq<bool>) {
    && t < |tables| && l < |tables[t]| && row == Offset(tables, t) + l && |action| == |isPad|
    && var end := RunEnd(tables[t], l);
       forall k :: 0 <= k < |action| ==>
         && (isPad[k] <==> l + k >= end)
         && action[k] == tables[t][if isPad[k] then end - 1 else l + k].action
  }

  /** The actions of a row's episode run stand one after another in the concatenation. */
  lemma RunLands(tables: seq<Table>, t: nat, l: nat)
    requires t < |tables| && l < |tables[t]|
    ensures InfoOf(tables, t, l).runEnd == RunEnd(tables[t], l)
    ensures var row, len, all := Offset(tables, t) + l, RunEnd(tables[t], l) - l, AllActions(tables, |tables|);
      row + len <= |all| && forall r :: row <= r < row + len ==> all[r] == tables[t][r - row + l].action
  {
    var row, len := Offset(tables, t) + l, RunEnd(tables[t], l) - l;
    RowsLand(tables, |tables|, t, l + len - 1);
    forall r | row <= r < row + len
      ensures AllActions(tables, |tables|)[r] == tables[t][r - row + l].action
    {
      RowsLand(tables, |tables|, t, r - row + l);
    }
  }

  /******* Episode ids *******/

  lemma RankBelowCount(t: Table, x: int)
    requires x in Stamps(t)
    ensures Rank(t, x) < |Stamps(t)|
  {
    var lower := Below(Stamps(t), x);
    assert lower <= Stamps(t) - {x};
    SubsetCount(lower, Stamps(t) - {x});
  }

  lemma SubsetCount(a: set<int>, b: set<int>)
    requires a <= b
    ensures |a| <= |b|
  {
    assert b == a + (b - a);
  }

  lemma RankGrows(t: Table, x: int, y: int)
    requires x in Stamps(t) && x < y
    ensures Rank(t, x) < Rank(t, y)
  {
    var lower, upper := Below(Stamps(t), x), Below(Stamps(t), y);
    assert lower <= upper - {x} && x in upper;
    SubsetCount(lower, upper - {x});
  }

  lemma {:induction false} BaseGrows(tables: seq<Table>, a: nat, b: nat)
    requires a < b <= |tables|
    ensures EpisodeBase(tables, a) + |Stamps(tables[a])| <= EpisodeBase(tables, b)
  {
    if a + 1 < b {
      BaseGrows(tables, a, b - 1);
    }
  }

  /** Earlier tables have the lower ids, and inside a table earlier stamps have. */
  lemma EpisodeOrder(tables: seq<Table>, t: nat, l: nat, t': nat, l': nat)
    requires t < |tables| && l < |tables[t]| && t' < |tables| && l' < |tables[t']|
    ensures InfoOf(tables, t, l).episode < InfoOf(tables, t', l').episode
      <==> t < t' || (t == t' && tables[t][l].episodeStart < tables[t'][l'].episodeStart)
  {
    var x, x' := tables[t][l].episodeStart, tables[t'][l'].episodeStart;
    RankBelowCount(tables[t], x);
    RankBelowCount(tables[t'], x');
    if t < t' {
      BaseGrows(tables, t, t');
    } else if t' < t {
      BaseGrows(tables, t', t);
    } else if x < x' {
      RankGrows(tables[t], x, x');
    } else if x' < x {
      RankGrows(tables[t], x', x);
    }
  }

  /** Two rows share a global episode id exactly when they share the file and the start stamp. */
  lemma SameEpisodeIff(tables: seq<Table>, t: nat, l: nat, t': nat, l': nat)
    requires t < |tables| && l < |tables[t]| && t' < |tables| && l' < |tables[t']|
    ensures InfoOf(tables, t, l).episode == InfoOf(tables, t', l').episode
      <==> t == t' && tables[t][l].episodeStart == tables[t'][l'].episodeStart
  {
    EpisodeOrder(tables, t, l, t', l');
    EpisodeOrder(tables, t', l', t, l);
  }

  /** Every number below the number of stamps is the position of some row's stamp. */
  lemma {:induction false} RankTaken(t: Table, k: nat) returns (l: nat)
    requires k < |Stamps(t)|
    ensures l < |t| && Rank(t, t[l].episodeStart) == k
  {
    hide Rank;
    assert Stamps([]) == {};
    var n := |t| - 1;
    var x := t[n].episodeStart;
    LastStamp(t);
    RankAtMost(t[..n], x);
    if x in Stamps(t[..n]) {
      l := RankTaken(t[..n], k);
    } else if k == Rank(t[..n], x) {
      l := n;
    } else {
      l := RankTaken(t[..n], if k < Rank(t[..n], x) then k else k - 1);
      var y := t[l].episodeStart;
      assert y in Stamps(t[..n]);
      if y < x {
        RankGrows(t[..n], y, x);
      } else {
        RankStays(t[..n], x, y);
      }
    }
  }

  /** What the last row adds to the stamps and to their positions. */
  lemma LastStamp(t: Table)
    requires t != []
    ensures var n := |t| - 1;
      var rest, x := t[..n], t[n].episodeStart;
      && Stamps(t) == Stamps(rest) + {x}
      && (forall y :: Rank(t, y) == Rank(rest, y) + (if x < y && x !in Stamps(rest) then 1 else 0))
  {
    var n := |t| - 1;
    var rest, x := t[..n], t[n].episodeStart;
    assert Stamps(t) == Stamps(rest) + {x};
    forall y ensures Rank(t, y) == Rank(rest, y) + (if x < y && x !in Stamps(rest) then 1 else 0) {
      if x < y && x !in Stamps(rest) {
        assert Below(Stamps(t), y) == Below(Stamps(rest), y) + {x};
      } else {
        assert Below(Stamps(t), y) == Below(Stamps(rest), y);
      }
    }
  }

  lemma RankAtMost(t: Table, x: int)
    ensures Rank(t, x) <= |Stamps(t)|
  {
    SubsetCount(Below(Stamps(t), x), Stamps(t));
  }

  lemma RankStays(t: Table, x: int, y: int)
    requires x <= y
    ensures Rank(t, x) <= Rank(t, y)
  {
    SubsetCount(Below(Stamps(t), x), Below(Stamps(t), y));
  }

  /** The ids count up from 0 without a hole: every number below the number of episodes is some row's id. */
  lemma {:induction false} EpisodesAreDense(tables: seq<Table>, n: nat, e: nat) returns (t: nat, l: nat)
    requires n <= |tables| && e < EpisodeBase(tables, n)
    ensures t < n && l < |tables[t]| && InfoOf(tables, t, l).episode == e
  {
    if e < EpisodeBase(tables, n - 1) {
      t, l := EpisodesAreDense(tables, n - 1, e);
    } else {
      t := n - 1;
      l := RankTaken(tables[t], e - EpisodeBase(tables, t));
    }
  }

  lemma EpisodesEnd(tables: seq<Table>, t: nat, l: nat)
    requires t < |tables| && l < |tables[t]|
    ensures InfoOf(tables, t, l).episode < EpisodeBase(tables, |tables|)
  {
    RankBelowCount(tables[t], tables[t][l].episodeStart);
    BaseGrows(tables, t, |tables|);
  }

  /******* Image columns *******/

  /** The constructor keeps one image column per table that has rows: the numbers of those tables. */
  function ImageColumns(tables: seq<Table>, n: nat): (cols: seq<nat>)
    requires n <= |tables|
    ensures |cols| <= n && forall i :: 0 <= i < |cols| ==> cols[i] < n
  {
    if n == 0 then [] else ImageColumns(tables, n - 1) + (if tables[n - 1] == [] then [] else [n - 1])
  }

  /** Tables with rows before table `u`. */
  function FilledBefore(tables: seq<Table>, u: nat): nat
    requires u <= |tables|
  {
    if u == 0 then 0 else FilledBefore(tables, u - 1) + (if tables[u - 1] == [] then 0 else 1)
  }

  /** Table `u` is the one with `t` other tables with rows before it, and it has a row `l`. */
  ghost predicate ImageFrom(tables: seq<Table>, t: nat, l: nat, u: nat) {
    u < |tables| && l < |tables[u]| && FilledBefore(tables, u) == t
  }

  lemma {:induction false} ColumnCount(tables: seq<Table>, n: nat)
    requires n <= |tables|
    ensures |ImageColumns(tables, n)| == FilledBefore(tables, n)
  {
    if n > 0 {
      ColumnCount(tables, n - 1);
    }
  }

  lemma {:induction false} ColumnsAreFilled(tables: seq<Table>, n: nat)
    requires n <= |tables|
    ensures forall u :: u in ImageColumns(tables, n) ==> u < |tables| && tables[u] != []
  {
    if n > 0 {
      ColumnsAreFilled(tables, n - 1);
    }
  }

  /** Column `t` belongs to the table with `t` tables with rows before it. */
  lemma ColumnMeaning(tables: seq<Table>, t: nat, l: nat)
    ensures var cols := ImageColumns(tables, |tables|);
      forall u: nat :: ImageFrom(tables, t, l, u) <==> t < |cols| && cols[t] == u && l < |tables[u]|
  {
    hide ImageColumns;
    var cols := ImageColumns(tables, |tables|);
    ColumnsAreFilled(tables, |tables|);
    forall u: nat | u < |tables| && tables[u] != []
      ensures FilledBefore(tables, u) == t <==> t < |cols| && cols[t] == u
    {
      ColumnsSplit(tables, u, |tables|);
      ColumnCount(tables, u);
    }
  }

  /** A sample looks its images up by table number, in the list that leaves empty tables out.  It finds
      the column of its own table exactly when no earlier table is empty. */
  lemma ImageColumnIff(tables: seq<Table>, t: nat)
    requires t < |tables| && tables[t] != []
    ensures var cols := ImageColumns(tables, |tables|);
      (t < |cols| && cols[t] == t) <==> forall i :: 0 <= i < t ==> tables[i] != []
  {
    ColumnsSplit(tables, t, |tables|);
    CountUpTo(tables, t);
  }

  lemma {:induction false} ColumnsSplit(tables: seq<Table>, t: nat, n: nat)
    requires t < n <= |tables| && tables[t] != []
    ensures var before, cols := ImageColumns(tables, t), ImageColumns(tables, n);
      && |before| < |cols| && cols[|before|] == t && (forall i :: |before| < i < |cols| ==> cols[i] > t)
      && cols[..|before|] == before
  {
    if t + 1 < n {
      ColumnsSplit(tables, t, n - 1);
    }
  }

  lemma {:induction false} CountUpTo(tables: seq<Table>, t: nat)
    requires t <= |tables|
    ensures |ImageColumns(tables, t)| == t <==> forall i :: 0 <= i < t ==> tables[i] != []
  {
    if t > 0 {
      CountUpTo(tables, t - 1);
    }
  }
}
