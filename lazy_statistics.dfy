/**
 * The stand-alone `calculateColorStatistics` over string palettes: a position
 * appears only once some used palette reaches it, is then seeded with every
 * input colour and "absent" at 0, and any colour met there gets a key of its own.
 */
module LazyStatistics {
  import opened Types

  /** The colour lists of the used palettes, in order. */
  function UsedColorLists(ps: seq<StrPalette>): (r: seq<seq<string>>)
    ensures |r| <= |ps|
  {
    if ps == [] then []
    else UsedColorLists(ps[..|ps| - 1]) + (if ps[|ps| - 1].used then [ps[|ps| - 1].colors] else [])
  }

  /** The greatest length among `cs` (0 for none). */
  function MaxLen(cs: seq<seq<string>>): nat {
    if cs == [] then 0
    else
      var m := MaxLen(cs[..|cs| - 1]);
      if |cs[|cs| - 1]| > m then |cs[|cs| - 1]| else m
  }

  /** The colours at (1-based) position p of the lists long enough to have one, in order. */
  function Column(cs: seq<seq<string>>, p: int): seq<string> {
    if cs == [] then []
    else
      var last := cs[|cs| - 1];
      Column(cs[..|cs| - 1], p) + (if 1 <= p <= |last| then [last[p - 1]] else [])
  }

  /** How many of `cs` have at least p colours. */
  function CountLong(cs: seq<seq<string>>, p: int): nat {
    if cs == [] then 0 else CountLong(cs[..|cs| - 1], p) + (if |cs[|cs| - 1]| >= p then 1 else 0)
  }

  /** The keys a position is seeded with: the input colours and "absent". */
  function SeedKeys(inputColors: seq<string>): set<string> {
    (set v | v in inputColors) + {"absent"}
  }

  /**
   * `row` counts `column`: it has the seed keys and every colour of the
   * column, and each count is the number of times that colour occurs there.
   */
  ghost predicate RowFor(row: map<string, int>, column: seq<string>, inputColors: seq<string>) {
    && row.Keys == SeedKeys(inputColors) + (set v | v in column)
    && (forall v :: v in row ==> row[v] == multiset(column)[v])
  }

  /**
   * `stats` is the result of counting the colour lists `cs`: positions
   * 1..MaxLen(cs), each with the row that counts the colours met there.
   */
  ghost predicate LazyStats(stats: Statistics, cs: seq<seq<string>>, inputColors: seq<string>) {
    && (forall p :: p in stats <==> 1 <= p <= MaxLen(cs))
    && (forall p :: p in stats ==> RowFor(stats[p], Column(cs, p), inputColors))
  }

  lemma ColumnBeyond(cs: seq<seq<string>>, p: int)
    requires p > MaxLen(cs)
    ensures Column(cs, p) == []
  {
    if cs != [] { ColumnBeyond(cs[..|cs| - 1], p); }
  }

  /** How the column and the maximum change when one more colour of the list being counted is taken. */
  lemma ExtendLast(cs: seq<seq<string>>, c: seq<string>, pos: nat)
    requires pos < |c|
    ensures MaxLen(cs + [c[..pos]]) >= pos
    ensures MaxLen(cs + [c[..pos + 1]]) == if MaxLen(cs + [c[..pos]]) > pos then MaxLen(cs + [c[..pos]]) else pos + 1
    ensures Column(cs + [c[..pos + 1]], pos + 1) == Column(cs + [c[..pos]], pos + 1) + [c[pos]]
    ensures forall p :: p != pos + 1 ==> Column(cs + [c[..pos + 1]], p) == Column(cs + [c[..pos]], p)
  {
    assert (cs + [c[..pos + 1]])[..|cs|] == cs;
    assert (cs + [c[..pos]])[..|cs|] == cs;
  }

  /**
   * The callback run for one position of one used palette: seeds the position
   * if it is new, gives the colour a key if it has none (or a zero count),
   * then adds one. `cs` and `c` are the lists counted so far and the list
   * being counted.
   */
  method CountColor(stats: Statistics, position: int, color: string, inputColors: seq<string>,
                    ghost cs: seq<seq<string>>, ghost c: seq<string>)
    returns (next: Statistics)
    requires 1 <= position <= |c| && c[position - 1] == color
    requires LazyStats(stats, cs + [c[..position - 1]], inputColors)
    ensures LazyStats(next, cs + [c[..position]], inputColors)
  {
    ghost var before := cs + [c[..position - 1]];
    ghost var after := cs + [c[..position]];
    ExtendLast(cs, c, position - 1);
    ghost var column := Column(before, position);
    var row: map<string, int>;
    if position in stats {
      row := stats[position];
    } else {
      ColumnBeyond(before, position);
      row := SeedRow(inputColors);
    }
    assert RowFor(row, column, inputColors);
    row := Counted(row, color, column, inputColors);
    next := stats[position := row];
    LazyUpdate(stats, row, before, after, position, inputColors);
  }

  /** Giving `color` a key if it has none (or a zero count) and adding one to it. */
  method Counted(row: map<string, int>, color: string, ghost column: seq<string>, inputColors: seq<string>)
    returns (r: map<string, int>)
    requires RowFor(row, column, inputColors)
    ensures RowFor(r, column + [color], inputColors)
  {
    r := row;
    if !(color in r && r[color] != 0) {
      r := r[color := 0];
    }
    assert r[color] == multiset(column)[color];
    r := r[color := r[color] + 1];
    assert (set v | v in column + [color]) == (set v | v in column) + {color};
    assert multiset(column + [color]) == multiset(column) + multiset{color};
  }

  /** Replacing the row of `position` by the row of the extended column turns counts of `before` into counts of `after`. */
  lemma LazyUpdate(stats: Statistics, row: map<string, int>, before: seq<seq<string>>, after: seq<seq<string>>,
                   position: int, inputColors: seq<string>)
    requires LazyStats(stats, before, inputColors)
    requires 1 <= position <= MaxLen(before) + 1
    requires MaxLen(after) == if MaxLen(before) >= position then MaxLen(before) else position
    requires forall p :: p != position ==> Column(after, p) == Column(before, p)
    requires RowFor(row, Column(after, position), inputColors)
    ensures LazyStats(stats[position := row], after, inputColors)
  {
    var next := stats[position := row];
    UpdateKeys(stats, next, row, position, MaxLen(before), MaxLen(after));
    UpdateRows(stats, next, row, before, after, position, inputColors);
  }

  /** Rows other than the one of `position` keep counting their unchanged columns. */
  lemma UpdateRows(stats: Statistics, next: Statistics, row: map<string, int>, before: seq<seq<string>>,
                   after: seq<seq<string>>, position: int, inputColors: seq<string>)
    requires next == stats[position := row]
    requires forall p :: p in stats ==> RowFor(stats[p], Column(before, p), inputColors)
    requires forall p :: p != position ==> Column(after, p) == Column(before, p)
    requires RowFor(row, Column(after, position), inputColors)
    ensures forall p :: p in next ==> RowFor(next[p], Column(after, p), inputColors)
  {
    forall p | p in next
      ensures RowFor(next[p], Column(after, p), inputColors)
    {
      if p != position {
        assert next[p] == stats[p];
        assert Column(after, p) == Column(before, p);
      }
    }
  }

  /** The keys after seeding `position`, which is at most one past the current maximum. */
  lemma UpdateKeys(stats: Statistics, next: Statistics, row: map<string, int>, position: int, m: nat, m': nat)
    requires forall p :: p in stats <==> 1 <= p <= m
    requires 1 <= position <= m + 1 && m' == if m >= position then m else position
    requires next == stats[position := row]
    ensures forall p :: p in next <==> 1 <= p <= m'
  {
  }

  /** `allInputColors.forEach(c => statistics[position][c] = 0)`. */
  method SeedRow(inputColors: seq<string>) returns (row: map<string, int>)
    ensures RowFor(row, [], inputColors)
  {
    var all := inputColors + ["absent"];
    row := map[];
    for i := 0 to |all|
      invariant row.Keys == set v | v in all[..i]
      invariant forall v :: v in row ==> row[v] == 0
    {
      assert all[..i + 1] == all[..i] + [all[i]];
      row := row[all[i] := 0];
    }
    assert all[..|all|] == all;
  }

  /**
   * `calculateColorStatistics` of calculateColorStatistics.ts. The closing
   * descending sort rebuilds each position's entries with the same keys and
   * counts; as a map it is the identity and is not modelled.
   */
  method CalculateColorStatistics(palettes: seq<StrPalette>, inputColors: seq<string>) returns (stats: Statistics)
    ensures LazyStats(stats, UsedColorLists(palettes), inputColors)
  {
    var usedPalettes := UsedColorLists(palettes);
    stats := map[];
    for u := 0 to |usedPalettes|
      invariant LazyStats(stats, usedPalettes[..u], inputColors)
    {
      var colors := usedPalettes[u];
      assert usedPalettes[..u] + [colors[..0]] == usedPalettes[..u] + [[]];
      EmptyListNeutral(usedPalettes[..u]);
      for position := 1 to |colors| + 1
        invariant LazyStats(stats, usedPalettes[..u] + [colors[..position - 1]], inputColors)
      {
        stats := CountColor(stats, position, colors[position - 1], inputColors, usedPalettes[..u], colors);
      }
      assert colors[..|colors|] == colors;
      assert usedPalettes[..u + 1] == usedPalettes[..u] + [colors];
    }
    assert usedPalettes[..|usedPalettes|] == usedPalettes;
  }

  /** An empty list changes neither the maximum nor any column. */
  lemma EmptyListNeutral(cs: seq<seq<string>>)
    ensures MaxLen(cs + [[]]) == MaxLen(cs)
    ensures forall p :: Column(cs + [[]], p) == Column(cs, p)
  {
    assert (cs + [[]])[..|cs|] == cs;
  }

  // ---------------------------------------------------------------------------
  // What the counts mean
  // ---------------------------------------------------------------------------

  /** The column at p has one entry per list of length at least p. */
  lemma {:induction false} ColumnSize(cs: seq<seq<string>>, p: int)
    requires p >= 1
    ensures |Column(cs, p)| == CountLong(cs, p)
  {
    if cs != [] { ColumnSize(cs[..|cs| - 1], p); }
  }

  /** Position p is a key exactly when some used palette has at least p colours. */
  lemma {:induction false} MaxLenReached(cs: seq<seq<string>>, p: int)
    requires p >= 1
    ensures p <= MaxLen(cs) <==> CountLong(cs, p) > 0
  {
    if cs != [] { MaxLenReached(cs[..|cs| - 1], p); }
  }

  /**
   * The counts at a position add up to the used palettes that reach it: the
   * multiset the counts read from has exactly that many entries.
   */
  lemma CountsAddUp(stats: Statistics, cs: seq<seq<string>>, inputColors: seq<string>, p: int)
    requires LazyStats(stats, cs, inputColors) && p in stats
    ensures |multiset(Column(cs, p))| == CountLong(cs, p) > 0
    ensures forall v :: v in stats[p] ==> stats[p][v] == multiset(Column(cs, p))[v]
    ensures forall v :: v in multiset(Column(cs, p)) ==> v in stats[p]
    ensures SeedKeys(inputColors) <= stats[p].Keys
  {
    ColumnSize(cs, p);
    MaxLenReached(cs, p);
  }

  /** No used palette means no positions at all. */
  lemma NoUsedEmpty(stats: Statistics, palettes: seq<StrPalette>, inputColors: seq<string>)
    requires LazyStats(stats, UsedColorLists(palettes), inputColors)
    requires forall j :: 0 <= j < |palettes| ==> !palettes[j].used
    ensures stats == map[]
  {
    NoUsedLists(palettes);
    assert MaxLen(UsedColorLists(palettes)) == 0;
    forall p ensures p !in stats { }
    assert stats.Keys == {};
  }

  lemma {:induction false} NoUsedLists(palettes: seq<StrPalette>)
    requires forall j :: 0 <= j < |palettes| ==> !palettes[j].used
    ensures UsedColorLists(palettes) == []
  {
    if palettes != [] { NoUsedLists(palettes[..|palettes| - 1]); }
  }

  /** "absent" stays at 0 unless some palette holds the literal colour "absent". */
  lemma {:induction false} AbsentStaysZero(cs: seq<seq<string>>, p: int)
    requires forall j :: 0 <= j < |cs| ==> "absent" !in cs[j]
    ensures multiset(Column(cs, p))["absent"] == 0
  {
    if cs != [] {
      AbsentStaysZero(cs[..|cs| - 1], p);
      var last := cs[|cs| - 1];
      if 1 <= p <= |last| { assert last[p - 1] in last; }
    }
  }
}
