/** Measured rows, what the completeness check says about them and which candidates the loader
    makes of them. */
module Evidence {
  import opened Names
  import opened Wrappers

  type Features = map<string, seq<int>>

  /** What a cell row lists for one candidate. */
  datatype Listed = Listed(tag: string, features: Features, plan: Option<map<string, real>>, work: Option<int>)

  datatype Facts = Facts(layers: int, gdnLayers: int, shape: seq<int>, usesGdn: bool)

  /** A row of evidence.  `cell` is the key built from the row. */
  datatype Row =
    | CellRow(cell: string, model: string, facts: Facts, listed: seq<Listed>)
    | SampleRow(cell: string, tag: string, measured: bool, refused: bool, subforwards: int, statuses: seq<string>,
                variant: string, ms: real)
    | OtherRow

  datatype Candidate = Candidate(cell: string, tag: string, features: Features, facts: Facts, ms: real, n: nat,
                                 spread: real, model: string, shape: seq<int>, plan: Option<map<string, real>>,
                                 work: Option<int>)

  const AUTOMATIC: string := "automatic"
  const CURRENT: string := "current"

  /** The fields that the current extractor defines. */
  const FIELDS: set<string> := {"packed_tokens", "segment_count", "max_depth", "segments_below"}

  function Project(features: Features): (p: Features)
    ensures p.Keys == features.Keys * FIELDS && forall k <- p :: p[k] == features[k]
  {
    map k | k in features && k in FIELDS :: features[k]
  }

  // -------------------------------------------------------------- reading the rows

  predicate Clean(statuses: seq<string>) {
    forall i :: 0 <= i < |statuses| ==> statuses[i] == "none"
  }

  /** A sample that counts: measured, admitted, unsplit, compile-free, under the current planner. */
  predicate Usable(row: Row) {
    && row.SampleRow? && row.measured && !row.refused && row.subforwards == 1
    && Clean(row.statuses) && row.variant == CURRENT
  }

  function Samples(rows: seq<Row>, cell: string, tag: string): seq<real> {
    if rows == [] then []
    else
      var row := rows[|rows| - 1];
      Samples(rows[..|rows| - 1], cell, tag)
      + if Usable(row) && row.cell == cell && row.tag == tag then [row.ms] else []
  }

  predicate Refuses(row: Row, cell: string, tag: string) {
    row.SampleRow? && row.variant == CURRENT && row.refused && row.cell == cell && row.tag == tag
  }

  predicate Refused(rows: seq<Row>, cell: string, tag: string) {
    exists i | 0 <= i < |rows| :: Refuses(rows[i], cell, tag)
  }

  /** The cells, in order of first appearance. */
  function CellsOf(rows: seq<Row>): seq<string> {
    if rows == [] then []
    else
      var before, row := CellsOf(rows[..|rows| - 1]), rows[|rows| - 1];
      before + if row.CellRow? && row.cell !in before then [row.cell] else []
  }

  /** The row that counts for a cell: the last one. */
  function LastRow(rows: seq<Row>, cell: string): (last: Option<Row>)
    ensures last.Some? ==> last.value.CellRow? && last.value.cell == cell && last.value in rows
  {
    if rows == [] then None
    else if rows[|rows| - 1].CellRow? && rows[|rows| - 1].cell == cell then Some(rows[|rows| - 1])
    else LastRow(rows[..|rows| - 1], cell)
  }

  lemma {:induction false} EveryCellHasARow(rows: seq<Row>, cell: string)
    ensures cell in CellsOf(rows) <==> LastRow(rows, cell).Some?
  {
    if rows != [] {
      EveryCellHasARow(rows[..|rows| - 1], cell);
    }
  }

  lemma {:induction false} RowHasItsCell(rows: seq<Row>, i: nat)
    requires i < |rows| && rows[i].CellRow?
    ensures rows[i].cell in CellsOf(rows)
  {
    if i < |rows| - 1 {
      RowHasItsCell(rows[..|rows| - 1], i);
    }
  }

  lemma {:induction false} CellsAreDistinct(rows: seq<Row>)
    ensures forall j, k :: 0 <= j < k < |CellsOf(rows)| ==> CellsOf(rows)[j] != CellsOf(rows)[k]
  {
    if rows != [] {
      CellsAreDistinct(rows[..|rows| - 1]);
    }
  }

  // ----------------------------------------------------------------- completeness

  datatype CarriedCandidate = CarriedCandidate(tag: string, n: int)
  datatype Carried = Carried(cell: string, candidates: seq<CarriedCandidate>)

  datatype Gap =
    | CarriedThin(cell: string, tag: string, n: int)
    | RefusedAdmission(cell: string, tag: string)
    | Thin(cell: string, tag: string, n: int)

  function CarriedGaps(cell: string, candidates: seq<CarriedCandidate>, repeat: int): seq<Gap> {
    if candidates == [] then []
    else
      var c := candidates[|candidates| - 1];
      CarriedGaps(cell, candidates[..|candidates| - 1], repeat)
      + if c.tag != AUTOMATIC && c.n < repeat then [CarriedThin(cell, c.tag, c.n)] else []
  }

  function AllCarriedGaps(carried: seq<Carried>, repeat: int): seq<Gap> {
    if carried == [] then []
    else
      var record := carried[|carried| - 1];
      AllCarriedGaps(carried[..|carried| - 1], repeat) + CarriedGaps(record.cell, record.candidates, repeat)
  }

  function GapOf(rows: seq<Row>, cell: string, tag: string, repeat: int): seq<Gap> {
    if tag == AUTOMATIC then []
    else if Refused(rows, cell, tag) then [RefusedAdmission(cell, tag)]
    else if |Samples(rows, cell, tag)| < repeat then [Thin(cell, tag, |Samples(rows, cell, tag)|)]
    else []
  }

  function CellGaps(rows: seq<Row>, cell: string, listed: seq<Listed>, repeat: int): seq<Gap> {
    if listed == [] then []
    else
      CellGaps(rows, cell, listed[..|listed| - 1], repeat) + GapOf(rows, cell, listed[|listed| - 1].tag, repeat)
  }

  function ListedIn(rows: seq<Row>, cell: string): seq<Listed> {
    var last := LastRow(rows, cell);
    if last.Some? then last.value.listed else []
  }

  function AllCellGaps(rows: seq<Row>, cells: seq<string>, repeat: int): seq<Gap> {
    if cells == [] then []
    else
      var cell := cells[|cells| - 1];
      AllCellGaps(rows, cells[..|cells| - 1], repeat) + CellGaps(rows, cell, ListedIn(rows, cell), repeat)
  }

  function Gaps(rows: seq<Row>, repeat: int, carried: seq<Carried>): seq<Gap> {
    AllCarriedGaps(carried, repeat) + AllCellGaps(rows, CellsOf(rows), repeat)
  }

  // ------------------------------------------------ what completeness means, row by row

  /** A sample of this candidate that was measured and not refused, in one piece, without any compilation, under
      the current planner. */
  ghost predicate IsSample(row: Row, cell: string, tag: string) {
    && row.SampleRow? && row.cell == cell && row.tag == tag && row.measured && !row.refused && row.subforwards == 1
    && row.variant == "current" && forall status <- row.statuses :: status == "none"
  }

  ghost predicate IsRefusal(row: Row, cell: string, tag: string) {
    row.SampleRow? && row.cell == cell && row.tag == tag && row.refused && row.variant == "current"
  }

  /** The last row of its cell. */
  ghost predicate IsLast(rows: seq<Row>, i: nat) {
    && i < |rows| && rows[i].CellRow?
    && forall k | i < k < |rows| && rows[k].CellRow? :: rows[k].cell != rows[i].cell
  }

  ghost function HowMany(rows: seq<Row>, cell: string, tag: string): nat {
    |set i | 0 <= i < |rows| && IsSample(rows[i], cell, tag)|
  }

  ghost function HowOften(rows: seq<Row>, cell: string, tag: string, ms: real): nat {
    |set i | 0 <= i < |rows| && IsSample(rows[i], cell, tag) && rows[i].ms == ms|
  }

  /** Nothing is missing: what is carried has enough rows, and every candidate that the last row of
      a cell lists was never refused and has enough samples. */
  ghost predicate Complete(rows: seq<Row>, repeat: int, carried: seq<Carried>) {
    && (forall record <- carried :: forall c <- record.candidates :: c.tag != "automatic" ==> c.n >= repeat)
    && forall i: nat :: LastIsComplete(rows, i, repeat)
  }

  ghost predicate LastIsComplete(rows: seq<Row>, i: nat, repeat: int) {
    IsLast(rows, i) ==> forall l <- rows[i].listed :: Measured(rows, rows[i].cell, l.tag, repeat)
  }

  ghost predicate Measured(rows: seq<Row>, cell: string, tag: string, repeat: int) {
    tag != "automatic" ==> (forall row <- rows :: !IsRefusal(row, cell, tag)) && HowMany(rows, cell, tag) >= repeat
  }

  ghost predicate CellComplete(rows: seq<Row>, cell: string, repeat: int) {
    forall l <- ListedIn(rows, cell) :: Measured(rows, cell, l.tag, repeat)
  }

  lemma UsableIs(row: Row, cell: string, tag: string)
    ensures IsSample(row, cell, tag) <==> Usable(row) && row.cell == cell && row.tag == tag
    ensures IsRefusal(row, cell, tag) <==> Refuses(row, cell, tag)
  {
    if row.SampleRow? {
      CleanIs(row.statuses);
    }
    hide Clean;
  }

  lemma CleanIs(statuses: seq<string>)
    ensures Clean(statuses) <==> forall status <- statuses :: status == "none"
  {
    assert forall i :: 0 <= i < |statuses| ==> statuses[i] in statuses;
  }

  lemma OneMoreSample(rows: seq<Row>, row: Row, cell: string, tag: string)
    ensures HowMany(rows + [row], cell, tag) == HowMany(rows, cell, tag) + if IsSample(row, cell, tag) then 1 else 0
  {
    hide IsSample;
    var n := |rows|;
    var before := set i | 0 <= i < n && IsSample(rows[i], cell, tag);
    var after := set i | 0 <= i < n + 1 && IsSample((rows + [row])[i], cell, tag);
    assert after == if IsSample(row, cell, tag) then before + {n} else before;
  }

  lemma OneMoreOften(rows: seq<Row>, row: Row, cell: string, tag: string, ms: real)
    ensures HowOften(rows + [row], cell, tag, ms) ==
      HowOften(rows, cell, tag, ms) + if IsSample(row, cell, tag) && row.ms == ms then 1 else 0
  {
    var n := |rows|;
    var before := set i | 0 <= i < n && IsSample(rows[i], cell, tag) && rows[i].ms == ms;
    var after := set i | 0 <= i < n + 1 && IsSample((rows + [row])[i], cell, tag) && (rows + [row])[i].ms == ms;
    assert after == if IsSample(row, cell, tag) && row.ms == ms then before + {n} else before;
  }

  /** The samples are those of the rows, every value as often as it was measured. */
  lemma {:induction false} SamplesAre(rows: seq<Row>, cell: string, tag: string)
    ensures |Samples(rows, cell, tag)| == HowMany(rows, cell, tag)
    ensures forall ms :: multiset(Samples(rows, cell, tag))[ms] == HowOften(rows, cell, tag, ms)
  {
    if rows != [] {
      var before, row := rows[..|rows| - 1], rows[|rows| - 1];
      assert rows == before + [row];
      SamplesAre(before, cell, tag);
      OneMoreSample(before, row, cell, tag);
      UsableIs(row, cell, tag);
      var samples := Samples(before, cell, tag);
      var more := if IsSample(row, cell, tag) then [row.ms] else [];
      assert Samples(rows, cell, tag) == samples + more;
      hide HowOften, HowMany, IsSample, Usable, Samples;
      assert multiset(samples + more) == multiset(samples) + multiset(more);
      forall ms ensures multiset(samples + more)[ms] == HowOften(rows, cell, tag, ms) {
        OneMoreOften(before, row, cell, tag, ms);
      }
    }
  }

  lemma RefusedIs(rows: seq<Row>, cell: string, tag: string)
    ensures Refused(rows, cell, tag) <==> exists row <- rows :: IsRefusal(row, cell, tag)
  {
    forall row: Row {
      UsableIs(row, cell, tag);
    }
    hide Refuses, IsRefusal;
  }

  lemma {:induction false} LastRowIs(rows: seq<Row>, cell: string)
    ensures LastRow(rows, cell).Some? ==> exists i: nat :: IsLast(rows, i) && rows[i] == LastRow(rows, cell).value
    ensures forall i: nat :: IsLast(rows, i) && rows[i].cell == cell ==> LastRow(rows, cell) == Some(rows[i])
  {
    if rows != [] {
      var n := |rows| - 1;
      LastRowIs(rows[..n], cell);
      forall i: nat ensures IsLast(rows, i) && i < n ==> IsLast(rows[..n], i) {
      }
      if rows[n].CellRow? && rows[n].cell == cell {
        assert IsLast(rows, n);
      } else if LastRow(rows[..n], cell).Some? {
        var i: nat :| IsLast(rows[..n], i) && rows[..n][i] == LastRow(rows[..n], cell).value;
        assert IsLast(rows, i);
      }
    }
  }

  /** The rows in question are the last ones of the cells that occur. */
  lemma LastRowsAre(rows: seq<Row>, repeat: int)
    ensures (forall cell <- CellsOf(rows) :: CellComplete(rows, cell, repeat)) <==>
      forall i: nat :: LastIsComplete(rows, i, repeat)
  {
    hide Measured, CellsOf;
    if forall cell <- CellsOf(rows) :: CellComplete(rows, cell, repeat) {
      forall i: nat ensures LastIsComplete(rows, i, repeat) {
        if IsLast(rows, i) {
          LastRowIs(rows, rows[i].cell);
          EveryCellHasARow(rows, rows[i].cell);
          assert CellComplete(rows, rows[i].cell, repeat);
        }
      }
    }
    if forall i: nat :: LastIsComplete(rows, i, repeat) {
      forall cell | cell in CellsOf(rows) ensures CellComplete(rows, cell, repeat) {
        EveryCellHasARow(rows, cell);
        LastRowIs(rows, cell);
        var i: nat :| IsLast(rows, i) && rows[i] == LastRow(rows, cell).value;
        assert LastIsComplete(rows, i, repeat);
      }
    }
  }

  lemma GapIff(rows: seq<Row>, cell: string, tag: string, repeat: int)
    ensures GapOf(rows, cell, tag, repeat) == [] <==> Measured(rows, cell, tag, repeat)
  {
    SamplesAre(rows, cell, tag);
    RefusedIs(rows, cell, tag);
    hide Samples, Refused, HowMany, HowOften, IsRefusal;
  }

  lemma {:induction false} CarriedGapsIff(cell: string, candidates: seq<CarriedCandidate>, repeat: int)
    ensures CarriedGaps(cell, candidates, repeat) == [] <==>
      forall c <- candidates :: c.tag != "automatic" ==> c.n >= repeat
  {
    if candidates != [] {
      CarriedGapsIff(cell, candidates[..|candidates| - 1], repeat);
      assert candidates == candidates[..|candidates| - 1] + [candidates[|candidates| - 1]];
    }
  }

  lemma {:induction false} AllCarriedGapsIff(carried: seq<Carried>, repeat: int)
    ensures AllCarriedGaps(carried, repeat) == [] <==>
      forall record <- carried :: forall c <- record.candidates :: c.tag != "automatic" ==> c.n >= repeat
  {
    if carried != [] {
      var record := carried[|carried| - 1];
      AllCarriedGapsIff(carried[..|carried| - 1], repeat);
      CarriedGapsIff(record.cell, record.candidates, repeat);
      assert carried == carried[..|carried| - 1] + [record];
    }
  }

  lemma {:induction false} CellGapsIff(rows: seq<Row>, cell: string, listed: seq<Listed>, repeat: int)
    ensures CellGaps(rows, cell, listed, repeat) == [] <==> forall l <- listed :: Measured(rows, cell, l.tag, repeat)
  {
    if listed != [] {
      CellGapsIff(rows, cell, listed[..|listed| - 1], repeat);
      assert listed == listed[..|listed| - 1] + [listed[|listed| - 1]];
      GapIff(rows, cell, listed[|listed| - 1].tag, repeat);
      hide GapOf, Measured;
    }
  }

  lemma {:induction false} AllCellGapsIff(rows: seq<Row>, cells: seq<string>, repeat: int)
    ensures AllCellGaps(rows, cells, repeat) == [] <==> forall cell <- cells :: CellComplete(rows, cell, repeat)
  {
    if cells != [] {
      var cell := cells[|cells| - 1];
      AllCellGapsIff(rows, cells[..|cells| - 1], repeat);
      CellGapsIff(rows, cell, ListedIn(rows, cell), repeat);
      assert CellGaps(rows, cell, ListedIn(rows, cell), repeat) == [] <==> CellComplete(rows, cell, repeat);
      hide ListedIn, CellComplete, CellGaps;
      assert cells == cells[..|cells| - 1] + [cell];
    }
  }

  /** No gap is reported exactly if nothing is missing. */
  lemma NoGapsIffComplete(rows: seq<Row>, repeat: int, carried: seq<Carried>)
    ensures Gaps(rows, repeat, carried) == [] <==> Complete(rows, repeat, carried)
  {
    AllCarriedGapsIff(carried, repeat);
    AllCellGapsIff(rows, CellsOf(rows), repeat);
    LastRowsAre(rows, repeat);
    hide AllCarriedGaps, AllCellGaps, CellComplete, LastIsComplete;
    assert Gaps(rows, repeat, carried) == [] <==>
      AllCarriedGaps(carried, repeat) == [] && AllCellGaps(rows, CellsOf(rows), repeat) == [];
  }

  // ---------------------------------------------------- the source's pass over the rows

  /** What one pass over the rows collects, by cell and by cell and tag. */
  datatype Collected = Collected(order: seq<string>, cells: map<string, Row>, samples: map<(string, string), seq<real>>,
                                 refused: set<(string, string)>)

  ghost predicate Collects(rows: seq<Row>, c: Collected) {
    CellsKnown(rows, c) && SamplesKnown(rows, c) && RefusedKnown(rows, c)
  }

  ghost predicate CellsKnown(rows: seq<Row>, c: Collected) {
    && c.order == CellsOf(rows)
    && forall cell :: Known(c.cells, cell) == LastRow(rows, cell)
  }

  function Known(cells: map<string, Row>, cell: string): Option<Row> {
    if cell in cells then Some(cells[cell]) else None
  }

  ghost predicate SamplesKnown(rows: seq<Row>, c: Collected) {
    forall cell, tag :: Found(c.samples, cell, tag) == Samples(rows, cell, tag)
  }

  ghost predicate RefusedKnown(rows: seq<Row>, c: Collected) {
    forall cell, tag :: (cell, tag) in c.refused <==> Refused(rows, cell, tag)
  }

  function Found(samples: map<(string, string), seq<real>>, cell: string, tag: string): seq<real> {
    if (cell, tag) in samples then samples[(cell, tag)] else []
  }

  function CollectRow(c: Collected, row: Row): Collected {
    match row
    case CellRow(cell, _, _, _) =>
      c.(order := if cell in c.cells then c.order else c.order + [cell], cells := c.cells[cell := row])
    case SampleRow(cell, tag, _, refused, _, _, variant, ms) =>
      var noted := if variant == CURRENT && refused then c.(refused := c.refused + {(cell, tag)}) else c;
      if Usable(row) then noted.(samples := noted.samples[(cell, tag) := Found(c.samples, cell, tag) + [ms]]) else noted
    case OtherRow => c
  }

  lemma RefusedSnoc(rows: seq<Row>, row: Row, cell: string, tag: string)
    ensures Refused(rows + [row], cell, tag) <==> Refused(rows, cell, tag) || Refuses(row, cell, tag)
  {
    hide Refuses;
    var all := rows + [row];
    if Refuses(row, cell, tag) {
      assert Refuses(all[|rows|], cell, tag);
    }
    if Refused(rows, cell, tag) {
      var i :| 0 <= i < |rows| && Refuses(rows[i], cell, tag);
      assert Refuses(all[i], cell, tag);
    }
  }

  lemma CellsSnoc(rows: seq<Row>, row: Row, cell: string)
    ensures CellsOf(rows + [row]) ==
      CellsOf(rows) + if row.CellRow? && row.cell !in CellsOf(rows) then [row.cell] else []
    ensures LastRow(rows + [row], cell) == if row.CellRow? && row.cell == cell then Some(row) else LastRow(rows, cell)
  {
    assert (rows + [row])[..|rows|] == rows;
  }

  lemma CellsOne(rows: seq<Row>, c: Collected, row: Row)
    requires CellsKnown(rows, c)
    ensures CellsKnown(rows + [row], CollectRow(c, row))
  {
    hide CellsOf, LastRow, Usable, Found;
    var more := CollectRow(c, row);
    if row.CellRow? {
      EveryCellHasARow(rows, row.cell);
      assert Known(c.cells, row.cell) == LastRow(rows, row.cell);
    }
    CellsSnoc(rows, row, "");
    assert more.order == CellsOf(rows + [row]);
    forall cell ensures Known(more.cells, cell) == LastRow(rows + [row], cell) {
      CellsSnoc(rows, row, cell);
      assert Known(c.cells, cell) == LastRow(rows, cell);
    }
  }

  lemma SamplesSnoc(rows: seq<Row>, row: Row, cell: string, tag: string)
    ensures Samples(rows + [row], cell, tag) ==
      Samples(rows, cell, tag) + if Usable(row) && row.cell == cell && row.tag == tag then [row.ms] else []
  {
    assert (rows + [row])[..|rows|] == rows;
  }

  lemma SamplesOne(rows: seq<Row>, c: Collected, row: Row)
    requires SamplesKnown(rows, c)
    ensures SamplesKnown(rows + [row], CollectRow(c, row))
  {
    forall cell, tag {
      SamplesSnoc(rows, row, cell, tag);
    }
    hide Samples, Clean;
  }

  lemma RefusedOne(rows: seq<Row>, c: Collected, row: Row)
    requires RefusedKnown(rows, c)
    ensures RefusedKnown(rows + [row], CollectRow(c, row))
  {
    forall cell, tag ensures Refused(rows + [row], cell, tag) <==> Refused(rows, cell, tag) || Refuses(row, cell, tag) {
      RefusedSnoc(rows, row, cell, tag);
    }
    hide Refused, Usable, Found;
  }

  lemma CollectsOne(rows: seq<Row>, c: Collected, row: Row)
    requires Collects(rows, c)
    ensures Collects(rows + [row], CollectRow(c, row))
  {
    CellsOne(rows, c, row);
    SamplesOne(rows, c, row);
    RefusedOne(rows, c, row);
  }

  method Collect(rows: seq<Row>) returns (c: Collected)
    ensures Collects(rows, c)
  {
    c := Collected([], map[], map[], {});
    for i := 0 to |rows|
      invariant Collects(rows[..i], c)
    {
      hide Collects, CollectRow;
      CollectsOne(rows[..i], c, rows[i]);
      assert rows[..i + 1] == rows[..i] + [rows[i]];
      c := CollectRow(c, rows[i]);
    }
    assert rows[..|rows|] == rows;
  }

  method ValidateCompleteness(rows: seq<Row>, repeat: int, carried: seq<Carried>) returns (gaps: seq<Gap>)
    ensures gaps == Gaps(rows, repeat, carried)
    ensures gaps == [] <==> Complete(rows, repeat, carried)
  {
    NoGapsIffComplete(rows, repeat, carried);
    var c := Collect(rows);
    var first := CarriedPart(carried, repeat);
    var second := CellPart(rows, c, repeat);
    hide Complete, AllCarriedGaps, AllCellGaps, CellsOf;
    gaps := first + second;
  }

  method CarriedPart(carried: seq<Carried>, repeat: int) returns (gaps: seq<Gap>)
    ensures gaps == AllCarriedGaps(carried, repeat)
  {
    gaps := [];
    for i := 0 to |carried|
      invariant gaps == AllCarriedGaps(carried[..i], repeat)
    {
      assert carried[..i + 1][..i] == carried[..i];
      var more := CarriedRecordGaps(carried[i], repeat);
      gaps := gaps + more;
    }
    assert carried[..|carried|] == carried;
  }

  method CellPart(rows: seq<Row>, c: Collected, repeat: int) returns (gaps: seq<Gap>)
    requires Collects(rows, c)
    ensures gaps == AllCellGaps(rows, CellsOf(rows), repeat)
  {
    assert c.order == CellsOf(rows);
    hide Collects, CellsOf, ListedIn, CellGaps;
    gaps := [];
    for k := 0 to |c.order|
      invariant gaps == AllCellGaps(rows, c.order[..k], repeat)
    {
      assert c.order[..k + 1][..k] == c.order[..k] && c.order[k] in c.order;
      var more := ListedGaps(rows, c, c.order[k], repeat);
      gaps := gaps + more;
    }
    assert c.order[..|c.order|] == c.order;
  }

  method CarriedRecordGaps(record: Carried, repeat: int) returns (gaps: seq<Gap>)
    ensures gaps == CarriedGaps(record.cell, record.candidates, repeat)
  {
    gaps := [];
    var all := record.candidates;
    for i := 0 to |all|
      invariant gaps == CarriedGaps(record.cell, all[..i], repeat)
    {
      assert all[..i + 1][..i] == all[..i];
      if all[i].tag != AUTOMATIC && all[i].n < repeat {
        gaps := gaps + [CarriedThin(record.cell, all[i].tag, all[i].n)];
      }
    }
    assert all[..|all|] == all;
  }

  method ListedGaps(rows: seq<Row>, c: Collected, cell: string, repeat: int) returns (gaps: seq<Gap>)
    requires Collects(rows, c) && cell in CellsOf(rows)
    ensures gaps == CellGaps(rows, cell, ListedIn(rows, cell), repeat)
  {
    EveryCellHasARow(rows, cell);
    assert Known(c.cells, cell) == LastRow(rows, cell);
    var listed := c.cells[cell].listed;
    assert listed == ListedIn(rows, cell);
    hide Samples, Refused, LastRow, ListedIn, CellsOf;
    gaps := [];
    for i := 0 to |listed|
      invariant gaps == CellGaps(rows, cell, listed[..i], repeat)
    {
      assert listed[..i + 1][..i] == listed[..i];
      var tag := listed[i].tag;
      if tag != AUTOMATIC {
        if (cell, tag) in c.refused {
          gaps := gaps + [RefusedAdmission(cell, tag)];
        } else if |Found(c.samples, cell, tag)| < repeat {
          gaps := gaps + [Thin(cell, tag, |Found(c.samples, cell, tag)|)];
        }
      }
    }
    assert listed[..|listed|] == listed;
  }
}
