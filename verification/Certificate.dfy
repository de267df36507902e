/** The candidates that the evidence supports, in canonical order, and the certificate that records
    them and gives them back. */
module Certificate {
  import opened Names
  import opened Evidence
  import opened Wrappers

  // --------------------------------------------------------------- canonical order

  predicate KeyBefore(a: Candidate, b: Candidate) {
    Before(a.cell, b.cell) || (a.cell == b.cell && Before(a.tag, b.tag))
  }

  predicate SameKey(a: Candidate, b: Candidate) {
    a.cell == b.cell && a.tag == b.tag
  }

  lemma KeyOrder(a: Candidate, b: Candidate, c: Candidate)
    ensures KeyBefore(a, b) || KeyBefore(b, a) || SameKey(a, b)
    ensures KeyBefore(a, b) ==> !KeyBefore(b, a) && !SameKey(a, b)
    ensures KeyBefore(a, b) && KeyBefore(b, c) ==> KeyBefore(a, c)
  {
    BeforeIsTotal(a.cell, b.cell);
    BeforeIsTotal(a.tag, b.tag);
    if Before(a.cell, b.cell) && Before(b.cell, c.cell) {
      BeforeIsTransitive(a.cell, b.cell, c.cell);
    }
    if Before(a.tag, b.tag) && Before(b.tag, c.tag) {
      BeforeIsTransitive(a.tag, b.tag, c.tag);
    }
    hide Before;
  }

  function InsertCandidate(x: Candidate, s: seq<Candidate>): (r: seq<Candidate>)
    ensures forall c :: c in r <==> c == x || c in s
  {
    if s == [] || !KeyBefore(s[0], x) then [x] + s else [s[0]] + InsertCandidate(x, s[1..])
  }

  /** Stable, by cell and then by tag. */
  function Sort(s: seq<Candidate>): (r: seq<Candidate>)
    ensures forall c :: c in r <==> c in s
  {
    if s == [] then [] else InsertCandidate(s[0], Sort(s[1..]))
  }

  ghost predicate DistinctKeys(s: seq<Candidate>) {
    forall i, k :: 0 <= i < k < |s| ==> !SameKey(s[i], s[k])
  }

  ghost predicate Strict(s: seq<Candidate>) {
    forall i, k :: 0 <= i < k < |s| ==> KeyBefore(s[i], s[k])
  }

  lemma {:induction false} InsertIsStrict(x: Candidate, s: seq<Candidate>)
    requires Strict(s) && forall c <- s :: !SameKey(x, c)
    ensures Strict(InsertCandidate(x, s))
  {
    if s != [] {
      KeyOrder(x, s[0], x);
      if KeyBefore(s[0], x) {
        InsertIsStrict(x, s[1..]);
        forall c | c in InsertCandidate(x, s[1..]) ensures KeyBefore(s[0], c) {
        }
      } else {
        forall c | c in s ensures KeyBefore(x, c) {
          KeyOrder(x, s[0], c);
        }
      }
      hide KeyBefore, SameKey;
    }
  }

  /** With one candidate a key, sorting orders them strictly. */
  lemma {:induction false} SortIsStrict(s: seq<Candidate>)
    requires DistinctKeys(s)
    ensures Strict(Sort(s))
  {
    if s != [] {
      SortIsStrict(s[1..]);
      InsertIsStrict(s[0], Sort(s[1..]));
    }
  }

  /** A strict order leaves no freedom. */
  lemma {:induction false} StrictIsUnique(a: seq<Candidate>, b: seq<Candidate>)
    requires Strict(a) && Strict(b) && forall c :: c in a <==> c in b
    ensures a == b
  {
    if b != [] {
      assert b[0] in a;
    }
    if a != [] {
      assert a[0] in b;
      StrictHeads(a, b);
      forall c ensures c in a[1..] <==> c in b[1..] {
        StrictTail(a, c);
        StrictTail(b, c);
      }
      StrictIsUnique(a[1..], b[1..]);
    }
  }

  lemma StrictHeads(a: seq<Candidate>, b: seq<Candidate>)
    requires Strict(a) && Strict(b) && a != [] && b != [] && forall c :: c in a <==> c in b
    ensures a[0] == b[0]
  {
    assert b[0] in a && a[0] in b;
    KeyOrder(a[0], b[0], a[0]);
    hide KeyBefore;
  }

  lemma StrictTail(a: seq<Candidate>, c: Candidate)
    requires Strict(a) && a != []
    ensures c in a[1..] <==> c in a && c != a[0]
  {
    KeyOrder(a[0], a[0], a[0]);
    hide KeyBefore;
  }

  // -------------------------------------------------------------------- loading

  function InsertReal(x: real, s: seq<real>): (r: seq<real>)
    ensures |r| == |s| + 1 && forall v :: v in r <==> v == x || v in s
  {
    if s == [] || x <= s[0] then [x] + s else [s[0]] + InsertReal(x, s[1..])
  }

  function SortReals(s: seq<real>): (r: seq<real>)
    ensures |r| == |s| && forall v :: v in r <==> v in s
  {
    if s == [] then [] else InsertReal(s[0], SortReals(s[1..]))
  }

  lemma {:induction false} InsertRealAdds(x: real, s: seq<real>)
    ensures multiset(InsertReal(x, s)) == multiset{x} + multiset(s)
  {
    if s != [] && x > s[0] {
      InsertRealAdds(x, s[1..]);
      assert s == [s[0]] + s[1..];
    }
  }

  /** Sorting keeps every value as often as it occurs. */
  lemma {:induction false} SortRealsPermutes(s: seq<real>)
    ensures multiset(SortReals(s)) == multiset(s)
  {
    if s != [] {
      SortRealsPermutes(s[1..]);
      InsertRealAdds(s[0], SortReals(s[1..]));
      assert s == [s[0]] + s[1..];
    }
  }

  /** The middle value, or the mean of the middle two. */
  function Median(values: seq<real>): real
    requires values != []
  {
    var s, n := SortReals(values), |values|;
    if n % 2 == 1 then s[n / 2] else (s[n / 2 - 1] + s[n / 2]) / 2.0
  }

  ghost predicate AllPositive(values: seq<real>) {
    forall v <- values :: v > 0.0
  }

  function Spread(values: seq<real>): real
    requires values != [] && AllPositive(values)
  {
    var s, n := SortReals(values), |values|;
    assert s[n / 2] in s && (n % 2 == 0 ==> s[n / 2 - 1] in s);
    (s[n - 1] - s[0]) / Median(values) * 100.0
  }

  ghost predicate Timed(rows: seq<Row>) {
    forall row <- rows :: Usable(row) ==> row.ms > 0.0
  }

  lemma {:induction false} SamplesArePositive(rows: seq<Row>, cell: string, tag: string)
    requires Timed(rows)
    ensures AllPositive(Samples(rows, cell, tag))
  {
    if rows != [] {
      SamplesArePositive(rows[..|rows| - 1], cell, tag);
    }
  }

  /** The candidate that is made of a listed one and its samples. */
  function Made(row: Row, l: Listed, values: seq<real>): Candidate
    requires row.CellRow? && values != [] && AllPositive(values)
  {
    Candidate(row.cell, l.tag, Project(l.features), row.facts, Median(values), |values|, Spread(values), row.model,
              row.facts.shape, l.plan, l.work)
  }

  /** A listed candidate is kept if it is not the production selection and has two samples. */
  function Kept(rows: seq<Row>, row: Row, l: Listed): seq<Candidate>
    requires row.CellRow? && Timed(rows)
  {
    var values := Samples(rows, row.cell, l.tag);
    if l.tag == AUTOMATIC || |values| < 2 then []
    else
      SamplesArePositive(rows, row.cell, l.tag);
      [Made(row, l, values)]
  }

  function KeptAll(rows: seq<Row>, row: Row, listed: seq<Listed>): seq<Candidate>
    requires row.CellRow? && Timed(rows)
  {
    if listed == [] then []
    else KeptAll(rows, row, listed[..|listed| - 1]) + Kept(rows, row, listed[|listed| - 1])
  }

  function KeptIn(rows: seq<Row>, cells: seq<string>): seq<Candidate>
    requires Timed(rows)
  {
    if cells == [] then []
    else
      var last := LastRow(rows, cells[|cells| - 1]);
      KeptIn(rows, cells[..|cells| - 1]) + if last.Some? then KeptAll(rows, last.value, last.value.listed) else []
  }

  function Loaded(rows: seq<Row>): seq<Candidate>
    requires Timed(rows)
  {
    Sort(KeptIn(rows, CellsOf(rows)))
  }

  method LoadCandidates(rows: seq<Row>) returns (candidates: seq<Candidate>)
    requires Timed(rows)
    ensures candidates == Loaded(rows)
  {
    hide Collects, CellsOf, LastRow, Samples, Sort, KeptAll;
    var c := Collect(rows);
    CollectsOrder(rows, c);
    candidates := [];
    for k := 0 to |c.order|
      invariant candidates == KeptIn(rows, c.order[..k])
    {
      assert c.order[..k + 1][..k] == c.order[..k] && c.order[k] in c.order;
      EveryCellHasARow(rows, c.order[k]);
      var more := LoadCell(rows, c, c.order[k]);
      candidates := candidates + more;
    }
    assert c.order[..|c.order|] == c.order;
    candidates := Sort(candidates);
  }

  lemma CollectsOrder(rows: seq<Row>, c: Collected)
    requires Collects(rows, c)
    ensures c.order == CellsOf(rows)
  {
  }

  lemma CollectsCell(rows: seq<Row>, c: Collected, cell: string, tag: string)
    requires Collects(rows, c)
    ensures LastRow(rows, cell).Some? ==> cell in c.cells && c.cells[cell] == LastRow(rows, cell).value
    ensures Found(c.samples, cell, tag) == Samples(rows, cell, tag)
  {
    assert Known(c.cells, cell) == LastRow(rows, cell);
  }

  method LoadCell(rows: seq<Row>, c: Collected, cell: string) returns (candidates: seq<Candidate>)
    requires Timed(rows) && Collects(rows, c) && LastRow(rows, cell).Some?
    ensures candidates == KeptAll(rows, LastRow(rows, cell).value, LastRow(rows, cell).value.listed)
  {
    hide Collects, LastRow, Samples, Found;
    CollectsCell(rows, c, cell, "");
    var row := c.cells[cell];
    candidates := [];
    for i := 0 to |row.listed|
      invariant candidates == KeptAll(rows, row, row.listed[..i])
    {
      assert row.listed[..i + 1][..i] == row.listed[..i];
      var l := row.listed[i];
      CollectsCell(rows, c, cell, l.tag);
      var values := Found(c.samples, cell, l.tag);
      if l.tag != AUTOMATIC && |values| >= 2 {
        SamplesArePositive(rows, cell, l.tag);
        candidates := candidates + [Made(row, l, values)];
      }
    }
    assert row.listed[..|row.listed|] == row.listed;
  }

  ghost predicate Ascend(s: seq<real>) {
    forall i, k :: 0 <= i <= k < |s| ==> s[i] <= s[k]
  }

  lemma AscendsFrom(x: real, s: seq<real>)
    requires Ascend(s) && forall v <- s :: x <= v
    ensures Ascend([x] + s)
  {
    var all := [x] + s;
    forall i, k | 0 <= i <= k < |all| ensures all[i] <= all[k] {
      assert i > 0 ==> all[i] == s[i - 1] && all[k] == s[k - 1];
      assert k > 0 ==> all[k] == s[k - 1] && s[k - 1] in s;
    }
  }

  lemma RestAscends(s: seq<real>)
    requires Ascend(s) && s != []
    ensures Ascend(s[1..]) && forall v <- s :: s[0] <= v
  {
  }

  lemma {:induction false} InsertRealAscends(x: real, s: seq<real>)
    requires Ascend(s)
    ensures Ascend(InsertReal(x, s))
  {
    if s == [] || x <= s[0] {
      assert forall v <- s :: x <= v;
      AscendsFrom(x, s);
    } else {
      RestAscends(s);
      hide Ascend;
      InsertRealAscends(x, s[1..]);
      AscendsFrom(s[0], InsertReal(x, s[1..]));
    }
  }

  lemma {:induction false} SortRealsAscends(s: seq<real>)
    ensures Ascend(SortReals(s))
  {
    if s != [] {
      SortRealsAscends(s[1..]);
      InsertRealAscends(s[0], SortReals(s[1..]));
    }
  }

  /** The spread is the range of the samples, in percent of their median. */
  lemma SpreadIsRange(values: seq<real>) returns (least: real, most: real)
    requires values != [] && AllPositive(values)
    ensures least in values && most in values && forall v <- values :: least <= v <= most
    ensures least <= Median(values) <= most && Spread(values) == (most - least) / Median(values) * 100.0
  {
    var s := SortReals(values);
    SortRealsAscends(values);
    least, most := s[0], s[|s| - 1];
    forall v | v in values ensures least <= v <= most {
      assert v in s;
    }
    assert least in s && most in s;
  }

  // --------------------------------------------------------------- what is kept

  lemma {:induction false} KeptAllMembers(rows: seq<Row>, row: Row, listed: seq<Listed>, c: Candidate)
    requires row.CellRow? && Timed(rows)
    ensures c in KeptAll(rows, row, listed) <==> exists l <- listed :: c in Kept(rows, row, l)
  {
    if listed != [] {
      var l := listed[|listed| - 1];
      KeptAllMembers(rows, row, listed[..|listed| - 1], c);
      hide Kept;
      assert listed == listed[..|listed| - 1] + [l];
    }
  }

  /** The last row of this cell lists something of which this candidate is made. */
  ghost predicate KeptHere(rows: seq<Row>, cell: string, c: Candidate)
    requires Timed(rows)
  {
    var last := LastRow(rows, cell);
    last.Some? && exists l <- last.value.listed :: c in Kept(rows, last.value, l)
  }

  lemma KeptHereIff(rows: seq<Row>, cell: string, c: Candidate)
    requires Timed(rows)
    ensures var last := LastRow(rows, cell);
      KeptHere(rows, cell, c) <==> (last.Some? && c in KeptAll(rows, last.value, last.value.listed))
  {
    var last := LastRow(rows, cell);
    if last.Some? {
      KeptAllMembers(rows, last.value, last.value.listed, c);
    }
  }

  lemma {:induction false} KeptInMembers(rows: seq<Row>, cells: seq<string>, c: Candidate)
    requires Timed(rows)
    ensures c in KeptIn(rows, cells) <==> exists cell <- cells :: KeptHere(rows, cell, c)
  {
    hide KeptHere, KeptAll, LastRow, Timed;
    if cells != [] {
      var cell := cells[|cells| - 1];
      KeptInMembers(rows, cells[..|cells| - 1], c);
      KeptHereIff(rows, cell, c);
      assert cells == cells[..|cells| - 1] + [cell];
    }
  }

  /** Exactly the listed candidates with two usable samples are loaded. */
  lemma LoadedIff(rows: seq<Row>, c: Candidate)
    requires Timed(rows)
    ensures c in Loaded(rows) <==> exists cell <- CellsOf(rows) :: KeptHere(rows, cell, c)
  {
    KeptInMembers(rows, CellsOf(rows), c);
  }

  /** Of the samples in order the middle one, or the mean of the middle two; and their range in percent of that. */
  ghost predicate IsSummary(values: seq<real>, ms: real, spread: real) {
    exists s: seq<real> :: SummaryIn(s, values, ms, spread)
  }

  ghost predicate SummaryIn(s: seq<real>, values: seq<real>, ms: real, spread: real) {
    && Ascend(s) && multiset(s) == multiset(values) && |s| == |values| > 0
    && ms + ms == s[(|s| - 1) / 2] + s[|s| / 2] && spread * ms == (s[|s| - 1] - s[0]) * 100.0
  }

  lemma MiddleIs(values: seq<real>)
    requires values != []
    ensures var s := SortReals(values);
      Median(values) + Median(values) == s[(|s| - 1) / 2] + s[|s| / 2]
  {
    hide SortReals;
  }

  lemma SpreadOf(values: seq<real>)
    requires values != [] && AllPositive(values)
    ensures Median(values) > 0.0
    ensures var s := SortReals(values); Spread(values) == (s[|s| - 1] - s[0]) / Median(values) * 100.0
  {
    var s := SortReals(values);
    assert s[|s| / 2] in s && s[(|s| - 1) / 2] in s;
    MiddleIs(values);
    hide SortReals;
  }

  lemma RangeIs(values: seq<real>)
    requires values != [] && AllPositive(values)
    ensures var s := SortReals(values);
      Median(values) > 0.0 && Spread(values) * Median(values) == (s[|s| - 1] - s[0]) * 100.0
  {
    SpreadOf(values);
    var s := SortReals(values);
    hide *;
    PercentOf(s[|s| - 1] - s[0], Median(values), Spread(values));
  }

  lemma SummaryIs(values: seq<real>)
    requires values != [] && AllPositive(values)
    ensures IsSummary(values, Median(values), Spread(values))
  {
    MiddleIs(values);
    RangeIs(values);
    SortRealsAscends(values);
    SortRealsPermutes(values);
    hide SortReals, Median, Spread, Ascend;
    assert SummaryIn(SortReals(values), values, Median(values), Spread(values));
  }

  lemma PercentOf(range: real, ms: real, spread: real)
    requires ms > 0.0 && spread == range / ms * 100.0
    ensures spread * ms == range * 100.0
  {
    var q := range / ms;
    assert q * 100.0 * ms == (q * ms) * 100.0;
  }

  /** The candidate is the listed one, with what its samples in the evidence say. */
  ghost predicate IsMade(rows: seq<Row>, row: Row, l: Listed, c: Candidate)
    requires row.CellRow?
  {
    && l.tag != "automatic" && c.cell == row.cell && c.tag == l.tag && c.plan == l.plan && c.work == l.work
    && c.facts == row.facts && c.shape == row.facts.shape && c.model == row.model
    && (forall k :: k in c.features <==>
          k in l.features && k in {"packed_tokens", "segment_count", "max_depth", "segments_below"})
    && (forall k :: k in c.features ==> c.features[k] == l.features[k])
    && c.n == HowMany(rows, row.cell, l.tag) && c.n >= 2
    && exists values: seq<real> ::
         && |values| == c.n && (forall ms :: multiset(values)[ms] == HowOften(rows, row.cell, l.tag, ms))
         && IsSummary(values, c.ms, c.spread)
  }

  lemma KeptIsMade(rows: seq<Row>, row: Row, l: Listed)
    requires row.CellRow? && Timed(rows)
    ensures if l.tag == "automatic" || HowMany(rows, row.cell, l.tag) < 2 then Kept(rows, row, l) == []
            else |Kept(rows, row, l)| == 1 && IsMade(rows, row, l, Kept(rows, row, l)[0])
  {
    var values := Samples(rows, row.cell, l.tag);
    SamplesAre(rows, row.cell, l.tag);
    if |values| >= 2 {
      SamplesArePositive(rows, row.cell, l.tag);
      SummaryIs(values);
    }
    hide Samples, HowMany, HowOften, IsSummary, Median, Spread;
  }

  lemma KeptHereIsMade(rows: seq<Row>, cell: string, c: Candidate) returns (l: Listed)
    requires Timed(rows) && KeptHere(rows, cell, c)
    ensures var row := LastRow(rows, cell).value; l in row.listed && IsMade(rows, row, l, c)
  {
    var row := LastRow(rows, cell).value;
    hide LastRow, Kept, IsMade;
    l :| l in row.listed && c in Kept(rows, row, l);
    KeptIsMade(rows, row, l);
  }

  /** Every candidate that is loaded is made of something that the last row of its cell lists; */
  lemma LoadedIsMade(rows: seq<Row>, c: Candidate) returns (i: nat, l: Listed)
    requires Timed(rows) && c in Loaded(rows)
    ensures IsLast(rows, i) && l in rows[i].listed && IsMade(rows, rows[i], l, c)
  {
    LoadedIff(rows, c);
    hide Loaded, LastRow, IsMade, CellsOf, Timed;
    var cell :| cell in CellsOf(rows) && KeptHere(rows, cell, c);
    LastRowIs(rows, cell);
    assert LastRow(rows, cell).Some?;
    i :| IsLast(rows, i) && rows[i] == LastRow(rows, cell).value;
    l := KeptHereIsMade(rows, cell, c);
  }

  /** and of everything that is listed there, the production selection excepted, and has two samples one is. */
  lemma ListedIsLoaded(rows: seq<Row>, i: nat, l: Listed) returns (c: Candidate)
    requires Timed(rows) && IsLast(rows, i) && l in rows[i].listed && l.tag != "automatic"
    requires HowMany(rows, rows[i].cell, l.tag) >= 2
    ensures c in Loaded(rows) && IsMade(rows, rows[i], l, c)
  {
    var row := rows[i];
    KeptIsMade(rows, row, l);
    c := Kept(rows, row, l)[0];
    LastRowIs(rows, row.cell);
    EveryCellHasARow(rows, row.cell);
    hide Kept, IsMade;
    assert KeptHere(rows, row.cell, c);
    LoadedIff(rows, c);
  }

  /** If nothing is missing and at least two samples are asked for, no listed candidate but the
      production selection is lost, and each has at least as many samples as were asked for. */
  lemma CompleteKeepsAll(rows: seq<Row>, repeat: nat, carried: seq<Carried>, cell: string, l: Listed)
    returns (c: Candidate)
    requires Timed(rows) && repeat >= 2 && Complete(rows, repeat, carried)
    requires cell in CellsOf(rows) && l in ListedIn(rows, cell) && l.tag != "automatic"
    ensures c in Loaded(rows) && c.cell == cell && c.tag == l.tag && c.n >= repeat
  {
    LastRowsAre(rows, repeat);
    assert CellComplete(rows, cell, repeat) && Measured(rows, cell, l.tag, repeat);
    SamplesAre(rows, cell, l.tag);
    hide HowMany, HowOften, LastIsComplete, IsRefusal;
    EveryCellHasARow(rows, cell);
    var row := LastRow(rows, cell).value;
    SamplesArePositive(rows, cell, l.tag);
    c := Made(row, l, Samples(rows, cell, l.tag));
    assert Kept(rows, row, l) == [c];
    assert KeptHere(rows, cell, c);
    LoadedIff(rows, c);
  }

  // ------------------------------------------------------------- the certificate

  datatype Origin = Origin(model: string, shape: seq<int>)

  datatype Entry = Entry(tag: string, features: Features, ms: real, n: nat, spread: real,
                         plan: Option<map<string, real>>,
                         work: Option<int>)

  datatype CertifiedCell = CertifiedCell(cell: string, facts: Facts, origin: Option<Origin>, entries: seq<Entry>)

  datatype Certificate = Certificate(schema: string, cells: seq<CertifiedCell>)

  datatype Result<T> = Success(value: T) | UnknownSchema

  const SCHEMA: string := "art.dev.trainer_rank_cost_calibration_certificate.v1"

  function Field(key: string, n: nat): string
    decreases n, |key|
  {
    if key == "" then ""
    else if key[0] == '|' then (if n == 0 then "" else Field(key[1..], n - 1))
    else if n == 0 then [key[0]] + Field(key[1..], 0)
    else Field(key[1..], n)
  }

  ghost function Joined(parts: seq<string>): string {
    if parts == [] then "" else if |parts| == 1 then parts[0] else parts[0] + "|" + Joined(parts[1..])
  }

  /** A key of fields joined by bars gives back its fields. */
  lemma {:induction false} FieldIs(parts: seq<string>, n: nat)
    requires n < |parts| && forall part <- parts :: '|' !in part
    ensures Field(Joined(parts), n) == parts[n]
  {
    if |parts| == 1 {
      FieldStops(parts[0]);
    } else {
      FieldSkips(parts[0], Joined(parts[1..]), n);
      if n > 0 {
        FieldIs(parts[1..], n - 1);
      }
    }
  }

  lemma {:induction false} FieldStops(part: string)
    requires '|' !in part
    ensures Field(part, 0) == part
  {
    if part != "" {
      FieldStops(part[1..]);
    }
  }

  lemma {:induction false} FieldSkips(part: string, rest: string, n: nat)
    requires '|' !in part
    ensures Field(part + "|" + rest, n) == if n == 0 then part else Field(rest, n - 1)
  {
    var key := part + "|" + rest;
    if part == "" {
      assert key[1..] == rest;
    } else {
      assert key[1..] == part[1..] + "|" + rest;
      FieldSkips(part[1..], rest, n);
    }
  }

  function CellNames(s: seq<Candidate>): (names: seq<string>)
    ensures forall n :: n in names <==> exists c <- s :: c.cell == n
  {
    if s == [] then []
    else
      var rest := CellNames(s[1..]);
      assert s == [s[0]] + s[1..];
      [s[0].cell] + rest
  }

  function Members(s: seq<Candidate>, cell: string): (members: seq<Candidate>)
    ensures forall c :: c in members <==> c in s && c.cell == cell
  {
    if s == [] then []
    else
      assert s == [s[0]] + s[1..];
      (if s[0].cell == cell then [s[0]] else []) + Members(s[1..], cell)
  }

  function EntryOf(c: Candidate): Entry {
    Entry(c.tag, c.features, c.ms, c.n, c.spread, c.plan, c.work)
  }

  function Entries(s: seq<Candidate>): (entries: seq<Entry>)
    ensures |entries| == |s| && forall i :: 0 <= i < |s| ==> entries[i] == EntryOf(s[i])
  {
    if s == [] then [] else [EntryOf(s[0])] + Entries(s[1..])
  }

  function OriginOf(origins: map<string, Origin>, cell: string): Option<Origin> {
    if cell in origins then Some(origins[cell]) else None
  }

  function ExportCell(s: seq<Candidate>, origins: map<string, Origin>, cell: string): CertifiedCell
    requires Members(s, cell) != []
  {
    var members := Members(s, cell);
    CertifiedCell(cell, members[0].facts, OriginOf(origins, cell), Entries(Sort(members)))
  }

  function ExportCells(s: seq<Candidate>, origins: map<string, Origin>, cells: seq<string>): seq<CertifiedCell>
    requires forall cell <- cells :: Members(s, cell) != []
  {
    if cells == [] then []
    else [ExportCell(s, origins, cells[0])] + ExportCells(s, origins, cells[1..])
  }

  lemma NamedHaveMembers(s: seq<Candidate>)
    ensures forall cell <- Names.Sorted(CellNames(s)) :: Members(s, cell) != []
  {
    forall cell | cell in CellNames(s) ensures Members(s, cell) != [] {
      var c :| c in s && c.cell == cell;
      assert c in Members(s, cell);
    }
  }

  function Export(s: seq<Candidate>, origins: map<string, Origin>): Certificate {
    NamedHaveMembers(s);
    Certificate(SCHEMA, ExportCells(s, origins, Names.Sorted(CellNames(s))))
  }

  /** An absent or empty model is read off the cell key, an absent or empty shape off the facts. */
  function Restored(cell: CertifiedCell, e: Entry): Candidate {
    var origin := cell.origin;
    Candidate(cell.cell, e.tag, Project(e.features), cell.facts, e.ms, e.n, e.spread,
              if origin.Some? && origin.value.model != "" then origin.value.model else Field(cell.cell, 1),
              if origin.Some? && origin.value.shape != [] then origin.value.shape else cell.facts.shape,
              e.plan, e.work)
  }

  function RestoredAll(cell: CertifiedCell, entries: seq<Entry>): (s: seq<Candidate>)
    ensures |s| == |entries| && forall i :: 0 <= i < |s| ==> s[i] == Restored(cell, entries[i])
  {
    if entries == [] then [] else [Restored(cell, entries[0])] + RestoredAll(cell, entries[1..])
  }

  function Flattened(cells: seq<CertifiedCell>): seq<Candidate> {
    if cells == [] then [] else RestoredAll(cells[0], cells[0].entries) + Flattened(cells[1..])
  }

  function Load(certificate: Certificate): (r: Result<seq<Candidate>>)
    ensures r.UnknownSchema? <==> certificate.schema != "art.dev.trainer_rank_cost_calibration_certificate.v1"
  {
    if certificate.schema != SCHEMA then UnknownSchema else Success(Sort(Flattened(certificate.cells)))
  }

  // ----------------------------------------------------------------- round trip

  /** What a candidate comes back as. */
  function Back(s: seq<Candidate>, origins: map<string, Origin>, c: Candidate): (x: Candidate)
    requires c in s
    ensures SameKey(x, c)
  {
    assert c in Members(s, c.cell);
    Restored(ExportCell(s, origins, c.cell), EntryOf(c))
  }

  ghost predicate ComesFrom(s: seq<Candidate>, origins: map<string, Origin>, cell: string, x: Candidate) {
    exists c <- s :: c.cell == cell && x == Back(s, origins, c)
  }

  lemma RestoredAt(s: seq<Candidate>, origins: map<string, Origin>, cell: string, i: nat)
    requires Members(s, cell) != [] && i < |Sort(Members(s, cell))|
    ensures var out, c := ExportCell(s, origins, cell), Sort(Members(s, cell))[i];
      && |RestoredAll(out, out.entries)| == |Sort(Members(s, cell))|
      && c in s && c.cell == cell && RestoredAll(out, out.entries)[i] == Back(s, origins, c)
  {
    hide Restored, Sort;
    var sorted := Sort(Members(s, cell));
    assert sorted[i] in sorted;
  }

  lemma RestoredMembers(s: seq<Candidate>, origins: map<string, Origin>, cell: string, x: Candidate)
    requires Members(s, cell) != []
    ensures var out := ExportCell(s, origins, cell);
      x in RestoredAll(out, out.entries) <==> ComesFrom(s, origins, cell, x)
  {
    hide Restored, Back, Sort, Members, ExportCell;
    var out, sorted := ExportCell(s, origins, cell), Sort(Members(s, cell));
    var all := RestoredAll(out, out.entries);
    assert sorted != [] by {
      assert Members(s, cell)[0] in sorted;
    }
    RestoredAt(s, origins, cell, 0);
    forall i: nat | i < |sorted|
      ensures sorted[i] in s && sorted[i].cell == cell && all[i] == Back(s, origins, sorted[i])
    {
      RestoredAt(s, origins, cell, i);
    }
    if ComesFrom(s, origins, cell, x) {
      var c :| c in s && c.cell == cell && x == Back(s, origins, c);
      assert c in sorted;
      var i :| 0 <= i < |sorted| && sorted[i] == c;
      assert all[i] == x;
    }
  }

  lemma FlattenStep(s: seq<Candidate>, origins: map<string, Origin>, cells: seq<string>)
    requires cells != [] && forall cell <- cells :: Members(s, cell) != []
    ensures Members(s, cells[0]) != [] && forall cell <- cells[1..] :: Members(s, cell) != []
    ensures var out := ExportCell(s, origins, cells[0]);
      Flattened(ExportCells(s, origins, cells)) ==
      RestoredAll(out, out.entries) + Flattened(ExportCells(s, origins, cells[1..]))
  {
    hide ExportCell, RestoredAll, Members;
  }

  lemma {:induction false} FlattenedMembers(s: seq<Candidate>, origins: map<string, Origin>, cells: seq<string>,
                                            x: Candidate)
    requires forall cell <- cells :: Members(s, cell) != []
    ensures x in Flattened(ExportCells(s, origins, cells)) <==> exists cell <- cells :: ComesFrom(s, origins, cell, x)
  {
    if cells != [] {
      hide *;
      FlattenStep(s, origins, cells);
      RestoredMembers(s, origins, cells[0], x);
      FlattenedMembers(s, origins, cells[1..], x);
      assert cells == [cells[0]] + cells[1..];
    }
  }

  lemma {:induction false} MembersAreDistinct(s: seq<Candidate>, cell: string)
    requires DistinctKeys(s)
    ensures DistinctKeys(Members(s, cell))
  {
    if s != [] {
      MembersAreDistinct(s[1..], cell);
      hide SameKey;
      forall c | c in Members(s[1..], cell) ensures !SameKey(s[0], c) {
        var k :| 0 <= k < |s[1..]| && s[1..][k] == c;
        assert s[k + 1] == c;
      }
    }
  }

  lemma RestoredIsStrict(s: seq<Candidate>, origins: map<string, Origin>, cell: string)
    requires DistinctKeys(s) && Members(s, cell) != []
    ensures var out := ExportCell(s, origins, cell); Strict(RestoredAll(out, out.entries))
    ensures var out := ExportCell(s, origins, cell); forall x <- RestoredAll(out, out.entries) :: x.cell == cell
  {
    var out, sorted := ExportCell(s, origins, cell), Sort(Members(s, cell));
    var all := RestoredAll(out, out.entries);
    MembersAreDistinct(s, cell);
    SortIsStrict(Members(s, cell));
    forall i | 0 <= i < |sorted| ensures all[i].cell == sorted[i].cell == cell && all[i].tag == sorted[i].tag {
      assert sorted[i] in sorted;
    }
    hide Members, Sort;
    forall i, k | 0 <= i < k < |all| ensures KeyBefore(all[i], all[k]) {
      assert KeyBefore(sorted[i], sorted[k]);
    }
  }

  /** Strictly ordered lists of one cell and of later ones make a strictly ordered list. */
  lemma StrictJoin(a: seq<Candidate>, b: seq<Candidate>, cell: string, cells: seq<string>)
    requires Strict(a) && Strict(b) && (forall x <- a :: x.cell == cell) && (forall y <- b :: y.cell in cells)
    requires forall later <- cells :: Before(cell, later)
    ensures Strict(a + b) && forall x <- a + b :: x.cell in [cell] + cells
  {
    hide Before;
    var all := a + b;
    forall i, k | 0 <= i < k < |all| ensures KeyBefore(all[i], all[k]) {
      if i < |a| <= k {
        assert a[i] in a && b[k - |a|] in b;
      } else if k < |a| {
        assert KeyBefore(a[i], a[k]);
      } else {
        assert KeyBefore(b[i - |a|], b[k - |a|]);
      }
    }
  }

  lemma {:induction false} FlattenedIsStrict(s: seq<Candidate>, origins: map<string, Origin>, cells: seq<string>)
    requires DistinctKeys(s) && Ascending(cells) && forall cell <- cells :: Members(s, cell) != []
    ensures Strict(Flattened(ExportCells(s, origins, cells)))
    ensures forall x <- Flattened(ExportCells(s, origins, cells)) :: x.cell in cells
  {
    hide RestoredAll, ExportCell, Members, Before, DistinctKeys, KeyBefore;
    if cells != [] {
      RestoredIsStrict(s, origins, cells[0]);
      FlattenStep(s, origins, cells);
      hide Flattened, ExportCells, Strict;
      FlattenedIsStrict(s, origins, cells[1..]);
      var out := ExportCell(s, origins, cells[0]);
      StrictJoin(RestoredAll(out, out.entries), Flattened(ExportCells(s, origins, cells[1..])), cells[0], cells[1..]);
      assert cells == [cells[0]] + cells[1..];
    }
  }

  lemma {:induction false} StrictIsSorted(s: seq<Candidate>)
    requires Strict(s)
    ensures DistinctKeys(s) && Sort(s) == s
  {
    if s != [] {
      StrictIsSorted(s[1..]);
      if |s| > 1 {
        KeyOrder(s[0], s[1], s[0]);
      }
      forall i, k | 0 <= i < k < |s| ensures !SameKey(s[i], s[k]) {
        KeyOrder(s[i], s[k], s[i]);
      }
    }
  }

  ghost predicate IsBack(s: seq<Candidate>, origins: map<string, Origin>, x: Candidate) {
    exists c <- s :: x == Back(s, origins, c)
  }

  /** The certificate gives back exactly the candidates, each as it is restored, in order. */
  lemma LoadGivesBack(s: seq<Candidate>, origins: map<string, Origin>)
    requires DistinctKeys(s)
    ensures Load(Export(s, origins)).Success?
    ensures var back := Load(Export(s, origins)).value;
      Strict(back) && forall x :: x in back <==> IsBack(s, origins, x)
  {
    var cells := Names.Sorted(CellNames(s));
    NamedHaveMembers(s);
    Names.SortedAscends(CellNames(s));
    FlattenedIsStrict(s, origins, cells);
    var flat := Flattened(ExportCells(s, origins, cells));
    StrictIsSorted(flat);
    hide Back, Flattened, ExportCells, Strict, Sort;
    forall x ensures x in flat <==> IsBack(s, origins, x) {
      FlattenedMembers(s, origins, cells, x);
      if IsBack(s, origins, x) {
        var c :| c in s && x == Back(s, origins, c);
        assert c.cell in cells && ComesFrom(s, origins, c.cell, x);
      }
    }
  }

  lemma SameKeyIsSame(s: seq<Candidate>, a: Candidate, b: Candidate)
    requires DistinctKeys(s) && a in s && b in s && SameKey(a, b)
    ensures a == b
  {
    var i :| 0 <= i < |s| && s[i] == a;
    var k :| 0 <= k < |s| && s[k] == b;
    assert SameKey(b, a);
  }

  lemma RoundTripIfBack(s: seq<Candidate>, origins: map<string, Origin>)
    requires DistinctKeys(s)
    ensures Load(Export(s, origins)).Success?
    ensures Load(Export(s, origins)).value == Sort(s) <==> forall c <- s :: Back(s, origins, c) == c
  {
    hide Load, Export, Back, Sort, Strict, DistinctKeys, IsBack;
    LoadGivesBack(s, origins);
    SortIsStrict(s);
    var back := Load(Export(s, origins)).value;
    if forall c <- s :: Back(s, origins, c) == c {
      forall x ensures IsBack(s, origins, x) <==> x in s {
        BackIsSame(s, origins, x);
      }
      StrictIsUnique(back, Sort(s));
    }
    if back == Sort(s) {
      forall c | c in s ensures Back(s, origins, c) == c {
        BackIsBack(s, origins, c);
        SameKeyIsSame(s, Back(s, origins, c), c);
      }
    }
  }

  /** The model and the shape are those of the cell's origin; without an origin or with an empty one
      the model is the second field of the cell's key and the shape that of the facts. */
  predicate FromOrigin(origins: map<string, Origin>, c: Candidate) {
    var recorded := c.cell in origins;
    && c.model == (if recorded && origins[c.cell].model != "" then origins[c.cell].model else Field(c.cell, 1))
    && c.shape == (if recorded && origins[c.cell].shape != [] then origins[c.cell].shape else c.facts.shape)
  }

  /** What a certificate can record: no features but the current ones, one set of facts for each cell,
      and models and shapes as the origins tell. */
  ghost predicate Recordable(s: seq<Candidate>, origins: map<string, Origin>) {
    && (forall c <- s :: c.features.Keys <= FIELDS && FromOrigin(origins, c))
    && forall a, b | a in s && b in s && a.cell == b.cell :: a.facts == b.facts
  }

  /** Exporting and loading gives the canonically ordered list back exactly if all of it can be recorded. */
  lemma RoundTrip(s: seq<Candidate>, origins: map<string, Origin>)
    requires DistinctKeys(s)
    ensures Load(Export(s, origins)).Success?
    ensures Load(Export(s, origins)).value == Sort(s) <==> Recordable(s, origins)
  {
    RoundTripIfBack(s, origins);
    BackIsSameIff(s, origins);
    hide *;
  }

  lemma BackIsSameIff(s: seq<Candidate>, origins: map<string, Origin>)
    ensures (forall c <- s :: Back(s, origins, c) == c) <==> Recordable(s, origins)
  {
    hide Back, FromOrigin;
    forall c | c in s
      ensures FirstOf(s, c.cell) in s && FirstOf(s, c.cell).cell == c.cell
      ensures Back(s, origins, c) == c <==>
        c.features.Keys <= FIELDS && FromOrigin(origins, c) && c.facts == FirstOf(s, c.cell).facts
    {
      BackOfOne(s, origins, c);
    }
    hide FirstOf;
    if forall c <- s :: Back(s, origins, c) == c {
      forall a, b | a in s && b in s && a.cell == b.cell ensures a.facts == b.facts {
      }
    }
  }

  /** The first candidate of the cell. */
  function FirstOf(s: seq<Candidate>, cell: string): Candidate
    requires Members(s, cell) != []
  {
    Members(s, cell)[0]
  }

  lemma BackOfOne(s: seq<Candidate>, origins: map<string, Origin>, c: Candidate)
    requires c in s
    ensures Members(s, c.cell) != [] && FirstOf(s, c.cell) in s && FirstOf(s, c.cell).cell == c.cell
    ensures Back(s, origins, c) == c <==>
      c.features.Keys <= FIELDS && FromOrigin(origins, c) && c.facts == FirstOf(s, c.cell).facts
  {
    assert c in Members(s, c.cell) && FirstOf(s, c.cell) in Members(s, c.cell);
    ProjectIsSame(c.features);
    hide Project, Members, Field, Sort;
  }

  lemma ProjectIsSame(features: Features)
    ensures Project(features) == features <==> features.Keys <= FIELDS
  {
  }

  lemma BackIsBack(s: seq<Candidate>, origins: map<string, Origin>, c: Candidate)
    requires c in s
    ensures IsBack(s, origins, Back(s, origins, c))
  {
    hide Back;
  }

  lemma BackIsSame(s: seq<Candidate>, origins: map<string, Origin>, x: Candidate)
    requires forall c <- s :: Back(s, origins, c) == c
    ensures IsBack(s, origins, x) <==> x in s
  {
    hide Back;
  }

  // ---------------------------------------------------------- from evidence and back

  /** What the evidence records about the origin of each cell. */
  function Origins(rows: seq<Row>): map<string, Origin> {
    map cell | cell in CellsOf(rows) && LastRow(rows, cell).Some? ::
      Origin(LastRow(rows, cell).value.model, LastRow(rows, cell).value.facts.shape)
  }

  /** The last row of a cell lists each tag once. */
  ghost predicate OneTagEach(rows: seq<Row>, cell: string) {
    forall j, k | 0 <= j < k < |ListedIn(rows, cell)| :: ListedIn(rows, cell)[j].tag != ListedIn(rows, cell)[k].tag
  }

  /** A cell without a model has none in its key. */
  ghost predicate ModelInKey(rows: seq<Row>, cell: string) {
    var last := LastRow(rows, cell);
    last.Some? && last.value.model == "" ==> Field(cell, 1) == ""
  }

  ghost predicate WellRecorded(rows: seq<Row>) {
    forall cell <- CellsOf(rows) :: OneTagEach(rows, cell) && ModelInKey(rows, cell)
  }

  /** Every loaded candidate has the facts, the model and the shape of the last row of its cell. */
  ghost predicate FromLastRow(rows: seq<Row>, c: Candidate) {
    var last := LastRow(rows, c.cell);
    && last.Some? && c.cell in CellsOf(rows) && c.facts == last.value.facts && c.model == last.value.model
    && c.shape == c.facts.shape && c.features == Project(c.features)
  }

  lemma LoadedIsFromLastRow(rows: seq<Row>, c: Candidate)
    requires Timed(rows) && c in Loaded(rows)
    ensures FromLastRow(rows, c)
  {
    hide Median, Spread, Samples, Loaded, CellsOf, LastRow;
    LoadedIff(rows, c);
    var cell :| cell in CellsOf(rows) && KeptHere(rows, cell, c);
    var row := LastRow(rows, cell).value;
    var l :| l in row.listed && c in Kept(rows, row, l);
    assert c.features == Project(l.features);
    assert Project(c.features) == c.features;
  }

  lemma LoadedComesBack(rows: seq<Row>, c: Candidate)
    requires Timed(rows) && WellRecorded(rows) && c in Loaded(rows)
    ensures Back(Loaded(rows), Origins(rows), c) == c
  {
    var s := Loaded(rows);
    LoadedIsFromLastRow(rows, c);
    var members := Members(s, c.cell);
    assert c in members && members[0] in members;
    LoadedIsFromLastRow(rows, members[0]);
    assert ModelInKey(rows, c.cell);
    hide Loaded, LastRow, CellsOf, Members, Project, Sort;
  }

  lemma DistinctJoin(a: seq<Candidate>, b: seq<Candidate>)
    requires DistinctKeys(a) && DistinctKeys(b)
    requires forall x, y | x in a && y in b :: !SameKey(x, y)
    ensures DistinctKeys(a + b)
  {
    hide SameKey;
    var all := a + b;
    forall i, k | 0 <= i < k < |all| ensures !SameKey(all[i], all[k]) {
      if i < |a| <= k {
        assert a[i] in a && b[k - |a|] in b;
      } else if k < |a| {
        assert !SameKey(a[i], a[k]);
      } else {
        assert !SameKey(b[i - |a|], b[k - |a|]);
      }
    }
  }

  /** Candidates of one cell, with labels among these. */
  ghost predicate Labelled(s: seq<Candidate>, cell: string, listed: seq<Listed>) {
    forall c <- s :: c.cell == cell && exists l <- listed :: l.tag == c.tag
  }

  lemma KeptIsLabelled(rows: seq<Row>, row: Row, l: Listed)
    requires row.CellRow? && Timed(rows)
    ensures DistinctKeys(Kept(rows, row, l)) && Labelled(Kept(rows, row, l), row.cell, [l])
  {
    hide Median, Spread, Samples, Project;
    assert |Kept(rows, row, l)| <= 1 && l in [l];
  }

  lemma LabelledJoin(a: seq<Candidate>, b: seq<Candidate>, cell: string, before: seq<Listed>, l: Listed)
    requires Labelled(a, cell, before) && Labelled(b, cell, [l]) && forall x <- before :: x.tag != l.tag
    ensures Labelled(a + b, cell, before + [l]) && forall x, y | x in a && y in b :: !SameKey(x, y)
  {
    forall c | c in a + b ensures c.cell == cell && exists x <- before + [l] :: x.tag == c.tag {
      if c in a {
        var x :| x in before && x.tag == c.tag;
        assert x in before + [l];
      } else {
        assert l in before + [l];
      }
    }
  }

  /** In a part of the loaded list before sorting no two candidates have the same key. */
  lemma {:induction false} KeptAllIsDistinct(rows: seq<Row>, row: Row, listed: seq<Listed>)
    requires row.CellRow? && Timed(rows)
    requires forall j, k | 0 <= j < k < |listed| :: listed[j].tag != listed[k].tag
    ensures DistinctKeys(KeptAll(rows, row, listed)) && Labelled(KeptAll(rows, row, listed), row.cell, listed)
  {
    hide Kept, Timed, DistinctKeys;
    if listed == [] {
      NoneIsDistinct();
    } else {
      hide Labelled;
      var before, l := listed[..|listed| - 1], listed[|listed| - 1];
      KeptAllIsDistinct(rows, row, before);
      KeptIsLabelled(rows, row, l);
      LabelledJoin(KeptAll(rows, row, before), Kept(rows, row, l), row.cell, before, l);
      DistinctJoin(KeptAll(rows, row, before), Kept(rows, row, l));
      assert listed == before + [l];
    }
  }

  lemma NoneIsDistinct()
    ensures DistinctKeys([])
  {
  }

  ghost predicate InCells(s: seq<Candidate>, cells: seq<string>) {
    forall c <- s :: c.cell in cells
  }

  lemma InCellsJoin(a: seq<Candidate>, b: seq<Candidate>, before: seq<string>, cell: string, listed: seq<Listed>)
    requires InCells(a, before) && Labelled(b, cell, listed) && cell !in before
    ensures InCells(a + b, before + [cell]) && forall x, y | x in a && y in b :: !SameKey(x, y)
  {
  }

  lemma ListedOnce(rows: seq<Row>, cell: string)
    requires OneTagEach(rows, cell) && LastRow(rows, cell).Some? && Timed(rows)
    ensures var kept := KeptAll(rows, LastRow(rows, cell).value, LastRow(rows, cell).value.listed);
      DistinctKeys(kept) && Labelled(kept, cell, LastRow(rows, cell).value.listed)
  {
    assert ListedIn(rows, cell) == LastRow(rows, cell).value.listed;
    KeptAllIsDistinct(rows, LastRow(rows, cell).value, LastRow(rows, cell).value.listed);
    hide KeptAll, Labelled, DistinctKeys;
  }

  lemma {:induction false} KeptInIsDistinct(rows: seq<Row>, cells: seq<string>)
    requires Timed(rows) && forall cell <- cells :: OneTagEach(rows, cell)
    requires forall j, k | 0 <= j < k < |cells| :: cells[j] != cells[k]
    ensures DistinctKeys(KeptIn(rows, cells)) && InCells(KeptIn(rows, cells), cells)
  {
    hide KeptAll, LastRow, Timed, OneTagEach, DistinctKeys, Labelled;
    if cells == [] {
      NoneIsDistinct();
    } else {
      hide InCells;
      var before, cell := cells[..|cells| - 1], cells[|cells| - 1];
      assert cells == before + [cell];
      KeptInIsDistinct(rows, before);
      var last := LastRow(rows, cell);
      if last.Some? {
        ListedOnce(rows, cell);
        var kept := KeptAll(rows, last.value, last.value.listed);
        InCellsJoin(KeptIn(rows, before), kept, before, cell, last.value.listed);
        DistinctJoin(KeptIn(rows, before), kept);
      } else {
        InCellsMore(KeptIn(rows, before), before, cell);
      }
    }
  }

  lemma InCellsMore(s: seq<Candidate>, before: seq<string>, cell: string)
    requires InCells(s, before)
    ensures InCells(s, before + [cell]) && s + [] == s
  {
  }

  lemma {:induction false} StrictIsDistinct(s: seq<Candidate>)
    requires Strict(s)
    ensures DistinctKeys(s)
  {
    forall i, k | 0 <= i < k < |s| ensures !SameKey(s[i], s[k]) {
      KeyOrder(s[i], s[k], s[i]);
    }
  }

  /** The whole way round: load the evidence, export a certificate, load the certificate.  The
      same candidates come back in the same order. */
  lemma EvidenceRoundTrip(rows: seq<Row>)
    requires Timed(rows) && WellRecorded(rows)
    ensures Load(Export(Loaded(rows), Origins(rows))) == Success(Loaded(rows))
  {
    var kept, s := KeptIn(rows, CellsOf(rows)), Loaded(rows);
    CellsAreDistinct(rows);
    KeptInIsDistinct(rows, CellsOf(rows));
    SortIsStrict(kept);
    StrictIsDistinct(s);
    StrictIsSorted(s);
    forall c | c in s ensures Back(s, Origins(rows), c) == c {
      LoadedComesBack(rows, c);
    }
    RoundTripIfBack(s, Origins(rows));
  }
}
