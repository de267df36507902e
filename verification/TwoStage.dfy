/** Two-stage selection in one cell: the cheapest layouts by one score and the incumbent make the
    shortlist, and a second score picks from it. */
module TwoStage {
  import Selection
  import SelectionLaws
  import opened Names

  type Candidate = Selection.Candidate

  datatype Item = Item(score: real, member: Candidate)

  /** By score, then by tag. */
  predicate Cheaper(a: Item, b: Item) {
    a.score < b.score || (a.score == b.score && Before(a.member.tag, b.member.tag))
  }

  lemma CheaperIsOrder(a: Item, b: Item, c: Item)
    ensures !(Cheaper(a, b) && Cheaper(b, a))
    ensures !Cheaper(b, a) && !Cheaper(c, b) ==> !Cheaper(c, a)
  {
    BeforeIsTotal(a.member.tag, b.member.tag);
    BeforeIsTotal(b.member.tag, c.member.tag);
    if Before(c.member.tag, a.member.tag) && Before(a.member.tag, b.member.tag) {
      BeforeIsTransitive(c.member.tag, a.member.tag, b.member.tag);
    }
    if Before(b.member.tag, c.member.tag) && Before(c.member.tag, a.member.tag) {
      BeforeIsTransitive(b.member.tag, c.member.tag, a.member.tag);
    }
  }

  // ------------------------------------------------------------------- ranking

  /** The first item may come before the second: it scores less, or the same and its tag does not come after. */
  ghost predicate InRank(a: Item, b: Item) {
    a.score < b.score || (a.score == b.score && !Before(b.member.tag, a.member.tag))
  }

  ghost predicate Ranked(items: seq<Item>) {
    forall i, k | 0 <= i < k < |items| :: InRank(items[i], items[k])
  }

  /** Into its place, before those that are equal. */
  function InsertItem(x: Item, items: seq<Item>): seq<Item> {
    if items == [] || !Cheaper(items[0], x) then [x] + items else [items[0]] + InsertItem(x, items[1..])
  }

  /** Python's sort: stable, by score and then by tag. */
  function Sort(items: seq<Item>): seq<Item> {
    if items == [] then [] else InsertItem(items[0], Sort(items[1..]))
  }

  lemma {:induction false} InsertIsRanked(x: Item, items: seq<Item>)
    requires Ranked(items)
    ensures Ranked(InsertItem(x, items)) && multiset(InsertItem(x, items)) == multiset{x} + multiset(items)
  {
    if items != [] {
      assert items == [items[0]] + items[1..];
      if Cheaper(items[0], x) {
        var rest := InsertItem(x, items[1..]);
        InsertIsRanked(x, items[1..]);
        forall y | y in rest ensures InRank(items[0], y) {
          assert y in multiset(rest);
          CheaperIsOrder(items[0], x, y);
          assert y == x || y in items[1..];
        }
        hide Cheaper, InRank;
      } else {
        forall y | y in items ensures InRank(x, y) {
          CheaperIsOrder(x, items[0], y);
        }
        hide Cheaper, InRank;
      }
    }
  }

  lemma {:induction false} SortIsRanked(items: seq<Item>)
    ensures Ranked(Sort(items)) && multiset(Sort(items)) == multiset(items)
  {
    if items != [] {
      SortIsRanked(items[1..]);
      InsertIsRanked(items[0], Sort(items[1..]));
      assert items == [items[0]] + items[1..];
    }
  }

  // ----------------------------------------------------------------- shortlist

  function Items(members: seq<Candidate>, score: Candidate -> real): (items: seq<Item>)
    ensures |items| == |members|
  {
    seq(|members|, i requires 0 <= i < |members| => Item(score(members[i]), members[i]))
  }

  function Unscored(items: seq<Item>): (members: seq<Candidate>)
    ensures |members| == |items|
  {
    seq(|items|, i requires 0 <= i < |items| => items[i].member)
  }

  function InCheapOrder(members: seq<Candidate>, score: Candidate -> real): seq<Candidate> {
    Unscored(Sort(Items(members, score)))
  }

  function Cut(n: nat, size: int): (k: nat)
    ensures k <= n && (n > 0 ==> k > 0)
  {
    var wanted := if size >= 1 then size else 1;
    if wanted <= n then wanted else n
  }

  function Incumbents(ranked: seq<Candidate>, shortlist: seq<Candidate>, incumbent: string): seq<Candidate> {
    if ranked == [] then []
    else (if ranked[0].tag == incumbent && ranked[0] !in shortlist then [ranked[0]] else [])
         + Incumbents(ranked[1..], shortlist, incumbent)
  }

  /** The cheapest layouts, at least one, and the incumbent if it is not among them. */
  function Shortlist(members: seq<Candidate>, score: Candidate -> real, size: int, incumbent: string): seq<Candidate> {
    var ranked := InCheapOrder(members, score);
    var cheapest := ranked[..Cut(|ranked|, size)];
    cheapest + Incumbents(ranked, cheapest, incumbent)
  }

  lemma {:induction false} IncumbentsAre(ranked: seq<Candidate>, shortlist: seq<Candidate>, incumbent: string,
                                         m: Candidate)
    ensures m in Incumbents(ranked, shortlist, incumbent) <==> m in ranked && m.tag == incumbent && m !in shortlist
  {
    if ranked != [] {
      IncumbentsAre(ranked[1..], shortlist, incumbent, m);
      assert ranked == [ranked[0]] + ranked[1..];
    }
  }

  /** Sorting by cost loses and repeats no layout. */
  lemma CheapOrderIsPermutation(members: seq<Candidate>, score: Candidate -> real)
    ensures |InCheapOrder(members, score)| == |members|
    ensures forall m :: m in InCheapOrder(members, score) <==> m in members
  {
    var items := Items(members, score);
    var sorted := Sort(items);
    SortIsRanked(items);
    hide Sort, Ranked;
    assert |multiset(sorted)| == |sorted| && |multiset(items)| == |items|;
    forall m ensures m in Unscored(sorted) <==> m in members {
      if m in members {
        var i :| 0 <= i < |members| && members[i] == m;
        assert items[i] in multiset(sorted);
        var k :| 0 <= k < |sorted| && sorted[k] == items[i];
        assert Unscored(sorted)[k] == m;
      }
      if m in Unscored(sorted) {
        var k :| 0 <= k < |sorted| && sorted[k].member == m;
        assert sorted[k] in multiset(items);
        var i :| 0 <= i < |items| && items[i] == sorted[k];
        assert members[i] == m;
      }
    }
  }

  /** In cheap order no layout comes after one that is cheaper. */
  lemma CheapOrderIsRanked(members: seq<Candidate>, score: Candidate -> real, i: nat, k: nat)
    requires i < k < |InCheapOrder(members, score)|
    ensures var ranked := InCheapOrder(members, score);
      InRank(Item(score(ranked[i]), ranked[i]), Item(score(ranked[k]), ranked[k]))
  {
    var items := Items(members, score);
    var sorted := Sort(items);
    SortIsRanked(items);
    assert forall x: Item | x in multiset(items) :: x.score == score(x.member);
    assert sorted[i] in multiset(sorted) && sorted[k] in multiset(sorted);
  }

  /** What the shortlist holds: members only, at least one if there is any, every incumbent, and a
      member is left out only if it is not the incumbent and no shortlisted member but an
      incumbent is costlier. */
  lemma ShortlistHolds(members: seq<Candidate>, score: Candidate -> real, size: int, incumbent: string)
    ensures var shortlist := Shortlist(members, score, size, incumbent);
      && (forall m <- shortlist :: m in members)
      && (members != [] ==> shortlist != [] && shortlist[0] == InCheapOrder(members, score)[0])
      && (forall m <- members | m.tag == incumbent :: m in shortlist)
      && (size >= |members| ==> forall m <- members :: m in shortlist)
      && (forall out <- members, m <- shortlist | out !in shortlist && m.tag != incumbent ::
            InRank(Item(score(m), m), Item(score(out), out)))
  {
    var ranked := InCheapOrder(members, score);
    var cut := Cut(|ranked|, size);
    var shortlist := Shortlist(members, score, size, incumbent);
    CheapOrderIsPermutation(members, score);
    forall m
      ensures m in Incumbents(ranked, ranked[..cut], incumbent) <==>
        m in ranked && m.tag == incumbent && m !in ranked[..cut]
    {
      IncumbentsAre(ranked, ranked[..cut], incumbent, m);
    }
    forall out, m | out in members && m in shortlist && out !in shortlist && m.tag != incumbent
      ensures InRank(Item(score(m), m), Item(score(out), out))
    {
      var i :| 0 <= i < cut && ranked[i] == m;
      var k :| 0 <= k < |ranked| && ranked[k] == out;
      CheapOrderIsRanked(members, score, i, k);
    }
  }

  /** A larger shortlist drops nothing. */
  lemma ShortlistGrows(members: seq<Candidate>, score: Candidate -> real, size: int, larger: int, incumbent: string,
                       m: Candidate)
    requires size <= larger && m in Shortlist(members, score, size, incumbent)
    ensures m in Shortlist(members, score, larger, incumbent)
  {
    var ranked := InCheapOrder(members, score);
    IncumbentsAre(ranked, ranked[..Cut(|ranked|, size)], incumbent, m);
    IncumbentsAre(ranked, ranked[..Cut(|ranked|, larger)], incumbent, m);
    assert ranked[..Cut(|ranked|, size)] <= ranked[..Cut(|ranked|, larger)];
  }

  // ----------------------------------------------------------------- selection

  /** The scores by tag; of several layouts with one tag the last counts. */
  function Table(shortlist: seq<Candidate>, rerank: Candidate -> real): (table: map<string, real>)
    ensures forall m <- shortlist :: m.tag in table
  {
    if shortlist == [] then map[]
    else
      var last := shortlist[|shortlist| - 1];
      Table(shortlist[..|shortlist| - 1], rerank)[last.tag := rerank(last)]
  }

  function Keys(shortlist: seq<Candidate>, rerank: Candidate -> real): (keys: seq<real>)
    ensures |keys| == |shortlist|
  {
    var table := Table(shortlist, rerank);
    seq(|shortlist|, i requires 0 <= i < |shortlist| => table[shortlist[i].tag])
  }

  function Selected(shortlist: seq<Candidate>, rerank: Candidate -> real): Candidate
    requires shortlist != []
  {
    shortlist[Selection.FirstLeast(Keys(shortlist, rerank))]
  }

  function Times(members: seq<Candidate>): (times: seq<real>)
    ensures |times| == |members|
  {
    seq(|members|, i requires 0 <= i < |members| => members[i].ms)
  }

  function Fastest(members: seq<Candidate>): (best: Candidate)
    requires members != []
    ensures best in members && forall m <- members :: best.ms <= m.ms
  {
    var i := Selection.FirstLeast(Times(members));
    assert forall k :: 0 <= k < |members| ==> members[k].ms == Times(members)[k];
    members[i]
  }

  /** How much slower than the fastest member the two-stage choice, the best of the shortlist and
      the cheapest are, in percent of the fastest. */
  datatype Outcome = Outcome(selected: Candidate, best: Candidate, shortlist: seq<Candidate>, regret: real,
                             irrecoverable: real, cheapRegret: real, lead: real)

  datatype Settings = Settings(score: Candidate -> real, rerank: Candidate -> real, size: int, incumbent: string)

  ghost predicate Timed(members: seq<Candidate>) {
    forall m <- members :: m.ms > 0.0
  }

  function OutcomeOf(members: seq<Candidate>, s: Settings): Outcome
    requires members != [] && Timed(members)
  {
    ShortlistHolds(members, s.score, s.size, s.incumbent);
    var shortlist := Shortlist(members, s.score, s.size, s.incumbent);
    var best, selected := Fastest(members), Selected(shortlist, s.rerank);
    Outcome(selected, best, shortlist,
            Selection.Percent(selected.ms, best.ms),
            Selection.Percent(Fastest(shortlist).ms, best.ms),
            Selection.Percent(shortlist[0].ms, best.ms),
            Selection.Percent(Selection.RunnerUp(Times(members)), best.ms))
  }

  lemma PercentGrows(a: real, b: real, best: real)
    requires a <= b && best > 0.0
    ensures Selection.Percent(a, best) <= Selection.Percent(b, best)
  {
    Shared(a - best, b - best, best);
  }

  lemma Shared(a: real, b: real, best: real)
    requires a <= b && best > 0.0
    ensures a / best <= b / best
  {
    assert b / best - a / best == (b - a) / best;
  }

  /** What the shortlist has lost can be neither negative nor more than what the choice loses, or
      the cheap choice; and it is nothing exactly if a fastest layout is in the shortlist. */
  lemma IrrecoverableIsBetween(members: seq<Candidate>, s: Settings)
    requires members != [] && Timed(members)
    ensures var o := OutcomeOf(members, s);
      && 0.0 <= o.irrecoverable <= o.regret && o.irrecoverable <= o.cheapRegret
      && (o.irrecoverable == 0.0 <==> exists m <- o.shortlist :: m.ms == o.best.ms)
      && (s.size >= |members| ==> o.irrecoverable == 0.0)
  {
    var o := OutcomeOf(members, s);
    ShortlistHolds(members, s.score, s.size, s.incumbent);
    var kept := Fastest(o.shortlist);
    PercentGrows(kept.ms, o.selected.ms, o.best.ms);
    PercentGrows(kept.ms, o.shortlist[0].ms, o.best.ms);
    Selection.PercentSign(kept.ms, o.best.ms);
  }

  /** A larger shortlist never loses more. */
  lemma IrrecoverableShrinks(members: seq<Candidate>, s: Settings, larger: int)
    requires members != [] && Timed(members) && s.size <= larger
    ensures OutcomeOf(members, s.(size := larger)).irrecoverable <= OutcomeOf(members, s).irrecoverable
  {
    var few, many := OutcomeOf(members, s), OutcomeOf(members, s.(size := larger));
    ShortlistHolds(members, s.score, s.size, s.incumbent);
    ShortlistHolds(members, s.score, larger, s.incumbent);
    ShortlistGrows(members, s.score, s.size, larger, s.incumbent, Fastest(few.shortlist));
    PercentGrows(Fastest(many.shortlist).ms, Fastest(few.shortlist).ms, few.best.ms);
  }

  /** The layout whose score the table keeps for a tag. */
  function LastWith(shortlist: seq<Candidate>, tag: string): (m: Candidate)
    requires exists c <- shortlist :: c.tag == tag
    ensures m in shortlist && m.tag == tag
  {
    var last := shortlist[|shortlist| - 1];
    if last.tag == tag then last else LastWith(shortlist[..|shortlist| - 1], tag)
  }

  lemma {:induction false} TableScores(shortlist: seq<Candidate>, rerank: Candidate -> real, tag: string)
    requires exists c <- shortlist :: c.tag == tag
    ensures tag in Table(shortlist, rerank) && Table(shortlist, rerank)[tag] == rerank(LastWith(shortlist, tag))
  {
    if shortlist[|shortlist| - 1].tag != tag {
      TableScores(shortlist[..|shortlist| - 1], rerank, tag);
    }
  }

  /** The choice depends only on how the second score orders the layouts. */
  lemma OnlyRerankOrderMatters(members: seq<Candidate>, s: Settings, other: Candidate -> real)
    requires members != [] && Timed(members)
    requires forall a, b | a in members && b in members :: (s.rerank(a) < s.rerank(b)) == (other(a) < other(b))
    ensures OutcomeOf(members, s.(rerank := other)) == OutcomeOf(members, s)
  {
    ShortlistHolds(members, s.score, s.size, s.incumbent);
    var shortlist := Shortlist(members, s.score, s.size, s.incumbent);
    var p, q := Keys(shortlist, s.rerank), Keys(shortlist, other);
    forall i | 0 <= i < |shortlist|
      ensures exists m <- shortlist :: p[i] == s.rerank(m) && q[i] == other(m)
    {
      TableScores(shortlist, s.rerank, shortlist[i].tag);
      TableScores(shortlist, other, shortlist[i].tag);
      var m := LastWith(shortlist, shortlist[i].tag);
      assert m in shortlist && p[i] == s.rerank(m) && q[i] == other(m);
    }
    Selection.SameFirstLeast(p, q);
  }

  /** With one tag a layout, the choice has the least second score of the shortlist. */
  lemma SelectedIsLeast(shortlist: seq<Candidate>, rerank: Candidate -> real, m: Candidate)
    requires m in shortlist
    requires forall a, b | a in shortlist && b in shortlist && a.tag == b.tag :: a == b
    ensures rerank(Selected(shortlist, rerank)) <= rerank(m)
  {
    var keys := Keys(shortlist, rerank);
    forall i | 0 <= i < |shortlist| ensures keys[i] == rerank(shortlist[i]) {
      TableScores(shortlist, rerank, shortlist[i].tag);
    }
    var k :| 0 <= k < |shortlist| && shortlist[k] == m;
    assert keys[Selection.FirstLeast(keys)] <= keys[k];
  }

  // ------------------------------------------- what the outcome is, said of the members

  ghost predicate LastAt(shortlist: seq<Candidate>, tag: string, k: nat) {
    k < |shortlist| && shortlist[k].tag == tag && forall j | k < j < |shortlist| :: shortlist[j].tag != tag
  }

  /** The score that counts for a tag: that of the last layout of the shortlist that has it. */
  ghost predicate ScoreIs(shortlist: seq<Candidate>, rerank: Candidate -> real, tag: string, score: real) {
    exists k: nat :: LastAt(shortlist, tag, k) && score == rerank(shortlist[k])
  }

  lemma {:induction false} TableIs(shortlist: seq<Candidate>, rerank: Candidate -> real, tag: string)
    requires tag in Table(shortlist, rerank)
    ensures ScoreIs(shortlist, rerank, tag, Table(shortlist, rerank)[tag])
  {
    if shortlist != [] {
      var n := |shortlist| - 1;
      if shortlist[n].tag == tag {
        assert LastAt(shortlist, tag, n);
      } else {
        TableIs(shortlist[..n], rerank, tag);
        var k: nat :| LastAt(shortlist[..n], tag, k) && Table(shortlist[..n], rerank)[tag] == rerank(shortlist[..n][k]);
        assert LastAt(shortlist, tag, k);
      }
    }
  }

  lemma ScoreIsOne(shortlist: seq<Candidate>, rerank: Candidate -> real, tag: string, a: real, b: real)
    requires ScoreIs(shortlist, rerank, tag, a) && ScoreIs(shortlist, rerank, tag, b)
    ensures a == b
  {
  }

  /** The choice is the first of the shortlist with the least score that counts. */
  ghost predicate IsChoice(shortlist: seq<Candidate>, rerank: Candidate -> real, f: nat)
    requires f < |shortlist|
  {
    forall i, a, b | 0 <= i < |shortlist| && ScoreIs(shortlist, rerank, shortlist[f].tag, a)
                     && ScoreIs(shortlist, rerank, shortlist[i].tag, b) :: a <= b && (i < f ==> a < b)
  }

  lemma ChoiceIs(shortlist: seq<Candidate>, rerank: Candidate -> real) returns (f: nat)
    requires shortlist != []
    ensures f < |shortlist| && Selected(shortlist, rerank) == shortlist[f] && IsChoice(shortlist, rerank, f)
  {
    var keys := Keys(shortlist, rerank);
    f := Selection.FirstLeast(keys);
    forall i, a, b | 0 <= i < |shortlist| && ScoreIs(shortlist, rerank, shortlist[f].tag, a)
                     && ScoreIs(shortlist, rerank, shortlist[i].tag, b)
      ensures a <= b && (i < f ==> a < b)
    {
      TableIs(shortlist, rerank, shortlist[f].tag);
      TableIs(shortlist, rerank, shortlist[i].tag);
      ScoreIsOne(shortlist, rerank, shortlist[f].tag, a, keys[f]);
      ScoreIsOne(shortlist, rerank, shortlist[i].tag, b, keys[i]);
    }
  }

  /** The shortlist begins with as many of the cheapest as its size says, one at least; what follows are
      incumbents. */
  ghost predicate SizeIs(members: seq<Candidate>, size: int, incumbent: string, shortlist: seq<Candidate>) {
    var k: nat := if size < 1 then 1 else size;
    && (k <= |shortlist| || |members| <= |shortlist|)
    && forall i | k <= i < |shortlist| :: shortlist[i].tag == incumbent
  }

  lemma {:induction false} IncumbentsOnly(ranked: seq<Candidate>, shortlist: seq<Candidate>, incumbent: string)
    ensures forall m <- Incumbents(ranked, shortlist, incumbent) :: m.tag == incumbent
  {
    if ranked != [] {
      IncumbentsOnly(ranked[1..], shortlist, incumbent);
    }
  }

  lemma ShortlistSize(members: seq<Candidate>, score: Candidate -> real, size: int, incumbent: string)
    ensures SizeIs(members, size, incumbent, Shortlist(members, score, size, incumbent))
  {
    var ranked := InCheapOrder(members, score);
    CheapOrderIsPermutation(members, score);
    hide InCheapOrder;
    IncumbentsOnly(ranked, ranked[..Cut(|ranked|, size)], incumbent);
    if size >= |ranked| {
      forall m | m in Incumbents(ranked, ranked, incumbent) ensures false {
        IncumbentsAre(ranked, ranked, incumbent, m);
      }
      assert ranked[..|ranked|] == ranked;
    }
    hide Incumbents;
  }

  ghost predicate FastestOf(members: seq<Candidate>, m: Candidate) {
    m in members && forall other <- members :: m.ms <= other.ms
  }

  /** The time of a fastest of the others, or of the only one. */
  ghost predicate NextTime(members: seq<Candidate>, best: Candidate, ms: real) {
    exists f, k :: 0 <= f < |members| && 0 <= k < |members| && members[f] == best && members[k].ms == ms
                   && NextAt(members, f, k)
  }

  ghost predicate NextAt(members: seq<Candidate>, f: nat, k: nat)
    requires k < |members|
  {
    forall i | 0 <= i < |members| && i != f :: k != f && members[k].ms <= members[i].ms
  }

  /** All of the outcome: the fastest is a fastest member, the choice is the re-ranker's, the shortlist is as
      `ShortlistHolds` and `SizeIs` say, and the losses are percentages of the fastest time. */
  ghost predicate OutcomeIs(members: seq<Candidate>, s: Settings, o: Outcome) {
    && FastestOf(members, o.best) && o.shortlist != []
    && (exists f: nat :: f < |o.shortlist| && o.selected == o.shortlist[f] && IsChoice(o.shortlist, s.rerank, f))
    && SizeIs(members, s.size, s.incumbent, o.shortlist)
    && SelectionLaws.PercentIs(o.regret, o.selected.ms, o.best.ms)
    && SelectionLaws.PercentIs(o.cheapRegret, o.shortlist[0].ms, o.best.ms)
    && (exists kept :: FastestOf(o.shortlist, kept) && SelectionLaws.PercentIs(o.irrecoverable, kept.ms, o.best.ms))
    && exists ms :: NextTime(members, o.best, ms) && SelectionLaws.PercentIs(o.lead, ms, o.best.ms)
  }

  lemma NextTimeIs(members: seq<Candidate>)
    requires members != []
    ensures NextTime(members, Fastest(members), Selection.RunnerUp(Times(members)))
  {
    var times := Times(members);
    var f := Selection.FirstLeast(times);
    var k := NextOf(times);
    assert members[f] == Fastest(members) && members[k].ms == times[k];
    hide Fastest, Selection.RunnerUp, Selection.FirstLeast;
    forall i | 0 <= i < |members| && i != f ensures k != f && members[k].ms <= members[i].ms {
      assert times[i] == members[i].ms;
    }
    assert NextAt(members, f, k);
  }

  lemma NextOf(times: seq<real>) returns (k: nat)
    requires times != []
    ensures k < |times| && times[k] == Selection.RunnerUp(times)
    ensures forall i | 0 <= i < |times| && i != Selection.FirstLeast(times) ::
      k != Selection.FirstLeast(times) && times[k] <= times[i]
  {
    k := Selection.FirstLeast(times);
    if |times| > 1 {
      Selection.RunnerUpIsSecond(times);
      hide Selection.RunnerUp;
      k :| 0 <= k < |times| && k != Selection.FirstLeast(times) && times[k] == Selection.RunnerUp(times);
    }
  }

  lemma FastestIs(members: seq<Candidate>)
    requires members != []
    ensures FastestOf(members, Fastest(members))
  {
  }

  lemma OutcomeOfIs(members: seq<Candidate>, s: Settings)
    requires members != [] && Timed(members)
    ensures OutcomeIs(members, s, OutcomeOf(members, s))
  {
    var o := OutcomeOf(members, s);
    ShortlistHolds(members, s.score, s.size, s.incumbent);
    ShortlistSize(members, s.score, s.size, s.incumbent);
    var f := ChoiceIs(o.shortlist, s.rerank);
    FastestIs(members);
    FastestIs(o.shortlist);
    NextTimeIs(members);
    var best := o.best.ms;
    assert best > 0.0;
    SelectionLaws.PercentOf(o.selected.ms, best);
    SelectionLaws.PercentOf(o.shortlist[0].ms, best);
    SelectionLaws.PercentOf(Fastest(o.shortlist).ms, best);
    SelectionLaws.PercentOf(Selection.RunnerUp(Times(members)), best);
    hide Shortlist, Selected, Fastest, SizeIs, IsChoice, FastestOf, NextTime, Selection.Percent;
    hide SelectionLaws.PercentIs;
  }

  // ------------------------------------------------------------------- all cells

  function CellMembers(candidates: seq<Candidate>, cell: string): (members: seq<Candidate>)
    ensures |members| == |Selection.MembersOf(candidates, cell)|
  {
    var places := Selection.MembersOf(candidates, cell);
    seq(|places|, k requires 0 <= k < |places| => candidates[places[k]])
  }

  /** The fastest member leads the next by more than its spread and the noise. */
  predicate Clear(o: Outcome) {
    o.lead > if o.best.spread >= Selection.NOISE_BAND then o.best.spread else Selection.NOISE_BAND
  }

  /** What is counted over the cells. */
  datatype Recall = Recall(kept: nat, clear: nat, clearKept: nat, worst: real)

  /** The fastest leads by more than 3 percent and by more than its own spread. */
  ghost predicate LeadsClearly(o: Outcome) {
    o.lead > 3.0 && o.lead > o.best.spread
  }

  /** The counts say what they should: the shortlist keeps every clear winner exactly if the two
      counts are equal, and no cell loses more to its shortlist than the worst that is reported. */
  ghost predicate Sums(outcomes: seq<Outcome>, recall: Recall) {
    && recall.clearKept <= recall.clear && recall.clearKept <= recall.kept <= |outcomes|
    && (recall.kept == |outcomes| <==> forall o <- outcomes :: o.best in o.shortlist)
    && (recall.clearKept == recall.clear <==> forall o <- outcomes | LeadsClearly(o) :: o.best in o.shortlist)
    && recall.worst >= 0.0 && (forall o <- outcomes :: o.irrecoverable <= recall.worst)
    && (recall.worst == 0.0 || exists o <- outcomes :: o.irrecoverable == recall.worst)
  }

  predicate Missed(o: Outcome) {
    Clear(o) && o.regret > Selection.CLEAR_REGRET
  }

  /** The misses are the clear cells whose choice is more than 5% off. */
  ghost predicate Lists(cells: seq<string>, outcomes: seq<Outcome>, misses: seq<string>)
    requires |cells| == |outcomes|
  {
    && (forall k | 0 <= k < |cells| && WentWrong(outcomes[k]) :: cells[k] in misses)
    && forall cell <- misses :: exists k | 0 <= k < |cells| :: cells[k] == cell && WentWrong(outcomes[k])
  }

  ghost predicate WentWrong(o: Outcome) {
    LeadsClearly(o) && o.regret > 5.0
  }

  function CountOne(recall: Recall, o: Outcome): Recall {
    var kept, clear := o.best in o.shortlist, Clear(o);
    Recall(recall.kept + (if kept then 1 else 0), recall.clear + (if clear then 1 else 0),
           recall.clearKept + (if clear && kept then 1 else 0),
           if o.irrecoverable > recall.worst then o.irrecoverable else recall.worst)
  }

  lemma SumsOneMore(outcomes: seq<Outcome>, recall: Recall, o: Outcome)
    requires Sums(outcomes, recall)
    ensures Sums(outcomes + [o], CountOne(recall, o))
  {
    assert Clear(o) <==> LeadsClearly(o);
    hide Clear, LeadsClearly;
    assert forall x :: x in outcomes + [o] <==> x in outcomes || x == o;
    var more := CountOne(recall, o);
    if more.worst != 0.0 && more.worst == recall.worst {
      var x :| x in outcomes && x.irrecoverable == recall.worst;
      assert x in outcomes + [o];
    }
    assert more.worst == o.irrecoverable ==> o in outcomes + [o];
  }

  lemma ListsOneMore(cells: seq<string>, outcomes: seq<Outcome>, misses: seq<string>, cell: string, o: Outcome)
    requires |cells| == |outcomes| && Lists(cells, outcomes, misses)
    ensures Lists(cells + [cell], outcomes + [o], misses + if Missed(o) then [cell] else [])
  {
    assert Missed(o) <==> WentWrong(o);
    hide Missed, WentWrong;
    var more := misses + if Missed(o) then [cell] else [];
    forall c | c in more
      ensures exists k | 0 <= k < |cells| + 1 :: (cells + [cell])[k] == c && WentWrong((outcomes + [o])[k])
    {
      if c in misses {
        var k :| 0 <= k < |cells| && cells[k] == c && WentWrong(outcomes[k]);
        assert (cells + [cell])[k] == c && WentWrong((outcomes + [o])[k]);
      } else {
        assert (cells + [cell])[|cells|] == c && WentWrong((outcomes + [o])[|cells|]);
      }
    }
  }

  ghost predicate Evaluated(candidates: seq<Candidate>, s: Settings, cell: string, o: Outcome) {
    var members := CellMembers(candidates, cell);
    members != [] && Timed(members) && o == OutcomeOf(members, s)
  }

  /** One pass over the cells in order of their names. */
  method EvaluateTwoStage(candidates: seq<Candidate>, s: Settings)
    returns (cells: seq<string>, outcomes: seq<Outcome>, recall: Recall, misses: seq<string>)
    requires Selection.Timed(candidates)
    ensures cells == Names.Sorted(Selection.CellsOf(candidates)) && |outcomes| == |cells|
    ensures forall k | 0 <= k < |cells| :: Evaluated(candidates, s, cells[k], outcomes[k])
    ensures Sums(outcomes, recall) && Lists(cells, outcomes, misses)
  {
    hide *;
    cells := Names.Sorted(Selection.CellsOf(candidates));
    outcomes, misses := [], [];
    recall := Recall(0, 0, 0, 0.0);
    NothingYet();
    for i := 0 to |cells|
      invariant |outcomes| == i
      invariant forall k | 0 <= k < i :: Evaluated(candidates, s, cells[k], outcomes[k])
      invariant Sums(outcomes, recall) && Lists(cells[..i], outcomes, misses)
    {
      assert cells[i] in cells && cells[..i + 1] == cells[..i] + [cells[i]];
      var o := EvaluateCell(candidates, s, cells[i]);
      SumsOneMore(outcomes, recall, o);
      ListsOneMore(cells[..i], outcomes, misses, cells[i], o);
      outcomes, recall := outcomes + [o], CountOne(recall, o);
      misses := misses + if Missed(o) then [cells[i]] else [];
    }
    assert cells[..|cells|] == cells;
  }

  method EvaluateCell(candidates: seq<Candidate>, s: Settings, cell: string) returns (o: Outcome)
    requires Selection.Timed(candidates) && cell in Selection.CellsOf(candidates)
    ensures Evaluated(candidates, s, cell, o)
  {
    var members := CellMembers(candidates, cell);
    hide OutcomeOf;
    o := OutcomeOf(members, s);
  }

  lemma NothingYet()
    ensures Sums([], Recall(0, 0, 0, 0.0)) && Lists([], [], [])
  {
  }
}
