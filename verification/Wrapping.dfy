/** Drawing a prompt as large as possible: greedy wrapping of the words into lines, and a
    search over the font sizes in steps that skip the neighbours of each probe. */
module Wrapping {
  import opened Wrappers
  import opened Sequences

  /** The corners of drawn text. */
  datatype Box = Box(left: int, top: int, right: int, bottom: int)

  /** What the drawing surface says: which characters are blank, and how large a text is when
      it is drawn at a size. */
  datatype Surface = Surface(blank: char -> bool, box: (int, string) -> Box)

  const SPACE: char := ' '

  ghost predicate Proper(surface: Surface) {
    surface.blank(SPACE)
  }

  function Across(surface: Surface, size: int, line: string): int {
    var box := surface.box(size, line);
    box.right - box.left
  }

  function Down(surface: Surface, size: int, line: string): int {
    var box := surface.box(size, line);
    box.bottom - box.top
  }

  // ------------------------------------------------------------------- words

  predicate IsWord(blank: char -> bool, word: string) {
    word != "" && forall i :: 0 <= i < |word| ==> !blank(word[i])
  }

  predicate AreWords(blank: char -> bool, words: seq<string>) {
    forall i :: 0 <= i < |words| ==> IsWord(blank, words[i])
  }

  /** The characters before the first blank. */
  function Unbroken(blank: char -> bool, text: string): (n: nat)
    ensures n <= |text|
    ensures forall i :: 0 <= i < n ==> !blank(text[i])
    ensures n < |text| ==> blank(text[n])
  {
    if text == "" || blank(text[0]) then 0 else 1 + Unbroken(blank, text[1..])
  }

  /** The words of a text: its longest runs of characters that are not blank. */
  function Split(blank: char -> bool, text: string): (words: seq<string>)
    ensures AreWords(blank, words)
    decreases |text|
  {
    if text == "" then []
    else
      var n := Unbroken(blank, text);
      if n == 0 then Split(blank, text[1..]) else [text[..n]] + Split(blank, text[n..])
  }

  function Solid(blank: char -> bool, text: string): string {
    if text == "" then "" else (if blank(text[0]) then "" else [text[0]]) + Solid(blank, text[1..])
  }

  /** Splitting loses only blanks. */
  lemma {:induction false} SplitKeepsLetters(blank: char -> bool, text: string)
    ensures Concat(Split(blank, text)) == Solid(blank, text)
    decreases |text|
  {
    if text != "" {
      var n := Unbroken(blank, text);
      if n == 0 {
        SplitKeepsLetters(blank, text[1..]);
      } else {
        SplitKeepsLetters(blank, text[n..]);
        SolidPrefix(blank, text, n);
      }
    }
  }

  lemma {:induction false} SolidPrefix(blank: char -> bool, text: string, n: nat)
    requires n <= |text| && forall i :: 0 <= i < n ==> !blank(text[i])
    ensures Solid(blank, text) == text[..n] + Solid(blank, text[n..])
  {
    if n > 0 {
      SolidPrefix(blank, text[1..], n - 1);
      assert text[..n] == [text[0]] + text[1..][..n - 1];
      assert text[1..][n - 1..] == text[n..];
    }
  }

  function Join(words: seq<string>): string {
    if words == [] then ""
    else if |words| == 1 then words[0]
    else words[0] + [SPACE] + Join(words[1..])
  }

  function Strip(blank: char -> bool, text: string): string {
    if text == "" then ""
    else if blank(text[0]) then Strip(blank, text[1..])
    else if blank(text[|text| - 1]) then Strip(blank, text[..|text| - 1])
    else text
  }

  /** Joined words stand one space apart. */
  lemma {:induction false} JoinAdds(a: seq<string>, b: seq<string>)
    ensures a != [] && b != [] ==> Join(a + b) == Join(a) + " " + Join(b)
    ensures forall word :: Join([word]) == word
  {
    if a != [] && b != [] {
      if |a| == 1 {
        assert a + b == [a[0]] + b && (a + b)[1..] == b;
      } else {
        assert (a + b)[1..] == a[1..] + b;
        JoinAdds(a[1..], b);
      }
    }
  }

  lemma {:induction false} UnbrokenWord(blank: char -> bool, word: string, rest: string)
    requires forall c <- word :: !blank(c)
    requires rest == "" || blank(rest[0])
    ensures Unbroken(blank, word + rest) == |word|
  {
    if word == "" {
      assert word + rest == rest;
    } else {
      assert (word + rest)[1..] == word[1..] + rest;
      UnbrokenWord(blank, word[1..], rest);
    }
  }

  /** Splitting gives joined words back. */
  lemma {:induction false} SplitOfJoin(blank: char -> bool, words: seq<string>)
    requires AreWords(blank, words) && blank(' ')
    ensures Split(blank, Join(words)) == words
  {
    if words != [] {
      var word := words[0];
      assert IsWord(blank, word);
      if |words| == 1 {
        UnbrokenWord(blank, word, "");
        assert word + "" == word && word[..|word|] == word && word[|word|..] == "";
      } else {
        var rest := " " + Join(words[1..]);
        SplitOfJoin(blank, words[1..]);
        UnbrokenWord(blank, word, rest);
        assert Join(words) == word + rest;
        assert (word + rest)[..|word|] == word && (word + rest)[|word|..] == rest;
        assert rest[1..] == Join(words[1..]) && Unbroken(blank, rest) == 0;
      }
    }
  }

  /** Stripping takes the blanks off both ends, and nothing else. */
  lemma {:induction false} StripIs(blank: char -> bool, text: string) returns (before: string, after: string)
    ensures text == before + Strip(blank, text) + after
    ensures (forall c <- before :: blank(c)) && forall c <- after :: blank(c)
    ensures var kept := Strip(blank, text); kept != "" ==> !blank(kept[0]) && !blank(kept[|kept| - 1])
    decreases |text|
  {
    before, after := "", "";
    if text != "" {
      if blank(text[0]) {
        before, after := StripIs(blank, text[1..]);
        before := [text[0]] + before;
      } else if blank(text[|text| - 1]) {
        before, after := StripIs(blank, text[..|text| - 1]);
        after := after + [text[|text| - 1]];
      }
    }
  }

  /** Joined words have no blank at either end, so stripping them changes nothing. */
  lemma {:induction false} JoinedEnds(blank: char -> bool, words: seq<string>)
    requires AreWords(blank, words) && words != []
    ensures var text := Join(words);
      text != "" && !blank(text[0]) && !blank(text[|text| - 1]) && Strip(blank, text) == text
  {
    assert IsWord(blank, words[0]);
    if |words| > 1 {
      JoinedEnds(blank, words[1..]);
    }
  }

  // ---------------------------------------------------------------- wrapping

  /** A line of these words is no wider than allowed. */
  predicate Fits(surface: Surface, size: int, limit: int, words: seq<string>) {
    Across(surface, size, Join(words)) <= limit
  }

  /** The groups are the words in order, cut into lines that fit or hold a single word. */
  ghost predicate Wraps(surface: Surface, size: int, limit: int, groups: seq<seq<string>>, words: seq<string>) {
    && Concat(groups) == words
    && forall k :: 0 <= k < |groups| ==> |groups[k]| > 0 && (|groups[k]| == 1 || Fits(surface, size, limit, groups[k]))
  }

  /** No line could take the first word of the next one. */
  ghost predicate Full(surface: Surface, size: int, limit: int, groups: seq<seq<string>>) {
    forall k :: 0 <= k < |groups| - 1 && groups[k + 1] != [] ==>
      !Fits(surface, size, limit, groups[k] + [groups[k + 1][0]])
  }

  function Rendered(groups: seq<seq<string>>): (lines: seq<string>)
    ensures |lines| == |groups|
  {
    seq(|groups|, k requires 0 <= k < |groups| => Join(groups[k]))
  }

  /** The source's loop as a recursion: the lines from here on, the current one first. */
  function Greedy(surface: Surface, size: int, limit: int, current: seq<string>, words: seq<string>): seq<seq<string>>
    decreases |words|
  {
    if words == [] then [current]
    else if current == [] || Fits(surface, size, limit, current + [words[0]]) then
      Greedy(surface, size, limit, current + [words[0]], words[1..])
    else [current] + Greedy(surface, size, limit, [words[0]], words[1..])
  }

  /** The lines of a text; a text without words has one empty line. */
  function Lines(surface: Surface, text: string, size: int, limit: int): seq<string> {
    var words := Split(surface.blank, text);
    if words == [] then [""] else Rendered(Greedy(surface, size, limit, [], words))
  }

  /** The source's loop.  Its lines render a full wrapping of the words of the text. */
  method Wrap(surface: Surface, text: string, size: int, limit: int) returns (lines: seq<string>)
    requires Proper(surface)
    ensures Split(surface.blank, text) == [] ==> lines == [""]
    ensures Split(surface.blank, text) != [] ==>
      exists groups :: Wraps(surface, size, limit, groups, Split(surface.blank, text)) &&
        Full(surface, size, limit, groups)
                       && lines == Rendered(groups)
    ensures lines == Lines(surface, text, size, limit) && lines != []
    ensures Fewest(surface, size, limit, Split(surface.blank, text), |lines|)
  {
    hide Split, Wraps, Full, IsWord, Strip, Join;
    var words := Split(surface.blank, text);
    if words == [] {
      return [""];
    }
    StartsFull(surface, size, limit);
    lines := [];
    var current: seq<string> := [];
    ghost var groups: seq<seq<string>> := [];
    for i := 0 to |words|
      invariant i > 0 ==> current != []
      invariant i == 0 ==> current == [] && groups == []
      invariant current != [] ==> Wraps(surface, size, limit, groups + [current], words[..i])
      invariant Full(surface, size, limit, groups + [current])
      invariant lines == Rendered(groups)
      invariant Greedy(surface, size, limit, [], words) == groups + Greedy(surface, size, limit, current, words[i..])
    {
      var word := words[i];
      var candidate := Strip(surface.blank, Join(current + [word]));
      assert words[..i + 1] == words[..i] + [word] && words[i..][1..] == words[i + 1..];
      assert AreWords(surface.blank, current + [word]) by {
        if current != [] {
          WordsOfGroup(surface, size, limit, groups, current, words[..i]);
        }
      }
      JoinedEnds(surface.blank, current + [word]);
      if Across(surface, size, candidate) <= limit || current == [] {
        Lengthened(surface, size, limit, groups, current, word, words[..i]);
        current := current + [word];
      } else {
        Restarted(surface, size, limit, groups, current, word, words[..i]);
        lines := lines + [Join(current)];
        groups := groups + [current];
        current := [word];
      }
      hide *;
    }
    lines := lines + [Join(current)];
    groups := groups + [current];
    assert words[..|words|] == words;
    assert lines == Rendered(groups);
    FullIsFewest(surface, size, limit, groups, words);
  }

  lemma WordsOfGroup(surface: Surface, size: int, limit: int, groups: seq<seq<string>>, current: seq<string>,
                     words: seq<string>)
    requires AreWords(surface.blank, words) && Wraps(surface, size, limit, groups + [current], words)
    ensures AreWords(surface.blank, current)
  {
    ConcatSnoc(groups, current);
    var n := |Concat(groups)|;
    forall i | 0 <= i < |current| ensures IsWord(surface.blank, current[i]) {
      assert words[n + i] == current[i];
    }
  }

  lemma StartsFull(surface: Surface, size: int, limit: int)
    ensures Full(surface, size, limit, [] + [[]])
  {
  }

  lemma Lengthened(surface: Surface, size: int, limit: int, groups: seq<seq<string>>, current: seq<string>,
                   word: string, words: seq<string>)
    requires if current == [] then groups == [] &&
      words == [] else Wraps(surface, size, limit, groups + [current], words)
    requires current == [] || Fits(surface, size, limit, current + [word])
    requires Full(surface, size, limit, groups + [current])
    ensures Wraps(surface, size, limit, groups + [current + [word]], words + [word])
    ensures Full(surface, size, limit, groups + [current + [word]])
  {
    ConcatSnoc(groups, current);
    ConcatSnoc(groups, current + [word]);
    assert Concat(groups) + (current + [word]) == words + [word];
    hide Fits, Concat;
    var was, now := groups + [current], groups + [current + [word]];
    assert forall k :: 0 <= k < |groups| ==> was[k] == now[k];
    forall k | 0 <= k < |now| - 1 && now[k + 1] != [] ensures !Fits(surface, size, limit, now[k] + [now[k + 1][0]]) {
      assert was[k] == now[k] && was[k + 1] != [] && was[k + 1][0] == now[k + 1][0];
    }
  }

  lemma Restarted(surface: Surface, size: int, limit: int, groups: seq<seq<string>>, current: seq<string>, word: string,
                  words: seq<string>)
    requires Wraps(surface, size, limit, groups + [current], words) && !Fits(surface, size, limit, current + [word])
    requires Full(surface, size, limit, groups + [current])
    ensures Wraps(surface, size, limit, groups + [current] + [[word]], words + [word])
    ensures Full(surface, size, limit, groups + [current] + [[word]])
  {
    ConcatSnoc(groups + [current], [word]);
    hide Fits, Concat;
    var was, now := groups + [current], groups + [current] + [[word]];
    assert forall k :: 0 <= k < |was| ==> was[k] == now[k];
    forall k | 0 <= k < |now| - 1 && now[k + 1] != [] ensures !Fits(surface, size, limit, now[k] + [now[k + 1][0]]) {
      if k + 1 < |was| {
        assert was[k] == now[k] && was[k + 1] == now[k + 1];
      }
    }
  }

  /** A longer line of words is at least as wide as any span of it. */
  ghost predicate WiderWithMore(surface: Surface, size: int) {
    forall before, words, after ::
      Across(surface, size, Join(words)) <= Across(surface, size, Join(before + words + after))
  }

  lemma SpanInside(skipped: seq<string>, words: seq<string>, line: seq<string>, rest: seq<string>, n: nat)
    requires skipped + words == line + rest && n < |words| && |line| > |skipped| + n
    ensures line == skipped + (words[..n] + [words[n]]) + line[|skipped| + n + 1..]
  {
    assert line == (skipped + words)[..|line|];
  }

  lemma RestFollows(skipped: seq<string>, first: seq<string>, more: seq<string>, line: seq<string>, rest: seq<string>)
    requires skipped + (first + more) == line + rest && |line| <= |skipped| + |first|
    ensures rest == (skipped + first)[|line|..] + more
  {
    assert rest == (skipped + (first + more))[|line|..];
  }

  /** Greedy stays ahead: started no earlier in the text than any other wrapping, a full
      wrapping has no more lines left. */
  lemma {:induction false} StaysAhead(surface: Surface, size: int, limit: int, skipped: seq<string>,
                                      full: seq<seq<string>>, any: seq<seq<string>>, words: seq<string>)
    requires WiderWithMore(surface, size)
    requires Wraps(surface, size, limit, full, words) && Full(surface, size, limit, full)
    requires Wraps(surface, size, limit, any, skipped + words)
    ensures |full| <= |any|
    decreases |full|
  {
    if |full| > 1 {
      assert words == full[0] + Concat(full[1..]);
      assert full[1][0] == words[|full[0]|];
      assert any != [];
      assert skipped + words == any[0] + Concat(any[1..]);
      assert !Fits(surface, size, limit, full[0] + [full[0 + 1][0]]);
      assert words[..|full[0]|] == full[0];
      if |any[0]| > |skipped| + |full[0]| {
        SpanInside(skipped, words, any[0], Concat(any[1..]), |full[0]|);
        assert false;
      }
      var rest := (skipped + full[0])[|any[0]|..];
      RestFollows(skipped, full[0], Concat(full[1..]), any[0], Concat(any[1..]));
      StaysAhead(surface, size, limit, rest, full[1..], any[1..], Concat(full[1..]));
    }
  }

  /** No wrapping of the words has fewer lines, if what is drawn gets wider with every word. */
  ghost predicate Fewest(surface: Surface, size: int, limit: int, words: seq<string>, lines: nat) {
    words != [] && WiderWithMore(surface, size) ==>
      forall groups | Wraps(surface, size, limit, groups, words) :: lines <= |groups|
  }

  lemma FullIsFewest(surface: Surface, size: int, limit: int, full: seq<seq<string>>, words: seq<string>)
    requires Wraps(surface, size, limit, full, words) && Full(surface, size, limit, full)
    ensures Fewest(surface, size, limit, words, |full|)
  {
    hide Wraps, Full;
    if WiderWithMore(surface, size) {
      hide WiderWithMore;
      forall groups | Wraps(surface, size, limit, groups, words) ensures |full| <= |groups| {
        FewestLines(surface, size, limit, full, groups, words);
      }
    }
  }

  /** No other wrapping of the words uses fewer lines. */
  lemma FewestLines(surface: Surface, size: int, limit: int, full: seq<seq<string>>, any: seq<seq<string>>,
                    words: seq<string>)
    requires WiderWithMore(surface, size)
    requires Wraps(surface, size, limit, full, words) && Full(surface, size, limit, full)
    requires Wraps(surface, size, limit, any, words)
    ensures |full| <= |any|
  {
    assert [] + words == words;
    StaysAhead(surface, size, limit, [], full, any, words);
  }

  // ----------------------------------------------------------- the font search

  /** Python's int(a / b) for b > 0: towards zero. */
  function Quotient(a: int, b: int): int
    requires b > 0
  {
    if a >= 0 then a / b else -((-a) / b)
  }

  function Sum(values: seq<int>): int {
    if values == [] then 0 else Sum(values[..|values| - 1]) + values[|values| - 1]
  }

  lemma {:induction false} SumAdds(a: seq<int>, b: seq<int>)
    ensures Sum(a + b) == Sum(a) + Sum(b)
    ensures forall x :: Sum([x]) == x
  {
    if b == [] {
      assert a + b == a;
    } else {
      assert (a + b)[..|a + b| - 1] == a + b[..|b| - 1];
      SumAdds(a, b[..|b| - 1]);
    }
  }

  function Heights(surface: Surface, size: int, lines: seq<string>): (heights: seq<int>)
    ensures |heights| == |lines|
  {
    seq(|lines|, i requires 0 <= i < |lines| => Down(surface, size, lines[i]))
  }

  /** The height of the lines with the spacing between them: a quarter of their mean height, at
      least one pixel. */
  function Tall(heights: seq<int>): int
    requires heights != []
  {
    var spacing := Quotient(Sum(heights), |heights|) / 4;
    Sum(heights) + (|heights| - 1) * if spacing >= 1 then spacing else 1
  }

  /** The spacing is a quarter of the mean height, both rounded down, or one pixel where that is more; the mean of
      negative heights is rounded up. */
  lemma TallIs(heights: seq<int>) returns (average: int, spacing: int)
    requires heights != []
    ensures Sum(heights) >= 0 ==> 0 <= Sum(heights) - average * |heights| < |heights|
    ensures Sum(heights) < 0 ==> 0 <= average * |heights| - Sum(heights) < |heights|
    ensures average >= 4 ==> 4 * spacing <= average < 4 * spacing + 4
    ensures average < 4 ==> spacing == 1
    ensures Tall(heights) == Sum(heights) + (|heights| - 1) * spacing
  {
    average := Quotient(Sum(heights), |heights|);
    spacing := if average / 4 >= 1 then average / 4 else 1;
    Rounded(Sum(heights), |heights|);
    hide Quotient, Sum;
  }

  lemma Rounded(a: int, b: int)
    requires b > 0
    ensures a >= 0 ==> 0 <= a - Quotient(a, b) * b < b
    ensures a < 0 ==> 0 <= Quotient(a, b) * b - a < b
  {
    if a < 0 {
      var q := -a / b;
      assert -a == q * b + -a % b;
      assert -q * b == -(q * b);
    }
  }

  /** The lines stay within the canvas. */
  ghost predicate OnCanvas(surface: Surface, size: int, lines: seq<string>, width: int, height: int)
    requires lines != []
  {
    && 0 <= width && (forall i :: 0 <= i < |lines| ==> Across(surface, size, lines[i]) <= width)
    && Tall(Heights(surface, size, lines)) <= height
  }

  method Measure(surface: Surface, size: int, lines: seq<string>, width: int, height: int) returns (fits: bool)
    requires lines != []
    ensures fits == OnCanvas(surface, size, lines, width, height)
  {
    var widest := 0;
    var heights: seq<int> := [];
    for i := 0 to |lines|
      invariant 0 <= widest && |heights| == i
      invariant widest <= width <==> 0 <= width && forall k :: 0 <= k < i ==> Across(surface, size, lines[k]) <= width
      invariant forall k :: 0 <= k < i ==> heights[k] == Down(surface, size, lines[k])
    {
      var box := surface.box(size, lines[i]);
      widest := if widest >= box.right - box.left then widest else box.right - box.left;
      heights := heights + [box.bottom - box.top];
    }
    assert heights == Heights(surface, size, lines);
    var average := Quotient(Sum(heights), |heights|);
    var spacing := if average / 4 >= 1 then average / 4 else 1;
    var total := Sum(heights) + (|lines| - 1) * spacing;
    fits := widest <= width && total <= height;
  }

  /** The canvas, the margin and the range of sizes of one search. */
  datatype Request = Request(text: string, width: int, height: int, margin: int, smallest: int, largest: Option<int>)

  function Top(request: Request): (size: int)
    ensures request.largest.Some? ==> size == request.largest.value
    ensures request.largest.None? ==>
      size <= request.width && size <= request.height && size in {request.width, request.height}
  {
    match request.largest
    case Some(size) => size
    case None => if request.width <= request.height then request.width else request.height
  }

  /** Drawn at this size and wrapped, the text stays within the margins. */
  ghost predicate Works(surface: Surface, request: Request, size: int) {
    var width := request.width - 2 * request.margin;
    var lines := Lines(surface, request.text, size, width);
    lines != [] && OnCanvas(surface, size, lines, width, request.height - 2 * request.margin)
  }

  /** What works at some size works at every smaller size of the range. */
  ghost predicate SmallerWorks(surface: Surface, request: Request) {
    forall a, b | request.smallest <= a <= b <= Top(request) && Works(surface, request, b) :: Works(surface, request, a)
  }

  ghost predicate IsBest(surface: Surface, request: Request, size: int) {
    && request.smallest <= size <= Top(request) && Works(surface, request, size)
    && forall more | size < more <= Top(request) :: !Works(surface, request, more)
  }

  /** The search for this size looks at it: every probe passes over its two neighbours. */
  predicate Probed(low: int, high: int, size: int)
    decreases high - low + 2
  {
    low <= high
    && var middle := (low + high) / 2;
       middle == size || (if middle < size then Probed(middle + 2, high, size) else Probed(low, middle - 2, size))
  }

  /** One probe wraps the text and measures its lines. */
  method Probe(surface: Surface, request: Request, size: int) returns (fits: bool)
    requires Proper(surface)
    ensures fits == Works(surface, request, size)
  {
    var width, height := request.width - 2 * request.margin, request.height - 2 * request.margin;
    var lines := Wrap(surface, request.text, size, width);
    fits := Measure(surface, size, lines, width, height);
  }

  /** Nothing above the range works; and the search has found the best size, or would still look
      at it, exactly if it would have done so from the start. */
  ghost predicate Narrowed(surface: Surface, request: Request, low: int, high: int, size: int) {
    && (forall more | high + 1 < more <= Top(request) :: !Works(surface, request, more))
    && forall best | IsBest(surface, request, best) ::
         (size == best || Probed(low, high, best)) <==>
         (best == request.smallest || Probed(request.smallest, Top(request), best))
  }

  lemma Narrows(surface: Surface, request: Request, low: int, high: int, size: int)
    requires SmallerWorks(surface, request) && Narrowed(surface, request, low, high, size)
    requires request.smallest <= size <= low <= high <= Top(request)
    ensures var middle := (low + high) / 2;
      if Works(surface, request, middle) then Narrowed(surface, request, middle + 2, high, middle)
      else Narrowed(surface, request, low, middle - 2, size)
  {
    hide Works;
  }

  /** The search ends.  It returns the smallest size, or a size in range that works.  If smaller
      sizes work whenever larger ones do, the result is at most 2 below every size that works, and
      it is the best size exactly if the best size is the smallest or one that is probed. */
  method MaxFitSize(surface: Surface, request: Request) returns (size: int)
    requires Proper(surface)
    ensures size == request.smallest || (request.smallest <= size <= Top(request) && Works(surface, request, size))
    ensures SmallerWorks(surface, request) ==>
      forall more | request.smallest <= more <= Top(request) && Works(surface, request, more) :: more <= size + 2
    ensures SmallerWorks(surface, request) ==>
      forall best | IsBest(surface, request, best) ::
        size == best <==> best == request.smallest || Probed(request.smallest, Top(request), best)
  {
    hide Works, SmallerWorks;
    var low, high := request.smallest, Top(request);
    size := request.smallest;
    while low <= high
      invariant request.smallest <= low && high <= Top(request)
      invariant size == request.smallest || (size <= Top(request) && Works(surface, request, size))
      invariant size <= low <= size + 2 && request.smallest <= size
      invariant SmallerWorks(surface, request) ==> Narrowed(surface, request, low, high, size)
      decreases high - low
    {
      hide Narrowed, Top, Probed;
      var middle := (low + high) / 2;
      var fits := Probe(surface, request, middle);
      if SmallerWorks(surface, request) {
        Narrows(surface, request, low, high, size);
      }
      if fits {
        size := middle;
        low := middle + 2;
      } else {
        high := middle - 2;
      }
    }
  }

  /** The search may stop below the largest size that works: with every size working, a search
      from 1 to 3 looks at 2 only. */
  lemma LargestCanBeMissed() returns (surface: Surface, request: Request)
    ensures Proper(surface) && SmallerWorks(surface, request) && IsBest(surface, request, 3)
    ensures !(3 == request.smallest || Probed(request.smallest, Top(request), 3))
  {
    surface := Surface(c => c == SPACE, (size, line) => Box(0, 0, 0, 0));
    request := Request("", 10, 10, 0, 1, Some(3));
    assert forall size :: Works(surface, request, size) by {
      assert forall size :: Lines(surface, "", size, 10) == [""];
      assert forall size :: Heights(surface, size, [""]) == [0];
      assert Sum([0]) == 0;
    }
  }
}
