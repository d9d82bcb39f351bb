/**
 * The position-specific weight matrix of PSSM.h / PSSM.cpp.  Lower weights are
 * better.  A position holds one weight per key letter; after setup the matrix
 * also holds a scoring order (`priority`) that visits the positions with the
 * widest weight range first, and for each step of that order the best score
 * the positions still to come can add (`bestCases`).
 */
module Pssm {
  import opened Wrappers
  import opened Nucleotide

  /** One matrix position (`PssmPos`): its index as read from the file and its weights, in key order. */
  datatype PssmPos = PssmPos(siteindex: int, weights: seq<real>)
  {
    /** `add_weight`: one more weight at the end; the best weight becomes the smaller of the two. */
    function AddWeight(w: real): (r: PssmPos)
      ensures r.siteindex == siteindex && |r.weights| == |weights| + 1
      ensures r.weights[..|weights|] == weights && r.weights[|weights|] == w
      ensures BestWeight(r.weights) == if weights == [] || w < BestWeight(weights) then w else BestWeight(weights)
      ensures WorstWeight(r.weights) == if weights == [] || w > WorstWeight(weights) then w else WorstWeight(weights)
    {
      var r := PssmPos(siteindex, weights + [w]);
      assert r.weights[..|weights|] == weights;
      r
    }

    /** `bestweight()`: the scan that keeps the smallest weight seen so far. */
    method ScanBest() returns (best: real)
      requires |weights| > 0
      ensures best == BestWeight(weights)
    {
      best := weights[0];
      var i := 1;
      while i < |weights|
        invariant 1 <= i <= |weights|
        invariant best == BestWeight(weights[..i])
      {
        BestWeightStep(weights, i);
        if weights[i] < best {
          best := weights[i];
        }
        i := i + 1;
      }
      assert weights[..i] == weights;
    }

    /** `worstweight()`: the scan that keeps the largest weight seen so far. */
    method ScanWorst() returns (worst: real)
      requires |weights| > 0
      ensures worst == WorstWeight(weights)
    {
      worst := weights[0];
      var i := 1;
      while i < |weights|
        invariant 1 <= i <= |weights|
        invariant worst == WorstWeight(weights[..i])
      {
        WorstWeightStep(weights, i);
        if weights[i] > worst {
          worst := weights[i];
        }
        i := i + 1;
      }
      assert weights[..i] == weights;
    }
  }

  /** `bestweight`: the smallest weight, found by a left-to-right scan. */
  function BestWeight(ws: seq<real>): (b: real)
    requires |ws| > 0
    ensures b in ws
    ensures forall k :: 0 <= k < |ws| ==> b <= ws[k]
  {
    if |ws| == 1 then ws[0]
    else
      var m := BestWeight(ws[..|ws| - 1]);
      if ws[|ws| - 1] < m then ws[|ws| - 1] else m
  }

  /** `worstweight`: the largest weight, found by a left-to-right scan. */
  function WorstWeight(ws: seq<real>): (w: real)
    requires |ws| > 0
    ensures w in ws
    ensures forall k :: 0 <= k < |ws| ==> ws[k] <= w
  {
    if |ws| == 1 then ws[0]
    else
      var m := WorstWeight(ws[..|ws| - 1]);
      if ws[|ws| - 1] > m then ws[|ws| - 1] else m
  }

  /** One more step of the `bestweight` scan. */
  lemma BestWeightStep(ws: seq<real>, i: nat)
    requires 0 < i < |ws|
    ensures BestWeight(ws[..i + 1]) == if ws[i] < BestWeight(ws[..i]) then ws[i] else BestWeight(ws[..i])
  {
    assert ws[..i + 1][..i] == ws[..i];
  }

  /** One more step of the `worstweight` scan. */
  lemma WorstWeightStep(ws: seq<real>, i: nat)
    requires 0 < i < |ws|
    ensures WorstWeight(ws[..i + 1]) == if ws[i] > WorstWeight(ws[..i]) then ws[i] else WorstWeight(ws[..i])
  {
    assert ws[..i + 1][..i] == ws[..i];
  }

  /** The range used to rank positions: the absolute difference of best and worst weight. */
  function Range(ws: seq<real>): real
    requires |ws| > 0
  {
    var d := BestWeight(ws) - WorstWeight(ws);
    if d < 0.0 then -d else d
  }

  /** Every weight multiplied by `factor` (what `scale` leaves behind). */
  function Scaled(ws: seq<real>, factor: real): (r: seq<real>)
    ensures |r| == |ws|
  {
    seq(|ws|, k requires 0 <= k < |ws| => ws[k] * factor)
  }

  /** Index of the first key letter equal to `c`, or `|key|` when there is none. */
  function KeyIndex(key: seq<char>, c: char): (k: nat)
    ensures k <= |key|
    ensures k < |key| ==> key[k] == c
    ensures forall j :: 0 <= j < k ==> key[j] != c
  {
    if key == [] then 0
    else if key[0] == c then 0
    else 1 + KeyIndex(key[1..], c)
  }

  /** Position `i`'s weight for letter `c` (`PSSM::score`): 0 when `c` is not in the key. */
  function WeightFor(key: seq<char>, pos: PssmPos, c: char): (r: real)
    requires |pos.weights| == |key|
    ensures c !in key ==> r == 0.0
    ensures c in key ==> exists k :: 0 <= k < |key| && key[k] == c && r == pos.weights[k]
                                     && forall j :: 0 <= j < k ==> key[j] != c
    ensures c in key ==> BestWeight(pos.weights) <= r <= WorstWeight(pos.weights)
  {
    var k := KeyIndex(key, c);
    if k < |key| then pos.weights[k] else 0.0
  }

  /** The indices 0 .. n-1 in order. */
  function Iota(n: nat): (r: seq<nat>)
    ensures |r| == n && forall i :: 0 <= i < n ==> r[i] == i
  {
    if n == 0 then [] else Iota(n - 1) + [n - 1]
  }

  /** Every position has at least one weight, so its best and worst weight exist. */
  predicate NonEmptyPositions(positions: seq<PssmPos>)
  {
    forall i :: 0 <= i < |positions| ==> |positions[i].weights| > 0
  }

  predicate InRange(order: seq<nat>, n: nat)
  {
    forall p :: 0 <= p < |order| ==> order[p] < n
  }

  /**
   * `priority_`: a permutation of the positions with non-increasing range; the
   * order among equal ranges is left open, as std::sort leaves it.
   */
  ghost predicate IsPriority(positions: seq<PssmPos>, priority: seq<nat>)
  {
    && NonEmptyPositions(positions)
    && InRange(priority, |positions|)
    && multiset(priority) == multiset(Iota(|positions|))
    && forall p, q :: 0 <= p < q < |priority| ==>
         Range(positions[priority[p]].weights) >= Range(positions[priority[q]].weights)
  }

  /** Sum of the best weights of the positions visited at steps `from` and later. */
  function RemainingBest(positions: seq<PssmPos>, priority: seq<nat>, from: nat): real
    requires NonEmptyPositions(positions) && InRange(priority, |positions|)
    decreases |priority| - from
  {
    if from >= |priority| then 0.0
    else BestWeight(positions[priority[from]].weights) + RemainingBest(positions, priority, from + 1)
  }

  /** The matrix tables a scan reads. */
  datatype Matrix = Matrix(key: seq<char>, positions: seq<PssmPos>, priority: seq<nat>, bestCases: seq<real>)
  {
    function Length(): nat
    {
      |positions|
    }

    /** One weight per key letter at every position, and one priority entry and bound per step. */
    predicate Shaped()
    {
      && |priority| == |positions|
      && |bestCases| == |positions|
      && InRange(priority, |positions|)
      && (forall i :: 0 <= i < |positions| ==> |positions[i].weights| == |key| > 0)
    }

    /** The state `set_priority_and_best_cases` establishes. */
    ghost predicate Valid()
    {
      && Shaped()
      && IsPriority(positions, priority)
      && forall p :: 0 <= p < |bestCases| ==> bestCases[p] == RemainingBest(positions, priority, p + 1)
    }

    function Score(i: nat, c: char): real
      requires Shaped() && i < |positions|
    {
      WeightFor(key, positions[i], c)
    }

    function Best(i: nat): real
      requires Shaped() && i < |positions|
    {
      BestWeight(positions[i].weights)
    }
  }

  /** The range of a position is its worst minus its best weight, never negative. */
  lemma RangeIsSpread(ws: seq<real>)
    requires |ws| > 0
    ensures BestWeight(ws) <= WorstWeight(ws)
    ensures Range(ws) == WorstWeight(ws) - BestWeight(ws) >= 0.0
  {
    assert BestWeight(ws) <= ws[0] <= WorstWeight(ws);
  }

  /** After `scale(-1)` the best weight is minus the old worst weight, and the reverse. */
  lemma NegatedBestWorst(ws: seq<real>)
    requires |ws| > 0
    ensures BestWeight(Scaled(ws, -1.0)) == -WorstWeight(ws)
    ensures WorstWeight(Scaled(ws, -1.0)) == -BestWeight(ws)
    ensures Range(Scaled(ws, -1.0)) == Range(ws)
  {
    var ns := Scaled(ws, -1.0);
    var b, w := BestWeight(ns), WorstWeight(ws);
    var kb :| 0 <= kb < |ns| && ns[kb] == b;
    var kw :| 0 <= kw < |ws| && ws[kw] == w;
    assert ns[kw] == -w && b <= ns[kw];
    assert ws[kb] == -b && ws[kb] <= w;
    var b', w' := BestWeight(ws), WorstWeight(ns);
    var jb :| 0 <= jb < |ws| && ws[jb] == b';
    var jw :| 0 <= jw < |ns| && ns[jw] == w';
    assert ns[jb] == -b' && ns[jb] <= w';
    assert ws[jw] == -w' && b' <= ws[jw];
    RangeIsSpread(ws);
    RangeIsSpread(ns);
  }

  /** `PssmPos::scale`: multiplies every weight in place by `factor`. */
  method Scale(pos: PssmPos, factor: real) returns (r: PssmPos)
    ensures r.siteindex == pos.siteindex
    ensures r.weights == Scaled(pos.weights, factor)
  {
    var ws := pos.weights;
    var i := 0;
    while i < |ws|
      invariant 0 <= i <= |ws| == |pos.weights|
      invariant forall k :: 0 <= k < i ==> ws[k] == pos.weights[k] * factor
      invariant forall k :: i <= k < |ws| ==> ws[k] == pos.weights[k]
    {
      ws := ws[i := ws[i] * factor];
      i := i + 1;
    }
    assert forall k :: 0 <= k < |ws| ==> ws[k] == Scaled(pos.weights, factor)[k];
    r := PssmPos(pos.siteindex, ws);
  }

  /** Ranges never increase along `order`. */
  predicate Descending(ranges: seq<real>, order: seq<nat>)
    requires InRange(order, |ranges|)
  {
    forall a, b :: 0 <= a < b < |order| ==> ranges[order[a]] >= ranges[order[b]]
  }

  /** Inserting at the first entry ranked strictly below `x` keeps a non-increasing order. */
  lemma InsertKeepsDescending(ranges: seq<real>, order: seq<nat>, k: nat, x: nat)
    requires InRange(order, |ranges|) && x < |ranges| && k <= |order|
    requires Descending(ranges, order)
    requires forall a :: 0 <= a < k ==> ranges[order[a]] >= ranges[x]
    requires k < |order| ==> ranges[order[k]] < ranges[x]
    ensures InRange(order[..k] + [x] + order[k..], |ranges|)
    ensures Descending(ranges, order[..k] + [x] + order[k..])
  {
    var o := order[..k] + [x] + order[k..];
    forall a, b | 0 <= a < b < |o|
      ensures o[a] < |ranges| && o[b] < |ranges| && ranges[o[a]] >= ranges[o[b]]
    {
      if b < k {
        assert o[a] == order[a] && o[b] == order[b];
      } else if b == k {
        assert o[a] == order[a] && o[b] == x;
      } else if a < k {
        assert o[a] == order[a] && o[b] == order[b - 1];
      } else if a == k {
        assert o[a] == x && o[b] == order[b - 1];
        assert ranges[order[b - 1]] <= ranges[order[k]];
      } else {
        assert o[a] == order[a - 1] && o[b] == order[b - 1];
      }
    }
    forall p | 0 <= p < |o|
      ensures o[p] < |ranges|
    {
      if p < k {
        assert o[p] == order[p];
      } else if p > k {
        assert o[p] == order[p - 1];
      }
    }
  }

  /** Inserting index `n` into a permutation of 0 .. n-1 gives a permutation of 0 .. n. */
  lemma InsertExtendsIota(order: seq<nat>, k: nat, n: nat)
    requires k <= |order| && InRange(order, n) && multiset(order) == multiset(Iota(n))
    ensures InRange(order[..k] + [n] + order[k..], n + 1)
    ensures multiset(order[..k] + [n] + order[k..]) == multiset(Iota(n + 1))
  {
    assert order == order[..k] + order[k..];
    assert Iota(n + 1) == Iota(n) + [n];
    var o := order[..k] + [n] + order[k..];
    forall p | 0 <= p < |o|
      ensures o[p] < n + 1
    {
      if p < k {
        assert o[p] == order[p];
      } else if p > k {
        assert o[p] == order[p - 1];
      }
    }
  }

  /** Where `x` goes in a descending order: after every entry ranked at least as high. */
  method FindRank(ranges: seq<real>, order: seq<nat>, x: nat) returns (k: nat)
    requires InRange(order, |ranges|) && x < |ranges| && Descending(ranges, order)
    ensures k <= |order|
    ensures forall a :: 0 <= a < k ==> ranges[order[a]] >= ranges[x]
    ensures k < |order| ==> ranges[order[k]] < ranges[x]
  {
    k := 0;
    while k < |order| && ranges[order[k]] >= ranges[x]
      invariant 0 <= k <= |order|
      invariant forall a :: 0 <= a < k ==> ranges[order[a]] >= ranges[x]
    {
      k := k + 1;
    }
  }

  /**
   * The std::sort of `set_priority_and_best_cases` under `secondfloatdesc`: the
   * indices 0 .. |ranges|-1, largest range first (ties in index order here; the
   * source leaves them open).
   */
  method SortByRange(ranges: seq<real>) returns (order: seq<nat>)
    ensures InRange(order, |ranges|) && |order| == |ranges|
    ensures multiset(order) == multiset(Iota(|ranges|))
    ensures forall a, b :: 0 <= a < b < |order| ==>
              !SecondFloatDesc((order[b], ranges[order[b]]), (order[a], ranges[order[a]]))
  {
    order := [];
    var i := 0;
    while i < |ranges|
      invariant 0 <= i <= |ranges| && |order| == i
      invariant InRange(order, i) && InRange(order, |ranges|)
      invariant multiset(order) == multiset(Iota(i))
      invariant Descending(ranges, order)
    {
      order := PlaceNext(ranges, order, i);
      i := i + 1;
    }
    DescendingHasNoInversion(ranges, order);
  }

  /** One insertion step: index `i` joins a descending permutation of 0 .. i-1. */
  method PlaceNext(ranges: seq<real>, order: seq<nat>, i: nat) returns (next: seq<nat>)
    requires i < |ranges| && |order| == i
    requires InRange(order, i) && InRange(order, |ranges|)
    requires multiset(order) == multiset(Iota(i))
    requires Descending(ranges, order)
    ensures |next| == i + 1
    ensures InRange(next, i + 1) && InRange(next, |ranges|)
    ensures multiset(next) == multiset(Iota(i + 1))
    ensures Descending(ranges, next)
  {
    var k := FindRank(ranges, order, i);
    next := order[..k] + [i] + order[k..];
    InsertKeepsDescending(ranges, order, k, i);
    InsertExtendsIota(order, k, i);
  }

  /** An order of the positions with no range inversion is a priority order. */
  lemma RankedIsPriority(positions: seq<PssmPos>, ranges: seq<real>, order: seq<nat>)
    requires NonEmptyPositions(positions) && |ranges| == |positions|
    requires forall k :: 0 <= k < |ranges| ==> ranges[k] == Range(positions[k].weights)
    requires InRange(order, |ranges|) && multiset(order) == multiset(Iota(|ranges|))
    requires forall a, b :: 0 <= a < b < |order| ==>
               !SecondFloatDesc((order[b], ranges[order[b]]), (order[a], ranges[order[a]]))
    ensures IsPriority(positions, order)
  {
    forall a, b | 0 <= a < b < |order|
      ensures Range(positions[order[a]].weights) >= Range(positions[order[b]].weights)
    {
      assert !SecondFloatDesc((order[b], ranges[order[b]]), (order[a], ranges[order[a]]));
    }
  }

  lemma DescendingHasNoInversion(ranges: seq<real>, order: seq<nat>)
    requires InRange(order, |ranges|) && Descending(ranges, order)
    ensures forall a, b :: 0 <= a < b < |order| ==>
              !SecondFloatDesc((order[b], ranges[order[b]]), (order[a], ranges[order[a]]))
  {
  }

  /** The weights of one target letter: -1 for each key base the code stands for, 0 otherwise. */
  function TargetPosition(c: char): (pos: PssmPos)
    ensures pos.siteindex == 0 && |pos.weights| == |Nucleotides|
    ensures forall k :: 0 <= k < |Nucleotides| ==>
              pos.weights[k] == if Nucleotides[k] in Degen(c) then -1.0 else 0.0
  {
    PssmPos(0, seq(|Nucleotides|, k requires 0 <= k < |Nucleotides| =>
                     if Nucleotides[k] in Degen(c) then -1.0 else 0.0))
  }

  /** A purine target letter weighs A and G: "R" gives -1, 0, -1, 0. */
  lemma TargetPositionOfR()
    ensures TargetPosition('R').weights == [-1.0, 0.0, -1.0, 0.0]
  {
    assert Degen('R') == "AG";
    var ws := TargetPosition('R').weights;
    assert ws[0] == -1.0 && ws[1] == 0.0 && ws[2] == -1.0 && ws[3] == 0.0;
  }

  /**
   * Scoring a base against a target position: -1 exactly when the target
   * letter stands for that base; the best weight is -1 for an ambiguity code
   * and 0 for any other letter.
   */
  lemma TargetScores(c: char, b: char)
    requires b in Bases
    ensures WeightFor(Nucleotides, TargetPosition(c), b) == if b in Degen(c) then -1.0 else 0.0
    ensures BestWeight(TargetPosition(c).weights) == if c in Codes then -1.0 else 0.0
  {
    var ws := TargetPosition(c).weights;
    var k := NucIndex(b);
    assert Nucleotides[k] == b;
    assert KeyIndex(Nucleotides, b) == k;
    if c in Codes {
      var d := Degen(c)[0];
      assert d in Bases && Nucleotides[NucIndex(d)] == d;
      assert ws[NucIndex(d)] == -1.0;
    } else {
      assert forall j :: 0 <= j < |ws| ==> ws[j] == 0.0;
    }
  }

  /** The weights of an inverted matrix (`scale(-1)` on every position). */
  function Inverted(positions: seq<PssmPos>): (r: seq<PssmPos>)
    ensures |r| == |positions|
    ensures forall i :: 0 <= i < |positions| ==>
              r[i] == PssmPos(positions[i].siteindex, Scaled(positions[i].weights, -1.0))
  {
    seq(|positions|, i requires 0 <= i < |positions| =>
          PssmPos(positions[i].siteindex, Scaled(positions[i].weights, -1.0)))
  }

  /** Every position carries exactly one weight per key letter, and the key is then non-empty. */
  predicate FitsKey(key: seq<char>, positions: seq<PssmPos>)
  {
    forall i :: 0 <= i < |positions| ==> |positions[i].weights| == |key| > 0
  }

  /** Inverting keeps one weight per key letter at every position. */
  lemma InvertedFitsKey(key: seq<char>, positions: seq<PssmPos>)
    requires FitsKey(key, positions)
    ensures FitsKey(key, Inverted(positions))
  {
    forall i | 0 <= i < |positions|
      ensures |Inverted(positions)[i].weights| == |key|
    {
      assert Inverted(positions)[i].weights == Scaled(positions[i].weights, -1.0);
    }
  }

  /** One line of a matrix file: its text, and the site index and weights its numbers parse to. */
  datatype PssmLine = PssmLine(text: string, siteindex: int, weights: seq<real>)

  /** Why `readfile` gives up on a matrix file. */
  datatype ReadError =
    | BadKeyLetter                    // `upper` rejects a key letter
    | TooManyWeights(siteindex: int)  // more weights than key letters
    | TooFewWeights(siteindex: int)   // fewer weights than key letters
    | KeyAfterPositions               // key letters after the first position
    | EmptyPosition(siteindex: int)   // a position with no weights and no key

  predicate IsComment(text: string)
  {
    |text| > 0 && text[0] == '#'
  }

  /** A line whose first three characters are `key` or `KEY`. */
  predicate IsKeyLine(text: string)
  {
    |text| >= 3 && (text[..3] == "key" || text[..3] == "KEY")
  }

  /** The characters a stream treats as white space. */
  predicate IsSpace(c: char)
  {
    c == ' ' || '\t' <= c <= '\r'
  }

  function SkipSpace(s: string): (r: string)
    ensures |r| <= |s|
  {
    if s != [] && IsSpace(s[0]) then SkipSpace(s[1..]) else s
  }

  function SkipToken(s: string): (r: string)
    ensures |r| <= |s|
  {
    if s != [] && !IsSpace(s[0]) then SkipToken(s[1..]) else s
  }

  /** The non-space characters of `s`, in order: what repeated `>> letter` extracts. */
  function NonSpace(s: string): (r: string)
    ensures |r| <= |s|
    ensures forall k :: 0 <= k < |r| ==> !IsSpace(r[k])
  {
    if s == [] then []
    else if IsSpace(s[0]) then NonSpace(s[1..])
    else [s[0]] + NonSpace(s[1..])
  }

  /** `parse_key`'s letters: every non-space character after the first word. */
  function KeyLetters(text: string): string
  {
    NonSpace(SkipToken(SkipSpace(text)))
  }

  /**
   * `readfile` over the lines of a file, from the key and positions read so
   * far: comment lines are skipped, key lines extend the key with upper-cased
   * letters, and every other line becomes a position that must carry exactly
   * one weight per key letter.
   */
  function ReadLines(lines: seq<PssmLine>, key: seq<char>, positions: seq<PssmPos>)
    : Result<(seq<char>, seq<PssmPos>), ReadError>
  {
    if lines == [] then Success((key, positions))
    else
      var line := lines[0];
      if IsComment(line.text) then ReadLines(lines[1..], key, positions)
      else if IsKeyLine(line.text) then
        var letters := KeyLetters(line.text);
        if !AllIn(letters, UpperDomain) then Failure(BadKeyLetter)
        else if positions != [] && letters != [] then Failure(KeyAfterPositions)
        else ReadLines(lines[1..], key + UpperAll(letters), positions)
      else if |line.weights| > |key| then Failure(TooManyWeights(line.siteindex))
      else if |line.weights| < |key| then Failure(TooFewWeights(line.siteindex))
      else if line.weights == [] then Failure(EmptyPosition(line.siteindex))
      else ReadLines(lines[1..], key, positions + [PssmPos(line.siteindex, line.weights)])
  }

  /** The lines that are neither comments nor key lines, as positions. */
  function PositionsOf(lines: seq<PssmLine>): seq<PssmPos>
  {
    if lines == [] then []
    else if IsComment(lines[0].text) || IsKeyLine(lines[0].text) then PositionsOf(lines[1..])
    else [PssmPos(lines[0].siteindex, lines[0].weights)] + PositionsOf(lines[1..])
  }

  /** The upper-cased letters of every well-formed key line, in file order. */
  function KeyOf(lines: seq<PssmLine>): string
  {
    if lines == [] then []
    else if !IsComment(lines[0].text) && IsKeyLine(lines[0].text) && AllIn(KeyLetters(lines[0].text), UpperDomain)
    then UpperAll(KeyLetters(lines[0].text)) + KeyOf(lines[1..])
    else KeyOf(lines[1..])
  }

  /** Every key line has only letters `upper` accepts. */
  predicate KeyLinesWellFormed(lines: seq<PssmLine>)
  {
    forall k :: 0 <= k < |lines| && !IsComment(lines[k].text) && IsKeyLine(lines[k].text) ==>
      AllIn(KeyLetters(lines[k].text), UpperDomain)
  }

  /** The file without its comment lines. */
  function Uncommented(lines: seq<PssmLine>): (r: seq<PssmLine>)
    ensures forall k :: 0 <= k < |r| ==> !IsComment(r[k].text)
  {
    if lines == [] then []
    else if IsComment(lines[0].text) then Uncommented(lines[1..])
    else [lines[0]] + Uncommented(lines[1..])
  }

  lemma UpperAllAppend(a: seq<char>, b: seq<char>)
    requires AllIn(a, UpperDomain) && AllIn(b, UpperDomain)
    ensures AllIn(a + b, UpperDomain)
    ensures UpperAll(a + b) == UpperAll(a) + UpperAll(b)
  {
    assert forall k :: 0 <= k < |a + b| ==> (a + b)[k] == if k < |a| then a[k] else b[k - |a|];
  }

  /** An accepted file gives every position exactly one weight per key letter. */
  lemma {:induction false} ReadLinesFitsKey(lines: seq<PssmLine>, key: seq<char>, positions: seq<PssmPos>)
    requires FitsKey(key, positions)
    ensures ReadLines(lines, key, positions).Success? ==>
              var (k, ps) := ReadLines(lines, key, positions).value;
              FitsKey(k, ps) && |ps| >= |positions| && ps[..|positions|] == positions
  {
    if lines != [] {
      var line := lines[0];
      if IsComment(line.text) {
        ReadLinesFitsKey(lines[1..], key, positions);
      } else if IsKeyLine(line.text) {
        var letters := KeyLetters(line.text);
        if AllIn(letters, UpperDomain) && (positions == [] || letters == []) {
          ReadLinesFitsKey(lines[1..], key + UpperAll(letters), positions);
        }
      } else if |line.weights| == |key| && line.weights != [] {
        var next := positions + [PssmPos(line.siteindex, line.weights)];
        ReadLinesFitsKey(lines[1..], key, next);
        if ReadLines(lines, key, positions).Success? {
          var (k, ps) := ReadLines(lines, key, positions).value;
          assert ps[..|next|] == next;
          assert ps[..|positions|] == next[..|positions|];
        }
      }
    }
  }

  /**
   * What an accepted file yields: the upper-cased letters of its key lines
   * after `key`, and its other lines in order after `positions`.
   */
  ghost predicate Collects(lines: seq<PssmLine>, key: seq<char>, positions: seq<PssmPos>)
  {
    ReadLines(lines, key, positions).Success? ==>
      ReadLines(lines, key, positions).value == (key + KeyOf(lines), positions + PositionsOf(lines))
  }

  /**
   * An accepted file's key is the upper-cased letters of its key lines, and its
   * positions are its other lines in order.
   */
  lemma {:induction false} ReadLinesCollects(lines: seq<PssmLine>, key: seq<char>, positions: seq<PssmPos>)
    ensures ReadLines(lines, key, positions).Success? ==>
              ReadLines(lines, key, positions).value == (key + KeyOf(lines), positions + PositionsOf(lines))
  {
    if lines == [] {
      assert key + [] == key && positions + [] == positions;
    } else {
      var line := lines[0];
      var rest := lines[1..];
      if IsComment(line.text) {
        ReadLinesCollects(rest, key, positions);
      } else if IsKeyLine(line.text) {
        var letters := KeyLetters(line.text);
        if AllIn(letters, UpperDomain) && (positions == [] || letters == []) {
          ReadLinesCollects(rest, key + UpperAll(letters), positions);
          KeyLineCollects(lines, key, positions);
        }
      } else if |line.weights| == |key| && line.weights != [] {
        var pos := PssmPos(line.siteindex, line.weights);
        ReadLinesCollects(rest, key, positions + [pos]);
        PositionLineCollects(lines, key, positions);
      }
    }
  }

  /** The inductive step of `ReadLinesCollects` at an accepted key line. */
  lemma KeyLineCollects(lines: seq<PssmLine>, key: seq<char>, positions: seq<PssmPos>)
    requires lines != [] && !IsComment(lines[0].text) && IsKeyLine(lines[0].text)
    requires AllIn(KeyLetters(lines[0].text), UpperDomain)
    requires positions == [] || KeyLetters(lines[0].text) == []
    requires Collects(lines[1..], key + UpperAll(KeyLetters(lines[0].text)), positions)
    ensures Collects(lines, key, positions)
  {
    var grown := key + UpperAll(KeyLetters(lines[0].text));
    var rest := lines[1..];
    assert ReadLines(lines, key, positions) == ReadLines(rest, grown, positions);
    assert KeyOf(lines) == UpperAll(KeyLetters(lines[0].text)) + KeyOf(rest);
    assert PositionsOf(lines) == PositionsOf(rest);
    assert grown + KeyOf(rest) == key + KeyOf(lines);
  }

  /** The inductive step of `ReadLinesCollects` at an accepted position line. */
  lemma PositionLineCollects(lines: seq<PssmLine>, key: seq<char>, positions: seq<PssmPos>)
    requires lines != [] && !IsComment(lines[0].text) && !IsKeyLine(lines[0].text)
    requires |lines[0].weights| == |key| && lines[0].weights != []
    requires Collects(lines[1..], key, positions + [PssmPos(lines[0].siteindex, lines[0].weights)])
    ensures Collects(lines, key, positions)
  {
    var pos := PssmPos(lines[0].siteindex, lines[0].weights);
    var rest := lines[1..];
    assert ReadLines(lines, key, positions) == ReadLines(rest, key, positions + [pos]);
    assert KeyOf(lines) == KeyOf(rest);
    assert PositionsOf(lines) == [pos] + PositionsOf(rest);
    assert positions + [pos] + PositionsOf(rest) == positions + PositionsOf(lines);
  }

  /** A file is rejected when any key line holds a letter `upper` does not accept. */
  lemma {:induction false} AcceptedKeyLinesWellFormed(lines: seq<PssmLine>, key: seq<char>, positions: seq<PssmPos>)
    ensures ReadLines(lines, key, positions).Success? ==> KeyLinesWellFormed(lines)
  {
    if lines != [] {
      var line := lines[0];
      var rest := lines[1..];
      if IsComment(line.text) {
        AcceptedKeyLinesWellFormed(rest, key, positions);
      } else if IsKeyLine(line.text) {
        var letters := KeyLetters(line.text);
        if AllIn(letters, UpperDomain) && (positions == [] || letters == []) {
          AcceptedKeyLinesWellFormed(rest, key + UpperAll(letters), positions);
        }
      } else if |line.weights| == |key| && line.weights != [] {
        AcceptedKeyLinesWellFormed(rest, key, positions + [PssmPos(line.siteindex, line.weights)]);
      }
      if ReadLines(lines, key, positions).Success? {
        forall k | 0 <= k < |lines| && !IsComment(lines[k].text) && IsKeyLine(lines[k].text)
          ensures AllIn(KeyLetters(lines[k].text), UpperDomain)
        {
          if k > 0 {
            assert lines[k] == rest[k - 1];
          }
        }
      }
    }
  }

  /** Comment lines may be dropped, wherever they are, without changing what is read. */
  lemma {:induction false} CommentsIgnored(lines: seq<PssmLine>, key: seq<char>, positions: seq<PssmPos>)
    ensures ReadLines(Uncommented(lines), key, positions) == ReadLines(lines, key, positions)
  {
    if lines != [] {
      var line := lines[0];
      if IsComment(line.text) {
        CommentsIgnored(lines[1..], key, positions);
      } else {
        var u := Uncommented(lines);
        assert u[0] == line && u[1..] == Uncommented(lines[1..]);
        if IsKeyLine(line.text) {
          var letters := KeyLetters(line.text);
          if AllIn(letters, UpperDomain) {
            CommentsIgnored(lines[1..], key + UpperAll(letters), positions);
          }
        } else {
          CommentsIgnored(lines[1..], key, positions + [PssmPos(line.siteindex, line.weights)]);
        }
      }
    }
  }

  /** The PSSM object: a matrix filled by one of the two `setup`s. */
  class PSSM {
    var priority: seq<nat>
    var key: seq<char>
    var positions: seq<PssmPos>
    var length: nat
    var bestCases: seq<real>

    /** `PSSM()`: empty, of length 0. */
    constructor ()
      ensures priority == [] && key == [] && positions == [] && length == 0 && bestCases == []
      ensures Valid()
    {
      priority := [];
      key := [];
      positions := [];
      length := 0;
      bestCases := [];
    }

    /** The tables as a value. */
    function Model(): Matrix
      reads this
    {
      Matrix(key, positions, priority, bestCases)
    }

    /** What a finished setup leaves: `length` counts the positions, and the tables are consistent. */
    ghost predicate Valid()
      reads this
    {
      length == |positions| && Model().Valid()
    }

    /** `priority(p)`: the position scored at step `p`. */
    function Priority(p: nat): (i: nat)
      reads this
      requires Model().Shaped() && length == |positions| && p < length
      ensures i < length && i == Model().priority[p]
    {
      priority[p]
    }

    /** `bestcase(p)`: the best score the steps after `p` can still add. */
    function BestCase(p: nat): (b: real)
      reads this
      requires Model().Shaped() && length == |positions| && p < length
      ensures b == Model().bestCases[p]
      ensures Valid() ==> b == RemainingBest(positions, priority, p + 1)
      ensures Valid() && p == length - 1 ==> b == 0.0
      ensures Valid() && p + 1 < length ==> b == Model().bestCases[p + 1] + BestWeight(positions[priority[p + 1]].weights)
    {
      bestCases[p]
    }

    /** `bestweight(i)`: the smallest weight at position `i`. */
    method BestWeightAt(i: nat) returns (b: real)
      requires Model().Shaped() && i < |positions|
      ensures b == Model().Best(i)
      ensures forall k :: 0 <= k < |key| ==> b <= positions[i].weights[k]
    {
      b := positions[i].ScanBest();
    }

    /** `score(i, letter)`: the weight of the first key entry equal to `letter`, or 0 when none is. */
    method Score(i: nat, letter: char) returns (r: real)
      requires Model().Shaped() && i < |positions|
      ensures r == Model().Score(i, letter)
    {
      var k := 0;
      while k < |key|
        invariant 0 <= k <= |key|
        invariant forall j :: 0 <= j < k ==> key[j] != letter
      {
        if letter == key[k] {
          return positions[i].weights[k];
        }
        k := k + 1;
      }
      r := 0.0;
    }

    /**
     * `set_priority_and_best_cases`: ranks the positions by weight range and
     * fills `bestCases[p]` with the sum of the best weights of the positions
     * ranked after step `p`.
     */
    method SetPriorityAndBestCases()
      requires NonEmptyPositions(positions)
      modifies this
      ensures key == old(key) && positions == old(positions) && length == old(length)
      ensures IsPriority(positions, priority) && |priority| == |positions|
      ensures |bestCases| == |positions|
      ensures forall p :: 0 <= p < |bestCases| ==> bestCases[p] == RemainingBest(positions, priority, p + 1)
    {
      var ranges := Ranges();
      var order := SortByRange(ranges);
      RankedIsPriority(positions, ranges, order);
      var bc := BestCasesFor(order);
      priority := order;
      bestCases := bc;
    }

    /** The weight range of every position, in position order. */
    method Ranges() returns (ranges: seq<real>)
      requires NonEmptyPositions(positions)
      ensures |ranges| == |positions|
      ensures forall k :: 0 <= k < |ranges| ==> ranges[k] == Range(positions[k].weights)
    {
      var numpos := |positions|;
      ranges := [];
      var i := 0;
      while i < numpos
        invariant 0 <= i <= numpos == |positions| && |ranges| == i
        invariant forall k :: 0 <= k < i ==> ranges[k] == Range(positions[k].weights)
      {
        var b := positions[i].ScanBest();
        var w := positions[i].ScanWorst();
        var d := b - w;
        ranges := ranges + [if d < 0.0 then -d else d];
        i := i + 1;
      }
    }

    /**
     * The best cases under the ranking `order`: for each step, the best
     * weights of the positions ranked after it, summed.
     */
    method BestCasesFor(order: seq<nat>) returns (bc: seq<real>)
      requires NonEmptyPositions(positions) && InRange(order, |positions|) && |order| == |positions|
      ensures |bc| == |positions|
      ensures forall p :: 0 <= p < |bc| ==> bc[p] == RemainingBest(positions, order, p + 1)
    {
      var numpos := |positions|;
      bc := seq(numpos, _ => 0.0);
      var i := 0;
      while i < numpos
        invariant 0 <= i <= numpos && |bc| == numpos
        invariant forall p :: 0 <= p < i ==> bc[p] == RemainingBest(positions, order, p + 1)
        invariant forall p :: i <= p < numpos ==> bc[p] == 0.0
      {
        var j := i + 1;
        while j < numpos
          invariant i + 1 <= j <= numpos && |bc| == numpos
          invariant bc[i] + RemainingBest(positions, order, j) == RemainingBest(positions, order, i + 1)
          invariant forall p :: 0 <= p < i ==> bc[p] == RemainingBest(positions, order, p + 1)
          invariant forall p :: i < p < numpos ==> bc[p] == 0.0
        {
          var bw := positions[order[j]].ScanBest();
          bc := bc[i := bc[i] + bw];
          j := j + 1;
        }
        i := i + 1;
      }
    }

    /** `parse_key`: appends the upper-cased letters that follow the first word of a key line. */
    method ParseKey(line: string)
      requires AllIn(KeyLetters(line), UpperDomain)
      modifies this
      ensures key == old(key) + UpperAll(KeyLetters(line))
      ensures positions == old(positions) && length == old(length)
      ensures priority == old(priority) && bestCases == old(bestCases)
    {
      var letters := KeyLetters(line);
      var k := 0;
      while k < |letters|
        invariant 0 <= k <= |letters|
        invariant key == old(key) + UpperAll(letters[..k])
        invariant positions == old(positions) && length == old(length)
        invariant priority == old(priority) && bestCases == old(bestCases)
      {
        assert letters[..k + 1] == letters[..k] + [letters[k]];
        UpperAllAppend(letters[..k], [letters[k]]);
        key := key + [Upper(letters[k])];
        k := k + 1;
      }
      assert letters[..k] == letters;
    }

    /**
     * The weights of one position line: each weight is added while the
     * position holds fewer weights than the key has letters.
     */
    method ReadPosition(line: PssmLine) returns (pos: PssmPos, err: Option<ReadError>)
      ensures err.None? <==> |line.weights| <= |key|
      ensures err.Some? ==> err == Some(TooManyWeights(line.siteindex))
      ensures err.None? ==> pos == PssmPos(line.siteindex, line.weights)
    {
      pos := PssmPos(line.siteindex, []);
      var j := 0;
      while j < |line.weights|
        invariant 0 <= j <= |line.weights| && j <= |key|
        invariant pos == PssmPos(line.siteindex, line.weights[..j])
      {
        if |pos.weights| == |key| {
          return pos, Some(TooManyWeights(line.siteindex));
        }
        assert line.weights[..j + 1] == line.weights[..j] + [line.weights[j]];
        pos := pos.AddWeight(line.weights[j]);
        j := j + 1;
      }
      assert line.weights[..j] == line.weights;
      return pos, None;
    }

    /**
     * `setup(filename, invert)` over the lines of the file: reads the key and
     * the positions, negates every weight when `invert` is set, and ranks the
     * positions.
     */
    method ReadFile(lines: seq<PssmLine>, invert: bool) returns (err: Option<ReadError>)
      requires key == [] && positions == []
      modifies this
      ensures var r := ReadLines(lines, [], []);
              if r.Failure? then err == Some(r.error)
              else
                && err == None
                && key == r.value.0
                && positions == (if invert then Inverted(r.value.1) else r.value.1)
                && length == |positions|
                && Valid()
    {
      err := None;
      var i := 0;
      while i < |lines|
        invariant 0 <= i <= |lines|
        invariant ReadLines(lines, [], []) == ReadLines(lines[i..], key, positions)
      {
        assert lines[i..][1..] == lines[i + 1..];
        var e := ReadLine(lines[i], lines[i..]);
        if e.Some? {
          return e;
        }
        i := i + 1;
      }
      assert lines[i..] == [];
      ReadLinesFitsKey(lines, [], []);
      Prepare(invert);
    }

    /**
     * The end of `readfile`: record the length, negate every weight when
     * `invert` is set, then rank the positions and fill in their best cases.
     */
    method Prepare(invert: bool)
      requires FitsKey(key, positions)
      modifies this
      ensures key == old(key)
      ensures positions == if invert then Inverted(old(positions)) else old(positions)
      ensures length == |positions| && Valid()
    {
      length := |positions|;
      if invert {
        InvertedFitsKey(key, positions);
        Invert();
      }
      ghost var fitted := positions;
      assert FitsKey(key, fitted);
      ghost var k0 := key;
      SetPriorityAndBestCases();
      ghost var model := Model();
      assert model.key == k0 && model.positions == fitted && InRange(model.priority, |fitted|);
      assert FitsKey(model.key, model.positions);
      assert model.Shaped();
    }

    /**
     * One line of `readfile`: a comment is skipped, a key line extends the
     * key, any other line is appended as a position; `todo` is the line and
     * the lines after it.
     */
    method ReadLine(line: PssmLine, ghost todo: seq<PssmLine>) returns (err: Option<ReadError>)
      requires todo != [] && todo[0] == line
      modifies this
      ensures length == old(length)
      ensures err.Some? ==> ReadLines(todo, old(key), old(positions)) == Failure(err.value)
      ensures err.None? ==> ReadLines(todo, old(key), old(positions)) == ReadLines(todo[1..], key, positions)
    {
      err := None;
      if IsComment(line.text) {
      } else if IsKeyLine(line.text) {
        if !AllIn(KeyLetters(line.text), UpperDomain) {
          return Some(BadKeyLetter);
        }
        if positions != [] && KeyLetters(line.text) != [] {
          return Some(KeyAfterPositions);
        }
        ParseKey(line.text);
      } else {
        var pos, e := ReadPosition(line);
        if e.Some? {
          return e;
        }
        if |pos.weights| < |key| {
          return Some(TooFewWeights(line.siteindex));
        }
        if pos.weights == [] {
          return Some(EmptyPosition(line.siteindex));
        }
        positions := positions + [pos];
      }
    }

    /** The `invert` step of `setup(filename, invert)`: `scale(-1)` on every position. */
    method Invert()
      modifies this`positions
      ensures positions == Inverted(old(positions))
    {
      var read := positions;
      var k := 0;
      while k < |positions|
        invariant 0 <= k <= |positions| == |read|
        invariant forall j :: 0 <= j < k ==> positions[j] == Inverted(read)[j]
        invariant forall j :: k <= j < |read| ==> positions[j] == read[j]
      {
        var scaled := Scale(positions[k], -1.0);
        positions := positions[k := scaled];
        k := k + 1;
      }
    }

    /**
     * `setup(target)`: key A, C, G, T and one position per target letter that
     * weighs -1 each base the letter stands for and 0 the others; the site
     * index stays 0 throughout.
     */
    method SetupTarget(target: string)
      requires key == [] && positions == []
      modifies this
      ensures key == Nucleotides && length == |target|
      ensures positions == seq(|target|, i requires 0 <= i < |target| => TargetPosition(target[i]))
      ensures Valid()
    {
      var nucs := Nucleotides;
      var n := 0;
      while n < |nucs|
        invariant 0 <= n <= |nucs| && key == nucs[..n] && positions == []
      {
        key := key + [nucs[n]];
        n := n + 1;
      }
      var t := 0;
      while t < |target|
        invariant 0 <= t <= |target| && key == Nucleotides
        invariant positions == seq(t, i requires 0 <= i < t => TargetPosition(target[i]))
      {
        var pos := DegenPosition(target[t]);
        positions := positions + [pos];
        t := t + 1;
      }
      length := |positions|;
      SetPriorityAndBestCases();
    }

    /** The innermost loop of `setup(target)`: -1 when `letter` is among `deg`, 0 otherwise. */
    static method DegenWeight(letter: char, deg: seq<char>) returns (weight: real)
      ensures weight == if letter in deg then -1.0 else 0.0
    {
      weight := 0.0;
      var b := 0;
      while b < |deg|
        invariant 0 <= b <= |deg|
        invariant weight == if letter in deg[..b] then -1.0 else 0.0
      {
        assert deg[..b + 1] == deg[..b] + [deg[b]];
        if letter == deg[b] {
          weight := -1.0;
        }
        b := b + 1;
      }
      assert deg[..b] == deg;
    }

    /** The inner loops of `setup(target)`: one weight per key letter, -1 when `degen` lists it. */
    method DegenPosition(c: char) returns (pos: PssmPos)
      requires key == Nucleotides
      ensures pos == TargetPosition(c)
    {
      ghost var target := TargetPosition(c).weights;
      pos := PssmPos(0, []);
      var deg := Degen(c);
      var k := 0;
      while k < |key|
        invariant 0 <= k <= |key| == |target|
        invariant pos.siteindex == 0 && pos.weights == target[..k]
      {
        var weight := DegenWeight(key[k], deg);
        assert weight == target[k];
        pos := pos.AddWeight(weight);
        assert target[..k + 1] == target[..k] + [weight];
        k := k + 1;
      }
      assert target[..k] == target;
    }
  }
}
