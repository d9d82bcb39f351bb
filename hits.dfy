/**
 * The bounded hit list of Hits.h / Hits.cpp.  Lower scores are better.  The
 * list is kept worst-first: the front holds the highest (worst) score, the
 * back the best; a new hit goes in front of the first entry whose score is
 * not above its own, and on overflow the front entry is dropped.
 */
module Hits {
  import opened Nucleotide

  /** One reported window: its letters, score, source header, start offset and strand. */
  datatype Hit = Hit(sequence: seq<char>, score: real, source: string, seqindex: nat, rvs: bool)

  /** Scores never increase from the front (worst) to the back (best). */
  predicate Sorted(hs: seq<Hit>)
  {
    forall i, j :: 0 <= i < j < |hs| ==> hs[i].score >= hs[j].score
  }

  /** The hit list's contents and its `full_` flag. */
  datatype HitList = HitList(hits: seq<Hit>, full: bool)

  /** The invariants of a hit list with capacity `maxhits`. */
  predicate Bounded(st: HitList, maxhits: nat)
  {
    && Sorted(st.hits)
    && |st.hits| <= maxhits
    && (st.full ==> |st.hits| == maxhits)
  }

  /** The hit `add_hit` stores: a reverse-strand window is reverse-complemented. */
  function MakeHit(hitseq: seq<char>, score: real, name: string, seqindex: nat, rvs: bool): (h: Hit)
    requires rvs ==> AllIn(hitseq, CompDomain)
    ensures |h.sequence| == |hitseq|
    ensures h.score == score && h.source == name && h.seqindex == seqindex && h.rvs == rvs
    ensures !rvs ==> h.sequence == hitseq
    ensures rvs ==> forall i :: 0 <= i < |hitseq| ==> h.sequence[i] == Comp(hitseq[|hitseq| - 1 - i])
  {
    if rvs then Hit(RevComp(hitseq), score, name, seqindex, true)
    else Hit(hitseq, score, name, seqindex, false)
  }

  /** Index of the first entry whose score is at most `score`, or the length if none is. */
  function InsertIndex(hs: seq<Hit>, score: real): (k: nat)
    ensures k <= |hs|
    ensures forall j :: 0 <= j < k ==> hs[j].score > score
    ensures k < |hs| ==> hs[k].score <= score
  {
    if hs == [] then 0
    else if score >= hs[0].score then 0
    else 1 + InsertIndex(hs[1..], score)
  }

  /** The list with `h` placed before the first entry whose score is at most its own. */
  function Insert(hs: seq<Hit>, h: Hit): (r: seq<Hit>)
    ensures |r| == |hs| + 1
  {
    if hs == [] then [h]
    else if h.score >= hs[0].score then [h] + hs
    else [hs[0]] + Insert(hs[1..], h)
  }

  /** `add_hit` on the abstract list: insert, then on overflow drop the front and set `full`. */
  function AfterAdd(st: HitList, maxhits: nat, h: Hit): HitList
  {
    var ins := Insert(st.hits, h);
    if |ins| > maxhits then HitList(ins[1..], true) else HitList(ins, st.full)
  }

  /** Insertion is a splice at `InsertIndex`, element by element. */
  lemma {:induction false} InsertAt(hs: seq<Hit>, h: Hit)
    ensures var k := InsertIndex(hs, h.score);
            var r := Insert(hs, h);
            && r[k] == h
            && (forall i :: 0 <= i < k ==> r[i] == hs[i])
            && (forall i :: k < i < |r| ==> r[i] == hs[i - 1])
  {
    if hs != [] && h.score < hs[0].score {
      InsertAt(hs[1..], h);
    }
  }

  lemma InsertSplit(hs: seq<Hit>, h: Hit)
    ensures var k := InsertIndex(hs, h.score);
            Insert(hs, h) == hs[..k] + [h] + hs[k..]
  {
    InsertAt(hs, h);
  }

  /** Insertion adds exactly the new hit. */
  lemma InsertPermutes(hs: seq<Hit>, h: Hit)
    ensures multiset(Insert(hs, h)) == multiset(hs) + multiset{h}
  {
    InsertSplit(hs, h);
    var k := InsertIndex(hs, h.score);
    var front, back := hs[..k], hs[k..];
    assert hs == front + back;
    assert multiset(hs) == multiset(front) + multiset(back);
    assert multiset(front + [h] + back) == multiset(front) + multiset{h} + multiset(back);
  }

  /**
   * Where the new hit lands: every entry before it is strictly worse, every entry
   * after it is no worse than it, so a tied newcomer sits in front of older equals.
   */
  lemma InsertPlacement(hs: seq<Hit>, h: Hit)
    requires Sorted(hs)
    ensures var k := InsertIndex(hs, h.score);
            && Insert(hs, h) == hs[..k] + [h] + hs[k..]
            && (forall j :: 0 <= j < k ==> hs[j].score > h.score)
            && (forall j :: k <= j < |hs| ==> hs[j].score <= h.score)
  {
    InsertSplit(hs, h);
  }

  lemma InsertSorted(hs: seq<Hit>, h: Hit)
    requires Sorted(hs)
    ensures Sorted(Insert(hs, h))
  {
    InsertAt(hs, h);
    var k := InsertIndex(hs, h.score);
    var r := Insert(hs, h);
    forall i, j | 0 <= i < j < |r|
      ensures r[i].score >= r[j].score
    {
      if j < k {
        assert r[i] == hs[i] && r[j] == hs[j];
      } else if j == k {
        assert r[i] == hs[i];
      } else if i < k {
        assert r[i] == hs[i] && r[j] == hs[j - 1];
      } else if i == k {
        assert r[j] == hs[j - 1];
      } else {
        assert r[i] == hs[i - 1] && r[j] == hs[j - 1];
      }
    }
  }

  /** Into an empty list, or when strictly better than the back, the hit is appended. */
  lemma AppendWhenBest(hs: seq<Hit>, h: Hit)
    requires Sorted(hs)
    requires hs == [] || h.score < hs[|hs| - 1].score
    ensures Insert(hs, h) == hs + [h]
  {
    InsertPlacement(hs, h);
    var k := InsertIndex(hs, h.score);
    assert k == |hs|;
  }

  /** The front of a sorted list holds its largest score. */
  lemma FrontIsWorst(hs: seq<Hit>)
    requires Sorted(hs) && hs != []
    ensures forall i :: 0 <= i < |hs| ==> hs[i].score <= hs[0].score
  {
  }

  /**
   * `add_hit` keeps the list sorted and within capacity, never clears `full`, and
   * with capacity 0 leaves the list empty and full.
   */
  lemma AddKeepsBounded(st: HitList, maxhits: nat, h: Hit)
    requires Bounded(st, maxhits)
    ensures Bounded(AfterAdd(st, maxhits, h), maxhits)
    ensures st.full ==> AfterAdd(st, maxhits, h).full
    ensures maxhits == 0 ==> AfterAdd(st, maxhits, h) == HitList([], true)
  {
    InsertSorted(st.hits, h);
  }

  /**
   * On overflow exactly one element goes: the front of the list after insertion,
   * whose score is at least every retained score; nothing else changes.
   */
  lemma AddEvictsOnlyWorst(st: HitList, maxhits: nat, h: Hit)
    requires Bounded(st, maxhits) && |st.hits| == maxhits
    ensures var ins := Insert(st.hits, h);
            var r := AfterAdd(st, maxhits, h);
            && r.full
            && ins == [ins[0]] + r.hits
            && multiset(r.hits) + multiset{ins[0]} == multiset(st.hits) + multiset{h}
            && (forall i :: 0 <= i < |r.hits| ==> r.hits[i].score <= ins[0].score)
  {
    AddKeepsBounded(st, maxhits, h);
    InsertSorted(st.hits, h);
    InsertPermutes(st.hits, h);
    var ins := Insert(st.hits, h);
    assert ins == [ins[0]] + ins[1..];
  }

  /** After `add_hit` every kept entry is an entry kept before, or the new hit. */
  lemma AfterAddMembers(st: HitList, maxhits: nat, h: Hit)
    ensures forall x :: x in AfterAdd(st, maxhits, h).hits ==> x in st.hits || x == h
  {
    var ins := Insert(st.hits, h);
    InsertPermutes(st.hits, h);
    forall x | x in AfterAdd(st, maxhits, h).hits
      ensures x in st.hits || x == h
    {
      assert x in ins;
      assert x in multiset(ins);
    }
  }

  /** The `HitManager` of Hits.h. */
  class HitManager {
    var hits: seq<Hit>
    var full: bool
    var maxhits: nat

    constructor ()
      ensures hits == [] && !full && maxhits == 0
      ensures Valid()
    {
      hits := [];
      full := false;
      maxhits := 0;
    }

    function State(): HitList
      reads this
    {
      HitList(hits, full)
    }

    ghost predicate Valid()
      reads this
    {
      Bounded(State(), maxhits)
    }

    /** The `full(bool)` setter. */
    method SetFull(value: bool)
      modifies this
      ensures full == value && hits == old(hits) && maxhits == old(maxhits)
    {
      full := value;
    }

    /** The `maxhits(unsigned)` setter: changes the capacity only. */
    method SetMaxhits(value: nat)
      modifies this
      ensures maxhits == value && hits == old(hits) && full == old(full)
    {
      maxhits := value;
    }

    /** `worst()`: the front entry's score, the largest one kept; only defined on a non-empty list. */
    function Worst(): (w: real)
      reads this
      requires hits != []
      ensures exists i :: 0 <= i < |hits| && hits[i].score == w
      ensures Sorted(hits) ==> forall i :: 0 <= i < |hits| ==> hits[i].score <= w
    {
      hits[0].score
    }

    /**
     * The insertion point `add_hit` finds: the back when the list is empty or the hit
     * is strictly better than the current best, otherwise the first entry whose
     * score is at most the new one.
     */
    method FindInsertion(score: real) returns (idx: nat)
      requires Sorted(hits)
      ensures idx == InsertIndex(hits, score)
    {
      idx := |hits|;
      if |hits| == 0 || score < hits[|hits| - 1].score {
        // first hit, or better than the current best
        assert InsertIndex(hits, score) == |hits|;
      } else {
        var i := 0;
        while i < |hits| && score < hits[i].score
          invariant 0 <= i <= |hits|
          invariant InsertIndex(hits, score) == i + InsertIndex(hits[i..], score)
        {
          assert hits[i..][1..] == hits[i + 1..];
          i := i + 1;
        }
        idx := i;
      }
    }

    method AddHit(score: real, hitseq: seq<char>, name: string, seqindex: nat, rvs: bool)
      requires Sorted(hits)
      requires rvs ==> AllIn(hitseq, CompDomain)
      modifies this
      ensures State() == AfterAdd(old(State()), maxhits, MakeHit(hitseq, score, name, seqindex, rvs))
      ensures maxhits == old(maxhits)
      ensures old(Valid()) ==> Valid()
    {
      ghost var before := State();
      ghost var wasValid := Valid();
      var idx := FindInsertion(score);
      var stored := if !rvs then Hit(hitseq, score, name, seqindex, false)
                    else Hit(RevComp(hitseq), score, name, seqindex, true);
      InsertSplit(hits, stored);
      hits := hits[..idx] + [stored] + hits[idx..];
      if |hits| > maxhits {
        full := true;
        hits := hits[1..];
      }
      if wasValid {
        AddKeepsBounded(before, maxhits, stored);
      }
    }
  }
}
