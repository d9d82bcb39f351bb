/**
 * The sequence buffer of Sequence.h / Sequence.cpp: a `Gene` collects the
 * nucleotide letters of its FASTA lines and is upper-cased once when
 * finalized; a `GeneList` groups the lines of a FASTA file into genes and
 * counts them.
 */
module Sequences {
  import opened Nucleotide

  /** The letters of `s` that `isnuc` admits, in order. */
  function NucFilter(s: seq<char>): (r: seq<char>)
    ensures |r| <= |s| && AllIn(r, NucLetters)
  {
    if s == [] then []
    else
      var last := s[|s| - 1];
      NucFilter(s[..|s| - 1]) + (if IsNuc(last) then [last] else [])
  }

  /** Filtering two pieces and joining them is filtering the whole. */
  lemma {:induction false} NucFilterAppend(a: seq<char>, b: seq<char>)
    ensures NucFilter(a + b) == NucFilter(a) + NucFilter(b)
    decreases |b|
  {
    if b == [] {
      assert a + b == a;
    } else {
      var b' := b[..|b| - 1];
      assert (a + b)[..|a + b| - 1] == a + b';
      NucFilterAppend(a, b');
    }
  }

  /** A line made only of nucleotide letters passes unchanged, and only such a line does. */
  lemma {:induction false} NucFilterKeepsClean(s: seq<char>)
    ensures NucFilter(s) == s <==> AllIn(s, NucLetters)
    ensures NucFilter(NucFilter(s)) == NucFilter(s)
  {
    if s != [] {
      var s' := s[..|s| - 1];
      NucFilterKeepsClean(s');
      var last := s[|s| - 1];
      IsNucUpper(last);
      assert s == s' + [last];
      if AllIn(s, NucLetters) {
        assert AllIn(s', NucLetters);
      }
      if NucFilter(s) == s {
        assert |NucFilter(s')| <= |s'|;
        assert IsNuc(last);
        assert NucFilter(s') == s';
      }
      var f := NucFilter(s');
      assert NucFilter(s) == f + (if IsNuc(last) then [last] else []);
      NucFilterAppend(f, if IsNuc(last) then [last] else []);
      assert NucFilter(f) == f;
    }
  }

  /** Upper-casing a filtered sequence leaves only A, C, G, T and N. */
  lemma UpperOfNucLetters(s: seq<char>)
    requires AllIn(s, NucLetters)
    ensures AllIn(s, UpperDomain)
    ensures AllIn(UpperAll(s), Finalized)
  {
    forall i | 0 <= i < |s|
      ensures s[i] in UpperDomain && Upper(s[i]) in Finalized
    {
      IsNucUpper(s[i]);
    }
  }

  /** `Gene::print`'s header: at most its first 15 characters. */
  function ShownHeader(header: string): (r: string)
    ensures |r| <= 15 && r <= header
    ensures |header| < 15 ==> r == header
    ensures |header| >= 15 ==> r == header[..15]
  {
    if |header| < 15 then header else header[..15]
  }

  /**
   * `Gene::print`'s sequence: a sequence of up to 40 letters in full, a
   * longer one as its first 20 letters, " ... " and its last 20.
   */
  function ShownSequence(s: seq<char>): (r: seq<char>)
    ensures |s| <= 40 ==> r == s
    ensures |s| > 40 ==> |r| == 45 && r[..20] == s[..20] && r[25..] == s[|s| - 20..]
    ensures |s| > 40 ==> r[20..25] == " ... "
    ensures |r| <= 45
  {
    if |s| <= 40 then s else s[..20] + " ... " + s[|s| - 20..]
  }

  /** The letters of each gene, in file order. */
  function Letters(genes: seq<(string, seq<char>)>): (r: seq<seq<char>>)
    ensures |r| == |genes|
    ensures forall k :: 0 <= k < |genes| ==> r[k] == genes[k].1
  {
    seq(|genes|, k requires 0 <= k < |genes| => genes[k].1)
  }

  class Gene {
    var sequence: seq<char>
    var header: string
    var finalized: bool

    /** `Gene()`. */
    constructor ()
      ensures sequence == [] && header == [] && !finalized
      ensures Valid()
    {
      sequence := [];
      header := [];
      finalized := false;
    }

    /** `Gene(hdr)`: a gene named by a header line. */
    constructor WithHeader(hdr: string)
      ensures sequence == [] && header == hdr && !finalized
      ensures Valid()
    {
      sequence := [];
      header := hdr;
      finalized := false;
    }

    /** Only letters `isnuc` admits are ever stored. */
    ghost predicate Valid()
      reads this
    {
      AllIn(sequence, NucLetters)
    }

    /**
     * `readline`: copies the nucleotide letters of a line into a scratch
     * buffer, then appends the buffer's filled part to the sequence.
     */
    method ReadLine(linebuff: seq<char>)
      modifies this
      ensures sequence == old(sequence) + NucFilter(linebuff)
      ensures |sequence| >= |old(sequence)| && sequence[..|old(sequence)|] == old(sequence)
      ensures header == old(header) && finalized == old(finalized)
      ensures old(Valid()) ==> Valid()
    {
      var clean := new char[|linebuff|];
      var nclean := 0;
      var i := 0;
      while i < |linebuff|
        invariant 0 <= nclean <= i <= |linebuff| == clean.Length
        invariant clean[..nclean] == NucFilter(linebuff[..i])
        modifies clean
      {
        var thischar := linebuff[i];
        assert linebuff[..i + 1][..i] == linebuff[..i];
        if IsNuc(thischar) {
          clean[nclean] := thischar;
          nclean := nclean + 1;
        }
        i := i + 1;
      }
      assert linebuff[..i] == linebuff;
      var added := clean[..nclean];
      assert (sequence + added)[..|sequence|] == sequence;
      sequence := sequence + added;
    }

    /** `finalize`: upper-cases every letter in place, once. */
    method Finalize()
      requires !finalized ==> AllIn(sequence, UpperDomain)
      modifies this
      ensures finalized && header == old(header)
      ensures sequence == if old(finalized) then old(sequence) else UpperAll(old(sequence))
      ensures old(Valid()) ==> Valid()
      ensures old(Valid()) && !old(finalized) ==> AllIn(sequence, Finalized)
    {
      if finalized {
        return;
      }
      ghost var before := sequence;
      var i := 0;
      while i < |sequence|
        invariant 0 <= i <= |sequence| == |before|
        invariant sequence == UpperAll(before)[..i] + before[i..]
        invariant header == old(header) && !finalized
      {
        sequence := sequence[i := Upper(sequence[i])];
        i := i + 1;
      }
      assert sequence == UpperAll(before);
      finalized := true;
      if AllIn(before, NucLetters) {
        UpperOfNucLetters(before);
        IsNucUpper('A');
        assert forall k :: 0 <= k < |sequence| ==> sequence[k] in NucLetters;
      }
    }
  }

  /** `linebuff[0] == '>'`: a FASTA header line. */
  predicate IsHeader(line: string)
  {
    |line| > 0 && line[0] == '>'
  }

  /**
   * The genes a FASTA file holds, as (header, letters) pairs: a header line
   * starts a gene named by the whole line, every later line adds its
   * nucleotide letters to the latest gene, and lines before the first
   * header are dropped.
   */
  function Group(lines: seq<string>): (r: seq<(string, seq<char>)>)
    ensures forall k :: 0 <= k < |r| ==> AllIn(r[k].1, NucLetters)
  {
    if lines == [] then [] else NextGroup(Group(lines[..|lines| - 1]), lines[|lines| - 1])
  }

  /** The grouping after one more line. */
  function NextGroup(g: seq<(string, seq<char>)>, line: string): (r: seq<(string, seq<char>)>)
    requires forall k :: 0 <= k < |g| ==> AllIn(g[k].1, NucLetters)
    ensures forall k :: 0 <= k < |r| ==> AllIn(r[k].1, NucLetters)
  {
    if IsHeader(line) then g + [(line, [])]
    else if g == [] then g
    else
      AllInAppend(g[|g| - 1].1, NucFilter(line), NucLetters);
      g[..|g| - 1] + [(g[|g| - 1].0, g[|g| - 1].1 + NucFilter(line))]
  }

  /** How one more line changes the grouping. */
  lemma GroupStep(lines: seq<string>, i: nat)
    requires i < |lines|
    ensures Group(lines[..i + 1]) == NextGroup(Group(lines[..i]), lines[i])
  {
    assert lines[..i + 1][..i] == lines[..i];
  }

  function CountHeaders(lines: seq<string>): nat
  {
    if lines == [] then 0
    else CountHeaders(lines[..|lines| - 1]) + if IsHeader(lines[|lines| - 1]) then 1 else 0
  }

  /** One gene per header line, each named by its header line. */
  lemma {:induction false} GroupCountsHeaders(lines: seq<string>)
    ensures |Group(lines)| == CountHeaders(lines)
    ensures forall k :: 0 <= k < |Group(lines)| ==> IsHeader(Group(lines)[k].0)
  {
    if lines != [] {
      GroupCountsHeaders(lines[..|lines| - 1]);
    }
  }

  /** Lines before the first header contribute nothing. */
  lemma {:induction false} LeadingLinesIgnored(pre: seq<string>, rest: seq<string>)
    requires forall k :: 0 <= k < |pre| ==> !IsHeader(pre[k])
    ensures Group(pre + rest) == Group(rest)
    decreases |rest|
  {
    if rest == [] {
      assert pre + rest == pre;
      NoHeaderNoGenes(pre);
    } else {
      var rest' := rest[..|rest| - 1];
      assert (pre + rest)[..|pre + rest| - 1] == pre + rest';
      assert (pre + rest)[|pre + rest| - 1] == rest[|rest| - 1];
      LeadingLinesIgnored(pre, rest');
    }
  }

  lemma {:induction false} NoHeaderNoGenes(lines: seq<string>)
    requires forall k :: 0 <= k < |lines| ==> !IsHeader(lines[k])
    ensures Group(lines) == []
  {
    if lines != [] {
      NoHeaderNoGenes(lines[..|lines| - 1]);
    }
  }

  /** Sum of the lengths of a list of sequences. */
  function TotalLength(seqs: seq<seq<char>>): nat
  {
    if seqs == [] then 0 else TotalLength(seqs[..|seqs| - 1]) + |seqs[|seqs| - 1]|
  }

  class GeneList {
    var genes: seq<Gene>
    var numseqs: nat
    var numbps: nat

    /** `GeneList()`: no genes, zero counts. */
    constructor ()
      ensures genes == [] && numseqs == 0 && numbps == 0
      ensures Finished()
    {
      genes := [];
      numseqs := 0;
      numbps := 0;
    }

    /** `GeneList(filename)`: reads the lines of a FASTA file, then finalizes. */
    constructor FromLines(lines: seq<string>)
      ensures Finished()
      ensures fresh(genes)
      ensures Contents() == UpperGroups(Group(lines))
    {
      genes := [];
      numseqs := 0;
      numbps := 0;
      new;
      ReadFile(lines);
    }

    ghost predicate Distinct()
      reads this
    {
      forall i, j :: 0 <= i < j < |genes| ==> genes[i] != genes[j]
    }

    /** The genes as (header, letters) pairs. */
    function Contents(): (r: seq<(string, seq<char>)>)
      reads this`genes, genes
      ensures |r| == |genes|
    {
      var gs := genes;
      seq(|gs|, i reads gs requires 0 <= i < |gs| => (gs[i].header, gs[i].sequence))
    }

    /** The letters of each gene, in file order. */
    function Sequences(): (r: seq<seq<char>>)
      reads this`genes, genes
      ensures |r| == |genes|
      ensures forall i :: 0 <= i < |genes| ==> r[i] == genes[i].sequence
    {
      Letters(Contents())
    }

    /** The state a finished list is in: distinct finalized genes of A, C, G, T, N, and counts that match. */
    ghost predicate Finished()
      reads this, genes
    {
      && Distinct()
      && (forall i :: 0 <= i < |genes| ==> genes[i].finalized && AllIn(genes[i].sequence, Finalized))
      && numseqs == |genes|
      && numbps == TotalLength(Sequences())
    }

    /**
     * `GeneList::finalize`: finalizes every gene, then sets `numseqs` to the
     * number of genes and `numbps` to the number of letters.
     */
    method Finalize()
      requires Distinct()
      requires forall i :: 0 <= i < |genes| ==> !genes[i].finalized ==> AllIn(genes[i].sequence, UpperDomain)
      modifies this, genes
      ensures genes == old(genes) && Distinct()
      ensures forall i :: 0 <= i < |genes| ==>
                && genes[i].finalized && genes[i].header == old(genes[i].header)
                && genes[i].sequence == if old(genes[i].finalized) then old(genes[i].sequence)
                                        else UpperAll(old(genes[i].sequence))
      ensures numseqs == |genes| && numbps == TotalLength(Sequences())
      ensures (forall i :: 0 <= i < |genes| ==> !old(genes[i].finalized) && old(genes[i].Valid())) ==> Finished()
    {
      if |genes| != 0 {
        FinalizeGenes();
      }
      numseqs := |genes|;
      numbps := CountLetters();
    }

    /** The first loop of `GeneList::finalize`: every gene finalized in turn. */
    method FinalizeGenes()
      requires Distinct()
      requires forall i :: 0 <= i < |genes| ==> !genes[i].finalized ==> AllIn(genes[i].sequence, UpperDomain)
      modifies genes
      ensures forall i :: 0 <= i < |genes| ==>
                && genes[i].finalized && genes[i].header == old(genes[i].header)
                && genes[i].sequence == (if old(genes[i].finalized) then old(genes[i].sequence)
                                         else UpperAll(old(genes[i].sequence)))
                && (!old(genes[i].finalized) && old(genes[i].Valid()) ==> AllIn(genes[i].sequence, Finalized))
    {
      var i := 0;
      while i < |genes|
        invariant 0 <= i <= |genes|
        invariant forall k :: 0 <= k < i ==>
                    && genes[k].finalized && genes[k].header == old(genes[k].header)
                    && genes[k].sequence == (if old(genes[k].finalized) then old(genes[k].sequence)
                                             else UpperAll(old(genes[k].sequence)))
                    && (!old(genes[k].finalized) && old(genes[k].Valid()) ==> AllIn(genes[k].sequence, Finalized))
        invariant forall k :: i <= k < |genes| ==>
                    && genes[k].finalized == old(genes[k].finalized)
                    && genes[k].header == old(genes[k].header)
                    && genes[k].sequence == old(genes[k].sequence)
      {
        genes[i].Finalize();
        i := i + 1;
      }
    }

    /** The second loop of `GeneList::finalize`: the letters of all genes, counted. */
    method CountLetters() returns (n: nat)
      ensures n == TotalLength(Sequences())
    {
      n := 0;
      var j := 0;
      while j < |genes|
        invariant 0 <= j <= |genes|
        invariant n == TotalLength(Sequences()[..j])
      {
        assert Sequences()[..j + 1][..j] == Sequences()[..j];
        n := n + |genes[j].sequence|;
        j := j + 1;
      }
      assert Sequences()[..j] == Sequences();
    }

    /**
     * `readfile` over the lines of a FASTA file: a header line opens a new
     * gene, later lines feed the latest gene's `readline`; the list is then
     * finalized.
     */
    method ReadFile(lines: seq<string>)
      requires genes == []
      modifies this
      ensures fresh(genes)
      ensures Finished()
      ensures Contents() == UpperGroups(Group(lines))
    {
      Collect(lines);
      ghost var read := Group(lines);
      forall k | 0 <= k < |genes|
        ensures AllIn(genes[k].sequence, NucLetters) && AllIn(genes[k].sequence, UpperDomain)
      {
        UpperOfNucLetters(genes[k].sequence);
      }
      Finalize();
      assert forall k :: 0 <= k < |genes| ==> genes[k].sequence == UpperAll(read[k].1);
    }

    /** The reading loop of `readfile`. */
    method Collect(lines: seq<string>)
      requires genes == []
      modifies this
      ensures (forall k :: 0 <= k < |genes| ==> fresh(genes[k])) && Distinct()
      ensures GroupedAs(Group(lines))
    {
      var i := 0;
      while i < |lines|
        invariant 0 <= i <= |lines|
        invariant (forall k :: 0 <= k < |genes| ==> fresh(genes[k])) && Distinct()
        invariant GroupedAs(Group(lines[..i]))
      {
        GroupStep(lines, i);
        Feed(lines[i], Group(lines[..i]));
        i := i + 1;
      }
      assert lines[..i] == lines;
    }

    /** One line of `readfile`'s loop. */
    method Feed(line: string, ghost g: seq<(string, seq<char>)>)
      requires forall k :: 0 <= k < |g| ==> AllIn(g[k].1, NucLetters)
      requires Distinct() && GroupedAs(g)
      modifies this, genes
      ensures Distinct() && GroupedAs(NextGroup(g, line))
      ensures |genes| >= |old(genes)| && genes[..|old(genes)|] == old(genes)
      ensures forall k :: |old(genes)| <= k < |genes| ==> fresh(genes[k])
    {
      if IsHeader(line) {
        var gene := new Gene.WithHeader(line);
        genes := genes + [gene];
        assert GroupedAs(g + [(line, [])]);
      } else if |genes| != 0 {
        var n := |genes| - 1;
        var last := genes[n];
        last.ReadLine(line);
        ghost var g' := g[..n] + [(g[n].0, g[n].1 + NucFilter(line))];
        forall k | 0 <= k < |genes|
          ensures genes[k].header == g'[k].0 && genes[k].sequence == g'[k].1 && !genes[k].finalized
        {
          if k < n {
            assert genes[k] != last;
          }
        }
      }
    }

    /** The genes are, in order, unfinalized genes with the given headers and letters. */
    ghost predicate GroupedAs(g: seq<(string, seq<char>)>)
      reads this, genes
    {
      && |genes| == |g|
      && forall k :: 0 <= k < |genes| ==>
           genes[k].header == g[k].0 && genes[k].sequence == g[k].1 && !genes[k].finalized
    }
  }

  /** Each group's letters upper-cased. */
  function UpperGroups(g: seq<(string, seq<char>)>): (r: seq<(string, seq<char>)>)
    requires forall k :: 0 <= k < |g| ==> AllIn(g[k].1, UpperDomain)
    ensures |r| == |g|
    ensures forall k :: 0 <= k < |g| ==> r[k] == (g[k].0, UpperAll(g[k].1))
  {
    seq(|g|, k requires 0 <= k < |g| => (g[k].0, UpperAll(g[k].1)))
  }
}
