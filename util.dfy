/**
 * Nucleotide letter tables of util.cpp: complement, case mapping, the
 * filter predicate used when reading sequences, and the expansion of the
 * IUPAC/NC-IUB ambiguity codes.  A letter outside a table's domain makes the
 * source print a message and exit; here that is a precondition.
 */
module Nucleotide {

  /** The four bases, in key order (`nucleotides()`). */
  const Nucleotides: seq<char> := "ACGT"

  /** The fifteen upper-case ambiguity codes (`base_codes()`). */
  const BaseCodes: seq<char> := "ACGTRYMKSWBDHVN"

  /** The same fifteen codes as a set, and the five letters a finalized sequence holds. */
  const Codes: set<char> := {'A', 'C', 'G', 'T', 'R', 'Y', 'M', 'K', 'S', 'W', 'B', 'D', 'H', 'V', 'N'}
  const Bases: set<char> := {'A', 'C', 'G', 'T'}
  const Finalized: set<char> := {'A', 'C', 'G', 'T', 'N'}
  const LowerCodes: set<char> := {'a', 'c', 'g', 't', 'r', 'y', 'm', 'k', 's', 'w', 'b', 'd', 'h', 'v', 'n'}

  /** Letters `comp` accepts. */
  const CompDomain: set<char> :=
    {'A', 'C', 'G', 'T', 'a', 'c', 'g', 't',
     'R', 'Y', 'S', 'W', 'K', 'M', 'B', 'D', 'H', 'V', 'N'}

  /** Letters `upper` accepts: the fifteen codes, lower-case a, c, g, t, n. */
  const UpperDomain: set<char> :=
    {'a', 'c', 'g', 't', 'A', 'C', 'G', 'T', 'R', 'Y', 'M', 'K',
     'S', 'W', 'B', 'D', 'H', 'V', 'N', 'n'}

  /** Letters `lower` accepts: the fifteen codes and lower-case a, c, g, t (but not n). */
  const LowerDomain: set<char> :=
    {'a', 'c', 'g', 't', 'A', 'C', 'G', 'T', 'R', 'Y', 'M', 'K',
     'S', 'W', 'B', 'D', 'H', 'V', 'N'}

  /** True exactly for the letters a sequence file may contribute. */
  predicate IsNuc(c: char)
  {
    match c
    case 'A' => true
    case 'C' => true
    case 'G' => true
    case 'T' => true
    case 'a' => true
    case 'c' => true
    case 'g' => true
    case 't' => true
    case 'N' => true
    case 'n' => true
    case _ => false
  }

  function Upper(c: char): (r: char)
    requires c in UpperDomain
    ensures r in Codes
    ensures c in Codes ==> r == c
  {
    match c
    case 'a' => 'A'
    case 'c' => 'C'
    case 'g' => 'G'
    case 't' => 'T'
    case 'n' => 'N'
    case _ => c
  }

  function Lower(c: char): (r: char)
    requires c in LowerDomain
    ensures r in LowerCodes
  {
    match c
    case 'A' => 'a'
    case 'C' => 'c'
    case 'G' => 'g'
    case 'T' => 't'
    case 'R' => 'r'
    case 'Y' => 'y'
    case 'M' => 'm'
    case 'K' => 'k'
    case 'S' => 's'
    case 'W' => 'w'
    case 'B' => 'b'
    case 'D' => 'd'
    case 'H' => 'h'
    case 'V' => 'v'
    case 'N' => 'n'
    case _ => c
  }

  function Comp(c: char): (r: char)
    requires c in CompDomain
    ensures r in CompDomain
    ensures (c in Bases <==> r in Bases) && (c in Codes <==> r in Codes)
  {
    match c
    case 'A' => 'T'
    case 'C' => 'G'
    case 'G' => 'C'
    case 'T' => 'A'
    case 'a' => 't'
    case 'c' => 'g'
    case 'g' => 'c'
    case 't' => 'a'
    case 'R' => 'Y'
    case 'Y' => 'R'
    case 'S' => 'W'
    case 'W' => 'S'
    case 'K' => 'M'
    case 'M' => 'K'
    case 'B' => 'V'
    case 'D' => 'H'
    case 'H' => 'D'
    case 'V' => 'B'
    case _ => 'N'
  }

  /** The bases a code stands for, in A, C, G, T order; unknown letters give none. */
  function Degen(c: char): (r: seq<char>)
    ensures forall i :: 0 <= i < |r| ==> r[i] in Bases
    ensures forall i, j :: 0 <= i < j < |r| ==> NucIndex(r[i]) < NucIndex(r[j])
    ensures |r| > 0 <==> c in Codes
  {
    match c
    case 'A' => "A"
    case 'C' => "C"
    case 'G' => "G"
    case 'T' => "T"
    case 'R' => "AG"
    case 'Y' => "CT"
    case 'M' => "AC"
    case 'K' => "GT"
    case 'S' => "CG"
    case 'W' => "AT"
    case 'B' => "CGT"
    case 'D' => "AGT"
    case 'H' => "ACT"
    case 'V' => "ACG"
    case 'N' => "ACGT"
    case _ => ""
  }

  /** Position of a base in `Nucleotides` (the A, C, G, T order). */
  function NucIndex(b: char): nat
  {
    if b == 'A' then 0 else if b == 'C' then 1 else if b == 'G' then 2 else 3
  }

  predicate AllIn(s: seq<char>, domain: set<char>)
  {
    forall i :: 0 <= i < |s| ==> s[i] in domain
  }

  lemma AllInAppend(a: seq<char>, b: seq<char>, domain: set<char>)
    ensures AllIn(a + b, domain) <==> AllIn(a, domain) && AllIn(b, domain)
  {
    if AllIn(a + b, domain) {
      assert forall k :: 0 <= k < |a| ==> a[k] == (a + b)[k];
      assert forall k :: 0 <= k < |b| ==> b[k] == (a + b)[|a| + k];
    }
  }

  /** The letters `IsNuc` admits, as a set. */
  const NucLetters: set<char> := {'A', 'C', 'G', 'T', 'N', 'a', 'c', 'g', 't', 'n'}

  /** `upper` applied to every letter, as std::transform does. */
  function UpperAll(s: seq<char>): (r: seq<char>)
    requires AllIn(s, UpperDomain)
    ensures |r| == |s| && AllIn(r, Codes)
    ensures forall i :: 0 <= i < |s| ==> r[i] == Upper(s[i])
  {
    seq(|s|, i requires 0 <= i < |s| => Upper(s[i]))
  }

  /** `lower` changes every code letter. */
  lemma LowerMoves(c: char)
    requires c in Codes
    ensures c in LowerDomain && Lower(c) != c
  {
  }

  /** The reverse complement of a window, as `add_hit` stores a reverse-strand hit. */
  function RevComp(s: seq<char>): (r: seq<char>)
    requires AllIn(s, CompDomain)
    ensures |r| == |s|
    ensures forall i :: 0 <= i < |s| ==> r[i] == Comp(s[|s| - 1 - i])
    ensures AllIn(r, CompDomain)
  {
    seq(|s|, i requires 0 <= i < |s| => Comp(s[|s| - 1 - i]))
  }

  /** `secondfloatdesc`: the order std::sort uses to rank (index, range) pairs, largest range first. */
  predicate SecondFloatDesc(p1: (nat, real), p2: (nat, real))
  {
    p2.1 < p1.1
  }

  lemma CompInvolution(c: char)
    requires c in CompDomain
    ensures Comp(Comp(c)) == c
  {
  }

  lemma CompSwapsBases()
    ensures Comp('A') == 'T' && Comp('T') == 'A' && Comp('C') == 'G' && Comp('G') == 'C'
    ensures Comp('a') == 't' && Comp('t') == 'a' && Comp('c') == 'g' && Comp('g') == 'c'
  {
  }

  lemma {:induction false} RevCompInvolution(s: seq<char>)
    requires AllIn(s, CompDomain)
    ensures RevComp(RevComp(s)) == s
  {
    var r := RevComp(s);
    var rr := RevComp(r);
    forall i | 0 <= i < |s|
      ensures rr[i] == s[i]
    {
      CompInvolution(s[i]);
    }
  }

  lemma UpperIdempotent(c: char)
    requires c in UpperDomain
    ensures Upper(c) in UpperDomain && Upper(Upper(c)) == Upper(c)
  {
  }

  /** Only A, C, G, T and N survive `lower` followed by `upper`. */
  lemma UpperLowerRoundTrip(c: char)
    requires c in Codes
    ensures Lower(c) in UpperDomain <==> c in Finalized
    ensures Lower(c) in UpperDomain ==> Upper(Lower(c)) == c
  {
    match c
    case 'A' =>
    case 'C' =>
    case 'G' =>
    case 'T' =>
    case 'N' =>
    case 'R' =>
    case 'Y' =>
    case 'M' =>
    case 'K' =>
    case 'S' =>
    case 'W' =>
    case 'B' =>
    case 'D' =>
    case 'H' =>
    case 'V' =>
  }

  /** What `readline` admits becomes one of A, C, G, T, N under `upper`. */
  lemma IsNucUpper(c: char)
    ensures IsNuc(c) <==> c in NucLetters
    ensures IsNuc(c) ==> c in UpperDomain && Upper(c) in Finalized
  {
  }

  lemma DegenOfBasesAndN()
    ensures Degen('N') == Nucleotides
    ensures forall b :: b in Bases ==> Degen(b) == [b]
  {
    assert Degen('A') == ['A'] && Degen('C') == ['C'] && Degen('G') == ['G'] && Degen('T') == ['T'];
  }

  /** The bases `c` stands for are the complements of those `Comp(c)` stands for. */
  predicate ComplementsAgree(c: char)
    requires c in CompDomain
  {
    AgreesOn(c, 'A') && AgreesOn(c, 'C') && AgreesOn(c, 'G') && AgreesOn(c, 'T')
  }

  predicate AgreesOn(c: char, b: char)
    requires c in CompDomain && b in Bases
  {
    b in Degen(Comp(c)) <==> Comp(b) in Degen(c)
  }

  /**
   * `comp` agrees with the complement of the bases a code stands for, except on S
   * and W: IUPAC makes both self-complementary, `comp` swaps them.
   */
  lemma DegenComp(c: char)
    requires c in Codes
    ensures Comp(c) in Codes
    ensures ComplementsAgree(c) <==> c != 'S' && c != 'W'
  {
    if c == 'S' {
      assert 'A' in Degen(Comp(c)) && 'T' !in Degen(c) && !AgreesOn(c, 'A');
    } else if c == 'W' {
      assert 'C' in Degen(Comp(c)) && 'G' !in Degen(c) && !AgreesOn(c, 'C');
    } else if c in {'A', 'C', 'G', 'T', 'N'} {
      ComplementsAgreeSingles();
    } else if c in {'R', 'Y', 'M', 'K'} {
      ComplementsAgreePairs();
    } else if c == 'B' || c == 'V' {
      ComplementsAgreeNotAorT();
    } else {
      ComplementsAgreeNotCorG();
    }
  }

  /** The agreement for the four bases and N. */
  lemma ComplementsAgreeSingles()
    ensures ComplementsAgree('A') && ComplementsAgree('C') && ComplementsAgree('G') && ComplementsAgree('T')
    ensures ComplementsAgree('N')
  {
    assert Degen('N') == Nucleotides && Degen(Comp('N')) == Nucleotides;
  }

  /** The agreement for the two-base codes R, Y, M and K. */
  lemma ComplementsAgreePairs()
    ensures ComplementsAgree('R') && ComplementsAgree('Y') && ComplementsAgree('M') && ComplementsAgree('K')
  {
    assert Degen('R') == "AG" && Degen(Comp('R')) == "CT";
    assert Degen('Y') == "CT" && Degen(Comp('Y')) == "AG";
    assert Degen('M') == "AC" && Degen(Comp('M')) == "GT";
    assert Degen('K') == "GT" && Degen(Comp('K')) == "AC";
  }

  /** The agreement for B (not A) and V (not T), each the other's complement. */
  lemma ComplementsAgreeNotAorT()
    ensures ComplementsAgree('B') && ComplementsAgree('V')
  {
    assert Degen('B') == "CGT" && Degen(Comp('B')) == "ACG";
    assert Degen('V') == "ACG" && Degen(Comp('V')) == "CGT";
  }

  /** The agreement for D (not C) and H (not G), each the other's complement. */
  lemma ComplementsAgreeNotCorG()
    ensures ComplementsAgree('D') && ComplementsAgree('H')
  {
    assert Degen('D') == "AGT" && Degen(Comp('D')) == "ACT";
    assert Degen('H') == "ACT" && Degen(Comp('H')) == "AGT";
  }

  lemma SecondFloatDescIsStrictOrder(p: (nat, real), q: (nat, real), r: (nat, real))
    ensures !SecondFloatDesc(p, p)
    ensures SecondFloatDesc(p, q) && SecondFloatDesc(q, r) ==> SecondFloatDesc(p, r)
    ensures !SecondFloatDesc(p, q) && !SecondFloatDesc(q, p) && !SecondFloatDesc(q, r) && !SecondFloatDesc(r, q)
            ==> !SecondFloatDesc(p, r) && !SecondFloatDesc(r, p)
  {
  }
}
