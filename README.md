# PSSM target search: the scan-and-rank core

This project models the core of a position-specific weight-matrix (PSSM)
search over DNA in Dafny. The program reads a weight matrix and a FASTA file.
It slides a window of the matrix's length over every gene. Each window is
scored on both strands, and the best-scoring windows go into a bounded hit
list. Lower scores are better throughout.

The model has six modules: `Wrappers` holds the `Option` and `Result` types, and each of the other five models one source file pair:

- `Nucleotide` (util.cpp) holds the nucleotide tables.
  - `Comp`, `Upper`, `Lower`, `IsNuc` and `Degen` are the character maps.
  - The IUPAC/NC-IUB code lists are constants.
  - `SecondFloatDesc` is the sort order.
- `Hits` (Hits.h, Hits.cpp) holds the bounded, worst-first hit list.
  - `HitManager` is a class whose `AddHit` method is proved against the value-level specification `AfterAdd`.
- `Pssm` (PSSM.h, PSSM.cpp) holds the matrix.
  - `PssmPos` is a value datatype with its min/max scans.
  - `PSSM` is a class with both `setup`s. The file reader works over lines that are already tokenised.
  - Ranking (`priority_`) and the early-rejection bounds (`best_cases_`) are proved against their specifications `IsPriority` and `RemainingBest`.
- `Sequences` (Sequence.h, Sequence.cpp) holds the FASTA buffer.
  - `Gene` filters, appends and upper-cases letters.
  - `GeneList` groups lines into genes and counts them.
- `Search` (TargetSearch.cpp) holds the branch-and-bound scan.
  - The class `TargetSearch` is proved step by step against the functions `Eval`, `Orient`, `ScanFrom` and `ScanGenes`.
  - Those functions are related by lemmas to an unpruned reference scan (`Complete`, `CompleteFrom`) and to the complete window score `Total`.

The main results are:

- `ScanIsComplete`: pruning is sound. Over a gene whose letters, and their complements, are all in the key, the pruned scan leaves exactly the hit list the unpruned scan leaves.
- `PruningUnsoundForUnknownLetter`: a concrete matrix and window show that the prune is not sound for a letter outside the key.
- `StrandSymmetry`: the reverse strand is the forward strand of the reverse complement.
- `AddKeepsBounded` and `AddEvictsOnlyWorst`: the hit-list invariants hold.
- `Collects` and the `ReadLines…` lemmas: a matrix file accepted by `ReadLines` yields its key lines and its position lines, in order.

## Model

| member | source | states |
|---|---|---|
| `Nucleotide.Upper` | util.cpp:112-139 | `upper` maps its 20-letter domain into the 15 upper-case codes and leaves every code unchanged |
| `Nucleotide.Lower` | util.cpp:143-169 | `lower` maps its 19-letter domain (no 'n') into the 15 lower-case codes |
| `Nucleotide.Comp` | util.cpp:172-198 | `comp` stays in its domain and maps bases to bases and codes to codes, in both directions |
| `Nucleotide.Degen` | util.cpp:51-91 | `degen` lists only bases, in strictly increasing A, C, G, T order, and is non-empty exactly for the 15 codes |
| `Nucleotide.UpperAll` | Sequence.cpp:33 | `std::transform` with `upper` keeps the length, upper-cases letter by letter and yields only codes |
| `Nucleotide.LowerMoves` | util.cpp:150-164 | `lower` changes every code letter, which is what makes the lower-casing rule of `print_results` visible |
| `Nucleotide.RevComp` | Hits.cpp:55-57 | reverse then complement: same length, letter `i` is the complement of letter `n-1-i`, result stays in `comp`'s domain |
| `Nucleotide.CompInvolution` | util.cpp:172-198 | `comp(comp(c)) == c` on the whole domain |
| `Nucleotide.CompSwapsBases` | util.cpp:175-182 | `comp` swaps A/T and C/G and keeps the case of acgt |
| `Nucleotide.RevCompInvolution` | Hits.cpp:55-57 | the reverse complement of the reverse complement is the original window |
| `Nucleotide.UpperIdempotent` | util.cpp:112-139 | `upper(upper(c)) == upper(c)` |
| `Nucleotide.UpperLowerRoundTrip` | util.cpp:143-169 | for a code letter, `upper` accepts `lower(c)` exactly when `c` is A, C, G, T or N, and then gives back `c` |
| `Nucleotide.IsNucUpper` | util.cpp:93-108 | `isnuc` is true exactly for ACGTNacgtn, and `upper` turns each of these into one of A, C, G, T, N |
| `Nucleotide.DegenOfBasesAndN` | util.cpp:53-56 | `degen('N')` is `nucleotides()` (A, C, G, T) and each base stands for itself |
| `Nucleotide.DegenComp` | util.cpp:172-198 | `degen(comp(c))` is the complement of `degen(c)` for every code except S and W, which `comp` swaps although IUPAC makes each self-complementary |
| `Nucleotide.SecondFloatDescIsStrictOrder` | util.cpp:202-209 | `secondfloatdesc` is irreflexive and transitive, and incomparability is transitive, as `std::sort` requires |
| `Hits.MakeHit` | Hits.cpp:52-58 | a forward hit stores the window unchanged; a reverse hit stores its reverse complement; score, name, offset and strand are stored verbatim; the length is kept |
| `Hits.InsertIndex` | Hits.cpp:40-49 | the insertion point: every entry before it scores strictly above the candidate, and the entry at it scores at most the candidate |
| `Hits.Insert` | Hits.cpp:53 | inserting adds exactly one entry |
| `Hits.InsertAt` | Hits.cpp:45-49 | the new hit lands at the insertion point; entries before it keep their places and entries after it move one place back |
| `Hits.InsertSplit` | Hits.cpp:45-53 | insertion splices the hit in at `InsertIndex` |
| `Hits.InsertPermutes` | Hits.cpp:53 | insertion adds exactly the new hit to the list's multiset |
| `Hits.InsertPlacement` | Hits.cpp:45-49 | in a sorted list, every entry before the new hit is strictly worse and every entry after it is no worse, so a tied newcomer sits in front of older equal entries |
| `Hits.InsertSorted` | Hits.cpp:38-53 | insertion keeps scores non-increasing from front to back |
| `Hits.AppendWhenBest` | Hits.cpp:40 | into an empty list, or when strictly better than the back, the hit is appended at the back |
| `Hits.FrontIsWorst` | Hits.h:80 | the front of a sorted list holds its largest score |
| `Hits.AddKeepsBounded` | Hits.cpp:61-64 | `add_hit` keeps the list sorted and within capacity, keeps `full` only when at capacity, never clears `full`, and with capacity 0 leaves the list empty and full |
| `Hits.AddEvictsOnlyWorst` | Hits.cpp:61-64 | on overflow exactly one entry goes: the front after insertion, whose score is at least every kept score; the kept multiset is the old one plus the new hit minus that front |
| `Hits.AfterAddMembers` | Hits.cpp:52-64 | every entry kept after `add_hit` was kept before or is the new hit |
| `Hits.HitManager.constructor` | Hits.h:61 | a new manager has no hits, `full` false and capacity 0 |
| `Hits.HitManager.SetFull` | Hits.h:63 | the `full` setter changes `full` only |
| `Hits.HitManager.SetMaxhits` | Hits.h:64 | the `maxhits` setter changes the capacity only |
| `Hits.HitManager.Worst` | Hits.h:80 | `worst()` on a non-empty list is a kept score and, in a sorted list, the largest one |
| `Hits.HitManager.FindInsertion` | Hits.cpp:38-50 | the front-to-back search, with its shortcut for an empty list or a new best, finds `InsertIndex` |
| `Hits.HitManager.AddHit` | Hits.cpp:28-65 | the new list and flag are `AfterAdd` of the old ones and the hit `MakeHit` builds; the capacity is unchanged and the invariants are kept |
| `Pssm.PssmPos.AddWeight` | PSSM.cpp:20-24 | `add_weight` appends one weight; the best weight becomes the smaller and the worst the larger of the old one and the new weight |
| `Pssm.PssmPos.ScanBest` | PSSM.cpp:33-41 | the `bestweight` loop returns the smallest weight |
| `Pssm.PssmPos.ScanWorst` | PSSM.cpp:43-51 | the `worstweight` loop returns the largest weight |
| `Pssm.BestWeight` | PSSM.cpp:33-41 | the best weight is one of the weights and at most every weight |
| `Pssm.WorstWeight` | PSSM.cpp:43-51 | the worst weight is one of the weights and at least every weight |
| `Pssm.BestWeightStep` | PSSM.cpp:37-39 | one more step of the `bestweight` scan keeps the smaller value |
| `Pssm.WorstWeightStep` | PSSM.cpp:47-49 | one more step of the `worstweight` scan keeps the larger value |
| `Pssm.Scaled` | PSSM.cpp:26-31 | scaling keeps the number of weights |
| `Pssm.KeyIndex` | PSSM.cpp:131-135 | the first key index holding the letter, or the key's length when no entry does |
| `Pssm.WeightFor` | PSSM.cpp:124-139 | `score` is the weight at the first matching key entry, 0 for a letter outside the key, and between the best and worst weight for a key letter |
| `Pssm.Iota` | PSSM.cpp:218-223 | the position indices 0 to n-1 in order, as `ranges` first lists them |
| `Pssm.RangeIsSpread` | PSSM.cpp:220-221 | best weight is at most worst weight, so the range is worst minus best and never negative |
| `Pssm.NegatedBestWorst` | PSSM.cpp:201-204 | after `scale(-1)` the best weight is minus the old worst, the worst is minus the old best, and the range is unchanged |
| `Pssm.Scale` | PSSM.cpp:26-31 | the in-place loop multiplies every weight by the factor and keeps the site index |
| `Pssm.InsertKeepsDescending` | PSSM.cpp:226 | inserting an index after every entry ranked at least as high keeps a non-increasing order |
| `Pssm.InsertExtendsIota` | PSSM.cpp:226-230 | inserting index n into a permutation of 0 to n-1 gives a permutation of 0 to n |
| `Pssm.FindRank` | PSSM.cpp:226 | the place for an index in a descending order: after every entry ranked at least as high, before the first ranked strictly lower |
| `Pssm.SortByRange` | PSSM.cpp:226-230 | the sort under `secondfloatdesc` yields a permutation of the position indices with no pair out of order |
| `Pssm.PlaceNext` | PSSM.cpp:226 | one insertion step extends a descending permutation of 0 to i-1 to one of 0 to i |
| `Pssm.RankedIsPriority` | PSSM.cpp:217-230 | a permutation with no `secondfloatdesc` inversion of the ranges is a priority order: non-increasing weight range |
| `Pssm.DescendingHasNoInversion` | PSSM.cpp:226 | a non-increasing order has no pair `secondfloatdesc` would swap |
| `Pssm.TargetPosition` | PSSM.cpp:92-103 | a target letter's position weighs -1 for each key base `degen` lists and 0 for the others, with site index 0 |
| `Pssm.TargetPositionOfR` | PSSM.cpp:92-103 | the target letter R gives the weights -1, 0, -1, 0 |
| `Pssm.TargetScores` | PSSM.cpp:92-103 | a base scores -1 against a target letter exactly when the letter stands for it; the best weight is -1 for a code and 0 for any other letter |
| `Pssm.Inverted` | PSSM.cpp:201-204 | inversion applies `scale(-1)` to every position, keeping their number and site indices |
| `Pssm.InvertedFitsKey` | PSSM.cpp:201-204 | inversion keeps one weight per key letter at every position |
| `Pssm.SkipSpace` | PSSM.cpp:144-146 | skipping leading white space never lengthens the line |
| `Pssm.SkipToken` | PSSM.cpp:146 | skipping the first word never lengthens the line |
| `Pssm.NonSpace` | PSSM.cpp:147-148 | repeated `>> letter` extracts only non-space characters |
| `Pssm.Uncommented` | PSSM.cpp:175 | dropping comment lines leaves no comment line |
| `Pssm.UpperAllAppend` | PSSM.cpp:148 | upper-casing letters one at a time gives the upper-casing of all of them |
| `Pssm.ReadLinesFitsKey` | PSSM.cpp:183-196 | every position of an accepted file has exactly one weight per key letter, and the positions read earlier are kept in front |
| `Pssm.ReadLinesCollects` | PSSM.cpp:174-198 | an accepted file's key is the upper-cased letters of its key lines and its positions are its other non-comment lines, in order |
| `Pssm.KeyLineCollects` | PSSM.cpp:176 | an accepted key line adds its upper-cased letters to the key and no position |
| `Pssm.PositionLineCollects` | PSSM.cpp:177-196 | an accepted position line adds one position and no key letter |
| `Pssm.AcceptedKeyLinesWellFormed` | PSSM.cpp:148 | a file is rejected whenever a key line holds a letter `upper` does not accept |
| `Pssm.CommentsIgnored` | PSSM.cpp:175 | `#` lines, wherever they are, do not change what is read |
| `Pssm.PSSM.constructor` | PSSM.h:45 | a new matrix is empty, of length 0 |
| `Pssm.PSSM.Priority` | PSSM.h:51 | `priority(p)` is the position scored at step `p`, a valid position index |
| `Pssm.PSSM.BestCase` | PSSM.h:53 | `bestcase(p)` is the sum of the best weights of the positions ranked after `p`; 0 at the last step, and the next entry plus the next position's best weight otherwise |
| `Pssm.PSSM.BestWeightAt` | PSSM.h:55 | `bestweight(i)` is position `i`'s best weight, at most each of its weights |
| `Pssm.PSSM.Score` | PSSM.cpp:124-139 | the key-lookup loop returns `WeightFor`: the first matching key entry's weight, or 0 |
| `Pssm.PSSM.SetPriorityAndBestCases` | PSSM.cpp:210-256 | `priority_` is a priority order of the positions and each `best_cases_[p]` is the sum of the best weights ranked after `p`; key, positions and length are unchanged |
| `Pssm.PSSM.Ranges` | PSSM.cpp:217-224 | the range of every position, in position order |
| `Pssm.PSSM.BestCasesFor` | PSSM.cpp:235-240 | the nested loops fill each entry with the suffix sum of best weights after it |
| `Pssm.PSSM.ParseKey` | PSSM.cpp:141-155 | `parse_key` appends the upper-cased letters after the first word and changes nothing else |
| `Pssm.PSSM.ReadPosition` | PSSM.cpp:178-190 | a position line is accepted exactly when it has at most one weight per key letter, and then holds its weights in order; otherwise the error names its site index |
| `Pssm.PSSM.ReadFile` | PSSM.cpp:157-207 | `readfile` returns the reader's error, or stores the key and positions `ReadLines` yields, negated when `invert` is set, with `length` set and the tables ranked |
| `Pssm.PSSM.Prepare` | PSSM.cpp:199-206 | the end of `readfile`: length recorded, weights negated when `invert` is set, tables ranked |
| `Pssm.PSSM.ReadLine` | PSSM.cpp:175-197 | one line of `readfile` does exactly what `ReadLines` does with its first line |
| `Pssm.PSSM.Invert` | PSSM.cpp:201-204 | the `invert` loop leaves the positions `Inverted` |
| `Pssm.PSSM.SetupTarget` | PSSM.cpp:81-108 | `setup(target)` sets the key to A, C, G, T, one `TargetPosition` per target letter, `length` the target's length, and ranks the tables |
| `Pssm.PSSM.DegenWeight` | PSSM.cpp:97-100 | the innermost loop gives -1 when the key letter is among the letter's bases, 0 otherwise |
| `Pssm.PSSM.DegenPosition` | PSSM.cpp:92-102 | the inner loops build the target letter's `TargetPosition` |
| `Sequences.NucFilter` | Sequence.cpp:20-24 | the filter keeps only `isnuc` letters and never lengthens a line |
| `Sequences.NucFilterAppend` | Sequence.cpp:20-25 | filtering two pieces and joining them is filtering the whole |
| `Sequences.NucFilterKeepsClean` | Sequence.cpp:20-24 | a line passes unchanged exactly when it holds only nucleotide letters, and filtering twice is filtering once |
| `Sequences.UpperOfNucLetters` | Sequence.cpp:22-33 | upper-casing letters `isnuc` admitted leaves only A, C, G, T and N |
| `Sequences.ShownHeader` | Sequence.cpp:41-43 | the header is shown whole when under 15 characters, and as exactly its first 15 characters otherwise |
| `Sequences.ShownSequence` | Sequence.cpp:45-51 | up to 40 letters are shown whole; a longer sequence as 45 characters: its first 20 letters, then " ... ", then its last 20 |
| `Sequences.Gene.constructor` | Sequence.h:18-20 | `Gene()` has an empty sequence and header and is not finalized |
| `Sequences.Gene.WithHeader` | Sequence.h:22 | `Gene(hdr)` has header `hdr`, an empty sequence and is not finalized |
| `Sequences.Gene.ReadLine` | Sequence.cpp:14-26 | `readline` appends exactly the `isnuc` letters of the line, in order, leaving the old letters, header and flag unchanged |
| `Sequences.Gene.Finalize` | Sequence.cpp:28-35 | `finalize` upper-cases every letter once and is a no-op the second time; afterwards only A, C, G, T, N remain |
| `Sequences.Group` | Sequence.cpp:92-106 | the genes of a file as (header, letters) pairs hold only nucleotide letters |
| `Sequences.NextGroup` | Sequence.cpp:96-105 | one more line: a header opens a gene, another line feeds the latest gene, and a line before any header is dropped |
| `Sequences.GroupStep` | Sequence.cpp:93-106 | reading one more line is one `NextGroup` step |
| `Sequences.GroupCountsHeaders` | Sequence.cpp:96-100 | there is one gene per header line, each named by a header line |
| `Sequences.LeadingLinesIgnored` | Sequence.cpp:102 | lines before the first header contribute nothing |
| `Sequences.NoHeaderNoGenes` | Sequence.cpp:92-106 | a file without a header line has no genes |
| `Sequences.GeneList.constructor` | Sequence.h:52-56 | `GeneList()` has no genes and zero counts |
| `Sequences.GeneList.FromLines` | Sequence.h:58-64 | `GeneList(filename)` holds the file's genes, upper-cased, with counts that match |
| `Sequences.GeneList.Contents` | Sequence.h:69-70 | one (header, letters) pair per gene |
| `Sequences.Letters` | Sequence.h:69-70 | one letter sequence per gene, gene `k`'s letters at index `k`; `GeneList.Sequences` and `TargetSearch.ScanFile` both use it |
| `Sequences.GeneList.Sequences` | Sequence.h:69-70 | one letter sequence per gene: entry `i` is gene `i`'s sequence |
| `Sequences.GeneList.Finalize` | Sequence.cpp:64-80 | every gene is finalized, `numseqs` is the number of genes and `numbps` the number of letters |
| `Sequences.GeneList.FinalizeGenes` | Sequence.cpp:66-71 | the first loop finalizes each gene in turn |
| `Sequences.GeneList.CountLetters` | Sequence.cpp:75-79 | the second loop counts the letters of all genes |
| `Sequences.GeneList.ReadFile` | Sequence.cpp:83-113 | `readfile` leaves the file's genes, upper-cased, finalized and counted |
| `Sequences.GeneList.Collect` | Sequence.cpp:93-106 | the reading loop leaves one fresh, unfinalized gene per group, in file order |
| `Sequences.GeneList.Feed` | Sequence.cpp:96-105 | one line of the reading loop is one `NextGroup` step, and earlier genes stay in place |
| `Sequences.UpperGroups` | Sequence.cpp:33 | each gene's letters upper-cased, headers kept |
| `Search.Oriented` | TargetSearch.cpp:90-106 | the letters scored for a window: `seq[start+i]` forward, `comp(seq[start+L-1-i])` reverse |
| `Search.OrientedAt` | TargetSearch.cpp:106 | the reverse strand scores position `i` with the complement of the letter `L-1-i` places into the window |
| `Search.EvalAdvance` | TargetSearch.cpp:88-98 | a step whose bound does not fire and is not the last leaves the verdict to the next step |
| `Search.EvalPrunes` | TargetSearch.cpp:92 | a step whose bound fires ends the scan there |
| `Search.EvalCompletes` | TargetSearch.cpp:93-96 | at the last step a window is rejected when the list is full and its score is not below `worst`, and accepted otherwise |
| `Search.Scores` | TargetSearch.cpp:90 | each letter's weight at its position |
| `Search.SumAtIota` | TargetSearch.cpp:88-90 | summing over positions 0 to n-1 is summing the first n scores |
| `Search.SumAtPermutation` | TargetSearch.cpp:88-90 | the sum does not depend on the order in which positions are scored |
| `Search.PriorityOrderTotal` | TargetSearch.cpp:88-90 | scoring in priority order gives the position-order total |
| `Search.PrioritySumStep` | TargetSearch.cpp:89-90 | one step of the priority-order sum |
| `Search.RemainingBestIsLowerBound` | PSSM.cpp:235-240 | for a window of key letters, the best weights of the steps from `p` on bound what those steps score |
| `Search.BestCasesBound` | PSSM.cpp:235-240 | each `best_cases_` entry is at most what the later steps score on a window of key letters |
| `Search.EvalMatchesCompletion` | TargetSearch.cpp:88-98 | where the bounds hold, the pruned scan accepts exactly the windows the completion test accepts, with their total; it prunes only windows whose total exceeds `worst` |
| `Search.PruningIsSound` | TargetSearch.cpp:92 | for a window of key letters, the pruned scan accepts exactly when the list is not full or the total is below `worst`, and reports the total |
| `Search.UnknownLetterMatrixValid` | PSSM.cpp:210-256 | the counterexample matrix is one `set_priority_and_best_cases` can produce |
| `Search.TwoPositionsValid` | PSSM.cpp:217-240 | a two-position matrix is set up when the wider range is ranked first and its first bound is the second position's best weight |
| `Search.TwoPositionsRanked` | PSSM.cpp:217-230 | with the wider range first, a two-position order is a priority order |
| `Search.TwoPositionsBestCases` | PSSM.cpp:235-240 | in a two-position matrix the last bound is 0 and the first is the best weight of the position ranked second |
| `Search.PruningUnsoundForUnknownLetter` | PSSM.cpp:136-138 | 'N' scores 0, below its position's best weight of 1, so "NA" is pruned at the first step although its total 0 beats the worst kept 0.5 |
| `Search.UnknownLetterTotal` | PSSM.cpp:136-138 | "NA" totals 0 under the counterexample matrix |
| `Search.UnknownLetterScores` | PSSM.cpp:131-138 | 'N' (not in the key) and 'A' (weight 0) both score 0 |
| `Search.OrientKept` | TargetSearch.cpp:92-94 | an orientation whose scan does not accept the window leaves the list unchanged |
| `Search.OrientAccepted` | TargetSearch.cpp:95-96 | an accepted orientation submits the window with its accepted score |
| `Search.OrientedInKey` | TargetSearch.cpp:90-106 | when a gene's letters and their complements are key letters, both orientations score only key letters |
| `Search.OrientIsComplete` | TargetSearch.cpp:88-113 | with every letter in the key, the pruned scan of one orientation leaves what the unpruned test leaves |
| `Search.ScanIsComplete` | TargetSearch.cpp:81-120 | with every letter in the key, the whole branch-and-bound scan of a gene leaves exactly the unpruned scan's hit list |
| `Search.ScanKeepsBounded` | TargetSearch.cpp:81-120 | the scan keeps the list sorted and within capacity and never clears `full` |
| `Search.OrientKeepsBounded` | TargetSearch.cpp:88-113 | one orientation keeps the list sorted and within capacity and never clears `full` |
| `Search.StrandSymmetry` | TargetSearch.cpp:103-106 | the reverse scan scores the reverse complement of the window, which is the forward window of the reverse-complemented gene at the mirrored offset |
| `Search.StrandMirror` | TargetSearch.cpp:106 | the reverse window is the mirrored forward window of the reverse-complemented gene |
| `Search.MirrorAt` | TargetSearch.cpp:106 | the mirror identity at one position |
| `Search.EvalScoreIsTotal` | TargetSearch.cpp:88-98 | a scan that is not pruned reports the window's position-order total |
| `Search.CompletedScoreIsTotal` | TargetSearch.cpp:88-90 | from its first step, a completed scan reports the sum of `score(i, letter i)` over the positions, whatever the priority order |
| `Search.MadeHitIsWindowHit` | TargetSearch.cpp:95-96 | the hit made from a window carries its offset, the gene header, the letters scored on its strand and its total |
| `Search.MadeHitLetters` | TargetSearch.cpp:110-111 | the stored letters of a reverse hit (the reverse complement of the forward slice) are the letters that were scored |
| `Search.OrientAddsWindowHits` | TargetSearch.cpp:88-113 | one orientation adds no hit but the window at `start` |
| `Search.OrientAcceptedTotal` | TargetSearch.cpp:93-96 | an accepted window is submitted with its complete score |
| `Search.SubmitAddsWindowHit` | TargetSearch.cpp:95-96 | submitting a window adds only that window's hit |
| `Search.ScanAddsWindowHits` | TargetSearch.cpp:81-120 | every hit the scan adds is a window of the gene at an offset it visits, with the gene's header, its strand's letters and its total |
| `Search.BothStrandsAddWindowHits` | TargetSearch.cpp:88-113 | the two orientations at `start` together add only that window's hits |
| `Search.AsWrittenEndOverruns` | TargetSearch.cpp:79 | for a gene shorter than the matrix, the unsigned `end` wraps past the gene's length, so the loop starts with a window that already runs past the gene |
| `Search.AsWrittenEndOfShortGene` | TargetSearch.cpp:79 | a one-letter gene against a two-position matrix gives `end` 4294967295 |
| `Search.LastStart` | TargetSearch.cpp:78-81 | there is a last offset exactly when the matrix fits in the gene, and its window ends at the gene's end |
| `Search.LastStartAdmitsWindows` | TargetSearch.cpp:78-81 | the corrected bound admits exactly the offsets whose window fits, and agrees with the unsigned `end` whenever one fits |
| `Search.Shown` | TargetSearch.cpp:52-56 | the shown hit has the hit's length; each letter is kept or lower-cased, and a code letter is kept exactly when its weight at its position is at most that position's best weight |
| `Search.Bests` | PSSM.h:55 | one best weight per position |
| `Search.SumDominates` | TargetSearch.cpp:55 | sums of pointwise-larger values are larger, and equal exactly when every value is equal |
| `Search.ShownUpperIffBest` | TargetSearch.cpp:52-56 | a hit of key letters is printed all in capitals exactly when its score is the sum of the positions' best weights |
| `Search.ShownUpperAt` | TargetSearch.cpp:55 | for a hit of key letters, letter `i` stays a capital exactly when it scores position `i`'s best weight; so a hit shown unchanged scores the best weight everywhere |
| `Search.ATMatrixValid` | PSSM.cpp:210-256 | the worked-example matrix is one a setup can produce |
| `Search.ATWindow` | TargetSearch.cpp:88-106 | both strands of "AT" read "AT", which scores 0 under the example matrix |
| `Search.ATTotal` | TargetSearch.cpp:88-90 | "AT" scores 0 |
| `Search.ATForward` | TargetSearch.cpp:93-96 | the forward window of "AT" goes into the empty list |
| `Search.ATReverse` | TargetSearch.cpp:108-111 | the reverse window of "AT" ties with the forward one, goes in front of it and is evicted at capacity 1 |
| `Search.ATReverseSubmit` | Hits.cpp:52-64 | submitting the reverse window stores its reverse complement "AT" and evicts it again |
| `Search.ATTieEvicts` | Hits.cpp:45-64 | a tied newcomer goes in front of the kept hit and, over capacity 1, is the one dropped |
| `Search.ATScan` | TargetSearch.cpp:81-120 | scanning "AT" with room for one hit keeps the forward window at offset 0 with score 0 and sets `full` |
| `Search.ScanGenesKeepsBounded` | TargetSearch.cpp:33-36 | over a whole file the list stays sorted and within capacity, and `full` is never cleared |
| `Search.ScanGenesAddsWindowHits` | TargetSearch.cpp:33-36 | every hit a file adds is a window hit of one of its genes |
| `Search.TargetSearch.constructor` | TargetSearch.cpp:12-25 | given a set-up matrix, the search has no hits, the requested capacity and zero counts |
| `Search.TargetSearch.Open` | TargetSearch.cpp:12-25 | the constructor reads the matrix file, returning the reader's error or a search over the key and positions read (negated when inverting), with no hits and zero counts |
| `Search.TargetSearch.ScanStrand` | TargetSearch.cpp:82-113 | one orientation's loop leaves the list `Orient` describes |
| `Search.TargetSearch.AddWindow` | TargetSearch.cpp:95-96 | `add_hit` of the forward slice is `Submit` |
| `Search.TargetSearch.ScoreWindow` | TargetSearch.cpp:88-98 | the step loop keeps the window exactly when `Eval` accepts it, and with `Eval`'s score |
| `Search.TargetSearch.Weigh` | TargetSearch.cpp:89-92 | step `p` weighs the letter at the position ranked `p` on the window's strand and reads `bestcase(p)` |
| `Search.TargetSearch.ScanGene` | TargetSearch.cpp:65-121 | `scan_seq(gene)` leaves the list `ScanFrom` describes from offset 0 |
| `Search.TargetSearch.ScanFile` | TargetSearch.cpp:27-37 | `scan_seq(filename)` adds the file's gene count and letter count to the counters and scans its genes in order |
| `Search.TargetSearch.ScanList` | TargetSearch.cpp:33-36 | the loop over a finished gene list leaves the list `ScanGenes` describes |

## Left out

- Files, streams and tokenising are left out. Opening files, `getline` on a 4096-byte buffer and `istringstream` number parsing are not modelled. The readers take the file as a sequence of lines. For the matrix reader, each line is already split into its site index and weights. A FASTA line of 4096 characters or more is not modelled. There `getline` fails and ends the read loop. If a header came before it, the source then adds that line's first 4095 characters to the last gene opened, even when the line is itself a header. Every later line is dropped. The model reads every line in full.
- All printing is left out: `print`, `print_weights`, the stream operators and `print_results` formatting, debug output and `cerr` warnings. `Shown`, `ShownHeader` and `ShownSequence` keep only what is chosen for display.
- main.cpp is left out: option parsing, list files and directory scanning.
- Weights and scores are `real`. Float rounding, including differences between summing in priority order and in position order, is not modelled.
- The `exit(EXIT_FAILURE)` paths are modelled in two ways.
  - In `upper`, `lower` and `comp`, they are preconditions on the character domain.
  - In `readfile`, they are a `ReadError` result.
- Pssm.ReadLines: rejects two kinds of input that the source reads.
  - Any key line with letters after the first position (`KeyAfterPositions`). The source reads past an earlier position's weights only when a new A, C, G, T or N is added: gene letters are only these, and `score` returns the first matching key entry. A repeated letter, or a code no gene contains such as R, leaves the source well defined, and the model rejects those files as well.
  - A position line with no weights before any key (`EmptyPosition`): the source later reads `weights_[0]` of an empty vector, which is undefined behaviour.
- Search.TargetSearch.ScanStrand: reads `worst()` only when the list is full. The source reads `front()` of a list that may be empty and uses the value only when the list is full.
- Search.TargetSearch.constructor: requires a capacity of at least 1. With capacity 0, `full_` becomes true while the list stays empty, and the next `worst()` dereferences an empty list. main.cpp accepts `-n 0`.
- Pssm.SortByRange: orders equal ranges by index. `std::sort` leaves their order open, so `IsPriority` allows any order among ties, and every lemma about the scan assumes only `IsPriority`.
- Search.ScanIsComplete, Search.PruningIsSound: assume that every letter of the gene, and its complement, is a key letter.
  - This is weaker than an unconditional soundness claim, because the source does not guarantee it.
  - 'N' passes the sequence filter and scores 0, and `PruningUnsoundForUnknownLetter` shows the prune is then unsound.
- Search.TargetSearch.ScoreWindow: completes a window after the step loop rather than inside its last iteration. The conditions, their order and the values passed to `add_hit` are the same.
- The unsigned counters `numseqs_` and `numbps_` and the `unsigned` offsets are unbounded `nat`. 32-bit wrap-around is modelled only for `end` (see Findings).
- Repeated `setup` on one `PSSM`, which would keep appending to the key, is not modelled. `ReadFile` and `SetupTarget` require an empty matrix.
- `OutputLevel` and the other output-level settings are not modelled.

## Findings

| source | as written | input that shows it | evidently intended | confidence | as-written member | corrected member |
|---|---|---|---|---|---|---|
| TargetSearch.cpp:79 | `end` is the unsigned difference of the gene's length and the matrix length, which wraps when the gene is shorter than the matrix; the loop `start <= end` then visits offset 0 and beyond, reading past the gene | a 1-letter gene against a 2-position matrix: `end` is 4294967295 (`Search.AsWrittenEndOfShortGene`; in general `Search.AsWrittenEndOverruns`) | scan no window of a gene shorter than the matrix, otherwise offsets 0 to length-L (`Search.LastStartAdmitsWindows`; `Search.TargetSearch.ScanGene` uses the corrected bound) | not executed | `Search.AsWrittenEnd` | `Search.LastStart` |
