# Bio-Easel `SqFile.c`: sequence-file retrieval through an SSI index

This project models the C layer of Bio-Easel's `Bio::Easel::SqFile`. That layer opens a sequence file, builds or opens its SSI index, and uses the index to do several things:

- fetch whole sequences and subsequences;
- render sequences as FASTA text;
- answer queries about the file: whether a name exists, a sequence's length, the number of sequences, the total number of residues, and a name and length by ordinal;
- compare sequences between two files.

It is written in Dafny, and every property listed below is proved.

The model has these parts:

- **The file** is a sequence of chunks. Each chunk is one of four things: a record (name, accession, description, residues, data offset), a record without a name, text the parser cannot read, or another read error. A chunk's position stands for its byte offset, so a record's `roff` is its chunk number.
- **The handle** (`SqFileHandle.SqFile`) keeps the fixed parts of the open file: the chunks, the digital mode, the alphabet, and the bytes and residues per line. Three things in it change: the read position, the index attached for retrieval, and the index file next to the sequence file.
- **The index** (`Ssi.SsiIndex`) has three parts:
  - a list of primary keys `(name, fh, roff, doff, L)`, whose order gives the ordinals; the writer sorts it by name;
  - a map from secondary key (accession) to primary name;
  - the line layout recorded for fast subsequence lookup.
- **Index building** has two forms:
  - `Build.BuildIndex` states in closed form what one pass over the file produces.
  - The imperative pass `SqFileHandle.SqFile.CreateSsiIndex` is proved to produce exactly that. It works through the new-index object `Build.NewSsi`.
- **Fetching** (`Fetch`) is stated as functions of the handle's state. These functions return the result, or the fatal error (`croak`) as a `Failure`, together with the new read position. The handle's methods are proved to match them.
- **The record parser and the alphabet library** are oracles:
  - digitize, textize and reverse-complement are arrow-typed fields of `SeqTypes.Alphabet`;
  - the whole-record reader is a function of the chunk at the read position;
  - `esl_sqio_FetchSubseq` is `Fetch.FetchSubseq`. It finds the key by name or accession. It requires `1 <= start <= end <= L`, where an end of 0 means `L`. It returns those residues with the record's `L`, and leaves the position after the record.

The source files are C. Easel's own reader, writer and index code are not part of this model; their behaviour enters only through the oracles above.

## Model

| member | source | states |
|---|---|---|
| Coordinates.Normalize | lib/Bio/Easel/SqFile.c:259-269 | A descending request (`end != 0 && start > end`) becomes the range `end..start` on the reverse strand. Otherwise the flag sends a one-residue request to the reverse strand. Otherwise the range is kept on the forward strand. An end of 0 is passed through. |
| Coordinates.FlagOnlyChoosesStrand | lib/Bio/Easel/SqFile.c:259-269 | The one-residue flag never changes the range, and changes nothing at all unless start equals end. |
| Coordinates.SubseqName | lib/Bio/Easel/SqFile.c:273-275 | An explicit new name always wins. Otherwise the name begins with the key followed by `/`. |
| Coordinates.SubseqNameRoundTrip | lib/Bio/Easel/SqFile.c:274-275 | Whatever characters the key holds, the default name reads back as the key, the given start, and the given end (or `L` when the end is 0). |
| Coordinates.DescendingRequestKeepsGivenOrder | lib/Bio/Easel/SqFile.c:259-275 | A request for 10..3 fetches 3..10 on the reverse strand and is named `key/10-3`. |
| Coordinates.ToInt32 | lib/Bio/Easel/SqFile.c:250 | Storing a `long` in an `int` yields a value in 32-bit range, and keeps any value already in that range. |
| Coordinates.NormalizeAsWritten | lib/Bio/Easel/SqFile.c:250-269 | The normaliser as written chooses the same strand as the intended one. |
| Coordinates.LongStartIsTruncated | lib/Bio/Easel/SqFile.c:250-268 | A start of 2^31 reaches the fetch as -2^31 in the code as written, but stays 2^31 in the 64-bit normaliser. |
| Coordinates.AsWrittenAgreesInRange | lib/Bio/Easel/SqFile.c:250-268 | When both coordinates fit in 32 bits, the code as written and the intended normaliser agree. |
| Decimal.NatToDecimal | lib/Bio/Easel/SqFile.c:553 | The `%PRId64` rendering of a non-negative value is at least one character long, all digits, with no leading zero except for 0 itself. |
| Decimal.IntToDecimal | lib/Bio/Easel/SqFile.c:275 | The `%d` rendering of a non-negative value is its decimal digits. A negative value's rendering is `-` followed by the digits of its magnitude, and only a negative value's starts with `-`. |
| Decimal.DecimalRoundTrip | lib/Bio/Easel/SqFile.c:553 | Reading the rendering back gives the value. |
| Decimal.DecimalInjective | lib/Bio/Easel/SqFile.c:553 | Different values have different renderings. |
| Decimal.DecimalWidthBounds | lib/Bio/Easel/SqFile.c:549-551 | If the rendering of v has w digits, then 10^(w-1) <= v < 10^w for v >= 1, and 0 has width 1. |
| Decimal.DecimalWidth | lib/Bio/Easel/SqFile.c:804-806 | The divide-by-ten loop returns exactly the length of the decimal rendering. |
| Decimal.Snprintf | lib/Bio/Easel/SqFile.c:553 | The copy is a prefix of the text, holding at most `size - 1` characters. |
| Fasta.SeqString | lib/Bio/Easel/SqFile.c:297-358 | Rendering fails exactly when textizing a digital sequence fails, and the error names the caller's key. On success the output begins with the definition line `>name[ acc][ desc]\n`. |
| Fasta.SqToSeqString | lib/Bio/Easel/SqFile.c:297-358 | The growing-buffer renderer produces exactly `SeqString`, and the count `n` it keeps equals the length of what it wrote. |
| Fasta.AppendField | lib/Bio/Easel/SqFile.c:317-332 | The accession or description is appended, after one space, only when it is non-empty. The running length stays equal to the buffer's length. |
| Fasta.AppendLines | lib/Bio/Easel/SqFile.c:344-353 | The `pos += textw` loop appends the residues as consecutive lines of `textw`, each followed by a newline, and keeps the running length exact. |
| Fasta.LinesShape | lib/Bio/Easel/SqFile.c:344-352 | There are `ceil(n/textw)` lines and none for an empty sequence. Every line but the last is exactly `textw` long, and the last has 1 to `textw` residues. |
| Fasta.LinesCount | lib/Bio/Easel/SqFile.c:344-352 | The number of lines is `(n + textw - 1) / textw`. |
| Fasta.LinesConcat | lib/Bio/Easel/SqFile.c:344-352 | The lines joined without separators give back the residues. |
| Fasta.ResidueBlockRoundTrip | lib/Bio/Easel/SqFile.c:336-353 | For either kind of width, removing the newlines from the residue part gives back the sequence. |
| Fasta.ResidueBlockEnds | lib/Bio/Easel/SqFile.c:336-353 | The residue part is empty exactly for an empty sequence at a positive width. Otherwise it ends with a newline. |
| Fasta.HeaderRoundTrip | lib/Bio/Easel/SqFile.c:309-335 | The definition line holds no newline. A FASTA reader gets back the name as its first word, and the accession and description as the rest of the line. |
| Fasta.ZeroWidthNeverAdvances | lib/Bio/Easel/SqFile.c:345-352 | Width 0 passes the callers' check. Yet for a non-empty sequence, `k` rounds of the wrapping loop as written leave the position at 0 and the output as `k` empty lines, so the loop never ends. |
| Fasta.CheckDiffersOnlyAtZero | lib/Bio/Easel/SqFile.c:378 | The corrected check differs from the check as written only at width 0. |
| Ssi.FindPrimary | lib/Bio/Easel/SqFile.c:596-598 | The lookup finds the first primary key with the name, and finds none exactly when no primary key has it. |
| Ssi.FindName | lib/Bio/Easel/SqFile.c:203-204 | A key resolves exactly when it is a primary name or a secondary key of an existing primary. A primary name takes precedence over a secondary key. |
| Ssi.FindNumber | lib/Bio/Easel/SqFile.c:543 | An ordinal resolves exactly when it is in `0..nprimary-1`. |
| Ssi.CheckSeqExists | lib/Bio/Easel/SqFile.c:616-632 | Without an index this is fatal. Otherwise the answer is 1 for a known key and 0 for an unknown one. |
| Ssi.SeqLengthGivenName | lib/Bio/Easel/SqFile.c:586-603 | Without an index this is fatal. The answer is -1 exactly when the key is unknown; otherwise it is the stored length of the key's primary entry. |
| Ssi.FindByOwnName | lib/Bio/Easel/SqFile.c:586-632 | In a valid index every primary name resolves to its own entry. Its existence answer is 1 and its length answer is its stored length. |
| Ssi.FindByAlias | lib/Bio/Easel/SqFile.c:203-204 | A secondary key that is not also a primary name resolves to the primary entry it names. |
| Ssi.NseqSsi | lib/Bio/Easel/SqFile.c:755-760 | Without an index this is fatal. Otherwise the answer is the number of primary keys. |
| Ssi.NresSsi | lib/Bio/Easel/SqFile.c:771-813 | Without an index this is fatal. Otherwise the loop over ordinals, the width count and the `snprintf` give the decimal rendering of the sum of all stored lengths, zero lengths included. |
| Ssi.TotalLengthAppend | lib/Bio/Easel/SqFile.c:785-801 | The sum over two lists of keys joined is the sum of the sums. |
| Ssi.TotalLengthBounds | lib/Bio/Easel/SqFile.c:785-801 | Each length is at most the total. The total is 0 exactly when every length is 0. |
| Ssi.TotalLengthPermutation | lib/Bio/Easel/SqFile.c:785-801 | The total does not depend on the order of the keys, so sorting the index on disk does not change it. |
| Ssi.SeqNameAndLengthGivenSsiNumber | lib/Bio/Easel/SqFile.c:530-566 | Without an index, or with an ordinal outside `0..nprimary-1`, this is fatal. Otherwise the answer is the key's name, one space, and its length in decimal. |
| Ssi.NameAndLengthRoundTrip | lib/Bio/Easel/SqFile.c:530-566 | When the name holds no space, splitting the answer at its first space gives back that ordinal's name and length. |
| Ssi.AliasMap | lib/Bio/Easel/SqFile.c:145-147 | The secondary-key map has a key exactly when some added alias has it. |
| Ssi.AliasMapLookup | lib/Bio/Easel/SqFile.c:145-147 | With distinct secondary keys, each key maps to the primary name it was added with. |
| Ssi.Persist | lib/Bio/Easel/SqFile.c:163 | Writing succeeds exactly when primary names are distinct and secondary keys are distinct, and fails with the write error otherwise. The written primary keys are the keys added, rearranged into ascending name order; the aliases and the layout are kept. |
| Ssi.SortedPermutationUnique | lib/Bio/Easel/SqFile.c:511-514 | Two lists of keys in strict name order holding the same keys are equal, so the keys alone fix which key each ordinal names. |
| Ssi.SortByName | lib/Bio/Easel/SqFile.c:163 | Sorting keeps exactly the keys it was given. |
| Ssi.InsertByName | lib/Bio/Easel/SqFile.c:163 | Inserting a key adds exactly that key. |
| Ssi.SortSorted | lib/Bio/Easel/SqFile.c:163 | Keys with distinct names come out in strict name order. |
| Ssi.InsertSorted | lib/Bio/Easel/SqFile.c:163 | Inserting a new name into a list in name order keeps it in name order. |
| Ssi.SortedUnique | lib/Bio/Easel/SqFile.c:163 | Names in strict order are distinct, so a written index has unique primary names. |
| Ssi.SortedHead | lib/Bio/Easel/SqFile.c:511-514 | The key at ordinal 0 of a sorted list comes first in name order among its keys. |
| Ssi.HasNamePermutation | lib/Bio/Easel/SqFile.c:163 | Reordering the keys does not change which names they hold. |
| Ssi.NameBeforeIrreflexive | lib/Bio/Easel/SqFile.c:163 | No name comes before itself in `strcmp` order. |
| Ssi.NameBeforeTransitive | lib/Bio/Easel/SqFile.c:163 | `strcmp` order is transitive. |
| Ssi.NameBeforeTotal | lib/Bio/Easel/SqFile.c:163 | Of two different names, one comes before the other in `strcmp` order. |
| Ssi.PersistValid | lib/Bio/Easel/SqFile.c:163 | A written index whose aliases name existing primaries is valid. |
| Build.NewSsi.AddFile | lib/Bio/Easel/SqFile.c:134 | A new file's handle is the number of files added before it. |
| Build.NewSsi.AddKey | lib/Bio/Easel/SqFile.c:142-143 | Appends one primary key and changes nothing else. |
| Build.NewSsi.AddAlias | lib/Bio/Easel/SqFile.c:145-147 | Appends one secondary key and changes nothing else. |
| Build.NewSsi.SetSubseq | lib/Bio/Easel/SqFile.c:157-159 | Records the layout and changes nothing else. |
| Build.LayoutOf | lib/Bio/Easel/SqFile.c:157-160 | A layout is recorded exactly when both bytes per line and residues per line are positive. |
| Build.ScanSucceeds | lib/Bio/Easel/SqFile.c:137-150 | Over records only, the pass gathers one primary key per record in file order, and one secondary key per non-empty accession. |
| Build.ScanFails | lib/Bio/Easel/SqFile.c:137-154 | The pass ends with the error of the first chunk that is not a named record: a parse failure, another read status, or a missing name numbered by its position in the pass. |
| Build.KeysFromShape | lib/Bio/Easel/SqFile.c:142-143 | There is one key per record, and key m is `(name, fh, roff, doff, L)` of record `start + m`. |
| Build.AliasesFromContents | lib/Bio/Easel/SqFile.c:145-148 | An alias `acc -> name` is gathered exactly when some record has that non-empty accession and that name. It need not differ from the name. |
| Build.BuiltIndex | lib/Bio/Easel/SqFile.c:137-163 | A successful build saw only records. Its primary keys are exactly the records' keys, in name order. Its layout is `LayoutOf`, and it is valid. |
| Build.AliasesNameKeys | lib/Bio/Easel/SqFile.c:145-148 | Every gathered alias names a gathered primary key. |
| Build.FirstNonRecord | lib/Bio/Easel/SqFile.c:137-154 | A file that is not all records from the start has a first non-record chunk. |
| Build.BuildFails | lib/Bio/Easel/SqFile.c:137-163 | A build fails exactly when some chunk is not a named record, or primary names repeat, or accessions repeat. Over records only, the failure is the write error. |
| Fetch.ReadRecord | lib/Bio/Easel/SqFile.c:210-213 | A read succeeds exactly at a named record and moves past it. A failed read leaves the position. Reading past the end is the unexpected-EOF error. |
| Fetch.FetchOne | lib/Bio/Easel/SqFile.c:191-221 | Without a key this is the next read. With a key, a missing index or an unknown key is fatal, and an accepted record is one that the key names by name or by accession. |
| Fetch.FetchSubseq | lib/Bio/Easel/SqFile.c:272 | A fetched subsequence has a source length of at least 1. |
| Fetch.FetchOneSubsequence | lib/Bio/Easel/SqFile.c:248-285 | A missing index is fatal. A key the index does not know fails the fetch and leaves the position. Every fetched subsequence carries the name `SubseqName` gives. |
| Fetch.SubseqOnRecord | lib/Bio/Easel/SqFile.c:248-285 | For every request on a record the key finds, take `c` as the normalised coordinates and `last` as the end they reach. A range inside the record yields exactly the residues `c.start..last`, reverse complemented exactly when `c.revcomp`, under `SubseqName`, and the position moves past the record. A failed reverse complement is the revcomp error. A range outside the record is refused and the position stays. |
| Fetch.OneResidue | lib/Bio/Easel/SqFile.c:259-280 | A one-residue request `a..a` returns the reverse complement of that residue when the flag is set, and the residue itself when it is not, named `key/a-a`. |
| Fetch.Suffix | lib/Bio/Easel/SqFile.c:259-275 | A suffix request `a..0` returns the residues from `a` to the end on the forward strand, whatever the flag, named `key/a-L`. |
| Fetch.FetchSeqToFastaString | lib/Bio/Easel/SqFile.c:370-390 | An invalid width is refused before anything moves. A failed fetch is reported unchanged. |
| Fetch.FetchSeqToFastaStringGivenSsiNumber | lib/Bio/Easel/SqFile.c:404-438 | An invalid width, a missing index and an unknown ordinal are refused, in that order, before anything moves. |
| Fetch.FetchSubseqToFastaString | lib/Bio/Easel/SqFile.c:485-507 | An invalid width, then a missing index, is refused before anything moves. A failed subsequence fetch is passed on with its own error. |
| Fetch.BuiltKey | lib/Bio/Easel/SqFile.c:137-163 | After a successful build, the record at chunk k is the primary key at some ordinal, and the index is valid. |
| Fetch.BuiltOrdinal | lib/Bio/Easel/SqFile.c:137-163 | After a successful build, every ordinal holds the key of some record from the start of the pass, and the ordinals run in name order. |
| Fetch.FetchByName | lib/Bio/Easel/SqFile.c:191-221 | Fetching any record of a built index by its name returns that record and leaves the position after it, wherever the position was. |
| Fetch.FetchByAccession | lib/Bio/Easel/SqFile.c:191-221 | Fetching by a non-empty accession that is no record's name returns the record carrying it, under its primary name. |
| Fetch.BuiltAlias | lib/Bio/Easel/SqFile.c:145-148 | A record's non-empty accession maps to its name in the built index. |
| Fetch.QueriesOnBuiltIndex | lib/Bio/Easel/SqFile.c:530-632 | On a built index every record exists (answer 1), and its length answer is its residue count. Some ordinal answers with its `name + " " + L`. |
| Fetch.OrdinalsOnBuiltIndex | lib/Bio/Easel/SqFile.c:511-566 | On a built index every ordinal answers with the name and length of some record of the file. Each ordinal's name comes after the previous ordinal's in name order, not file order. |
| Fetch.TotalIsResidueCount | lib/Bio/Easel/SqFile.c:785-801 | The summed key lengths equal the residues of the records. |
| Fetch.AggregatesOnBuiltIndex | lib/Bio/Easel/SqFile.c:755-801 | On a built index, `nseq` is the number of records read and `nres` sums their residues. |
| Fetch.FastaByName | lib/Bio/Easel/SqFile.c:370-390 | In text mode, fetching a record by name as FASTA gives its definition line and its residues laid out at the width. |
| Fetch.FastaByOrdinal | lib/Bio/Easel/SqFile.c:404-438 | In text mode, fetching ordinal j as FASTA gives the FASTA record of the record the ordinal points at, and moves past it. |
| Fetch.FastaByOrdinalOnBuiltIndex | lib/Bio/Easel/SqFile.c:404-438 | In text mode, on a built index, every ordinal fetches as FASTA the record of the file whose name it holds. |
| Fetch.FastaSubseqOnRecord | lib/Bio/Easel/SqFile.c:485-507 | In text mode, an in-range forward subsequence request gives the FASTA record of those residues, under the subsequence's name and the record's accession and description. A reverse request gives the rendering of the reverse complement, which is the FASTA record of `rc` when the complement is text, or the revcomp error when there is none. An out-of-range request is refused. |
| Fetch.ForwardFound | lib/Bio/Easel/SqFile.c:259-281 | A forward range of the record a key finds holds exactly those residues under the default name. The position moves past the record. |
| Fetch.WholeFound | lib/Bio/Easel/SqFile.c:259-281 | Coordinates `1..0` of the record a key finds return all its residues, named with its length as the end. |
| Fetch.BuiltLookup | lib/Bio/Easel/SqFile.c:137-163 | After a successful build, every record from the start of the pass is found by its own name at its own offset. |
| Fetch.ReverseFound | lib/Bio/Easel/SqFile.c:259-281 | A descending range fetches `b..a` and returns its reverse complement under the name in the given order. |
| Fetch.ForwardSubseq | lib/Bio/Easel/SqFile.c:248-285 | On a built index, a forward range of a record fetched by name holds exactly those residues, named `name/a-b`. |
| Fetch.ReverseSubseq | lib/Bio/Easel/SqFile.c:248-285 | On a built index, a descending request returns the reverse complement of the ascending range. |
| Fetch.WholeRecordSubseq | lib/Bio/Easel/SqFile.c:248-285 | On a built index, coordinates `1..0` return the whole record, named with `L` as its end. |
| SqFileHandle.SqFile.constructor | lib/Bio/Easel/SqFile.c:36-68 | A newly opened file is at its start with no index attached. |
| SqFileHandle.SqFile.OpenSsiIndex | lib/Bio/Easel/SqFile.c:89-104 | When an index file exists it is attached and the status is OK. Otherwise the status is "not found" and nothing changes. |
| SqFileHandle.SqFile.CreateSsiIndex | lib/Bio/Easel/SqFile.c:115-170 | The read loop and the new-index object succeed exactly when `BuildIndex` does, and fail with its error. On success the index file holds `BuildIndex`'s index and the file is rewound to 0. The attached index is untouched. |
| SqFileHandle.SqFile.Read | lib/Bio/Easel/SqFile.c:210-213 | The result and the new position are those of `ReadRecord`. |
| SqFileHandle.SqFile.FetchOneSequence | lib/Bio/Easel/SqFile.c:191-221 | The result and the new position are those of `FetchOne`. |
| SqFileHandle.SqFile.FetchOneSubsequence | lib/Bio/Easel/SqFile.c:248-285 | The result and the new position are those of `Fetch.FetchOneSubsequence`. |
| SqFileHandle.SqFile.FetchSeqToFastaString | lib/Bio/Easel/SqFile.c:370-390 | The result and the new position are those of `Fetch.FetchSeqToFastaString`, rendered by the buffer method. |
| SqFileHandle.SqFile.FetchSeqToFastaStringGivenSsiNumber | lib/Bio/Easel/SqFile.c:404-438 | The result and the new position are those of the ordinal fetch specification. |
| SqFileHandle.SqFile.FetchSubseqToFastaString | lib/Bio/Easel/SqFile.c:485-507 | The result and the new position are those of the subsequence FASTA specification. |
| SqFileHandle.BuildThenFetch | lib/Bio/Easel/SqFile.c:115-221 | Building the index, attaching it and fetching any record by name returns that record from the rewound file. |
| Compare.SameResidues | lib/Bio/Easel/SqFile.c:672-684 | Different lengths answer 0. Otherwise the answer is 1 exactly when the residues are equal. The internal error is raised exactly for equal lengths in different representations. |
| Compare.CheckPair | lib/Bio/Easel/SqFile.c:660-666 | The pre-checks pass exactly when both handles have an index and the same mode. |
| Compare.SameResiduesReflexive | lib/Bio/Easel/SqFile.c:672-684 | Any residues compared with themselves answer 1. |
| Compare.SameResiduesSymmetric | lib/Bio/Easel/SqFile.c:672-684 | Swapping the operands changes nothing. |
| Compare.KeyedFetchIgnoresPosition | lib/Bio/Easel/SqFile.c:202-213 | A keyed fetch's result does not depend on the position, and neither does the position a successful one leaves, so comparing a handle with itself is sound. |
| Compare.SubseqFetchIgnoresPosition | lib/Bio/Easel/SqFile.c:248-285 | The same holds for a subsequence fetch: its result, and the position a successful one leaves. |
| Compare.FetchedMode | lib/Bio/Easel/SqFile.c:198-213 | A fetched sequence is digital exactly when its handle is. |
| Compare.ForwardSubseqMode | lib/Bio/Easel/SqFile.c:259-281 | A subsequence that is not reverse complemented is digital exactly when its handle is. |
| Compare.SubseqMode | lib/Bio/Easel/SqFile.c:259-281 | Every subsequence, on either strand, is digital exactly when its handle is, given a reverse complement that keeps the representation. |
| Compare.SeqToSeqMeaning | lib/Bio/Easel/SqFile.c:656-686 | The answer is 1 exactly when the checks pass, both fetches succeed and the residues are equal, and 0 exactly when they differ. The internal error is never reached. |
| Compare.SeqToSeqSymmetric | lib/Bio/Easel/SqFile.c:656-686 | Swapping the operands gives the same success and the same answer. |
| Compare.SeqToSeqReflexive | lib/Bio/Easel/SqFile.c:656-686 | A sequence compared with itself succeeds exactly when it can be fetched, and then answers 1. |
| Compare.SeqToSubseqForward | lib/Bio/Easel/SqFile.c:712-742 | Without a descending range, the answer is 1 exactly when the residues are equal and 0 exactly when they differ, and the internal error is never reached. |
| Compare.SeqToSubseqMeaning | lib/Bio/Easel/SqFile.c:700-742 | For any range, descending ones included, the answer is 1 exactly when the checks pass, both fetches succeed and the residues are equal, and 0 exactly when they differ. The internal error is never reached. This holds given a reverse complement that keeps the representation and length. |
| Compare.SeqToWholeSubseq | lib/Bio/Easel/SqFile.c:712-742 | A fetchable non-empty sequence compared with its own range `1..0` answers 1. |
| Compare.CompareSeqToSeq | lib/Bio/Easel/SqFile.c:656-686 | On two open handles, which may be the same handle, the answer is `SeqToSeqVerdict` of their states before the call. Both handles keep their attached index and index file. After an answer, the second handle is just past its fetched record, and so is the first when it is a different handle. |
| Compare.CompareSeqToSubseq | lib/Bio/Easel/SqFile.c:712-742 | The same for the subsequence variant, with the one-residue flag off. The second handle's position is the one the subsequence fetch leaves. |

## Left out

- Perl marshalling: the object wrappers, `SV` returns and `newSVpv` are not modelled; results are Dafny values.
- File opening, format detection and alphabet guessing: `_c_open_sqfile` becomes the constructor's parameters.
- `_c_close_sqfile`: there is nothing to free in the model.
- Index-open rejections: the gzip, alignment, bad-format and 64-bit rejections of `_c_open_ssi_index` are not modelled. They depend on file contents the model does not hold.
- The on-disk SSI format:
  - The writer's sort is modelled as an insertion sort on names, in `strcmp` order, which is character code order here. `Ssi.SortedPermutationUnique` shows that any sort gives the same order. Secondary keys are a map, so their on-disk order is not modelled.
  - Writing is modelled as failing on a repeated primary name or a repeated secondary key. This is Easel's duplicate-key rule, taken as an assumption about `esl_newssi_Write`.
  - Easel's write can fail for other reasons (I/O); these are not modelled.
- Index-open failure from creation: the "open a new index file" failure is not modelled, nor is the overwrite refusal, which the source itself says cannot happen.
- SqFileHandle.SqFile.CreateSsiIndex: on failure the read position and the index file are left unspecified. The new index is opened for overwriting before the pass (line 129), and Easel's writer is not part of this model.
- Record parsing, digitizing, textizing and reverse complement are oracles:
  - A textize or reverse-complement failure is an abstract error.
  - Compare.SeqToSubseqMeaning, Compare.SubseqMode: these assume `RevcompKeepsShape`. It says a reverse complement has the representation and the length of its input, as Easel's `esl_sq_ReverseComplement` does in place. Easel's code is not part of this model. Without the assumption, `Compare.SeqToSubseqForward` covers ascending ranges only.
  - `esl_sqio_FetchSubseq`'s fast path using the layout is not modelled. The oracle returns the same residues either way.
  - Where the oracle leaves the position after a subsequence fetch is an assumption.
  - That the fetched subsequence carries its record's accession and description is an assumption: Easel's subsequence fetch is taken to parse the record's header before its residues.
- Fetch.ReadRecord: a full read of a record without a name reports an error. The C code would instead go on to dereference a NULL name.
- Memory failures and the mechanics of `croak`: every `croak` is a `Failure` with an error naming its cause. Memory-exhaustion and "something wrong with SSI index" statuses of Easel's lookups are not modelled.
- Integer widths:
  - `nres` and lengths are unbounded here; the source's `int64_t` overflow is not modelled.
  - The `nres` loop's "there is no sequence i" error cannot happen for `i < nprimary` and is not modelled.
  - Printing the `long` coordinates with `%d` is not modelled separately from the narrowing reported below.
- Compare.CompareSeqToSeq, Compare.CompareSeqToSubseq: after a fatal error the handles' positions are not stated; the binding has died by then.
- Fetch.FastaByOrdinal, Fetch.FastaByOrdinalOnBuiltIndex, Fetch.FastaByName, Fetch.FastaSubseqOnRecord: the FASTA text is stated for text-mode handles only. In digital mode it depends on the textize oracle, which the model leaves uninterpreted.
- The `n+2` sentinel bytes of the digital `memcmp`: comparison is equality of residue sequences.
- Fasta.SeqString: on success it states only that the output begins with the definition line. The rest of the output (the residues at the width) is stated by `Fasta.SqToSeqString`, `Fasta.ResidueBlockRoundTrip` and `Fasta.LinesShape`.

## Findings

| source | as written | input that shows it | evidently intended | confidence | as-written member | corrected member |
|---|---|---|---|---|---|---|
| lib/Bio/Easel/SqFile.c:250-268 | `start` and `end` are `int`, assigned from the `long` coordinates | `given_start = 2147483648, given_end = 0` reaches the fetch as start -2147483648 | keep the 64-bit coordinates the function takes | not executed | Coordinates.NormalizeAsWritten | Coordinates.Normalize |
| lib/Bio/Easel/SqFile.c:378 | the width check refuses only negative widths other than -1 | `textw = 0` with any non-empty sequence: the loop at line 345 never advances | accept only -1 or a positive width | not executed | Fasta.ZeroWidthNeverAdvances | Fasta.ValidTextw |
