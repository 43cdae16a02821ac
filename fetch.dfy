/** Fetching from a sequence file through its index, stated as functions of
    the file's chunks, the handle's mode and index, and the read position:
    `_c_fetch_one_sequence`, `_c_fetch_one_subsequence` and the three
    FASTA fetches built on `_c_sq_to_seqstring`. */
module Fetch {
  import opened Wrappers
  import opened SeqTypes
  import opened Decimal
  import opened Coordinates
  import opened Fasta
  import opened Ssi
  import opened Build

  /** The residues of a record as the handle holds them: digitized in
      digital mode, as text otherwise. */
  function ResiduesOf(text: string, digital: bool, abc: Alphabet): Residues {
    if digital then Digital(abc.digitize(text)) else Text(text)
  }

  /** The sequence the record parser makes of a record. */
  function ToSq(rec: RawRecord, digital: bool, abc: Alphabet): Sq {
    Sq(rec.name, rec.acc, rec.desc, ResiduesOf(rec.residues, digital, abc), |rec.residues|)
  }

  /** The error a read at a chunk that is not a named record raises. */
  function ReadFailure(c: Chunk): Error
    requires !c.Record?
  {
    match c
    case Garbled => ParseFailed
    case ReadError(code) => ReadFailed(code)
    case Nameless => NamelessRecord
  }

  /** `esl_sqio_Read` at position `pos` with the binding's status checks:
      the record and the position after it, or the error (the position is
      then left where it was). */
  function ReadRecord(chunks: seq<Chunk>, digital: bool, abc: Alphabet, pos: nat): (r: (Result<Sq, Error>, nat))
    ensures r.0.Success? <==> pos < |chunks| && chunks[pos].Record?
    ensures r.0.Success? ==> r.0.value == ToSq(chunks[pos].rec, digital, abc) && r.1 == pos + 1
    ensures r.0.Failure? ==> r.1 == pos
    ensures pos >= |chunks| ==> r.0 == Failure(UnexpectedEof)
  {
    if pos >= |chunks| then (Failure(UnexpectedEof), pos)
    else if !chunks[pos].Record? then (Failure(ReadFailure(chunks[pos])), pos)
    else (Success(ToSq(chunks[pos].rec, digital, abc)), pos + 1)
  }

  /** `_c_fetch_one_sequence`: with a key, look it up in the index, move to
      its record and read it, refusing a record that the key names neither
      by name nor by accession; without a key, read the next record. */
  function FetchOne(chunks: seq<Chunk>, digital: bool, abc: Alphabet, ssi: Option<SsiIndex>, pos: nat, key: Option<string>)
    : (r: (Result<Sq, Error>, nat))
    ensures key.None? ==> r == ReadRecord(chunks, digital, abc, pos)
    ensures key.Some? && ssi.None? ==> r.0 == Failure(NoIndex)
    ensures key.Some? && ssi.Some? && !Known(ssi.value, key.value) ==> r.0 == Failure(KeyNotFound(key.value))
    ensures key.Some? && r.0.Success? ==> key.value == r.0.value.name || key.value == r.0.value.acc
  {
    match key
    case None => ReadRecord(chunks, digital, abc, pos)
    case Some(k) =>
      if ssi.None? then (Failure(NoIndex), pos)
      else
        match FindName(ssi.value, k)
        case None => (Failure(KeyNotFound(k)), pos)
        case Some(p) =>
          var (res, next) := ReadRecord(chunks, digital, abc, p.roff);
          if res.Success? && k != res.value.name && k != res.value.acc then
            (Failure(WrongSequence(res.value.name, k)), next)
          else (res, next)
  }

  /** `esl_sqio_FetchSubseq`, which the binding cannot see, as an oracle: the
      record the key names, an end of 0 meaning its last residue, the range
      required to lie within the record, the residues `start..end` (1-based,
      inclusive) and the record's full length; the position afterwards is
      the one after the record. */
  function FetchSubseq(chunks: seq<Chunk>, digital: bool, abc: Alphabet, idx: SsiIndex, pos: nat, key: string, start: int, end: int)
    : (r: (Result<Sq, SubseqProblem>, nat))
    ensures r.0.Success? ==> r.0.value.L >= 1
  {
    match FindName(idx, key)
    case None => (Failure(SubseqKeyNotFound), pos)
    case Some(p) =>
      if p.roff >= |chunks| || !chunks[p.roff].Record? then (Failure(SubseqBadRecord), pos)
      else
        var rec := chunks[p.roff].rec;
        var L := |rec.residues|;
        var last := if end == 0 then L else end;
        if !(1 <= start <= last <= L) then (Failure(SubseqOutOfRange), pos)
        else (Success(Sq(key, rec.acc, rec.desc, ResiduesOf(rec.residues[start - 1..last], digital, abc), L)), p.roff + 1)
  }

  /** `_c_fetch_one_subsequence`: normalise the coordinates, fetch the top
      strand range, name it, and reverse complement it when the coordinates
      (or the single-residue flag) ask for the bottom strand. */
  function FetchOneSubsequence(chunks: seq<Chunk>, digital: bool, abc: Alphabet, ssi: Option<SsiIndex>, pos: nat,
                               key: string, newname: Option<string>, givenStart: int, givenEnd: int, doResRevcomp: bool)
    : (r: (Result<Sq, Error>, nat))
    ensures ssi.None? ==> r.0 == Failure(NoIndex)
    ensures ssi.Some? && !Known(ssi.value, key) ==> r == (Failure(SubseqFailed(SubseqKeyNotFound)), pos)
    ensures r.0.Success? ==> r.0.value.name == SubseqName(key, newname, givenStart, givenEnd, r.0.value.L)
  {
    if ssi.None? then (Failure(NoIndex), pos)
    else
      var c := Normalize(givenStart, givenEnd, doResRevcomp);
      var (fetched, next) := FetchSubseq(chunks, digital, abc, ssi.value, pos, key, c.start, c.end);
      match fetched
      case Failure(problem) => (Failure(SubseqFailed(problem)), next)
      case Success(sq) =>
        var named := sq.(name := SubseqName(key, newname, givenStart, givenEnd, sq.L));
        if !c.revcomp then (Success(named), next)
        else
          match abc.revcomp(named.data)
          case None => (Failure(RevcompFailed(named.name)), next)
          case Some(d) => (Success(named.(data := d)), next)
  }

  /** The label `_c_sq_to_seqstring` puts in its error message. */
  function KeyLabel(key: Option<string>): string {
    if key.Some? then key.value else ""
  }

  /** `_c_fetch_seq_to_fasta_string` (and, with no key,
      `_c_fetch_next_seq_to_fasta_string`): check the width, fetch, render. */
  function FetchSeqToFastaString(chunks: seq<Chunk>, digital: bool, abc: Alphabet, ssi: Option<SsiIndex>, pos: nat,
                                 key: Option<string>, textw: int)
    : (r: (Result<string, Error>, nat))
    ensures !ValidTextw(textw) ==> r == (Failure(InvalidTextw), pos)
    ensures ValidTextw(textw) && FetchOne(chunks, digital, abc, ssi, pos, key).0.Failure? ==>
      r.0 == Failure(FetchOne(chunks, digital, abc, ssi, pos, key).0.error)
  {
    if !ValidTextw(textw) then (Failure(InvalidTextw), pos)
    else
      var (fetched, next) := FetchOne(chunks, digital, abc, ssi, pos, key);
      match fetched
      case Failure(e) => (Failure(e), next)
      case Success(sq) => (SeqString(sq, textw, KeyLabel(key), abc), next)
  }

  /** `_c_fetch_seq_to_fasta_string_given_ssi_number`: check the width and
      the index, move to the record of ordinal `nkey`, read and render it. */
  function FetchSeqToFastaStringGivenSsiNumber(chunks: seq<Chunk>, digital: bool, abc: Alphabet, ssi: Option<SsiIndex>, pos: nat,
                                              nkey: int, textw: int)
    : (r: (Result<string, Error>, nat))
    ensures !ValidTextw(textw) ==> r == (Failure(InvalidTextw), pos)
    ensures ValidTextw(textw) && ssi.None? ==> r == (Failure(NoIndex), pos)
    ensures ValidTextw(textw) && ssi.Some? && !(0 <= nkey < |ssi.value.primaries|) ==> r == (Failure(OrdinalNotFound(nkey)), pos)
  {
    if !ValidTextw(textw) then (Failure(InvalidTextw), pos)
    else if ssi.None? then (Failure(NoIndex), pos)
    else
      match FindNumber(ssi.value, nkey)
      case None => (Failure(OrdinalNotFound(nkey)), pos)
      case Some(p) =>
        var (fetched, next) := ReadRecord(chunks, digital, abc, p.roff);
        match fetched
        case Failure(e) => (Failure(e), next)
        case Success(sq) => (SeqString(sq, textw, sq.name, abc), next)
  }

  /** `_c_fetch_subseq_to_fasta_string`: check the width and the index,
      fetch the subsequence, render it. */
  function FetchSubseqToFastaString(chunks: seq<Chunk>, digital: bool, abc: Alphabet, ssi: Option<SsiIndex>, pos: nat,
                                    key: string, newname: Option<string>, givenStart: int, givenEnd: int, textw: int, doResRevcomp: bool)
    : (r: (Result<string, Error>, nat))
    ensures !ValidTextw(textw) ==> r == (Failure(InvalidTextw), pos)
    ensures ValidTextw(textw) && ssi.None? ==> r == (Failure(NoIndex), pos)
    ensures ValidTextw(textw) && FetchOneSubsequence(chunks, digital, abc, ssi, pos, key, newname, givenStart, givenEnd, doResRevcomp).0.Failure? ==>
      r.0 == Failure(FetchOneSubsequence(chunks, digital, abc, ssi, pos, key, newname, givenStart, givenEnd, doResRevcomp).0.error)
  {
    if !ValidTextw(textw) then (Failure(InvalidTextw), pos)
    else if ssi.None? then (Failure(NoIndex), pos)
    else
      var (fetched, next) := FetchOneSubsequence(chunks, digital, abc, ssi, pos, key, newname, givenStart, givenEnd, doResRevcomp);
      match fetched
      case Failure(e) => (Failure(e), next)
      case Success(sq) => (SeqString(sq, textw, key, abc), next)
  }

  // ---- Fetching through an index built from the same file.

  /** The record at chunk `k` of a file whose pass from `start` succeeded is
      the primary key at some ordinal `j` of the index. */
  lemma BuiltKey(chunks: seq<Chunk>, start: nat, fh: nat, bpl: int, rpl: int, k: nat) returns (j: nat)
    requires BuildIndex(chunks, start, fh, bpl, rpl).Success?
    requires start <= k < |chunks|
    ensures chunks[k].Record?
    ensures var idx := BuildIndex(chunks, start, fh, bpl, rpl).value;
      j < |idx.primaries| && idx.primaries[j] == KeyOf(chunks[k].rec, fh, k) && Valid(idx)
  {
    var ps := BuildIndex(chunks, start, fh, bpl, rpl).value.primaries;
    BuiltIndex(chunks, start, fh, bpl, rpl);
    KeysFromShape(chunks, start, fh);
    var keys := KeysFrom(chunks, start, fh);
    assert keys[k - start] in multiset(ps);
    j :| 0 <= j < |ps| && ps[j] == keys[k - start];
  }

  /** Conversely, every ordinal of the index holds the key of some record
      from `start` on, and the ordinals run in name order. */
  lemma BuiltOrdinal(chunks: seq<Chunk>, start: nat, fh: nat, bpl: int, rpl: int, j: int) returns (k: nat)
    requires BuildIndex(chunks, start, fh, bpl, rpl).Success?
    requires 0 <= j < |BuildIndex(chunks, start, fh, bpl, rpl).value.primaries|
    ensures start <= k < |chunks| && chunks[k].Record?
    ensures BuildIndex(chunks, start, fh, bpl, rpl).value.primaries[j] == KeyOf(chunks[k].rec, fh, k)
    ensures SortedByName(BuildIndex(chunks, start, fh, bpl, rpl).value.primaries)
  {
    var ps := BuildIndex(chunks, start, fh, bpl, rpl).value.primaries;
    BuiltIndex(chunks, start, fh, bpl, rpl);
    assert AllRecords(chunks, start);
    var keys := KeysFrom(chunks, start, fh);
    var m := PermutedPosition(ps, keys, j);
    KeysFromShape(chunks, start, fh);
    assert m < |chunks| - start;
    k := start + m;
    assert chunks[k].Record?;
    assert keys[m] == KeyOf(chunks[k].rec, fh, k);
  }

  /** An element of a sequence sits somewhere in any permutation of it. */
  lemma PermutedPosition<T>(a: seq<T>, b: seq<T>, j: nat) returns (m: nat)
    requires multiset(a) == multiset(b) && j < |a|
    ensures m < |b| && b[m] == a[j]
  {
    assert a[j] in multiset(a);
    m :| 0 <= m < |b| && b[m] == a[j];
  }

  /** Fetching a record by its name through the index returns that record
      and leaves the position after it, wherever the position was. */
  lemma FetchByName(chunks: seq<Chunk>, start: nat, fh: nat, bpl: int, rpl: int, k: nat,
                    digital: bool, abc: Alphabet, pos: nat)
    requires BuildIndex(chunks, start, fh, bpl, rpl).Success?
    requires start <= k < |chunks|
    ensures chunks[k].Record?
    ensures var idx := BuildIndex(chunks, start, fh, bpl, rpl).value;
      FetchOne(chunks, digital, abc, Some(idx), pos, Some(chunks[k].rec.name))
        == (Success(ToSq(chunks[k].rec, digital, abc)), k + 1)
  {
    var idx := BuildIndex(chunks, start, fh, bpl, rpl).value;
    var j := BuiltKey(chunks, start, fh, bpl, rpl, k);
    NameFound(chunks, digital, abc, idx, pos, k, j);
  }

  /** The name step of `FetchByName`, stated on the index alone. */
  lemma NameFound(chunks: seq<Chunk>, digital: bool, abc: Alphabet, idx: SsiIndex, pos: nat, k: nat, j: nat)
    requires Valid(idx) && j < |idx.primaries| && idx.primaries[j].roff == k
    requires k < |chunks| && chunks[k].Record? && idx.primaries[j].name == chunks[k].rec.name
    ensures FetchOne(chunks, digital, abc, Some(idx), pos, Some(chunks[k].rec.name))
      == (Success(ToSq(chunks[k].rec, digital, abc)), k + 1)
  {
    FindByOwnName(idx, j);
    FetchFound(chunks, digital, abc, idx, pos, chunks[k].rec.name, idx.primaries[j]);
  }

  /** Fetching by an accession that is no record's name returns the record
      carrying it, under its primary name. */
  lemma FetchByAccession(chunks: seq<Chunk>, start: nat, fh: nat, bpl: int, rpl: int, idx: SsiIndex, k: nat, rec: RawRecord,
                         digital: bool, abc: Alphabet, pos: nat)
    requires BuildIndex(chunks, start, fh, bpl, rpl) == Success(idx)
    requires start <= k < |chunks| && chunks[k] == Record(rec) && rec.acc != ""
    requires !HasName(idx.primaries, rec.acc)
    ensures FetchOne(chunks, digital, abc, Some(idx), pos, Some(rec.acc)) == (Success(ToSq(rec, digital, abc)), k + 1)
    ensures FetchOne(chunks, digital, abc, Some(idx), pos, Some(rec.acc)).0.value.name == rec.name
  {
    var j := BuiltKey(chunks, start, fh, bpl, rpl, k);
    BuiltAlias(chunks, start, fh, bpl, rpl, k);
    AccessionFound(chunks, digital, abc, idx, pos, k, rec, j);
  }

  /** The accession step of `FetchByAccession`, stated on the index alone. */
  lemma AccessionFound(chunks: seq<Chunk>, digital: bool, abc: Alphabet, idx: SsiIndex, pos: nat, k: nat, rec: RawRecord, j: nat)
    requires Valid(idx) && j < |idx.primaries| && idx.primaries[j].roff == k && idx.primaries[j].name == rec.name
    requires k < |chunks| && chunks[k] == Record(rec)
    requires rec.acc in idx.aliases && idx.aliases[rec.acc] == rec.name && !HasName(idx.primaries, rec.acc)
    ensures FetchOne(chunks, digital, abc, Some(idx), pos, Some(rec.acc)) == (Success(ToSq(rec, digital, abc)), k + 1)
  {
    FindByAlias(idx, rec.acc, j);
    FetchFound(chunks, digital, abc, idx, pos, rec.acc, idx.primaries[j]);
  }

  /** Fetching by a key that the index finds, at a record the key names by
      name or by accession, returns that record and moves past it. */
  lemma FetchFound(chunks: seq<Chunk>, digital: bool, abc: Alphabet, idx: SsiIndex, pos: nat, key: string, p: PrimaryKey)
    requires FindName(idx, key) == Some(p)
    requires p.roff < |chunks| && chunks[p.roff].Record?
    requires key == chunks[p.roff].rec.name || key == chunks[p.roff].rec.acc
    ensures FetchOne(chunks, digital, abc, Some(idx), pos, Some(key)) == (Success(ToSq(chunks[p.roff].rec, digital, abc)), p.roff + 1)
  {
  }

  /** A record's non-empty accession maps to its name in the built index. */
  lemma BuiltAlias(chunks: seq<Chunk>, start: nat, fh: nat, bpl: int, rpl: int, k: nat)
    requires BuildIndex(chunks, start, fh, bpl, rpl).Success?
    requires start <= k < |chunks| && chunks[k].Record? && chunks[k].rec.acc != ""
    ensures var idx := BuildIndex(chunks, start, fh, bpl, rpl).value;
      chunks[k].rec.acc in idx.aliases && idx.aliases[chunks[k].rec.acc] == chunks[k].rec.name
  {
    var rec := chunks[k].rec;
    BuiltIndex(chunks, start, fh, bpl, rpl);
    ScanSucceeds(chunks, start, fh, [], [], 0);
    var aliases := AliasesFrom(chunks, start);
    assert [] + aliases == aliases;
    AliasesFromContents(chunks, start, Alias(rec.acc, rec.name));
    var j :| 0 <= j < |aliases| && aliases[j] == Alias(rec.acc, rec.name);
  }

  /** The index queries agree with the file: every record exists, its
      stored length is its number of residues, and some ordinal answers
      with its name and length. */
  lemma QueriesOnBuiltIndex(chunks: seq<Chunk>, start: nat, fh: nat, bpl: int, rpl: int, k: nat) returns (j: nat)
    requires BuildIndex(chunks, start, fh, bpl, rpl).Success?
    requires start <= k < |chunks|
    ensures chunks[k].Record?
    ensures var idx := BuildIndex(chunks, start, fh, bpl, rpl).value;
      && CheckSeqExists(Some(idx), chunks[k].rec.name) == Success(1)
      && SeqLengthGivenName(Some(idx), chunks[k].rec.name) == Success(|chunks[k].rec.residues|)
      && j < |idx.primaries|
      && NameAndLength(Some(idx), j) == Success(chunks[k].rec.name + " " + NatToDecimal(|chunks[k].rec.residues|))
  {
    var idx := BuildIndex(chunks, start, fh, bpl, rpl).value;
    j := BuiltKey(chunks, start, fh, bpl, rpl, k);
    FindByOwnName(idx, j);
  }

  /** Each ordinal of a built index answers with the name and length of a
      record of the file, in name order rather than file order. */
  lemma OrdinalsOnBuiltIndex(chunks: seq<Chunk>, start: nat, fh: nat, bpl: int, rpl: int, j: int) returns (k: nat)
    requires BuildIndex(chunks, start, fh, bpl, rpl).Success?
    requires 0 <= j < |BuildIndex(chunks, start, fh, bpl, rpl).value.primaries|
    ensures start <= k < |chunks| && chunks[k].Record?
    ensures NameAndLength(Some(BuildIndex(chunks, start, fh, bpl, rpl).value), j)
      == Success(chunks[k].rec.name + " " + NatToDecimal(|chunks[k].rec.residues|))
    ensures 0 < j ==> NameBefore(BuildIndex(chunks, start, fh, bpl, rpl).value.primaries[j - 1].name, chunks[k].rec.name)
  {
    k := BuiltOrdinal(chunks, start, fh, bpl, rpl, j);
  }

  /** The residues of the records from chunk `i` on. */
  function ResidueCount(chunks: seq<Chunk>, i: nat): nat
    requires AllRecords(chunks, i)
    decreases |chunks| - i
  {
    if i >= |chunks| then 0 else |chunks[i].rec.residues| + ResidueCount(chunks, i + 1)
  }

  lemma {:induction false} TotalIsResidueCount(chunks: seq<Chunk>, i: nat, fh: nat)
    requires AllRecords(chunks, i)
    ensures TotalLength(KeysFrom(chunks, i, fh)) == ResidueCount(chunks, i)
    decreases |chunks| - i
  {
    if i < |chunks| {
      TotalIsResidueCount(chunks, i + 1, fh);
      var key := KeyOf(chunks[i].rec, fh, i);
      TotalLengthAppend([key], KeysFrom(chunks, i + 1, fh));
      assert TotalLength([key]) == key.len by {
        assert [key][..0] == [];
      }
    }
  }

  /** The aggregates agree with the file: `nseq` is the number of records
      indexed and `nres` their total number of residues. */
  lemma AggregatesOnBuiltIndex(chunks: seq<Chunk>, start: nat, fh: nat, bpl: int, rpl: int)
    requires BuildIndex(chunks, start, fh, bpl, rpl).Success?
    requires start <= |chunks|
    ensures AllRecords(chunks, start)
    ensures var idx := BuildIndex(chunks, start, fh, bpl, rpl).value;
      && NseqSsi(Some(idx)) == Success(|chunks| - start)
      && TotalLength(idx.primaries) == ResidueCount(chunks, start)
  {
    BuiltIndex(chunks, start, fh, bpl, rpl);
    KeysFromShape(chunks, start, fh);
    TotalIsResidueCount(chunks, start, fh);
    var idx := BuildIndex(chunks, start, fh, bpl, rpl).value;
    TotalLengthPermutation(idx.primaries, KeysFrom(chunks, start, fh));
    assert |idx.primaries| == |multiset(idx.primaries)|;
  }

  /** Fetching a record by name as FASTA from a text-mode file gives its
      definition line and its residues laid out at the requested width. */
  lemma FastaByName(chunks: seq<Chunk>, start: nat, fh: nat, bpl: int, rpl: int, k: nat,
                    abc: Alphabet, pos: nat, textw: int)
    requires BuildIndex(chunks, start, fh, bpl, rpl).Success?
    requires start <= k < |chunks| && ValidTextw(textw)
    ensures chunks[k].Record?
    ensures var idx := BuildIndex(chunks, start, fh, bpl, rpl).value;
      var rec := chunks[k].rec;
      FetchSeqToFastaString(chunks, false, abc, Some(idx), pos, Some(rec.name), textw)
        == (Success(FastaRecord(rec.name, rec.acc, rec.desc, rec.residues, textw)), k + 1)
  {
    FetchByName(chunks, start, fh, bpl, rpl, k, false, abc, pos);
  }

  /** What `FetchSubseq` returns for a key the index finds, at a record
      whose range `start..end` (end 0 meaning the last residue) is in bounds. */
  lemma SubseqFound(chunks: seq<Chunk>, digital: bool, abc: Alphabet, idx: SsiIndex, pos: nat,
                    key: string, p: PrimaryKey, start: int, end: int)
    requires FindName(idx, key) == Some(p)
    requires p.roff < |chunks| && chunks[p.roff].Record?
    requires var L := |chunks[p.roff].rec.residues|; 1 <= start <= EffectiveEnd(end, L) <= L
    ensures var rec := chunks[p.roff].rec;
      FetchSubseq(chunks, digital, abc, idx, pos, key, start, end)
        == (Success(Sq(key, rec.acc, rec.desc, ResiduesOf(rec.residues[start - 1..EffectiveEnd(end, |rec.residues|)], digital, abc),
                       |rec.residues|)), p.roff + 1)
  {
  }

  /** A forward range `a..b` of the record at chunk `k`, which the key
      finds, holds exactly those residues under the default name, and the
      position moves past the record. */
  lemma ForwardFound(chunks: seq<Chunk>, digital: bool, abc: Alphabet, idx: SsiIndex, pos: nat,
                     key: string, p: PrimaryKey, k: nat, rec: RawRecord, a: int, b: int)
    requires FindName(idx, key) == Some(p) && p.roff == k
    requires k < |chunks| && chunks[k] == Record(rec)
    requires 1 <= a < b <= |rec.residues|
    ensures FetchOneSubsequence(chunks, digital, abc, Some(idx), pos, key, None, a, b, false)
      == (Success(Sq(SubseqName(key, None, a, b, |rec.residues|), rec.acc, rec.desc,
                     ResiduesOf(rec.residues[a - 1..b], digital, abc), |rec.residues|)), k + 1)
  {
    var c := Normalize(a, b, false);
    assert c == Normalized(a, b, false);
    SubseqFound(chunks, digital, abc, idx, pos, key, p, a, b);
  }

  /** Coordinates `1..0` fetch the whole record at chunk `k`, which the key
      finds, named with the record's length as its end. */
  lemma WholeFound(chunks: seq<Chunk>, digital: bool, abc: Alphabet, idx: SsiIndex, pos: nat,
                   key: string, p: PrimaryKey, k: nat, rec: RawRecord)
    requires FindName(idx, key) == Some(p) && p.roff == k
    requires k < |chunks| && chunks[k] == Record(rec)
    requires |rec.residues| > 0
    ensures FetchOneSubsequence(chunks, digital, abc, Some(idx), pos, key, None, 1, 0, false)
      == (Success(Sq(SubseqName(key, None, 1, |rec.residues|, |rec.residues|), rec.acc, rec.desc,
                     ResiduesOf(rec.residues, digital, abc), |rec.residues|)), k + 1)
  {
    var c := Normalize(1, 0, false);
    assert c == Normalized(1, 0, false);
    SubseqFound(chunks, digital, abc, idx, pos, key, p, 1, 0);
    assert rec.residues[0..|rec.residues|] == rec.residues;
  }

  /** A descending range `a > b` of the record at chunk `k`, which the key
      finds, fetches `b..a` and returns its reverse complement `rc` under
      the default name. */
  lemma ReverseFound(chunks: seq<Chunk>, digital: bool, abc: Alphabet, idx: SsiIndex, pos: nat,
                     key: string, p: PrimaryKey, k: nat, rec: RawRecord, a: int, b: int, rc: Residues)
    requires FindName(idx, key) == Some(p) && p.roff == k
    requires k < |chunks| && chunks[k] == Record(rec)
    requires 1 <= b < a <= |rec.residues|
    requires abc.revcomp(ResiduesOf(rec.residues[b - 1..a], digital, abc)) == Some(rc)
    ensures FetchOneSubsequence(chunks, digital, abc, Some(idx), pos, key, None, a, b, false)
      == (Success(Sq(SubseqName(key, None, a, b, |rec.residues|), rec.acc, rec.desc, rc, |rec.residues|)), k + 1)
  {
    var c := Normalize(a, b, false);
    assert c == Normalized(b, a, true);
    SubseqFound(chunks, digital, abc, idx, pos, key, p, b, a);
  }

  /** Every request for the record at chunk `k`, which the key finds. With
      `c` the normalised coordinates and `last` the end they reach (the
      record's length for an end of 0): a range inside the record yields
      exactly the residues `c.start..last`, reverse complemented exactly
      when `c.revcomp`, under the name the request gives, and the position
      moves past the record; any other range is refused and the position
      stays. */
  lemma SubseqOnRecord(chunks: seq<Chunk>, digital: bool, abc: Alphabet, idx: SsiIndex, pos: nat,
                       key: string, newname: Option<string>, p: PrimaryKey, k: nat, rec: RawRecord, a: int, b: int, flag: bool)
    requires FindName(idx, key) == Some(p) && p.roff == k
    requires k < |chunks| && chunks[k] == Record(rec)
    ensures var c := Normalize(a, b, flag);
      var L := |rec.residues|;
      var last := EffectiveEnd(c.end, L);
      var r := FetchOneSubsequence(chunks, digital, abc, Some(idx), pos, key, newname, a, b, flag);
      && (!(1 <= c.start <= last <= L) ==> r == (Failure(SubseqFailed(SubseqOutOfRange)), pos))
      && (1 <= c.start <= last <= L ==>
            var top := ResiduesOf(rec.residues[c.start - 1..last], digital, abc);
            var name := SubseqName(key, newname, a, b, L);
            && r.1 == k + 1
            && (!c.revcomp ==> r.0 == Success(Sq(name, rec.acc, rec.desc, top, L)))
            && (c.revcomp && abc.revcomp(top).None? ==> r.0 == Failure(RevcompFailed(name)))
            && (c.revcomp && abc.revcomp(top).Some? ==> r.0 == Success(Sq(name, rec.acc, rec.desc, abc.revcomp(top).value, L))))
  {
    var c := Normalize(a, b, flag);
    if 1 <= c.start <= EffectiveEnd(c.end, |rec.residues|) <= |rec.residues| {
      SubseqFound(chunks, digital, abc, idx, pos, key, p, c.start, c.end);
    }
  }

  /** A one-residue request `a..a` with the flag set returns the reverse
      complement `rc` of that residue; without the flag, the residue itself. */
  lemma OneResidue(chunks: seq<Chunk>, digital: bool, abc: Alphabet, idx: SsiIndex, pos: nat,
                   key: string, p: PrimaryKey, k: nat, rec: RawRecord, a: int, rc: Residues)
    requires FindName(idx, key) == Some(p) && p.roff == k
    requires k < |chunks| && chunks[k] == Record(rec)
    requires 1 <= a <= |rec.residues|
    requires abc.revcomp(ResiduesOf([rec.residues[a - 1]], digital, abc)) == Some(rc)
    ensures FetchOneSubsequence(chunks, digital, abc, Some(idx), pos, key, None, a, a, true)
      == (Success(Sq(SubseqName(key, None, a, a, |rec.residues|), rec.acc, rec.desc, rc, |rec.residues|)), k + 1)
    ensures FetchOneSubsequence(chunks, digital, abc, Some(idx), pos, key, None, a, a, false)
      == (Success(Sq(SubseqName(key, None, a, a, |rec.residues|), rec.acc, rec.desc,
                     ResiduesOf([rec.residues[a - 1]], digital, abc), |rec.residues|)), k + 1)
  {
    assert rec.residues[a - 1..a] == [rec.residues[a - 1]];
    SubseqOnRecord(chunks, digital, abc, idx, pos, key, None, p, k, rec, a, a, true);
    SubseqOnRecord(chunks, digital, abc, idx, pos, key, None, p, k, rec, a, a, false);
  }

  /** A suffix request `a..0` returns the residues from `a` to the end, on
      the forward strand whatever the flag, named with the record's length
      as its end. */
  lemma Suffix(chunks: seq<Chunk>, digital: bool, abc: Alphabet, idx: SsiIndex, pos: nat,
               key: string, p: PrimaryKey, k: nat, rec: RawRecord, a: int, flag: bool)
    requires FindName(idx, key) == Some(p) && p.roff == k
    requires k < |chunks| && chunks[k] == Record(rec)
    requires 1 <= a <= |rec.residues|
    ensures FetchOneSubsequence(chunks, digital, abc, Some(idx), pos, key, None, a, 0, flag)
      == (Success(Sq(SubseqName(key, None, a, |rec.residues|, |rec.residues|), rec.acc, rec.desc,
                     ResiduesOf(rec.residues[a - 1..], digital, abc), |rec.residues|)), k + 1)
  {
    var L := |rec.residues|;
    SubseqOnRecord(chunks, digital, abc, idx, pos, key, None, p, k, rec, a, 0, flag);
    assert rec.residues[a - 1..L] == rec.residues[a - 1..];
    assert SubseqName(key, None, a, 0, L) == SubseqName(key, None, a, L, L);
  }

  /** Fetching ordinal `j` as FASTA from a text-mode file gives the FASTA
      record of the record that ordinal points at, and moves past it. */
  lemma FastaByOrdinal(chunks: seq<Chunk>, abc: Alphabet, idx: SsiIndex, pos: nat, j: int, k: nat, rec: RawRecord, textw: int)
    requires 0 <= j < |idx.primaries| && idx.primaries[j].roff == k
    requires k < |chunks| && chunks[k] == Record(rec) && ValidTextw(textw)
    ensures FetchSeqToFastaStringGivenSsiNumber(chunks, false, abc, Some(idx), pos, j, textw)
      == (Success(FastaRecord(rec.name, rec.acc, rec.desc, rec.residues, textw)), k + 1)
  {
  }

  /** On a built index, every ordinal fetches as FASTA the record of the
      file that it names. */
  lemma FastaByOrdinalOnBuiltIndex(chunks: seq<Chunk>, start: nat, fh: nat, bpl: int, rpl: int, idx: SsiIndex,
                                   abc: Alphabet, pos: nat, j: int, textw: int) returns (k: nat)
    requires BuildIndex(chunks, start, fh, bpl, rpl) == Success(idx)
    requires 0 <= j < |idx.primaries| && ValidTextw(textw)
    ensures start <= k < |chunks| && chunks[k].Record? && idx.primaries[j].name == chunks[k].rec.name
    ensures var rec := chunks[k].rec;
      FetchSeqToFastaStringGivenSsiNumber(chunks, false, abc, Some(idx), pos, j, textw)
        == (Success(FastaRecord(rec.name, rec.acc, rec.desc, rec.residues, textw)), k + 1)
  {
    k := BuiltOrdinal(chunks, start, fh, bpl, rpl, j);
    FastaByOrdinal(chunks, abc, idx, pos, j, k, chunks[k].rec, textw);
  }

  /** Fetching a subsequence of the record at chunk `k` as FASTA from a
      text-mode file: an in-range forward request gives the FASTA record of
      those residues under the subsequence's name and the record's
      accession and description; a reverse one gives the rendering of the
      reverse complement (that of `rc` when the alphabet supplies it as
      text), or the revcomp error when there is none; an out-of-range one is
      refused and the position stays. */
  lemma FastaSubseqOnRecord(chunks: seq<Chunk>, abc: Alphabet, idx: SsiIndex, pos: nat,
                            key: string, newname: Option<string>, p: PrimaryKey, k: nat, rec: RawRecord,
                            a: int, b: int, flag: bool, textw: int, rc: string)
    requires FindName(idx, key) == Some(p) && p.roff == k
    requires k < |chunks| && chunks[k] == Record(rec) && ValidTextw(textw)
    ensures var c := Normalize(a, b, flag);
      var L := |rec.residues|;
      var last := EffectiveEnd(c.end, L);
      var name := SubseqName(key, newname, a, b, L);
      var r := FetchSubseqToFastaString(chunks, false, abc, Some(idx), pos, key, newname, a, b, textw, flag);
      && (!(1 <= c.start <= last <= L) ==> r == (Failure(SubseqFailed(SubseqOutOfRange)), pos))
      && (1 <= c.start <= last <= L && !c.revcomp ==>
            r == (Success(FastaRecord(name, rec.acc, rec.desc, rec.residues[c.start - 1..last], textw)), k + 1))
      && (1 <= c.start <= last <= L && c.revcomp && abc.revcomp(Text(rec.residues[c.start - 1..last])) == Some(Text(rc)) ==>
            r == (Success(FastaRecord(name, rec.acc, rec.desc, rc, textw)), k + 1))
      && (1 <= c.start <= last <= L && c.revcomp && abc.revcomp(Text(rec.residues[c.start - 1..last])).None? ==>
            r == (Failure(RevcompFailed(name)), k + 1))
      && (1 <= c.start <= last <= L && c.revcomp && abc.revcomp(Text(rec.residues[c.start - 1..last])).Some? ==>
            r == (SeqString(Sq(name, rec.acc, rec.desc, abc.revcomp(Text(rec.residues[c.start - 1..last])).value, L), textw, key, abc), k + 1))
  {
    SubseqOnRecord(chunks, false, abc, idx, pos, key, newname, p, k, rec, a, b, flag);
  }

  /** After a successful build, the record at chunk `k` is found by its name. */
  lemma BuiltLookup(chunks: seq<Chunk>, start: nat, fh: nat, bpl: int, rpl: int, idx: SsiIndex, k: nat, rec: RawRecord)
    returns (p: PrimaryKey)
    requires BuildIndex(chunks, start, fh, bpl, rpl) == Success(idx)
    requires start <= k < |chunks| && chunks[k] == Record(rec)
    ensures FindName(idx, rec.name) == Some(p) && p.roff == k
  {
    var j := BuiltKey(chunks, start, fh, bpl, rpl, k);
    FindByOwnName(idx, j);
    p := idx.primaries[j];
  }

  /** A forward range of a record, fetched by the record's name with no new
      name, holds exactly those residues and is named `name/start-end`. */
  lemma ForwardSubseq(chunks: seq<Chunk>, start: nat, fh: nat, bpl: int, rpl: int, idx: SsiIndex, k: nat, rec: RawRecord,
                      digital: bool, abc: Alphabet, pos: nat, a: int, b: int)
    requires BuildIndex(chunks, start, fh, bpl, rpl) == Success(idx)
    requires start <= k < |chunks| && chunks[k] == Record(rec)
    requires 1 <= a < b <= |rec.residues|
    ensures FetchOneSubsequence(chunks, digital, abc, Some(idx), pos, rec.name, None, a, b, false)
      == (Success(Sq(SubseqName(rec.name, None, a, b, |rec.residues|), rec.acc, rec.desc,
                     ResiduesOf(rec.residues[a - 1..b], digital, abc), |rec.residues|)), k + 1)
  {
    var p := BuiltLookup(chunks, start, fh, bpl, rpl, idx, k, rec);
    ForwardFound(chunks, digital, abc, idx, pos, rec.name, p, k, rec, a, b);
  }

  /** A descending request `a > b` fetches the same range `b..a`, keeps the
      given order in its name, and returns the reverse complement `rc`. */
  lemma ReverseSubseq(chunks: seq<Chunk>, start: nat, fh: nat, bpl: int, rpl: int, idx: SsiIndex, k: nat, rec: RawRecord,
                      digital: bool, abc: Alphabet, pos: nat, a: int, b: int, rc: Residues)
    requires BuildIndex(chunks, start, fh, bpl, rpl) == Success(idx)
    requires start <= k < |chunks| && chunks[k] == Record(rec)
    requires 1 <= b < a <= |rec.residues|
    requires abc.revcomp(ResiduesOf(rec.residues[b - 1..a], digital, abc)) == Some(rc)
    ensures FetchOneSubsequence(chunks, digital, abc, Some(idx), pos, rec.name, None, a, b, false)
      == (Success(Sq(SubseqName(rec.name, None, a, b, |rec.residues|), rec.acc, rec.desc, rc, |rec.residues|)), k + 1)
  {
    var p := BuiltLookup(chunks, start, fh, bpl, rpl, idx, k, rec);
    ReverseFound(chunks, digital, abc, idx, pos, rec.name, p, k, rec, a, b, rc);
  }

  /** Coordinates `1..0` fetch the whole record, named as `name/1-L`. */
  lemma WholeRecordSubseq(chunks: seq<Chunk>, start: nat, fh: nat, bpl: int, rpl: int, idx: SsiIndex, k: nat, rec: RawRecord,
                          digital: bool, abc: Alphabet, pos: nat)
    requires BuildIndex(chunks, start, fh, bpl, rpl) == Success(idx)
    requires start <= k < |chunks| && chunks[k] == Record(rec)
    requires |rec.residues| > 0
    ensures FetchOneSubsequence(chunks, digital, abc, Some(idx), pos, rec.name, None, 1, 0, false)
      == (Success(Sq(SubseqName(rec.name, None, 1, |rec.residues|, |rec.residues|), rec.acc, rec.desc,
                     ResiduesOf(rec.residues, digital, abc), |rec.residues|)), k + 1)
  {
    var p := BuiltLookup(chunks, start, fh, bpl, rpl, idx, k, rec);
    WholeFound(chunks, digital, abc, idx, pos, rec.name, p, k, rec);
  }
}
