/** `_c_compare_seq_to_seq` and `_c_compare_seq_to_subseq`: fetch one
    sequence from each of two indexed handles in the same mode and report
    whether their residues are identical (1) or not (0). */
module Compare {
  import opened Wrappers
  import opened SeqTypes
  import opened Coordinates
  import opened Ssi
  import opened Fetch
  import opened SqFileHandle

  /** The residue test: sequences of different lengths differ; otherwise
      both digital codes or both texts are compared, and any other pairing
      is the binding's internal error. */
  function SameResidues(a: Residues, b: Residues): (r: Result<int, Error>)
    ensures r.Success? ==> (r.value == 1 <==> a == b)
    ensures r.Success? ==> r.value == 0 || r.value == 1
    ensures r.Failure? <==> a.Length() == b.Length() && a.Digital? != b.Digital?
    ensures r.Failure? ==> r.error == RepresentationMismatch
  {
    if a.Length() != b.Length() then Success(0)
    else if a.Digital? && b.Digital? then Success(if a.codes == b.codes then 1 else 0)
    else if a.Text? && b.Text? then Success(if a.chars == b.chars then 1 else 0)
    else Failure(RepresentationMismatch)
  }

  /** Both handles need an index, and a digital handle needs a digital
      partner: file 1 is checked before file 2. */
  function CheckPair(h1: View, h2: View): (r: Option<Error>)
    ensures r.None? <==> h1.ssi.Some? && h2.ssi.Some? && h1.digital == h2.digital
  {
    if h1.ssi.None? then Some(NoIndexIn(1))
    else if h2.ssi.None? then Some(NoIndexIn(2))
    else if h1.digital && !h2.digital then Some(DigitalMismatch(1))
    else if h2.digital && !h1.digital then Some(DigitalMismatch(2))
    else None
  }

  /** What `_c_compare_seq_to_seq` returns, or the error it dies with. */
  function SeqToSeqVerdict(h1: View, h2: View, name1: string, name2: string): Result<int, Error> {
    if CheckPair(h1, h2).Some? then Failure(CheckPair(h1, h2).value)
    else
      var sq1 :- FetchOne(h1.chunks, h1.digital, h1.abc, h1.ssi, h1.pos, Some(name1)).0;
      var sq2 :- FetchOne(h2.chunks, h2.digital, h2.abc, h2.ssi, h2.pos, Some(name2)).0;
      SameResidues(sq1.data, sq2.data)
  }

  /** What `_c_compare_seq_to_subseq` returns: the second operand is the range
      `start2..end2` of `name2`, fetched without the one-residue flag. */
  function SeqToSubseqVerdict(h1: View, h2: View, name1: string, name2: string, start2: int, end2: int): Result<int, Error> {
    if CheckPair(h1, h2).Some? then Failure(CheckPair(h1, h2).value)
    else
      var sq1 :- FetchOne(h1.chunks, h1.digital, h1.abc, h1.ssi, h1.pos, Some(name1)).0;
      var sq2 :- Fetch.FetchOneSubsequence(h2.chunks, h2.digital, h2.abc, h2.ssi, h2.pos, name2, None, start2, end2, false).0;
      SameResidues(sq1.data, sq2.data)
  }

  // ---- Properties.

  lemma SameResiduesReflexive(a: Residues)
    ensures SameResidues(a, a) == Success(1)
  {
  }

  lemma SameResiduesSymmetric(a: Residues, b: Residues)
    ensures SameResidues(a, b) == SameResidues(b, a)
  {
  }

  /** A keyed fetch does not depend on where the handle was, nor, when it
      succeeds, does the position it leaves. */
  lemma KeyedFetchIgnoresPosition(chunks: seq<Chunk>, digital: bool, abc: Alphabet, ssi: Option<SsiIndex>, p1: nat, p2: nat, key: string)
    ensures FetchOne(chunks, digital, abc, ssi, p1, Some(key)).0 == FetchOne(chunks, digital, abc, ssi, p2, Some(key)).0
    ensures FetchOne(chunks, digital, abc, ssi, p1, Some(key)).0.Success? ==>
      FetchOne(chunks, digital, abc, ssi, p1, Some(key)).1 == FetchOne(chunks, digital, abc, ssi, p2, Some(key)).1
  {
  }

  /** A subsequence fetch does not depend on where the handle was either. */
  lemma SubseqFetchIgnoresPosition(chunks: seq<Chunk>, digital: bool, abc: Alphabet, ssi: Option<SsiIndex>, p1: nat, p2: nat,
                                   key: string, newname: Option<string>, givenStart: int, givenEnd: int, flag: bool)
    ensures Fetch.FetchOneSubsequence(chunks, digital, abc, ssi, p1, key, newname, givenStart, givenEnd, flag).0
         == Fetch.FetchOneSubsequence(chunks, digital, abc, ssi, p2, key, newname, givenStart, givenEnd, flag).0
    ensures Fetch.FetchOneSubsequence(chunks, digital, abc, ssi, p1, key, newname, givenStart, givenEnd, flag).0.Success? ==>
      Fetch.FetchOneSubsequence(chunks, digital, abc, ssi, p1, key, newname, givenStart, givenEnd, flag).1
        == Fetch.FetchOneSubsequence(chunks, digital, abc, ssi, p2, key, newname, givenStart, givenEnd, flag).1
  {
    if ssi.Some? {
      var c := Normalize(givenStart, givenEnd, flag);
      var f1 := FetchSubseq(chunks, digital, abc, ssi.value, p1, key, c.start, c.end);
      var f2 := FetchSubseq(chunks, digital, abc, ssi.value, p2, key, c.start, c.end);
      assert f1.0 == f2.0 && (f1.0.Success? ==> f1.1 == f2.1);
    }
  }

  /** A fetched sequence is digital exactly when its handle is. */
  lemma FetchedMode(chunks: seq<Chunk>, digital: bool, abc: Alphabet, ssi: Option<SsiIndex>, pos: nat, key: Option<string>)
    requires FetchOne(chunks, digital, abc, ssi, pos, key).0.Success?
    ensures FetchOne(chunks, digital, abc, ssi, pos, key).0.value.data.Digital? == digital
  {
  }

  /** A subsequence that is not reverse complemented is digital exactly
      when its handle is. */
  lemma ForwardSubseqMode(chunks: seq<Chunk>, digital: bool, abc: Alphabet, ssi: Option<SsiIndex>, pos: nat,
                          key: string, givenStart: int, givenEnd: int)
    requires givenEnd == 0 || givenStart <= givenEnd
    requires Fetch.FetchOneSubsequence(chunks, digital, abc, ssi, pos, key, None, givenStart, givenEnd, false).0.Success?
    ensures Fetch.FetchOneSubsequence(chunks, digital, abc, ssi, pos, key, None, givenStart, givenEnd, false).0.value.data.Digital? == digital
  {
    assert !Normalize(givenStart, givenEnd, false).revcomp;
  }

  /** With a reverse complement that keeps the representation, every
      subsequence, on either strand, is digital exactly when its handle is. */
  lemma SubseqMode(chunks: seq<Chunk>, digital: bool, abc: Alphabet, ssi: Option<SsiIndex>, pos: nat,
                   key: string, newname: Option<string>, givenStart: int, givenEnd: int, flag: bool)
    requires RevcompKeepsShape(abc)
    requires Fetch.FetchOneSubsequence(chunks, digital, abc, ssi, pos, key, newname, givenStart, givenEnd, flag).0.Success?
    ensures Fetch.FetchOneSubsequence(chunks, digital, abc, ssi, pos, key, newname, givenStart, givenEnd, flag).0.value.data.Digital? == digital
  {
    var c := Normalize(givenStart, givenEnd, flag);
    var top := FetchSubseq(chunks, digital, abc, ssi.value, pos, key, c.start, c.end).0;
    assert top.Success? && top.value.data.Digital? == digital;
    if c.revcomp {
      var named := top.value.(name := SubseqName(key, newname, givenStart, givenEnd, top.value.L));
      assert abc.revcomp(named.data).Some?;
      assert abc.revcomp(named.data).value.Digital? == named.data.Digital?;
    }
  }

  /** Comparing whole sequences answers 1 exactly when both handles pass
      the checks, both fetches succeed and the residues are equal, and 0
      exactly when the residues differ; it never reaches the internal error. */
  lemma SeqToSeqMeaning(h1: View, h2: View, name1: string, name2: string)
    ensures var f1 := FetchOne(h1.chunks, h1.digital, h1.abc, h1.ssi, h1.pos, Some(name1)).0;
      var f2 := FetchOne(h2.chunks, h2.digital, h2.abc, h2.ssi, h2.pos, Some(name2)).0;
      var ok := CheckPair(h1, h2).None? && f1.Success? && f2.Success?;
      && (SeqToSeqVerdict(h1, h2, name1, name2) == Success(1) <==> ok && f1.value.data == f2.value.data)
      && (SeqToSeqVerdict(h1, h2, name1, name2) == Success(0) <==> ok && f1.value.data != f2.value.data)
      && SeqToSeqVerdict(h1, h2, name1, name2) != Failure(RepresentationMismatch)
  {
    var f1 := FetchOne(h1.chunks, h1.digital, h1.abc, h1.ssi, h1.pos, Some(name1)).0;
    var f2 := FetchOne(h2.chunks, h2.digital, h2.abc, h2.ssi, h2.pos, Some(name2)).0;
    if CheckPair(h1, h2).None? && f1.Success? && f2.Success? {
      FetchedMode(h1.chunks, h1.digital, h1.abc, h1.ssi, h1.pos, Some(name1));
      FetchedMode(h2.chunks, h2.digital, h2.abc, h2.ssi, h2.pos, Some(name2));
    }
  }

  /** Swapping the operands gives the same answer. */
  lemma SeqToSeqSymmetric(h1: View, h2: View, name1: string, name2: string)
    ensures SeqToSeqVerdict(h1, h2, name1, name2).Success? <==> SeqToSeqVerdict(h2, h1, name2, name1).Success?
    ensures SeqToSeqVerdict(h1, h2, name1, name2).Success? ==>
      SeqToSeqVerdict(h1, h2, name1, name2).value == SeqToSeqVerdict(h2, h1, name2, name1).value
  {
    SeqToSeqMeaning(h1, h2, name1, name2);
    SeqToSeqMeaning(h2, h1, name2, name1);
  }

  /** A sequence compared with itself is identical whenever it can be fetched. */
  lemma SeqToSeqReflexive(h: View, name: string)
    ensures SeqToSeqVerdict(h, h, name, name).Success? <==>
      h.ssi.Some? && FetchOne(h.chunks, h.digital, h.abc, h.ssi, h.pos, Some(name)).0.Success?
    ensures SeqToSeqVerdict(h, h, name, name).Success? ==> SeqToSeqVerdict(h, h, name, name).value == 1
  {
    SeqToSeqMeaning(h, h, name, name);
  }

  /** Without a descending range nothing is reverse complemented, so the
      subsequence comparison never reaches the internal error either, and
      answers 1 exactly when the residues are equal. */
  lemma SeqToSubseqForward(h1: View, h2: View, name1: string, name2: string, start2: int, end2: int)
    requires end2 == 0 || start2 <= end2
    ensures var f1 := FetchOne(h1.chunks, h1.digital, h1.abc, h1.ssi, h1.pos, Some(name1)).0;
      var f2 := Fetch.FetchOneSubsequence(h2.chunks, h2.digital, h2.abc, h2.ssi, h2.pos, name2, None, start2, end2, false).0;
      var ok := CheckPair(h1, h2).None? && f1.Success? && f2.Success?;
      && (SeqToSubseqVerdict(h1, h2, name1, name2, start2, end2) == Success(1) <==> ok && f1.value.data == f2.value.data)
      && (SeqToSubseqVerdict(h1, h2, name1, name2, start2, end2) == Success(0) <==> ok && f1.value.data != f2.value.data)
      && SeqToSubseqVerdict(h1, h2, name1, name2, start2, end2) != Failure(RepresentationMismatch)
  {
    var f1 := FetchOne(h1.chunks, h1.digital, h1.abc, h1.ssi, h1.pos, Some(name1)).0;
    var f2 := Fetch.FetchOneSubsequence(h2.chunks, h2.digital, h2.abc, h2.ssi, h2.pos, name2, None, start2, end2, false).0;
    if CheckPair(h1, h2).None? && f1.Success? && f2.Success? {
      FetchedMode(h1.chunks, h1.digital, h1.abc, h1.ssi, h1.pos, Some(name1));
      ForwardSubseqMode(h2.chunks, h2.digital, h2.abc, h2.ssi, h2.pos, name2, start2, end2);
    }
  }

  /** For any range, ascending or descending, with a reverse complement that
      keeps the representation: the subsequence comparison answers 1 exactly
      when the residues are equal, 0 exactly when they differ, and never
      reaches the internal error. */
  lemma SeqToSubseqMeaning(h1: View, h2: View, name1: string, name2: string, start2: int, end2: int)
    requires RevcompKeepsShape(h2.abc)
    ensures var f1 := FetchOne(h1.chunks, h1.digital, h1.abc, h1.ssi, h1.pos, Some(name1)).0;
      var f2 := Fetch.FetchOneSubsequence(h2.chunks, h2.digital, h2.abc, h2.ssi, h2.pos, name2, None, start2, end2, false).0;
      var ok := CheckPair(h1, h2).None? && f1.Success? && f2.Success?;
      && (SeqToSubseqVerdict(h1, h2, name1, name2, start2, end2) == Success(1) <==> ok && f1.value.data == f2.value.data)
      && (SeqToSubseqVerdict(h1, h2, name1, name2, start2, end2) == Success(0) <==> ok && f1.value.data != f2.value.data)
      && SeqToSubseqVerdict(h1, h2, name1, name2, start2, end2) != Failure(RepresentationMismatch)
  {
    var f1 := FetchOne(h1.chunks, h1.digital, h1.abc, h1.ssi, h1.pos, Some(name1)).0;
    var f2 := Fetch.FetchOneSubsequence(h2.chunks, h2.digital, h2.abc, h2.ssi, h2.pos, name2, None, start2, end2, false).0;
    if CheckPair(h1, h2).None? && f1.Success? && f2.Success? {
      FetchedMode(h1.chunks, h1.digital, h1.abc, h1.ssi, h1.pos, Some(name1));
      SubseqMode(h2.chunks, h2.digital, h2.abc, h2.ssi, h2.pos, name2, None, start2, end2, false);
    }
  }

  /** A sequence compared with the whole of itself, as the range `1..0`, is
      identical. */
  lemma SeqToWholeSubseq(h: View, name: string)
    requires FetchOne(h.chunks, h.digital, h.abc, h.ssi, h.pos, Some(name)).0.Success?
    requires FetchOne(h.chunks, h.digital, h.abc, h.ssi, h.pos, Some(name)).0.value.L > 0
    ensures SeqToSubseqVerdict(h, h, name, name, 1, 0) == Success(1)
  {
    var p := FindName(h.ssi.value, name).value;
    var rec := h.chunks[p.roff].rec;
    assert rec.residues[0..|rec.residues|] == rec.residues;
    SeqToSubseqForward(h, h, name, name, 1, 0);
  }

  // ---- The comparisons on open handles.

  /** `_c_compare_seq_to_seq`; the two handles may be the same one. Each
      handle keeps its index; after an answer each is positioned after the
      record fetched from it (the second fetch's, when they are one handle). */
  method CompareSeqToSeq(f1: SqFile, f2: SqFile, name1: string, name2: string) returns (r: Result<int, Error>)
    modifies f1, f2
    ensures r == SeqToSeqVerdict(old(f1.Snapshot()), old(f2.Snapshot()), name1, name2)
    ensures f1.ssi == old(f1.ssi) && f1.ssiOnDisk == old(f1.ssiOnDisk)
    ensures f2.ssi == old(f2.ssi) && f2.ssiOnDisk == old(f2.ssiOnDisk)
    ensures r.Success? ==> f2.pos == FetchOne(f2.chunks, f2.digital, f2.abc, old(f2.ssi), old(f2.pos), Some(name2)).1
    ensures r.Success? && f1 != f2 ==> f1.pos == FetchOne(f1.chunks, f1.digital, f1.abc, old(f1.ssi), old(f1.pos), Some(name1)).1
  {
    ghost var h1, h2 := f1.Snapshot(), f2.Snapshot();
    if f1.ssi.None? {
      return Failure(NoIndexIn(1));
    }
    if f2.ssi.None? {
      return Failure(NoIndexIn(2));
    }
    if f1.digital && !f2.digital {
      return Failure(DigitalMismatch(1));
    }
    if f2.digital && !f1.digital {
      return Failure(DigitalMismatch(2));
    }
    var sq1 := f1.FetchOneSequence(Some(name1));
    if sq1.Failure? {
      return Failure(sq1.error);
    }
    KeyedFetchIgnoresPosition(h2.chunks, h2.digital, h2.abc, h2.ssi, h2.pos, f2.pos, name2);
    var sq2 := f2.FetchOneSequence(Some(name2));
    if sq2.Failure? {
      return Failure(sq2.error);
    }
    r := SameResidues(sq1.value.data, sq2.value.data);
  }

  /** `_c_compare_seq_to_subseq`; the two handles may be the same one, and
      the frame is that of `CompareSeqToSeq`. */
  method CompareSeqToSubseq(f1: SqFile, f2: SqFile, name1: string, name2: string, start2: int, end2: int) returns (r: Result<int, Error>)
    modifies f1, f2
    ensures r == SeqToSubseqVerdict(old(f1.Snapshot()), old(f2.Snapshot()), name1, name2, start2, end2)
    ensures f1.ssi == old(f1.ssi) && f1.ssiOnDisk == old(f1.ssiOnDisk)
    ensures f2.ssi == old(f2.ssi) && f2.ssiOnDisk == old(f2.ssiOnDisk)
    ensures r.Success? ==> f2.pos == Fetch.FetchOneSubsequence(f2.chunks, f2.digital, f2.abc, old(f2.ssi), old(f2.pos),
                                                               name2, None, start2, end2, false).1
    ensures r.Success? && f1 != f2 ==> f1.pos == FetchOne(f1.chunks, f1.digital, f1.abc, old(f1.ssi), old(f1.pos), Some(name1)).1
  {
    ghost var h1, h2 := f1.Snapshot(), f2.Snapshot();
    if f1.ssi.None? {
      return Failure(NoIndexIn(1));
    }
    if f2.ssi.None? {
      return Failure(NoIndexIn(2));
    }
    if f1.digital && !f2.digital {
      return Failure(DigitalMismatch(1));
    }
    if f2.digital && !f1.digital {
      return Failure(DigitalMismatch(2));
    }
    var sq1 := f1.FetchOneSequence(Some(name1));
    if sq1.Failure? {
      return Failure(sq1.error);
    }
    SubseqFetchIgnoresPosition(h2.chunks, h2.digital, h2.abc, h2.ssi, h2.pos, f2.pos, name2, None, start2, end2, false);
    var sq2 := f2.FetchOneSubsequence(name2, None, start2, end2, false);
    if sq2.Failure? {
      return Failure(sq2.error);
    }
    r := SameResidues(sq1.value.data, sq2.value.data);
  }
}
