/** An open sequence file (ESL_SQFILE) as the binding uses it: the file's
    chunks, its mode and alphabet and the layout the parser saw are fixed;
    the read position, the attached index and the index file beside the
    sequence file change. */
module SqFileHandle {
  import opened Wrappers
  import opened SeqTypes
  import opened Fasta
  import opened Ssi
  import opened Build
  import opened Fetch

  /** The status `_c_open_ssi_index` returns when the index opened. */
  const StatusOk := 0
  /** The status it returns when there is no index file (Easel's eslENOTFOUND). */
  const StatusNotFound := 6

  /** A snapshot of a handle's state, for stating what a fetch does. */
  datatype View = View(chunks: seq<Chunk>, digital: bool, abc: Alphabet, ssi: Option<SsiIndex>, pos: nat)

  class SqFile {
    const chunks: seq<Chunk>
    const digital: bool
    const abc: Alphabet
    /** Bytes and residues per line as the parser found them (0 when the
        lines are irregular). */
    const bpl: int
    const rpl: int
    var pos: nat
    /** The index attached for retrieval (`sqfp->data.ascii.ssi`). */
    var ssi: Option<SsiIndex>
    /** The index file `<filename>.ssi`, if one exists. */
    var ssiOnDisk: Option<SsiIndex>

    /** A freshly opened file: at its start, with no index attached. */
    constructor (chunks: seq<Chunk>, digital: bool, abc: Alphabet, bpl: int, rpl: int, onDisk: Option<SsiIndex>)
      ensures this.chunks == chunks && this.digital == digital && this.abc == abc
      ensures this.bpl == bpl && this.rpl == rpl
      ensures pos == 0 && ssi == None && ssiOnDisk == onDisk
    {
      this.chunks, this.digital, this.abc, this.bpl, this.rpl := chunks, digital, abc, bpl, rpl;
      pos, ssi, ssiOnDisk := 0, None, onDisk;
    }

    function Snapshot(): View
      reads this
    {
      View(chunks, digital, abc, ssi, pos)
    }

    /** `_c_open_ssi_index`: attach the index file when there is one, and
        report that there is none otherwise, so that the caller can build it. */
    method OpenSsiIndex() returns (status: int)
      modifies this
      ensures status == (if old(ssiOnDisk).Some? then StatusOk else StatusNotFound)
      ensures ssi == (if old(ssiOnDisk).Some? then old(ssiOnDisk) else old(ssi))
      ensures pos == old(pos) && ssiOnDisk == old(ssiOnDisk)
    {
      if ssiOnDisk.None? {
        return StatusNotFound;
      }
      ssi := ssiOnDisk;
      status := StatusOk;
    }

    /** `_c_create_ssi_index`: read the records from the current position to
        the end of the file, adding a primary key for each and a secondary
        key for each non-empty accession, record the layout when both
        figures are positive, write the index file and rewind. The index is
        written, not attached. After a failure the index file is left
        unstated: it was opened for overwriting before the pass. */
    method CreateSsiIndex() returns (r: Result<(), Error>)
      modifies this
      ensures r.Success? <==> BuildIndex(chunks, old(pos), 0, bpl, rpl).Success?
      ensures r.Failure? ==> r.error == BuildIndex(chunks, old(pos), 0, bpl, rpl).error
      ensures r.Success? ==> ssiOnDisk == Some(BuildIndex(chunks, old(pos), 0, bpl, rpl).value) && pos == 0
      ensures ssi == old(ssi)
    {
      ghost var start := pos;
      var ns := new NewSsi();
      var fh := ns.AddFile();
      var nseq: nat := 0;
      while pos < |chunks| && (chunks[pos].Record? || chunks[pos].Nameless?)
        invariant fh == 0 && ns.layout == None
        invariant Scan(chunks, pos, fh, ns.primaries, ns.aliases, nseq) == Scan(chunks, start, 0, [], [], 0)
        invariant ssi == old(ssi)
        decreases |chunks| - pos
      {
        nseq := nseq + 1;
        if chunks[pos].Nameless? {
          return Failure(MissingName(nseq));
        }
        var rec := chunks[pos].rec;
        ghost var aliases := ns.aliases + AliasOf(rec);
        assert Scan(chunks, pos, fh, ns.primaries, ns.aliases, nseq - 1)
          == Scan(chunks, pos + 1, fh, ns.primaries + [KeyOf(rec, fh, pos)], aliases, nseq);
        ns.AddKey(rec.name, fh, pos, rec.doff, |rec.residues|);
        if rec.acc != "" {
          ns.AddAlias(rec.acc, rec.name);
        } else {
          assert ns.aliases + [] == ns.aliases;
        }
        assert ns.aliases == aliases;
        pos := pos + 1;
      }
      if pos < |chunks| {
        return Failure(if chunks[pos].Garbled? then ParseFailed else ReadFailed(chunks[pos].code));
      }
      if bpl > 0 && rpl > 0 {
        ns.SetSubseq(bpl, rpl);
      }
      var written := Persist(ns.primaries, ns.aliases, ns.layout);
      if written.Failure? {
        return Failure(WriteFailed);
      }
      ssiOnDisk := Some(written.value);
      pos := 0;
      r := Success(());
    }

    /** `esl_sqio_Read` with the binding's status checks. */
    method Read() returns (r: Result<Sq, Error>)
      modifies this
      ensures (r, pos) == ReadRecord(chunks, digital, abc, old(pos))
      ensures ssi == old(ssi) && ssiOnDisk == old(ssiOnDisk)
    {
      var (res, next) := ReadRecord(chunks, digital, abc, pos);
      r, pos := res, next;
    }

    /** `_c_fetch_one_sequence`. */
    method FetchOneSequence(key: Option<string>) returns (r: Result<Sq, Error>)
      modifies this
      ensures (r, pos) == FetchOne(chunks, digital, abc, old(ssi), old(pos), key)
      ensures ssi == old(ssi) && ssiOnDisk == old(ssiOnDisk)
    {
      var (res, next) := FetchOne(chunks, digital, abc, ssi, pos, key);
      r, pos := res, next;
    }

    /** `_c_fetch_one_subsequence`. */
    method FetchOneSubsequence(key: string, newname: Option<string>, givenStart: int, givenEnd: int, doResRevcomp: bool)
      returns (r: Result<Sq, Error>)
      modifies this
      ensures (r, pos) == Fetch.FetchOneSubsequence(chunks, digital, abc, old(ssi), old(pos), key, newname, givenStart, givenEnd, doResRevcomp)
      ensures ssi == old(ssi) && ssiOnDisk == old(ssiOnDisk)
    {
      var (res, next) := Fetch.FetchOneSubsequence(chunks, digital, abc, ssi, pos, key, newname, givenStart, givenEnd, doResRevcomp);
      r, pos := res, next;
    }

    /** `_c_fetch_seq_to_fasta_string`; with no key it is
        `_c_fetch_next_seq_to_fasta_string`. */
    method FetchSeqToFastaString(key: Option<string>, textw: int) returns (r: Result<string, Error>)
      modifies this
      ensures (r, pos) == Fetch.FetchSeqToFastaString(chunks, digital, abc, old(ssi), old(pos), key, textw)
      ensures ssi == old(ssi) && ssiOnDisk == old(ssiOnDisk)
    {
      if !ValidTextw(textw) {
        return Failure(InvalidTextw);
      }
      var fetched := FetchOneSequence(key);
      if fetched.Failure? {
        return Failure(fetched.error);
      }
      var n;
      r, n := SqToSeqString(fetched.value, textw, KeyLabel(key), abc);
    }

    /** `_c_fetch_seq_to_fasta_string_given_ssi_number`. */
    method FetchSeqToFastaStringGivenSsiNumber(nkey: int, textw: int) returns (r: Result<string, Error>)
      modifies this
      ensures (r, pos) == Fetch.FetchSeqToFastaStringGivenSsiNumber(chunks, digital, abc, old(ssi), old(pos), nkey, textw)
      ensures ssi == old(ssi) && ssiOnDisk == old(ssiOnDisk)
    {
      if !ValidTextw(textw) {
        return Failure(InvalidTextw);
      }
      if ssi.None? {
        return Failure(NoIndex);
      }
      var found := FindNumber(ssi.value, nkey);
      if found.None? {
        return Failure(OrdinalNotFound(nkey));
      }
      pos := found.value.roff;
      var fetched := Read();
      if fetched.Failure? {
        return Failure(fetched.error);
      }
      var n;
      r, n := SqToSeqString(fetched.value, textw, fetched.value.name, abc);
    }

    /** `_c_fetch_subseq_to_fasta_string`. */
    method FetchSubseqToFastaString(key: string, newname: Option<string>, givenStart: int, givenEnd: int, textw: int, doResRevcomp: bool)
      returns (r: Result<string, Error>)
      modifies this
      ensures (r, pos) == Fetch.FetchSubseqToFastaString(chunks, digital, abc, old(ssi), old(pos), key, newname, givenStart, givenEnd, textw, doResRevcomp)
      ensures ssi == old(ssi) && ssiOnDisk == old(ssiOnDisk)
    {
      if !ValidTextw(textw) {
        return Failure(InvalidTextw);
      }
      if ssi.None? {
        return Failure(NoIndex);
      }
      var fetched := FetchOneSubsequence(key, newname, givenStart, givenEnd, doResRevcomp);
      if fetched.Failure? {
        return Failure(fetched.error);
      }
      var n;
      r, n := SqToSeqString(fetched.value, textw, key, abc);
    }
  }

  /** Building the index and then attaching it: every record from where the
      pass started can be fetched by name, from the rewound file. */
  method BuildThenFetch(f: SqFile, k: nat) returns (r: Result<Sq, Error>)
    requires BuildIndex(f.chunks, f.pos, 0, f.bpl, f.rpl).Success? && f.pos <= k < |f.chunks|
    modifies f
    ensures f.chunks[k].Record? && r == Success(ToSq(f.chunks[k].rec, f.digital, f.abc))
    ensures f.pos == k + 1
  {
    ghost var start := f.pos;
    var built := f.CreateSsiIndex();
    var status := f.OpenSsiIndex();
    FetchByName(f.chunks, start, 0, f.bpl, f.rpl, k, f.digital, f.abc, 0);
    r := f.FetchOneSequence(Some(f.chunks[k].rec.name));
  }
}
