/** Building an index: what `_c_create_ssi_index` (SqFile.c lines 115-171)
    gathers in one pass over the file, stated as a function of the file's
    chunks, and the new-index object the pass fills. */
module Build {
  import opened Wrappers
  import opened SeqTypes
  import opened Ssi

  /** An index being written (ESL_NEWSSI): the files added, the primary and
      secondary keys in the order they were added, and the layout. */
  class NewSsi {
    var nfiles: nat
    var primaries: seq<PrimaryKey>
    var aliases: seq<Alias>
    var layout: Option<Layout>

    constructor ()
      ensures nfiles == 0 && primaries == [] && aliases == [] && layout == None
    {
      nfiles, primaries, aliases, layout := 0, [], [], None;
    }

    /** `esl_newssi_AddFile`: the handle of a new file is the number of
        files added before it. */
    method AddFile() returns (fh: nat)
      modifies this
      ensures fh == old(nfiles) && nfiles == old(nfiles) + 1
      ensures primaries == old(primaries) && aliases == old(aliases) && layout == old(layout)
    {
      fh := nfiles;
      nfiles := nfiles + 1;
    }

    /** `esl_newssi_AddKey`. */
    method AddKey(key: string, fh: nat, roff: nat, doff: nat, len: nat)
      modifies this
      ensures primaries == old(primaries) + [PrimaryKey(key, fh, roff, doff, len)]
      ensures nfiles == old(nfiles) && aliases == old(aliases) && layout == old(layout)
    {
      primaries := primaries + [PrimaryKey(key, fh, roff, doff, len)];
    }

    /** `esl_newssi_AddAlias`. */
    method AddAlias(key: string, primary: string)
      modifies this
      ensures aliases == old(aliases) + [Alias(key, primary)]
      ensures nfiles == old(nfiles) && primaries == old(primaries) && layout == old(layout)
    {
      aliases := aliases + [Alias(key, primary)];
    }

    /** `esl_newssi_SetSubseq`. */
    method SetSubseq(bpl: int, rpl: int)
      modifies this
      ensures layout == Some(Layout(bpl, rpl))
      ensures nfiles == old(nfiles) && primaries == old(primaries) && aliases == old(aliases)
    {
      layout := Some(Layout(bpl, rpl));
    }
  }

  /** The primary key of the record at chunk `roff`. */
  function KeyOf(rec: RawRecord, fh: nat, roff: nat): PrimaryKey {
    PrimaryKey(rec.name, fh, roff, rec.doff, |rec.residues|)
  }

  /** The secondary key of a record: its accession, when it has one. */
  function AliasOf(rec: RawRecord): seq<Alias> {
    if rec.acc != "" then [Alias(rec.acc, rec.name)] else []
  }

  /** Why the pass stops at a chunk that is not a readable record, with
      `nseq` the number of that record: a parse failure, another read
      status, or a record without a name. */
  function ChunkError(c: Chunk, nseq: nat): Error
    requires !c.Record?
  {
    match c
    case Garbled => ParseFailed
    case ReadError(code) => ReadFailed(code)
    case Nameless => MissingName(nseq)
  }

  /** The read loop from chunk `i` on, with the keys gathered so far and
      `nseq` records read: one primary key per record, a secondary key when
      the accession is non-empty, and the first chunk that is not a named
      record ends the pass with its error. */
  function Scan(chunks: seq<Chunk>, i: nat, fh: nat, ps: seq<PrimaryKey>, aliases: seq<Alias>, nseq: nat)
    : Result<(seq<PrimaryKey>, seq<Alias>), Error>
    decreases |chunks| - i
  {
    if i >= |chunks| then Success((ps, aliases))
    else if !chunks[i].Record? then Failure(ChunkError(chunks[i], nseq + 1))
    else
      var rec := chunks[i].rec;
      Scan(chunks, i + 1, fh, ps + [KeyOf(rec, fh, i)], aliases + AliasOf(rec), nseq + 1)
  }

  /** The layout is recorded only when both figures are positive. */
  function LayoutOf(bpl: int, rpl: int): (l: Option<Layout>)
    ensures l.Some? <==> bpl > 0 && rpl > 0
    ensures l.Some? ==> l.value == Layout(bpl, rpl)
  {
    if bpl > 0 && rpl > 0 then Some(Layout(bpl, rpl)) else None
  }

  /** The index a pass from chunk `start` writes, or the error that stops it. */
  function BuildIndex(chunks: seq<Chunk>, start: nat, fh: nat, bpl: int, rpl: int): Result<SsiIndex, Error> {
    match Scan(chunks, start, fh, [], [], 0)
    case Failure(e) => Failure(e)
    case Success(keys) => Persist(keys.0, keys.1, LayoutOf(bpl, rpl))
  }

  // ---- The pass in closed form.

  predicate AllRecords(chunks: seq<Chunk>, i: nat) {
    forall k :: i <= k < |chunks| ==> chunks[k].Record?
  }

  /** The primary keys of the records from chunk `i` on, in file order. */
  function KeysFrom(chunks: seq<Chunk>, i: nat, fh: nat): seq<PrimaryKey>
    requires AllRecords(chunks, i)
    decreases |chunks| - i
  {
    if i >= |chunks| then [] else [KeyOf(chunks[i].rec, fh, i)] + KeysFrom(chunks, i + 1, fh)
  }

  /** The secondary keys of the records from chunk `i` on, in file order. */
  function AliasesFrom(chunks: seq<Chunk>, i: nat): seq<Alias>
    requires AllRecords(chunks, i)
    decreases |chunks| - i
  {
    if i >= |chunks| then [] else AliasOf(chunks[i].rec) + AliasesFrom(chunks, i + 1)
  }

  /** A file of records only: the pass gathers every record's keys. */
  lemma {:induction false} ScanSucceeds(chunks: seq<Chunk>, i: nat, fh: nat, ps: seq<PrimaryKey>, aliases: seq<Alias>, nseq: nat)
    requires AllRecords(chunks, i)
    ensures Scan(chunks, i, fh, ps, aliases, nseq) == Success((ps + KeysFrom(chunks, i, fh), aliases + AliasesFrom(chunks, i)))
    decreases |chunks| - i
  {
    if i >= |chunks| {
      assert ps + [] == ps && aliases + [] == aliases;
    } else {
      var rec := chunks[i].rec;
      var key, keys, more := KeyOf(rec, fh, i), KeysFrom(chunks, i + 1, fh), AliasesFrom(chunks, i + 1);
      ScanSucceeds(chunks, i + 1, fh, ps + [key], aliases + AliasOf(rec), nseq + 1);
      assert KeysFrom(chunks, i, fh) == [key] + keys;
      assert ps + [key] + keys == ps + ([key] + keys);
      assert AliasesFrom(chunks, i) == AliasOf(rec) + more;
      assert aliases + AliasOf(rec) + more == aliases + (AliasOf(rec) + more);
    }
  }

  /** The first chunk `k` that is not a named record stops the pass with its
      error, numbering the record as the count of records read before it
      plus one. */
  lemma {:induction false} ScanFails(chunks: seq<Chunk>, i: nat, k: nat, fh: nat, ps: seq<PrimaryKey>, aliases: seq<Alias>, nseq: nat)
    requires i <= k < |chunks| && !chunks[k].Record?
    requires forall m :: i <= m < k ==> chunks[m].Record?
    ensures Scan(chunks, i, fh, ps, aliases, nseq) == Failure(ChunkError(chunks[k], nseq + (k - i) + 1))
    decreases k - i
  {
    if i < k {
      var rec := chunks[i].rec;
      ScanFails(chunks, i + 1, k, fh, ps + [KeyOf(rec, fh, i)], aliases + AliasOf(rec), nseq + 1);
    }
  }

  /** One primary key per record, in file order, each recording the
      record's name, its chunk as the record offset, and its length. */
  lemma {:induction false} KeysFromShape(chunks: seq<Chunk>, i: nat, fh: nat)
    requires AllRecords(chunks, i) && i <= |chunks|
    ensures |KeysFrom(chunks, i, fh)| == |chunks| - i
    ensures forall m :: 0 <= m < |chunks| - i ==> KeysFrom(chunks, i, fh)[m] == KeyOf(chunks[i + m].rec, fh, i + m)
    decreases |chunks| - i
  {
    if i < |chunks| {
      KeysFromShape(chunks, i + 1, fh);
      var ks := KeysFrom(chunks, i, fh);
      assert forall m :: 1 <= m < |chunks| - i ==> ks[m] == KeysFrom(chunks, i + 1, fh)[m - 1];
    }
  }

  /** A secondary key is gathered exactly for each record with a non-empty
      accession, naming that record; nothing checks that the accession
      differs from the name. */
  lemma {:induction false} AliasesFromContents(chunks: seq<Chunk>, i: nat, a: Alias)
    requires AllRecords(chunks, i)
    ensures a in AliasesFrom(chunks, i) <==>
      exists k :: i <= k < |chunks| && chunks[k].rec.acc != "" && a == Alias(chunks[k].rec.acc, chunks[k].rec.name)
    decreases |chunks| - i
  {
    if i < |chunks| {
      var rec := chunks[i].rec;
      var rest := AliasesFrom(chunks, i + 1);
      AliasesFromContents(chunks, i + 1, a);
      assert AliasesFrom(chunks, i) == AliasOf(rec) + rest;
      if a in AliasOf(rec) {
        assert rec.acc != "" && a == Alias(rec.acc, rec.name);
      }
    }
  }

  /** An index written by a successful pass: every chunk from `start` on is
      a named record, the keys are theirs sorted by name, the layout is the
      one recorded, and the index is valid. */
  lemma BuiltIndex(chunks: seq<Chunk>, start: nat, fh: nat, bpl: int, rpl: int)
    requires BuildIndex(chunks, start, fh, bpl, rpl).Success?
    ensures AllRecords(chunks, start)
    ensures multiset(BuildIndex(chunks, start, fh, bpl, rpl).value.primaries) == multiset(KeysFrom(chunks, start, fh))
    ensures SortedByName(BuildIndex(chunks, start, fh, bpl, rpl).value.primaries)
    ensures BuildIndex(chunks, start, fh, bpl, rpl).value.layout == LayoutOf(bpl, rpl)
    ensures Valid(BuildIndex(chunks, start, fh, bpl, rpl).value)
  {
    if !AllRecords(chunks, start) {
      var k := FirstNonRecord(chunks, start);
      ScanFails(chunks, start, k, fh, [], [], 0);
      assert false;
    }
    ScanSucceeds(chunks, start, fh, [], [], 0);
    assert [] + KeysFrom(chunks, start, fh) == KeysFrom(chunks, start, fh);
    assert [] + AliasesFrom(chunks, start) == AliasesFrom(chunks, start);
    AliasesNameKeys(chunks, start, fh);
    PersistValid(KeysFrom(chunks, start, fh), AliasesFrom(chunks, start), LayoutOf(bpl, rpl));
  }

  /** Every secondary key gathered names a primary key gathered. */
  lemma AliasesNameKeys(chunks: seq<Chunk>, start: nat, fh: nat)
    requires AllRecords(chunks, start)
    ensures forall j :: 0 <= j < |AliasesFrom(chunks, start)| ==>
      HasName(KeysFrom(chunks, start, fh), AliasesFrom(chunks, start)[j].primary)
  {
    var ps, aliases := KeysFrom(chunks, start, fh), AliasesFrom(chunks, start);
    forall j | 0 <= j < |aliases| ensures HasName(ps, aliases[j].primary) {
      AliasesFromContents(chunks, start, aliases[j]);
      var k :| start <= k < |chunks| && chunks[k].rec.acc != "" && aliases[j] == Alias(chunks[k].rec.acc, chunks[k].rec.name);
      KeysFromShape(chunks, start, fh);
      assert ps[k - start].name == aliases[j].primary;
    }
  }

  /** The first chunk from `i` on that is not a record. */
  lemma FirstNonRecord(chunks: seq<Chunk>, i: nat) returns (k: nat)
    requires !AllRecords(chunks, i)
    ensures i <= k < |chunks| && !chunks[k].Record?
    ensures forall m :: i <= m < k ==> chunks[m].Record?
  {
    k := i;
    while chunks[k].Record?
      invariant i <= k < |chunks|
      invariant forall m :: i <= m < k ==> chunks[m].Record?
      invariant exists m :: k <= m < |chunks| && !chunks[m].Record?
      decreases |chunks| - k
    {
      k := k + 1;
    }
  }

  /** The pass fails exactly when some chunk from `start` on is not a named
      record, or when two records share a name or an accession. */
  lemma BuildFails(chunks: seq<Chunk>, start: nat, fh: nat, bpl: int, rpl: int)
    ensures BuildIndex(chunks, start, fh, bpl, rpl).Failure? <==>
      !AllRecords(chunks, start)
      || !UniqueNames(KeysFrom(chunks, start, fh))
      || !UniqueAliasKeys(AliasesFrom(chunks, start))
    ensures AllRecords(chunks, start) && BuildIndex(chunks, start, fh, bpl, rpl).Failure? ==>
      BuildIndex(chunks, start, fh, bpl, rpl).error == WriteFailed
  {
    if AllRecords(chunks, start) {
      ScanSucceeds(chunks, start, fh, [], [], 0);
      assert [] + KeysFrom(chunks, start, fh) == KeysFrom(chunks, start, fh);
      assert [] + AliasesFrom(chunks, start) == AliasesFrom(chunks, start);
    } else {
      var k := FirstNonRecord(chunks, start);
      ScanFails(chunks, start, k, fh, [], [], 0);
    }
  }
}
