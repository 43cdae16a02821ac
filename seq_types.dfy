/** The values the binding passes around: sequences (ESL_SQ), what the record
    parser finds in a file, the alphabet library's operations, and the kinds of
    fatal error (`croak`) the binding raises. */
module SeqTypes {
  import opened Wrappers

  /** One digitized residue code (ESL_DSQ is an unsigned byte). */
  newtype Dsq = x: int | 0 <= x < 256

  /** Residues of a sequence, either as text or as digital codes. */
  datatype Residues = Text(chars: string) | Digital(codes: seq<Dsq>) {
    /** The number of residues, `sq->n`. */
    function Length(): nat {
      match this
      case Text(c) => |c|
      case Digital(d) => |d|
    }
  }

  /** The alphabet library, kept uninterpreted: digitizing text, textizing
      codes (which can fail), and reverse complementing (which fails, for
      instance, on protein). */
  datatype Alphabet = Alphabet(
    digitize: string -> seq<Dsq>,
    textize: seq<Dsq> -> Option<string>,
    revcomp: Residues -> Option<Residues>)

  /** What Easel's reverse complement promises of a result: it is in the
      representation of its input and has its length. */
  ghost predicate RevcompKeepsShape(abc: Alphabet) {
    forall r: Residues :: abc.revcomp(r).Some? ==>
      abc.revcomp(r).value.Digital? == r.Digital? && abc.revcomp(r).value.Length() == r.Length()
  }

  /** A fetched sequence: name, accession, description, residues and `L`, the
      full length of the source record (for a subsequence, longer than the
      residues fetched). An empty accession or description is "absent". */
  datatype Sq = Sq(name: string, acc: string, desc: string, data: Residues, L: nat)

  /** A record as the record parser reads it from the file. */
  datatype RawRecord = RawRecord(name: string, acc: string, desc: string, residues: string, doff: nat)

  /** What the record parser finds at one position of the file: a record, a
      record without a name, text it cannot parse, or some other read error.
      The position of a chunk in the file stands for its byte offset. */
  datatype Chunk = Record(rec: RawRecord) | Nameless | Garbled | ReadError(code: int)

  /** Why a subsequence fetch failed; the binding reports all of them through
      the parser's error buffer. */
  datatype SubseqProblem = SubseqKeyNotFound | SubseqBadRecord | SubseqOutOfRange

  /** Every fatal error the binding raises. */
  datatype Error =
    | NoIndex                                  // "sequence file has no SSI information"
    | NoIndexIn(file: nat)                     // the same, for file 1 or 2 of a comparison
    | DigitalMismatch(digitized: nat)          // file <digitized> is digital, the other is not
    | KeyNotFound(key: string)                 // fetch by a name the index lacks
    | OrdinalNotFound(nkey: int)               // fetch by an ordinal the index lacks
    | ParseFailed                              // the record parser's eslEFORMAT
    | UnexpectedEof                            // a read found no record
    | ReadFailed(code: int)                    // any other read status
    | NamelessRecord                           // a read record has no name
    | WrongSequence(found: string, wanted: string)
    | MissingName(nseq: nat)                   // index build: record #nseq has no name
    | WriteFailed                              // the new index could not be written
    | SubseqFailed(problem: SubseqProblem)
    | RevcompFailed(name: string)
    | TextizeFailed(key: string)
    | InvalidTextw
    | RepresentationMismatch                   // modes agree but the residues do not
}
