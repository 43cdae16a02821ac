/** How `_c_fetch_one_subsequence` reads a coordinate request (SqFile.c lines
    259-269) and names the subsequence it returns (lines 274-275). */
module Coordinates {
  import opened Wrappers
  import opened Decimal
  import opened Strings

  /** An ascending range handed to the subsequence fetch, and the strand. */
  datatype Normalized = Normalized(start: int, end: int, revcomp: bool)

  function Min(a: int, b: int): int { if a <= b then a else b }
  function Max(a: int, b: int): int { if a <= b then b else a }

  /** Start, end (0 meaning "to the last residue") and the flag that forces a
      single-residue request onto the reverse strand. Descending coordinates
      take priority over the flag, which takes priority over the forward case. */
  function Normalize(givenStart: int, givenEnd: int, doResRevcomp: bool): (c: Normalized)
    ensures givenEnd != 0 ==> c.start == Min(givenStart, givenEnd) && c.end == Max(givenStart, givenEnd)
    ensures givenEnd == 0 ==> c.start == givenStart && c.end == 0
    ensures c.revcomp <==> (givenEnd != 0 && givenStart > givenEnd) || (givenStart == givenEnd && doResRevcomp)
  {
    if givenEnd != 0 && givenStart > givenEnd then Normalized(givenEnd, givenStart, true)
    else if givenEnd == givenStart && doResRevcomp then Normalized(givenEnd, givenStart, true)
    else Normalized(givenStart, givenEnd, false)
  }

  /** The flag never moves the range, and matters only for a one-residue request. */
  lemma FlagOnlyChoosesStrand(givenStart: int, givenEnd: int)
    ensures Normalize(givenStart, givenEnd, true).start == Normalize(givenStart, givenEnd, false).start
    ensures Normalize(givenStart, givenEnd, true).end == Normalize(givenStart, givenEnd, false).end
    ensures givenStart != givenEnd ==> Normalize(givenStart, givenEnd, true) == Normalize(givenStart, givenEnd, false)
  {
  }

  /** The end coordinate printed in a default name: the given end, or the
      record's length `L` when the end was 0. */
  function EffectiveEnd(givenEnd: int, L: nat): int {
    if givenEnd == 0 then L else givenEnd
  }

  /** The name given to a fetched subsequence: the explicit new name if there
      is one, else "<key>/<given start>-<given end or L>", written with the
      coordinates as given, before any swap. */
  function SubseqName(key: string, newname: Option<string>, givenStart: int, givenEnd: int, L: nat): (name: string)
    ensures newname.Some? ==> name == newname.value
    ensures newname.None? ==> |name| > |key| && name[..|key|] == key && name[|key|] == '/'
  {
    match newname
    case Some(n) => n
    case None => key + "/" + IntToDecimal(givenStart) + "-" + IntToDecimal(EffectiveEnd(givenEnd, L))
  }

  /** Reads a default name back: the text before the last '/', and the two
      numbers either side of the first '-' after it. */
  function ParseSubseqName(name: string): Option<(string, nat, nat)> {
    match LastIndexOf(name, '/')
    case None => None
    case Some(i) =>
      var rest := name[i + 1..];
      match FirstIndexOf(rest, '-')
      case None => None
      case Some(j) =>
        var a, b := rest[..j], rest[j + 1..];
        if a != "" && b != "" && IsDigits(a) && IsDigits(b)
        then Some((name[..i], ParseDecimal(a), ParseDecimal(b)))
        else None
  }

  /** The default name records the key and the requested coordinates (with the
      record length in place of an end of 0), whatever characters the key holds. */
  lemma SubseqNameRoundTrip(key: string, givenStart: nat, givenEnd: nat, L: nat)
    ensures ParseSubseqName(SubseqName(key, None, givenStart, givenEnd, L))
         == Some((key, givenStart, EffectiveEnd(givenEnd, L)))
  {
    var a := NatToDecimal(givenStart);
    var e: nat := EffectiveEnd(givenEnd, L);
    var b := NatToDecimal(e);
    var tail := a + "-" + b;
    var name := key + "/" + tail;
    assert SubseqName(key, None, givenStart, givenEnd, L) == name;
    DigitsHaveNoSeparator(a);
    DigitsHaveNoSeparator(b);
    assert '/' !in tail by {
      forall k | 0 <= k < |tail| ensures tail[k] != '/' {
        if k < |a| { assert tail[k] == a[k]; }
        else if k > |a| { assert tail[k] == b[k - |a| - 1]; }
      }
    }
    LastSeparator(key, tail, '/');
    FirstSeparator(a, b, '-');
    DecimalRoundTrip(givenStart);
    DecimalRoundTrip(e);
    ParseSplits(name, |key|, |a|);
  }

  /** One step of ParseSubseqName, with the two separator positions known. */
  lemma ParseSplits(name: string, i: nat, j: nat)
    requires LastIndexOf(name, '/') == Some(i)
    requires FirstIndexOf(name[i + 1..], '-') == Some(j)
    requires name[i + 1..][..j] != "" && name[i + 1..][j + 1..] != ""
    requires IsDigits(name[i + 1..][..j]) && IsDigits(name[i + 1..][j + 1..])
    ensures ParseSubseqName(name)
         == Some((name[..i], ParseDecimal(name[i + 1..][..j]), ParseDecimal(name[i + 1..][j + 1..])))
  {
  }

  lemma DigitsHaveNoSeparator(s: string)
    requires IsDigits(s)
    ensures '/' !in s && '-' !in s
  {
  }

  /** A request for 10..3 is named with the coordinates as given. */
  lemma DescendingRequestKeepsGivenOrder(key: string, L: nat)
    ensures Normalize(10, 3, false) == Normalized(3, 10, true)
    ensures SubseqName(key, None, 10, 3, L) == key + "/10-3"
  {
    assert NatToDecimal(10) == "10";
  }

  // ---- Finding: the coordinates are narrowed to `int` (lines 250, 261, 265, 268).

  /** C's conversion of a 64-bit value to a 32-bit `int` (two's complement). */
  function ToInt32(x: int): (r: int)
    ensures -0x8000_0000 <= r < 0x8000_0000
    ensures -0x8000_0000 <= x < 0x8000_0000 ==> r == x
  {
    var m := x % 0x1_0000_0000;
    if m >= 0x8000_0000 then m - 0x1_0000_0000 else m
  }

  /** The normaliser as written: the comparisons use the `long` arguments, but
      the chosen start and end are stored in `int` variables. */
  function NormalizeAsWritten(givenStart: int, givenEnd: int, doResRevcomp: bool): (c: Normalized)
    ensures c.revcomp == Normalize(givenStart, givenEnd, doResRevcomp).revcomp
  {
    var n := Normalize(givenStart, givenEnd, doResRevcomp);
    Normalized(ToInt32(n.start), ToInt32(n.end), n.revcomp)
  }

  /** A start beyond 2^31 - 1 (a position in a long chromosome) reaches the
      fetch negated, whereas the 64-bit normaliser passes it through. */
  lemma LongStartIsTruncated()
    ensures NormalizeAsWritten(0x8000_0000, 0, false).start == -0x8000_0000
    ensures Normalize(0x8000_0000, 0, false).start == 0x8000_0000
  {
  }

  /** Within 32-bit range the two agree, so the truncation is the only difference. */
  lemma AsWrittenAgreesInRange(givenStart: int, givenEnd: int, doResRevcomp: bool)
    requires -0x8000_0000 <= givenStart < 0x8000_0000 && -0x8000_0000 <= givenEnd < 0x8000_0000
    ensures NormalizeAsWritten(givenStart, givenEnd, doResRevcomp) == Normalize(givenStart, givenEnd, doResRevcomp)
  {
  }
}
