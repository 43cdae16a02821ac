/** `_c_sq_to_seqstring` (SqFile.c lines 297-358): render a sequence as a
    FASTA record, and the line-width check its callers make (lines 378, 417, 493). */
module Fasta {
  import opened Wrappers
  import opened SeqTypes
  import opened Strings

  /** " " + s when s is non-empty, else nothing. */
  function Field(s: string): string {
    if s == "" then "" else " " + s
  }

  /** The definition line: '>', the name, the accession and the description
      when non-empty, each after one space, and one newline. */
  function Header(name: string, acc: string, desc: string): string {
    Defline(name, acc, desc) + "\n"
  }

  /** The definition line without its newline. */
  function Defline(name: string, acc: string, desc: string): string {
    ">" + name + Field(acc) + Field(desc)
  }

  /** The residues from `pos` on, cut into consecutive lines of `w`; the
      last may be shorter. */
  function LinesFrom(text: string, pos: nat, w: nat): seq<string>
    requires w > 0
    decreases |text| - pos
  {
    if pos >= |text| then []
    else
      var k := if w < |text| - pos then w else |text| - pos;
      [text[pos..pos + k]] + LinesFrom(text, pos + w, w)
  }

  /** All the residues cut into lines of `w`. */
  function Lines(text: string, w: nat): seq<string>
    requires w > 0
  {
    LinesFrom(text, 0, w)
  }

  /** Each line followed by a newline. */
  function JoinLines(lines: seq<string>): string {
    if |lines| == 0 then "" else lines[0] + "\n" + JoinLines(lines[1..])
  }

  /** The lines one after another, without separators. */
  function Concat(lines: seq<string>): string {
    if |lines| == 0 then "" else lines[0] + Concat(lines[1..])
  }

  function StripNewlines(s: string): string {
    if |s| == 0 then "" else (if s[0] == '\n' then "" else [s[0]]) + StripNewlines(s[1..])
  }

  /** The widths the renderer handles: -1 for one unbroken line, or a positive width. */
  predicate ValidTextw(textw: int) {
    textw == -1 || textw > 0
  }

  /** The residue part: one line with `textw == -1`, else lines of `textw`. */
  function ResidueBlock(text: string, textw: int): string
    requires ValidTextw(textw)
  {
    if textw == -1 then text + "\n" else JoinLines(Lines(text, textw))
  }

  /** The whole record. */
  function FastaRecord(name: string, acc: string, desc: string, text: string, textw: int): string
    requires ValidTextw(textw)
  {
    Header(name, acc, desc) + ResidueBlock(text, textw)
  }

  /** The residues as text: a digital sequence is textized first. */
  function TextOf(data: Residues, abc: Alphabet): Option<string> {
    match data
    case Text(c) => Some(c)
    case Digital(d) => abc.textize(d)
  }

  /** What `_c_sq_to_seqstring` returns, or the error it raises (`key` only
      labels the message). */
  function SeqString(sq: Sq, textw: int, key: string, abc: Alphabet): (r: Result<string, Error>)
    requires ValidTextw(textw)
    ensures r.Failure? <==> TextOf(sq.data, abc).None?
    ensures r.Failure? ==> r.error == TextizeFailed(key)
    ensures r.Success? ==> Header(sq.name, sq.acc, sq.desc) <= r.value
  {
    match TextOf(sq.data, abc)
    case None => Failure(TextizeFailed(key))
    case Some(t) => Success(FastaRecord(sq.name, sq.acc, sq.desc, t, textw))
  }

  /** The renderer: appends to a growing string while counting its length in
      `n`; the residues go out whole or `textw` at a time. */
  method SqToSeqString(sq: Sq, textw: int, key: string, abc: Alphabet) returns (r: Result<string, Error>, n: nat)
    requires ValidTextw(textw)
    ensures r == SeqString(sq, textw, key, abc)
    ensures r.Success? ==> n == |r.value|
  {
    var text: string;
    match sq.data {
      case Text(c) =>
        text := c;
      case Digital(d) =>
        var t := abc.textize(d);
        if t.None? {
          return Failure(TextizeFailed(key)), 0;
        }
        text := t.value;
    }
    var s := ">";
    n := 1;
    s := s + sq.name;
    n := n + |sq.name|;
    s, n := AppendField(s, n, sq.acc);
    s, n := AppendField(s, n, sq.desc);
    s := s + "\n";
    n := n + 1;
    if textw == -1 {
      s := s + text;
      n := n + |text|;
      s := s + "\n";
      n := n + 1;
      assert s == FastaRecord(sq.name, sq.acc, sq.desc, text, textw);
    } else {
      s, n := AppendLines(s, n, text, textw);
    }
    assert TextOf(sq.data, abc) == Some(text);
    r := Success(s);
  }

  /** Lines 318-332: a non-empty accession or description goes out after one space. */
  method AppendField(s0: string, n0: nat, f: string) returns (s: string, n: nat)
    requires n0 == |s0|
    ensures s == s0 + Field(f) && n == |s|
  {
    s, n := s0, n0;
    if f != "" {
      s := s + " ";
      n := n + 1;
      s := s + f;
      n := n + |f|;
    }
  }

  /** The wrapping loop (lines 345-352): appends `textw` residues and a
      newline at a time, the last line possibly shorter, keeping `n == |s|`. */
  method AppendLines(s0: string, n0: nat, text: string, textw: nat) returns (s: string, n: nat)
    requires textw > 0 && n0 == |s0|
    ensures s == s0 + JoinLines(Lines(text, textw)) && n == |s|
  {
    s, n := s0, n0;
    var pos: nat := 0;
    ghost var whole := s0 + JoinLines(Lines(text, textw));
    while pos < |text|
      invariant n == |s|
      invariant s + JoinLines(LinesFrom(text, pos, textw)) == whole
      decreases |text| - pos
    {
      var n2 := if textw < |text| - pos then textw else |text| - pos;
      var line := text[pos..pos + n2];
      ghost var later := JoinLines(LinesFrom(text, pos + textw, textw));
      LinesStep(s, text, pos, textw);
      assert s + line + "\n" + later == whole;
      s := s + line;
      n := n + n2;
      s := s + "\n";
      n := n + 1;
      pos := pos + textw;
    }
  }

  /** One round of the wrapping loop moves the next line from the rest to
      the output. */
  lemma LinesStep(s: string, text: string, pos: nat, w: nat)
    requires w > 0 && pos < |text|
    ensures var n2 := if w < |text| - pos then w else |text| - pos;
      s + JoinLines(LinesFrom(text, pos, w)) == s + text[pos..pos + n2] + "\n" + JoinLines(LinesFrom(text, pos + w, w))
  {
    var n2 := if w < |text| - pos then w else |text| - pos;
    var line := text[pos..pos + n2];
    var later := LinesFrom(text, pos + w, w);
    assert LinesFrom(text, pos, w) == [line] + later;
    JoinCons(line, later);
    AppendLine(s, line, JoinLines(later));
  }

  lemma AppendLine(before: string, line: string, later: string)
    ensures before + line + "\n" + later == before + (line + "\n" + later)
  {
  }

  lemma JoinCons(line: string, later: seq<string>)
    ensures JoinLines([line] + later) == line + "\n" + JoinLines(later)
  {
    assert ([line] + later)[1..] == later;
  }

  // ---- Properties of the rendering.

  /** The residue lines: as many as ceil(|text| / w), every one but the last
      exactly `w` long, the last between 1 and `w`. */
  lemma LinesShape(text: string, w: nat)
    requires w > 0
    ensures var ls := Lines(text, w);
      && (|ls| == 0 <==> |text| == 0)
      && (|ls| - 1) * w < |text| <= |ls| * w
      && (forall i :: 0 <= i < |ls| - 1 ==> |ls[i]| == w)
      && (|ls| > 0 ==> 1 <= |ls[|ls| - 1]| <= w)
  {
    LinesFromCount(text, 0, w);
    LinesFromLengths(text, 0, w);
  }

  lemma {:induction false} LinesFromCount(text: string, pos: nat, w: nat)
    requires w > 0
    ensures var m := |LinesFrom(text, pos, w)|;
      && (m == 0 <==> pos >= |text|)
      && (m > 0 ==> (m - 1) * w < |text| - pos <= m * w)
    decreases |text| - pos
  {
    if pos < |text| {
      var m := |LinesFrom(text, pos + w, w)|;
      LinesFromCount(text, pos + w, w);
      assert |LinesFrom(text, pos, w)| == m + 1;
      if m > 0 {
        assert (m + 1) * w == m * w + w;
        assert m * w == (m - 1) * w + w;
      }
    }
  }

  lemma {:induction false} LinesFromLengths(text: string, pos: nat, w: nat)
    requires w > 0
    ensures var ls := LinesFrom(text, pos, w);
      && (forall i :: 0 <= i < |ls| - 1 ==> |ls[i]| == w)
      && (|ls| > 0 ==> 1 <= |ls[|ls| - 1]| <= w)
    decreases |text| - pos
  {
    if pos < |text| {
      var tail := LinesFrom(text, pos + w, w);
      LinesFromLengths(text, pos + w, w);
      LinesFromCount(text, pos + w, w);
      var k := if w < |text| - pos then w else |text| - pos;
      var ls := LinesFrom(text, pos, w);
      assert ls == [text[pos..pos + k]] + tail;
      forall i | 0 <= i < |ls| - 1 ensures |ls[i]| == w {
        if i > 0 {
          assert ls[i] == tail[i - 1];
        }
      }
    }
  }

  /** The same count written with division: ceil(|text| / w). */
  lemma LinesCount(text: string, w: nat)
    requires w > 0
    ensures |Lines(text, w)| == (|text| + w - 1) / w
  {
    var k := |Lines(text, w)|;
    LinesShape(text, w);
    DivUnique(|text| + w - 1, w, k, |text| + w - 1 - k * w);
  }

  /** Division is determined by quotient and remainder. */
  lemma DivUnique(a: nat, w: nat, q: nat, r: nat)
    requires w > 0 && r < w && a == q * w + r
    ensures a / w == q
  {
    var q', r' := a / w, a % w;
    assert a == q' * w + r';
    if q' > q {
      MulMonotone(q + 1, q', w);
      assert false;
    } else if q' < q {
      MulMonotone(q' + 1, q, w);
      assert false;
    }
  }

  lemma {:induction false} MulMonotone(x: nat, y: nat, w: nat)
    requires x <= y
    ensures x * w <= y * w
    decreases y - x
  {
    if x < y {
      MulMonotone(x, y - 1, w);
      assert y * w == (y - 1) * w + w;
    }
  }

  /** Every residue line is a piece of the residues, in order. */
  lemma LinesConcat(text: string, w: nat)
    requires w > 0
    ensures Concat(Lines(text, w)) == text
    ensures forall i :: 0 <= i < |Lines(text, w)| ==> '\n' !in text ==> '\n' !in Lines(text, w)[i]
  {
    LinesFromConcat(text, 0, w);
    assert text[0..] == text;
  }

  lemma {:induction false} LinesFromConcat(text: string, pos: nat, w: nat)
    requires w > 0 && pos <= |text|
    ensures Concat(LinesFrom(text, pos, w)) == text[pos..]
    ensures forall i :: 0 <= i < |LinesFrom(text, pos, w)| ==> '\n' !in text ==> '\n' !in LinesFrom(text, pos, w)[i]
    decreases |text| - pos
  {
    if pos < |text| {
      var k := if w < |text| - pos then w else |text| - pos;
      var next := if pos + w <= |text| then pos + w else |text|;
      var line := text[pos..pos + k];
      var tail := LinesFrom(text, pos + w, w);
      assert tail == LinesFrom(text, next, w);
      LinesFromConcat(text, next, w);
      var ls := LinesFrom(text, pos, w);
      assert ls == [line] + tail;
      assert ls[1..] == tail;
      assert pos + k == next;
      assert text[pos..] == line + text[next..];
      forall i | 0 <= i < |ls| && '\n' !in text ensures '\n' !in ls[i] {
        if i == 0 {
          assert forall c :: c in line ==> c in text;
        } else {
          assert ls[i] == tail[i - 1];
        }
      }
    }
  }

  lemma StripNewlinesAppend(a: string, b: string)
    ensures StripNewlines(a + b) == StripNewlines(a) + StripNewlines(b)
  {
    if |a| > 0 {
      assert (a + b)[0] == a[0];
      assert (a + b)[1..] == a[1..] + b;
      StripNewlinesAppend(a[1..], b);
      assert StripNewlines(a + b) == (if a[0] == '\n' then "" else [a[0]]) + StripNewlines(a[1..] + b);
    } else {
      assert a + b == b;
    }
  }

  lemma {:induction false} StripNoNewlines(s: string)
    requires '\n' !in s
    ensures StripNewlines(s) == s
    decreases |s|
  {
    if |s| > 0 {
      assert '\n' !in s[1..] by { assert forall c :: c in s[1..] ==> c in s; }
      StripNoNewlines(s[1..]);
    }
  }

  lemma {:induction false} StripJoin(lines: seq<string>)
    requires forall i :: 0 <= i < |lines| ==> '\n' !in lines[i]
    ensures StripNewlines(JoinLines(lines)) == Concat(lines)
    decreases |lines|
  {
    if |lines| > 0 {
      var head, rest := lines[0], JoinLines(lines[1..]);
      assert JoinLines(lines) == (head + "\n") + rest;
      assert '\n' !in head;
      StripJoin(lines[1..]);
      StripNewlinesAppend(head + "\n", rest);
      StripNewlinesAppend(head, "\n");
      StripNoNewlines(head);
      assert StripNewlines("\n") == "";
      assert Concat(lines) == head + Concat(lines[1..]);
    }
  }

  /** Removing the newlines from the residue part gives back the residues, in
      both layouts. */
  lemma ResidueBlockRoundTrip(text: string, textw: int)
    requires ValidTextw(textw)
    requires '\n' !in text
    ensures StripNewlines(ResidueBlock(text, textw)) == text
  {
    if textw == -1 {
      StripNewlinesAppend(text, "\n");
      StripNoNewlines(text);
    } else {
      LinesConcat(text, textw);
      StripJoin(Lines(text, textw));
    }
  }

  /** The residue part ends in a newline unless it is empty, which happens only
      for no residues and a positive width. */
  lemma ResidueBlockEnds(text: string, textw: int)
    requires ValidTextw(textw)
    ensures ResidueBlock(text, textw) == "" <==> textw > 0 && text == ""
    ensures ResidueBlock(text, textw) != "" ==> ResidueBlock(text, textw)[|ResidueBlock(text, textw)| - 1] == '\n'
  {
    if textw > 0 && text != "" {
      JoinEnds(Lines(text, textw));
    }
  }

  lemma {:induction false} JoinEnds(lines: seq<string>)
    requires |lines| > 0
    ensures |JoinLines(lines)| > 0 && JoinLines(lines)[|JoinLines(lines)| - 1] == '\n'
    decreases |lines|
  {
    if |lines| > 1 {
      JoinEnds(lines[1..]);
    }
  }

  /** The words after the '>' of a definition line: the first is the name,
      the rest the remainder of the line. */
  function ParseDefline(line: string): Option<(string, string)> {
    if |line| == 0 || line[0] != '>' then None
    else
      var body := line[1..];
      match FirstIndexOf(body, ' ')
      case None => Some((body, ""))
      case Some(i) => Some((body[..i], body[i + 1..]))
  }

  /** The accession and description joined by one space, as a FASTA reader
      sees them in the rest of the line. */
  function Remainder(acc: string, desc: string): string {
    if acc == "" then desc else if desc == "" then acc else acc + " " + desc
  }

  /** The definition line holds no newline, and reading it back yields the
      name as the first word and the accession and description as the rest. */
  lemma HeaderRoundTrip(name: string, acc: string, desc: string)
    requires ' ' !in name && '\n' !in name && '\n' !in acc && '\n' !in desc
    ensures '\n' !in Defline(name, acc, desc)
    ensures ParseDefline(Defline(name, acc, desc)) == Some((name, Remainder(acc, desc)))
  {
    DeflineNoNewline(name, acc, desc);
    DeflineShape(name, acc, desc);
    DeflineParse(name, Remainder(acc, desc));
  }

  /** The definition line is the name alone, or the name, one space and the
      remainder. */
  lemma DeflineShape(name: string, acc: string, desc: string)
    ensures Remainder(acc, desc) == "" ==> Defline(name, acc, desc) == ">" + name
    ensures Remainder(acc, desc) != "" ==> Defline(name, acc, desc) == ">" + name + " " + Remainder(acc, desc)
  {
    if acc != "" && desc != "" {
      DeflineBoth(name, acc, desc);
    }
  }

  lemma DeflineBoth(name: string, acc: string, desc: string)
    requires acc != "" && desc != ""
    ensures Defline(name, acc, desc) == ">" + name + " " + (acc + " " + desc)
  {
    var head := ">" + name;
    calc {
      Defline(name, acc, desc);
      head + (" " + acc) + (" " + desc);
      { assert (" " + acc) + (" " + desc) == " " + (acc + " " + desc); }
      head + " " + (acc + " " + desc);
    }
  }

  lemma DeflineNoNewline(name: string, acc: string, desc: string)
    requires '\n' !in name && '\n' !in acc && '\n' !in desc
    ensures '\n' !in Defline(name, acc, desc)
  {
    assert '\n' !in Field(acc) && '\n' !in Field(desc);
  }

  lemma DeflineParse(name: string, rest: string)
    requires ' ' !in name
    ensures ParseDefline(">" + name) == Some((name, ""))
    ensures rest != "" ==> ParseDefline(">" + name + " " + rest) == Some((name, rest))
  {
    assert (">" + name)[1..] == name;
    if rest != "" {
      var body := (">" + name + " " + rest)[1..];
      assert body == name + " " + rest;
      assert body[|name|] == ' ' && body[..|name|] == name && body[|name| + 1..] == rest;
    }
  }

  // ---- Finding: a width of 0 passes the callers' check.

  /** The callers' check as written: only negative widths other than -1 are refused. */
  predicate ValidTextwAsWritten(textw: int) {
    !(textw < 0 && textw != -1)
  }

  /** One round of the wrapping loop as written, at any width the check
      lets through: the next `textw` residues (fewer at the end) and a
      newline go out, and the position moves on by `textw`. */
  function RoundAsWritten(text: string, pos: nat, s: string, textw: nat): (nat, string)
    requires pos < |text|
  {
    var n2 := if textw < |text| - pos then textw else |text| - pos;
    (pos + textw, s + text[pos..pos + n2] + "\n")
  }

  /** The position and output after `k` rounds from the start of the residue
      part, or where the loop stopped if it stopped sooner. */
  function RoundsAsWritten(text: string, textw: nat, k: nat): (nat, string)
    decreases k
  {
    if k == 0 then (0, "")
    else
      var (pos, s) := RoundsAsWritten(text, textw, k - 1);
      if pos >= |text| then (pos, s) else RoundAsWritten(text, pos, s, textw)
  }

  /** `k` empty lines. */
  function Newlines(k: nat): (s: string)
    ensures |s| == k && forall i :: 0 <= i < k ==> s[i] == '\n'
  {
    if k == 0 then "" else Newlines(k - 1) + "\n"
  }

  /** With width 0 the check passes, yet for a non-empty sequence every
      round leaves the position at 0 and only adds a newline: after `k`
      rounds the loop is still running and has written `k` empty lines. */
  lemma {:induction false} ZeroWidthNeverAdvances(text: string, k: nat)
    requires |text| > 0
    ensures ValidTextwAsWritten(0) && !ValidTextw(0)
    ensures RoundsAsWritten(text, 0, k) == (0, Newlines(k))
    decreases k
  {
    if k > 0 {
      ZeroWidthNeverAdvances(text, k - 1);
      var before := Newlines(k - 1);
      assert RoundAsWritten(text, 0, before, 0) == (0, before + text[0..0] + "\n");
      assert before + text[0..0] + "\n" == Newlines(k);
    }
  }

  /** 0 is the only width the check as written lets through that the renderer
      cannot handle for a non-empty sequence. */
  lemma CheckDiffersOnlyAtZero(textw: int)
    ensures ValidTextwAsWritten(textw) && !ValidTextw(textw) <==> textw == 0
    ensures ValidTextw(textw) ==> ValidTextwAsWritten(textw)
  {
  }
}
