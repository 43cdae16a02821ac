/** The sequence index (SSI) as the binding sees it, and the queries and
    aggregates SqFile.c computes from it: `_c_check_seq_exists`,
    `_c_fetch_seq_length_given_name`, `_c_nseq_ssi`, `_c_nres_ssi` and
    `_c_fetch_seq_name_and_length_given_ssi_number`. */
module Ssi {
  import opened Wrappers
  import opened SeqTypes
  import opened Decimal
  import opened Strings

  /** One primary key: the record's name, the file it lives in, its record
      and data offsets, and its length. */
  datatype PrimaryKey = PrimaryKey(name: string, fh: nat, roff: nat, doff: nat, len: nat)

  /** A secondary key (an accession) naming a primary key. */
  datatype Alias = Alias(key: string, primary: string)

  /** Bytes and residues per line, recorded when every line of the file has
      the same layout. */
  datatype Layout = Layout(bpl: int, rpl: int)

  /** An index opened for reading: the primary keys in ordinal order, the
      secondary keys, and the layout if one was recorded. */
  datatype SsiIndex = SsiIndex(primaries: seq<PrimaryKey>, aliases: map<string, string>, layout: Option<Layout>)

  predicate UniqueNames(ps: seq<PrimaryKey>) {
    forall i, j :: 0 <= i < j < |ps| ==> ps[i].name != ps[j].name
  }

  predicate UniqueAliasKeys(aliases: seq<Alias>) {
    forall i, j :: 0 <= i < j < |aliases| ==> aliases[i].key != aliases[j].key
  }

  predicate HasName(ps: seq<PrimaryKey>, name: string) {
    exists i :: 0 <= i < |ps| && ps[i].name == name
  }

  /** A readable index: primary names are unique and every secondary key
      names an existing primary key. */
  predicate Valid(idx: SsiIndex) {
    && UniqueNames(idx.primaries)
    && forall a :: a in idx.aliases ==> HasName(idx.primaries, idx.aliases[a])
  }

  /** A key the index resolves: a primary name, or a secondary key whose
      primary name exists. */
  predicate Known(idx: SsiIndex, key: string) {
    || HasName(idx.primaries, key)
    || (key in idx.aliases && HasName(idx.primaries, idx.aliases[key]))
  }

  /** The ordinal of the first primary key named `name`. */
  function FindPrimary(ps: seq<PrimaryKey>, name: string): (r: Option<nat>)
    ensures r.Some? ==> r.value < |ps| && ps[r.value].name == name
    ensures r.Some? ==> forall j :: 0 <= j < r.value ==> ps[j].name != name
    ensures r.None? <==> !HasName(ps, name)
  {
    if |ps| == 0 then None
    else if ps[0].name == name then Some(0)
    else
      match FindPrimary(ps[1..], name)
      case None => None
      case Some(i) => Some(i + 1)
  }

  /** Lookup by name (`esl_ssi_FindName`): the primary keys first, then the
      secondary keys, resolved to their primary key. */
  function FindName(idx: SsiIndex, key: string): (r: Option<PrimaryKey>)
    ensures r.Some? <==> Known(idx, key)
    ensures r.Some? ==> r.value in idx.primaries
    ensures HasName(idx.primaries, key) ==> r.Some? && r.value.name == key
    ensures !HasName(idx.primaries, key) && r.Some? ==> key in idx.aliases && r.value.name == idx.aliases[key]
  {
    match FindPrimary(idx.primaries, key)
    case Some(i) => Some(idx.primaries[i])
    case None =>
      if key !in idx.aliases then None
      else
        match FindPrimary(idx.primaries, idx.aliases[key])
        case Some(i) => Some(idx.primaries[i])
        case None => None
  }

  /** Lookup by ordinal (`esl_ssi_FindNumber`). */
  function FindNumber(idx: SsiIndex, nkey: int): (r: Option<PrimaryKey>)
    ensures r.Some? <==> 0 <= nkey < |idx.primaries|
    ensures r.Some? ==> r.value in idx.primaries
  {
    if 0 <= nkey < |idx.primaries| then Some(idx.primaries[nkey]) else None
  }

  /** `_c_check_seq_exists`: no index is fatal; otherwise 1 for a key the
      index resolves and 0 for any other. */
  function CheckSeqExists(ssi: Option<SsiIndex>, name: string): (r: Result<int, Error>)
    ensures ssi.None? ==> r == Failure(NoIndex)
    ensures ssi.Some? ==> r == Success(if Known(ssi.value, name) then 1 else 0)
  {
    match ssi
    case None => Failure(NoIndex)
    case Some(idx) => if FindName(idx, name).None? then Success(0) else Success(1)
  }

  /** `_c_fetch_seq_length_given_name`: no index is fatal; an unknown key
      gives the sentinel -1, a known one the stored length. */
  function SeqLengthGivenName(ssi: Option<SsiIndex>, name: string): (r: Result<int, Error>)
    ensures ssi.None? ==> r == Failure(NoIndex)
    ensures ssi.Some? ==> r.Success? && (r.value == -1 <==> !Known(ssi.value, name))
    ensures ssi.Some? && r.value != -1 ==>
      exists p :: p in ssi.value.primaries && p.len == r.value
        && (p.name == name || (name in ssi.value.aliases && p.name == ssi.value.aliases[name]))
  {
    match ssi
    case None => Failure(NoIndex)
    case Some(idx) =>
      match FindName(idx, name)
      case None => Success(-1)
      case Some(p) => Success(p.len as int)
  }

  /** In a valid index a primary key's own name finds exactly that key. */
  lemma FindByOwnName(idx: SsiIndex, i: int)
    requires Valid(idx) && 0 <= i < |idx.primaries|
    ensures FindName(idx, idx.primaries[i].name) == Some(idx.primaries[i])
    ensures CheckSeqExists(Some(idx), idx.primaries[i].name) == Success(1)
    ensures SeqLengthGivenName(Some(idx), idx.primaries[i].name) == Success(idx.primaries[i].len)
  {
    var ps := idx.primaries;
    var k := FindPrimary(ps, ps[i].name);
    assert k.Some?;
  }

  /** In a valid index a secondary key that is not also a primary name finds
      the primary key it names. */
  lemma FindByAlias(idx: SsiIndex, key: string, i: int)
    requires Valid(idx) && 0 <= i < |idx.primaries|
    requires key in idx.aliases && idx.aliases[key] == idx.primaries[i].name
    requires !HasName(idx.primaries, key)
    ensures FindName(idx, key) == Some(idx.primaries[i])
  {
    FindByOwnName(idx, i);
  }

  /** `_c_nseq_ssi`: the number of primary keys. */
  function NseqSsi(ssi: Option<SsiIndex>): (r: Result<nat, Error>)
    ensures ssi.None? ==> r == Failure(NoIndex)
    ensures ssi.Some? ==> r.Success? && r.value == |ssi.value.primaries|
  {
    match ssi
    case None => Failure(NoIndex)
    case Some(idx) => Success(|idx.primaries|)
  }

  /** The lengths summed over ordinals 0 .. |ps|-1 (zero lengths included). */
  function TotalLength(ps: seq<PrimaryKey>): nat {
    if |ps| == 0 then 0 else TotalLength(ps[..|ps| - 1]) + ps[|ps| - 1].len
  }

  /** `_c_nres_ssi`: sums the lengths over every ordinal, then renders the sum
      in decimal into a buffer sized by counting its digits. */
  method NresSsi(ssi: Option<SsiIndex>) returns (r: Result<string, Error>)
    ensures ssi.None? ==> r == Failure(NoIndex)
    ensures ssi.Some? ==> r == Success(NatToDecimal(TotalLength(ssi.value.primaries)))
  {
    if ssi.None? {
      return Failure(NoIndex);
    }
    var idx := ssi.value;
    var nseq := |idx.primaries|;
    var nres: nat := 0;
    for i := 0 to nseq
      invariant nres == TotalLength(idx.primaries[..i])
    {
      var p := FindNumber(idx, i);
      nres := nres + p.value.len;
      assert idx.primaries[..i + 1][..i] == idx.primaries[..i];
    }
    assert idx.primaries[..nseq] == idx.primaries;
    var wid := DecimalWidth(nres);
    var str := Snprintf(NatToDecimal(nres), wid + 1);
    r := Success(str);
  }

  lemma {:induction false} TotalLengthAppend(a: seq<PrimaryKey>, b: seq<PrimaryKey>)
    ensures TotalLength(a + b) == TotalLength(a) + TotalLength(b)
    decreases |b|
  {
    if |b| > 0 {
      var b' := b[..|b| - 1];
      assert (a + b)[..|a + b| - 1] == a + b';
      TotalLengthAppend(a, b');
    } else {
      assert a + b == a;
    }
  }

  /** The total counts every key's length: none exceeds it, and it is 0
      exactly when every key has length 0. */
  lemma {:induction false} TotalLengthBounds(ps: seq<PrimaryKey>)
    ensures forall i :: 0 <= i < |ps| ==> ps[i].len <= TotalLength(ps)
    ensures TotalLength(ps) == 0 <==> forall i :: 0 <= i < |ps| ==> ps[i].len == 0
    decreases |ps|
  {
    if |ps| > 0 {
      var front := ps[..|ps| - 1];
      TotalLengthBounds(front);
      assert forall i :: 0 <= i < |ps| - 1 ==> ps[i] == front[i];
    }
  }

  /** The total does not depend on the order of the keys (the index stores
      them sorted, not in file order). */
  lemma {:induction false} TotalLengthPermutation(a: seq<PrimaryKey>, b: seq<PrimaryKey>)
    requires multiset(a) == multiset(b)
    ensures TotalLength(a) == TotalLength(b)
    decreases |a|
  {
    if |a| == 0 {
      assert |b| == |multiset(b)| == 0;
    } else {
      var x := a[|a| - 1];
      var front := a[..|a| - 1];
      assert a == front + [x];
      assert x in multiset(a);
      var j :| 0 <= j < |b| && b[j] == x;
      var rest := b[..j] + b[j + 1..];
      RemoveOne(b, j);
      assert multiset(front) == multiset(rest) by {
        assert multiset(a) == multiset(front) + multiset{x};
        assert multiset(front) == multiset(a) - multiset{x};
        assert multiset(rest) == multiset(b) - multiset{x};
      }
      TotalLengthPermutation(front, rest);
    }
  }

  lemma TotalLengthSingle(p: PrimaryKey)
    ensures TotalLength([p]) == p.len
  {
    assert [p][..0] == [];
  }

  lemma SplitAround(b: seq<PrimaryKey>, j: nat)
    requires j < |b|
    ensures b == b[..j] + [b[j]] + b[j + 1..]
  {
    assert b[..j + 1] == b[..j] + [b[j]];
    assert b == b[..j + 1] + b[j + 1..];
  }

  /** Taking out the key at ordinal `j` lowers the total by its length. */
  lemma RemoveOne(b: seq<PrimaryKey>, j: nat)
    requires j < |b|
    ensures TotalLength(b) == TotalLength(b[..j] + b[j + 1..]) + b[j].len
    ensures multiset(b) == multiset(b[..j] + b[j + 1..]) + multiset{b[j]}
  {
    var front, mid, back := b[..j], [b[j]], b[j + 1..];
    SplitAround(b, j);
    TotalLengthAppend(front + mid, back);
    TotalLengthAppend(front, mid);
    TotalLengthAppend(front, back);
    TotalLengthSingle(b[j]);
    assert multiset(b) == multiset(front) + multiset(mid) + multiset(back);
    assert multiset(front + back) == multiset(front) + multiset(back);
  }

  /** What `_c_fetch_seq_name_and_length_given_ssi_number` returns: the
      primary name of ordinal `nkey`, one space, and its length in decimal. */
  function NameAndLength(ssi: Option<SsiIndex>, nkey: int): Result<string, Error> {
    match ssi
    case None => Failure(NoIndex)
    case Some(idx) =>
      match FindNumber(idx, nkey)
      case None => Failure(OrdinalNotFound(nkey))
      case Some(p) => Success(p.name + " " + NatToDecimal(p.len))
  }

  /** The binding: counts the digits of the length, renders it into a buffer
      of that size, and appends a space and the rendering to the name. */
  method SeqNameAndLengthGivenSsiNumber(ssi: Option<SsiIndex>, nkey: int) returns (r: Result<string, Error>)
    ensures r == NameAndLength(ssi, nkey)
    ensures r.Failure? <==> ssi.None? || !(0 <= nkey < |ssi.value.primaries|)
  {
    if ssi.None? {
      return Failure(NoIndex);
    }
    var found := FindNumber(ssi.value, nkey);
    if found.None? {
      return Failure(OrdinalNotFound(nkey));
    }
    var p := found.value;
    var keyAndL := p.name;
    var lwidth := DecimalWidth(p.len);
    var lstr := Snprintf(NatToDecimal(p.len), lwidth + 1);
    keyAndL := keyAndL + " ";
    keyAndL := keyAndL + lstr;
    r := Success(keyAndL);
  }

  /** How a caller reads the answer back: the name before the first space,
      the length after it. */
  function SplitNameAndLength(s: string): Option<(string, nat)> {
    match FirstIndexOf(s, ' ')
    case None => None
    case Some(i) =>
      if IsDigits(s[i + 1..]) then Some((s[..i], ParseDecimal(s[i + 1..])))
      else None
  }

  /** Since a primary name holds no space, the answer splits back into the
      name and the length of that ordinal. */
  lemma NameAndLengthRoundTrip(idx: SsiIndex, nkey: int)
    requires 0 <= nkey < |idx.primaries|
    requires ' ' !in idx.primaries[nkey].name
    ensures NameAndLength(Some(idx), nkey).Success?
    ensures SplitNameAndLength(NameAndLength(Some(idx), nkey).value)
      == Some((idx.primaries[nkey].name, idx.primaries[nkey].len))
  {
    var p := idx.primaries[nkey];
    var digits := NatToDecimal(p.len);
    var s := p.name + " " + digits;
    assert s == p.name + [' '] + digits;
    FirstSeparator(p.name, digits, ' ');
    DecimalRoundTrip(p.len);
  }

  // ---- Writing the index.

  /** `strcmp` order on names: character by character, a proper prefix first. */
  predicate NameBefore(a: string, b: string)
    decreases |a|
  {
    if |a| == 0 then |b| > 0
    else |b| > 0 && (a[0] < b[0] || (a[0] == b[0] && NameBefore(a[1..], b[1..])))
  }

  lemma {:induction false} NameBeforeIrreflexive(a: string)
    ensures !NameBefore(a, a)
    decreases |a|
  {
    if |a| > 0 {
      NameBeforeIrreflexive(a[1..]);
    }
  }

  lemma {:induction false} NameBeforeTransitive(a: string, b: string, c: string)
    requires NameBefore(a, b) && NameBefore(b, c)
    ensures NameBefore(a, c)
    decreases |a|
  {
    if |a| > 0 && a[0] == b[0] && b[0] == c[0] {
      NameBeforeTransitive(a[1..], b[1..], c[1..]);
    }
  }

  /** Two different names are ordered one way or the other. */
  lemma {:induction false} NameBeforeTotal(a: string, b: string)
    requires a != b
    ensures NameBefore(a, b) || NameBefore(b, a)
    decreases |a|
  {
    if |a| > 0 && |b| > 0 && a[0] == b[0] {
      assert a == [a[0]] + a[1..] && b == [b[0]] + b[1..];
      NameBeforeTotal(a[1..], b[1..]);
    }
  }

  /** Primary keys in strictly ascending name order. */
  predicate SortedByName(ps: seq<PrimaryKey>) {
    forall i, j :: 0 <= i < j < |ps| ==> NameBefore(ps[i].name, ps[j].name)
  }

  /** Names in strictly ascending order are distinct. */
  lemma SortedUnique(ps: seq<PrimaryKey>)
    requires SortedByName(ps)
    ensures UniqueNames(ps)
  {
    forall i, j | 0 <= i < j < |ps| ensures ps[i].name != ps[j].name {
      NameBeforeIrreflexive(ps[i].name);
    }
  }

  /** `p` placed before the first key that does not come before it. */
  function InsertByName(p: PrimaryKey, ps: seq<PrimaryKey>): (r: seq<PrimaryKey>)
    ensures multiset(r) == multiset(ps) + multiset{p}
  {
    if |ps| == 0 then [p]
    else if NameBefore(ps[0].name, p.name) then
      assert ps == [ps[0]] + ps[1..];
      [ps[0]] + InsertByName(p, ps[1..])
    else [p] + ps
  }

  /** The keys in name order, as the index writer stores them. */
  function SortByName(ps: seq<PrimaryKey>): (r: seq<PrimaryKey>)
    ensures multiset(r) == multiset(ps)
  {
    if |ps| == 0 then []
    else
      assert ps == [ps[0]] + ps[1..];
      InsertByName(ps[0], SortByName(ps[1..]))
  }

  lemma {:induction false} InsertSorted(p: PrimaryKey, ps: seq<PrimaryKey>)
    requires SortedByName(ps) && !HasName(ps, p.name)
    ensures SortedByName(InsertByName(p, ps))
    decreases |ps|
  {
    if |ps| > 0 {
      var r := InsertByName(p, ps);
      if NameBefore(ps[0].name, p.name) {
        var rest := InsertByName(p, ps[1..]);
        InsertSorted(p, ps[1..]);
        forall j | 0 <= j < |rest| ensures NameBefore(ps[0].name, rest[j].name) {
          assert rest[j] in multiset(ps[1..]) + multiset{p};
          if rest[j] != p {
            var m :| 0 <= m < |ps[1..]| && ps[1..][m] == rest[j];
            assert ps[m + 1] == rest[j];
          }
        }
        assert r == [ps[0]] + rest;
      } else {
        assert ps[0].name != p.name;
        NameBeforeTotal(ps[0].name, p.name);
        forall j | 1 <= j < |ps| ensures NameBefore(p.name, ps[j].name) {
          NameBeforeTransitive(p.name, ps[0].name, ps[j].name);
        }
      }
    }
  }

  lemma {:induction false} SortSorted(ps: seq<PrimaryKey>)
    requires UniqueNames(ps)
    ensures SortedByName(SortByName(ps))
    decreases |ps|
  {
    if |ps| > 0 {
      var rest := SortByName(ps[1..]);
      SortSorted(ps[1..]);
      forall j | 0 <= j < |rest| ensures rest[j].name != ps[0].name {
        assert rest[j] in multiset(ps[1..]);
        var m :| 0 <= m < |ps[1..]| && ps[1..][m] == rest[j];
        assert ps[m + 1] == rest[j];
      }
      InsertSorted(ps[0], rest);
    }
  }

  /** The first key of a sorted list comes before every other key in it. */
  lemma SortedHead(a: seq<PrimaryKey>, x: PrimaryKey)
    requires SortedByName(a) && x in multiset(a)
    ensures x == a[0] || NameBefore(a[0].name, x.name)
  {
    var i :| 0 <= i < |a| && a[i] == x;
  }

  /** Name order leaves one way to arrange a set of keys with distinct
      names, so the written order is fixed by the keys alone. */
  lemma {:induction false} SortedPermutationUnique(a: seq<PrimaryKey>, b: seq<PrimaryKey>)
    requires SortedByName(a) && SortedByName(b) && multiset(a) == multiset(b)
    ensures a == b
    decreases |a|
  {
    if |a| > 0 {
      assert |b| > 0 by {
        assert a[0] in multiset(b);
      }
      SortedHead(b, a[0]);
      SortedHead(a, b[0]);
      if a[0] != b[0] {
        NameBeforeTransitive(a[0].name, b[0].name, a[0].name);
        NameBeforeIrreflexive(a[0].name);
      }
      assert a == [a[0]] + a[1..] && b == [b[0]] + b[1..];
      assert multiset(a) == multiset{a[0]} + multiset(a[1..]);
      assert multiset(b) == multiset{b[0]} + multiset(b[1..]);
      assert a[0] == b[0];
      assert multiset(a[1..]) == multiset(a) - multiset{a[0]};
      assert multiset(b[1..]) == multiset(b) - multiset{b[0]};
      SortedPermutationUnique(a[1..], b[1..]);
    }
  }

  /** A name is among the keys exactly when it is among any reordering of them. */
  lemma HasNamePermutation(a: seq<PrimaryKey>, b: seq<PrimaryKey>, name: string)
    requires multiset(a) == multiset(b)
    ensures HasName(a, name) <==> HasName(b, name)
  {
    if HasName(a, name) {
      var i :| 0 <= i < |a| && a[i].name == name;
      assert a[i] in multiset(b);
    }
    if HasName(b, name) {
      var i :| 0 <= i < |b| && b[i].name == name;
      assert b[i] in multiset(a);
    }
  }

  /** The secondary keys as a map; a later entry wins over an earlier one
      with the same key. */
  function AliasMap(aliases: seq<Alias>): (m: map<string, string>)
    ensures forall k :: k in m <==> exists i :: 0 <= i < |aliases| && aliases[i].key == k
  {
    if |aliases| == 0 then map[]
    else
      var last := aliases[|aliases| - 1];
      var front := AliasMap(aliases[..|aliases| - 1]);
      assert forall i :: 0 <= i < |aliases| - 1 ==> aliases[..|aliases| - 1][i] == aliases[i];
      front[last.key := last.primary]
  }

  /** With unique keys every secondary key maps to its own primary name. */
  lemma {:induction false} AliasMapLookup(aliases: seq<Alias>)
    requires UniqueAliasKeys(aliases)
    ensures forall i :: 0 <= i < |aliases| ==> AliasMap(aliases)[aliases[i].key] == aliases[i].primary
    decreases |aliases|
  {
    if |aliases| > 0 {
      var front := aliases[..|aliases| - 1];
      AliasMapLookup(front);
      forall i | 0 <= i < |aliases| ensures AliasMap(aliases)[aliases[i].key] == aliases[i].primary {
        if i < |aliases| - 1 {
          assert front[i] == aliases[i];
        }
      }
    }
  }

  /** `esl_newssi_Write`: the keys gathered so far become a readable index,
      its primary keys sorted by name, unless a primary name or a secondary
      key occurs twice, which the index library refuses. */
  function Persist(ps: seq<PrimaryKey>, aliases: seq<Alias>, layout: Option<Layout>): (r: Result<SsiIndex, Error>)
    ensures r.Success? <==> UniqueNames(ps) && UniqueAliasKeys(aliases)
    ensures r.Failure? ==> r.error == WriteFailed
    ensures r.Success? ==> multiset(r.value.primaries) == multiset(ps) && SortedByName(r.value.primaries)
    ensures r.Success? ==> r.value.layout == layout
    ensures r.Success? ==> forall i :: 0 <= i < |aliases| ==>
      aliases[i].key in r.value.aliases && r.value.aliases[aliases[i].key] == aliases[i].primary
    ensures r.Success? ==> forall k :: k in r.value.aliases ==> exists i :: 0 <= i < |aliases| && aliases[i].key == k
  {
    if UniqueNames(ps) && UniqueAliasKeys(aliases) then
      AliasMapLookup(aliases);
      SortSorted(ps);
      Success(SsiIndex(SortByName(ps), AliasMap(aliases), layout))
    else
      Failure(WriteFailed)
  }

  /** A written index is valid when every secondary key names one of its
      primary keys. */
  lemma PersistValid(ps: seq<PrimaryKey>, aliases: seq<Alias>, layout: Option<Layout>)
    requires Persist(ps, aliases, layout).Success?
    requires forall i :: 0 <= i < |aliases| ==> HasName(ps, aliases[i].primary)
    ensures Valid(Persist(ps, aliases, layout).value)
  {
    var idx := Persist(ps, aliases, layout).value;
    SortedUnique(idx.primaries);
    forall a | a in idx.aliases ensures HasName(idx.primaries, idx.aliases[a]) {
      var i :| 0 <= i < |aliases| && aliases[i].key == a;
      HasNamePermutation(ps, idx.primaries, idx.aliases[a]);
    }
  }
}
