/** Character search in strings, used to read rendered names back. */
module Strings {
  import opened Wrappers

  /** The position of the first `c` in `s`. */
  function FirstIndexOf(s: string, c: char): (r: Option<nat>)
    ensures r.Some? ==> r.value < |s| && s[r.value] == c && c !in s[..r.value]
    ensures r.None? ==> c !in s
    decreases |s|
  {
    if |s| == 0 then None
    else if s[0] == c then Some(0)
    else match FirstIndexOf(s[1..], c)
      case None => None
      case Some(i) =>
        assert s[..i + 1] == [s[0]] + s[1..][..i];
        Some(i + 1)
  }

  /** The position of the last `c` in `s`. */
  function LastIndexOf(s: string, c: char): (r: Option<nat>)
    ensures r.Some? ==> r.value < |s| && s[r.value] == c && c !in s[r.value + 1..]
    ensures r.None? ==> c !in s
    decreases |s|
  {
    if |s| == 0 then None
    else if s[|s| - 1] == c then Some(|s| - 1)
    else match LastIndexOf(s[..|s| - 1], c)
      case None =>
        assert s == s[..|s| - 1] + [s[|s| - 1]];
        None
      case Some(i) =>
        assert s[i + 1..] == s[..|s| - 1][i + 1..] + [s[|s| - 1]];
        Some(i)
  }

  /** The last `c` in a string is the one after which no `c` follows. */
  lemma LastSeparator(front: string, back: string, c: char)
    requires c !in back
    ensures LastIndexOf(front + [c] + back, c) == Some(|front|)
    ensures (front + [c] + back)[..|front|] == front
    ensures (front + [c] + back)[|front| + 1..] == back
  {
    var s := front + [c] + back;
    assert s[|front|] == c && s[|front| + 1..] == back;
    var r := LastIndexOf(s, c);
    assert r.Some? && r.value == |front| by {
      assert c in s;
    }
  }

  /** The first `c` in a string is the one before which no `c` occurs. */
  lemma FirstSeparator(front: string, back: string, c: char)
    requires c !in front
    ensures FirstIndexOf(front + [c] + back, c) == Some(|front|)
    ensures (front + [c] + back)[..|front|] == front
    ensures (front + [c] + back)[|front| + 1..] == back
  {
    var s := front + [c] + back;
    assert s[|front|] == c;
    assert s[..|front|] == front;
  }
}
