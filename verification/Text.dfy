/** Splitting and joining strings on a separator character, shared by the topic tokenizers
    and by the dotted-quad address parser. */
module Text {

  /** The first position of `c` at or after `from`, or the length of `s` when there is none. */
  function IndexFrom(s: string, c: char, from: nat): (k: nat)
    requires from <= |s|
    ensures from <= k <= |s|
    ensures c !in s[from..k]
    ensures k < |s| ==> s[k] == c
    decreases |s| - from
  {
    if from == |s| || s[from] == c then from else
      var k := IndexFrom(s, c, from + 1);
      assert s[from..k] == [s[from]] + s[from + 1..k];
      k
  }

  /** The pieces of `s` between separators; an empty string is one empty piece. */
  function Split(s: string, sep: char): (parts: seq<string>)
    ensures |parts| >= 1
  {
    var k := IndexFrom(s, sep, 0);
    if k == |s| then [s] else [s[..k]] + Split(s[k + 1..], sep)
  }

  function Join(parts: seq<string>, sep: char): string
    requires |parts| >= 1
  {
    if |parts| == 1 then parts[0] else parts[0] + [sep] + Join(parts[1..], sep)
  }

  ghost predicate Free(parts: seq<string>, sep: char) {
    forall i :: 0 <= i < |parts| ==> sep !in parts[i]
  }

  /** A scan that stops at the first separator finds the first piece. */
  lemma SplitAt(s: string, sep: char, k: nat)
    requires k <= |s| && sep !in s[..k] && (k < |s| ==> s[k] == sep)
    ensures Split(s, sep) == if k == |s| then [s] else [s[..k]] + Split(s[k + 1..], sep)
  {
    var j := IndexFrom(s, sep, 0);
    assert forall m :: 0 <= m < k ==> s[..k][m] != sep;
    assert forall m :: 0 <= m < j ==> s[0..j][m] != sep;
    assert j == k;
  }

  lemma {:induction false} JoinSplit(s: string, sep: char)
    ensures Join(Split(s, sep), sep) == s
    ensures Free(Split(s, sep), sep)
    decreases |s|
  {
    var k := IndexFrom(s, sep, 0);
    assert s[0..k] == s[..k];
    if k < |s| {
      var rest := Split(s[k + 1..], sep);
      JoinSplit(s[k + 1..], sep);
      assert Split(s, sep)[1..] == rest;
      assert s == s[..k] + [sep] + s[k + 1..];
    } else {
      assert s[..k] == s;
    }
  }

  lemma {:induction false} SplitJoin(parts: seq<string>, sep: char)
    requires |parts| >= 1 && Free(parts, sep)
    ensures Split(Join(parts, sep), sep) == parts
    decreases |parts|
  {
    var s := Join(parts, sep);
    var k := |parts[0]|;
    assert s[..k] == parts[0];
    SplitAt(s, sep, k);
    if |parts| > 1 {
      var rest := parts[1..];
      assert s[k + 1..] == Join(rest, sep);
      assert Free(rest, sep) by { assert forall i :: 0 <= i < |rest| ==> rest[i] == parts[i + 1]; }
      SplitJoin(rest, sep);
      assert parts == [parts[0]] + rest;
    } else {
      assert parts == [parts[0]];
    }
  }

  ghost predicate InPieces(c: char, parts: seq<string>) {
    exists i :: 0 <= i < |parts| && c in parts[i]
  }

  lemma InFirstOrRest(c: char, first: string, rest: seq<string>)
    ensures InPieces(c, [first] + rest) <==> c in first || InPieces(c, rest)
  {
    var parts := [first] + rest;
    assert parts[0] == first;
    if InPieces(c, rest) {
      var i :| 0 <= i < |rest| && c in rest[i];
      assert c in parts[i + 1];
    }
    if InPieces(c, parts) {
      var i :| 0 <= i < |parts| && c in parts[i];
      if i > 0 { assert c in rest[i - 1]; }
    }
  }

  lemma InCut(s: string, k: nat, c: char)
    requires k < |s| && c != s[k]
    ensures c in s <==> c in s[..k] || c in s[k + 1..]
  {
    if c in s {
      var j :| 0 <= j < |s| && s[j] == c;
      if j < k { assert s[..k][j] == c; } else { assert s[k + 1..][j - k - 1] == c; }
    }
  }

  /** A character other than the separator is in the whole exactly when it is in a piece. */
  lemma {:induction false} CharsOfSplit(s: string, sep: char, c: char)
    requires c != sep
    ensures c in s <==> InPieces(c, Split(s, sep))
    decreases |s|
  {
    var k := IndexFrom(s, sep, 0);
    if k == |s| {
      InFirstOrRest(c, s, []);
      assert [s] + [] == [s];
    } else {
      CharsOfSplit(s[k + 1..], sep, c);
      InCut(s, k, c);
      InFirstOrRest(c, s[..k], Split(s[k + 1..], sep));
    }
  }

  /** `pos` is the first position of `c` at or after `from`, or the length when there is none. */
  predicate FirstAt(s: string, c: char, from: nat, pos: nat) {
    && from <= pos <= |s| && (pos < |s| ==> s[pos] == c)
    && forall i :: from <= i < pos ==> s[i] != c
  }

  /** `std::string::find_first_of` for one character, with "not found" read as the length. */
  method FindFirstOf(s: string, c: char, from: nat) returns (pos: nat)
    requires from <= |s|
    ensures FirstAt(s, c, from, pos)
  {
    pos := from;
    while pos < |s| && s[pos] != c
      invariant from <= pos <= |s|
      invariant forall i :: from <= i < pos ==> s[i] != c
    {
      pos := pos + 1;
    }
  }

  /** The last position of `c`, or the length of `s` when there is none. */
  function LastIndexOf(s: string, c: char): (k: nat)
    ensures k <= |s|
    ensures k < |s| ==> s[k] == c && c !in s[k + 1..]
    ensures k == |s| ==> c !in s
  {
    if s == "" then 0 else
      var n := |s| - 1;
      assert s == s[..n] + [s[n]];
      if s[n] == c then n else
        var k := LastIndexOf(s[..n], c);
        assert k < n ==> s[k + 1..] == s[..n][k + 1..] + [s[n]];
        if k == n then n + 1 else k
  }

  lemma LastIndexUnique(s: string, c: char, k: nat)
    requires k < |s| && s[k] == c && c !in s[k + 1..]
    ensures LastIndexOf(s, c) == k
  {
    var j := LastIndexOf(s, c);
    assert s[k] in s;
    assert forall m :: k < m < |s| ==> s[k + 1..][m - k - 1] == s[m] != c;
    assert forall m :: j < m < |s| ==> s[j + 1..][m - j - 1] == s[m] != c;
  }

  /** `std::string::find_last_of` for one character, with "not found" read as the length. */
  method FindLastOf(s: string, c: char) returns (pos: nat)
    ensures pos == LastIndexOf(s, c)
  {
    var i := |s|;
    while i > 0
      invariant 0 <= i <= |s|
      invariant forall m :: i <= m < |s| ==> s[m] != c
    {
      i := i - 1;
      if s[i] == c {
        LastIndexUnique(s, c, i);
        return i;
      }
    }
    pos := |s|;
  }
}
