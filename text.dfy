/**
 * String helpers with JavaScript's meaning: `s.split(c)` for a
 * one-character separator and `parts.join(c)`.
 */
module Text {

  /** Position of the first occurrence of `c` in `s`. */
  function IndexOf(s: string, c: char): (i: nat)
    requires c in s
    ensures i < |s| && s[i] == c
    ensures c !in s[..i]
  {
    if s[0] == c then 0
    else
      var j := IndexOf(s[1..], c);
      assert s[..j + 1] == [s[0]] + s[1..][..j];
      j + 1
  }

  /** `s.split(c)`: the pieces between occurrences of `c`, at least one. */
  function Split(s: string, c: char): (parts: seq<string>)
    ensures |parts| >= 1
    ensures forall k :: 0 <= k < |parts| ==> c !in parts[k]
    ensures c !in s ==> parts == [s]
    ensures c in s ==> |parts| >= 2 && parts[0] == s[..IndexOf(s, c)]
    decreases |s|
  {
    if c !in s then [s]
    else
      var i := IndexOf(s, c);
      [s[..i]] + Split(s[i + 1..], c)
  }

  /** `parts.join(c)`: the pieces in order, one `c` between each two. */
  function Join(parts: seq<string>, c: char): (r: string)
    ensures parts == [] ==> r == ""
    ensures |parts| >= 1 ==> parts[0] <= r
    decreases |parts|
  {
    if parts == [] then ""
    else if |parts| == 1 then parts[0]
    else parts[0] + [c] + Join(parts[1..], c)
  }

  /** Joining separator-free pieces puts exactly one `c` fewer into the text than there are pieces. */
  lemma {:induction false} JoinSeparatorCount(parts: seq<string>, c: char)
    requires |parts| >= 1 && forall k :: 0 <= k < |parts| ==> c !in parts[k]
    ensures multiset(Join(parts, c))[c] == |parts| - 1
    decreases |parts|
  {
    if |parts| > 1 {
      var rest := parts[1..];
      JoinSeparatorCount(rest, c);
      assert [parts[0]] + rest == parts;
      JoinCons(parts[0], rest, c);
      assert multiset(parts[0] + [c] + Join(rest, c)) == multiset(parts[0]) + multiset{c} + multiset(Join(rest, c));
    }
  }

  /** The piece after the first separator is the head of splitting the rest. */
  lemma SplitTail(s: string, c: char)
    requires c in s
    ensures Split(s, c)[1..] == Split(s[IndexOf(s, c) + 1..], c)
  {
  }

  /** The first occurrence of `c` in `a + [c] + b`, when `a` has none, ends `a`. */
  lemma IndexAfterPiece(a: string, c: char, b: string)
    requires c !in a
    ensures c in a + [c] + b
    ensures IndexOf(a + [c] + b, c) == |a|
    ensures (a + [c] + b)[..|a|] == a && (a + [c] + b)[|a| + 1..] == b
    ensures Split(a + [c] + b, c) == [a] + Split(b, c)
  {
    var s := a + [c] + b;
    assert s[|a|] == c;
    var i := IndexOf(s, c);
    assert forall k :: 0 <= k < |a| ==> s[k] == a[k];
    assert i == |a|;
    assert s[..i] == a && s[i + 1..] == b;
  }

  /** Joining a piece in front of at least one more piece puts a separator between. */
  lemma JoinCons(a: string, rest: seq<string>, c: char)
    requires |rest| >= 1
    ensures Join([a] + rest, c) == a + [c] + Join(rest, c)
  {
    assert ([a] + rest)[1..] == rest;
  }

  /** Joining the pieces of a split gives the string back. */
  lemma {:induction false} JoinSplit(s: string, c: char)
    ensures Join(Split(s, c), c) == s
    decreases |s|
  {
    if c in s {
      var i := IndexOf(s, c);
      var a, b := s[..i], s[i + 1..];
      var rest := Split(b, c);
      SplitAtFirst(s, c);
      JoinSplit(b, c);
      JoinCons(a, rest, c);
      Reassemble(s, i);
    }
  }

  /** Splitting at the first separator: the piece before it, then the pieces of the rest. */
  lemma SplitAtFirst(s: string, c: char)
    requires c in s
    ensures Split(s, c) == [s[..IndexOf(s, c)]] + Split(s[IndexOf(s, c) + 1..], c)
  {
  }

  /** Cutting `s` around position `i` and gluing the parts back gives `s`. */
  lemma Reassemble(s: string, i: nat)
    requires i < |s|
    ensures s[..i] + [s[i]] + s[i + 1..] == s
  {
  }

  /** Splitting a join of separator-free pieces gives the pieces back. */
  lemma {:induction false} SplitJoin(parts: seq<string>, c: char)
    requires |parts| >= 1
    requires forall k :: 0 <= k < |parts| ==> c !in parts[k]
    ensures Split(Join(parts, c), c) == parts
    decreases |parts|
  {
    if |parts| > 1 {
      var rest := parts[1..];
      var tail := Join(rest, c);
      assert [parts[0]] + rest == parts;
      calc {
        Split(Join(parts, c), c);
      == { JoinCons(parts[0], rest, c); }
        Split(parts[0] + [c] + tail, c);
      == { IndexAfterPiece(parts[0], c, tail); }
        [parts[0]] + Split(tail, c);
      == { SplitJoin(rest, c); }
        [parts[0]] + rest;
      }
    }
  }
}
