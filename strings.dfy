/**
 * The JavaScript string operations the bot relies on: `split` on one
 * separator character, `join`, `startsWith` and lower-casing. `IndexOf`
 * is the search for the separator inside `split`.
 */
module Strings {

  /** `s.startsWith(p)`. */
  predicate StartsWith(s: string, p: string)
  {
    |p| <= |s| && s[..|p|] == p
  }

  /** Position of the first occurrence of `d` in `s`: where `split` makes its first cut. */
  function IndexOf(s: string, d: char): (i: nat)
    requires d in s
    ensures i < |s| && s[i] == d
    ensures forall k | 0 <= k < i :: s[k] != d
  {
    if s[0] == d then 0
    else
      assert s == [s[0]] + s[1..];
      1 + IndexOf(s[1..], d)
  }

  /** The first occurrence is unique: any position with no earlier `d` is it. */
  lemma IndexOfIsFirst(s: string, d: char, i: nat)
    requires i < |s| && s[i] == d
    requires forall k | 0 <= k < i :: s[k] != d
    ensures IndexOf(s, d) == i
  {
  }

  /**
   * `s.split(d)` for a one-character separator: the pieces between the
   * occurrences of `d`, in order, empty pieces included.
   */
  function Split(s: string, d: char): (parts: seq<string>)
    ensures 1 <= |parts|
    decreases |s|
  {
    if d !in s then [s]
    else [s[..IndexOf(s, d)]] + Split(s[IndexOf(s, d) + 1..], d)
  }

  /** There is more than one piece exactly when the separator occurs, and no piece contains it. */
  lemma {:induction false} SplitPieces(s: string, d: char)
    ensures |Split(s, d)| == 1 <==> d !in s
    ensures forall k | 0 <= k < |Split(s, d)| :: d !in Split(s, d)[k]
    decreases |s|
  {
    if d in s {
      var i := IndexOf(s, d);
      SplitTail(s, d);
      SplitPieces(s[i + 1..], d);
      assert d !in s[..i];
    }
  }

  /** `parts.join(d)`; the empty array joins to the empty string. */
  function Join(parts: seq<string>, d: char): string
  {
    if |parts| == 0 then ""
    else if |parts| == 1 then parts[0]
    else parts[0] + [d] + Join(parts[1..], d)
  }

  /** Joining the pieces of a split with the same separator gives the string back. */
  lemma {:induction false} JoinSplit(s: string, d: char)
    ensures Join(Split(s, d), d) == s
    decreases |s|
  {
    if d in s {
      var i := IndexOf(s, d);
      var parts, rest := Split(s, d), Split(s[i + 1..], d);
      SplitUnfold(s, d);
      assert |parts| >= 2 && parts[0] == s[..i] && parts[1..] == rest;
      calc {
        Join(parts, d);
        parts[0] + [d] + Join(parts[1..], d);
        { JoinSplit(s[i + 1..], d); }
        s[..i] + [d] + s[i + 1..];
        { assert s == s[..i] + [d] + s[i + 1..]; }
        s;
      }
    }
  }

  /** When `d` occurs in `s`, joining the pieces after the first gives everything after the first `d`. */
  lemma SplitAtFirst(s: string, d: char)
    requires d in s
    ensures Join(Split(s, d)[1..], d) == s[IndexOf(s, d) + 1..]
  {
    SplitTail(s, d);
    JoinSplit(s[IndexOf(s, d) + 1..], d);
    JoinEqual(Split(s, d)[1..], Split(s[IndexOf(s, d) + 1..], d), d, s[IndexOf(s, d) + 1..]);
  }

  lemma JoinEqual(p: seq<string>, q: seq<string>, d: char, t: string)
    requires p == q && Join(q, d) == t
    ensures Join(p, d) == t
  {
  }

  /** After the first piece, the split goes on with the split of what follows the first `d`. */
  lemma SplitTail(s: string, d: char)
    requires d in s
    ensures |Split(s, d)| >= 2
    ensures Split(s, d)[0] == s[..IndexOf(s, d)]
    ensures Split(s, d)[1..] == Split(s[IndexOf(s, d) + 1..], d)
  {
    var i := IndexOf(s, d);
    SplitUnfold(s, d);
    DropFirst(s[..i], Split(s[i + 1..], d));
  }

  lemma DropFirst(x: string, rest: seq<string>)
    ensures ([x] + rest)[0] == x && ([x] + rest)[1..] == rest
  {
  }

  lemma SplitUnfold(s: string, d: char)
    requires d in s
    ensures Split(s, d) == [s[..IndexOf(s, d)]] + Split(s[IndexOf(s, d) + 1..], d)
  {
  }

  /** Splitting `x + d + y` where `x` has no `d` peels `x` off as the first piece. */
  lemma SplitPrefixed(x: string, d: char, y: string)
    requires d !in x
    ensures Split(x + [d] + y, d) == [x] + Split(y, d)
  {
    var s := x + [d] + y;
    assert s[|x|] == d;
    assert forall k | 0 <= k < |x| :: s[k] == x[k];
    IndexOfIsFirst(s, d, |x|);
    assert s[..|x|] == x;
    assert s[|x| + 1..] == y;
  }

  /** Regrouping a concatenation of three strings. */
  lemma Concat3(a: string, b: string, c: string)
    ensures a + (b + c) == a + b + c
  {
  }

  /** ASCII case folding of one character. */
  function AsciiLower(c: char): char
  {
    if 'A' <= c <= 'Z' then (c as int + 32) as char else c
  }

  /** `s.toLowerCase()`, restricted to the ASCII letters. */
  function Lower(s: string): (r: string)
    ensures |r| == |s|
    ensures forall k | 0 <= k < |s| :: r[k] == AsciiLower(s[k])
  {
    seq(|s|, k requires 0 <= k < |s| => AsciiLower(s[k]))
  }
}
