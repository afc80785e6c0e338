/**
 * Splitting and joining strings on a one-character separator, with the
 * behaviour of Go's `strings.Split(s, sep)` for a separator of length one:
 * `n` separators give `n + 1` pieces, and the empty string gives `[""]`.
 */
module Strings {

  /** The pieces of `s` between occurrences of `sep`, left to right. */
  function Split(s: string, sep: char): (parts: seq<string>)
    ensures |parts| >= 1
    ensures forall k :: 0 <= k < |parts| ==> sep !in parts[k]
    decreases |s|
  {
    if |s| == 0 then [""]
    else
      var rest := Split(s[1..], sep);
      if s[0] == sep then [""] + rest
      else [[s[0]] + rest[0]] + rest[1..]
  }

  /** The pieces glued back together with `sep` between neighbours. */
  function Join(parts: seq<string>, sep: char): string
    requires |parts| >= 1
    decreases |parts|
  {
    if |parts| == 1 then parts[0] else parts[0] + [sep] + Join(parts[1..], sep)
  }

  /** A string without the separator is a single piece. */
  lemma {:induction false} SplitWithoutSeparator(s: string, sep: char)
    requires sep !in s
    ensures Split(s, sep) == [s]
    decreases |s|
  {
    if |s| > 0 {
      assert sep !in s[1..];
      SplitWithoutSeparator(s[1..], sep);
      assert [s[0]] + s[1..] == s;
    }
  }

  /** Splitting a separator-free head, a separator and a tail yields the head first. */
  lemma {:induction false} SplitAtSeparator(head: string, tail: string, sep: char)
    requires sep !in head
    ensures Split(head + [sep] + tail, sep) == [head] + Split(tail, sep)
    decreases |head|
  {
    var s := head + [sep] + tail;
    if |head| == 0 {
      assert s == [sep] + tail;
      assert s[1..] == tail;
    } else {
      assert s[0] == head[0];
      assert s[1..] == head[1..] + [sep] + tail;
      assert sep !in head[1..];
      SplitAtSeparator(head[1..], tail, sep);
      assert [head[0]] + head[1..] == head;
    }
  }

  /** Round trip: splitting a join of separator-free pieces gives the pieces back. */
  lemma {:induction false} SplitJoin(parts: seq<string>, sep: char)
    requires |parts| >= 1
    requires forall k :: 0 <= k < |parts| ==> sep !in parts[k]
    ensures Split(Join(parts, sep), sep) == parts
    decreases |parts|
  {
    if |parts| == 1 {
      SplitWithoutSeparator(parts[0], sep);
    } else {
      SplitJoin(parts[1..], sep);
      SplitAtSeparator(parts[0], Join(parts[1..], sep), sep);
      assert [parts[0]] + parts[1..] == parts;
    }
  }

  /** Prefixing the first piece prefixes the join. */
  lemma JoinExtendFirst(c: string, parts: seq<string>, sep: char)
    requires |parts| >= 1
    ensures Join([c + parts[0]] + parts[1..], sep) == c + Join(parts, sep)
  {
  }

  /** Round trip the other way: joining the pieces of a split restores the string. */
  lemma {:induction false} JoinSplit(s: string, sep: char)
    ensures Join(Split(s, sep), sep) == s
    decreases |s|
  {
    if |s| > 0 {
      var rest := Split(s[1..], sep);
      JoinSplit(s[1..], sep);
      if s[0] == sep {
        assert ([""] + rest)[1..] == rest;
      } else {
        JoinExtendFirst([s[0]], rest, sep);
      }
      assert [s[0]] + s[1..] == s;
    }
  }
}
