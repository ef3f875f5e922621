/** String helpers the code generators rely on: `Array.prototype.join`, a line splitter
    that reads joined text back, `String.prototype.startsWith`, decimal rendering of an
    index as done by a template literal, and the `slash` path normaliser. */
module Strings {

  predicate StartsWith(s: string, prefix: string) {
    |prefix| <= |s| && s[..|prefix|] == prefix
  }

  predicate EndsWith(s: string, suffix: string) {
    |suffix| <= |s| && s[|s| - |suffix|..] == suffix
  }

  /** `a + b` starts with `a`, and dropping `a` leaves `b`. */
  lemma ConcatSplits(a: string, b: string)
    ensures StartsWith(a + b, a)
    ensures (a + b)[|a|..] == b
  {
  }

  /** `parts.join(sep)`: the empty array joins to the empty string. */
  function Join(parts: seq<string>, sep: string): string {
    if |parts| == 0 then ""
    else if |parts| == 1 then parts[0]
    else parts[0] + sep + Join(parts[1..], sep)
  }

  /** Cuts `s` at every occurrence of `c`; there is always at least one piece. */
  function Split(s: string, c: char): (r: seq<string>)
    ensures |r| >= 1
    ensures forall i :: 0 <= i < |r| ==> c !in r[i]
    decreases |s|
  {
    if |s| == 0 then [""]
    else if s[0] == c then [""] + Split(s[1..], c)
    else
      var rest := Split(s[1..], c);
      [[s[0]] + rest[0]] + rest[1..]
  }

  /** A piece free of the separator, followed by more text, splits off as one piece. */
  lemma {:induction false} SplitPiece(w: string, c: char, tail: string)
    requires c !in w
    ensures Split(w + [c] + tail, c) == [w] + Split(tail, c)
    decreases |w|
  {
    if |w| == 0 {
      assert w + [c] + tail == [c] + tail;
      assert ([c] + tail)[1..] == tail;
    } else {
      var s := w + [c] + tail;
      assert s[0] == w[0] && s[1..] == w[1..] + [c] + tail;
      SplitPiece(w[1..], c, tail);
      assert [w[0]] + w[1..] == w;
    }
  }

  /** Text free of the separator splits into itself alone. */
  lemma {:induction false} SplitWhole(w: string, c: char)
    requires c !in w
    ensures Split(w, c) == [w]
    decreases |w|
  {
    if |w| > 0 {
      SplitWhole(w[1..], c);
      assert [w[0]] + w[1..] == w;
    }
  }

  /** Splitting undoes joining when no part contains the separator. */
  lemma {:induction false} SplitJoin(parts: seq<string>, c: char)
    requires |parts| >= 1
    requires forall i :: 0 <= i < |parts| ==> c !in parts[i]
    ensures Split(Join(parts, [c]), c) == parts
    decreases |parts|
  {
    if |parts| == 1 {
      SplitWhole(parts[0], c);
    } else {
      SplitJoin(parts[1..], c);
      SplitPiece(parts[0], c, Join(parts[1..], [c]));
      assert parts[0] + [c] + Join(parts[1..], [c]) == Join(parts, [c]);
      assert [parts[0]] + parts[1..] == parts;
    }
  }

  /** `Join` with the separator placed between every two parts, never at the ends. */
  lemma {:induction false} JoinEnds(parts: seq<string>, sep: string)
    requires |parts| >= 1
    ensures StartsWith(Join(parts, sep), parts[0])
    ensures |Join(parts, sep)| >= |parts[|parts| - 1]|
    ensures Join(parts, sep)[|Join(parts, sep)| - |parts[|parts| - 1]|..] == parts[|parts| - 1]
    decreases |parts|
  {
    if |parts| > 1 {
      JoinEnds(parts[1..], sep);
      var t := Join(parts[1..], sep);
      var j := parts[0] + sep + t;
      assert j[..|parts[0]|] == parts[0];
      assert j[|j| - |t|..] == t;
    }
  }

  // ---- decimal rendering of a non-negative integer, as `${n}` does ----

  predicate IsDigit(ch: char) {
    '0' <= ch <= '9'
  }

  function DigitChar(d: nat): (ch: char)
    requires d < 10
    ensures IsDigit(ch)
  {
    ('0' as int + d) as char
  }

  function DigitValue(ch: char): (d: nat)
    requires IsDigit(ch)
    ensures d < 10 && DigitChar(d) == ch
  {
    ch as int - '0' as int
  }

  /** The decimal digits of `n`, most significant first, without leading zeros. */
  function NatToString(n: nat): (r: string)
    ensures 1 <= |r|
    ensures forall i :: 0 <= i < |r| ==> IsDigit(r[i])
    ensures |r| > 1 ==> r[0] != '0'
    decreases n
  {
    if n < 10 then [DigitChar(n)]
    else NatToString(n / 10) + [DigitChar(n % 10)]
  }

  /** Reads a string of decimal digits back as a number. */
  function ParseDecimal(s: string): nat
    requires forall i :: 0 <= i < |s| ==> IsDigit(s[i])
    decreases |s|
  {
    if |s| == 0 then 0
    else ParseDecimal(s[..|s| - 1]) * 10 + DigitValue(s[|s| - 1])
  }

  lemma {:induction false} ParseNatToString(n: nat)
    ensures ParseDecimal(NatToString(n)) == n
    decreases n
  {
    var r := NatToString(n);
    if n >= 10 {
      ParseNatToString(n / 10);
      assert r[..|r| - 1] == NatToString(n / 10);
      assert DigitValue(r[|r| - 1]) == n % 10;
    } else {
      assert r[..0] == [];
      assert DigitValue(r[0]) == n;
    }
  }

  /** Different numbers render differently, so `m0`, `m1`, ... never clash. */
  lemma NatToStringInjective(a: nat, b: nat)
    ensures NatToString(a) == NatToString(b) <==> a == b
  {
    if NatToString(a) == NatToString(b) {
      ParseNatToString(a);
      ParseNatToString(b);
    }
  }

  /** `prefix + NatToString(i)` names are pairwise distinct. */
  lemma NumberedNamesDistinct(prefix: string, a: nat, b: nat)
    ensures prefix + NatToString(a) == prefix + NatToString(b) <==> a == b
  {
    if prefix + NatToString(a) == prefix + NatToString(b) {
      assert (prefix + NatToString(a))[|prefix|..] == NatToString(a);
      assert (prefix + NatToString(b))[|prefix|..] == NatToString(b);
    }
    NatToStringInjective(a, b);
  }

  // ---- the `slash` path normaliser ----

  /** `slash(path)`: every backslash becomes a forward slash; nothing else changes. */
  function Slash(path: string): (r: string)
    ensures |r| == |path|
    ensures forall i :: 0 <= i < |r| ==> r[i] == (if path[i] == '\\' then '/' else path[i])
    ensures '\\' !in r
    decreases |path|
  {
    if |path| == 0 then ""
    else [if path[0] == '\\' then '/' else path[0]] + Slash(path[1..])
  }

  lemma SlashIdempotent(path: string)
    ensures Slash(Slash(path)) == Slash(path)
  {
  }

  /** A path already in forward-slash form is left as it is. */
  lemma SlashFixesForwardPaths(path: string)
    ensures Slash(path) == path <==> '\\' !in path
  {
    if '\\' in path {
      var i :| 0 <= i < |path| && path[i] == '\\';
      assert Slash(path)[i] != path[i];
    }
  }
}
