/**
 * The JavaScript string operations the text visualiser relies on, with the
 * semantics of the ECMAScript built-ins: `startsWith`, `indexOf` of a single
 * character, `substring` (which clamps its arguments and swaps them when
 * they are out of order), `split` on a one-character separator, `split`
 * with a limit, and array indexing that yields `undefined` past the end.
 */
module JsString {
  import opened Wrappers

  /** `s.startsWith(p)`. */
  function StartsWith(s: string, p: string): (b: bool)
    ensures b <==> |p| <= |s| && s[..|p|] == p
  {
    if p == [] then true
    else if s == [] then false
    else
      assert |p| <= |s| ==> s[..|p|] == [s[0]] + s[1..][..|p| - 1];
      assert p == [p[0]] + p[1..];
      s[0] == p[0] && StartsWith(s[1..], p[1..])
  }

  /** `s.indexOf(c)`: the first position of `c`, or -1 when there is none. */
  function IndexOf(s: string, c: char): (i: int)
    ensures -1 <= i < |s|
    ensures i == -1 <==> c !in s
    ensures 0 <= i ==> s[i] == c && c !in s[..i]
  {
    if s == [] then -1
    else if s[0] == c then 0
    else
      var j := IndexOf(s[1..], c);
      if j < 0 then -1
      else
        assert s[..j + 1] == [s[0]] + s[1..][..j];
        j + 1
  }

  /** A position holding `c` with no `c` before it is what `indexOf` finds. */
  lemma IndexOfIsFirst(s: string, c: char, k: nat)
    requires k < |s| && s[k] == c && c !in s[..k]
    ensures IndexOf(s, c) == k
  {
    assert s[k] in s;
  }

  /** Clamps a `substring` argument into `[0, n]`. */
  function Clamp(x: int, n: nat): nat
  {
    if x < 0 then 0 else if x > n then n else x
  }

  /** `s.substring(start, end)`. */
  function Substring(s: string, start: int, end: int): (r: string)
    ensures |r| <= |s|
    ensures 0 <= start <= end <= |s| ==> r == s[start..end]
    ensures start <= 0 && end <= 0 ==> r == []
  {
    var a, b := Clamp(start, |s|), Clamp(end, |s|);
    if a <= b then s[a..b] else s[b..a]
  }

  /** `s.substring(start)`: everything from `start`, or nothing past the end. */
  function SubstringFrom(s: string, start: int): (r: string)
    ensures 0 <= start <= |s| ==> r == s[start..]
    ensures |s| <= start ==> r == []
  {
    Substring(s, start, |s|)
  }

  /** `s.split(sep)` for a one-character separator. */
  function Split(s: string, sep: char): (parts: seq<string>)
    ensures |parts| >= 1
    ensures forall k :: 0 <= k < |parts| ==> sep !in parts[k]
    decreases |s|
  {
    var i := IndexOf(s, sep);
    if i < 0 then [s] else [s[..i]] + Split(s[i + 1..], sep)
  }

  /** `parts.join(sep)`: the inverse of `Split`. */
  function Join(parts: seq<string>, sep: char): string
    requires |parts| >= 1
  {
    if |parts| == 1 then parts[0] else parts[0] + [sep] + Join(parts[1..], sep)
  }

  /** One step of `Split` at the first separator. */
  lemma SplitStep(s: string, sep: char)
    requires sep in s
    ensures Split(s, sep) == [s[..IndexOf(s, sep)]] + Split(s[IndexOf(s, sep) + 1..], sep)
  {
  }

  /** One step of `Join`. */
  lemma JoinStep(p: string, rest: seq<string>, sep: char)
    requires |rest| >= 1
    ensures Join([p] + rest, sep) == p + [sep] + Join(rest, sep)
  {
    assert ([p] + rest)[1..] == rest;
  }

  /** Joining the pieces of a split gives back the string. */
  lemma {:induction false} JoinSplit(s: string, sep: char)
    ensures Join(Split(s, sep), sep) == s
    decreases |s|
  {
    if sep in s {
      var i := IndexOf(s, sep);
      var tail := Split(s[i + 1..], sep);
      calc {
        Join(Split(s, sep), sep);
        { SplitStep(s, sep); }
        Join([s[..i]] + tail, sep);
        { JoinStep(s[..i], tail, sep); }
        s[..i] + [sep] + Join(tail, sep);
        { JoinSplit(s[i + 1..], sep); }
        s[..i] + [sep] + s[i + 1..];
        { assert s[i] == sep; }
        s;
      }
    }
  }

  /** Splitting a join of separator-free pieces gives back the pieces. */
  lemma {:induction false} SplitJoin(parts: seq<string>, sep: char)
    requires |parts| >= 1
    requires forall k :: 0 <= k < |parts| ==> sep !in parts[k]
    ensures Split(Join(parts, sep), sep) == parts
  {
    var s := Join(parts, sep);
    if |parts| == 1 {
      assert IndexOf(s, sep) == -1;
    } else {
      var p := parts[0];
      var rest := Join(parts[1..], sep);
      assert s == p + [sep] + rest;
      assert s[..|p|] == p;
      IndexOfIsFirst(s, sep, |p|);
      assert s[|p| + 1..] == rest;
      SplitJoin(parts[1..], sep);
      assert Split(s, sep) == [p] + Split(rest, sep);
    }
  }

  /** `s.split(sep, limit)`: the first `limit` pieces. */
  function SplitLimit(s: string, sep: char, limit: nat): (parts: seq<string>)
    ensures |parts| == if limit < |Split(s, sep)| then limit else |Split(s, sep)|
    ensures parts <= Split(s, sep)
  {
    var all := Split(s, sep);
    if limit < |all| then all[..limit] else all
  }

  /** `parts[k]` on a JavaScript array: `undefined` past the end. */
  function Element<T>(parts: seq<T>, k: nat): (r: Option<T>)
    ensures r.Some? <==> k < |parts|
    ensures r.Some? ==> r.value == parts[k]
  {
    if k < |parts| then Some(parts[k]) else None
  }
}
