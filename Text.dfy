/**
 * The JavaScript string operations the proxy and the playlist loader rely on:
 * `trim`, the `\s` character class, `startsWith`, `includes`, `split` on one
 * separator, `toLowerCase` and two `replace` calls. `IndexOf` and `Join` are
 * not used by the program: they define `Split` and state its inverse.
 * Strings are sequences of code points.
 */
module Text {
  import opened Wrappers

  /** ECMAScript WhiteSpace and LineTerminator: what `trim` strips and `\s` matches. */
  predicate IsSpace(c: char) {
    || c == '\t' || c == '\n' || c == '\U{000B}' || c == '\U{000C}' || c == '\r' || c == ' '
    || c == '\U{00A0}' || c == '\U{1680}' || ('\U{2000}' <= c <= '\U{200A}')
    || c == '\U{2028}' || c == '\U{2029}' || c == '\U{202F}' || c == '\U{205F}'
    || c == '\U{3000}' || c == '\U{FEFF}'
  }

  /** ECMAScript LineTerminator: the characters `.` in a regular expression does not match. */
  predicate IsLineTerminator(c: char) {
    c == '\n' || c == '\r' || c == '\U{2028}' || c == '\U{2029}'
  }

  predicate NoSpace(s: string) {
    forall k | 0 <= k < |s| :: !IsSpace(s[k])
  }

  /** JavaScript truthiness of a string that may be `undefined`. */
  predicate Truthy(o: Option<string>) {
    o.Some? && o.value != ""
  }

  /** `a || b` on two strings that may be `undefined`. */
  function Or(a: Option<string>, b: Option<string>): (r: Option<string>)
    ensures Truthy(r) <==> Truthy(a) || Truthy(b)
    ensures Truthy(a) ==> r == a
    ensures !Truthy(a) ==> r == b
  {
    if Truthy(a) then a else b
  }

  predicate StartsWith(s: string, prefix: string) {
    |prefix| <= |s| && s[..|prefix|] == prefix
  }

  lemma StartsWithPrefix(prefix: string, rest: string)
    ensures StartsWith(prefix + rest, prefix)
  {
    assert (prefix + rest)[..|prefix|] == prefix;
  }

  /** `s.includes(sub)` */
  predicate Contains(s: string, sub: string)
    decreases |s|
  {
    StartsWith(s, sub) || (|s| > 0 && Contains(s[1..], sub))
  }

  /** Whatever precedes and follows an occurrence, the occurrence is found. */
  lemma {:induction false} ContainsOccurrence(before: string, sub: string, after: string)
    ensures Contains(before + sub + after, sub)
    decreases |before|
  {
    var s := before + sub + after;
    if before == [] {
      assert s[..|sub|] == sub;
    } else {
      assert s[1..] == before[1..] + sub + after;
      ContainsOccurrence(before[1..], sub, after);
    }
  }

  /** `sub` is found in `s` starting at index `i`. */
  predicate OccursAt(s: string, sub: string, i: nat) {
    i + |sub| <= |s| && s[i..i + |sub|] == sub
  }

  /** Conversely, a string that contains `sub` has it at some position. */
  lemma {:induction false} ContainsHasOccurrence(s: string, sub: string)
    requires Contains(s, sub)
    ensures exists i: nat :: OccursAt(s, sub, i)
    decreases |s|
  {
    if StartsWith(s, sub) {
      assert OccursAt(s, sub, 0);
    } else {
      ContainsHasOccurrence(s[1..], sub);
      var i: nat :| OccursAt(s[1..], sub, i);
      assert s[i + 1..i + 1 + |sub|] == s[1..][i..i + |sub|];
      assert OccursAt(s, sub, i + 1);
    }
  }

  /** So it is some text, then `sub`, then some text. */
  lemma ContainsSplits(s: string, sub: string)
    requires Contains(s, sub)
    ensures exists before, after :: s == before + sub + after
  {
    ContainsHasOccurrence(s, sub);
    var i: nat :| OccursAt(s, sub, i);
    var before, after := s[..i], s[i + |sub|..];
    assert s == before + sub + after;
  }

  /** Position of the first `c` in `s`, or `|s|` where `indexOf` gives -1. */
  function IndexOf(s: string, c: char): (r: nat)
    ensures r <= |s|
    ensures r < |s| ==> s[r] == c
    ensures forall k | 0 <= k < r :: s[k] != c
  {
    if |s| == 0 then 0
    else if s[0] == c then 0
    else 1 + IndexOf(s[1..], c)
  }

  lemma IndexOfAbsent(s: string, c: char)
    requires c !in s
    ensures IndexOf(s, c) == |s|
  {
  }

  lemma IndexOfFirst(a: string, c: char, b: string)
    requires c !in a
    ensures IndexOf(a + [c] + b, c) == |a|
  {
    assert (a + [c] + b)[|a|] == c;
  }

  /** `s.slice(n)` for a non-negative `n`. */
  function Drop(s: string, n: nat): (r: string)
    ensures |r| == if n <= |s| then |s| - n else 0
    ensures n <= |s| ==> s[..n] + r == s
  {
    if n <= |s| then s[n..] else ""
  }

  /** `s.trimStart()`: the suffix left after the leading white space. */
  function TrimStart(s: string): (r: string)
    ensures |r| <= |s| && r == s[|s| - |r|..]
    ensures forall k | 0 <= k < |s| - |r| :: IsSpace(s[k])
    ensures r != [] ==> !IsSpace(r[0])
  {
    if |s| > 0 && IsSpace(s[0]) then TrimStart(s[1..]) else s
  }

  lemma TrimStartSkips(c: char, s: string)
    requires IsSpace(c)
    ensures TrimStart([c] + s) == TrimStart(s)
  {
    assert ([c] + s)[1..] == s;
  }

  lemma TrimStartStops(s: string)
    requires s == [] || !IsSpace(s[0])
    ensures TrimStart(s) == s
  {
  }

  /** `s.trimEnd()`: the prefix left before the trailing white space. */
  function TrimEnd(s: string): (r: string)
    ensures |r| <= |s| && r == s[..|r|]
    ensures forall k | |r| <= k < |s| :: IsSpace(s[k])
    ensures r != [] ==> !IsSpace(r[|r| - 1])
  {
    if |s| > 0 && IsSpace(s[|s| - 1]) then TrimEnd(s[..|s| - 1]) else s
  }

  /** `s.trim()` */
  function Trim(s: string): (r: string)
    ensures |r| <= |s|
    ensures r != [] ==> !IsSpace(r[0]) && !IsSpace(r[|r| - 1])
  {
    TrimEnd(TrimStart(s))
  }

  /** The result of `trim` is a slice of its input with only white space cut off. */
  lemma TrimSlice(s: string) returns (i: nat)
    ensures i + |Trim(s)| <= |s| && Trim(s) == s[i..i + |Trim(s)|]
    ensures forall k | 0 <= k < i :: IsSpace(s[k])
    ensures forall k | i + |Trim(s)| <= k < |s| :: IsSpace(s[k])
  {
    var t := TrimStart(s);
    i := |s| - |t|;
    TrimEndSlice(s, i);
  }

  /** Cutting trailing white space off the suffix `s[i..]` leaves a slice of `s`. */
  lemma TrimEndSlice(s: string, i: nat)
    requires i <= |s|
    ensures i + |TrimEnd(s[i..])| <= |s| && TrimEnd(s[i..]) == s[i..i + |TrimEnd(s[i..])|]
    ensures forall k | i + |TrimEnd(s[i..])| <= k < |s| :: IsSpace(s[k])
  {
    var t := s[i..];
    var r := TrimEnd(t);
    assert r == t[..|r|];
    forall k | i + |r| <= k < |s| ensures IsSpace(s[k]) {
      assert s[k] == t[k - i];
    }
  }

  lemma TrimKeepsAbsent(s: string, c: char)
    requires c !in s
    ensures c !in Trim(s)
  {
    var i := TrimSlice(s);
  }

  lemma TrimOfTrimmed(s: string)
    requires s == [] || (!IsSpace(s[0]) && !IsSpace(s[|s| - 1]))
    ensures Trim(s) == s
  {
  }

  lemma TrimIdempotent(s: string)
    ensures Trim(Trim(s)) == Trim(s)
  {
    TrimOfTrimmed(Trim(s));
  }

  /** A string whose first character is not white space keeps that character first. */
  lemma TrimKeepsHead(s: string)
    requires s != [] && !IsSpace(s[0])
    ensures Trim(s) != [] && Trim(s)[0] == s[0]
  {
    assert TrimStart(s) == s;
  }

  /** Every code point unchanged except A-Z, which become a-z: what `toLowerCase` does to ASCII. */
  function LowerChar(c: char): char {
    if 'A' <= c <= 'Z' then (c as int - 'A' as int + 'a' as int) as char else c
  }

  function LowerAscii(s: string): (r: string)
    ensures |r| == |s|
    ensures forall k | 0 <= k < |s| :: r[k] == LowerChar(s[k])
  {
    if s == "" then "" else [LowerChar(s[0])] + LowerAscii(s[1..])
  }

  lemma LowerAsciiOfLower(s: string)
    requires forall k | 0 <= k < |s| :: !('A' <= s[k] <= 'Z')
    ensures LowerAscii(s) == s
  {
  }

  /** `s.replace(/c+/g, '')` (and `/c/g`): every `c` removed, the rest in order. */
  function RemoveAll(s: string, c: char): (r: string)
    ensures c !in r
    ensures |r| <= |s|
    ensures forall x | x in r :: x in s
  {
    if |s| == 0 then ""
    else if s[0] == c then RemoveAll(s[1..], c)
    else [s[0]] + RemoveAll(s[1..], c)
  }

  lemma {:induction false} RemoveAllAppend(a: string, b: string, c: char)
    ensures RemoveAll(a + b, c) == RemoveAll(a, c) + RemoveAll(b, c)
    decreases |a|
  {
    if a != [] {
      assert (a + b)[1..] == a[1..] + b;
      RemoveAllAppend(a[1..], b, c);
    } else {
      assert a + b == b;
    }
  }

  lemma {:induction false} RemoveAllAbsent(s: string, c: char)
    requires c !in s
    ensures RemoveAll(s, c) == s
    decreases |s|
  {
    if s != [] {
      RemoveAllAbsent(s[1..], c);
    }
  }

  /** `s.replace(/\s+/g, '-')`: every maximal run of white space becomes one `-`. */
  function DashSpaces(s: string): (r: string)
    ensures NoSpace(r)
    ensures |r| <= |s|
    ensures r == [] <==> s == []
    decreases |s|
  {
    if |s| == 0 then ""
    else if IsSpace(s[0]) then "-" + DashSpaces(TrimStart(s))
    else [s[0]] + DashSpaces(s[1..])
  }

  /** A character that is not white space is kept as it is. */
  lemma DashSpacesKeeps(c: char, rest: string)
    requires !IsSpace(c)
    ensures DashSpaces([c] + rest) == [c] + DashSpaces(rest)
  {
    assert ([c] + rest)[0] == c && ([c] + rest)[1..] == rest;
  }

  /** A maximal run of white space becomes one `-`. */
  lemma DashSpacesRun(run: string, rest: string)
    requires run != [] && forall k | 0 <= k < |run| :: IsSpace(run[k])
    requires rest == [] || !IsSpace(rest[0])
    ensures DashSpaces(run + rest) == "-" + DashSpaces(rest)
  {
    assert (run + rest)[0] == run[0];
    TrimStartRun(run, rest);
  }

  /** `TrimStart` drops a leading run of white space up to the first other character. */
  lemma {:induction false} TrimStartRun(run: string, rest: string)
    requires forall k | 0 <= k < |run| :: IsSpace(run[k])
    requires rest == [] || !IsSpace(rest[0])
    ensures TrimStart(run + rest) == rest
    decreases |run|
  {
    if run == [] {
      assert run + rest == rest;
      TrimStartStops(rest);
    } else {
      assert run + rest == [run[0]] + (run[1..] + rest);
      TrimStartSkips(run[0], run[1..] + rest);
      TrimStartRun(run[1..], rest);
    }
  }

  lemma {:induction false} DashSpacesWithoutSpace(s: string)
    requires NoSpace(s)
    ensures DashSpaces(s) == s
    decreases |s|
  {
    if s != [] {
      DashSpacesWithoutSpace(s[1..]);
    }
  }

  /** `s.split(sep)` on a one-character separator. */
  function Split(s: string, sep: char): (r: seq<string>)
    ensures |r| >= 1
    ensures forall k | 0 <= k < |r| :: sep !in r[k]
    decreases |s|
  {
    var i := IndexOf(s, sep);
    if i == |s| then [s] else [s[..i]] + Split(s[i + 1..], sep)
  }

  /** `parts.join(sep)` on a one-character separator. */
  function Join(parts: seq<string>, sep: char): string {
    if |parts| == 0 then ""
    else if |parts| == 1 then parts[0]
    else parts[0] + [sep] + Join(parts[1..], sep)
  }

  lemma {:induction false} SplitJoin(parts: seq<string>, sep: char)
    requires |parts| >= 1
    requires forall k | 0 <= k < |parts| :: sep !in parts[k]
    ensures Split(Join(parts, sep), sep) == parts
  {
    var s := Join(parts, sep);
    if |parts| == 1 {
      IndexOfAbsent(s, sep);
    } else {
      var rest := Join(parts[1..], sep);
      assert s == parts[0] + [sep] + rest;
      IndexOfFirst(parts[0], sep, rest);
      assert s[..|parts[0]|] == parts[0];
      assert s[|parts[0]| + 1..] == rest;
      SplitJoin(parts[1..], sep);
      assert parts == [parts[0]] + parts[1..];
    }
  }

  lemma {:induction false} JoinSplit(s: string, sep: char)
    ensures Join(Split(s, sep), sep) == s
    decreases |s|
  {
    var i := IndexOf(s, sep);
    if i < |s| {
      var head, tail := s[..i], s[i + 1..];
      var rest := Split(tail, sep);
      JoinSplit(tail, sep);
      var parts := [head] + rest;
      assert Split(s, sep) == parts;
      assert parts[0] == head && parts[1..] == rest;
      assert Join(parts, sep) == head + [sep] + Join(rest, sep);
      assert s == head + [sep] + tail;
    }
  }

  lemma {:induction false} JoinSnoc(parts: seq<string>, x: string, sep: char)
    requires |parts| >= 1
    ensures Join(parts + [x], sep) == Join(parts, sep) + [sep] + x
    decreases |parts|
  {
    if |parts| > 1 {
      assert (parts + [x])[1..] == parts[1..] + [x];
      JoinSnoc(parts[1..], x, sep);
    }
  }
}
