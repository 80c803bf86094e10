/**
 * The JavaScript string operations the engine relies on, with their exact semantics:
 * `String.prototype.split` on a one-character separator, `String.prototype.replace`
 * with a string pattern (first occurrence only), `substring(0, n)`, and the conversion of
 * `undefined` to a property key or to a concatenated string.
 */
module JsStrings {
  import opened Wrappers

  /** `String(x)` for a value that may be `undefined`: the key JavaScript uses when such a
      value indexes an object, and the text it contributes to a concatenation. */
  function Str(o: Option<string>): string
  {
    match o
    case Some(s) => s
    case None => "undefined"
  }

  /** `a[i]` on a JavaScript array: `undefined` past the end. */
  function At(a: seq<string>, i: nat): Option<string>
  {
    if i < |a| then Some(a[i]) else None
  }

  /** `a[i] == lit` for a string literal `lit`: false when `a[i]` is `undefined`. */
  predicate Is(a: seq<string>, i: nat, lit: string)
  {
    i < |a| && a[i] == lit
  }

  /** The inverse of `split`: the parts glued together with `c` between neighbours. */
  function Join(parts: seq<string>, c: char): string
    requires |parts| >= 1
  {
    if |parts| == 1 then parts[0] else parts[0] + [c] + Join(parts[1..], c)
  }

  /** `s.split(c)`: never empty, no part contains the separator, and joining the parts
      back with the separator gives `s` again. */
  function Split(s: string, c: char): (parts: seq<string>)
    ensures |parts| >= 1
    ensures forall i :: 0 <= i < |parts| ==> c !in parts[i]
    ensures Join(parts, c) == s
    decreases |s|
  {
    if |s| == 0 then [""]
    else
      var rest := Split(s[1..], c);
      if s[0] == c then
        assert [c] + Join(rest, c) == s;
        [""] + rest
      else
        var parts := [[s[0]] + rest[0]] + rest[1..];
        assert parts[1..] == rest[1..];
        assert Join(parts, c) == s by {
          if |rest| > 1 {
            assert Join(rest, c) == rest[0] + [c] + Join(rest[1..], c);
          }
        }
        parts
  }

  /** A string without the separator splits into itself alone. */
  lemma {:induction false} SplitWithoutSeparator(s: string, c: char)
    requires c !in s
    ensures Split(s, c) == [s]
    decreases |s|
  {
    if |s| > 0 {
      assert c !in s[1..];
      SplitWithoutSeparator(s[1..], c);
    }
  }

  /** Up to the first separator the string is its first part; the rest splits on its own. */
  lemma {:induction false} SplitAtFirstSeparator(a: string, b: string, c: char)
    requires c !in a
    ensures Split(a + [c] + b, c) == [a] + Split(b, c)
    decreases |a|
  {
    var s := a + [c] + b;
    if |a| == 0 {
      assert s[1..] == b;
    } else {
      assert s[1..] == a[1..] + [c] + b;
      assert c !in a[1..];
      SplitAtFirstSeparator(a[1..], b, c);
      assert [a[0]] + a[1..] == a;
    }
  }

  /** The other half of the round trip: parts without the separator are recovered from
      their join. */
  lemma {:induction false} SplitOfJoin(parts: seq<string>, c: char)
    requires |parts| >= 1
    requires forall i :: 0 <= i < |parts| ==> c !in parts[i]
    ensures Split(Join(parts, c), c) == parts
    decreases |parts|
  {
    if |parts| == 1 {
      SplitWithoutSeparator(parts[0], c);
    } else {
      SplitOfJoin(parts[1..], c);
      SplitAtFirstSeparator(parts[0], Join(parts[1..], c), c);
      assert [parts[0]] + parts[1..] == parts;
    }
  }

  /** The first part of a split is the longest separator-free prefix of `s`. */
  lemma FirstPartIsPrefix(s: string, c: char)
    ensures var p := Split(s, c)[0];
      && c !in p
      && p == s[..|p|]
      && (|p| == |s| || s[|p|] == c)
  {
    var parts := Split(s, c);
    if |parts| > 1 {
      assert s == parts[0] + [c] + Join(parts[1..], c);
      assert s[|parts[0]|] == c;
    }
  }

  /** `s.split(c)` has a second part exactly when `s` contains the separator. */
  lemma SplitHasSecondPart(s: string, c: char)
    ensures |Split(s, c)| > 1 <==> c in s
  {
    var parts := Split(s, c);
    if |parts| > 1 {
      assert s == parts[0] + [c] + Join(parts[1..], c);
      assert s[|parts[0]|] == c;
    }
  }

  /** Joining one more part at the end. */
  lemma {:induction false} JoinSnoc(parts: seq<string>, x: string, c: char)
    requires |parts| >= 1
    ensures Join(parts + [x], c) == Join(parts, c) + [c] + x
    decreases |parts|
  {
    if |parts| > 1 {
      assert (parts + [x])[1..] == parts[1..] + [x];
      JoinSnoc(parts[1..], x, c);
    } else {
      assert (parts + [x])[1..] == [x];
    }
  }

  /** `s` ends with `suffix`. */
  predicate EndsWith(s: string, suffix: string)
  {
    |suffix| <= |s| && s[|s| - |suffix|..] == suffix
  }

  /** `s` starts with `prefix`. */
  predicate StartsWith(s: string, prefix: string)
  {
    |prefix| <= |s| && s[..|prefix|] == prefix
  }

  /** Appending to a string keeps what it starts with, and the result ends with what was
      appended. */
  lemma Affixes(a: string, b: string, prefix: string)
    requires StartsWith(a, prefix)
    ensures StartsWith(a + b, prefix) && EndsWith(a + b, b)
  {
    assert (a + b)[..|prefix|] == a[..|prefix|];
    assert (a + b)[|a + b| - |b|..] == b;
  }

  /** `s.substring(0, n)`: at most the first `n` characters. */
  function Prefix(s: string, n: nat): string
  {
    if |s| < n then s else s[..n]
  }

  /** `s.replace(from, to)` with one-character strings: only the FIRST occurrence of
      `from` is replaced. */
  function ReplaceFirst(s: string, from: char, to: char): (r: string)
    ensures |r| == |s|
    decreases |s|
  {
    if |s| == 0 then s
    else if s[0] == from then [to] + s[1..]
    else [s[0]] + ReplaceFirst(s[1..], from, to)
  }

  /** Number of occurrences of `c` in `s`. */
  function Count(s: string, c: char): nat
    decreases |s|
  {
    if |s| == 0 then 0 else (if s[0] == c then 1 else 0) + Count(s[1..], c)
  }

  /** What `replace` does when `from` is absent: nothing. */
  lemma {:induction false} ReplaceFirstAbsent(s: string, from: char, to: char)
    requires from !in s
    ensures ReplaceFirst(s, from, to) == s
    decreases |s|
  {
    if |s| > 0 {
      assert from !in s[1..];
      ReplaceFirstAbsent(s[1..], from, to);
    }
  }

  /** What `replace` does when the first `from` is at index `i`: that character becomes
      `to` and every other character stays. */
  lemma {:induction false} ReplaceFirstAt(s: string, from: char, to: char, i: nat)
    requires i < |s| && s[i] == from && from !in s[..i]
    ensures ReplaceFirst(s, from, to) == s[..i] + [to] + s[i + 1..]
    decreases |s|
  {
    if i == 0 {
      assert s[..0] == [];
    } else {
      assert s[0] != from by { assert s[..i][0] == s[0]; }
      var t := s[1..];
      assert t[..i - 1] == s[1..i];
      assert from !in t[..i - 1];
      ReplaceFirstAt(t, from, to, i - 1);
      assert t[i..] == s[i + 1..];
      assert [s[0]] + s[1..i] == s[..i];
    }
  }

  /** Replacing the first occurrence removes exactly one occurrence, when there is one. */
  lemma {:induction false} ReplaceFirstCount(s: string, from: char, to: char)
    requires from != to
    ensures from in s ==> Count(ReplaceFirst(s, from, to), from) == Count(s, from) - 1
    ensures from !in s ==> Count(s, from) == 0
    decreases |s|
  {
    if |s| > 0 {
      ReplaceFirstCount(s[1..], from, to);
      var r := ReplaceFirst(s, from, to);
      if s[0] == from {
        assert r[1..] == s[1..];
      } else {
        assert r[1..] == ReplaceFirst(s[1..], from, to);
        assert from in s ==> from in s[1..];
      }
    }
  }
}
