/**
 * Models of the .NET string operations the router relies on:
 * `Trim(params char[])`, `Split(char)`, `string.Join(string, …)` and
 * `Replace("/", "")`. Strings are sequences of characters and every
 * comparison is ordinal.
 */
module Strings {

  /** Number of occurrences of `c` in `s`. */
  function Count(s: string, c: char): nat
  {
    if |s| == 0 then 0 else (if s[0] == c then 1 else 0) + Count(s[1..], c)
  }

  /** `s.TrimStart(chars)`: drops every leading character that is in `chars`. */
  function TrimStart(s: string, chars: set<char>): (r: string)
    ensures |r| <= |s| && r == s[|s| - |r|..]
    ensures r == [] || r[0] !in chars
    ensures forall i :: 0 <= i < |s| - |r| ==> s[i] in chars
  {
    if |s| > 0 && s[0] in chars then TrimStart(s[1..], chars) else s
  }

  /** `s.TrimEnd(chars)`: drops every trailing character that is in `chars`. */
  function TrimEnd(s: string, chars: set<char>): (r: string)
    ensures |r| <= |s| && r == s[..|r|]
    ensures r == [] || r[|r| - 1] !in chars
    ensures forall i :: |r| <= i < |s| ==> s[i] in chars
  {
    if |s| > 0 && s[|s| - 1] in chars then TrimEnd(s[..|s| - 1], chars) else s
  }

  /** `s.Trim(chars)`: drops leading and trailing characters that are in `chars`. */
  function Trim(s: string, chars: set<char>): string
  {
    TrimEnd(TrimStart(s, chars), chars)
  }

  /**
   * `s.Split(sep)`: the maximal `sep`-free pieces between separators. An
   * empty string yields one empty piece, and there is always exactly one
   * more piece than separators.
   */
  function Split(s: string, sep: char): (parts: seq<string>)
    ensures |parts| >= 1
    ensures forall i :: 0 <= i < |parts| ==> sep !in parts[i]
  {
    if |s| == 0 then [""]
    else if s[0] == sep then [""] + Split(s[1..], sep)
    else
      var rest := Split(s[1..], sep);
      [[s[0]] + rest[0]] + rest[1..]
  }

  /** Total length of the parts. */
  function TotalLength(parts: seq<string>): nat
  {
    if |parts| == 0 then 0 else |parts[0]| + TotalLength(parts[1..])
  }

  /** `string.Join(sep, parts)`: the parts in order, one separator between each neighbouring pair. */
  function Join(parts: seq<string>, sep: string): string
  {
    if |parts| == 0 then ""
    else if |parts| == 1 then parts[0]
    else parts[0] + sep + Join(parts[1..], sep)
  }

  /** Concatenation with no separator: `string.Join("", parts)`. */
  function Concat(parts: seq<string>): string
  {
    if |parts| == 0 then "" else parts[0] + Concat(parts[1..])
  }

  /** `s.Replace(c, "")`: every occurrence of `c` removed. */
  function RemoveAll(s: string, c: char): (r: string)
    ensures c !in r
    ensures |r| == |s| - Count(s, c)
  {
    if |s| == 0 then "" else (if s[0] == c then "" else [s[0]]) + RemoveAll(s[1..], c)
  }

  /** Each string with every `c` removed. */
  function RemoveAllEach(strings: seq<string>, c: char): (r: seq<string>)
    ensures |r| == |strings|
    ensures forall i :: 0 <= i < |r| ==> r[i] == RemoveAll(strings[i], c)
  {
    if |strings| == 0 then [] else [RemoveAll(strings[0], c)] + RemoveAllEach(strings[1..], c)
  }

  /** `s.StartsWith(prefix)`, ordinal. */
  predicate StartsWith(s: string, prefix: string)
  {
    |prefix| <= |s| && s[..|prefix|] == prefix
  }

  lemma JoinExtendHead(parts: seq<string>, c: char, sep: string)
    requires |parts| >= 1
    ensures Join([[c] + parts[0]] + parts[1..], sep) == [c] + Join(parts, sep)
  {
    var p := [[c] + parts[0]] + parts[1..];
    assert p[1..] == parts[1..];
  }

  /** Joining the pieces with the separator gives back the string. */
  lemma {:induction false} JoinSplit(s: string, sep: char)
    ensures Join(Split(s, sep), [sep]) == s
  {
    if |s| > 0 {
      JoinSplit(s[1..], sep);
      var rest := Split(s[1..], sep);
      if s[0] == sep {
        assert ([""] + rest)[1..] == rest;
        assert s == [sep] + s[1..];
      } else {
        JoinExtendHead(rest, s[0], [sep]);
        assert s == [s[0]] + s[1..];
      }
    }
  }

  /** There is exactly one more piece than there are separators. */
  lemma {:induction false} SplitCount(s: string, sep: char)
    ensures |Split(s, sep)| == Count(s, sep) + 1
  {
    if |s| > 0 {
      SplitCount(s[1..], sep);
    }
  }

  /** Split is injective: two strings with the same pieces are equal. */
  lemma SplitInjective(s: string, t: string, sep: char)
    requires Split(s, sep) == Split(t, sep)
    ensures s == t
  {
    JoinSplit(s, sep);
    JoinSplit(t, sep);
  }

  /** Splitting what was joined gives back the pieces, when no piece holds the separator. */
  lemma {:induction false} SplitJoin(parts: seq<string>, sep: char)
    requires |parts| >= 1
    requires forall i :: 0 <= i < |parts| ==> sep !in parts[i]
    ensures Split(Join(parts, [sep]), sep) == parts
  {
    if |parts| == 1 {
      SplitFree(parts[0], sep);
    } else {
      SplitJoin(parts[1..], sep);
      SplitAfterFree(parts[0], Join(parts[1..], [sep]), sep);
      assert [parts[0]] + parts[1..] == parts;
    }
  }

  /** A string without the separator is a single piece. */
  lemma {:induction false} SplitFree(s: string, sep: char)
    requires sep !in s
    ensures Split(s, sep) == [s]
  {
    if |s| > 0 {
      SplitFree(s[1..], sep);
      assert [s[0]] + s[1..] == s;
    }
  }

  /** A separator-free prefix followed by a separator becomes the first piece. */
  lemma {:induction false} SplitAfterFree(a: string, t: string, sep: char)
    requires sep !in a
    ensures Split(a + [sep] + t, sep) == [a] + Split(t, sep)
  {
    if |a| == 0 {
      assert a + [sep] + t == [sep] + t;
      assert ([sep] + t)[1..] == t;
    } else {
      var s := a + [sep] + t;
      assert s[0] == a[0] && s[1..] == a[1..] + [sep] + t;
      SplitAfterFree(a[1..], t, sep);
      assert [a[0]] + a[1..] == a;
    }
  }

  /** Leading characters from `chars` do not change TrimStart. */
  lemma {:induction false} TrimStartSkipsPrefix(a: string, s: string, chars: set<char>)
    requires forall i :: 0 <= i < |a| ==> a[i] in chars
    ensures TrimStart(a + s, chars) == TrimStart(s, chars)
  {
    if |a| > 0 {
      assert (a + s)[1..] == a[1..] + s;
      TrimStartSkipsPrefix(a[1..], s, chars);
    } else {
      assert a + s == s;
    }
  }

  /** Trailing characters from `chars` do not change TrimEnd. */
  lemma {:induction false} TrimEndSkipsSuffix(s: string, b: string, chars: set<char>)
    requires forall i :: 0 <= i < |b| ==> b[i] in chars
    ensures TrimEnd(s + b, chars) == TrimEnd(s, chars)
  {
    if |b| > 0 {
      var n := |b| - 1;
      assert (s + b)[..|s + b| - 1] == s + b[..n];
      TrimEndSkipsSuffix(s, b[..n], chars);
    } else {
      assert s + b == s;
    }
  }

  /** TrimStart of `s + b` when `b` consists of trimmed characters only. */
  lemma {:induction false} TrimStartBeforeSuffix(s: string, b: string, chars: set<char>)
    requires forall i :: 0 <= i < |b| ==> b[i] in chars
    ensures TrimStart(s + b, chars) ==
              if TrimStart(s, chars) == [] then [] else TrimStart(s, chars) + b
  {
    if |s| == 0 {
      assert s + b == b;
      TrimStartSkipsPrefix(b, [], chars);
      assert b + [] == b;
    } else if s[0] in chars {
      assert (s + b)[1..] == s[1..] + b;
      TrimStartBeforeSuffix(s[1..], b, chars);
    }
  }

  /**
   * Surrounding a string with any run of trimmed characters does not change
   * what Trim returns: `Trim("//a/b/", {'/'}) == Trim("a/b", {'/'})`.
   */
  lemma TrimIgnoresSurrounding(a: string, s: string, b: string, chars: set<char>)
    requires forall i :: 0 <= i < |a| ==> a[i] in chars
    requires forall i :: 0 <= i < |b| ==> b[i] in chars
    ensures Trim(a + s + b, chars) == Trim(s, chars)
  {
    assert a + s + b == a + (s + b);
    TrimStartSkipsPrefix(a, s + b, chars);
    TrimStartBeforeSuffix(s, b, chars);
    if TrimStart(s, chars) != [] {
      TrimEndSkipsSuffix(TrimStart(s, chars), b, chars);
    }
  }

  /** Trimming twice is trimming once. */
  lemma TrimIdempotent(s: string, chars: set<char>)
    ensures Trim(Trim(s, chars), chars) == Trim(s, chars)
  {
    var t := Trim(s, chars);
    assert TrimStart(t, chars) == t;
  }

  /** Two pieces without the separator, joined by it, split back into the two. */
  lemma SplitPair(a: string, b: string, sep: char)
    requires sep !in a && sep !in b
    ensures Split(a + [sep] + b, sep) == [a, b]
  {
    SplitAfterFree(a, b, sep);
    SplitFree(b, sep);
  }

  /** Joining three parts puts the separator between each neighbouring pair. */
  lemma JoinThree(a: string, b: string, c: string, sep: string)
    ensures Join([a, b, c], sep) == a + sep + b + sep + c
  {
    var parts, rest := [a, b, c], [b, c];
    assert parts[1..] == rest && rest[1..] == [c];
    assert Join(rest, sep) == b + sep + c;
  }

  /** Removing a character the string does not hold changes nothing. */
  lemma {:induction false} RemoveAllAbsent(s: string, c: char)
    requires c !in s
    ensures RemoveAll(s, c) == s
  {
    if |s| > 0 {
      RemoveAllAbsent(s[1..], c);
    }
  }

  /** Removal works piecewise over a concatenation. */
  lemma {:induction false} RemoveAllAppend(a: string, b: string, c: char)
    ensures RemoveAll(a + b, c) == RemoveAll(a, c) + RemoveAll(b, c)
  {
    if |a| > 0 {
      assert (a + b)[1..] == a[1..] + b;
      RemoveAllAppend(a[1..], b, c);
    } else {
      assert a + b == b;
    }
  }

  /** Concatenating pieces none of which holds `c` gives text without `c`. */
  lemma {:induction false} ConcatExcludes(parts: seq<string>, c: char)
    requires forall i :: 0 <= i < |parts| ==> c !in parts[i]
    ensures c !in Concat(parts)
  {
    if |parts| > 0 {
      ConcatExcludes(parts[1..], c);
    }
  }

  /**
   * Trim is no longer than its input, keeps no trimmed character at either
   * end, and is empty only when every character of the input is trimmed.
   */
  lemma TrimShape(s: string, chars: set<char>)
    ensures |Trim(s, chars)| <= |s|
    ensures Trim(s, chars) == [] || (Trim(s, chars)[0] !in chars && Trim(s, chars)[|Trim(s, chars)| - 1] !in chars)
    ensures Trim(s, chars) == [] ==> forall i :: 0 <= i < |s| ==> s[i] in chars
  {
  }

  /**
   * A join starts with its first part, and is as long as all parts together
   * plus one separator between each neighbouring pair.
   */
  lemma {:induction false} JoinLength(parts: seq<string>, sep: string)
    requires |parts| >= 1
    ensures parts[0] <= Join(parts, sep)
    ensures |Join(parts, sep)| + |sep| == TotalLength(parts) + |parts| * |sep|
  {
    if |parts| > 1 {
      JoinLength(parts[1..], sep);
    }
  }

  /** A concatenation starts with its first part and is as long as all parts together. */
  lemma {:induction false} ConcatLength(parts: seq<string>)
    ensures |parts| >= 1 ==> parts[0] <= Concat(parts)
    ensures |Concat(parts)| == TotalLength(parts)
  {
    if |parts| > 0 {
      ConcatLength(parts[1..]);
    }
  }

  /** A one-character prefix test looks at the first character only. */
  lemma StartsWithChar(s: string, c: char)
    ensures StartsWith(s, [c]) <==> |s| > 0 && s[0] == c
  {
    if |s| > 0 && s[0] == c {
      assert s[..1] == [c];
    }
  }

  /** When the first character is trimmed, Trim is strictly shorter than its input. */
  lemma TrimDropsFirst(s: string, chars: set<char>)
    requires |s| > 0 && s[0] in chars
    ensures |Trim(s, chars)| < |s|
  {
    assert TrimStart(s, chars) == TrimStart(s[1..], chars);
  }
}
