/**
 * The string operations of the .NET base library and of FubuCore that the
 * modelled code relies on, on strings as sequences of characters, with the
 * facts about them that the rest of the model uses.
 */
module Text {

  /** Char.IsWhiteSpace: the Unicode space separators plus the control characters .NET counts. */
  predicate IsWhiteSpace(c: char) {
    c == ' ' || c == '\t' || c == '\n' || c == '\U{000B}' || c == '\U{000C}' || c == '\r'
    || c == '\U{0085}' || c == '\U{00A0}' || c == '\U{1680}'
    || ('\U{2000}' <= c <= '\U{200A}')
    || c == '\U{2028}' || c == '\U{2029}' || c == '\U{202F}' || c == '\U{205F}' || c == '\U{3000}'
  }

  predicate AllWhiteSpace(s: string) {
    forall i :: 0 <= i < |s| ==> IsWhiteSpace(s[i])
  }

  /** String.StartsWith, compared ordinally. */
  predicate StartsWith(s: string, prefix: string) {
    |prefix| <= |s| && s[..|prefix|] == prefix
  }

  /** String.TrimStart(): drops the leading white space. */
  function TrimStart(s: string): string
    decreases |s|
  {
    if |s| > 0 && IsWhiteSpace(s[0]) then TrimStart(s[1..]) else s
  }

  /** String.TrimEnd(): drops the trailing white space. */
  function TrimEnd(s: string): string
    decreases |s|
  {
    if |s| > 0 && IsWhiteSpace(s[|s| - 1]) then TrimEnd(s[..|s| - 1]) else s
  }

  /** TrimStart drops exactly the leading white space: what remains is a suffix that does not start with white space. */
  lemma {:induction false} TrimStartSpec(s: string)
    ensures var r := TrimStart(s);
            |r| <= |s| && r == s[|s| - |r|..]
            && (forall i :: 0 <= i < |s| - |r| ==> IsWhiteSpace(s[i]))
            && (r == [] || !IsWhiteSpace(r[0]))
    decreases |s|
  {
    if |s| > 0 && IsWhiteSpace(s[0]) {
      TrimStartSpec(s[1..]);
    }
  }

  /** TrimEnd drops exactly the trailing white space: what remains is a prefix that does not end with white space. */
  lemma {:induction false} TrimEndSpec(s: string)
    ensures var r := TrimEnd(s);
            |r| <= |s| && r == s[..|r|]
            && (forall i :: |r| <= i < |s| ==> IsWhiteSpace(s[i]))
            && (r == [] || !IsWhiteSpace(r[|r| - 1]))
    decreases |s|
  {
    if |s| > 0 && IsWhiteSpace(s[|s| - 1]) {
      TrimEndSpec(s[..|s| - 1]);
    }
  }

  /** String.Trim(). */
  function Trim(s: string): string {
    TrimEnd(TrimStart(s))
  }

  /** String.TrimStart(c): drops every leading occurrence of c. */
  function TrimStartChar(s: string, c: char): (r: string)
    ensures |r| <= |s| && r == s[|s| - |r|..]
    ensures forall i :: 0 <= i < |s| - |r| ==> s[i] == c
    ensures r == [] || r[0] != c
  {
    if |s| > 0 && s[0] == c then TrimStartChar(s[1..], c) else s
  }

  /** String.TrimEnd(c): drops every trailing occurrence of c. */
  function TrimEndChar(s: string, c: char): (r: string)
    ensures |r| <= |s| && r == s[..|r|]
    ensures forall i :: |r| <= i < |s| ==> s[i] == c
    ensures r == [] || r[|r| - 1] != c
  {
    if |s| > 0 && s[|s| - 1] == c then TrimEndChar(s[..|s| - 1], c) else s
  }

  /** A GUID as written in project files, with its braces taken off: raw.TrimStart('{').TrimEnd('}'). */
  function StripBraces(raw: string): string {
    TrimEndChar(TrimStartChar(raw, '{'), '}')
  }

  /** String.Split(sep): the pieces between the separators, empty pieces included. */
  function Split(s: string, sep: char): (r: seq<string>)
    ensures |r| >= 1
    ensures forall i :: 0 <= i < |r| ==> sep !in r[i]
    decreases |s|
  {
    if |s| == 0 then [""]
    else if s[0] == sep then [""] + Split(s[1..], sep)
    else
      var rest := Split(s[1..], sep);
      [[s[0]] + rest[0]] + rest[1..]
  }

  /** A split yields one piece more than there are separators. */
  lemma {:induction false} SplitCount(s: string, sep: char)
    ensures |Split(s, sep)| == multiset(s)[sep] + 1
    decreases |s|
  {
    if |s| > 0 {
      SplitCount(s[1..], sep);
      assert s == [s[0]] + s[1..];
    }
  }

  /** String.Join(sep, parts) (FubuCore's Join extension). */
  function Join(parts: seq<string>, sep: string): string
    decreases |parts|
  {
    if |parts| == 0 then ""
    else if |parts| == 1 then parts[0]
    else parts[0] + sep + Join(parts[1..], sep)
  }

  /** Joining the pieces of a split with the same separator gives the string back. */
  lemma {:induction false} JoinSplit(s: string, sep: char)
    ensures Join(Split(s, sep), [sep]) == s
    decreases |s|
  {
    if |s| == 0 {
    } else if s[0] == sep {
      JoinSplit(s[1..], sep);
      assert s == [sep] + s[1..];
    } else {
      var rest := Split(s[1..], sep);
      JoinSplit(s[1..], sep);
      if |rest| == 1 {
        assert Join(rest, [sep]) == rest[0];
      } else {
        assert Join(rest, [sep]) == rest[0] + [sep] + Join(rest[1..], [sep]);
      }
      assert s == [s[0]] + s[1..];
    }
  }

  /** String.Replace(from, to) with one-character strings: every `from` becomes `to`. */
  function ReplaceChar(s: string, from: char, to: char): (r: string)
    ensures |r| == |s|
    ensures forall i :: 0 <= i < |s| ==> r[i] == if s[i] == from then to else s[i]
  {
    seq(|s|, i requires 0 <= i < |s| => if s[i] == from then to else s[i])
  }

  /** True when `sub` occurs in `list` as a contiguous run (FubuCore's ContainsSequence; substring search on strings). */
  predicate ContainsSequence<T(==)>(list: seq<T>, sub: seq<T>) {
    exists i | 0 <= i <= |list| - |sub| :: OccursAt(list, sub, i)
  }

  /** `sub` stands in `list` from position i on. */
  predicate OccursAt<T(==)>(list: seq<T>, sub: seq<T>, i: int) {
    0 <= i <= |list| - |sub| && list[i..i + |sub|] == sub
  }

  /** StringBuilder.Replace(token, value): every occurrence, scanned left to right without overlap. */
  function ReplaceAll(s: string, token: string, value: string): string
    requires token != ""
    decreases |s|
  {
    if |s| < |token| then s
    else if s[..|token|] == token then value + ReplaceAll(s[|token|..], token, value)
    else [s[0]] + ReplaceAll(s[1..], token, value)
  }

  /**
   * A token preceded by text that cannot start it is replaced there: the
   * text before it is kept and the scan resumes right after it.
   */
  lemma {:induction false} ReplaceAllAfter(a: string, token: string, value: string, b: string)
    requires token != "" && token[0] !in a
    ensures ReplaceAll(a + token + b, token, value) == a + value + ReplaceAll(b, token, value)
    decreases |a|
  {
    var s := a + token + b;
    var rest := ReplaceAll(b, token, value);
    if a == [] {
      assert s == token + b;
      assert s[..|token|] == token && s[|token|..] == b;
      assert a + value + rest == value + rest;
    } else {
      assert s[..|token|][0] == a[0] != token[0];
      assert s[1..] == a[1..] + token + b;
      calc {
        ReplaceAll(s, token, value);
        [a[0]] + ReplaceAll(a[1..] + token + b, token, value);
        { ReplaceAllAfter(a[1..], token, value, b); }
        [a[0]] + (a[1..] + value + rest);
        { assert a == [a[0]] + a[1..]; }
        a + value + rest;
      }
    }
  }

  /** Replacing a token that does not occur leaves the text as it was. */
  lemma {:induction false} ReplaceAbsent(s: string, token: string, value: string)
    requires token != ""
    requires !ContainsSequence(s, token)
    ensures ReplaceAll(s, token, value) == s
    decreases |s|
  {
    if |s| < |token| {
    } else {
      assert !OccursAt(s, token, 0);
      forall i | 0 <= i <= |s| - 1 - |token| ensures !OccursAt(s[1..], token, i) {
        assert !OccursAt(s, token, i + 1);
        assert s[1..][i..i + |token|] == s[i + 1..i + 1 + |token|];
      }
      ReplaceAbsent(s[1..], token, value);
      assert s == [s[0]] + s[1..];
    }
  }

  /** String.ToUpper() on the ASCII letters (a GUID's text holds no others). */
  function ToUpper(s: string): (r: string)
    ensures |r| == |s|
    ensures forall i :: 0 <= i < |r| ==> !('a' <= r[i] <= 'z')
    ensures forall i :: 0 <= i < |s| && !('a' <= s[i] <= 'z') ==> r[i] == s[i]
  {
    seq(|s|, i requires 0 <= i < |s| => if 'a' <= s[i] <= 'z' then (s[i] as int - 32) as char else s[i])
  }

  // ---------------------------------------------------------------------------------------
  // Ordinal string order and a stable sort (Enumerable.OrderBy)

  /** Ordinal comparison: character codes, a proper prefix comes first. */
  predicate Less(a: string, b: string)
    decreases |a|
  {
    if |a| == 0 then |b| > 0
    else if |b| == 0 then false
    else if a[0] != b[0] then a[0] < b[0]
    else Less(a[1..], b[1..])
  }

  lemma {:induction false} LessIrreflexive(a: string)
    ensures !Less(a, a)
    decreases |a|
  {
    if |a| > 0 { LessIrreflexive(a[1..]); }
  }

  lemma {:induction false} LessTransitive(a: string, b: string, c: string)
    requires Less(a, b) && Less(b, c)
    ensures Less(a, c)
    decreases |a|
  {
    if |a| > 0 && |b| > 0 && |c| > 0 && a[0] == b[0] && b[0] == c[0] {
      LessTransitive(a[1..], b[1..], c[1..]);
    }
  }

  lemma {:induction false} LessTotal(a: string, b: string)
    ensures a == b || Less(a, b) || Less(b, a)
    decreases |a|
  {
    if |a| > 0 && |b| > 0 && a[0] == b[0] {
      LessTotal(a[1..], b[1..]);
      if a[1..] == b[1..] {
        assert a == [a[0]] + a[1..] && b == [b[0]] + b[1..];
      }
    }
  }

  /** "b is not ordered before a" is transitive. */
  lemma NotLessTransitive(a: string, b: string, c: string)
    requires !Less(b, a) && !Less(c, b)
    ensures !Less(c, a)
  {
    LessTotal(a, b);
    if Less(c, a) && Less(a, b) { LessTransitive(c, a, b); }
  }

  /** Ascending by key: no element is ordered strictly before an earlier one. */
  ghost predicate SortedBy<T>(s: seq<T>, key: T -> string) {
    forall i, j :: 0 <= i < j < |s| ==> !Less(key(s[j]), key(s[i]))
  }

  /** Puts x in front of the first element whose key is not below x's, which keeps equal keys in arrival order. */
  function InsertBy<T(==)>(x: T, s: seq<T>, key: T -> string): (r: seq<T>)
    requires SortedBy(s, key)
    ensures multiset(r) == multiset(s) + multiset{x}
    ensures SortedBy(r, key)
    decreases |s|
  {
    if s == [] then [x]
    else if !Less(key(s[0]), key(x)) then
      InsertedFront(x, s, key);
      [x] + s
    else
      var tail := InsertBy(x, s[1..], key);
      InsertedBehind(x, s, tail, key);
      assert s == [s[0]] + s[1..];
      [s[0]] + tail
  }

  lemma InsertedFront<T>(x: T, s: seq<T>, key: T -> string)
    requires SortedBy(s, key) && s != [] && !Less(key(s[0]), key(x))
    ensures SortedBy([x] + s, key)
  {
    var r := [x] + s;
    forall i, j | 0 <= i < j < |r| ensures !Less(key(r[j]), key(r[i])) {
      if i == 0 && j > 1 { NotLessTransitive(key(x), key(s[0]), key(s[j - 1])); }
    }
  }

  lemma InsertedBehind<T>(x: T, s: seq<T>, tail: seq<T>, key: T -> string)
    requires SortedBy(s, key) && s != [] && Less(key(s[0]), key(x))
    requires SortedBy(tail, key) && multiset(tail) == multiset(s[1..]) + multiset{x}
    ensures SortedBy([s[0]] + tail, key)
  {
    var r := [s[0]] + tail;
    forall i, j | 0 <= i < j < |r| ensures !Less(key(r[j]), key(r[i])) {
      if i == 0 {
        var e := tail[j - 1];
        assert e in multiset(tail);
        if e == x {
          LessIrreflexive(key(x));
          if Less(key(x), key(s[0])) { LessTransitive(key(x), key(s[0]), key(x)); }
        } else {
          assert e in multiset(s[1..]);
          var k :| 0 <= k < |s[1..]| && s[1..][k] == e;
          assert s[k + 1] == e;
        }
      }
    }
  }

  /** Enumerable.OrderBy(key): a stable sort, ordinal on the keys. */
  function SortBy<T(==)>(s: seq<T>, key: T -> string): (r: seq<T>)
    ensures multiset(r) == multiset(s)
    ensures SortedBy(r, key)
    decreases |s|
  {
    if s == [] then []
    else
      assert s == [s[0]] + s[1..];
      InsertBy(s[0], SortBy(s[1..], key), key)
  }

  /** The identity key, for ordering plain strings. */
  function Itself(s: string): string { s }

  /** Sorted sequences of the same strings are the same sequence. */
  lemma {:induction false} SortedUnique(a: seq<string>, b: seq<string>)
    requires SortedBy(a, Itself) && SortedBy(b, Itself)
    requires multiset(a) == multiset(b)
    ensures a == b
    decreases |a|
  {
    if a == [] {
      assert |multiset(b)| == 0;
    } else {
      assert |b| == |multiset(b)| == |multiset(a)| == |a|;
      SortedHeads(a, b);
      SameTails(a, b);
      SortedTail(a);
      SortedTail(b);
      SortedUnique(a[1..], b[1..]);
    }
  }

  lemma SameTails(a: seq<string>, b: seq<string>)
    requires a != [] && b != [] && a[0] == b[0] && multiset(a) == multiset(b)
    ensures multiset(a[1..]) == multiset(b[1..])
  {
    assert a == [a[0]] + a[1..] && b == [b[0]] + b[1..];
    assert multiset(a[1..]) == multiset(a) - multiset{a[0]};
    assert multiset(b[1..]) == multiset(b) - multiset{b[0]};
  }

  lemma SortedHeads(a: seq<string>, b: seq<string>)
    requires SortedBy(a, Itself) && SortedBy(b, Itself)
    requires multiset(a) == multiset(b) && a != [] && b != []
    ensures a[0] == b[0]
  {
    assert a[0] in multiset(b);
    var j :| 0 <= j < |b| && b[j] == a[0];
    assert b[0] in multiset(a);
    var i :| 0 <= i < |a| && a[i] == b[0];
    if i != 0 { assert !Less(Itself(a[i]), Itself(a[0])); }
    if j != 0 { assert !Less(Itself(b[j]), Itself(b[0])); }
    LessTotal(a[0], b[0]);
  }

  lemma SortedTail(a: seq<string>)
    requires SortedBy(a, Itself) && a != []
    ensures SortedBy(a[1..], Itself)
  {
    forall x, y | 0 <= x < y < |a[1..]| ensures !Less(Itself(a[1..][y]), Itself(a[1..][x])) {
      assert a[1..][y] == a[y + 1] && a[1..][x] == a[x + 1];
    }
  }

  // ---------------------------------------------------------------------------------------
  // Enumerable.Reverse and the de-duplication of Enumerable.Union

  function Reverse<T>(s: seq<T>): (r: seq<T>)
    ensures |r| == |s|
    ensures forall i :: 0 <= i < |s| ==> r[i] == s[|s| - 1 - i]
  {
    seq(|s|, i requires 0 <= i < |s| => s[|s| - 1 - i])
  }

  lemma ReverseReverse<T>(s: seq<T>)
    ensures Reverse(Reverse(s)) == s
  {
  }

  lemma ReverseSnoc<T>(s: seq<T>, x: T)
    ensures Reverse(s + [x]) == [x] + Reverse(s)
  {
  }

  predicate NoDuplicates<T(==)>(s: seq<T>) {
    forall i, j :: 0 <= i < j < |s| ==> s[i] != s[j]
  }

  /** Reversing keeps the members, and keeps a sequence free of duplicates. */
  lemma ReverseMembers<T>(s: seq<T>)
    ensures forall x :: x in Reverse(s) <==> x in s
    ensures NoDuplicates(s) ==> NoDuplicates(Reverse(s))
  {
    var r := Reverse(s);
    forall x | x in s ensures x in r {
      var k :| 0 <= k < |s| && s[k] == x;
      assert r[|s| - 1 - k] == x;
    }
    if NoDuplicates(s) {
      forall i, j | 0 <= i < j < |r| ensures r[i] != r[j] {
        assert r[i] == s[|s| - 1 - i] && r[j] == s[|s| - 1 - j];
      }
    }
  }

  /** The strings of s once each, in order of first occurrence. */
  function Distinct(s: seq<string>): (r: seq<string>)
    ensures forall x :: x in r <==> x in s
    ensures NoDuplicates(r)
    decreases |s|
  {
    if s == [] then []
    else
      var d := Distinct(s[..|s| - 1]);
      assert forall x :: x in s <==> x in s[..|s| - 1] || x == s[|s| - 1] by {
        assert s == s[..|s| - 1] + [s[|s| - 1]];
      }
      if s[|s| - 1] in d then d else d + [s[|s| - 1]]
  }

  lemma DistinctSnoc(s: seq<string>, x: string)
    ensures Distinct(s + [x]) == if x in s then Distinct(s) else Distinct(s) + [x]
  {
    assert (s + [x])[..|s + [x]| - 1] == s;
  }

  /** A sequence without duplicates is its own Distinct. */
  lemma {:induction false} DistinctOfNoDuplicates(s: seq<string>)
    requires NoDuplicates(s)
    ensures Distinct(s) == s
    decreases |s|
  {
    if s != [] {
      var init := s[..|s| - 1];
      assert s == init + [s[|s| - 1]];
      DistinctOfNoDuplicates(init);
      DistinctSnoc(init, s[|s| - 1]);
    }
  }

  /** The strings of s whose occurrence is the last one, in order: s[i] with s[i] !in s[i + 1..]. */
  function LastOccurrences(s: seq<string>): seq<string>
    decreases |s|
  {
    if s == [] then [] else (if s[0] in s[1..] then [] else [s[0]]) + LastOccurrences(s[1..])
  }

  lemma ReverseAppend<T>(a: seq<T>, b: seq<T>)
    ensures Reverse(a + b) == Reverse(b) + Reverse(a)
  {
  }

  /** First-occurrence dedup of the reversed sequence keeps the last occurrences, reversed. */
  lemma {:induction false} DistinctOfReverse(s: seq<string>)
    ensures Distinct(Reverse(s)) == Reverse(LastOccurrences(s))
    decreases |s|
  {
    if s != [] {
      var h, t := s[0], s[1..];
      assert s == [h] + t;
      ReverseAppend([h], t);
      assert Reverse([h]) == [h];
      DistinctOfReverse(t);
      DistinctSnoc(Reverse(t), h);
      ReverseMembers(t);
      var kept: seq<string> := if h in t then [] else [h];
      assert LastOccurrences(s) == kept + LastOccurrences(t);
      ReverseAppend(kept, LastOccurrences(t));
      assert Reverse(kept) == kept;
    }
  }

  /** Concatenation regroups; stated over plain sequences so that callers need not unfold their own functions. */
  lemma ConcatAssociative<T>(u: seq<T>, v: seq<T>, w: seq<T>)
    ensures u + (v + w) == (u + v) + w
  {
  }
}
