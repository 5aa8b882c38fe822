/**
 * The few Swift/Foundation string operations the core relies on:
 * `starts(with:)`, `contains(_:)`, `trimmingCharacters(in: .whitespacesAndNewlines)`,
 * `split(separator:)` and `joined()`, each over `seq<char>`.
 */
module Strings {

  /** `s.starts(with: prefix)`. */
  predicate StartsWith(s: string, prefix: string) {
    |prefix| <= |s| && s[..|prefix|] == prefix
  }

  /** `s.hasSuffix(suffix)`. */
  predicate EndsWith(s: string, suffix: string) {
    |suffix| <= |s| && s[|s| - |suffix|..] == suffix
  }

  /** Foundation's substring test `s.contains(sub)`. */
  predicate Contains(s: string, sub: string)
    decreases |s|
  {
    StartsWith(s, sub) || (s != [] && Contains(s[1..], sub))
  }

  /** `sub` occurs in `s` starting at index `i`. */
  predicate OccursAt(s: string, sub: string, i: int) {
    0 <= i <= |s| - |sub| && s[i..i + |sub|] == sub
  }

  /** `Contains` agrees with the positional definition of "occurs as a substring". */
  lemma {:induction false} ContainsIff(s: string, sub: string)
    ensures Contains(s, sub) <==> exists i :: OccursAt(s, sub, i)
    decreases |s|
  {
    if StartsWith(s, sub) {
      assert OccursAt(s, sub, 0);
    } else if s != [] {
      ContainsIff(s[1..], sub);
      if Contains(s[1..], sub) {
        var i :| OccursAt(s[1..], sub, i);
        assert s[1..][i..i + |sub|] == s[i + 1..i + 1 + |sub|];
        assert OccursAt(s, sub, i + 1);
      }
      if i :| OccursAt(s, sub, i) {
        assert i != 0;
        assert s[1..][i - 1..i - 1 + |sub|] == s[i..i + |sub|];
        assert OccursAt(s[1..], sub, i - 1);
      }
    }
  }

  /**
   * The characters `CharacterSet.whitespacesAndNewlines` holds: the Unicode
   * space, line and paragraph separators, U+0009 to U+000D and U+0085.
   */
  predicate IsWhitespace(c: char) {
    var n := c as int;
    n == 0x20 || (0x09 <= n <= 0x0D) || n == 0x85 || n == 0xA0 || n == 0x1680
    || (0x2000 <= n <= 0x200A) || n == 0x2028 || n == 0x2029 || n == 0x202F
    || n == 0x205F || n == 0x3000
  }

  /** Drops the leading whitespace. */
  function TrimStart(s: string): string {
    if s != [] && IsWhitespace(s[0]) then TrimStart(s[1..]) else s
  }

  /** Drops the trailing whitespace. */
  function TrimEnd(s: string): string {
    if s != [] && IsWhitespace(s[|s| - 1]) then TrimEnd(s[..|s| - 1]) else s
  }

  /** `s.trimmingCharacters(in: .whitespacesAndNewlines)`. */
  function Trim(s: string): string {
    TrimEnd(TrimStart(s))
  }

  /** What `TrimStart` leaves is a suffix that starts with a non-whitespace character, after only whitespace. */
  lemma {:induction false} TrimStartSpec(s: string)
    ensures var r := TrimStart(s);
            && |r| <= |s| && r == s[|s| - |r|..]
            && (r == [] || !IsWhitespace(r[0]))
            && (forall k :: 0 <= k < |s| - |r| ==> IsWhitespace(s[k]))
  {
    if s != [] && IsWhitespace(s[0]) {
      var t := s[1..];
      var r := TrimStart(t);
      assert TrimStart(s) == r;
      TrimStartSpec(t);
      assert t[|t| - |r|..] == s[|s| - |r|..];
      forall k | 0 <= k < |s| - |r|
        ensures IsWhitespace(s[k])
      {
        if k > 0 {
          assert s[k] == t[k - 1];
        }
      }
    }
  }

  /** What `TrimEnd` leaves is a prefix that ends with a non-whitespace character, before only whitespace. */
  lemma {:induction false} TrimEndSpec(s: string)
    ensures var r := TrimEnd(s);
            && |r| <= |s| && r == s[..|r|]
            && (r == [] || !IsWhitespace(r[|r| - 1]))
            && (forall k :: |r| <= k < |s| ==> IsWhitespace(s[k]))
  {
    if s != [] && IsWhitespace(s[|s| - 1]) {
      var t := s[..|s| - 1];
      var r := TrimEnd(t);
      assert TrimEnd(s) == r;
      TrimEndSpec(t);
      assert t[..|r|] == s[..|r|];
      forall k | |r| <= k < |s|
        ensures IsWhitespace(s[k])
      {
        if k < |s| - 1 {
          assert s[k] == t[k];
        }
      }
    }
  }

  /** `r` is the slice of `s` at `i` and everything of `s` around it is whitespace. */
  predicate TrimmedAt(s: string, r: string, i: int) {
    && 0 <= i <= |s| - |r| && r == s[i..i + |r|]
    && (forall k :: 0 <= k < i ==> IsWhitespace(s[k]))
    && (forall k :: i + |r| <= k < |s| ==> IsWhitespace(s[k]))
  }

  /**
   * Trimming leaves the slice of `s` that remains once the whitespace at both
   * ends is cut off: no whitespace at its ends, nothing but whitespace around it.
   */
  lemma TrimSpec(s: string)
    ensures var r := Trim(s);
            && (r == [] || (!IsWhitespace(r[0]) && !IsWhitespace(r[|r| - 1])))
            && exists i :: TrimmedAt(s, r, i)
  {
    var t := TrimStart(s);
    var r := TrimEnd(t);
    TrimStartSpec(s);
    TrimEndSpec(t);
    assert r == s[|s| - |t|..|s| - |t| + |r|];
    assert TrimmedAt(s, r, |s| - |t|);
  }

  /** A string with no whitespace at either end is its own trim; so trimming is idempotent. */
  lemma TrimOfTrimmed(s: string)
    requires s == [] || (!IsWhitespace(s[0]) && !IsWhitespace(s[|s| - 1]))
    ensures Trim(s) == s
  {
    if s != [] {
      assert TrimStart(s) == s;
      assert TrimEnd(s) == s;
    }
  }

  lemma TrimIdempotent(s: string)
    ensures Trim(Trim(s)) == Trim(s)
  {
    TrimSpec(s);
    TrimOfTrimmed(Trim(s));
  }

  /** `TrimStart` drops a leading run of whitespace and stops at the first other character. */
  lemma {:induction false} TrimStartSkips(lead: string, rest: string)
    requires forall k :: 0 <= k < |lead| ==> IsWhitespace(lead[k])
    requires rest == [] || !IsWhitespace(rest[0])
    ensures TrimStart(lead + rest) == rest
    decreases lead
  {
    if lead == [] {
      assert lead + rest == rest;
    } else {
      assert (lead + rest)[0] == lead[0];
      assert (lead + rest)[1..] == lead[1..] + rest;
      TrimStartSkips(lead[1..], rest);
    }
  }

  /** `TrimEnd` drops a trailing run of whitespace and stops at the last other character. */
  lemma {:induction false} TrimEndSkips(rest: string, trail: string)
    requires forall k :: 0 <= k < |trail| ==> IsWhitespace(trail[k])
    requires rest == [] || !IsWhitespace(rest[|rest| - 1])
    ensures TrimEnd(rest + trail) == rest
    decreases trail
  {
    if trail == [] {
      assert rest + trail == rest;
    } else {
      var t := rest + trail;
      assert t[|t| - 1] == trail[|trail| - 1];
      assert t[..|t| - 1] == rest + trail[..|trail| - 1];
      TrimEndSkips(rest, trail[..|trail| - 1]);
    }
  }

  /** Trimming a word wrapped in whitespace gives the word. */
  lemma TrimAround(lead: string, word: string, trail: string)
    requires forall k :: 0 <= k < |lead| ==> IsWhitespace(lead[k])
    requires forall k :: 0 <= k < |trail| ==> IsWhitespace(trail[k])
    requires word == [] || (!IsWhitespace(word[0]) && !IsWhitespace(word[|word| - 1]))
    ensures Trim(lead + word + trail) == word
  {
    AppendAssoc(lead, word, trail);
    if word == [] {
      assert lead + word + trail == lead + trail;
      TrimStartSkips(lead + trail, []);
      assert forall k :: 0 <= k < |lead + trail| ==> IsWhitespace((lead + trail)[k]);
      assert lead + trail + [] == lead + trail;
    } else {
      TrimStartSkips(lead, word + trail);
      TrimEndSkips(word, trail);
    }
  }

  /** Trimming cuts a trailing newline off a string that has no whitespace at its ends. */
  lemma TrimDropsFinalNewline(s: string)
    requires s != [] && !IsWhitespace(s[0]) && !IsWhitespace(s[|s| - 1])
    ensures Trim(s + "\n") == s
  {
    var t := s + "\n";
    assert TrimStart(t) == t;
    assert t[..|t| - 1] == s;
    assert TrimEnd(t) == TrimEnd(s) == s;
  }

  /** All pieces of `s` between occurrences of `sep`, empty ones included. */
  function SplitOn(s: string, sep: char): (pieces: seq<string>)
    ensures |pieces| >= 1
    ensures forall i :: 0 <= i < |pieces| ==> sep !in pieces[i]
  {
    if s == [] then [""]
    else
      var rest := SplitOn(s[1..], sep);
      if s[0] == sep then [""] + rest
      else [[s[0]] + rest[0]] + rest[1..]
  }

  /** The pieces with one `sep` between neighbours. */
  function JoinWith(pieces: seq<string>, sep: char): string {
    if |pieces| == 0 then ""
    else if |pieces| == 1 then pieces[0]
    else pieces[0] + [sep] + JoinWith(pieces[1..], sep)
  }

  /** Joining one piece more adds a separator and that piece at the end. */
  lemma {:induction false} JoinWithAppend(pieces: seq<string>, last: string, sep: char)
    requires pieces != []
    ensures JoinWith(pieces + [last], sep) == JoinWith(pieces, sep) + [sep] + last
  {
    if |pieces| > 1 {
      assert (pieces + [last])[1..] == pieces[1..] + [last];
      JoinWithAppend(pieces[1..], last, sep);
    }
  }

  /** Joining two non-empty lists one after the other puts one separator between their joins. */
  lemma {:induction false} JoinWithConcat(a: seq<string>, b: seq<string>, sep: char)
    requires a != [] && b != []
    ensures JoinWith(a + b, sep) == JoinWith(a, sep) + [sep] + JoinWith(b, sep)
    decreases |a|
  {
    if |a| == 1 {
      assert (a + b)[1..] == b;
      assert (a + b)[0] == a[0];
    } else {
      assert (a + b)[1..] == a[1..] + b;
      assert (a + b)[0] == a[0];
      JoinWithConcat(a[1..], b, sep);
      AppendAssoc(a[0] + [sep], JoinWith(a[1..], sep), [sep] + JoinWith(b, sep));
      AppendAssoc(a[0] + [sep] + JoinWith(a[1..], sep), [sep], JoinWith(b, sep));
    }
  }

  /** Splitting and joining again gives back the string. */
  lemma {:induction false} JoinSplitOn(s: string, sep: char)
    ensures JoinWith(SplitOn(s, sep), sep) == s
  {
    if s != [] {
      var rest := SplitOn(s[1..], sep);
      JoinSplitOn(s[1..], sep);
      if s[0] == sep {
        assert ([""] + rest)[1..] == rest;
      } else {
        var ps := [[s[0]] + rest[0]] + rest[1..];
        assert ps[1..] == rest[1..];
        if |rest| > 1 {
          assert JoinWith(rest, sep) == rest[0] + [sep] + JoinWith(rest[1..], sep);
        }
      }
    }
  }

  lemma {:induction false} SplitOnWithoutSeparator(s: string, sep: char)
    requires sep !in s
    ensures SplitOn(s, sep) == [s]
  {
    if s != [] {
      SplitOnWithoutSeparator(s[1..], sep);
      assert [s[0]] + s[1..] == s;
    }
  }

  /** A separator splits the string into the pieces of its left and of its right side. */
  lemma {:induction false} SplitOnAround(a: string, b: string, sep: char)
    ensures SplitOn(a + [sep] + b, sep) == SplitOn(a, sep) + SplitOn(b, sep)
  {
    var s := a + [sep] + b;
    if a == [] {
      assert s[1..] == b;
    } else {
      assert s[1..] == a[1..] + [sep] + b;
      SplitOnAround(a[1..], b, sep);
    }
  }

  /** Joining pieces that hold no separator and splitting again gives back the pieces. */
  lemma {:induction false} SplitOnJoinWith(pieces: seq<string>, sep: char)
    requires |pieces| >= 1
    requires forall i :: 0 <= i < |pieces| ==> sep !in pieces[i]
    ensures SplitOn(JoinWith(pieces, sep), sep) == pieces
  {
    if |pieces| == 1 {
      SplitOnWithoutSeparator(pieces[0], sep);
    } else {
      SplitOnJoinWith(pieces[1..], sep);
      SplitOnWithoutSeparator(pieces[0], sep);
      SplitOnAround(pieces[0], JoinWith(pieces[1..], sep), sep);
      assert [pieces[0]] + pieces[1..] == pieces;
    }
  }

  /** The non-empty pieces, in order. */
  function NonEmpty(pieces: seq<string>): (r: seq<string>)
    ensures forall i :: 0 <= i < |r| ==> r[i] != "" && r[i] in pieces
  {
    if pieces == [] then []
    else (if pieces[0] == "" then [] else [pieces[0]]) + NonEmpty(pieces[1..])
  }

  lemma {:induction false} NonEmptyAppend(a: seq<string>, b: seq<string>)
    ensures NonEmpty(a + b) == NonEmpty(a) + NonEmpty(b)
  {
    if a != [] {
      assert (a + b)[1..] == a[1..] + b;
      NonEmptyAppend(a[1..], b);
    } else {
      assert a + b == b;
    }
  }

  /** `s.split(separator: " ")`: Swift omits the empty pieces. */
  function Words(s: string): (words: seq<string>)
    ensures forall i :: 0 <= i < |words| ==> words[i] != "" && ' ' !in words[i]
  {
    NonEmpty(SplitOn(s, ' '))
  }

  /** `s.split(separator: " ").count`. */
  function WordCount(s: string): nat {
    |Words(s)|
  }

  /** Only spaces (or nothing at all): no words. */
  lemma {:induction false} WordCountOfSpaces(s: string)
    requires forall k :: 0 <= k < |s| ==> s[k] == ' '
    ensures WordCount(s) == 0
  {
    if s != [] {
      WordCountOfSpaces(s[1..]);
      assert Words(s) == NonEmpty([""] + SplitOn(s[1..], ' '));
      NonEmptyAppend([""], SplitOn(s[1..], ' '));
    }
  }

  /** A non-empty run without spaces is one word. */
  lemma WordCountOfWord(s: string)
    requires s != [] && ' ' !in s
    ensures WordCount(s) == 1
  {
    SplitOnWithoutSeparator(s, ' ');
    assert NonEmpty([s]) == [s] + NonEmpty([]);
  }

  /** A space separates: the words of `a + " " + b` are those of `a` followed by those of `b`. */
  lemma WordCountAroundSpace(a: string, b: string)
    ensures Words(a + " " + b) == Words(a) + Words(b)
    ensures WordCount(a + " " + b) == WordCount(a) + WordCount(b)
  {
    SplitOnAround(a, b, ' ');
    NonEmptyAppend(SplitOn(a, ' '), SplitOn(b, ' '));
  }

  /** Concatenation regrouped, as a fact the solver can use without searching for it. */
  lemma AppendAssoc(a: string, b: string, c: string)
    ensures a + (b + c) == a + b + c
  {
  }

  /** `joined()` of a list of strings, built from the end. */
  function Concat(parts: seq<string>): string {
    if parts == [] then "" else Concat(parts[..|parts| - 1]) + parts[|parts| - 1]
  }

  lemma {:induction false} ConcatAppend(a: seq<string>, b: seq<string>)
    ensures Concat(a + b) == Concat(a) + Concat(b)
    decreases |b|
  {
    if b == [] {
      assert a + b == a;
    } else {
      assert (a + b)[..|a + b| - 1] == a + b[..|b| - 1];
      ConcatAppend(a, b[..|b| - 1]);
    }
  }

  lemma ConcatSnoc(parts: seq<string>, last: string)
    ensures Concat(parts + [last]) == Concat(parts) + last
  {
    assert (parts + [last])[..|parts|] == parts;
  }
}
