/**
 * String helpers shared by the page scripts and the views: the whitespace set
 * of JavaScript's `trim` and `\s`, ASCII case folding, substring search, and
 * splitting on a separator character the way `String.prototype.split` and
 * Python's `str.split` do for a one-character separator.
 */
module Text {

  /** The characters JavaScript's `trim()` removes and its regex class `\s` matches. */
  predicate IsSpace(c: char)
  {
    var n := c as int;
    (9 <= n <= 13) || n == 32 || n == 0xA0 || n == 0x1680 ||
    (0x2000 <= n <= 0x200A) || n == 0x2028 || n == 0x2029 ||
    n == 0x202F || n == 0x205F || n == 0x3000 || n == 0xFEFF
  }

  predicate AllSpace(s: string)
  {
    forall i :: 0 <= i < |s| ==> IsSpace(s[i])
  }

  predicate IsAsciiLetter(c: char)
  {
    ('a' <= c <= 'z') || ('A' <= c <= 'Z')
  }

  predicate IsAsciiDigit(c: char)
  {
    '0' <= c <= '9'
  }

  predicate IsAsciiAlnum(c: char)
  {
    IsAsciiLetter(c) || IsAsciiDigit(c)
  }

  function TrimStart(s: string): string
  {
    if s != [] && IsSpace(s[0]) then TrimStart(s[1..]) else s
  }

  function TrimEnd(s: string): string
  {
    if s != [] && IsSpace(s[|s| - 1]) then TrimEnd(s[..|s| - 1]) else s
  }

  /** JavaScript's `trim()`: whitespace removed from both ends. */
  function Trim(s: string): string
  {
    TrimEnd(TrimStart(s))
  }

  lemma {:induction false} TrimStartSplit(s: string) returns (lead: string)
    ensures s == lead + TrimStart(s) && AllSpace(lead)
    ensures TrimStart(s) == [] || !IsSpace(TrimStart(s)[0])
    decreases |s|
  {
    if s != [] && IsSpace(s[0]) {
      var rest := TrimStartSplit(s[1..]);
      lead := [s[0]] + rest;
      assert s == [s[0]] + s[1..];
    } else {
      lead := [];
    }
  }

  lemma {:induction false} TrimEndSplit(s: string) returns (trail: string)
    ensures s == TrimEnd(s) + trail && AllSpace(trail)
    ensures TrimEnd(s) == [] || !IsSpace(TrimEnd(s)[|TrimEnd(s)| - 1])
    decreases |s|
  {
    if s != [] && IsSpace(s[|s| - 1]) {
      var rest := TrimEndSplit(s[..|s| - 1]);
      trail := rest + [s[|s| - 1]];
      assert s == s[..|s| - 1] + [s[|s| - 1]];
    } else {
      trail := [];
    }
  }

  /** Trimming only takes whitespace off the two ends, and leaves none at either end. */
  lemma TrimSurround(s: string) returns (lead: string, trail: string)
    ensures s == lead + Trim(s) + trail
    ensures AllSpace(lead) && AllSpace(trail)
    ensures Trim(s) == [] || (!IsSpace(Trim(s)[0]) && !IsSpace(Trim(s)[|Trim(s)| - 1]))
  {
    lead := TrimStartSplit(s);
    var t := TrimStart(s);
    trail := TrimEndSplit(t);
    if Trim(s) != [] {
      assert Trim(s)[0] == t[0];
    }
  }

  /** A string with no whitespace at either end is its own trim. */
  lemma TrimNoOp(s: string)
    requires s == [] || (!IsSpace(s[0]) && !IsSpace(s[|s| - 1]))
    ensures Trim(s) == s
  {
  }

  function LowerChar(c: char): char
  {
    if 'A' <= c <= 'Z' then (c as int + 32) as char else c
  }

  /** `toLowerCase()` / `lower()` restricted to the ASCII letters. */
  function Lower(s: string): (r: string)
    ensures |r| == |s|
    ensures forall i :: 0 <= i < |s| ==> r[i] == LowerChar(s[i])
  {
    seq(|s|, i requires 0 <= i < |s| => LowerChar(s[i]))
  }

  predicate StartsWith(s: string, prefix: string)
  {
    |prefix| <= |s| && s[..|prefix|] == prefix
  }

  /** JavaScript's `s.includes(t)`: `t` occurs somewhere in `s`. */
  predicate Contains(s: string, t: string)
  {
    exists i :: 0 <= i <= |s| && StartsWith(s[i..], t)
  }

  /** `t` occurs in `s` exactly when it is the slice of `s` between some two positions. */
  lemma ContainsIffSlice(s: string, t: string)
    ensures Contains(s, t) <==> exists i, j :: 0 <= i <= j <= |s| && s[i..j] == t
  {
    if Contains(s, t) {
      var i :| 0 <= i <= |s| && StartsWith(s[i..], t);
      assert s[i..i + |t|] == s[i..][..|t|];
    }
    if exists i, j :: 0 <= i <= j <= |s| && s[i..j] == t {
      var i, j :| 0 <= i <= j <= |s| && s[i..j] == t;
      assert s[i..][..|t|] == t;
    }
  }

  /** Every string includes the empty string. */
  lemma ContainsEmpty(s: string)
    ensures Contains(s, "")
  {
    assert StartsWith(s[0..], "");
  }

  /**
   * `s.split(sep)` for a one-character separator: the maximal pieces between
   * separators, in order, with an empty piece before a leading separator,
   * after a trailing one and between two adjacent ones.
   */
  function Split(s: string, sep: char): (parts: seq<string>)
    ensures |parts| >= 1
    decreases |s|
  {
    if s == [] then [""]
    else
      var rest := Split(s[1..], sep);
      assert s == [s[0]] + s[1..];
      if s[0] == sep then [""] + rest
      else [[s[0]] + rest[0]] + rest[1..]
  }

  /**
   * A string without the separator is one piece; a string with it is at least
   * two; and no piece holds the separator.
   */
  lemma {:induction false} SplitPieces(s: string, sep: char)
    ensures sep !in s ==> Split(s, sep) == [s]
    ensures sep in s ==> |Split(s, sep)| >= 2
    ensures forall j :: 0 <= j < |Split(s, sep)| ==> sep !in Split(s, sep)[j]
    decreases |s|
  {
    if s != [] {
      var rest := Split(s[1..], sep);
      SplitPieces(s[1..], sep);
      assert s == [s[0]] + s[1..];
      if s[0] != sep {
        var parts := Split(s, sep);
        forall j | 0 <= j < |parts| ensures sep !in parts[j] {
          if j > 0 {
            assert parts[j] == rest[j];
          }
        }
      }
    }
  }

  /** Splitting at a first separator: the text before it is the first piece, the rest splits on its own. */
  lemma {:induction false} SplitAtFirst(a: string, sep: char, b: string)
    requires sep !in a
    ensures Split(a + [sep] + b, sep) == [a] + Split(b, sep)
    decreases |a|
  {
    if a == [] {
      assert a + [sep] + b == [sep] + b;
    } else {
      SplitAtFirst(a[1..], sep, b);
      assert (a + [sep] + b)[1..] == a[1..] + [sep] + b;
      assert a == [a[0]] + a[1..];
    }
  }

  /** The inverse of Split: the pieces glued back together with the separator. */
  function Join(parts: seq<string>, sep: char): string
  {
    if parts == [] then ""
    else if |parts| == 1 then parts[0]
    else parts[0] + [sep] + Join(parts[1..], sep)
  }

  /** Joining a first piece in front of at least one more puts a separator after it. */
  lemma JoinCons(first: string, rest: seq<string>, sep: char)
    requires rest != []
    ensures Join([first] + rest, sep) == first + [sep] + Join(rest, sep)
  {
    assert ([first] + rest)[1..] == rest;
  }

  /** Splitting loses nothing: joining the pieces gives back the string. */
  lemma {:induction false} JoinSplit(s: string, sep: char)
    ensures Join(Split(s, sep), sep) == s
    decreases |s|
  {
    if s != [] {
      var rest := Split(s[1..], sep);
      JoinSplit(s[1..], sep);
      assert s == [s[0]] + s[1..];
      if s[0] == sep {
        JoinCons("", rest, sep);
      } else if |rest| == 1 {
        assert Split(s, sep) == [[s[0]] + rest[0]];
      } else {
        var tail := rest[1..];
        assert rest == [rest[0]] + tail;
        JoinCons(rest[0], tail, sep);
        JoinCons([s[0]] + rest[0], tail, sep);
      }
    }
  }

  function Last(parts: seq<string>): string
    requires parts != []
  {
    parts[|parts| - 1]
  }

  /** The last piece of a split is everything after the last separator. */
  lemma {:induction false} LastPieceAfter(s: string, sep: char, j: nat)
    requires j < |s| && s[j] == sep && sep !in s[j + 1..]
    ensures Last(Split(s, sep)) == s[j + 1..]
    decreases j
  {
    var rest := Split(s[1..], sep);
    if j == 0 {
      SplitPieces(s[1..], sep);
      assert s[1..] == s[j + 1..];
    } else {
      assert s[1..][j..] == s[j + 1..];
      LastPieceAfter(s[1..], sep, j - 1);
      assert s[1..][j - 1] == sep;
      SplitPieces(s[1..], sep);
      assert |rest| >= 2;
    }
  }

  /** Python's `s.replace(c, '')`: every occurrence of `c` deleted. */
  function Remove(s: string, c: char): string
  {
    if s == [] then ""
    else if s[0] == c then Remove(s[1..], c)
    else [s[0]] + Remove(s[1..], c)
  }

  /** What is left after the deletion is every other character of `s`, and only those. */
  lemma {:induction false} RemoveMembers(s: string, c: char)
    ensures forall x :: x in Remove(s, c) <==> x in s && x != c
    decreases |s|
  {
    if s != [] {
      RemoveMembers(s[1..], c);
      assert s == [s[0]] + s[1..];
    }
  }

  /** Python's `str.isalnum()` on the ASCII alphabet: non-empty and made of letters and digits only. */
  predicate IsAlnum(s: string)
    ensures IsAlnum(s) <==> s != [] && forall c :: c in s ==> IsAsciiAlnum(c)
  {
    |s| > 0 && forall i :: 0 <= i < |s| ==> IsAsciiAlnum(s[i])
  }
}
