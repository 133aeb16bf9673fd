/**
 * `getCookie` of the product cards: `document.cookie` split on ';', each
 * entry trimmed, and the first entry that begins with `name=` decoded. The
 * decoding function (`decodeURIComponent`) is a parameter.
 */
module Cookies {
  import opened Text
  import opened Wrappers

  /** The trimmed entries of a cookie string, in order. */
  function Entries(cookie: string): seq<string>
  {
    var parts := Split(cookie, ';');
    seq(|parts|, i requires 0 <= i < |parts| => Trim(parts[i]))
  }

  /** `entry` is the cookie called `name`: it begins with exactly `name=`. */
  predicate Names(entry: string, name: string)
  {
    StartsWith(entry, name + "=")
  }

  /** JavaScript's `s.substring(0, n)` for `n >= 0`: the first `n` characters, or all of them. */
  function Prefix(s: string, n: nat): (r: string)
    ensures |r| == if n <= |s| then n else |s|
    ensures r == s[..|r|]
  {
    if n <= |s| then s[..n] else s
  }

  /** The comparison the loop makes is exactly "begins with `name=`". */
  lemma PrefixComparison(entry: string, name: string)
    ensures Prefix(entry, |name| + 1) == name + "=" <==> Names(entry, name)
  {
  }

  /** Entry `i` is the first one naming the cookie `name`. */
  predicate FirstNamedAt(entries: seq<string>, name: string, i: nat)
  {
    i < |entries| && Names(entries[i], name) &&
    forall j :: 0 <= j < i ==> !Names(entries[j], name)
  }

  /**
   * `getCookie(name)` on the cookie string `cookie`: nothing for an empty
   * string or when no entry names the cookie; otherwise the decoded text
   * after `name=` in the first entry that does.
   */
  method GetCookie(cookie: string, name: string, decode: string -> string) returns (value: Option<string>)
    ensures cookie == "" ==> value == None
    ensures value.Some? <==>
              cookie != "" && exists i :: 0 <= i < |Entries(cookie)| && Names(Entries(cookie)[i], name)
    ensures value.Some? ==>
              exists i: nat :: FirstNamedAt(Entries(cookie), name, i) &&
                value.value == decode(Entries(cookie)[i][|name| + 1..])
  {
    value := None;
    if cookie != "" {
      var cookies := Split(cookie, ';');
      ghost var entries := Entries(cookie);
      var i := 0;
      while i < |cookies|
        invariant 0 <= i <= |cookies| == |entries|
        invariant value == None
        invariant forall j :: 0 <= j < i ==> !Names(entries[j], name)
      {
        var entry := Trim(cookies[i]);
        assert entry == entries[i];
        PrefixComparison(entry, name);
        if Prefix(entry, |name| + 1) == name + "=" {
          value := Some(decode(entry[|name| + 1..]));
          assert FirstNamedAt(entries, name, i);
          break;
        }
        i := i + 1;
      }
    }
  }

  /**
   * A cookie whose name merely extends `name` (`csrftoken2` for `csrftoken`)
   * is not the cookie `name`: the character after `name` is not '='.
   */
  lemma LongerNameNotMatched(entry: string, name: string, suffix: string)
    requires suffix != [] && suffix[0] != '='
    requires Names(entry, name + suffix)
    ensures !Names(entry, name)
  {
    assert entry[|name|] == (name + suffix + "=")[|name|] == suffix[0];
  }

  lemma CookieEntries(first: string, second: string)
    requires first == "csrftoken2=a" && second == "csrftoken=b"
    ensures Entries(first + ";" + [' '] + second) == [first, second]
  {
    var rest := [' '] + second;
    assert first + ";" + rest == first + [';'] + rest;
    SplitAtFirst(first, ';', rest);
    assert ';' !in rest;
    SplitPieces(rest, ';');
    var parts := Split(first + ";" + rest, ';');
    assert parts == [first, rest];
    TrimNoOp(first);
    TrimNoOp(second);
    assert rest[1..] == second;
    assert Trim(rest) == second;
    assert first + ";" + [' '] + second == first + ";" + rest;
    var e := Entries(first + ";" + rest);
    assert |e| == 2 && e[0] == first && e[1] == second;
  }

  /** Looking up `csrftoken` skips a leading `csrftoken2` entry and finds the later one. */
  method LookupSkipsLongerName(decode: string -> string) returns (value: Option<string>)
    ensures value == Some(decode("b"))
  {
    var first, second := "csrftoken2=a", "csrftoken=b";
    var cookie := first + ";" + [' '] + second;
    CookieEntries(first, second);
    assert first == "csrftoken" + "2" + "=a";
    LongerNameNotMatched(first, "csrftoken", "2");
    ghost var entries := Entries(cookie);
    assert entries[1] == second && Names(entries[1], "csrftoken");
    value := GetCookie(cookie, "csrftoken", decode);
    ghost var i: nat :| FirstNamedAt(entries, "csrftoken", i) && value.value == decode(entries[i][|"csrftoken"| + 1..]);
    assert i == 1;
    assert second[10..] == "b";
  }
}
