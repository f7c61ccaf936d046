/**
  * The string handling the router is built from: JavaScript's `s.split('/')`,
  * `parts.filter(Boolean)` (which drops the empty pieces), `startsWith(':')`,
  * and the `${path}/${name}` keys that the route indexer builds.
  */
module Paths {

  /** `s.split(sep)`: the pieces between separators, empty pieces included. */
  function Split(s: string, sep: char): (r: seq<string>)
    ensures |r| >= 1
    ensures forall i :: 0 <= i < |r| ==> sep !in r[i]
  {
    if |s| == 0 then [""]
    else
      var rest := Split(s[1..], sep);
      if s[0] == sep then [""] + rest
      else [[s[0]] + rest[0]] + rest[1..]
  }

  /** `parts.filter(Boolean)`: keeps the non-empty pieces, in order. */
  function NonEmpty(parts: seq<string>): (r: seq<string>)
    ensures |r| <= |parts|
    ensures forall x :: x in r <==> x in parts && x != ""
  {
    if parts == [] then []
    else (if parts[0] == "" then [] else [parts[0]]) + NonEmpty(parts[1..])
  }

  /** `s.split('/').filter(Boolean)`: the non-empty segments of a path. */
  function Segments(s: string): (r: seq<string>)
    ensures forall i :: 0 <= i < |r| ==> r[i] != "" && '/' !in r[i]
  {
    var parts := Split(s, '/');
    assert forall i :: 0 <= i < |NonEmpty(parts)| ==> NonEmpty(parts)[i] in parts;
    NonEmpty(parts)
  }

  /** A request path as the matcher sees it: its segments, or `['/']` when it has none. */
  function RequestSegments(pathname: string): (r: seq<string>)
    ensures |r| >= 1
  {
    var parts := Segments(pathname);
    if |parts| == 0 then ["/"] else parts
  }

  /** `part.startsWith(':')`: the segment is a route parameter. */
  predicate IsParam(part: string) {
    |part| > 0 && part[0] == ':'
  }

  /** A file or directory name as a filesystem gives it: non-empty, without a separator. */
  predicate ValidName(name: string) {
    name != "" && '/' !in name
  }

  predicate ValidNames(names: seq<string>) {
    forall i :: 0 <= i < |names| ==> ValidName(names[i])
  }

  /** The key the indexer builds for the path `names` below the routes root: `/n1/n2/.../nk`. */
  function KeyOf(names: seq<string>): string {
    if names == [] then "" else "/" + names[0] + KeyOf(names[1..])
  }

  /** Splitting text that starts with a separator-free prefix `a` glues `a` onto the first piece. */
  lemma {:induction false} SplitPrefix(a: string, rest: string, sep: char)
    requires sep !in a
    ensures Split(a + rest, sep) == [a + Split(rest, sep)[0]] + Split(rest, sep)[1..]
  {
    if a == [] {
      assert a + rest == rest;
      var r := Split(rest, sep);
      assert a + r[0] == r[0];
      assert [r[0]] + r[1..] == r;
    } else {
      assert (a + rest)[1..] == a[1..] + rest;
      SplitPrefix(a[1..], rest, sep);
      assert [a[0]] + (a[1..] + Split(rest, sep)[0]) == a + Split(rest, sep)[0];
    }
  }

  /** A key splits back into the empty root piece followed by the names it was built from. */
  lemma {:induction false} SplitKey(names: seq<string>)
    requires forall i :: 0 <= i < |names| ==> '/' !in names[i]
    ensures Split(KeyOf(names), '/') == [""] + names
  {
    if names != [] {
      var tail := KeyOf(names[1..]);
      SplitKey(names[1..]);
      assert KeyOf(names) == "/" + (names[0] + tail);
      assert ("/" + (names[0] + tail))[1..] == names[0] + tail;
      SplitPrefix(names[0], tail, '/');
      assert names[0] + "" == names[0];
      assert [names[0]] + names[1..] == names;
    }
  }

  /** Filtering a list without empty pieces leaves it unchanged. */
  lemma {:induction false} NonEmptyKeepsAll(parts: seq<string>)
    requires forall i :: 0 <= i < |parts| ==> parts[i] != ""
    ensures NonEmpty(parts) == parts
  {
    if parts != [] {
      NonEmptyKeepsAll(parts[1..]);
    }
  }

  /** The segments of a key built from valid names are exactly those names. */
  lemma SegmentsOfKey(names: seq<string>)
    requires ValidNames(names)
    ensures Segments(KeyOf(names)) == names
  {
    SplitKey(names);
    NonEmptyKeepsAll(names);
    assert ([""] + names)[1..] == names;
  }

  /**
    * Normalisation: a path has no segments exactly when it is made of
    * separators only, so `''`, `'/'` and `'//'` are all the root.
    */
  lemma {:induction false} SegmentsEmptyIff(s: string)
    ensures Segments(s) == [] <==> forall i :: 0 <= i < |s| ==> s[i] == '/'
  {
    if s != [] {
      SegmentsEmptyIff(s[1..]);
      var rest := Split(s[1..], '/');
      if s[0] == '/' {
        assert ([""] + rest)[1..] == rest;
        assert forall i :: 1 <= i < |s| ==> s[i] == s[1..][i - 1];
      } else {
        var first := [s[0]] + rest[0];
        assert Split(s, '/')[0] == first && first != "";
        assert first in Segments(s);
      }
    }
  }

  /** The request path is the root `['/']` exactly when the pathname is made of separators only. */
  lemma RequestSegmentsRoot(pathname: string)
    ensures RequestSegments(pathname) == ["/"] <==> forall i :: 0 <= i < |pathname| ==> pathname[i] == '/'
  {
    SegmentsEmptyIff(pathname);
    var parts := Segments(pathname);
    if parts != [] {
      assert '/' in ["/"][0];
      assert parts != ["/"];
    }
  }

  /** Text without a separator is a single piece. */
  lemma SplitWhole(s: string, sep: char)
    requires sep !in s
    ensures Split(s, sep) == [s]
  {
    SplitPrefix(s, "", sep);
    assert s + "" == s;
  }

  /** Splitting around one separator splits each side. */
  lemma {:induction false} SplitAround(a: string, b: string, sep: char)
    ensures Split(a + [sep] + b, sep) == Split(a, sep) + Split(b, sep)
  {
    if a == [] {
      assert a + [sep] + b == [sep] + b;
      assert ([sep] + b)[1..] == b;
    } else {
      assert (a + [sep] + b)[1..] == a[1..] + [sep] + b;
      SplitAround(a[1..], b, sep);
    }
  }

  /** `filter` distributes over concatenation. */
  lemma {:induction false} NonEmptyAppend(a: seq<string>, b: seq<string>)
    ensures NonEmpty(a + b) == NonEmpty(a) + NonEmpty(b)
  {
    if a != [] {
      assert (a + b)[1..] == a[1..] + b;
      NonEmptyAppend(a[1..], b);
    } else {
      assert a + b == b;
    }
  }

  /** A doubled separator yields the same segments as a single one. */
  lemma DoubledSlashIgnored(a: string, b: string)
    ensures Segments(a + "//" + b) == Segments(a + "/" + b)
  {
    assert a + "//" + b == a + ['/'] + ("/" + b);
    assert a + "/" + b == a + ['/'] + b;
    SplitAround(a, "/" + b, '/');
    SplitAround(a, b, '/');
    assert "/" + b == [] + ['/'] + b;
    SplitAround([], b, '/');
    NonEmptyAppend(Split(a, '/'), Split("/" + b, '/'));
    NonEmptyAppend(Split(a, '/'), Split(b, '/'));
    NonEmptyAppend([""], Split(b, '/'));
  }

  /** A character other than the separator, appended, extends the last piece. */
  lemma {:induction false} SplitSnoc(s: string, c: char, sep: char)
    requires c != sep
    ensures var p := Split(s, sep); Split(s + [c], sep) == p[..|p| - 1] + [p[|p| - 1] + [c]]
  {
    var p := Split(s, sep);
    if s == [] {
      assert s + [c] == [c] && [c][1..] == [];
      assert p == [""];
      assert Split([c][1..], sep) == [""] && [c][0] == c && [c] + "" == [c];
      assert Split([c], sep) == [[c]];
      assert p[..0] + [p[0] + [c]] == [[c]];
    } else {
      assert (s + [c])[0] == s[0] && (s + [c])[1..] == s[1..] + [c];
      SplitSnoc(s[1..], c, sep);
      var q := Split(s[1..], sep);
      if s[0] == sep {
        assert p == [""] + q;
      } else {
        assert p == [[s[0]] + q[0]] + q[1..];
        var r := Split(s[1..] + [c], sep);
        assert [s[0]] + (q[|q| - 1] + [c]) == ([s[0]] + q[|q| - 1]) + [c];
        if |q| == 1 {
          assert r == [q[0] + [c]];
          assert Split(s + [c], sep) == [[s[0]] + r[0]];
        } else {
          assert (q[..|q| - 1] + [q[|q| - 1] + [c]])[0] == q[0];
        }
      }
    }
  }
}
