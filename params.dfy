/**
  * Route parameters: which request segments the `:name` segments of a route
  * key capture. Positions are compared after empty segments have been dropped
  * on both sides; a parameter with no request segment at its position is
  * still recorded, bound to nothing (`undefined`).
  */
module Params {
  import opened Wrappers
  import opened Paths

  /** The parameters of a request: each name bound to a segment, or to nothing. */
  type Bindings = map<string, Option<string>>

  /** `pathParts[i]`: the request segment at position `i`, or nothing past the end. */
  function At(parts: seq<string>, i: nat): (r: Option<string>)
    ensures r.Some? <==> i < |parts|
    ensures r.Some? ==> r.value == parts[i]
  {
    if i < |parts| then Some(parts[i]) else None
  }

  /** What the first `n` key segments bind, visited left to right; a later name overwrites an earlier one. */
  function Bind(keyParts: seq<string>, pathParts: seq<string>, n: nat): Bindings
    requires n <= |keyParts|
  {
    if n == 0 then map[]
    else
      var before := Bind(keyParts, pathParts, n - 1);
      var part := keyParts[n - 1];
      if IsParam(part) then before[part[1..] := At(pathParts, n - 1)] else before
  }

  /** The parameters `key` captures from `pathname`. */
  function ParamsOf(pathname: string, key: string): Bindings {
    var keyParts := Segments(key);
    Bind(keyParts, Segments(pathname), |keyParts|)
  }

  /** `getParams`, given the request's pathname. */
  method GetParams(pathname: string, key: string) returns (params: Bindings)
    ensures params == ParamsOf(pathname, key)
  {
    var pathParts := Segments(pathname);
    var keyParts := Segments(key);
    params := map[];
    var i := 0;
    while i < |keyParts|
      invariant 0 <= i <= |keyParts|
      invariant params == Bind(keyParts, pathParts, i)
    {
      var part := keyParts[i];
      if IsParam(part) {
        params := params[part[1..] := At(pathParts, i)];
      }
      i := i + 1;
    }
  }

  /** Position `i` of `keyParts` is a parameter named `name`. */
  predicate NamedAt(keyParts: seq<string>, i: nat, name: string)
    requires i < |keyParts|
  {
    IsParam(keyParts[i]) && keyParts[i][1..] == name
  }

  /** The names bound are exactly the names of the parameter segments; literal segments bind nothing. */
  lemma {:induction false} BindKeys(keyParts: seq<string>, pathParts: seq<string>, n: nat, name: string)
    requires n <= |keyParts|
    ensures name in Bind(keyParts, pathParts, n) <==> exists i :: 0 <= i < n && NamedAt(keyParts, i, name)
  {
    if n > 0 {
      BindKeys(keyParts, pathParts, n - 1, name);
      if name in Bind(keyParts, pathParts, n) && !NamedAt(keyParts, n - 1, name) {
        var i :| 0 <= i < n - 1 && NamedAt(keyParts, i, name);
        assert 0 <= i < n;
      }
    }
  }

  /**
    * A name is bound to the request segment at the last position the key
    * names it, or to nothing when the request has no segment there.
    */
  lemma {:induction false} BindValue(keyParts: seq<string>, pathParts: seq<string>, n: nat, i: nat)
    requires i < n <= |keyParts| && IsParam(keyParts[i])
    requires forall j :: i < j < n ==> !NamedAt(keyParts, j, keyParts[i][1..])
    ensures keyParts[i][1..] in Bind(keyParts, pathParts, n)
    ensures Bind(keyParts, pathParts, n)[keyParts[i][1..]] == At(pathParts, i)
  {
    BindKeys(keyParts, pathParts, n, keyParts[i][1..]);
    if i < n - 1 {
      assert !NamedAt(keyParts, n - 1, keyParts[i][1..]);
      BindValue(keyParts, pathParts, n - 1, i);
    }
  }

  /** A key without parameter segments captures nothing. */
  lemma NoParamsNoBindings(pathname: string, key: string)
    requires forall i :: 0 <= i < |Segments(key)| ==> !IsParam(Segments(key)[i])
    ensures ParamsOf(pathname, key) == map[]
  {
    var keyParts := Segments(key);
    forall name ensures name !in ParamsOf(pathname, key) {
      BindKeys(keyParts, Segments(pathname), |keyParts|, name);
    }
  }

  /** `getParams('/blog/foo', '/blog/:id')` yields `{ id: 'foo' }`. */
  lemma BlogIdExample()
    ensures ParamsOf("/blog/foo", "/blog/:id") == map["id" := Some("foo")]
  {
    SegmentsOfExample("/blog/foo", ["blog", "foo"]);
    SegmentsOfExample("/blog/:id", ["blog", ":id"]);
    BlogIdBind(["blog", "foo"]);
  }

  /** A parameter beyond the request's last segment is bound to nothing: `/blog` against `/blog/:id`. */
  lemma MissingSegmentExample()
    ensures ParamsOf("/blog", "/blog/:id") == map["id" := None]
  {
    SegmentsOfExample("/blog", ["blog"]);
    SegmentsOfExample("/blog/:id", ["blog", ":id"]);
    BlogIdBind(["blog"]);
  }

  /** The key `/blog/:id` binds `id` to the request's second segment. */
  lemma BlogIdBind(pathParts: seq<string>)
    ensures Bind(["blog", ":id"], pathParts, 2) == map["id" := At(pathParts, 1)]
  {
    var keyParts := ["blog", ":id"];
    assert !IsParam(keyParts[0]) && IsParam(keyParts[1]);
    assert Bind(keyParts, pathParts, 1) == map[];
    assert keyParts[1][1..] == "id";
  }

  /** The segments of the example paths, each built from `names`. */
  lemma SegmentsOfExample(s: string, names: seq<string>)
    requires s in {"/blog", "/blog/foo", "/blog/:id"}
    requires names == (if s == "/blog" then ["blog"] else if s == "/blog/foo" then ["blog", "foo"] else ["blog", ":id"])
    ensures Segments(s) == names
  {
    assert ValidName("blog") && ValidName("foo") && ValidName(":id");
    assert ValidNames(names);
    if |names| == 1 {
      assert KeyOf(names) == "/blog";
    } else {
      assert KeyOf(names[1..]) == "/" + names[1];
      assert KeyOf(names) == s;
    }
    SegmentsOfKey(names);
  }

  /** A doubled separator in the request or in the key changes no binding. */
  lemma DoubledSlashSameParams(a: string, b: string, key: string)
    ensures ParamsOf(a + "//" + b, key) == ParamsOf(a + "/" + b, key)
    ensures ParamsOf(key, a + "//" + b) == ParamsOf(key, a + "/" + b)
  {
    DoubledSlashIgnored(a, b);
  }
}
