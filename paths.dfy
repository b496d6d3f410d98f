/** Unix path handling from Rust's `std::path`: `join`, `file_name` and `parent`. */
module PathRules {
  import opened Wrappers

  /**
   * `Path::join` on Unix: an absolute right side replaces the left; otherwise a
   * '/' is inserted unless the left side is empty or already ends in one.
   */
  function Join(base: string, name: string): (r: string)
    ensures IsAbsolute(name) ==> r == name
    ensures !IsAbsolute(name) && (base == [] || base[|base| - 1] == '/') ==> r == base + name
    ensures !IsAbsolute(name) && base != [] && base[|base| - 1] != '/' ==> r == base + "/" + name
    ensures !IsAbsolute(name) ==> base <= r && |r| >= |base| + |name| && r[|r| - |name|..] == name
  {
    if IsAbsolute(name) then name
    else if base == [] || base[|base| - 1] == '/' then base + name
    else base + "/" + name
  }

  predicate IsAbsolute(p: string) {
    |p| > 0 && p[0] == '/'
  }

  /** Two relative names joined onto the same base give the same path only when they are the same name. */
  lemma JoinInjective(base: string, a: string, b: string)
    requires !IsAbsolute(a) && !IsAbsolute(b)
    ensures Join(base, a) == Join(base, b) <==> a == b
  {
    var d := if base == [] || base[|base| - 1] == '/' then base else base + "/";
    assert Join(base, a) == d + a && Join(base, b) == d + b;
    assert a == (d + a)[|d|..] && b == (d + b)[|d|..];
  }

  /** A single normal path component: what `file_name` can return. */
  predicate IsPlainName(n: string) {
    n != "" && n != "." && n != ".." && '/' !in n
  }

  /** The text between separators, left to right. */
  function Split(s: string): (parts: seq<string>)
    ensures |parts| > 0
    ensures forall k :: 0 <= k < |parts| ==> '/' !in parts[k]
    decreases |s|
  {
    if s == [] then [""]
    else
      var rest := Split(s[1..]);
      if s[0] == '/' then [""] + rest else [[s[0]] + rest[0]] + rest[1..]
  }

  /** Separators collapse and "." components vanish, as in `Path::components`. */
  function Components(parts: seq<string>): (r: seq<string>)
    ensures forall k :: 0 <= k < |r| ==> r[k] != "" && r[k] != "."
    ensures |r| <= |parts|
  {
    if parts == [] then []
    else (if parts[0] == "" || parts[0] == "." then [] else [parts[0]]) + Components(parts[1..])
  }

  /** `Path::file_name`: the last component, unless it is missing or "..". */
  function FileName(path: string): (r: Option<string>)
    ensures r.Some? ==> IsPlainName(r.value)
  {
    var parts := Split(path);
    var comps := Components(parts);
    if comps == [] || comps[|comps| - 1] == ".." then None
    else
      ComponentsHaveNoSeparator(parts);
      Some(comps[|comps| - 1])
  }

  /** The directory part of a path: everything before its last '/'. */
  function Parent(path: string): (r: string)
    ensures r <= path
    ensures '/' in path ==> |r| < |path| && path[|r|] == '/' && '/' !in path[|r| + 1..]
    ensures '/' !in path ==> r == ""
    decreases |path|
  {
    if path == [] then []
    else if path[|path| - 1] == '/' then path[..|path| - 1]
    else
      var r := Parent(path[..|path| - 1]);
      assert '/' in path ==> '/' in path[..|path| - 1];
      assert '/' in path[..|path| - 1] ==>
        path[|r| + 1..] == path[..|path| - 1][|r| + 1..] + [path[|path| - 1]];
      r
  }

  lemma ComponentsHaveNoSeparator(parts: seq<string>)
    requires forall k :: 0 <= k < |parts| ==> '/' !in parts[k]
    ensures forall k :: 0 <= k < |Components(parts)| ==> '/' !in Components(parts)[k]
  {
    if parts != [] {
      ComponentsHaveNoSeparator(parts[1..]);
    }
  }

  lemma {:induction false} SplitAtSeparator(a: string, b: string)
    ensures Split(a + "/" + b) == Split(a) + Split(b)
    decreases |a|
  {
    if a == [] {
      assert a + "/" + b == "/" + b;
      assert ("/" + b)[1..] == b;
    } else {
      assert (a + "/" + b)[1..] == a[1..] + "/" + b;
      SplitAtSeparator(a[1..], b);
    }
  }

  lemma {:induction false} SplitPlain(n: string)
    requires '/' !in n
    ensures Split(n) == [n]
    decreases |n|
  {
    if n != [] {
      SplitPlain(n[1..]);
      assert [n[0]] + n[1..] == n;
    }
  }

  lemma {:induction false} ComponentsConcat(x: seq<string>, y: seq<string>)
    ensures Components(x + y) == Components(x) + Components(y)
    decreases |x|
  {
    if x == [] {
      assert x + y == y;
    } else {
      assert (x + y)[1..] == x[1..] + y;
      ComponentsConcat(x[1..], y);
    }
  }

  /** A plain name joined onto a directory is the file name of the result. */
  lemma FileNameOfJoin(dir: string, n: string)
    requires IsPlainName(n)
    ensures FileName(Join(dir, n)) == Some(n)
  {
    SplitPlain(n);
    assert Components([n]) == [n];
    var path := Join(dir, n);
    if dir != [] {
      var d := if dir[|dir| - 1] == '/' then dir[..|dir| - 1] else dir;
      assert path == d + "/" + n by {
        if dir[|dir| - 1] == '/' {
          assert dir == d + "/";
        }
      }
      SplitAtSeparator(d, n);
      ComponentsConcat(Split(d), [n]);
    }
  }

}
