/**
 * The string and path helpers render.go relies on: strings.Index,
 * strings.HasPrefix, strings.Split, strings.Join, filepath.Ext,
 * filepath.Rel and filepath.ToSlash, for the Unix path separator '/'.
 */
module Paths {
  import opened Wrappers

  /** os.PathSeparator on Unix. */
  const PathSeparator: char := '/'

  /** strings.Index for a one-character separator: the first position of c, or -1. */
  function Index(s: string, c: char): (r: int)
    ensures -1 <= r < |s|
    ensures r == -1 <==> c !in s
    ensures 0 <= r ==> s[r] == c && c !in s[..r]
  {
    if s == [] then -1
    else if s[0] == c then 0
    else
      var k := Index(s[1..], c);
      if k == -1 then -1
      else
        assert s[..k + 1] == [s[0]] + s[1..][..k];
        k + 1
  }

  /** strings.HasPrefix. */
  predicate HasPrefix(s: string, prefix: string)
  {
    |prefix| <= |s| && s[..|prefix|] == prefix
  }

  /** strings.HasPrefix holds exactly when s is prefix followed by something. */
  lemma HasPrefixIff(s: string, prefix: string)
    ensures HasPrefix(s, prefix) <==> exists t :: s == prefix + t
  {
    if HasPrefix(s, prefix) {
      assert s == prefix + s[|prefix|..];
    } else {
      forall t
        ensures s != prefix + t
      {
        assert (prefix + t)[..|prefix|] == prefix;
      }
    }
  }

  /** The final element of a path: everything after its last separator. */
  function FinalElement(path: string): (r: string)
    ensures |r| <= |path| && r == path[|path| - |r|..]
    ensures PathSeparator !in r
    ensures |r| < |path| ==> path[|path| - |r| - 1] == PathSeparator
  {
    if path == [] || path[|path| - 1] == PathSeparator then []
    else FinalElement(path[..|path| - 1]) + [path[|path| - 1]]
  }

  /**
   * filepath.Ext: the suffix of the final element that starts at its last
   * dot, or "" when the final element holds no dot.
   */
  function Ext(path: string): (r: string)
    ensures |r| <= |path| && r == path[|path| - |r|..]
  {
    if path == [] || path[|path| - 1] == PathSeparator then []
    else if path[|path| - 1] == '.' then ['.']
    else
      var e := Ext(path[..|path| - 1]);
      if e == [] then [] else e + [path[|path| - 1]]
  }

  /** filepath.Ext's answer lies within the final element, so it holds no separator. */
  lemma {:induction false} ExtInFinalElement(path: string)
    ensures |Ext(path)| <= |FinalElement(path)|
    ensures PathSeparator !in Ext(path)
  {
    if path != [] && path[|path| - 1] != PathSeparator {
      var init, last := path[..|path| - 1], path[|path| - 1];
      assert FinalElement(path) == FinalElement(init) + [last];
      if last != '.' {
        ExtInFinalElement(init);
        var e := Ext(init);
        assert Ext(path) == if e == [] then [] else e + [last];
        assert last != PathSeparator;
      }
    }
  }

  /** filepath.Ext is empty exactly when the final element has no dot. */
  lemma {:induction false} ExtEmpty(path: string)
    ensures Ext(path) == [] <==> '.' !in FinalElement(path)
  {
    if path != [] && path[|path| - 1] != PathSeparator {
      var init, last := path[..|path| - 1], path[|path| - 1];
      assert FinalElement(path) == FinalElement(init) + [last];
      if last != '.' {
        ExtEmpty(init);
      } else {
        assert last in FinalElement(path);
      }
    }
  }

  /** A non-empty filepath.Ext starts with a dot and holds no other. */
  lemma {:induction false} ExtOneDot(path: string)
    requires Ext(path) != []
    ensures Ext(path)[0] == '.' && '.' !in Ext(path)[1..]
  {
    var init, last := path[..|path| - 1], path[|path| - 1];
    if last != '.' {
      var e := Ext(init);
      ExtOneDot(init);
      assert (e + [last])[1..] == e[1..] + [last];
    }
  }

  /** A dot that no other dot and no separator follows starts filepath.Ext's suffix. */
  lemma {:induction false} ExtFromOnlyDot(path: string, i: nat)
    requires i < |path| && path[i] == '.'
    requires '.' !in path[i + 1..] && PathSeparator !in path[i..]
    ensures Ext(path) == path[i..]
  {
    var s, t := path[..i], path[i + 1..];
    assert path[i..] == ['.'] + t;
    assert path == s + ['.'] + t;
    ExtOfDotSuffix(s, t);
  }

  /** ExtFromOnlyDot for a path written as what precedes the dot, the dot, and what follows it. */
  lemma {:induction false} ExtOfDotSuffix(s: string, t: string)
    requires '.' !in t && PathSeparator !in t
    ensures Ext(s + ['.'] + t) == ['.'] + t
    decreases |t|
  {
    if t == [] {
      assert s + ['.'] + t == s + ['.'];
    } else {
      var t', c := t[..|t| - 1], t[|t| - 1];
      var q := s + ['.'] + t';
      assert t == t' + [c];
      assert Ext(q) == ['.'] + t' by {
        ExtOfDotSuffix(s, t');
      }
      ExtAppend(q, c);
      assert s + ['.'] + t == q + [c];
      assert ['.'] + t == (['.'] + t') + [c];
    }
  }

  /** A character that is neither a dot nor a separator extends a non-empty filepath.Ext. */
  lemma ExtAppend(q: string, c: char)
    requires Ext(q) != [] && c != '.' && c != PathSeparator
    ensures Ext(q + [c]) == Ext(q) + [c]
  {
    assert (q + [c])[..|q|] == q;
  }

  /** strings.Split with a one-character separator. */
  function Split(s: string, c: char): (parts: seq<string>)
    ensures |parts| >= 1
    decreases |s|
  {
    var i := Index(s, c);
    if i == -1 then [s] else [s[..i]] + Split(s[i + 1..], c)
  }

  /** No piece of strings.Split holds the separator. */
  lemma {:induction false} SplitPieces(s: string, c: char)
    ensures forall k :: 0 <= k < |Split(s, c)| ==> c !in Split(s, c)[k]
    decreases |s|
  {
    var i := Index(s, c);
    if i != -1 {
      SplitPieces(s[i + 1..], c);
      var rest := Split(s[i + 1..], c);
      assert Split(s, c) == [s[..i]] + rest;
      forall k | 0 <= k < |Split(s, c)|
        ensures c !in Split(s, c)[k]
      {
        if k > 0 {
          assert Split(s, c)[k] == rest[k - 1];
        }
      }
    }
  }

  /** strings.Join with a one-character separator. */
  function Join(parts: seq<string>, c: char): string
  {
    if parts == [] then []
    else if |parts| == 1 then parts[0]
    else parts[0] + [c] + Join(parts[1..], c)
  }

  /** strings.Join: nothing joins to "", and otherwise the first piece starts the result and the last ends it. */
  lemma {:induction false} JoinEnds(parts: seq<string>, c: char)
    ensures parts == [] ==> Join(parts, c) == []
    ensures parts != [] ==> HasPrefix(Join(parts, c), parts[0])
    ensures parts != [] ==> var last, r := parts[|parts| - 1], Join(parts, c);
                            |last| <= |r| && r[|r| - |last|..] == last
  {
    if |parts| > 1 {
      JoinEnds(parts[1..], c);
      var rest := Join(parts[1..], c);
      var r := parts[0] + [c] + rest;
      assert Join(parts, c) == r;
      assert r[..|parts[0]|] == parts[0];
      assert r[|r| - |rest|..] == rest;
      assert parts[1..][|parts[1..]| - 1] == parts[|parts| - 1];
    } else if |parts| == 1 {
      assert parts[0][..|parts[0]|] == parts[0];
    }
  }

  /** Joining the pieces of a split gives back the string. */
  lemma {:induction false} JoinSplit(s: string, c: char)
    ensures Join(Split(s, c), c) == s
    decreases |s|
  {
    var i := Index(s, c);
    if i != -1 {
      var parts, rest := Split(s, c), Split(s[i + 1..], c);
      assert parts == [s[..i]] + rest;
      assert parts[0] == s[..i] && parts[1..] == rest && |parts| > 1;
      JoinSplit(s[i + 1..], c);
      assert Join(parts, c) == s[..i] + [c] + Join(rest, c);
      assert s == s[..i] + [c] + s[i + 1..];
    }
  }

  /**
   * "." joined with everything after the first dot of s is the suffix of s
   * that starts at its first dot.
   */
  lemma {:induction false} JoinAfterFirst(s: string, c: char)
    requires c in s
    ensures [c] + Join(Split(s, c)[1..], c) == s[Index(s, c)..]
  {
    var i := Index(s, c);
    var tail := s[i + 1..];
    var rest := Split(tail, c);
    var parts := Split(s, c);
    assert parts == [s[..i]] + rest;
    assert parts[1..] == rest;
    JoinSplit(tail, c);
    assert s[i..] == [c] + tail;
  }

  /**
   * What a path below a directory starts with: nothing below ".", the
   * directory itself when it ends with a separator (the root "/", or
   * "templates/"), and the directory and a separator otherwise.
   */
  function DirPrefix(dir: string): string
    requires dir != []
  {
    if dir == "." then "" else if dir[|dir| - 1] == PathSeparator then dir else dir + [PathSeparator]
  }

  /**
   * filepath.Rel(dir, path) for a path that starts with dir, both clean but
   * for a trailing separator on dir: "." for dir itself; what follows
   * DirPrefix(dir) for a path below dir; and, when path only shares dir's
   * characters ("templates" and "templatesX/a"), a path that climbs out of
   * dir's final element, or None (filepath.Rel's error) when that element
   * is "..".
   */
  function Rel(dir: string, path: string): (rel: Option<string>)
    requires dir != [] && HasPrefix(path, dir)
    ensures path == dir ==> rel == Some(".")
    ensures path != dir && HasPrefix(path, DirPrefix(dir)) ==> rel == Some(path[|DirPrefix(dir)|..])
    ensures rel.None? <==>
              path != dir && !HasPrefix(path, DirPrefix(dir)) && FinalElement(dir) == ".."
    ensures path != dir && !HasPrefix(path, DirPrefix(dir)) && rel.Some? ==>
              rel.value == "../" + path[|dir| - |FinalElement(dir)|..]
  {
    if path == dir then Some(".")
    else if HasPrefix(path, DirPrefix(dir)) then Some(path[|DirPrefix(dir)|..])
    else if FinalElement(dir) == ".." then None
    else Some("../" + path[|dir| - |FinalElement(dir)|..])
  }

  /** Below the root, filepath.Rel drops the leading separator. */
  lemma RelBelowRoot()
    ensures Rel("/", "/x/a.tmpl") == Some("x/a.tmpl")
  {
    var path := "/x/a.tmpl";
    assert DirPrefix("/") == "/";
    assert path[..1] == "/" && path[1..] == "x/a.tmpl";
  }

  /** Below ".", filepath.Rel gives the path itself, even one starting with a dot. */
  lemma RelBelowDot()
    ensures Rel(".", ".a.tmpl") == Some(".a.tmpl")
  {
    assert DirPrefix(".") == "";
    assert ".a.tmpl"[..0] == "";
  }

  /** Below a directory given with a trailing separator, filepath.Rel gives what follows it. */
  lemma RelBelowTrailingSeparator(dir: string, rest: string)
    requires dir != [] && dir[|dir| - 1] == PathSeparator && rest != []
    ensures Rel(dir, dir + rest) == Some(rest)
  {
    var path := dir + rest;
    assert path[..|dir|] == dir && path[|dir|..] == rest;
  }

  /** filepath.ToSlash: every separator becomes '/'; nothing else changes. */
  function ToSlash(s: string): (r: string)
    ensures |r| == |s|
    ensures forall i :: 0 <= i < |s| ==> r[i] == (if s[i] == PathSeparator then '/' else s[i])
    ensures PathSeparator == '/' ==> r == s
  {
    seq(|s|, i requires 0 <= i < |s| => if s[i] == PathSeparator then '/' else s[i])
  }
}
