/**
  File URLs. A `file://` URL is modelled by the components of its absolute
  path, so that `lastPathComponent`, `deletingLastPathComponent` and
  `pathExtension` become operations on a sequence.
 */
module Paths {

  /** An absolute file URL: `/a/b/c.txt` is `Url(["a", "b", "c.txt"])`. */
  datatype Url = Url(components: seq<string>)

  /** `url.lastPathComponent`; the root URL `/` answers "/". */
  function LastPathComponent(u: Url): (r: string)
    ensures |u.components| > 0 ==> r == u.components[|u.components| - 1]
  {
    if |u.components| == 0 then "/" else u.components[|u.components| - 1]
  }

  /** `url.deletingLastPathComponent()`; the root URL is kept as it is. */
  function DeletingLastPathComponent(u: Url): (r: Url)
    ensures |u.components| > 0 ==> r.components + [LastPathComponent(u)] == u.components
    ensures |u.components| == 0 ==> r == u
  {
    if |u.components| == 0 then u else Url(u.components[..|u.components| - 1])
  }

  /** `xs.joined(separator: sep)` */
  function Join(xs: seq<string>, sep: string): string
  {
    if |xs| == 0 then "" else if |xs| == 1 then xs[0] else xs[0] + sep + Join(xs[1..], sep)
  }

  lemma {:induction false} JoinAppend(xs: seq<string>, x: string, sep: string)
    requires |xs| > 0
    ensures Join(xs + [x], sep) == Join(xs, sep) + sep + x
  {
    if |xs| == 1 {
      assert xs + [x] == [xs[0], x];
    } else {
      assert (xs + [x])[1..] == xs[1..] + [x];
      JoinAppend(xs[1..], x, sep);
    }
  }

  /** `url.path`: the components joined by "/" after a leading "/". */
  function PathString(u: Url): string
  {
    "/" + Join(u.components, "/")
  }

  /**
    A URL's path is its directory's path, a "/", and its last component
    (for a top-level entry the directory is the root "/" itself).
   */
  lemma PathSplitsAtLastComponent(u: Url)
    ensures |u.components| == 1 ==>
      PathString(DeletingLastPathComponent(u)) == "/" &&
      PathString(u) == "/" + LastPathComponent(u)
    ensures |u.components| > 1 ==>
      PathString(u) == PathString(DeletingLastPathComponent(u)) + "/" + LastPathComponent(u)
  {
    var c := u.components;
    if |c| > 1 {
      assert c == c[..|c| - 1] + [c[|c| - 1]];
      JoinAppend(c[..|c| - 1], c[|c| - 1], "/");
    }
  }

  /**
    `directoryPath` of a scanned or skipped file: the path of the URL with its
    last component removed.
   */
  function DirectoryPath(u: Url): (r: string)
    ensures |u.components| > 1 ==> PathString(u) == r + "/" + LastPathComponent(u)
    ensures |u.components| == 1 ==> r == "/"
  {
    PathSplitsAtLastComponent(u);
    PathString(DeletingLastPathComponent(u))
  }

  /** The position of the last `c` in `s`, or -1. */
  function LastIndexOf(s: string, c: char): (r: int)
    ensures -1 <= r < |s|
    ensures r >= 0 ==> s[r] == c
    ensures forall k :: r < k < |s| ==> s[k] != c
  {
    if |s| == 0 then -1
    else if s[|s| - 1] == c then |s| - 1
    else LastIndexOf(s[..|s| - 1], c)
  }

  /**
    `url.pathExtension`: what follows the last "." of the last component,
    or "" when there is none or the only dot starts the name (".profile").
   */
  function PathExtension(u: Url): (r: string)
    ensures '.' !in r
  {
    var name := LastPathComponent(u);
    var dot := LastIndexOf(name, '.');
    if dot <= 0 then "" else name[dot + 1..]
  }

  predicate IsUpper(c: char) { 'A' <= c <= 'Z' }

  function LowerChar(c: char): (r: char)
    ensures !IsUpper(r)
    ensures IsUpper(c) ==> r as int == c as int + 32
    ensures !IsUpper(c) ==> r == c
  {
    if IsUpper(c) then (c as int + 32) as char else c
  }

  /** `s.lowercased()`, over ASCII letters. */
  function Lowercased(s: string): (r: string)
    ensures |r| == |s|
    ensures forall i :: 0 <= i < |r| ==> !IsUpper(r[i])
    ensures forall i :: 0 <= i < |r| ==> r[i] == LowerChar(s[i])
  {
    seq(|s|, i requires 0 <= i < |s| => LowerChar(s[i]))
  }

  /** `fileExtension` of a scanned file, and the filters' `pathExtension.lowercased()`. */
  function LowercasedExtension(u: Url): (r: string)
    ensures forall i :: 0 <= i < |r| ==> !IsUpper(r[i])
    ensures |r| == |PathExtension(u)| && '.' !in r
    ensures forall i :: 0 <= i < |r| ==> r[i] == LowerChar(PathExtension(u)[i])
  {
    Lowercased(PathExtension(u))
  }

  /** `s.hasPrefix(p)` */
  predicate HasPrefix(s: string, p: string) { |p| <= |s| && s[..|p|] == p }
}
