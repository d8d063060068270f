/**
 * The lexical part of Go's `path/filepath` package on a Unix system (separator
 * '/'), as the repository uses it: Clean, Join, Dir, Rel and Abs.
 *
 * A cleaned path is represented as a `Path`: whether it is rooted, and its
 * components.  `Render` gives the string Go would hold; `Clean` parses any
 * string into its cleaned form.  The lemmas at the end show that the two are
 * inverse on clean paths (so string equality of cleaned paths is equality of
 * `Path` values), and that Go's string-level Dir and Join agree with the
 * component-level operations the rest of the model uses.
 */
module GoFilePath {
  import opened GoStrings

  datatype Path = Path(absolute: bool, comps: seq<string>)

  /** A component that Clean keeps as it is: not empty, not `.` or `..`, no separator. */
  predicate IsName(c: string) {
    c != "" && c != "." && c != ".." && '/' !in c
  }

  /**
   * Component sequences Clean can produce: no empty or `.` components, no
   * separators inside one, and `..` only as a leading run of a relative path.
   */
  predicate CleanComps(rooted: bool, cs: seq<string>) {
    && (forall i :: 0 <= i < |cs| ==> cs[i] != "" && cs[i] != "." && '/' !in cs[i])
    && (forall i :: 0 <= i < |cs| && cs[i] == ".." ==> !rooted && forall j :: 0 <= j < i ==> cs[j] == "..")
  }

  predicate IsClean(p: Path) {
    CleanComps(p.absolute, p.comps)
  }

  /** The string Go holds for a cleaned path: "/" and "." for the two empty paths. */
  function Render(p: Path): string {
    if p.absolute then
      if p.comps == [] then "/" else "/" + JoinWith(p.comps, '/')
    else
      if p.comps == [] then "." else JoinWith(p.comps, '/')
  }

  /** One step of Clean's scan over the `/`-separated parts of its input. */
  function CleanStep(rooted: bool, out: seq<string>, part: string): (r: seq<string>)
    ensures CleanComps(rooted, out) && '/' !in part ==> CleanComps(rooted, r)
  {
    if part == "" || part == "." then out
    else if part == ".." then
      if |out| > 0 && out[|out| - 1] != ".." then out[..|out| - 1]
      else if rooted then out
      else out + [".."]
    else out + [part]
  }

  /** Clean's scan: the parts processed in order, starting from `out`. */
  function CleanFrom(rooted: bool, out: seq<string>, parts: seq<string>): (r: seq<string>)
    ensures CleanComps(rooted, out) && (forall i :: 0 <= i < |parts| ==> '/' !in parts[i])
            ==> CleanComps(rooted, r)
    decreases |parts|
  {
    if parts == [] then out
    else CleanStep(rooted, CleanFrom(rooted, out, parts[..|parts| - 1]), parts[|parts| - 1])
  }

  /** filepath.Clean, as a parsed path. */
  function Clean(s: string): (p: Path)
    ensures IsClean(p)
    ensures p.absolute <==> HasPrefix(s, "/")
  {
    if s == "" then Path(false, [])
    else
      var rooted := s[0] == '/';
      Path(rooted, CleanFrom(rooted, [], Split(s, '/')))
  }

  /** filepath.Clean on strings. */
  function CleanStr(s: string): string {
    Render(Clean(s))
  }

  /** filepath.Join: the elements from the first non-empty one on, joined by '/' and cleaned. */
  function Join(elems: seq<string>): string
    decreases |elems|
  {
    if elems == [] then ""
    else if elems[0] != "" then CleanStr(JoinWith(elems, '/'))
    else Join(elems[1..])
  }

  /** filepath.Dir on a clean path: drop the last component; "/" and "." stay as they are. */
  function Dir(p: Path): (d: Path)
    ensures IsClean(p) ==> IsClean(d)
  {
    if p.comps == [] then p else Path(p.absolute, p.comps[..|p.comps| - 1])
  }

  /** filepath.Dir on strings, as a parsed path: the text up to the last separator, cleaned. */
  function DirPath(s: string): (d: Path)
    ensures IsClean(d)
  {
    Clean(s[..LastIndexOf(s, '/') + 1])
  }

  /** filepath.Dir on strings. */
  function DirStr(s: string): string {
    Render(DirPath(s))
  }

  /** The number of leading components two paths share. */
  function CommonPrefixLen(a: seq<string>, b: seq<string>): (k: nat)
    ensures k <= |a| && k <= |b| && a[..k] == b[..k]
    ensures k < |a| && k < |b| ==> a[k] != b[k]
    decreases |a|
  {
    if a == [] || b == [] || a[0] != b[0] then 0
    else
      var k := CommonPrefixLen(a[1..], b[1..]);
      assert a[..1 + k] == [a[0]] + a[1..][..k];
      assert b[..1 + k] == [b[0]] + b[1..][..k];
      1 + k
  }

  /** `n` parent steps. */
  function Ups(n: nat): (r: seq<string>)
    ensures |r| == n && forall i :: 0 <= i < n ==> r[i] == ".."
  {
    seq(n, _ => "..")
  }

  /**
   * filepath.Rel between two absolute clean paths (its only use here is on
   * filepath.Abs results): climb out of the components of `base` that `targ`
   * does not share, then descend into the rest of `targ`.
   */
  function Rel(base: Path, targ: Path): string
    requires base.absolute && targ.absolute
  {
    if targ == base then "."
    else
      var k := CommonPrefixLen(base.comps, targ.comps);
      JoinWith(Ups(|base.comps| - k) + targ.comps[k..], '/')
  }

  /** filepath.Abs, with the process working directory `wd` as an input. */
  function Abs(s: string, wd: Path): (p: Path)
    requires wd.absolute && IsClean(wd)
    ensures p.absolute && IsClean(p)
    ensures HasPrefix(s, "/") ==> p == Clean(s)
  {
    if HasPrefix(s, "/") then Clean(s) else Clean(Render(wd) + "/" + s)
  }

  /** `prefix` is `p` or one of its ancestors. */
  predicate IsAncestorOrSelf(prefix: Path, p: Path) {
    prefix.absolute == p.absolute && |prefix.comps| <= |p.comps| && p.comps[..|prefix.comps|] == prefix.comps
  }

  // ---------------------------------------------------------------- lemmas

  /** The pieces that splitting a rendered path at '/' gives. */
  function RenderParts(p: Path): seq<string> {
    if p.absolute then [""] + (if p.comps == [] then [""] else p.comps)
    else if p.comps == [] then ["."] else p.comps
  }

  lemma SplitRender(p: Path)
    requires IsClean(p)
    ensures Split(Render(p), '/') == RenderParts(p)
  {
    if p.absolute {
      if p.comps == [] {
        assert Render(p) == "" + ['/'] + "";
        SplitConcat("", "", '/');
      } else {
        assert Render(p) == "" + ['/'] + JoinWith(p.comps, '/');
        SplitConcat("", JoinWith(p.comps, '/'), '/');
        SplitJoin(p.comps, '/');
      }
    } else if p.comps == [] {
      SplitNoSep(".", '/');
    } else {
      SplitJoin(p.comps, '/');
    }
  }

  /** A rendered path is never empty, and starts with '/' exactly when it is absolute. */
  lemma RenderShape(p: Path)
    requires IsClean(p)
    ensures Render(p) != ""
    ensures Render(p)[0] == '/' <==> p.absolute
  {
    if !p.absolute && p.comps != [] {
      JoinWithHead(p.comps, '/');
      assert Render(p)[0] == p.comps[0][0];
    }
  }

  lemma {:induction false} CleanFromConcat(rooted: bool, out: seq<string>, ps: seq<string>, qs: seq<string>)
    ensures CleanFrom(rooted, out, ps + qs) == CleanFrom(rooted, CleanFrom(rooted, out, ps), qs)
    decreases |qs|
  {
    if qs == [] {
      assert ps + qs == ps;
    } else {
      var n := |qs| - 1;
      assert (ps + qs)[..|ps + qs| - 1] == ps + qs[..n];
      CleanFromConcat(rooted, out, ps, qs[..n]);
    }
  }

  /** Names are appended as they are. */
  lemma {:induction false} CleanFromNames(rooted: bool, out: seq<string>, names: seq<string>)
    requires forall i :: 0 <= i < |names| ==> IsName(names[i])
    ensures CleanFrom(rooted, out, names) == out + names
    decreases |names|
  {
    if names != [] {
      var n := |names| - 1;
      CleanFromNames(rooted, out, names[..n]);
      assert out + names[..n] + [names[n]] == out + names;
    }
  }

  /** Cleaning the components of a clean path changes nothing. */
  lemma {:induction false} CleanFromClean(rooted: bool, cs: seq<string>)
    requires CleanComps(rooted, cs)
    ensures CleanFrom(rooted, [], cs) == cs
    decreases |cs|
  {
    if cs != [] {
      var n := |cs| - 1;
      var init := cs[..n];
      assert CleanComps(rooted, init);
      CleanFromClean(rooted, init);
      assert init + [cs[n]] == cs;
      if cs[n] == ".." && n > 0 {
        assert init[n - 1] == "..";
      }
    }
  }

  lemma CleanRenderParts(p: Path)
    requires IsClean(p)
    ensures CleanFrom(p.absolute, [], RenderParts(p)) == p.comps
  {
    if p.absolute {
      CleanFromConcat(true, [], [""], if p.comps == [] then [""] else p.comps);
      assert CleanFrom(true, [], [""]) == [];
      if p.comps != [] {
        CleanFromClean(true, p.comps);
      }
    } else if p.comps != [] {
      CleanFromClean(false, p.comps);
    }
  }

  /** Cleaning a rendered clean path gives the path back: Clean is idempotent. */
  lemma CleanRender(p: Path)
    requires IsClean(p)
    ensures Clean(Render(p)) == p
  {
    RenderShape(p);
    SplitRender(p);
    CleanRenderParts(p);
  }

  /** Clean paths are equal exactly when their strings are. */
  lemma RenderInjective(p: Path, q: Path)
    requires IsClean(p) && IsClean(q)
    ensures Render(p) == Render(q) <==> p == q
  {
    if Render(p) == Render(q) {
      CleanRender(p);
      CleanRender(q);
    }
  }

  lemma {:induction false} JoinWithSnoc(cs: seq<string>, last: string, sep: char)
    requires |cs| >= 1
    ensures JoinWith(cs + [last], sep) == JoinWith(cs, sep) + [sep] + last
    decreases |cs|
  {
    if |cs| > 1 {
      assert (cs + [last])[1..] == cs[1..] + [last];
      JoinWithSnoc(cs[1..], last, sep);
    }
  }

  /** Joining names onto a clean path appends them as components. */
  lemma JoinNames(p: Path, names: seq<string>)
    requires IsClean(p)
    requires |names| >= 1 && forall i :: 0 <= i < |names| ==> IsName(names[i])
    ensures IsClean(Path(p.absolute, p.comps + names))
    ensures Join([Render(p)] + names) == Render(Path(p.absolute, p.comps + names))
  {
    var joined := JoinWith([Render(p)] + names, '/');
    assert ([Render(p)] + names)[1..] == names;
    assert joined == Render(p) + ['/'] + JoinWith(names, '/');
    RenderShape(p);
    SplitConcat(Render(p), JoinWith(names, '/'), '/');
    SplitRender(p);
    SplitJoin(names, '/');
    CleanFromConcat(p.absolute, [], RenderParts(p), names);
    CleanRenderParts(p);
    CleanFromNames(p.absolute, p.comps, names);
    assert Clean(joined) == Path(p.absolute, p.comps + names);
  }

  /** A trailing separator after a clean path is dropped by Clean. */
  lemma CleanTrailingSep(d: Path)
    requires IsClean(d)
    ensures Clean(Render(d) + ['/']) == d
  {
    var pre := Render(d) + ['/'];
    RenderShape(d);
    assert pre == Render(d) + ['/'] + "";
    SplitConcat(Render(d), "", '/');
    SplitRender(d);
    CleanFromConcat(d.absolute, [], RenderParts(d), [""]);
    CleanRenderParts(d);
  }

  /** Rendering a path with at least two components ends in separator and last name. */
  lemma RenderSnoc(p: Path)
    requires IsClean(p) && |p.comps| >= 2
    ensures Render(p) == Render(Dir(p)) + ['/'] + p.comps[|p.comps| - 1]
  {
    var d := Dir(p);
    var last := p.comps[|p.comps| - 1];
    assert p.comps == d.comps + [last];
    JoinWithSnoc(d.comps, last, '/');
  }

  /** Go's string-level Dir of a rendered clean path is the rendered Dir of the path. */
  lemma DirOnRendered(p: Path)
    requires IsClean(p)
    ensures DirPath(Render(p)) == Dir(p)
    ensures DirStr(Render(p)) == Render(Dir(p))
  {
    var s := Render(p);
    var d := Dir(p);
    if p.comps == [] {
      if p.absolute {
        assert s[..LastIndexOf(s, '/') + 1] == s;
        CleanRender(p);
      }
    } else if |p.comps| == 1 {
      if p.absolute {
        assert s == "/" + p.comps[0];
        assert LastIndexOf(s, '/') == 0;
        assert s[..1] == Render(d);
        CleanRender(d);
      }
    } else {
      var last := p.comps[|p.comps| - 1];
      RenderSnoc(p);
      LastIndexOfConcat(Render(d), last, '/');
      assert s[..LastIndexOf(s, '/') + 1] == Render(d) + ['/'];
      CleanTrailingSep(d);
    }
  }

  /** Rel of a path below (or at) the base: the remaining components. */
  lemma RelUnder(base: Path, targ: Path)
    requires base.absolute && targ.absolute
    requires IsAncestorOrSelf(base, targ)
    ensures Rel(base, targ) == if targ == base then "." else JoinWith(targ.comps[|base.comps|..], '/')
  {
    var k := CommonPrefixLen(base.comps, targ.comps);
    assert k == |base.comps|;
    assert Ups(|base.comps| - k) + targ.comps[k..] == targ.comps[k..];
    if |targ.comps| == |base.comps| {
      assert targ.comps == targ.comps[..|base.comps|];
      assert targ == base;
    }
  }

  /** Rel of a path not below the base climbs out of it first. */
  lemma RelOutside(base: Path, targ: Path)
    requires base.absolute && targ.absolute
    requires !IsAncestorOrSelf(base, targ)
    ensures HasPrefix(Rel(base, targ), "..")
  {
    var k := CommonPrefixLen(base.comps, targ.comps);
    assert k < |base.comps|;
    var parts := Ups(|base.comps| - k) + targ.comps[k..];
    assert parts[0] == "..";
    JoinWithHead(parts, '/');
  }

  /** filepath.Abs of an absolute clean path is that path. */
  lemma AbsRender(p: Path, wd: Path)
    requires IsClean(p) && p.absolute
    requires wd.absolute && IsClean(wd)
    ensures Abs(Render(p), wd) == p
  {
    RenderShape(p);
    CleanRender(p);
  }
}
