/** A lexical model of Go's `path/filepath` on a system whose only separator is '/':
    `Clean`, `Join`, `Dir` and `Base`. Nothing here touches a disk.

    A path is split into its elements (the pieces between separators); `Clean` runs
    them through a stack (empty and "." elements vanish, ".." removes the element
    before it, or stays at the front of a relative path, or vanishes at the root)
    and renders the stack back with single separators. */
module Paths {
  import opened Text

  type Path = string

  /** The elements of `p`: the pieces between '/' characters. */
  function Split(p: string): (r: seq<string>)
    ensures |r| >= 1
    ensures forall i :: 0 <= i < |r| ==> '/' !in r[i]
    decreases |p|
  {
    if p == [] then [""]
    else if p[0] == '/' then [""] + Split(p[1..])
    else
      var t := Split(p[1..]);
      [[p[0]] + t[0]] + t[1..]
  }

  /** `strings.Join(s, "/")`. */
  function JoinSep(s: seq<string>): string
    decreases |s|
  {
    if |s| == 0 then ""
    else if |s| == 1 then s[0]
    else JoinSep(s[..|s| - 1]) + "/" + s[|s| - 1]
  }

  /** One element of the `Clean` loop applied to the stack of elements kept so far. */
  function Step(rooted: bool, stack: seq<string>, e: string): seq<string>
  {
    if e == "" || e == "." then stack
    else if e == ".." then
      if |stack| > 0 && stack[|stack| - 1] != ".." then stack[..|stack| - 1]
      else if rooted then stack
      else stack + [".."]
    else stack + [e]
  }

  /** The `Clean` loop over the remaining elements. */
  function Resolve(rooted: bool, stack: seq<string>, elems: seq<string>): seq<string>
    decreases |elems|
  {
    if elems == [] then stack else Resolve(rooted, Step(rooted, stack, elems[0]), elems[1..])
  }

  /** A stack `Clean` can produce: no empty, "." or separator-holding element, and ".."
      only as a leading run of a relative path. */
  ghost predicate Canonical(rooted: bool, s: seq<string>) {
    forall i :: 0 <= i < |s| ==>
      && s[i] != "" && s[i] != "." && '/' !in s[i]
      && (s[i] == ".." ==> !rooted && forall j :: 0 <= j < i ==> s[j] == "..")
  }

  /** The text of a stack: "/" in front when rooted, "." for an empty relative stack. */
  function Render(rooted: bool, s: seq<string>): Path {
    if rooted then "/" + JoinSep(s)
    else if s == [] then "."
    else JoinSep(s)
  }

  function CleanElems(p: string): seq<string>
    requires p != []
  {
    Resolve(p[0] == '/', [], Split(p))
  }

  /** `filepath.Clean`: the shortest lexically equivalent path. */
  function Clean(p: string): Path {
    if p == [] then "." else Render(p[0] == '/', CleanElems(p))
  }

  /** `filepath.Join`: the non-empty tail of `elems`, joined with "/" and cleaned;
      "" when every element is empty. */
  function Join(elems: seq<string>): Path
    decreases |elems|
  {
    if elems == [] then ""
    else if elems[0] != "" then Clean(JoinSep(elems))
    else Join(elems[1..])
  }

  /** Position of the last '/' in `p`, or -1. */
  function LastSlash(p: string): (i: int)
    ensures -1 <= i < |p|
    ensures i >= 0 ==> p[i] == '/'
    ensures forall j :: i < j < |p| ==> p[j] != '/'
    decreases |p|
  {
    if p == [] then -1
    else if p[|p| - 1] == '/' then |p| - 1
    else LastSlash(p[..|p| - 1])
  }

  /** `filepath.Dir`: everything up to the last separator, cleaned. */
  function Dir(p: string): Path {
    Clean(p[..LastSlash(p) + 1])
  }

  function TrimTrailingSlashes(p: string): (r: string)
    ensures r <= p
    ensures r != [] ==> r[|r| - 1] != '/'
    decreases |p|
  {
    if p != [] && p[|p| - 1] == '/' then TrimTrailingSlashes(p[..|p| - 1]) else p
  }

  /** `filepath.Base`: the last element, after trailing separators are dropped. */
  function Base(p: string): (r: string)
    ensures r != ""
    ensures r == "/" || '/' !in r
  {
    if p == [] then "."
    else
      var t := TrimTrailingSlashes(p);
      if t == [] then "/" else t[LastSlash(t) + 1..]
  }

  // ----- Split, JoinSep and Resolve -----

  lemma {:induction false} SplitPlain(e: string)
    requires '/' !in e
    ensures Split(e) == [e]
    decreases |e|
  {
    if e != [] {
      assert '/' !in e[1..] by {
        forall k | 0 <= k < |e[1..]| ensures e[1..][k] != '/' { assert e[1..][k] == e[k + 1]; }
      }
      SplitPlain(e[1..]);
      assert [e[0]] + e[1..] == e;
    }
  }

  /** A separator splits a path into the elements of both sides. */
  lemma {:induction false} SplitAtSlash(a: string, b: string)
    ensures Split(a + "/" + b) == Split(a) + Split(b)
    decreases |a|
  {
    if a == [] {
      assert a + "/" + b == "/" + b;
      assert ("/" + b)[1..] == b;
    } else {
      var p := a + "/" + b;
      assert p[0] == a[0];
      assert p[1..] == a[1..] + "/" + b;
      SplitAtSlash(a[1..], b);
    }
  }

  /** Splitting undoes joining, for elements without separators. */
  lemma {:induction false} SplitJoinSep(s: seq<string>)
    requires |s| >= 1
    requires forall i :: 0 <= i < |s| ==> '/' !in s[i]
    ensures Split(JoinSep(s)) == s
    decreases |s|
  {
    if |s| == 1 {
      SplitPlain(s[0]);
    } else {
      var init := s[..|s| - 1];
      SplitJoinSep(init);
      SplitAtSlash(JoinSep(init), s[|s| - 1]);
      SplitPlain(s[|s| - 1]);
      assert init + [s[|s| - 1]] == s;
    }
  }

  lemma {:induction false} JoinSepFirst(s: seq<string>)
    requires |s| >= 1
    ensures s[0] <= JoinSep(s)
    decreases |s|
  {
    if |s| > 1 {
      var init := s[..|s| - 1];
      JoinSepFirst(init);
      assert init[0] == s[0];
    }
  }

  lemma {:induction false} JoinSepSnoc(s: seq<string>, e: string)
    requires |s| >= 1
    ensures JoinSep(s + [e]) == JoinSep(s) + "/" + e
  {
    assert (s + [e])[..|s|] == s;
  }

  /** Resolving in two pieces is resolving the whole. */
  lemma {:induction false} ResolveAppend(rooted: bool, stack: seq<string>, t: seq<string>, u: seq<string>)
    ensures Resolve(rooted, stack, t + u) == Resolve(rooted, Resolve(rooted, stack, t), u)
    decreases |t|
  {
    if t == [] {
      assert t + u == u;
    } else {
      assert (t + u)[0] == t[0];
      assert (t + u)[1..] == t[1..] + u;
      ResolveAppend(rooted, Step(rooted, stack, t[0]), t[1..], u);
    }
  }

  lemma StepCanonical(rooted: bool, stack: seq<string>, e: string)
    requires Canonical(rooted, stack) && '/' !in e
    ensures Canonical(rooted, Step(rooted, stack, e))
  {
  }

  /** Every stack `Clean` builds is canonical. */
  lemma {:induction false} ResolveCanonical(rooted: bool, stack: seq<string>, elems: seq<string>)
    requires Canonical(rooted, stack)
    requires forall i :: 0 <= i < |elems| ==> '/' !in elems[i]
    ensures Canonical(rooted, Resolve(rooted, stack, elems))
    decreases |elems|
  {
    if elems != [] {
      StepCanonical(rooted, stack, elems[0]);
      ResolveCanonical(rooted, Step(rooted, stack, elems[0]), elems[1..]);
    }
  }

  /** Resolving canonical elements onto a stack keeps all of them. */
  lemma {:induction false} ResolveKeepsCanonical(rooted: bool, stack: seq<string>, t: seq<string>)
    requires Canonical(rooted, stack + t)
    ensures Resolve(rooted, stack, t) == stack + t
    decreases |t|
  {
    if t != [] {
      var st := stack + [t[0]];
      assert (stack + t)[|stack|] == t[0];
      if t[0] == ".." && |stack| > 0 {
        assert (stack + t)[|stack| - 1] == stack[|stack| - 1];
      }
      assert Step(rooted, stack, t[0]) == st;
      assert st + t[1..] == stack + t;
      ResolveKeepsCanonical(rooted, st, t[1..]);
    }
  }

  // ----- Clean -----

  /** `Clean`'s result is a canonical stack, rendered. */
  lemma CleanShape(p: string)
    requires p != []
    ensures Canonical(p[0] == '/', CleanElems(p))
    ensures Clean(p) == Render(p[0] == '/', CleanElems(p))
  {
    ResolveCanonical(p[0] == '/', [], Split(p));
  }

  /** Rendering a canonical stack gives a clean path that splits back into the same stack. */
  lemma {:induction false} RenderIsClean(rooted: bool, s: seq<string>)
    requires Canonical(rooted, s)
    ensures Render(rooted, s) != [] && (Render(rooted, s)[0] == '/' <==> rooted)
    ensures CleanElems(Render(rooted, s)) == s
    ensures Clean(Render(rooted, s)) == Render(rooted, s)
  {
    var p := Render(rooted, s);
    if rooted {
      assert p[1..] == JoinSep(s);
      if s == [] {
        assert Split(p) == ["", ""];
      } else {
        SplitJoinSep(s);
        assert Split(p) == [""] + s;
        ResolveAppend(rooted, [], [""], s);
        ResolveKeepsCanonical(rooted, [], s);
        assert [] + s == s;
      }
    } else if s == [] {
      assert p == ".";
      SplitPlain(".");
    } else {
      JoinSepFirst(s);
      assert p[0] == s[0][0];
      SplitJoinSep(s);
      ResolveKeepsCanonical(rooted, [], s);
      assert [] + s == s;
    }
  }

  /** Cleaning twice is cleaning once (documented for `filepath.Clean`). */
  lemma CleanIdempotent(p: string)
    ensures Clean(Clean(p)) == Clean(p)
  {
    if p != [] {
      CleanShape(p);
      RenderIsClean(p[0] == '/', CleanElems(p));
    } else {
      assert Clean(p) == Render(false, []);
      RenderIsClean(false, []);
    }
  }

  /** A trailing separator, or a trailing "." element, does not change the cleaned path. */
  lemma CleanIgnoresTrailing(p: string, e: string)
    requires p != [] && (e == "" || e == ".")
    ensures Clean(p + "/" + e) == Clean(p)
  {
    var r := p[0] == '/';
    SplitAtSlash(p, e);
    SplitPlain(e);
    assert (p + "/" + e)[0] == p[0];
    ResolveAppend(r, [], Split(p), [e]);
    var x := Resolve(r, [], Split(p));
    assert Resolve(r, x, [e]) == x;
    assert CleanElems(p + "/" + e) == x;
  }

  lemma CleanTrailingSlash(p: string)
    requires p != []
    ensures Clean(p + "/") == Clean(p)
  {
    CleanIgnoresTrailing(p, "");
    assert p + "/" + "" == p + "/";
  }

  /** `Join` of two elements, written out. */
  lemma Join2(a: string, b: string)
    ensures Join([a, b]) == if a != "" then Clean(a + "/" + b) else if b != "" then Clean(b) else ""
  {
    if a != "" {
      assert [a, b][..1] == [a];
      assert JoinSep([a, b]) == a + "/" + b;
    } else {
      assert [a, b][1..] == [b];
      assert Join([a, b]) == Join([b]);
      if b != "" {
        assert JoinSep([b]) == b;
      } else {
        assert [b][1..] == [];
      }
    }
  }

  /** Cleaning a path given by its elements: the first element decides whether it is rooted. */
  lemma CleanOfElements(s: seq<string>)
    requires |s| >= 2 || (|s| == 1 && s[0] != "")
    requires forall i :: 0 <= i < |s| ==> '/' !in s[i]
    ensures Clean(JoinSep(s)) == Render(s[0] == "", Resolve(s[0] == "", [], s))
  {
    var p := JoinSep(s);
    SplitJoinSep(s);
    JoinSepFirst(s);
    if s[0] == "" {
      assert JoinSep(s) == JoinSep(s[..|s| - 1]) + "/" + s[|s| - 1];
      JoinSepFirst(s[..|s| - 1]);
      assert s[..|s| - 1][0] == "";
      if |s| > 2 {
        assert p[0] == '/';
      } else {
        assert s[..|s| - 1] == [""];
        assert p[0] == '/';
      }
    } else {
      assert p[0] == s[0][0];
    }
  }

  // ----- Dir -----

  lemma RenderSnoc(rooted: bool, s: seq<string>, e: string)
    requires s != []
    ensures Render(rooted, s + [e]) == Render(rooted, s) + "/" + e
  {
    JoinSepSnoc(s, e);
    if rooted {
      assert "/" + (JoinSep(s) + "/" + e) == ("/" + JoinSep(s)) + "/" + e;
    }
  }

  lemma CanonicalInit(rooted: bool, s: seq<string>, e: string)
    requires Canonical(rooted, s + [e])
    ensures Canonical(rooted, s) && '/' !in e && e != "" && e != "."
  {
    assert (s + [e])[|s|] == e;
    forall i | 0 <= i < |s| ensures s[i] == (s + [e])[i] { }
  }

  /** The parent of a clean path with at least two elements is the path without its last element. */
  lemma DirOfRender(rooted: bool, s: seq<string>, e: string)
    requires Canonical(rooted, s + [e]) && s != []
    ensures Render(rooted, s + [e]) == Render(rooted, s) + "/" + e
    ensures LastSlash(Render(rooted, s + [e])) == |Render(rooted, s)|
    ensures Dir(Render(rooted, s + [e])) == Render(rooted, s)
  {
    RenderSnoc(rooted, s, e);
    CanonicalInit(rooted, s, e);
    var x := Render(rooted, s);
    var p := x + "/" + e;
    LastSlashAfter(x, e);
    assert p[..|x| + 1] == x + "/";
    RenderIsClean(rooted, s);
    CleanTrailingSlash(x);
  }

  lemma LastSlashAfter(x: string, e: string)
    requires '/' !in e
    ensures LastSlash(x + "/" + e) == |x|
  {
    var p := x + "/" + e;
    var i := LastSlash(p);
    assert p[|x|] == '/';
    if i > |x| {
      assert false;
    }
  }

  /** A clean path strictly below `d` has its parent at `d` or below `d`: the parent
      directories `MkdirAll` creates for it never leave `d`. */
  lemma DirStaysBelow(x: string, d: string)
    requires d != "" && HasPrefix(Clean(x), d + "/")
    ensures Dir(Clean(x)) == d || HasPrefix(Dir(Clean(x)), d + "/")
  {
    var p := Clean(x);
    assert x != [];
    var r := x[0] == '/';
    var s := CleanElems(x);
    CleanShape(x);
    assert p[|d|] == '/' && |p| > |d|;
    if |s| <= 1 {
      assert false;
    } else {
      var init := s[..|s| - 1];
      var e := s[|s| - 1];
      assert init + [e] == s;
      DirOfRender(r, init, e);
      var xp := Render(r, init);
      assert '/' !in e by { assert s[|s| - 1] == e; }
      ParentPrefix(p, xp, e, d);
    }
  }

  /** The parent part of `xp/e` keeps a prefix `d/` of the whole, unless it is `d` itself. */
  lemma ParentPrefix(p: string, xp: string, e: string, d: string)
    requires p == xp + "/" + e && '/' !in e && d != "" && HasPrefix(p, d + "/")
    ensures xp == d || HasPrefix(xp, d + "/")
  {
    assert p[|d|] == '/';
    if |d| > |xp| {
      assert false;
    }
    assert p[..|d|] == d;
    assert xp == p[..|xp|];
  }

  /** A cleaned path is never empty: it is "." or "/" when no element survives. */
  lemma CleanNonEmpty(p: string)
    ensures Clean(p) != []
  {
    if p != [] {
      CleanShape(p);
      RenderIsClean(p[0] == '/', CleanElems(p));
    }
  }

  // ----- Children -----

  /** A name that `Clean` keeps as one element of its own. */
  predicate PlainName(e: string) {
    e != "" && e != "." && e != ".." && '/' !in e
  }

  lemma CleanElemsChild(p: string, e: string)
    requires p != [] && PlainName(e)
    ensures (p + "/" + e)[0] == p[0]
    ensures CleanElems(p + "/" + e) == CleanElems(p) + [e]
  {
    var r := p[0] == '/';
    SplitAtSlash(p, e);
    SplitPlain(e);
    assert (p + "/" + e)[0] == p[0];
    ResolveAppend(r, [], Split(p), [e]);
    assert Resolve(r, CleanElems(p), [e]) == CleanElems(p) + [e];
  }

  /** The parent and last element of a stack with one element, rendered. */
  lemma RenderSingle(rooted: bool, e: string)
    requires PlainName(e)
    ensures Dir(Render(rooted, [e])) == Render(rooted, [])
    ensures Render(rooted, [e]) == e || Render(rooted, [e]) == "/" + e
  {
    assert JoinSep([e]) == e;
    if rooted {
      var c := "/" + e;
      LastSlashAfter("", e);
      assert "" + "/" + e == c;
      assert c[..1] == "/";
      assert Split("/") == ["", ""];
      assert Clean("/") == Render(true, []);
    } else {
      assert LastSlash(e) == -1;
    }
  }

  /** Spelled out, the child is the cleaned path, a separator and the name, except below "."
      and "/", where it is the name alone or the name after "/". */
  lemma CleanChildShape(p: string, e: string)
    requires p != [] && PlainName(e)
    ensures var c := Clean(p + "/" + e); c == Clean(p) + "/" + e || c == e || c == "/" + e
  {
    var r := p[0] == '/';
    var s := CleanElems(p);
    CleanElemsChild(p, e);
    CleanShape(p);
    if s != [] {
      DirOfRender(r, s, e);
    } else {
      assert s + [e] == [e];
      RenderSingle(r, e);
    }
  }

  /** Appending a plain name to any path makes a child of the cleaned path: its parent is
      that path and its last element is the name. */
  lemma CleanChild(p: string, e: string)
    requires p != [] && PlainName(e)
    ensures Dir(Clean(p + "/" + e)) == Clean(p)
    ensures Base(Clean(p + "/" + e)) == e
    ensures !(Clean(p + "/" + e) <= Clean(p))
  {
    var r := p[0] == '/';
    var s := CleanElems(p);
    CleanElemsChild(p, e);
    CleanShape(p);
    assert Canonical(r, s + [e]);
    assert Clean(p + "/" + e) == Render(r, s + [e]);
    RenderChild(r, s, e);
  }

  /** A plain name pushed on a clean stack renders as a child of the stack's rendering. */
  lemma RenderChild(r: bool, s: seq<string>, e: string)
    requires PlainName(e) && Canonical(r, s + [e])
    ensures Dir(Render(r, s + [e])) == Render(r, s)
    ensures Base(Render(r, s + [e])) == e
    ensures !(Render(r, s + [e]) <= Render(r, s))
  {
    var c := Render(r, s + [e]);
    if s != [] {
      DirOfRender(r, s, e);
      assert |c| > |Render(r, s)|;
    } else {
      assert s + [e] == [e];
      TopChild(r, e);
    }
    BaseOfChild(c, e);
  }

  /** A plain name alone on the stack renders as itself, below the root or the current
      directory, and is neither of them. */
  lemma TopChild(r: bool, e: string)
    requires PlainName(e)
    ensures Dir(Render(r, [e])) == Render(r, [])
    ensures Render(r, [e]) == e || Render(r, [e]) == "/" + e
    ensures Render(r, [e]) != "." && Render(r, [e]) != "/"
  {
    RenderSingle(r, e);
    var c := Render(r, [e]);
    if c == "/" + e {
      assert c[1..] == e;
    }
  }

  lemma BaseOfChild(c: string, e: string)
    requires PlainName(e) && (c == e || (|c| > |e| && c[|c| - |e| - 1] == '/' && c[|c| - |e|..] == e))
    ensures Base(c) == e
  {
    assert c[|c| - 1] == e[|e| - 1];
    assert TrimTrailingSlashes(c) == c;
    if c == e {
      assert LastSlash(c) == -1;
    } else {
      LastSlashAfter(c[..|c| - |e| - 1], e);
      assert c == c[..|c| - |e| - 1] + "/" + e;
    }
  }

  /** `Join` of a rooted-or-relative base and one more plain name: the result's parent is the
      join of the base and its last element is the name. */
  lemma JoinChild(elems: seq<string>, e: string)
    requires elems != [] && elems[0] != "" && PlainName(e)
    ensures Dir(Join(elems + [e])) == Join(elems)
    ensures Base(Join(elems + [e])) == e
    ensures !(Join(elems + [e]) <= Join(elems))
  {
    JoinSepSnoc(elems, e);
    JoinSepFirst(elems);
    assert (elems + [e])[0] == elems[0];
    CleanChild(JoinSep(elems), e);
  }

  /** A name of the form "../e" makes `Clean` drop the last element and put `e` in its place. */
  lemma CleanElemsUpAndOver(p: string, e: string)
    requires p != [] && PlainName(e)
    requires CleanElems(p) != [] && CleanElems(p)[|CleanElems(p)| - 1] != ".."
    ensures (p + "/../" + e)[0] == p[0]
    ensures CleanElems(p + "/../" + e) == CleanElems(p)[..|CleanElems(p)| - 1] + [e]
  {
    var r := p[0] == '/';
    var s := CleanElems(p);
    SplitUpAndOver(p, e);
    ResolveAppend(r, [], Split(p), ["..", e]);
    ResolveUpAndOver(r, s, e);
    assert (p + "/../" + e)[0] == p[0];
  }

  lemma SplitUpAndOver(p: string, e: string)
    requires PlainName(e)
    ensures Split(p + "/../" + e) == Split(p) + ["..", e]
  {
    assert p + "/../" + e == p + "/" + (".." + "/" + e);
    SplitAtSlash(p, ".." + "/" + e);
    SplitAtSlash("..", e);
    SplitPlain("..");
    SplitPlain(e);
  }

  lemma ResolveUpAndOver(r: bool, s: seq<string>, e: string)
    requires PlainName(e) && s != [] && s[|s| - 1] != ".."
    ensures Resolve(r, s, ["..", e]) == s[..|s| - 1] + [e]
  {
    assert ["..", e][1..] == [e];
    assert Step(r, s, "..") == s[..|s| - 1];
    assert Resolve(r, s, ["..", e]) == Resolve(r, s[..|s| - 1], [e]);
    assert [e][1..] == [];
    assert Resolve(r, s[..|s| - 1], [e]) == Resolve(r, s[..|s| - 1] + [e], []);
  }

  /** The text of a stack with a last element: a fixed front, then the element. */
  lemma RenderFront(rooted: bool, init: seq<string>, x: string)
    ensures Render(rooted, init + [x]) == RenderPrefix(rooted, init) + x
  {
    if init != [] {
      RenderSnoc(rooted, init, x);
    } else {
      assert init + [x] == [x];
      assert JoinSep([x]) == x;
    }
  }

  function RenderPrefix(rooted: bool, init: seq<string>): string {
    if init != [] then Render(rooted, init) + "/" else if rooted then "/" else ""
  }

  lemma NotBelowSibling(front: string, a: string, b: string)
    requires '/' !in b
    ensures !HasPrefix(front + b, front + a + "/")
  {
    if |b| > |a| {
      assert (front + b)[|front| + |a|] == b[|a|];
      assert (front + a + "/")[|front| + |a|] == '/';
    }
  }

  /** `p` cleans to a path whose last element is a name, so ".." after it goes back one level. */
  predicate EndsInName(p: string) {
    p != [] && CleanElems(p) != [] && CleanElems(p)[|CleanElems(p)| - 1] != ".."
  }

  /** A name "../e" joined to a path lands beside it, not inside it: its parent is the path's
      parent and it does not start with the cleaned path and a separator. */
  lemma CleanUpAndOver(p: string, e: string)
    requires EndsInName(p) && PlainName(e)
    ensures Dir(Clean(p + "/../" + e)) == Dir(Clean(p))
    ensures Base(Clean(p + "/../" + e)) == e
    ensures !HasPrefix(Clean(p + "/../" + e), Clean(p) + "/")
  {
    var r := p[0] == '/';
    var s := CleanElems(p);
    var init := s[..|s| - 1];
    var last := s[|s| - 1];
    assert init + [last] == s;
    CleanElemsUpAndOver(p, e);
    CleanShape(p);
    CanonicalInit(r, init, last);
    assert Clean(p + "/../" + e) == Render(r, init + [e]);
    assert Clean(p) == Render(r, init + [last]);
    SiblingRender(r, init, last, e);
  }

  /** Two stacks that differ only in their last element render to siblings. */
  lemma SiblingRender(r: bool, init: seq<string>, last: string, e: string)
    requires Canonical(r, init) && PlainName(e) && PlainName(last)
    ensures Dir(Render(r, init + [e])) == Dir(Render(r, init + [last]))
    ensures Base(Render(r, init + [e])) == e
    ensures !HasPrefix(Render(r, init + [e]), Render(r, init + [last]) + "/")
  {
    SiblingDir(r, init, e);
    SiblingDir(r, init, last);
    RenderFront(r, init, e);
    RenderFront(r, init, last);
    NotBelowSibling(RenderPrefix(r, init), last, e);
    BaseOfChild(Render(r, init + [e]), e);
  }

  lemma SiblingDir(r: bool, init: seq<string>, e: string)
    requires Canonical(r, init) && PlainName(e)
    ensures Dir(Render(r, init + [e])) == Render(r, init)
  {
    StepCanonical(r, init, e);
    if init != [] {
      DirOfRender(r, init, e);
    } else {
      assert init + [e] == [e];
      RenderSingle(r, e);
    }
  }

  /** A path cleaned after a plain name is appended ends in that name. */
  lemma ChildEndsInName(p: string, e: string)
    requires p != [] && PlainName(e)
    ensures EndsInName(Clean(p + "/" + e))
  {
    var x := p + "/" + e;
    CleanElemsChild(p, e);
    CleanShape(x);
    RenderIsClean(x[0] == '/', CleanElems(x));
  }

  /** The same for `Join` whose last element is a plain name. */
  lemma JoinEndsInName(elems: seq<string>, e: string)
    requires elems != [] && elems[0] != "" && PlainName(e)
    ensures EndsInName(Join(elems + [e]))
  {
    JoinSepSnoc(elems, e);
    JoinSepFirst(elems);
    assert (elems + [e])[0] == elems[0];
    ChildEndsInName(JoinSep(elems), e);
  }
}
