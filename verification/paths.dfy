/** Absolute paths as component sequences, and the path-to-module-name
    steps shared by every resolution strategy: `os.path.splitext`, the
    `__init__` rule and `".".join`. */
module Paths {

  /** An absolute, normalised path as its components: `/home/u/pkg/m.py` is
      `["home", "u", "pkg", "m.py"]` and the filesystem root `/` is `[]`.
      Components never contain the separator. */
  type Path = seq<string>

  /** `os.path.dirname`; the root is its own parent. */
  function Dirname(p: Path): (r: Path)
    ensures r == p <==> |p| == 0
    ensures |p| > 0 ==> |r| == |p| - 1 && p[..|r|] == r
  {
    if |p| == 0 then p else p[..|p| - 1]
  }

  /** `os.path.basename`; the root has the empty basename. */
  function Basename(p: Path): string {
    if |p| == 0 then "" else p[|p| - 1]
  }

  /** `a` is `b` or an ancestor directory of `b`. */
  predicate IsPrefix(a: Path, b: Path) {
    |a| <= |b| && b[..|a|] == a
  }

  /** `/c1/c2/.../cn` without the leading root case. */
  function Slashed(p: Path): string {
    if |p| == 0 then "" else Slashed(p[..|p| - 1]) + "/" + p[|p| - 1]
  }

  /** The text of an absolute path: `"/"` for the root. */
  function Text(p: Path): string {
    if |p| == 0 then "/" else Slashed(p)
  }

  /** A deeper path has a strictly longer text. */
  lemma {:induction false} DeeperIsLonger(a: Path, b: Path)
    requires 0 < |a| < |b| && IsPrefix(a, b)
    ensures |Text(a)| < |Text(b)|
    decreases |b|
  {
    var up := b[..|b| - 1];
    assert |Slashed(b)| == |Slashed(up)| + 1 + |b[|b| - 1]|;
    if |a| < |up| {
      assert up[..|a|] == b[..|a|];
      DeeperIsLonger(a, up);
    } else {
      assert a == up;
    }
  }

  /** Every component is non-empty and free of the separator, as in a
      normalised absolute path. */
  predicate WellFormed(p: Path) {
    forall i :: 0 <= i < |p| ==> |p[i]| > 0 && '/' !in p[i]
  }

  /** `s.startswith(t)` */
  predicate StartsWith(s: string, t: string) {
    |t| <= |s| && s[..|t|] == t
  }

  /** The text of a path joined below another is the two texts one after
      the other. */
  lemma {:induction false} SlashedAppend(p: Path, q: Path)
    ensures Slashed(p + q) == Slashed(p) + Slashed(q)
    decreases |q|
  {
    if |q| > 0 {
      var up := q[..|q| - 1];
      assert (p + q)[..|p + q| - 1] == p + up;
      assert (p + q)[|p + q| - 1] == q[|q| - 1];
      SlashedAppend(p, up);
    } else {
      assert p + q == p;
    }
  }

  /** The text read from the front: `/c` and then the rest. */
  lemma SlashedCons(c: string, p: Path)
    ensures Slashed([c] + p) == "/" + c + Slashed(p)
  {
    SlashedAppend([c], p);
    assert [c][..0] == [];
  }

  /** The text of a path below `a` starts with the text of `a` and a
      separator. */
  lemma AncestorTextIsPrefix(a: Path, b: Path)
    requires 0 < |a| < |b| && IsPrefix(a, b)
    ensures StartsWith(Slashed(b), Slashed(a) + "/")
  {
    var rest := b[|a|..];
    PrefixSplit(a, b);
    SlashedAppend(a, rest);
    var tail := rest[0] + Slashed(rest[1..]);
    assert Slashed(rest) == "/" + tail by {
      assert rest == [rest[0]] + rest[1..];
      SlashedCons(rest[0], rest[1..]);
    }
    var sa := Slashed(a);
    assert Slashed(b) == (sa + "/") + tail;
    ConcatStartsWith(sa + "/", tail);
  }

  /** A path is its ancestor followed by the components below it. */
  lemma PrefixSplit(a: Path, b: Path)
    requires IsPrefix(a, b)
    ensures b == a + b[|a|..]
  {
  }

  /** A text starts with any of its own prefixes. */
  lemma ConcatStartsWith(x: string, y: string)
    ensures StartsWith(x + y, x)
  {
    assert (x + y)[..|x|] == x;
  }

  /** Positions of the text of `[c] + p`: the separator, then `c`, then the
      separator that starts `p` when `p` is not empty. */
  lemma SlashedHead(c: string, p: Path)
    ensures var t := Slashed([c] + p);
            && |t| == 1 + |c| + |Slashed(p)|
            && t[0] == '/'
            && (forall i :: 0 <= i < |c| ==> t[1 + i] == c[i])
            && (|p| > 0 ==> t[1 + |c|] == '/')
            && t[1 + |c|..] == Slashed(p)
  {
    SlashedCons(c, p);
    if |p| > 0 {
      SlashedCons(p[0], p[1..]);
      assert p == [p[0]] + p[1..];
    }
  }

  /** A text that spells `c` from position `off` has no separator there. */
  lemma NoSeparatorIn(c: string, t: string, off: nat)
    requires '/' !in c && |t| >= off + |c|
    requires forall i :: 0 <= i < |c| ==> t[off + i] == c[i]
    ensures forall k :: off <= k < off + |c| ==> t[k] != '/'
  {
    forall k | off <= k < off + |c|
      ensures t[k] != '/'
    {
      assert t[off + (k - off)] == c[k - off];
      assert c[k - off] in c;
    }
  }

  /** The first components agree when one text starts with the other's
      first component and a separator. */
  lemma SameFirstComponent(a0: string, b0: string, s: string, t: string)
    requires '/' !in a0 && '/' !in b0
    requires |s| > 1 + |a0| && s[0] == '/' && s[1 + |a0|] == '/'
    requires forall i :: 0 <= i < |a0| ==> s[1 + i] == a0[i]
    requires |t| >= |s| && t[..|s|] == s && |t| >= 1 + |b0|
    requires forall i :: 0 <= i < |b0| ==> t[1 + i] == b0[i]
    requires |t| > 1 + |b0| ==> t[1 + |b0|] == '/'
    ensures a0 == b0
  {
    NoSeparatorIn(b0, t, 1);
    NoSeparatorIn(a0, s, 1);
    assert forall k :: 0 <= k < |s| ==> t[k] == s[k];
    assert t[1 + |a0|] == '/';
    assert |b0| <= |a0|;
    assert |a0| <= |b0|;
    forall i | 0 <= i < |a0|
      ensures a0[i] == b0[i]
    {
      assert t[1 + i] == s[1 + i];
    }
  }

  /** Conversely, a text that starts with the text of `a` and a separator is
      the text of a path below `a`: the separator pins the match to a
      component boundary. */
  lemma {:induction false} TextPrefixIsAncestor(a: Path, b: Path)
    requires WellFormed(a) && WellFormed(b) && |a| > 0
    requires StartsWith(Slashed(b), Slashed(a) + "/")
    ensures |a| < |b| && IsPrefix(a, b)
    decreases |a|
  {
    var s := Slashed(a) + "/";
    var t := Slashed(b);
    var a0, a1 := a[0], a[1..];
    assert a == [a0] + a1;
    SlashedHead(a0, a1);
    if |b| == 0 {
      assert false;
    }
    var b0, b1 := b[0], b[1..];
    assert b == [b0] + b1;
    SlashedHead(b0, b1);
    assert s[1 + |a0|] == '/' by {
      if |a1| == 0 {
        assert Slashed(a1) == "";
      }
    }
    assert forall i :: 0 <= i < |a0| ==> s[1 + i] == a0[i];
    SameFirstComponent(a0, b0, s, t);
    var n := 1 + |a0|;
    assert s[n..] == Slashed(a1) + "/";
    assert StartsWith(Slashed(b1), Slashed(a1) + "/") by {
      assert t[n..][..|s| - n] == s[n..];
    }
    if |a1| == 0 {
      if |b1| == 0 {
        assert false;
      }
      assert b[..|a|] == [b0];
    } else {
      assert WellFormed(a1) by {
        forall i | 0 <= i < |a1| ensures |a1[i]| > 0 && '/' !in a1[i] { assert a1[i] == a[i + 1]; }
      }
      assert WellFormed(b1) by {
        forall i | 0 <= i < |b1| ensures |b1[i]| > 0 && '/' !in b1[i] { assert b1[i] == b[i + 1]; }
      }
      TextPrefixIsAncestor(a1, b1);
      assert b[..|a|] == [b0] + b1[..|a1|];
    }
  }

  /** No well-formed path's text starts with `"//"`, the root's text and a
      separator. */
  lemma RootTextIsNoPrefix(b: Path)
    requires WellFormed(b)
    ensures !StartsWith(Text(b), Text([]) + "/")
  {
    if |b| > 0 {
      assert b == [b[0]] + b[1..];
      SlashedHead(b[0], b[1..]);
      assert b[0][0] in b[0];
    }
  }

  /** `file.startswith(entry + "/")`, for well-formed absolute paths, holds
      exactly when `entry` is a proper ancestor directory of `file` other
      than the root. */
  lemma StartsWithIffAncestor(a: Path, b: Path)
    requires WellFormed(a) && WellFormed(b)
    ensures StartsWith(Text(b), Text(a) + "/") <==> 0 < |a| < |b| && IsPrefix(a, b)
  {
    if |a| == 0 {
      RootTextIsNoPrefix(b);
    } else if 0 < |a| < |b| && IsPrefix(a, b) {
      AncestorTextIsPrefix(a, b);
    } else if StartsWith(Text(b), Text(a) + "/") {
      if |b| == 0 {
        assert false;
      }
      TextPrefixIsAncestor(a, b);
    }
  }

  /** Position of the last `'.'` in `s`, if any. */
  function LastDot(s: string): (r: int)
    ensures -1 <= r < |s|
    ensures r >= 0 ==> s[r] == '.'
    ensures forall i :: r < i < |s| ==> s[i] != '.'
  {
    if |s| == 0 then -1
    else if s[|s| - 1] == '.' then |s| - 1
    else LastDot(s[..|s| - 1])
  }

  /** Some character of `s` is not a dot. */
  predicate HasNonDot(s: string) {
    exists i :: 0 <= i < |s| && s[i] != '.'
  }

  /** `os.path.splitext(name)[0]` on a final path component: the suffix from
      the last dot is dropped, unless everything before that dot is dots
      (so `.bashrc` and `..x` keep their text). */
  function StripExt(name: string): (r: string)
    ensures |r| <= |name| && name[..|r|] == r
    ensures r != name ==> name[|r|] == '.' && HasNonDot(r) && forall i :: |r| < i < |name| ==> name[i] != '.'
    ensures r == name <==> forall i :: 0 <= i < |name| && name[i] == '.' ==> !HasNonDot(name[..i])
  {
    var d := LastDot(name);
    if d >= 0 && HasNonDot(name[..d]) then name[..d]
    else
      assert forall i :: 0 <= i < |name| && name[i] == '.' ==> !HasNonDot(name[..i]) by {
        forall i | 0 <= i < |name| && name[i] == '.'
          ensures !HasNonDot(name[..i])
        {
          if HasNonDot(name[..i]) {
            NonDotInLongerPrefix(name, i, d);
          }
        }
      }
      name
  }

  /** A non-dot character before position `i` is also before any later
      position `d`. */
  lemma NonDotInLongerPrefix(s: string, i: nat, d: nat)
    requires i <= d <= |s| && HasNonDot(s[..i])
    ensures HasNonDot(s[..d])
  {
    var j :| 0 <= j < i && s[..i][j] != '.';
    assert s[..d][j] == s[j];
  }

  /** Dropping `"." + ext` works whenever `ext` has no dot and the stem has
      some character other than a dot: `StripExt("mod.py") == "mod"`. */
  lemma StripExtOfSuffixed(stem: string, ext: string)
    requires HasNonDot(stem)
    requires forall i :: 0 <= i < |ext| ==> ext[i] != '.'
    ensures StripExt(stem + "." + ext) == stem
  {
    var name := stem + "." + ext;
    var d := LastDot(name);
    assert name[|stem|] == '.';
    assert d == |stem|;
    assert name[..d] == stem;
  }

  /** The module parts of a file path relative to a directory: the
      extension of the last component dropped (`splitext`), then a trailing
      `__init__` removed. */
  function ModuleParts(rel: Path): (parts: seq<string>)
    requires |rel| > 0
    ensures |rel| - 1 <= |parts| <= |rel|
    ensures parts[..|rel| - 1] == rel[..|rel| - 1]
    ensures |parts| == |rel| <==> StripExt(rel[|rel| - 1]) != "__init__"
    ensures |parts| == |rel| ==> parts[|rel| - 1] == StripExt(rel[|rel| - 1])
  {
    var parts := rel[..|rel| - 1] + [StripExt(rel[|rel| - 1])];
    if parts[|parts| - 1] == "__init__" then parts[..|parts| - 1] else parts
  }

  /** `".".join(parts)` */
  function JoinDots(parts: seq<string>): string {
    if |parts| == 0 then ""
    else if |parts| == 1 then parts[0]
    else parts[0] + "." + JoinDots(parts[1..])
  }

  /** The module parts of the ordinary files: `a/b/m.py` gives `a.b.m` and
      `a/b/__init__.py` gives `a.b`. */
  lemma ModulePartsOfSourceFile(dirs: seq<string>, stem: string)
    requires HasNonDot(stem)
    ensures stem != "__init__" ==> ModuleParts(dirs + [stem + ".py"]) == dirs + [stem]
    ensures stem == "__init__" ==> ModuleParts(dirs + [stem + ".py"]) == dirs
  {
    var rel := dirs + [stem + ".py"];
    StripExtOfSuffixed(stem, "py");
    assert stem + "." + "py" == stem + ".py";
    assert rel[..|rel| - 1] == dirs;
  }
}
