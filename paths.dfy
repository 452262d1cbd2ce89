/**
 * The subset of Python's `pathlib.PurePosixPath` that the build generator relies on:
 * construction from a string, `/`, `name`, `stem`, `suffix`, `with_suffix`, `with_stem`,
 * `relative_to` and `as_posix`. A path is the sequence of its components (`parts`);
 * only relative paths are modelled.
 */
module Paths {
  import opened Strings
  import opened Wrappers

  datatype Path = Path(parts: seq<string>)

  /** A component as `Path(s)` produces it: not empty, not ".", no separator. */
  predicate ValidPart(x: string)
  {
    x != "" && x != "." && '/' !in x
  }

  /** The components that `Path(s)` keeps of the pieces between separators. */
  function KeptParts(pieces: seq<string>): seq<string>
  {
    if |pieces| == 0 then []
    else (if pieces[0] == "" || pieces[0] == "." then [] else [pieces[0]]) + KeptParts(pieces[1..])
  }

  /** `Path(s)`: empty and "." components are dropped. */
  function FromStr(s: string): Path
  {
    Path(KeptParts(Split(s, '/')))
  }

  /** A single valid component is parsed as itself. */
  lemma FromStrAtom(s: string)
    requires ValidPart(s)
    ensures FromStr(s) == Path([s])
  {
    SplitWithoutSeparator(s, '/');
    assert [s][1..] == [];
    assert KeptParts([s]) == [s] + KeptParts([]);
  }

  /** Every component that `Path(s)` keeps is a valid component. */
  lemma FromStrPartsValid(s: string)
    ensures forall k :: 0 <= k < |FromStr(s).parts| ==> ValidPart(FromStr(s).parts[k])
  {
    SplitPiecesLackSeparator(s, '/');
    KeptPartsValid(Split(s, '/'));
  }

  lemma {:induction false} KeptPartsValid(pieces: seq<string>)
    requires forall k :: 0 <= k < |pieces| ==> '/' !in pieces[k]
    ensures forall k :: 0 <= k < |KeptParts(pieces)| ==> ValidPart(KeptParts(pieces)[k])
    decreases |pieces|
  {
    if |pieces| > 0 {
      KeptPartsValid(pieces[1..]);
    }
  }

  /** `Path(Path(s).name)` is the one-component path of that name. */
  lemma NameIsAtom(s: string)
    requires Name(FromStr(s)) != ""
    ensures ValidPart(Name(FromStr(s))) && FromStr(Name(FromStr(s))) == Path([Name(FromStr(s))])
  {
    FromStrPartsValid(s);
    FromStrAtom(Name(FromStr(s)));
  }

  /** `p / q` for a relative `q`. */
  function Join(p: Path, q: Path): Path
  {
    Path(p.parts + q.parts)
  }

  /** `p / s` for a string `s`. */
  function Div(p: Path, s: string): Path
  {
    Join(p, FromStr(s))
  }

  /** `p.name`: the last component, "" for the empty path. */
  function Name(p: Path): string
  {
    if |p.parts| == 0 then "" else p.parts[|p.parts| - 1]
  }

  /** `p.parent` of a path with a name. */
  function Parent(p: Path): Path
  {
    if |p.parts| == 0 then p else Path(p.parts[..|p.parts| - 1])
  }

  /** `s.rfind(c)`: the last index of `c`, or -1. */
  function RFind(s: string, c: char): (i: int)
    ensures -1 <= i < |s|
    ensures i >= 0 ==> s[i] == c && forall k :: i < k < |s| ==> s[k] != c
    ensures i == -1 ==> forall k :: 0 <= k < |s| ==> s[k] != c
  {
    if |s| == 0 then -1
    else if s[|s| - 1] == c then |s| - 1
    else RFind(s[..|s| - 1], c)
  }

  /** `PurePath.suffix` of a name: from the last dot, unless that dot is first or last. */
  function Suffix(name: string): string
  {
    var i := RFind(name, '.');
    if 0 < i < |name| - 1 then name[i..] else ""
  }

  /** `PurePath.stem` of a name: the name without its suffix. */
  function Stem(name: string): (r: string)
    ensures name != "" ==> r != ""
  {
    var i := RFind(name, '.');
    if 0 < i < |name| - 1 then name[..i] else name
  }

  /** A suffix that `with_suffix` accepts: empty, or a dot followed by more, without separators. */
  predicate ValidSuffix(suffix: string)
  {
    suffix == "" || (suffix[0] == '.' && suffix != "." && '/' !in suffix)
  }

  /** `p.with_suffix(suffix)`: replaces (or adds, or with "" removes) the suffix of the last component. */
  function WithSuffix(p: Path, suffix: string): (r: Path)
    requires Name(p) != "" && ValidSuffix(suffix)
    ensures |r.parts| == |p.parts| && Parent(r) == Parent(p)
    ensures Name(r) == Stem(Name(p)) + suffix
  {
    Path(p.parts[..|p.parts| - 1] + [Stem(Name(p)) + suffix])
  }

  /** `p.with_stem(stem)`: a new stem, the suffix kept. */
  function WithStem(p: Path, stem: string): (r: Path)
    requires Name(p) != "" && ValidPart(stem + Suffix(Name(p)))
    ensures |r.parts| == |p.parts| && Parent(r) == Parent(p)
    ensures Name(r) == stem + Suffix(Name(p))
  {
    Path(p.parts[..|p.parts| - 1] + [stem + Suffix(Name(p))])
  }

  /** `p.relative_to(base)`: the components after `base`, or the ValueError (None) when `base` is not a prefix. */
  function RelativeTo(p: Path, base: Path): (r: Option<Path>)
    ensures r.Some? <==> base.parts <= p.parts
    ensures r.Some? ==> Join(base, r.value) == p
  {
    if base.parts <= p.parts then Some(Path(p.parts[|base.parts|..])) else None
  }

  /** `p.as_posix()` (and `str(p)` on a POSIX host). */
  function AsPosix(p: Path): string
  {
    if |p.parts| == 0 then "." else Strings.Join(p.parts, "/")
  }

  /** Joining keeps the name of the joined path and extends its parent. */
  lemma JoinParentName(p: Path, q: Path)
    requires |q.parts| > 0
    ensures Name(Join(p, q)) == Name(q)
    ensures Parent(Join(p, q)).parts == p.parts + Parent(q).parts
  {
    assert (p.parts + q.parts)[..|p.parts| + |q.parts| - 1] == p.parts + q.parts[..|q.parts| - 1];
  }

  /** `with_suffix("")` drops the suffix: the parent, then the stem. */
  lemma WithoutSuffix(p: Path)
    requires Name(p) != ""
    ensures WithSuffix(p, "") == Path(Parent(p).parts + [Stem(Name(p))])
  {
    assert Stem(Name(p)) + "" == Stem(Name(p));
  }

  /** A path joined below `base` is that path relative to `base`. */
  lemma RelativeToJoin(base: Path, q: Path)
    ensures RelativeTo(Join(base, q), base) == Some(q)
  {
    assert (base.parts + q.parts)[|base.parts|..] == q.parts;
  }

  /** A name is its stem followed by its suffix, and neither holds a separator the name lacks. */
  lemma StemAndSuffix(name: string)
    ensures Stem(name) + Suffix(name) == name
    ensures '/' !in name ==> '/' !in Stem(name) && '/' !in Suffix(name)
  {
    var i := RFind(name, '.');
    if 0 < i < |name| - 1 {
      assert name[..i] + name[i..] == name;
      assert forall k :: 0 <= k < i ==> name[..i][k] == name[k];
      assert forall k :: 0 <= k < |name| - i ==> name[i..][k] == name[i + k];
    } else {
      assert name + "" == name;
    }
  }

  /** A stem extended with a marker and given back its suffix is again a valid component. */
  lemma MarkedStemValid(name: string, marker: string)
    requires ValidPart(name) && marker != "" && '/' !in marker && marker != "."
    ensures ValidPart(Stem(name) + marker + Suffix(name))
  {
    StemAndSuffix(name);
    var r := Stem(name) + marker + Suffix(name);
    var a, b := |Stem(name)|, |Stem(name)| + |marker|;
    assert forall k :: 0 <= k < a ==> r[k] == Stem(name)[k];
    assert forall k :: a <= k < b ==> r[k] == marker[k - a];
    assert forall k :: b <= k < |r| ==> r[k] == Suffix(name)[k - b];
  }

  /** A one-dot suffix added to a non-empty stem is read back as the suffix, and the stem is kept. */
  lemma StemSuffixOf(stem: string, suffix: string)
    requires stem != "" && |suffix| >= 2 && suffix[0] == '.'
    requires forall k :: 1 <= k < |suffix| ==> suffix[k] != '.'
    ensures Suffix(stem + suffix) == suffix && Stem(stem + suffix) == stem
  {
    var n := stem + suffix;
    var i := RFind(n, '.');
    assert n[|stem|] == '.';
    assert i == |stem|;
    assert n[..i] == stem && n[i..] == suffix;
  }

  /** Dropping the suffix before setting one changes the result exactly when the stem has a suffix of its own. */
  lemma WithSuffixAfterDrop(p: Path, suffix: string)
    requires Name(p) != "" && ValidSuffix(suffix)
    ensures WithSuffix(WithSuffix(p, ""), suffix) == WithSuffix(p, suffix) <==> Suffix(Stem(Name(p))) == ""
  {
    var w := WithSuffix(p, "");
    var stem := Stem(Name(p));
    WithoutSuffix(p);
    StemAndSuffix(stem);
    if Suffix(stem) == "" {
      assert stem + "" == stem;
      assert Stem(stem) == stem;
      assert w.parts[..|w.parts| - 1] == p.parts[..|p.parts| - 1];
    } else {
      assert |Stem(stem)| < |stem|;
      assert |Name(WithSuffix(w, suffix))| != |Name(WithSuffix(p, suffix))|;
    }
  }

  /**
   * A name with two one-dot suffixes, such as "a.b.c", has the first of them left on its stem:
   * its stem's own suffix is not empty, so dropping the suffix first changes `with_suffix`.
   */
  lemma DoubleSuffixStems(stem: string, s1: string, s2: string)
    requires stem != "" && |s1| >= 2 && s1[0] == '.' && |s2| >= 2 && s2[0] == '.'
    requires forall k :: 1 <= k < |s1| ==> s1[k] != '.'
    requires forall k :: 1 <= k < |s2| ==> s2[k] != '.'
    ensures Stem(stem + s1 + s2) == stem + s1 && Suffix(stem + s1 + s2) == s2
    ensures Suffix(Stem(stem + s1 + s2)) == s1 && Stem(Stem(stem + s1 + s2)) == stem
  {
    StemSuffixOf(stem + s1, s2);
    StemSuffixOf(stem, s1);
  }

  /** The POSIX form of a three-component path. */
  lemma AsPosixThree(a: string, b: string, c: string)
    ensures AsPosix(Path([a, b, c])) == a + "/" + b + "/" + c
  {
    assert [a, b, c][1..] == [b, c] && [b, c][1..] == [c];
    assert Strings.Join([b, c], "/") == b + "/" + c;
    assert a + "/" + (b + "/" + c) == a + "/" + b + "/" + c;
  }
}
