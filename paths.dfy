/** POSIX paths as Python's `pathlib` holds them: `Path(raw)` drops empty
    parts and `.` parts, `str(path)` joins the parts again, and `/` appends
    a relative path. `..` is kept as a part, as `pathlib` keeps it. */
module Paths {
  import opened Text

  /** A POSIX path as `pathlib` holds it: rooted or not, and its parts. */
  datatype PurePath = PurePath(absolute: bool, parts: seq<string>)

  /** A part `pathlib` keeps: not empty, not `.`, no separator. */
  predicate Component(c: string) { c != [] && c != "." && '/' !in c }

  predicate Normal(p: PurePath) { forall k :: 0 <= k < |p.parts| ==> Component(p.parts[k]) }

  /** The pieces between separators that `pathlib` keeps: all but empty ones
      and `.`. */
  function Components(pieces: seq<string>): (r: seq<string>)
    ensures forall k :: 0 <= k < |r| ==> r[k] in pieces && r[k] != [] && r[k] != "."
  {
    if pieces == [] then []
    else (if pieces[0] == [] || pieces[0] == "." then [] else [pieces[0]]) + Components(pieces[1..])
  }

  /** `Path(raw)`. */
  function ParsePath(raw: string): PurePath {
    PurePath(StartsWith(raw, "/"), Components(Split(raw, '/')))
  }

  /** `str(path)`. */
  function Render(p: PurePath): string {
    if p.absolute then "/" + Join(p.parts, "/")
    else if p.parts == [] then "."
    else Join(p.parts, "/")
  }

  /** `path.name`: the last part, or empty. */
  function Name(p: PurePath): string { if p.parts == [] then "" else p.parts[|p.parts| - 1] }

  /** `base / rel`: a rooted `rel` replaces the base, a relative one is
      appended to it. */
  function Slash(base: PurePath, rel: PurePath): PurePath {
    if rel.absolute then rel else PurePath(base.absolute, base.parts + rel.parts)
  }

  /** Pieces that are all parts already are kept as they are. */
  lemma {:induction false} ComponentsKeep(parts: seq<string>)
    requires forall k :: 0 <= k < |parts| ==> Component(parts[k])
    ensures Components(parts) == parts
    decreases |parts|
  {
    if parts != [] {
      ComponentsKeep(parts[1..]);
    }
  }

  /** A parsed path is normal. */
  lemma {:induction false} ParseNormal(raw: string)
    ensures Normal(ParsePath(raw))
  {
    var pieces := Split(raw, '/');
    var r := Components(pieces);
    forall k | 0 <= k < |r| ensures Component(r[k]) {
      var j :| 0 <= j < |pieces| && pieces[j] == r[k];
    }
  }

  /** Splitting at the first separator. */
  lemma {:induction false} SplitFirst(a: string, b: string, c: char)
    requires c !in a
    ensures Split(a + [c] + b, c) == [a] + Split(b, c)
  {
    var s := a + [c] + b;
    assert s[|a|] == c;
    assert NextChar(s, c, 0) == |a|;
    assert s[..|a|] == a && s[|a| + 1..] == b;
  }

  /** A text without the separator is one piece. */
  lemma {:induction false} SplitNone(a: string, c: char)
    requires c !in a
    ensures Split(a, c) == [a]
  {
    assert NextChar(a, c, 0) == |a|;
  }

  /** The parts of a joined normal sequence come back from a parse. */
  lemma {:induction false} ComponentsOfJoin(parts: seq<string>)
    requires Normal(PurePath(false, parts))
    ensures Components(Split(Join(parts, "/"), '/')) == parts
  {
    if parts == [] {
      SplitNone("", '/');
    } else {
      assert "/" == ['/'];
      JoinSplit(parts, '/');
      ComponentsKeep(parts);
    }
  }

  /** Rendering a normal path and parsing it again gives it back. */
  lemma {:induction false} ParseRender(p: PurePath)
    requires Normal(p)
    ensures ParsePath(Render(p)) == p
  {
    var j := Join(p.parts, "/");
    ComponentsOfJoin(p.parts);
    if p.absolute {
      SplitFirst("", j, '/');
      assert "/" + j == "" + ['/'] + j;
      assert ([""] + Split(j, '/'))[1..] == Split(j, '/');
    } else if p.parts == [] {
      SplitNone(".", '/');
    } else {
      JoinHead(p.parts, "/");
    }
  }

  /** A join starts with its first part. */
  lemma {:induction false} JoinHead(parts: seq<string>, sep: string)
    requires parts != []
    ensures |parts[0]| <= |Join(parts, sep)| && Join(parts, sep)[..|parts[0]|] == parts[0]
  {
    if |parts| > 1 {
      assert Join(parts, sep) == parts[0] + (sep + Join(parts[1..], sep));
    }
  }

  /** Two normal paths have the same rendering exactly when they are the
      same path. */
  lemma {:induction false} RenderInjective(p: PurePath, q: PurePath)
    requires Normal(p) && Normal(q)
    ensures Render(p) == Render(q) <==> p == q
  {
    ParseRender(p);
    ParseRender(q);
  }

  /** Appending a normal path keeps it normal. */
  lemma {:induction false} SlashNormal(base: PurePath, rel: PurePath)
    requires Normal(base) && Normal(rel)
    ensures Normal(Slash(base, rel))
  {
    if !rel.absolute {
      var r := Slash(base, rel);
      forall k | 0 <= k < |r.parts| ensures Component(r.parts[k]) {
        if k >= |base.parts| {
          assert r.parts[k] == rel.parts[k - |base.parts|];
        }
      }
    }
  }

  /** A prefix without separators joins the first piece of what follows it. */
  lemma {:induction false} SplitPrefix(x: string, s: string)
    requires '/' !in x
    ensures Split(x + s, '/') == [x + Split(s, '/')[0]] + Split(s, '/')[1..]
  {
    var t := x + s;
    var k := NextChar(s, '/', 0);
    var m := NextChar(t, '/', 0);
    forall j | 0 <= j < |x| + k ensures t[j] != '/' {
      if j < |x| {
        assert t[j] == x[j] && x[j] in x;
      } else {
        assert t[j] == s[j - |x|];
      }
    }
    if k < |s| {
      assert t[|x| + k] == s[k];
    }
    assert m == |x| + k;
    if k < |s| {
      assert t[..m] == x + s[..k] && t[m + 1..] == s[k + 1..];
    }
  }

  /** A single part parses to the relative path of that one part. */
  lemma {:induction false} ParseComponent(c: string)
    requires Component(c)
    ensures ParsePath(c) == PurePath(false, [c])
  {
    SplitNone(c, '/');
    assert [c][1..] == [];
    assert Components([c]) == [c] + Components([]);
    assert c[0] in c;
    assert !StartsWith(c, "/");
  }

  /** `base / name` for a single part `name`: printed and parsed again, it is
      the base with that part added at the end. */
  lemma {:induction false} AppendPart(base: string, name: string)
    requires Component(name)
    ensures var b := ParsePath(base);
      ParsePath(Render(Slash(b, ParsePath(name)))) == PurePath(b.absolute, b.parts + [name])
  {
    ParseComponent(name);
    ParseNormal(base);
    ParseNormal(name);
    SlashNormal(ParsePath(base), ParsePath(name));
    ParseRender(Slash(ParsePath(base), ParsePath(name)));
  }
}
