/**
 * The part of `pathlib` the writer relies on: a path is the sequence of its
 * parts (`Path.parts`), `Path(s)` parses a string, `p / s` joins, and
 * `str(p)` renders.  An absolute path has "/" as its first part.
 */
module PathModel {

  type Path = seq<string>

  /** A single path component: non-empty, not ".", without a separator. */
  predicate IsName(n: string) {
    n != "" && n != "." && '/' !in n
  }

  predicate WellFormed(p: Path) {
    && (forall i :: 0 < i < |p| ==> IsName(p[i]))
    && (|p| > 0 ==> p[0] == "/" || IsName(p[0]))
  }

  /** A finished piece of text between separators: empty and "." pieces are dropped. */
  function Emit(cur: string): seq<string> {
    if cur == "" || cur == "." then [] else [cur]
  }

  /** The components of `cur + s`, where `cur` is the piece read so far since the last separator. */
  function Scan(s: string, cur: string): seq<string>
    decreases |s|
  {
    if s == [] then Emit(cur)
    else if s[0] == '/' then Emit(cur) + Scan(s[1..], "")
    else Scan(s[1..], cur + [s[0]])
  }

  /** The components of a relative path string. */
  function Pieces(s: string): seq<string> {
    Scan(s, "")
  }

  lemma {:induction false} ScanNames(s: string, cur: string)
    requires '/' !in cur
    ensures forall i :: 0 <= i < |Scan(s, cur)| ==> IsName(Scan(s, cur)[i])
    decreases |s|
  {
    if s != [] {
      if s[0] == '/' {
        ScanNames(s[1..], "");
      } else {
        ScanNames(s[1..], cur + [s[0]]);
      }
    }
  }

  /** Every component of a path string is a name. */
  lemma PiecesNames(s: string)
    ensures forall i :: 0 <= i < |Pieces(s)| ==> IsName(Pieces(s)[i])
  {
    ScanNames(s, "");
  }

  /** `Path(s).parts` */
  function ParsePath(s: string): (p: Path)
    ensures WellFormed(p)
  {
    if |s| > 0 && s[0] == '/' then
      PiecesNames(s[1..]);
      ["/"] + Pieces(s[1..])
    else
      PiecesNames(s);
      Pieces(s)
  }

  /** `p / s`: an absolute right-hand side replaces the left-hand path. */
  function Join(p: Path, s: string): (r: Path)
    ensures WellFormed(p) ==> WellFormed(r)
    ensures |s| > 0 && s[0] == '/' ==> r == ParsePath(s)
    ensures !(|s| > 0 && s[0] == '/') ==> r == p + Pieces(s)
  {
    PiecesNames(s);
    var q := ParsePath(s);
    if |q| > 0 && q[0] == "/" then q else p + q
  }

  function JoinNames(names: seq<string>): string {
    if names == [] then ""
    else if |names| == 1 then names[0]
    else names[0] + "/" + JoinNames(names[1..])
  }

  /** `str(p)` */
  function Render(p: Path): string {
    if p == [] then "."
    else if p[0] == "/" then "/" + JoinNames(p[1..])
    else JoinNames(p)
  }

  /** Text without a separator is read into a single piece. */
  lemma {:induction false} ScanText(s: string, cur: string)
    requires '/' !in s
    ensures Scan(s, cur) == Emit(cur + s)
    decreases |s|
  {
    if s == [] {
      assert cur + s == cur;
    } else {
      assert s[1..] + [] == s[1..];
      ScanText(s[1..], cur + [s[0]]);
      assert cur + [s[0]] + s[1..] == cur + s;
    }
  }

  /** Parsing a single component gives exactly that component. */
  lemma ParseName(n: string)
    requires IsName(n)
    ensures Pieces(n) == [n]
    ensures ParsePath(n) == [n]
  {
    ScanText(n, "");
    assert "" + n == n;
  }

  lemma Regroup(whole: seq<string>, left: seq<string>, head: seq<string>, mid: seq<string>,
                right: seq<string>, tail: seq<string>)
    requires whole == head + tail && tail == mid + right && left == head + mid
    ensures whole == left + right
  {
  }

  /** A separator ends the piece being read; what follows it is read afresh. */
  lemma {:induction false} ScanSplit(a: string, b: string, cur: string)
    ensures Scan(a + "/" + b, cur) == Scan(a, cur) + Pieces(b)
    decreases |a|
  {
    var s := a + "/" + b;
    if a == [] {
      assert s[0] == '/' && s[1..] == b;
    } else {
      assert s[0] == a[0] && s[1..] == a[1..] + "/" + b;
      if a[0] == '/' {
        ScanSplit(a[1..], b, "");
        Regroup(Scan(s, cur), Scan(a, cur), Emit(cur), Scan(a[1..], ""), Pieces(b), Scan(s[1..], ""));
      } else {
        ScanSplit(a[1..], b, cur + [a[0]]);
      }
    }
  }

  /** A separator between two strings separates their components: `Path(a + "/" + b)` has the parts of `a`, then those of `b`. */
  lemma PiecesSplit(a: string, b: string)
    ensures Pieces(a + "/" + b) == Pieces(a) + Pieces(b)
  {
    ScanSplit(a, b, "");
  }

  lemma {:induction false} PiecesJoinNames(names: seq<string>)
    requires forall i :: 0 <= i < |names| ==> IsName(names[i])
    ensures Pieces(JoinNames(names)) == names
  {
    if names == [] {
    } else if |names| == 1 {
      ParseName(names[0]);
    } else {
      PiecesSplit(names[0], JoinNames(names[1..]));
      ParseName(names[0]);
      PiecesJoinNames(names[1..]);
      assert names == [names[0]] + names[1..];
    }
  }

  lemma JoinNamesHead(names: seq<string>)
    requires |names| > 0
    ensures |names[0]| <= |JoinNames(names)| && JoinNames(names)[..|names[0]|] == names[0]
  {
  }

  lemma RenderRelative(p: Path)
    requires WellFormed(p) && p != [] && p[0] != "/"
    ensures ParsePath(Render(p)) == p
  {
    PiecesJoinNames(p);
    JoinNamesHead(p);
    var r := JoinNames(p);
    assert r[0] == r[..|p[0]|][0] == p[0][0];
    assert p[0][0] in p[0];
  }

  lemma RenderAbsolute(p: Path)
    requires WellFormed(p) && p != [] && p[0] == "/"
    ensures ParsePath(Render(p)) == p
  {
    PiecesJoinNames(p[1..]);
    assert ("/" + JoinNames(p[1..]))[1..] == JoinNames(p[1..]);
  }

  /** `Path(str(p)) == p`: the rendered form of a path names the same path. */
  lemma RenderRoundTrip(p: Path)
    requires WellFormed(p)
    ensures ParsePath(Render(p)) == p
  {
    if p == [] {
      ScanText(".", "");
      assert "" + "." == ".";
    } else if p[0] == "/" {
      RenderAbsolute(p);
    } else {
      RenderRelative(p);
    }
  }

  /**
   * `Path(a + "/" + b)`: the parts of `a`, then those of `b`; an empty `a`
   * leaves a leading separator, so the result is then absolute.
   */
  lemma ParseSplit(a: string, b: string)
    ensures a != "" ==> ParsePath(a + "/" + b) == ParsePath(a) + Pieces(b)
    ensures a == "" ==> ParsePath(a + "/" + b) == ["/"] + Pieces(b)
  {
    var s := a + "/" + b;
    if a == "" {
      assert s == "/" + b;
      assert s[1..] == b;
    } else if a[0] == '/' {
      assert s[0] == '/';
      assert s[1..] == a[1..] + "/" + b;
      PiecesSplit(a[1..], b);
      Regroup(ParsePath(s), ParsePath(a), ["/"], Pieces(a[1..]), Pieces(b), Pieces(s[1..]));
    } else {
      assert s[0] == a[0];
      PiecesSplit(a, b);
    }
  }

  lemma {:induction false} ScanLeading(s: string, cur: string)
    requires cur != "" && cur[0] != '.'
    ensures |Scan(s, cur)| > 0
    decreases |s|
  {
    if s != [] && s[0] != '/' {
      assert (cur + [s[0]])[0] == cur[0];
      ScanLeading(s[1..], cur + [s[0]]);
    }
  }

  /** A string that starts with a name character parses to a relative path with at least one part. */
  lemma PiecesLeading(s: string)
    requires |s| > 0 && s[0] != '/' && s[0] != '.'
    ensures |Pieces(s)| > 0
  {
    assert "" + [s[0]] == [s[0]];
    ScanLeading(s[1..], [s[0]]);
  }

  /** Joining a single component appends it. */
  lemma JoinName(p: Path, n: string)
    requires IsName(n)
    ensures Join(p, n) == p + [n]
  {
    ParseName(n);
  }
}
