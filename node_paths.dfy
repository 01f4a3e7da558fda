/**
 * The parts of Node's `path` module the runners use, on POSIX paths: `basename`, the name up
 * to its first '.', `join` of a directory and a file name, and `resolve` of a directory and
 * a relative file name. `join` and `resolve` are modelled without their normalisation of
 * "." and ".." segments and of repeated separators.
 */
module NodePaths {
  import opened Strings

  /** `basename(p)`: what follows the last '/', once trailing separators are ignored. */
  function Basename(p: string): string {
    LastPiece(TrimSeparators(p), "/")
  }

  /** `p` without the '/' characters it ends with. */
  function TrimSeparators(p: string): (r: string)
    ensures |r| <= |p| && r == p[..|r|]
    ensures |r| > 0 ==> r[|r| - 1] != '/'
    ensures forall i :: |r| <= i < |p| ==> p[i] == '/'
  {
    if |p| > 0 && p[|p| - 1] == '/' then TrimSeparators(p[..|p| - 1]) else p
  }

  /** `basename(p).split('.')[0]`: the file name up to its first '.'. */
  function Stem(p: string): string {
    FirstPiece(Basename(p), ".")
  }

  /** `join(dir, name)`. */
  function JoinPath(dir: string, name: string): string {
    if |dir| == 0 then name else dir + "/" + name
  }

  /** `resolve(dir, name)` for a name that is not absolute, from the working directory
      `cwd`: the name under `dir`, and `dir` itself under `cwd` unless it is absolute. */
  function ResolvePath(cwd: string, dir: string, name: string): (r: string)
    ensures '/' !in name && |name| > 0 ==> Basename(r) == name
    ensures StartsWith(cwd, "/") && |name| > 0 ==> StartsWith(r, "/")
  {
    var base := if StartsWith(dir, "/") then dir else if |dir| == 0 then cwd else JoinPath(cwd, dir);
    assert '/' !in name && |name| > 0 ==> Basename(JoinPath(base, name)) == name by {
      if '/' !in name && |name| > 0 {
        BasenameOfJoin(base, name);
      }
    }
    JoinPath(base, name)
  }

  /** A stem holds neither a '/' nor a '.'. */
  lemma StemFree(p: string)
    ensures '/' !in Stem(p) && '.' !in Stem(p)
  {
    SplitPiecesFree(TrimSeparators(p), '/');
    var base := Basename(p);
    assert '/' !in base;
    SplitPiecesFree(base, '.');
    assert Split(base, ".")[0] == Stem(p);
    FirstPieceWithin(base, '.');
  }

  /** The first piece of a split holds only characters of the split text. */
  lemma {:induction false} FirstPieceWithin(s: string, c: char)
    ensures forall x :: x in FirstPiece(s, [c]) ==> x in s
    decreases |s|
  {
    if |s| > 0 && !StartsWith(s, [c]) {
      FirstPieceWithin(s[1..], c);
      assert FirstPiece(s, [c]) == [s[0]] + FirstPiece(s[1..], [c]);
    }
  }

  /** Joining a directory with a non-empty name free of '/' gives a path whose basename is
      that name. */
  lemma BasenameOfJoin(dir: string, name: string)
    requires '/' !in name && |name| > 0
    ensures Basename(JoinPath(dir, name)) == name
  {
    assert name[|name| - 1] in name;
    assert TrimSeparators(JoinPath(dir, name)) == JoinPath(dir, name);
    LastPieceOfFree(name);
    if |dir| > 0 {
      LastPieceAfter(dir, '/', name);
    }
  }

  /** A text without the separator character is its own last piece. */
  lemma LastPieceOfFree(name: string)
    requires '/' !in name
    ensures LastPiece(name, "/") == name
  {
    SplitFree(name, '/');
  }

  /** Splitting a text without the separator character gives the text alone. */
  lemma {:induction false} SplitFree(s: string, c: char)
    requires c !in s
    ensures Split(s, [c]) == [s]
    decreases |s|
  {
    if |s| > 0 {
      assert s[0] != c && !StartsWith(s, [c]);
      assert c !in s[1..];
      SplitFree(s[1..], c);
      assert [s[0]] + s[1..] == s;
    }
  }
}
