/** Slash-separated path strings: their segments, and the sibling of a file
    in the same directory. */
module Paths {

  /** The `/`-delimited segments of `s`; empty segments are kept, so there is
      always one more segment than there are slashes. */
  function Split(s: string): (r: seq<string>)
    ensures |r| >= 1
  {
    if |s| == 0 then [""]
    else
      var rest := Split(s[1..]);
      if s[0] == '/' then [""] + rest
      else [[s[0]] + rest[0]] + rest[1..]
  }

  /** The segments glued back together with one `/` between neighbours. */
  function Join(segs: seq<string>): string
    requires |segs| >= 1
  {
    if |segs| == 1 then segs[0] else segs[0] + "/" + Join(segs[1..])
  }

  /** No segment holds a slash. */
  lemma {:induction false} SplitSlashFree(s: string)
    ensures forall i :: 0 <= i < |Split(s)| ==> '/' !in Split(s)[i]
  {
    if |s| > 0 {
      SplitSlashFree(s[1..]);
      var rest := Split(s[1..]);
      if s[0] != '/' {
        var r := Split(s);
        assert r[0] == [s[0]] + rest[0];
        forall i | 0 <= i < |r| ensures '/' !in r[i] {
          if i > 0 { assert r[i] == rest[i]; }
        }
      }
    }
  }

  /** Splitting then joining gives the path back. */
  lemma {:induction false} JoinSplit(s: string)
    ensures Join(Split(s)) == s
  {
    if |s| > 0 {
      JoinSplit(s[1..]);
      var rest := Split(s[1..]);
      if s[0] == '/' {
        assert ([""] + rest)[1..] == rest;
      } else {
        var r := [[s[0]] + rest[0]] + rest[1..];
        if |rest| == 1 {
          assert Join(rest) == rest[0];
        } else {
          assert r[1..] == rest[1..];
          assert Join(rest) == rest[0] + "/" + Join(rest[1..]);
        }
      }
    }
  }

  /** A string without a slash is a single segment. */
  lemma {:induction false} SplitNoSlash(x: string)
    requires '/' !in x
    ensures Split(x) == [x]
  {
    if |x| > 0 {
      assert '/' !in x[1..] by {
        forall i | 0 <= i < |x[1..]| ensures x[1..][i] != '/' { assert x[1..][i] == x[i + 1]; }
      }
      SplitNoSlash(x[1..]);
      assert [x[0]] + x[1..] == x;
    }
  }

  /** A slash-free head followed by `/` becomes the first segment. */
  lemma {:induction false} SplitSlash(x: string, y: string)
    requires '/' !in x
    ensures Split(x + "/" + y) == [x] + Split(y)
  {
    var s := x + "/" + y;
    if |x| == 0 {
      assert s == "/" + y;
      assert s[1..] == y;
    } else {
      assert '/' !in x[1..] by {
        forall i | 0 <= i < |x[1..]| ensures x[1..][i] != '/' { assert x[1..][i] == x[i + 1]; }
      }
      assert s[1..] == x[1..] + "/" + y;
      SplitSlash(x[1..], y);
      assert s[0] == x[0];
      assert [x[0]] + x[1..] == x;
    }
  }

  /** Three slash-free segments joined by slashes split back into themselves. */
  lemma SplitThree(a: string, b: string, c: string)
    requires '/' !in a && '/' !in b && '/' !in c
    ensures Split(a + "/" + (b + "/" + c)) == [a, b, c]
  {
    SplitSlash(b, c);
    SplitNoSlash(c);
    SplitSlash(a, b + "/" + c);
  }

  /** Four slash-free segments joined by slashes split back into themselves. */
  lemma SplitFour(a: string, b: string, c: string, d: string)
    requires '/' !in a && '/' !in b && '/' !in c && '/' !in d
    ensures Split(a + "/" + (b + "/" + (c + "/" + d))) == [a, b, c, d]
  {
    var rest := b + "/" + (c + "/" + d);
    SplitThree(b, c, d);
    SplitSlash(a, rest);
  }

  /** Joining four segments. */
  lemma JoinFour(segs: seq<string>)
    requires |segs| == 4
    ensures Join(segs) == segs[0] + "/" + (segs[1] + "/" + (segs[2] + "/" + segs[3]))
  {
    var t2 := segs[2..];
    assert t2[1..] == [segs[3]];
    assert Join(t2) == segs[2] + "/" + segs[3];
    assert segs[1..][1..] == t2;
    assert Join(segs[1..]) == segs[1] + "/" + Join(t2);
  }

  /** Joining slash-free segments and splitting again gives the segments back. */
  lemma {:induction false} SplitJoin(segs: seq<string>)
    requires |segs| >= 1
    requires forall i :: 0 <= i < |segs| ==> '/' !in segs[i]
    ensures Split(Join(segs)) == segs
  {
    if |segs| == 1 {
      SplitNoSlash(segs[0]);
    } else {
      SplitJoin(segs[1..]);
      SplitSlash(segs[0], Join(segs[1..]));
      assert [segs[0]] + segs[1..] == segs;
    }
  }

  /** Everything up to and including the last `/` of `s`, or "" when `s` has
      no slash: the directory part of a file path, ready for a name to be
      appended. */
  function DirPrefix(s: string): string
  {
    if |s| == 0 then ""
    else if s[|s| - 1] == '/' then s
    else DirPrefix(s[..|s| - 1])
  }

  /** The directory part is a prefix of the path that is empty or ends in a
      slash, and no slash follows it. */
  lemma {:induction false} DirPrefixSplits(s: string)
    ensures var r := DirPrefix(s);
      |r| <= |s| && r == s[..|r|] && (|r| == 0 || r[|r| - 1] == '/') && '/' !in s[|r|..]
  {
    if |s| > 0 && s[|s| - 1] != '/' {
      var t := s[..|s| - 1];
      DirPrefixSplits(t);
      var p := DirPrefix(t);
      assert s[|p|..] == t[|p|..] + [s[|s| - 1]];
      assert t[..|p|] == s[..|p|];
    }
  }

  /** The file called `name` in the directory holding `file`. */
  function SiblingPath(file: string, name: string): string
  {
    DirPrefix(file) + name
  }

  /** The sibling of `dir/leaf` is `dir/name`. */
  lemma SiblingOf(dir: string, leaf: string, name: string)
    requires '/' !in leaf
    ensures SiblingPath(dir + "/" + leaf, name) == dir + "/" + name
  {
    var s := dir + "/" + leaf;
    var p := DirPrefix(s);
    DirPrefixSplits(s);
    assert s[|dir|] == '/';
    assert |p| == |dir| + 1;
    assert p == s[..|dir| + 1] == dir + "/";
  }
}
