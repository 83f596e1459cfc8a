/**
 Splitting a modification path on `.`, as JavaScript's `String.prototype.split`
 does with a one-character string separator: there are no escapes, and empty
 segments (from a leading, trailing or doubled `.`) are ordinary `""` keys.
 */
module Paths {

  const Dot: char := '.'

  /** The segments of a path contain no separator. */
  predicate NoDot(seg: string) {
    forall i :: 0 <= i < |seg| ==> seg[i] != Dot
  }

  predicate AllNoDot(segs: seq<string>) {
    forall j :: 0 <= j < |segs| ==> NoDot(segs[j])
  }

  /** `path.split(".")`. */
  function Split(path: string): (segs: seq<string>)
    ensures |segs| >= 1
    ensures AllNoDot(segs)
    decreases |path|
  {
    if |path| == 0 then [""]
    else
      var rest := Split(path[1..]);
      if path[0] == Dot then
        [""] + rest
      else
        [[path[0]] + rest[0]] + rest[1..]
  }

  /** `segs.join(".")`. */
  function Join(segs: seq<string>): string
    requires |segs| >= 1
    decreases |segs|
  {
    if |segs| == 1 then segs[0] else segs[0] + [Dot] + Join(segs[1..])
  }

  /** There is one more segment than there are dots in the path. */
  lemma {:induction false} SplitCount(path: string)
    ensures |Split(path)| == 1 + multiset(path)[Dot]
    decreases |path|
  {
    if |path| > 0 {
      SplitCount(path[1..]);
      assert path == [path[0]] + path[1..];
      assert multiset(path) == multiset([path[0]]) + multiset(path[1..]);
    }
  }

  /** Joining the segments with `.` rebuilds the path. */
  lemma {:induction false} JoinSplit(path: string)
    ensures Join(Split(path)) == path
    decreases |path|
  {
    if |path| > 0 {
      var rest := Split(path[1..]);
      JoinSplit(path[1..]);
      assert path == [path[0]] + path[1..];
      if path[0] == Dot {
        var segs := [""] + rest;
        assert segs[1..] == rest;
        assert Join(segs) == "" + [Dot] + Join(rest);
      } else {
        JoinCons(path[0], rest);
      }
    }
  }

  /** Prepending a character to the first segment prepends it to the join. */
  lemma {:induction false} JoinCons(c: char, segs: seq<string>)
    requires |segs| >= 1
    ensures Join([[c] + segs[0]] + segs[1..]) == [c] + Join(segs)
  {
    var segs' := [[c] + segs[0]] + segs[1..];
    assert |segs'| == |segs|;
    assert segs'[0] == [c] + segs[0];
    if |segs| == 1 {
      assert Join(segs') == [c] + segs[0];
    } else {
      assert segs'[1..] == segs[1..];
      var j := Join(segs[1..]);
      assert Join(segs') == ([c] + segs[0]) + [Dot] + j;
      assert Join(segs) == segs[0] + [Dot] + j;
      assert ([c] + segs[0]) + [Dot] + j == [c] + (segs[0] + [Dot] + j);
    }
  }

  /** Splitting a join of dot-free segments gives the segments back. */
  lemma {:induction false} SplitJoin(segs: seq<string>)
    requires |segs| >= 1
    requires AllNoDot(segs)
    ensures Split(Join(segs)) == segs
    decreases |segs|, |segs[0]|
  {
    if |segs| == 1 {
      SplitNoDot(segs[0]);
    } else if |segs[0]| == 0 {
      var tail := segs[1..];
      assert AllNoDot(tail) by {
        forall j | 0 <= j < |tail| ensures NoDot(tail[j]) {
          assert tail[j] == segs[j + 1];
        }
      }
      SplitJoin(tail);
      var s := Join(segs);
      assert s == [Dot] + Join(tail);
      assert s[1..] == Join(tail);
      assert segs == [""] + tail;
    } else {
      var c := segs[0][0];
      var shorter := [segs[0][1..]] + segs[1..];
      assert shorter[1..] == segs[1..];
      assert AllNoDot(shorter) by {
        forall j | 0 <= j < |shorter| ensures NoDot(shorter[j]) {
          if j == 0 {
            forall i | 0 <= i < |shorter[0]| ensures shorter[0][i] != Dot {
              assert shorter[0][i] == segs[0][i + 1];
            }
          } else {
            assert shorter[j] == segs[j];
          }
        }
      }
      SplitJoin(shorter);
      var s := Join(segs);
      assert segs[0] == [c] + segs[0][1..];
      assert segs == [[c] + shorter[0]] + shorter[1..];
      JoinCons(c, shorter);
      assert s == [c] + Join(shorter);
      assert s[0] == c && c != Dot;
      assert s[1..] == Join(shorter);
      var rest := Split(s[1..]);
      assert rest == shorter;
      assert Split(s) == [[c] + rest[0]] + rest[1..];
      assert segs == [[c] + shorter[0]] + shorter[1..];
    }
  }

  /** A path without a `.` is a single segment. */
  lemma {:induction false} SplitNoDot(seg: string)
    requires NoDot(seg)
    ensures Split(seg) == [seg]
    decreases |seg|
  {
    if |seg| > 0 {
      assert NoDot(seg[1..]) by {
        forall i | 0 <= i < |seg[1..]| ensures seg[1..][i] != Dot {
          assert seg[1..][i] == seg[i + 1];
        }
      }
      SplitNoDot(seg[1..]);
      assert seg == [seg[0]] + seg[1..];
    }
  }
}
