/**
 * String helpers that stand for the .NET and JavaScript library calls the core uses:
 * string.Join / Array.join, String.Split(char), String.Replace (every occurrence),
 * JavaScript's String.prototype.replace with a string pattern (first occurrence only),
 * String.Contains and Path.GetFileName.
 */
module Strings {

  /** True when `s` begins with `p`. */
  predicate StartsWith(s: string, p: string)
  {
    |p| <= |s| && s[..|p|] == p
  }

  /** String.Contains: `p` occurs somewhere in `s`. */
  predicate Contains(s: string, p: string)
    decreases |s|
  {
    StartsWith(s, p) || (|s| > 0 && Contains(s[1..], p))
  }

  /** string.Join(sep, parts) / parts.join(sep): "" for no parts. */
  function Join(parts: seq<string>, sep: string): string
  {
    if |parts| == 0 then ""
    else if |parts| == 1 then parts[0]
    else parts[0] + sep + Join(parts[1..], sep)
  }

  /** String.Split(c): every occurrence of `c` separates two pieces; empty pieces are kept. */
  function Split(s: string, c: char): (r: seq<string>)
    ensures |r| >= 1
    ensures c !in s ==> r == [s]
  {
    if |s| == 0 then [""]
    else
      var rest := Split(s[1..], c);
      if s[0] == c then [""] + rest
      else
        assert s == [s[0]] + s[1..];
        [[s[0]] + rest[0]] + rest[1..]
  }

  /** String.Replace(pat, rep): every non-overlapping occurrence, scanning left to right. */
  function ReplaceAll(s: string, pat: string, rep: string): (r: string)
    requires |pat| > 0
    ensures !Contains(s, pat) ==> r == s
    ensures |rep| == |pat| ==> |r| == |s|
    decreases |s|
  {
    if |s| == 0 then ""
    else if StartsWith(s, pat) then rep + ReplaceAll(s[|pat|..], pat, rep)
    else [s[0]] + ReplaceAll(s[1..], pat, rep)
  }

  /** JavaScript s.replace(pat, rep) with a string pattern: the first occurrence only. */
  function ReplaceFirst(s: string, pat: string, rep: string): (r: string)
    ensures |r| == |s| || |r| + |pat| == |s| + |rep|
    decreases |s|
  {
    if StartsWith(s, pat) then rep + s[|pat|..]
    else if |s| == 0 then s
    else [s[0]] + ReplaceFirst(s[1..], pat, rep)
  }

  /** The characters Path.GetFileName treats as separators on Windows. */
  predicate IsPathSeparator(c: char)
  {
    c == '\\' || c == '/' || c == ':'
  }

  /** Path.GetFileName: the part of `path` after its last separator. */
  function FileName(path: string): (r: string)
    ensures |r| <= |path|
  {
    if |path| == 0 then ""
    else if IsPathSeparator(path[|path| - 1]) then ""
    else FileName(path[..|path| - 1]) + [path[|path| - 1]]
  }

  /** The file name is the longest suffix of the path without a separator: it is a suffix,
      holds no separator, and is either the whole path or preceded by a separator. */
  lemma {:induction false} FileNameIsLastSegment(path: string)
    ensures var r := FileName(path);
      && |r| <= |path| && r == path[|path| - |r|..]
      && (forall k :: 0 <= k < |r| ==> !IsPathSeparator(r[k]))
      && (|r| < |path| ==> IsPathSeparator(path[|path| - |r| - 1]))
  {
    if |path| > 0 && !IsPathSeparator(path[|path| - 1]) {
      var init := path[..|path| - 1];
      FileNameIsLastSegment(init);
      var r0 := FileName(init);
      var r := FileName(path);
      assert r == r0 + [path[|path| - 1]];
      assert r0 == init[|init| - |r0|..];
      assert r == path[|path| - |r|..];
      forall k | 0 <= k < |r| ensures !IsPathSeparator(r[k]) {
        if k < |r0| {
          assert r[k] == r0[k];
        }
      }
      if |r| < |path| {
        assert path[|path| - |r| - 1] == init[|init| - |r0| - 1];
      }
    }
  }

  /** Splitting a piece without `c` glued to the rest of a string. */
  lemma {:induction false} SplitPrefix(w: string, t: string, c: char)
    requires c !in w
    ensures Split(w + t, c) == [w + Split(t, c)[0]] + Split(t, c)[1..]
  {
    var st := Split(t, c);
    if |w| == 0 {
      assert w + t == t;
      assert w + st[0] == st[0];
      assert st == [st[0]] + st[1..];
    } else {
      SplitPrefix(w[1..], t, c);
      assert (w + t)[1..] == w[1..] + t;
      assert (w + t)[0] == w[0];
      var rest := Split(w[1..] + t, c);
      assert rest == [w[1..] + st[0]] + st[1..];
      assert [w[0]] + rest[0] == w + st[0];
    }
  }

  /** Splitting a joined sequence gives it back when no piece contains the separator. */
  lemma {:induction false} SplitJoin(parts: seq<string>, c: char)
    requires |parts| >= 1
    requires forall i :: 0 <= i < |parts| ==> c !in parts[i]
    ensures Split(Join(parts, [c]), c) == parts
  {
    if |parts| == 1 {
      SplitPrefix(parts[0], "", c);
      assert parts[0] + "" == parts[0];
    } else {
      var rest := Join(parts[1..], [c]);
      SplitJoin(parts[1..], c);
      SplitPrefix(parts[0], [c] + rest, c);
      assert Join(parts, [c]) == parts[0] + ([c] + rest);
      assert ([c] + rest)[1..] == rest;
      var sp := Split([c] + rest, c);
      assert sp == [""] + Split(rest, c);
      assert sp[0] == "" && sp[1..] == parts[1..];
      assert parts[0] + sp[0] == parts[0];
      assert parts == [parts[0]] + parts[1..];
    }
  }

  /** Joining the pieces of a split gives back the string. */
  lemma {:induction false} JoinSplit(s: string, c: char)
    ensures Join(Split(s, c), [c]) == s
  {
    if |s| > 0 {
      var rest := Split(s[1..], c);
      JoinSplit(s[1..], c);
      if s[0] == c {
        assert Split(s, c) == [""] + rest;
        assert ([""] + rest)[1..] == rest;
        assert s == [c] + s[1..];
      } else {
        var head := [s[0]] + rest[0];
        assert Split(s, c) == [head] + rest[1..];
        if |rest| == 1 {
          assert rest == [rest[0]];
          assert s == [s[0]] + rest[0];
        } else {
          assert Join(rest, [c]) == rest[0] + [c] + Join(rest[1..], [c]);
          assert ([head] + rest[1..])[1..] == rest[1..];
          assert s == [s[0]] + s[1..];
        }
      }
    }
  }

  /** No piece of a split contains the separator. */
  lemma {:induction false} SplitPiecesFree(s: string, c: char)
    ensures forall i :: 0 <= i < |Split(s, c)| ==> c !in Split(s, c)[i]
  {
    if |s| > 0 {
      SplitPiecesFree(s[1..], c);
    }
  }

  /** A prefix of `ReplaceAll(t, pat, rep)` made only of characters that `rep` lacks and
      that cannot start `pat`'s replacement is a prefix of `t` itself. */
  lemma {:induction false} ReplacePrefixCopied(t: string, p: string, pat: string, rep: string)
    requires |pat| > 0 && |rep| > 0
    requires forall k :: 0 <= k < |p| ==> p[k] != rep[0]
    requires StartsWith(ReplaceAll(t, pat, rep), p)
    ensures StartsWith(t, p)
    decreases |t|
  {
    if |p| > 0 && |t| > 0 {
      var r := ReplaceAll(t, pat, rep);
      assert r[0] == p[0];
      if !StartsWith(t, pat) {
        var rest := ReplaceAll(t[1..], pat, rep);
        assert r == [t[0]] + rest;
        assert StartsWith(rest, p[1..]) by {
          assert rest[..|p| - 1] == r[1..|p|];
        }
        ReplacePrefixCopied(t[1..], p[1..], pat, rep);
        assert t[..|p|] == [t[0]] + t[1..][..|p| - 1];
      }
    }
  }
}
