/**
 * `path.join` of Node's POSIX path module: the non-empty arguments joined
 * with `/`, then normalised as `path.normalize` does. Empty and `.` segments
 * are dropped, and each `..` cancels the segment before it. A `..` that has
 * nothing to cancel is kept in a relative path and dropped at the root of an
 * absolute one.
 */
module Paths {
  import Text

  /** One segment applied to the segments resolved so far. */
  function Step(stack: seq<string>, seg: string, absolute: bool): (r: seq<string>)
    ensures forall x | x in r :: x in stack || x == seg
  {
    if seg == "" || seg == "." then stack
    else if seg == ".." then
      if |stack| > 0 && stack[|stack| - 1] != ".." then stack[..|stack| - 1]
      else if absolute then stack
      else stack + [seg]
    else stack + [seg]
  }

  /** The segments left once `segs` have been applied, from left to right, to `stack`. */
  function Resolve(stack: seq<string>, segs: seq<string>, absolute: bool): (r: seq<string>)
    ensures forall x | x in r :: x in stack || x in segs
    decreases |segs|
  {
    if |segs| == 0 then stack
    else Resolve(Step(stack, segs[0], absolute), segs[1..], absolute)
  }

  /** The text of a resolved path: `/` in front of an absolute one, `.` for an empty relative one. */
  function Render(absolute: bool, trailing: bool, segs: seq<string>): string {
    var body := Text.Join(segs, '/');
    if body == "" then (if absolute then "/" else if trailing then "./" else ".")
    else (if absolute then "/" else "") + body + (if trailing then "/" else "")
  }

  /** `path.normalize(p)` */
  function Normalize(p: string): string {
    if p == "" then "."
    else
      var absolute := p[0] == '/';
      Render(absolute, p[|p| - 1] == '/', Resolve([], Text.Split(p, '/'), absolute))
  }

  /** The non-empty arguments of `path.join`, joined with `/`, from left to right. */
  function JoinArgs(parts: seq<string>): string {
    if |parts| == 0 then ""
    else
      var init := JoinArgs(parts[..|parts| - 1]);
      var last := parts[|parts| - 1];
      if last == "" then init else if init == "" then last else init + "/" + last
  }

  /** `path.join(...parts)` */
  function PathJoin(parts: seq<string>): string {
    Normalize(JoinArgs(parts))
  }

  /** Whether a first argument makes the joined path absolute. */
  predicate Absolute(first: string) {
    first != "" && first[0] == '/'
  }

  /** The segments of a first argument, resolved. */
  function Base(first: string): (r: seq<string>)
    ensures forall x | x in r :: '/' !in x
  {
    if first == "" then [] else Resolve([], Text.Split(first, '/'), Absolute(first))
  }

  /** A segment `path.join` leaves in place: non-empty, without `/`, neither `.` nor `..`. */
  predicate Plain(seg: string) {
    seg != "" && seg != "." && seg != ".." && '/' !in seg
  }

  // ---------------------------------------------------------------------------
  // Joining a first argument with single segments

  lemma SplitSnoc(p: string, seg: string)
    requires '/' !in seg
    ensures Text.Split(p + "/" + seg, '/') == Text.Split(p, '/') + [seg]
  {
    var parts := Text.Split(p, '/');
    Text.JoinSplit(p, '/');
    Text.JoinSnoc(parts, seg, '/');
    assert p + "/" + seg == Text.Join(parts, '/') + ['/'] + seg;
    Text.SplitJoin(parts + [seg], '/');
  }

  lemma {:induction false} ResolveAppend(stack: seq<string>, a: seq<string>, b: seq<string>, absolute: bool)
    ensures Resolve(stack, a + b, absolute) == Resolve(Resolve(stack, a, absolute), b, absolute)
    decreases |a|
  {
    if |a| > 0 {
      assert (a + b)[0] == a[0] && (a + b)[1..] == a[1..] + b;
      ResolveAppend(Step(stack, a[0], absolute), a[1..], b, absolute);
    } else {
      assert a + b == b;
    }
  }

  lemma JoinArgsSnoc(parts: seq<string>, seg: string)
    requires JoinArgs(parts) != "" && seg != ""
    ensures JoinArgs(parts + [seg]) == JoinArgs(parts) + "/" + seg
  {
    assert (parts + [seg])[..|parts|] == parts;
  }

  /**
   * Joining a first argument with segments that hold no `/` resolves the
   * segments against the first argument's own.
   */
  lemma {:induction false} JoinSegments(first: string, segs: seq<string>)
    requires |segs| > 0
    requires forall k | 0 <= k < |segs| :: segs[k] != "" && '/' !in segs[k]
    ensures var p := JoinArgs([first] + segs);
      && p != "" && (p[0] == '/' <==> Absolute(first)) && p[|p| - 1] != '/'
      && Resolve([], Text.Split(p, '/'), Absolute(first)) == Resolve(Base(first), segs, Absolute(first))
    decreases |segs|
  {
    var abs := Absolute(first);
    var init := segs[..|segs| - 1];
    var seg := segs[|segs| - 1];
    assert init + [seg] == segs;
    assert seg[|seg| - 1] != '/';
    assert [first] + segs == ([first] + init) + [seg];
    if |init| == 0 {
      assert [first] + init == [first] && [first][..0] == [];
      if first == "" {
        assert [first] + segs == [first, seg] && [first, seg][..1] == [first];
        assert JoinArgs([first]) == "";
        assert JoinArgs([first] + segs) == seg;
        assert seg[0] != '/';
        Text.IndexOfAbsent(seg, '/');
        assert Text.Split(seg, '/') == [seg];
        assert [seg][1..] == [];
        assert Resolve([], [seg], abs) == Step([], seg, abs);
        assert Resolve(Base(first), segs, abs) == Step([], seg, abs) by {
          assert segs == [seg];
        }
      } else {
        assert JoinArgs([first]) == first;
        JoinArgsSnoc([first], seg);
        SplitSnoc(first, seg);
        ResolveAppend([], Text.Split(first, '/'), [seg], abs);
      }
    } else {
      assert forall k | 0 <= k < |init| :: init[k] == segs[k];
      JoinSegments(first, init);
      var q := JoinArgs([first] + init);
      JoinArgsSnoc([first] + init, seg);
      SplitSnoc(q, seg);
      ResolveAppend([], Text.Split(q, '/'), [seg], abs);
      ResolveAppend(Base(first), init, [seg], abs);
    }
  }

  /** `path.join(first, ...segs)`, for segments that hold no `/`, in terms of the resolved segments. */
  lemma JoinResolved(first: string, segs: seq<string>)
    requires |segs| > 0
    requires forall k | 0 <= k < |segs| :: segs[k] != "" && '/' !in segs[k]
    ensures PathJoin([first] + segs) == Render(Absolute(first), false, Resolve(Base(first), segs, Absolute(first)))
  {
    JoinSegments(first, segs);
  }

  /** Plain segments are appended as they are. */
  lemma {:induction false} ResolvePlain(stack: seq<string>, segs: seq<string>, absolute: bool)
    requires forall k | 0 <= k < |segs| :: Plain(segs[k])
    ensures Resolve(stack, segs, absolute) == stack + segs
    decreases |segs|
  {
    if |segs| > 0 {
      ResolvePlain(stack + [segs[0]], segs[1..], absolute);
      assert stack + [segs[0]] + segs[1..] == stack + segs;
    } else {
      assert stack + segs == stack;
    }
  }

  /** A path ending in a non-empty segment renders as the path of the others, `/`, and that segment. */
  lemma RenderSnoc(absolute: bool, segs: seq<string>, seg: string)
    requires segs != [] && segs[|segs| - 1] != "" && seg != ""
    ensures Render(absolute, false, segs + [seg]) == Render(absolute, false, segs) + "/" + seg
  {
    Text.JoinSnoc(segs, seg, '/');
    JoinNonEmpty(segs);
  }

  lemma JoinNonEmpty(segs: seq<string>)
    requires segs != [] && segs[|segs| - 1] != ""
    ensures Text.Join(segs, '/') != ""
  {
    if |segs| > 1 {
      var init := segs[..|segs| - 1];
      assert init + [segs[|segs| - 1]] == segs;
      Text.JoinSnoc(init, segs[|segs| - 1], '/');
    }
  }

  /** Different segment lists without `/` render differently. */
  lemma RenderInjective(absolute: bool, a: seq<string>, b: seq<string>)
    requires a != [] && a[|a| - 1] != "" && b != [] && b[|b| - 1] != ""
    requires forall k | 0 <= k < |a| :: '/' !in a[k]
    requires forall k | 0 <= k < |b| :: '/' !in b[k]
    requires Render(absolute, false, a) == Render(absolute, false, b)
    ensures a == b
  {
    JoinNonEmpty(a);
    JoinNonEmpty(b);
    var pre := if absolute then "/" else "";
    assert Render(absolute, false, a) == pre + Text.Join(a, '/') + "";
    assert Render(absolute, false, b) == pre + Text.Join(b, '/') + "";
    assert Text.Join(a, '/') == Render(absolute, false, a)[|pre|..];
    assert Text.Join(b, '/') == Render(absolute, false, b)[|pre|..];
    Text.SplitJoin(a, '/');
    Text.SplitJoin(b, '/');
  }

  /** A plain segment followed by `..` leaves nothing behind. */
  lemma UpCancels(stack: seq<string>, seg: string, rest: seq<string>, absolute: bool)
    requires Plain(seg)
    ensures Resolve(stack, [seg, ".."] + rest, absolute) == Resolve(stack, rest, absolute)
  {
    var segs := [seg, ".."] + rest;
    assert segs[0] == seg && segs[1..][0] == ".." && segs[1..][1..] == rest;
    assert Step(stack + [seg], "..", absolute) == stack by {
      assert (stack + [seg])[..|stack|] == stack;
    }
  }

  /** Three segments joined by `/` in one argument join the same string as three arguments. */
  lemma JoinArgsSplit(first: string, dir: string, s1: string, s2: string, s3: string)
    requires JoinArgs([first, dir]) != "" && s1 != "" && s2 != "" && s3 != ""
    ensures JoinArgs([first, dir, s1 + "/" + s2 + "/" + s3]) == JoinArgs([first, dir, s1, s2, s3])
  {
    assert [first, dir] + [s1 + "/" + s2 + "/" + s3] == [first, dir, s1 + "/" + s2 + "/" + s3];
    JoinArgsSnoc([first, dir], s1 + "/" + s2 + "/" + s3);
    assert [first, dir] + [s1] == [first, dir, s1];
    JoinArgsSnoc([first, dir], s1);
    assert [first, dir, s1] + [s2] == [first, dir, s1, s2];
    JoinArgsSnoc([first, dir, s1], s2);
    assert [first, dir, s1, s2] + [s3] == [first, dir, s1, s2, s3];
    JoinArgsSnoc([first, dir, s1, s2], s3);
  }

  /**
   * A last argument `../up/seg` climbs out of the directory named before it:
   * `path.join(first, dir, "../up/seg") == path.join(first, up, seg)`.
   */
  lemma JoinClimbs(first: string, dir: string, up: string, seg: string)
    requires Plain(dir) && up != "" && '/' !in up && seg != "" && '/' !in seg
    ensures PathJoin([first, dir, ".." + "/" + up + "/" + seg]) == PathJoin([first, up, seg])
  {
    JoinSegments(first, [dir]);
    assert [first] + [dir] == [first, dir];
    JoinArgsSplit(first, dir, "..", up, seg);
    var climb := [dir, "..", up, seg];
    assert [first] + climb == [first, dir, "..", up, seg];
    JoinResolved(first, climb);
    assert [dir, ".."] + [up, seg] == climb;
    UpCancels(Base(first), dir, [up, seg], Absolute(first));
    assert [first] + [up, seg] == [first, up, seg];
    JoinResolved(first, [up, seg]);
  }

  /** Joining a first argument with plain segments appends them to the first argument's resolved segments. */
  lemma JoinPlain(first: string, segs: seq<string>)
    requires |segs| > 0 && forall k | 0 <= k < |segs| :: Plain(segs[k])
    ensures PathJoin([first] + segs) == Render(Absolute(first), false, Base(first) + segs)
    ensures var all := Base(first) + segs;
      && all[|all| - 1] != "" && forall k | 0 <= k < |all| :: '/' !in all[k]
  {
    JoinResolved(first, segs);
    ResolvePlain(Base(first), segs, Absolute(first));
    var base, all := Base(first), Base(first) + segs;
    forall k | 0 <= k < |all|
      ensures '/' !in all[k]
    {
      if k < |base| {
        assert all[k] in base;
      }
    }
  }

  /** `path.join(first, dir, seg)` is `path.join(first, dir)`, `/` and `seg`, for plain `dir` and `seg`. */
  lemma JoinPlainSnoc(first: string, dir: string, seg: string)
    requires Plain(dir) && Plain(seg)
    ensures PathJoin([first, dir, seg]) == PathJoin([first, dir]) + "/" + seg
  {
    var abs, base := Absolute(first), Base(first);
    assert [first] + [dir] == [first, dir];
    assert [first] + [dir, seg] == [first, dir, seg];
    JoinPlain(first, [dir]);
    JoinPlain(first, [dir, seg]);
    assert base + [dir, seg] == (base + [dir]) + [seg];
    RenderSnoc(abs, base + [dir], seg);
  }

  /** `path.join(first, dir, seg)` with plain `dir` and `seg` determines both. */
  lemma JoinPlainInjective(first: string, dir1: string, seg1: string, dir2: string, seg2: string)
    requires Plain(dir1) && Plain(seg1) && Plain(dir2) && Plain(seg2)
    requires PathJoin([first, dir1, seg1]) == PathJoin([first, dir2, seg2])
    ensures dir1 == dir2 && seg1 == seg2
  {
    var base := Base(first);
    assert [first] + [dir1, seg1] == [first, dir1, seg1];
    assert [first] + [dir2, seg2] == [first, dir2, seg2];
    JoinPlain(first, [dir1, seg1]);
    JoinPlain(first, [dir2, seg2]);
    RenderInjective(Absolute(first), base + [dir1, seg1], base + [dir2, seg2]);
    assert (base + [dir1, seg1])[|base|] == dir1 && (base + [dir1, seg1])[|base| + 1] == seg1;
    assert (base + [dir2, seg2])[|base|] == dir2 && (base + [dir2, seg2])[|base| + 1] == seg2;
  }

  /** An absolute path of two plain segments resolves to those segments. */
  lemma BaseOfAbsolute(dir1: string, dir2: string)
    requires Plain(dir1) && Plain(dir2)
    ensures Base("/" + dir1 + "/" + dir2) == [dir1, dir2]
  {
    var p := "/" + dir1 + "/" + dir2;
    assert p[0] == '/';
    assert "/" + dir1 == "" + "/" + dir1;
    Text.IndexOfAbsent("", '/');
    assert Text.Split("", '/') == [""];
    SplitSnoc("", dir1);
    SplitSnoc("/" + dir1, dir2);
    assert Text.Split(p, '/') == [""] + [dir1, dir2];
    assert ([""] + [dir1, dir2])[1..] == [dir1, dir2];
    ResolvePlain([], [dir1, dir2], true);
  }

  /** A plain segment after `..` below an absolute path of two plain segments lands in the first of them. */
  lemma ClimbFromAbsolute(dir1: string, dir2: string, seg: string)
    requires Plain(dir1) && Plain(dir2) && Plain(seg)
    ensures PathJoin(["/" + dir1 + "/" + dir2, "..", seg]) == "/" + dir1 + "/" + seg
  {
    var first := "/" + dir1 + "/" + dir2;
    BaseOfAbsolute(dir1, dir2);
    assert [first] + ["..", seg] == [first, "..", seg];
    JoinResolved(first, ["..", seg]);
    ClimbSegments(dir1, dir2, seg);
  }

  lemma ClimbSegments(dir1: string, dir2: string, seg: string)
    requires Plain(dir1) && Plain(dir2) && Plain(seg)
    ensures Resolve([dir1, dir2], ["..", seg], true) == [dir1, seg]
    ensures Text.Join([dir1, seg], '/') == dir1 + "/" + seg
  {
    assert [dir1, dir2][..1] == [dir1];
    assert Step([dir1, dir2], "..", true) == [dir1];
    assert ["..", seg][1..] == [seg];
    ResolvePlain([dir1], [seg], true);
    assert [dir1, seg][1..] == [seg];
  }

  /** A detour `sub/..` inside the last argument changes nothing: `path.join(first, dir, "sub/../seg") == path.join(first, dir, seg)`. */
  lemma JoinDetour(first: string, dir: string, sub: string, seg: string)
    requires Plain(dir) && Plain(sub) && seg != "" && '/' !in seg
    ensures PathJoin([first, dir, sub + "/" + ".." + "/" + seg]) == PathJoin([first, dir, seg])
  {
    JoinSegments(first, [dir]);
    assert [first] + [dir] == [first, dir];
    JoinArgsSplit(first, dir, sub, "..", seg);
    var detour := [dir, sub, "..", seg];
    assert [first] + detour == [first, dir, sub, "..", seg];
    JoinResolved(first, detour);
    DetourResolves(Base(first), dir, sub, seg, Absolute(first));
    assert [first] + [dir, seg] == [first, dir, seg];
    JoinResolved(first, [dir, seg]);
  }

  lemma DetourResolves(stack: seq<string>, dir: string, sub: string, seg: string, absolute: bool)
    requires Plain(dir) && Plain(sub)
    ensures Resolve(stack, [dir, sub, "..", seg], absolute) == Resolve(stack, [dir, seg], absolute)
  {
    var detour := [dir, sub, "..", seg];
    assert detour[0] == dir && detour[1..] == [sub, ".."] + [seg];
    assert Step(stack, dir, absolute) == stack + [dir];
    UpCancels(stack + [dir], sub, [seg], absolute);
    assert [dir, seg][0] == dir && [dir, seg][1..] == [seg];
  }
}
