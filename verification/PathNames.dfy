/**
 The string tests on path names that leases and delegation contracts share, and
 what they mean for resolved absolute paths.
 */
module PathNames {

  function RStripSlash(s: string): (r: string)
    ensures r <= s && (r != "" ==> r[|r| - 1] != '/')
    ensures forall i | |r| <= i < |s| :: s[i] == '/'
  {
    if s == "" || s[|s| - 1] != '/' then s else RStripSlash(s[..|s| - 1])
  }

  /** The value is the root itself, or begins with the root, stripped of trailing slashes,
      followed by one slash. */
  predicate Under(value: string, root: string) {
    value == root || RStripSlash(root) + "/" <= value
  }

  predicate Overlaps(key: string, other: string) {
    key == other || RStripSlash(other) + "/" <= key || RStripSlash(key) + "/" <= other
  }

  /** Containment of path names composes, for any strings whatsoever. */
  lemma UnderTransitive(a: string, b: string, c: string)
    requires Under(a, b) && Under(b, c)
    ensures Under(a, c)
  {
    if a != b && b != c {
      var rc := RStripSlash(c) + "/";
      var rb := RStripSlash(b) + "/";
      if |rc| <= |RStripSlash(b)| {
        assert rc <= rb;
      } else {
        // `b` is the stripped root followed by slashes only.
        assert |RStripSlash(c)| > 0 ==> b[|RStripSlash(c)| - 1] == rc[|RStripSlash(c)| - 1];
        assert |RStripSlash(b)| == |RStripSlash(c)|;
        assert RStripSlash(b) == b[..|RStripSlash(c)|] == rc[..|RStripSlash(c)|] == RStripSlash(c);
      }
    }
  }

  // ---------------------------------------------------------------- resolved absolute paths

  predicate Component(s: string) {
    s != "" && '/' !in s
  }

  predicate Resolved(path: seq<string>) {
    forall i | 0 <= i < |path| :: Component(path[i])
  }

  function Joined(path: seq<string>): string {
    if path == [] then "" else "/" + path[0] + Joined(path[1..])
  }

  /** The text of a resolved absolute path; the root is the lone slash. */
  function Render(path: seq<string>): string {
    if path == [] then "/" else Joined(path)
  }

  lemma {:induction false} StrippedRender(path: seq<string>)
    requires Resolved(path)
    ensures RStripSlash(Render(path)) == Joined(path)
  {
    if path != [] {
      EndsInName(path);
    }
  }

  lemma {:induction false} EndsInName(path: seq<string>)
    requires Resolved(path) && path != []
    ensures Joined(path) != "" && Joined(path)[|Joined(path)| - 1] != '/'
  {
    if |path| == 1 {
      assert Joined(path[1..]) == "";
      assert path[0][|path[0]| - 1] != '/';
    } else {
      EndsInName(path[1..]);
    }
  }

  lemma FirstNameAgrees(h: string, x: string, k: string, y: string)
    requires '/' !in h && '/' !in k
    requires x != "" && x[0] == '/' && (y == "" || y[0] == '/')
    requires h + x <= k + y
    ensures h == k && x <= y
  {
    assert (h + x)[|h|] == '/';
    assert y != "" ==> (k + y)[|k|] == '/';
    assert forall i | 0 <= i < |k| :: (k + y)[i] in k;
    assert forall i | 0 <= i < |h| :: (h + x)[i] in h;
    assert |h| == |k|;
    assert h == (h + x)[..|h|] == (k + y)[..|h|] == k;
    assert x == (h + x)[|h|..] <= (k + y)[|h|..] == y;
  }

  lemma SlashedPrefix(h: string, x: string, k: string, y: string)
    requires '/' !in h && '/' !in k
    requires x != "" && x[0] == '/' && (y == "" || y[0] == '/')
    ensures "/" + h + x <= "/" + k + y <==> h == k && x <= y
  {
    assert "/" + h + x == "/" + (h + x) && "/" + k + y == "/" + (k + y);
    if "/" + h + x <= "/" + k + y {
      assert h + x == ("/" + (h + x))[1..] <= ("/" + (k + y))[1..] == k + y;
      FirstNameAgrees(h, x, k, y);
    }
  }

  lemma {:induction false} JoinedPrefix(p: seq<string>, q: seq<string>)
    requires Resolved(p) && Resolved(q)
    ensures Joined(p) + "/" <= Joined(q) <==> p <= q && p != q
  {
    if p == [] {
      assert q != [] ==> Joined(q)[0] == '/';
    } else if q == [] {
    } else {
      JoinedPrefix(p[1..], q[1..]);
      SlashedPrefix(p[0], Joined(p[1..]) + "/", q[0], Joined(q[1..]));
      assert Joined(p) + "/" == "/" + p[0] + (Joined(p[1..]) + "/");
      assert p == [p[0]] + p[1..] && q == [q[0]] + q[1..];
    }
  }

  lemma {:induction false} JoinedInjective(p: seq<string>, q: seq<string>)
    requires Resolved(p) && Resolved(q) && Joined(p) == Joined(q)
    ensures p == q
  {
    if p != [] && q != [] {
      var x, y := Joined(p[1..]), Joined(q[1..]);
      assert p[0] + x == Joined(p)[1..] == Joined(q)[1..] == q[0] + y;
      assert (p[0] + x) + "/" == p[0] + (x + "/") && (q[0] + y) + "/" == q[0] + (y + "/");
      FirstNameAgrees(p[0], x + "/", q[0], y + "/");
      assert x == (p[0] + x)[|p[0]|..] == (q[0] + y)[|q[0]|..] == y;
      JoinedInjective(p[1..], q[1..]);
      assert p == [p[0]] + p[1..] && q == [q[0]] + q[1..];
    }
  }

  /** On resolved paths the string test is component-wise ancestry, the root included. */
  lemma UnderIsAncestry(value: seq<string>, root: seq<string>)
    requires Resolved(value) && Resolved(root)
    ensures Under(Render(value), Render(root)) <==> root <= value
  {
    StrippedRender(root);
    JoinedPrefix(root, value);
    if Render(value) == Render(root) && value != [] && root != [] {
      JoinedInjective(value, root);
    }
    if value != [] {
      EndsInName(value);
    }
    if root != [] {
      EndsInName(root);
    }
  }

  lemma OverlapIsAncestry(a: seq<string>, b: seq<string>)
    requires Resolved(a) && Resolved(b)
    ensures Overlaps(Render(a), Render(b)) <==> a <= b || b <= a
  {
    UnderIsAncestry(a, b);
    UnderIsAncestry(b, a);
  }
}
