/**
 Paths as the program handles them: text, joined with `Join`, and read by the kernel and
 by path equality as a list of components.
 */
module Paths {

  predicate IsAbsolute(p: string) {
    p != "" && p[0] == '/'
  }

  /** `PathBuf::join`: an absolute path replaces the base, a relative one is appended. */
  function Join(base: string, p: string): string {
    if IsAbsolute(p) then p
    else if base == "" || base[|base| - 1] == '/' then base + p
    else base + "/" + p
  }

  /** The number of characters before the first slash. */
  function SegmentLength(s: string): (n: nat)
    ensures n <= |s| && '/' !in s[..n]
    ensures n < |s| ==> s[n] == '/'
  {
    if s == "" || s[0] == '/' then 0 else
    var n := 1 + SegmentLength(s[1..]);
    assert s[..n] == [s[0]] + s[1..][..n - 1];
    n
  }

  function Kept(segment: string): seq<string> {
    if segment == "" || segment == "." then [] else [segment]
  }

  /** The components of a path: empty and `.` segments do not count. */
  function Components(s: string): seq<string>
    decreases |s|
  {
    var n := SegmentLength(s);
    if n == |s| then Kept(s) else Kept(s[..n]) + Components(s[n + 1..])
  }

  lemma {:induction false} SegmentLengthOf(head: string, rest: string)
    requires '/' !in head
    requires rest != "" ==> rest[0] == '/'
    ensures SegmentLength(head + rest) == |head|
  {
    if head == "" {
      assert head + rest == rest;
    } else {
      assert (head + rest)[1..] == head[1..] + rest;
      assert head[0] in head;
      SegmentLengthOf(head[1..], rest);
    }
  }

  lemma ComponentsOfFirst(head: string, rest: string)
    requires '/' !in head
    ensures Components(head + "/" + rest) == Kept(head) + Components(rest)
  {
    var s := head + "/" + rest;
    assert s == head + ("/" + rest);
    SegmentLengthOf(head, "/" + rest);
    assert s[..|head|] == head && s[|head| + 1..] == rest;
  }

  lemma SlashAssociates(a: string, b: string, c: string)
    ensures a + "/" + b + "/" + c == a + "/" + (b + "/" + c)
  {
  }

  /** A slash separates the components before it from those after it. */
  lemma {:induction false} ComponentsOfSlash(a: string, b: string)
    ensures Components(a + "/" + b) == Components(a) + Components(b)
    decreases |a|
  {
    var n := SegmentLength(a);
    if n == |a| {
      assert a[..n] == a;
      ComponentsOfFirst(a, b);
    } else {
      var head, tail := a[..n], a[n + 1..];
      assert a == head + "/" + tail;
      SlashAssociates(head, tail, b);
      ComponentsOfFirst(head, tail + "/" + b);
      ComponentsOfSlash(tail, b);
    }
  }

  lemma ComponentsOfNothing()
    ensures Components("") == []
  {
  }

  /** A slash at the end of the base changes nothing. */
  lemma ComponentsAfterSlash(stem: string, p: string)
    ensures Components(stem + "/" + p) == Components(stem + "/") + Components(p)
  {
    hide Components;
    ComponentsOfSlash(stem, p);
    ComponentsOfSlash(stem, "");
    ComponentsOfNothing();
    assert stem + "/" + "" == stem + "/";
    assert Components(stem) + [] == Components(stem);
  }

  /** Joining a relative path appends its components. */
  lemma JoinComponents(base: string, p: string)
    ensures Components(Join(base, p)) ==
            if IsAbsolute(p) then Components(p) else Components(base) + Components(p)
  {
    hide Components;
    if IsAbsolute(p) {
    } else if base == "" {
      ComponentsOfNothing();
      assert base + p == p;
      assert [] + Components(p) == Components(p);
    } else if base[|base| - 1] == '/' {
      var stem := base[..|base| - 1];
      assert base == stem + "/";
      ComponentsAfterSlash(stem, p);
    } else {
      ComponentsOfSlash(base, p);
    }
  }

  /** `x` is the root or lies below it. */
  predicate Under(x: seq<string>, root: string) {
    Components(root) <= x
  }

  /** Path equality compares components, not text. */
  predicate SamePath(a: string, b: string) {
    IsAbsolute(a) == IsAbsolute(b) && Components(a) == Components(b)
  }

  // ---------- Paths as they are written ----------

  /** The segments, each behind a slash. */
  function Written(segments: seq<string>): string {
    if segments == [] then "" else "/" + segments[0] + Written(segments[1..])
  }

  /** A segment that counts: not empty, not `.`, and without a slash. */
  predicate Plain(segment: string) {
    segment != "" && segment != "." && '/' !in segment
  }

  lemma {:induction false} ComponentsBehindSlash(segments: seq<string>)
    requires forall i :: 0 <= i < |segments| ==> Plain(segments[i])
    ensures Components("/" + Written(segments)) == segments
  {
    assert "/" + Written(segments) == "" + "/" + Written(segments);
    ComponentsOfFirst("", Written(segments));
    ComponentsWritten(segments);
    assert [] + segments == segments;
  }

  /** The components of a written path are its segments, so different paths differ. */
  lemma {:induction false} ComponentsWritten(segments: seq<string>)
    requires forall i :: 0 <= i < |segments| ==> Plain(segments[i])
    ensures Components(Written(segments)) == segments
  {
    if segments == [] {
      ComponentsOfNothing();
    } else {
      var head, rest := segments[0], segments[1..];
      hide Components;
      ComponentsWritten(rest);
      FirstSegment(head, rest);
      assert segments == [head] + rest;
    }
  }

  lemma FirstSegment(head: string, rest: seq<string>)
    requires Plain(head) && Components(Written(rest)) == rest
    ensures Components("/" + head + Written(rest)) == [head] + rest
  {
    hide Components;
    ComponentsOfNothing();
    if rest == [] {
      assert "/" + head + "" == "" + "/" + head;
      ComponentsOfSlash("", head);
      SingleComponent(head);
    } else {
      var tail := rest[0] + Written(rest[1..]);
      assert Written(rest) == "" + "/" + tail;
      ComponentsOfSlash("", tail);
      ComponentsOfSlash("/" + head, tail);
      assert "/" + head + Written(rest) == "/" + head + "/" + tail;
      assert "/" + head == "" + "/" + head;
      ComponentsOfSlash("", head);
      SingleComponent(head);
      assert [] + rest == rest && [] + [head] == [head];
    }
  }

  lemma SingleComponent(segment: string)
    requires Plain(segment)
    ensures Components(segment) == [segment]
  {
    SegmentLengthOf(segment, "");
    assert segment + "" == segment;
  }

  /** Empty and `.` segments do not count. */
  lemma IgnoredSegments(a: string, b: string)
    ensures Components(a + "//" + b) == Components(a + "/" + b)
    ensures Components(a + "/./" + b) == Components(a + "/" + b)
    ensures Components(a + "/") == Components(a)
  {
    hide Components;
    ComponentsOfSlash(a, b);
    ComponentsOfSlash(a, "/" + b);
    ComponentsOfSlash("", b);
    ComponentsOfSlash(a, "./" + b);
    ComponentsOfSlash(".", b);
    ComponentsOfSlash(a, "");
    ComponentsOfNothing();
    ComponentsOfDot();
    assert a + "//" + b == a + "/" + ("/" + b) && "/" + b == "" + "/" + b;
    assert a + "/./" + b == a + "/" + ("./" + b) && "./" + b == "." + "/" + b;
    assert a + "/" + "" == a + "/";
    assert [] + Components(b) == Components(b);
    assert Components(a) + [] == Components(a);
  }

  lemma ComponentsOfDot()
    ensures Components(".") == []
  {
    SegmentLengthOf(".", "");
    assert "." + "" == ".";
  }

  /** How a path is joined to a directory. */
  lemma JoinText(base: string, p: string)
    ensures p != "" && p[0] == '/' ==> Join(base, p) == p
    ensures !(p != "" && p[0] == '/') && base != "" && base[|base| - 1] != '/' ==> Join(base, p) == base + "/" + p
    ensures !(p != "" && p[0] == '/') && (base == "" || base[|base| - 1] == '/') ==> Join(base, p) == base + p
  {
  }
}
