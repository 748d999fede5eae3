// Path strings and their components.
module Paths {
  import opened Disk
  import opened Directory
  import opened Names

  const SLASH: byte := 0x2F

  /** Length of the slash-free text at the front. */
  function RunLength(p: seq<byte>): (n: nat)
    ensures n <= |p| && SLASH !in p[..n] && (n < |p| ==> p[n] == SLASH)
  {
    if p == [] || p[0] == SLASH then 0 else
    var n := 1 + RunLength(p[1..]);
    assert p[..n] == [p[0]] + p[1..][..n - 1];
    n
  }

  /** A component is kept in a buffer of 256 bytes with its NUL. */
  function Cut(s: seq<byte>): seq<byte> { s[..Min(|s|, 255)] }

  /** The non-empty slash-free runs of a path, in order. */
  function Components(p: seq<byte>): (cs: seq<seq<byte>>)
  {
    if p == [] then []
    else if p[0] == SLASH then Components(p[1..])
    else [Cut(p[..RunLength(p)])] + Components(p[RunLength(p)..])
  }

  /** What a component of a path can be. */
  predicate IsComponent(c: seq<byte>) {
    0 < |c| <= 255 && SLASH !in c
  }

  lemma {:induction false} ComponentsOk(p: seq<byte>, i: nat)
    requires i < |Components(p)|
    ensures IsComponent(Components(p)[i])
    ensures 0 !in p ==> 0 !in Components(p)[i]
    decreases |p|
  {
    if p[0] == SLASH {
      ComponentsOk(p[1..], i);
    } else if i > 0 {
      ComponentsOk(p[RunLength(p)..], i - 1);
    }
  }

  /** A path in plain bytes: `seps[i]` slashes in front of the text `cs[i]`, and `tail` slashes at the end. */
  function Route(seps: seq<nat>, cs: seq<seq<byte>>, tail: nat): seq<byte>
    requires |seps| == |cs|
  {
    if cs == [] then seq(tail, _ => 0x2F) else seq(seps[0], _ => 0x2F) + cs[0] + Route(seps[1..], cs[1..], tail)
  }

  lemma {:induction false} RunLengthIs(p: seq<byte>, n: nat)
    requires n <= |p| && (forall i :: 0 <= i < n ==> p[i] != SLASH) && (n < |p| ==> p[n] == SLASH)
    ensures RunLength(p) == n
    decreases n
  {
    if n > 0 {
      RunLengthIs(p[1..], n - 1);
    }
  }

  /** Splitting off the first run of a path that does not start with a slash. */
  lemma FirstRun(p: seq<byte>, n: nat)
    requires 0 < n <= |p| && (forall i :: 0 <= i < n ==> p[i] != SLASH) && (n < |p| ==> p[n] == SLASH)
    ensures Components(p) == [Cut(p[..n])] + Components(p[n..])
  {
    RunLengthIs(p, n);
  }

  lemma {:induction false} SkipSlash(p: seq<byte>, i: nat, j: nat)
    requires i <= j <= |p| && forall k :: i <= k < j ==> p[k] == SLASH
    ensures Components(p[i..]) == Components(p[j..])
    decreases j - i
  {
    if i < j {
      assert p[i..][1..] == p[i + 1..];
      SkipSlash(p, i + 1, j);
    }
  }

  lemma FirstOfRoute(n: nat, c: seq<byte>, rest: seq<byte>)
    requires c != [] && SLASH !in c && (rest != [] ==> rest[0] == SLASH)
    ensures Components(seq(n, _ => 0x2F) + c + rest) == [Cut(c)] + Components(rest)
  {
    hide Components;
    var zs: seq<byte> := seq(n, _ => 0x2F);
    var p := zs + c + rest;
    assert p == zs + (c + rest);
    assert p[0..] == p && p[n..] == c + rest;
    SkipSlash(p, 0, n);
    FirstText(c, rest);
  }

  lemma FirstText(c: seq<byte>, rest: seq<byte>)
    requires c != [] && SLASH !in c && (rest != [] ==> rest[0] == SLASH)
    ensures Components(c + rest) == [Cut(c)] + Components(rest)
  {
    hide Components;
    var p := c + rest;
    assert p[..|c|] == c && p[|c|..] == rest;
    FirstRun(p, |c|);
  }

  /** A path is split into its non-empty texts without slashes, each cut to 255 bytes, however many slashes there are
      between them, in front, and at the end. */
  lemma {:induction false} SplitRoute(seps: seq<nat>, cs: seq<seq<byte>>, tail: nat)
    requires |seps| == |cs| && (forall i :: 0 <= i < |cs| ==> cs[i] != [] && 0x2F !in cs[i])
    requires forall i :: 1 <= i < |seps| ==> seps[i] > 0
    ensures var r := Components(Route(seps, cs, tail));
            |r| == |cs| && forall i :: 0 <= i < |cs| ==> r[i] == if |cs[i]| <= 255 then cs[i] else cs[i][..255]
  {
    var p := Route(seps, cs, tail);
    if cs == [] {
      SkipSlash(p, 0, tail);
      assert p[0..] == p && p[tail..] == [];
    } else {
      SplitRoute(seps[1..], cs[1..], tail);
      FirstOfRoute(seps[0], cs[0], Route(seps[1..], cs[1..], tail));
    }
  }

  /** The 8.3 keys a path stands for. */
  function Keys(p: CString): (ks: seq<Key>)
    ensures |ks| == |Components(p)|
  {
    seq(|Components(p)|, i requires 0 <= i < |Components(p)| => ToKey(Components(p)[i]))
  }

  /** No key of a path looks like "." or ".." or starts with the end marker. */
  lemma KeysStart(p: CString, i: nat)
    requires i < |Keys(p)|
    ensures Components(p)[i] != []
    ensures Keys(p)[i][0] != DOT && Keys(p)[i][0] != 0
    ensures Keys(p)[i][0] == FREE <==> Components(p)[i][0] == FREE
  {
    ComponentsOk(p, i);
    KeyStart(Components(p)[i]);
  }

  /** The second loop of `get_next_path_component`: the slash-free run at `start`. */
  method ReadRun(path: CString, start: nat) returns (component: seq<byte>, next: nat)
    requires start < |path| && path[start] != SLASH
    ensures start < next <= |path|
    ensures Components(path[start..]) == [component] + Components(path[next..])
  {
    next := start;
    component := [];
    while next < |path| && path[next] != SLASH
      invariant start <= next <= |path|
      invariant forall k :: start <= k < next ==> path[k] != SLASH
      invariant component == Cut(path[start..next])
    {
      assert path[start..next + 1] == path[start..next] + [path[next]];
      if |component| < 255 {
        component := component + [path[next]];
      }
      next := next + 1;
    }
    assert path[start..][..next - start] == path[start..next];
    assert path[start..][next - start..] == path[next..];
    FirstRun(path[start..], next - start);
  }

  /** `get_next_path_component`: the next component at or after `offset`, and the offset behind it. */
  method NextComponent(path: CString, offset: nat) returns (found: bool, component: seq<byte>, next: nat)
    requires offset <= |path|
    ensures offset <= next <= |path|
    ensures found <==> Components(path[offset..]) != []
    ensures found ==> offset < next && Components(path[offset..]) == [component] + Components(path[next..])
  {
    next := offset;
    component := [];
    while next < |path| && path[next] == SLASH
      invariant offset <= next <= |path|
      invariant forall k :: offset <= k < next ==> path[k] == SLASH
    {
      next := next + 1;
    }
    SkipSlash(path, offset, next);
    found := next < |path|;
    if found {
      component, next := ReadRun(path, next);
    }
  }
}
