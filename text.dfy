/**
 * The handful of Python string operations the pipeline relies on:
 * str.lstrip / str.rstrip / str.strip with a set of characters,
 * str.replace(c, "") and str.find. Character classes are given as
 * predicates on char.
 */
module Text {

  /** str.lstrip: drop the longest prefix made only of characters `drop` accepts. */
  function TrimStart(s: string, drop: char -> bool): (r: string)
    ensures |r| <= |s| && r == s[|s| - |r|..]
    ensures forall i :: 0 <= i < |s| - |r| ==> drop(s[i])
    ensures r != [] ==> !drop(r[0])
  {
    if |s| > 0 && drop(s[0]) then
      var r := TrimStart(s[1..], drop);
      assert s[1..][|s| - 1 - |r|..] == s[|s| - |r|..];
      assert forall i :: 1 <= i < |s| - |r| ==> s[i] == s[1..][i - 1];
      r
    else s
  }

  /** str.rstrip: drop the longest suffix made only of characters `drop` accepts. */
  function TrimEnd(s: string, drop: char -> bool): (r: string)
    ensures |r| <= |s| && r == s[..|r|]
    ensures forall i :: |r| <= i < |s| ==> drop(s[i])
    ensures r != [] ==> !drop(r[|r| - 1])
  {
    if |s| > 0 && drop(s[|s| - 1]) then
      var r := TrimEnd(s[..|s| - 1], drop);
      assert s[..|s| - 1][..|r|] == s[..|r|];
      assert forall i :: |r| <= i < |s| - 1 ==> s[i] == s[..|s| - 1][i];
      r
    else s
  }

  /** str.strip: both ends; a string made only of dropped characters becomes empty. */
  function Strip(s: string, drop: char -> bool): (r: string)
    ensures |r| <= |s|
    ensures r != [] ==> !drop(r[0]) && !drop(r[|r| - 1])
    ensures (forall k :: 0 <= k < |s| ==> drop(s[k])) ==> r == []
    ensures s == [] || (!drop(s[0]) && !drop(s[|s| - 1])) ==> r == s
  {
    if s == [] || (!drop(s[0]) && !drop(s[|s| - 1])) then
      TrimStartNoop(s, drop);
      TrimEndNoop(s, drop);
      TrimEnd(TrimStart(s, drop), drop)
    else
      TrimEnd(TrimStart(s, drop), drop)
  }

  /**
   * Strip leaves exactly the middle: whatever runs of dropped characters
   * surround a middle that neither starts nor ends with one, strip returns
   * that middle. With the contracts of TrimStart and TrimEnd this pins
   * Strip down completely.
   */
  lemma {:induction false} StripMiddle(pre: string, mid: string, post: string, drop: char -> bool)
    requires forall k :: 0 <= k < |pre| ==> drop(pre[k])
    requires forall k :: 0 <= k < |post| ==> drop(post[k])
    requires mid == [] || (!drop(mid[0]) && !drop(mid[|mid| - 1]))
    ensures Strip(pre + mid + post, drop) == mid
  {
    if mid == [] {
      assert pre + mid + post == pre + post + [];
      TrimStartSkips(pre + post, [], drop);
    } else {
      assert pre + mid + post == pre + (mid + post);
      TrimStartSkips(pre, mid + post, drop);
      TrimEndSkips(mid, post, drop);
    }
  }

  lemma {:induction false} TrimStartSkips(pre: string, rest: string, drop: char -> bool)
    requires forall k :: 0 <= k < |pre| ==> drop(pre[k])
    requires rest == [] || !drop(rest[0])
    ensures TrimStart(pre + rest, drop) == rest
  {
    if pre == [] {
      assert pre + rest == rest;
    } else {
      assert (pre + rest)[1..] == pre[1..] + rest;
      TrimStartSkips(pre[1..], rest, drop);
    }
  }

  lemma {:induction false} TrimEndSkips(rest: string, post: string, drop: char -> bool)
    requires forall k :: 0 <= k < |post| ==> drop(post[k])
    requires rest == [] || !drop(rest[|rest| - 1])
    ensures TrimEnd(rest + post, drop) == rest
  {
    if post == [] {
      assert rest + post == rest;
    } else {
      var s := rest + post;
      assert s[..|s| - 1] == rest + post[..|post| - 1];
      TrimEndSkips(rest, post[..|post| - 1], drop);
    }
  }

  /** Stripping twice strips nothing more. */
  lemma StripIdempotent(s: string, drop: char -> bool)
    ensures Strip(Strip(s, drop), drop) == Strip(s, drop)
  {
    var r := Strip(s, drop);
    TrimStartNoop(r, drop);
    TrimEndNoop(r, drop);
  }

  lemma TrimStartNoop(s: string, drop: char -> bool)
    requires s == [] || !drop(s[0])
    ensures TrimStart(s, drop) == s
  {
  }

  lemma TrimEndNoop(s: string, drop: char -> bool)
    requires s == [] || !drop(s[|s| - 1])
    ensures TrimEnd(s, drop) == s
  {
  }

  /** str.replace(c, "") for every c that `drop` accepts: keep the other characters in order. */
  function RemoveWhere(s: string, drop: char -> bool): (r: string)
    ensures |r| <= |s|
    ensures forall i :: 0 <= i < |r| ==> !drop(r[i])
    ensures (forall i :: 0 <= i < |s| ==> !drop(s[i])) ==> r == s
    ensures s != [] && !drop(s[0]) ==> r != [] && r[0] == s[0]
  {
    if s == [] then []
    else if drop(s[0]) then RemoveWhere(s[1..], drop)
    else [s[0]] + RemoveWhere(s[1..], drop)
  }

  /** Removal works character by character, so it keeps the order: it distributes over concatenation. */
  lemma {:induction false} RemoveWhereAppend(a: string, b: string, drop: char -> bool)
    ensures RemoveWhere(a + b, drop) == RemoveWhere(a, drop) + RemoveWhere(b, drop)
  {
    if a == [] {
      assert a + b == b;
    } else {
      assert (a + b)[0] == a[0] && (a + b)[1..] == a[1..] + b;
      RemoveWhereAppend(a[1..], b, drop);
    }
  }

  /** str.find generalised to a class of characters; "not found" is |s| rather than -1. */
  function IndexWhere(s: string, p: char -> bool): (i: nat)
    ensures i <= |s|
    ensures i < |s| ==> p(s[i])
    ensures forall k :: 0 <= k < i ==> !p(s[k])
  {
    if s == [] then 0
    else if p(s[0]) then 0
    else 1 + IndexWhere(s[1..], p)
  }

  /**
   * IndexWhere stops at the first accepted character after a prefix that
   * holds none: it finds the end of `a` in `a + b` when `b` is empty or
   * starts with an accepted character.
   */
  lemma IndexWhereAfterPrefix(a: string, b: string, p: char -> bool)
    requires forall k :: 0 <= k < |a| ==> !p(a[k])
    requires b == [] || p(b[0])
    ensures IndexWhere(a + b, p) == |a|
  {
    var s := a + b;
    assert forall k :: 0 <= k < |a| ==> s[k] == a[k];
    assert b != [] ==> s[|a|] == b[0];
  }

  /**
   * Python's `s.split(c, 1)` when a separator occurs in s, and (s, "") when
   * none does; `sep` accepts the separator character.
   */
  function SplitOnce(s: string, sep: char -> bool): (r: (string, string))
  {
    var i := IndexWhere(s, sep);
    if i < |s| then (s[..i], s[i + 1..]) else (s, "")
  }
}
