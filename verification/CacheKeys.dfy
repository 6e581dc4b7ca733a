/** Cache keys: `Namespace.Key`, `Versioned`, `Prefix`. */
module CacheKeys {
  import Decimal

  const SEPARATOR: char := ':'

  /** A service name or segment that does not contain the separator. */
  predicate Free(s: string) { SEPARATOR !in s }

  predicate AllFree(parts: seq<string>) { forall i :: 0 <= i < |parts| ==> Free(parts[i]) }

  /** strings.Join(parts, ":"). */
  function Join(parts: seq<string>): string
  {
    if parts == [] then []
    else if |parts| == 1 then parts[0]
    else parts[0] + [SEPARATOR] + Join(parts[1..])
  }

  function Key(service: string, segments: seq<string>): string { Join([service] + segments) }

  function Versioned(service: string, entity: string, id: string, version: int): string
  {
    Key(service, [entity, id, "v" + Decimal.Itoa(version)])
  }

  function Prefix(service: string, segments: seq<string>): string { Key(service, segments) + [SEPARATOR] }

  predicate StartsAtSeparator(s: string) { s == [] || s[0] == SEPARATOR }

  /** Where the first separator is, or the end. */
  function UpToSeparator(s: string): nat { if s == [] || s[0] == SEPARATOR then 0 else 1 + UpToSeparator(s[1..]) }

  lemma {:induction false} HeadEndsThere(x: string, r: string)
    requires Free(x) && StartsAtSeparator(r)
    ensures UpToSeparator(x + r) == |x|
  {
    if x == [] {
      assert x + r == r;
    } else {
      assert x[0] in x;
      HeadEndsThere(x[1..], r);
      assert (x + r)[1..] == x[1..] + r;
    }
  }

  /** Two separator-free heads followed by a separator or the end are the same head. */
  lemma SameHead(x: string, y: string, r: string, s: string)
    requires Free(x) && Free(y) && StartsAtSeparator(r) && StartsAtSeparator(s) && x + r == y + s
    ensures x == y && r == s
  {
    HeadEndsThere(x, r);
    HeadEndsThere(y, s);
    assert x == (x + r)[..|x|] && y == (y + s)[..|x|];
    assert r == (x + r)[|x|..] && s == (y + s)[|x|..];
  }

  /** What follows the first part. */
  function Tail(parts: seq<string>): string
    requires parts != []
  {
    if |parts| == 1 then [] else [SEPARATOR] + Join(parts[1..])
  }

  lemma HeadAndTail(parts: seq<string>)
    requires parts != []
    ensures Join(parts) == parts[0] + Tail(parts) && StartsAtSeparator(Tail(parts))
  {
  }

  lemma {:induction false} JoinInjective(a: seq<string>, b: seq<string>)
    requires a != [] && b != [] && AllFree(a) && AllFree(b) && Join(a) == Join(b)
    ensures a == b
    decreases |a|
  {
    HeadAndTail(a);
    HeadAndTail(b);
    SameHead(a[0], b[0], Tail(a), Tail(b));
    if |a| > 1 {
      assert |b| > 1;
      assert Join(a[1..]) == Tail(a)[1..] == Tail(b)[1..] == Join(b[1..]);
      JoinInjective(a[1..], b[1..]);
      assert a == [a[0]] + a[1..] && b == [b[0]] + b[1..];
    } else {
      assert a == [a[0]] && b == [b[0]];
    }
  }

  /** Distinct services or segments never share a key. */
  lemma KeyInjective(s: string, xs: seq<string>, t: string, ys: seq<string>)
    requires Free(s) && Free(t) && AllFree(xs) && AllFree(ys) && Key(s, xs) == Key(t, ys)
    ensures s == t && xs == ys
  {
    JoinInjective([s] + xs, [t] + ys);
    assert s == ([s] + xs)[0] && t == ([t] + ys)[0];
    assert xs == ([s] + xs)[1..] && ys == ([t] + ys)[1..];
  }

  lemma VersionFree(v: int)
    ensures Free("v" + Decimal.Itoa(v))
  {
  }

  /** A new version is a new key: none of the old version's keys is reachable through it. */
  lemma VersionedInjective(s: string, e: string, i: string, v: int, t: string, f: string, j: string, w: int)
    requires Free(s) && Free(e) && Free(i) && Free(t) && Free(f) && Free(j)
    requires Versioned(s, e, i, v) == Versioned(t, f, j, w)
    ensures s == t && e == f && i == j && v == w
  {
    var xs, ys := [e, i, "v" + Decimal.Itoa(v)], [f, j, "v" + Decimal.Itoa(w)];
    VersionFree(v);
    VersionFree(w);
    KeyInjective(s, xs, t, ys);
    assert xs[0] == ys[0] && xs[1] == ys[1] && xs[2] == ys[2];
    assert Decimal.Itoa(v) == xs[2][1..] && Decimal.Itoa(w) == ys[2][1..];
    Decimal.ItoaInjective(v, w);
  }

  lemma Regroup(a: string, b: string, c: string, d: string)
    ensures (a + b) + c + d == a + (b + c + d)
  {
  }

  /** A shorter list's key and separator begin the longer list's key. */
  lemma {:induction false} JoinSplits(k: seq<string>, n: nat)
    requires 0 < n < |k|
    ensures Join(k) == Join(k[..n]) + [SEPARATOR] + Join(k[n..])
    decreases n
  {
    if n == 1 {
      assert k[..1] == [k[0]];
    } else {
      JoinSplits(k[1..], n - 1);
      assert k[1..][..n - 1] == k[..n][1..] && k[1..][n - 1..] == k[n..];
      var head, a, b := k[0] + [SEPARATOR], Join(k[..n][1..]), Join(k[n..]);
      assert Join(k) == head + (a + [SEPARATOR] + b) && Join(k[..n]) == head + a;
      Regroup(head, a, [SEPARATOR], b);
    }
  }

  /** What follows the first part of `p` in a string that starts with p's key and a separator. */
  function Onward(p: seq<string>, t: string): string
    requires p != []
  {
    Tail(p) + [SEPARATOR] + t
  }

  lemma DropFirst(c: char, a: string, b: string, d: string)
    ensures (([c] + a) + b + d)[0] == c && (([c] + a) + b + d)[1..] == a + b + d
  {
    Regroup([c], a, b, d);
  }

  lemma OnwardSplits(p: seq<string>, t: string)
    requires p != []
    ensures Join(p) + [SEPARATOR] + t == p[0] + Onward(p, t)
    ensures Onward(p, t) != [] && Onward(p, t)[0] == SEPARATOR
    ensures |p| > 1 ==> Onward(p, t)[1..] == Join(p[1..]) + [SEPARATOR] + t
  {
    HeadAndTail(p);
    Regroup(p[0], Tail(p), [SEPARATOR], t);
    if |p| > 1 {
      DropFirst(SEPARATOR, Join(p[1..]), [SEPARATOR], t);
    }
  }

  lemma {:induction false} PrefixImpliesShorter(p: seq<string>, k: seq<string>, t: string)
    requires p != [] && k != [] && AllFree(p) && AllFree(k) && Join(k) == Join(p) + [SEPARATOR] + t
    ensures |p| < |k| && p == k[..|p|]
    decreases |p|
  {
    OnwardSplits(p, t);
    HeadAndTail(k);
    SameHead(p[0], k[0], Onward(p, t), Tail(k));
    if |p| > 1 {
      assert Join(k[1..]) == Tail(k)[1..];
      PrefixImpliesShorter(p[1..], k[1..], t);
      assert p == [p[0]] + p[1..] && k[..|p|] == [k[0]] + k[1..][..|p| - 1];
    } else {
      assert k[..1] == [k[0]] && p == [p[0]];
    }
  }

  /**
   `Prefix` covers a key exactly when its service and segments are a strictly shorter list
   prefix of the key's; so a prefix ending in `t1` never covers `t12`.
   */
  lemma PrefixCoversIff(s: string, xs: seq<string>, t: string, ys: seq<string>)
    requires Free(s) && Free(t) && AllFree(xs) && AllFree(ys)
    ensures Prefix(s, xs) <= Key(t, ys) <==> s == t && |xs| < |ys| && xs == ys[..|xs|]
  {
    var p, k := [s] + xs, [t] + ys;
    if Prefix(s, xs) <= Key(t, ys) {
      PrefixImpliesShorter(p, k, Join(k)[|Join(p)| + 1..]);
      assert s == p[0] == k[..|p|][0] == t;
      assert xs == p[1..] && ys[..|xs|] == k[..|p|][1..];
    }
    if s == t && |xs| < |ys| && xs == ys[..|xs|] {
      JoinSplits(k, |p|);
      assert k[..|p|] == p;
    }
  }

  /** A key is its service and segments in order, each after a colon. */
  lemma KeyInOrder(service: string, segments: seq<string>, last: string)
    ensures Key(service, []) == service
    ensures Key(service, segments + [last]) == Key(service, segments) + ":" + last
    ensures Prefix(service, segments) == Key(service, segments) + ":"
  {
    assert [service] + [] == [service];
    var k := [service] + (segments + [last]);
    var n := 1 + |segments|;
    JoinSplits(k, n);
    assert k[..n] == [service] + segments && k[n..] == [last];
  }

  /** Invalidating an entity, or one of its ids, covers every version of its keys. */
  lemma VersionedIsCovered(service: string, entity: string, id: string, version: int)
    ensures Prefix(service, [entity]) <= Versioned(service, entity, id, version)
    ensures Prefix(service, [entity, id]) <= Versioned(service, entity, id, version)
    ensures Versioned(service, entity, id, version) == Prefix(service, [entity, id]) + "v" + Decimal.Itoa(version)
  {
    var v := "v" + Decimal.Itoa(version);
    KeyInOrder(service, [entity, id], v);
    KeyInOrder(service, [entity], id);
    assert [entity, id] + [v] == [entity, id, v] && [entity] + [id] == [entity, id];
    Regroup(Key(service, [entity, id]), ":", "v", Decimal.Itoa(version));
  }
}
