/**
 `DeleteByPrefix` over a shared Redis: SCAN rounds with a glob pattern, deleting what each
 returns, while other clients add and remove keys. The server keeps SCAN's promise: a full
 iteration returns every element present from its start to its end.
 */
module CacheInvalidation {
  import opened Prelude
  import opened CacheKeys

  // ----- glob patterns -----

  /** Redis's bracket class: whether it has the character, and the pattern after it. */
  function ClassScan(p: string, c: char): (r: (bool, string))
    ensures |r.1| <= |p|
  {
    if p == [] then (false, [])
    else if p[0] == '\\' && |p| >= 2 then var (m, rest) := ClassScan(p[2..], c); (m || p[1] == c, rest)
    else if p[0] == ']' then (false, p[1..])
    else if |p| >= 3 && p[1] == '-' then
      var (m, rest) := ClassScan(p[3..], c);
      (m || p[0] <= c <= p[2] || p[2] <= c <= p[0], rest)
    else var (m, rest) := ClassScan(p[1..], c); (m || p[0] == c, rest)
  }

  /** A pattern element that stands for one character: whether it takes `c`, and what follows it. */
  function Single(p: string, c: char): (bool, string)
    requires p != []
  {
    if p[0] == '?' then (true, p[1..])
    else if p[0] == '[' then
      var negated := |p| >= 2 && p[1] == '^';
      var (m, rest) := ClassScan(if negated then p[2..] else p[1..], c);
      (m != negated, rest)
    else if p[0] == '\\' && |p| >= 2 then (p[1] == c, p[2..])
    else (p[0] == c, p[1..])
  }

  predicate Glob(p: string, s: string)
    decreases |p| + |s|
  {
    if p == [] then s == []
    else if p[0] == '*' then Glob(p[1..], s) || (s != [] && Glob(p, s[1..]))
    else if s == [] then false
    else
      var (m, rest) := Single(p, s[0]);
      SingleShrinks(p, s[0]);
      m && Glob(rest, s[1..])
  }

  lemma SingleShrinks(p: string, c: char)
    requires p != []
    ensures |Single(p, c).1| < |p|
  {
  }

  predicate Special(c: char) { c == '*' || c == '?' || c == '[' || c == '\\' }

  predicate GlobFree(p: string) { forall i :: 0 <= i < |p| ==> !Special(p[i]) }

  lemma {:induction false} StarMatchesAll(s: string)
    ensures Glob("*", s)
  {
    assert "*"[1..] == [];
    if s != [] { StarMatchesAll(s[1..]); }
  }

  /** With nothing special in it, the pattern `prefix*` is the string prefix. */
  lemma {:induction false} GlobIsPrefix(p: string, s: string)
    requires GlobFree(p)
    ensures Glob(p + "*", s) <==> p <= s
    decreases |p|
  {
    if p == [] {
      assert p + "*" == "*";
      StarMatchesAll(s);
    } else {
      assert !Special(p[0]);
      assert (p + "*")[1..] == p[1..] + "*";
      if s != [] {
        GlobIsPrefix(p[1..], s[1..]);
        assert p <= s <==> p[0] == s[0] && p[1..] <= s[1..];
      }
    }
  }

  predicate IsSuffix(r: string, p: string) { |r| <= |p| && r == p[|p| - |r|..] }

  lemma {:induction false} ClassLeavesSuffix(p: string, c: char)
    ensures IsSuffix(ClassScan(p, c).1, p)
    ensures p != [] ==> |ClassScan(p, c).1| < |p|
  {
    if p != [] && p[0] != ']' {
      ClassLeavesSuffix(p[if p[0] == '\\' && |p| >= 2 then 2 else if |p| >= 3 && p[1] == '-' then 3 else 1..], c);
    }
  }

  /** What follows keeps the final star; after a bracket class or an escape it is at least two characters shorter. */
  lemma SingleLeavesSuffix(p: string, c: char)
    requires |p| >= 2 && p[|p| - 1] == '*'
    ensures var rest := Single(p, c).1;
            && (rest != [] ==> rest[|rest| - 1] == '*') && |rest| < |p|
            && (p[0] == '[' || p[0] == '\\' ==> |rest| <= |p| - 2)
  {
    if p[0] == '[' {
      ClassLeavesSuffix(if p[1] == '^' then p[2..] else p[1..], c);
    }
  }

  lemma GlobFirst(q: string, s: string)
    requires q != [] && q[0] != '*'
    ensures Glob(q, s) <==> s != [] && Single(q, s[0]).0 && Glob(Single(q, s[0]).1, s[1..])
  {
  }

  /** A pattern ending in a star that matches anything matches something shorter than itself. */
  lemma {:induction false} ShortMatch(q: string, s: string) returns (t: string)
    requires q != [] && q[|q| - 1] == '*' && Glob(q, s)
    ensures Glob(q, t) && |t| < |q|
    decreases |q| + |s|
  {
    if q == "*" {
      t := [];
    } else if q[0] == '*' {
      if Glob(q[1..], s) { t := ShortMatch(q[1..], s); } else { t := ShortMatch(q, s[1..]); }
    } else {
      t := ShortTail(q, s);
    }
  }

  lemma {:induction false} ShortTail(q: string, s: string) returns (t: string)
    requires |q| >= 2 && q[|q| - 1] == '*' && q[0] != '*' && Glob(q, s)
    ensures Glob(q, t) && t != [] && t[0] == s[0] && |t| <= Max(1, |Single(q, s[0]).1|) < |q|
    decreases |q| + |s|, 0
  {
    var rest := Single(q, s[0]).1;
    SingleLeavesSuffix(q, s[0]);
    GlobFirst(q, s);
    var u: string := [];
    if rest != [] {
      u := ShortMatch(rest, s[1..]);
    }
    t := [s[0]] + u;
    assert t[1..] == u;
    GlobFirst(q, t);
  }

  /** With a special character in front, some key is matched and does not begin so, or begins so and is missed. */
  lemma SpecialMisfit(p: string) returns (s: string)
    requires p != [] && Special(p[0])
    ensures Glob(p + "*", s) != (p <= s)
  {
    var q := p + "*";
    if |p| == 1 && (p[0] == '[' || p[0] == '\\') {
      assert q[1..] == "*" && "*"[1..] == [];
      assert !Glob(q, p);
    }
    if !Glob(q, p) {
      return p;
    }
    match p[0]
    case '*' =>
      s := "a" + p;
      assert s[1..] == p;
    case '?' =>
      s := "a" + p[1..];
      assert s[1..] == p[1..];
    case _ =>
      s := ShortTail(q, p);
      SingleLeavesSuffix(q, p[0]);
  }

  lemma {:induction false} Misfit(p: string) returns (s: string)
    requires !GlobFree(p)
    ensures Glob(p + "*", s) != (p <= s)
  {
    if Special(p[0]) {
      s := SpecialMisfit(p);
    } else {
      var t := Misfit(p[1..]);
      s := [p[0]] + t;
      assert (p + "*")[1..] == p[1..] + "*" && s[1..] == t;
      assert p <= s <==> p[1..] <= t;
    }
  }

  /**
   The pattern `prefix*` matches exactly the keys that begin with the prefix if and only if
   the prefix holds no glob character. Any such character makes it match a key that does not
   begin with the prefix, or miss one that does.
   */
  lemma PatternIsPrefixIff(p: string)
    ensures GlobFree(p) <==> forall s :: Glob(p + "*", s) <==> p <= s
  {
    if GlobFree(p) {
      forall s ensures Glob(p + "*", s) <==> p <= s { GlobIsPrefix(p, s); }
    } else {
      var s := Misfit(p);
    }
  }

  lemma {:induction false} JoinGlobFree(parts: seq<string>)
    ensures GlobFree(Join(parts)) <==> forall i :: 0 <= i < |parts| ==> GlobFree(parts[i])
  {
    if |parts| > 1 {
      JoinGlobFree(parts[1..]);
      ConcatGlobFree(parts[0] + [SEPARATOR], Join(parts[1..]));
      ConcatGlobFree(parts[0], [SEPARATOR]);
      assert forall i :: 1 <= i < |parts| ==> parts[i] == parts[1..][i - 1];
    }
  }

  lemma ConcatGlobFree(a: string, b: string)
    ensures GlobFree(a + b) <==> GlobFree(a) && GlobFree(b)
  {
    if GlobFree(a + b) {
      forall i | 0 <= i < |a| ensures !Special(a[i]) { assert a[i] == (a + b)[i]; }
      forall i | 0 <= i < |b| ensures !Special(b[i]) { assert b[i] == (a + b)[|a| + i]; }
    }
  }

  /** In a caller's terms: invalidation is exact if and only if no service or segment holds a glob character. */
  lemma InvalidationIsExactIff(service: string, segments: seq<string>)
    ensures (GlobFree(service) && forall i :: 0 <= i < |segments| ==> GlobFree(segments[i])) <==>
            forall k :: Glob(Prefix(service, segments) + "*", k) <==> Prefix(service, segments) <= k
  {
    var parts := [service] + segments;
    JoinGlobFree(parts);
    assert parts[0] == service && forall i :: 0 <= i < |segments| ==> parts[i + 1] == segments[i];
    ConcatGlobFree(Join(parts), [SEPARATOR]);
    PatternIsPrefixIff(Prefix(service, segments));
  }

  /** One way to fail: a wildcard in the service's name reaches another service's keys. */
  lemma WildcardReachesFurther()
    ensures Glob(Prefix("?", []) + "*", Key("x", ["1"])) && !(Prefix("?", []) <= Key("x", ["1"]))
  {
    assert Prefix("?", []) + "*" == "?:*" by { assert ["?"] + [] == ["?"]; }
    assert Key("x", ["1"]) == "x:1" by { assert ["x"] + ["1"] == ["x", "1"] && ["x", "1"][1..] == ["1"]; }
    assert "?:*"[1..] == ":*" && "x:1"[1..] == ":1";
    assert ":*"[1..] == "*" && ":1"[1..] == "1";
    StarMatchesAll("1");
    assert Glob(":*", ":1");
  }

  /** The other way: an empty bracket class matches nothing, the service's own keys included. */
  lemma EmptyClassReachesNothing(k: string)
    ensures !Glob(Prefix("[]", []) + "*", k)
  {
    var q := Prefix("[]", []) + "*";
    assert q == "[]:*" by { assert ["[]"] + [] == ["[]"]; }
    assert q[1..][0] == ']';
  }

  // ----- the server and the loop -----

  /** What the others and the server do in one round. */
  datatype Move = Move(adds: set<string>, removes: set<string>, returns': set<string>, last: bool, scanFails: bool, delFails: bool)

  /** The round's SCAN fails, or the deletion of what it returned. */
  predicate Fails(m: Move, returned: set<string>) { m.scanFails || (m.delFails && returned != {}) }

  datatype Outcome = Nil | ErrEmptyPrefix | ErrScan | ErrDelete

  class Redis {
    const script: nat -> Move
    const rounds: nat            // an iteration ends after at most this many

    var keys: set<string>
    var owed: set<string>        // present since the iteration began and not returned yet
    var round: nat

    ghost var returned: seq<set<string>>   // what each round's SCAN returned
    ghost var added: set<string>    // keys others added meanwhile, where there was none
    ghost var without: set<string>  // the keyspace as it would be without this client

    constructor (script: nat -> Move, rounds: nat, keys: set<string>)
      ensures this.keys == without == keys && this.owed == added == {} && round == 0 && returned == []
      ensures this.script == script && this.rounds == rounds
    {
      this.script, this.rounds, this.keys, this.owed, this.round := script, rounds, keys, {}, 0;
      this.added, this.without, this.returned := {}, keys, [];
    }

    method OthersAct()
      modifies this`keys, this`owed, this`added, this`without
      ensures var m := script(round);
              && keys == old(keys) - m.removes + m.adds && without == old(without) - m.removes + m.adds
              && owed == old(owed) - m.removes && added == old(added) + (m.adds - (old(keys) - m.removes))
    {
      var m := script(round);
      added := added + (m.adds - (keys - m.removes));
      keys := keys - m.removes + m.adds;
      owed := owed - m.removes;
      without := without - m.removes + m.adds;
    }

    /** SCAN: some matching keys, and cursor 0 only once nothing is owed. */
    method Scan(cursor: nat, pattern: string) returns (ok: bool, batch: set<string>, next: nat)
      modifies this`owed, this`round, this`returned
      ensures round == old(round) + 1 && returned == old(returned) + [batch]
      ensures ok <==> !script(old(round)).scanFails
      ensures forall k :: k in batch ==> k in keys && Glob(pattern, k)
      ensures ok ==>
                var due := if cursor == 0 then set k | k in keys && Glob(pattern, k) else old(owed) * keys;
                && owed == due - batch
                && (next == 0 ==> forall k :: k in due && Glob(pattern, k) ==> k in batch)
      ensures next != 0 ==> round <= rounds
    {
      var m := script(round);
      round := round + 1;
      if m.scanFails {
        returned := returned + [{}];
        return false, {}, 0;
      }
      var due := if cursor == 0 then set k | k in keys && Glob(pattern, k) else owed * keys;
      batch := set k | k in m.returns' && k in keys && Glob(pattern, k);
      if m.last || round > rounds {
        batch := batch + set k | k in due && Glob(pattern, k);
        next := 0;
      } else {
        next := round;
      }
      owed := due - batch;
      returned := returned + [batch];
      ok := true;
    }

    /**
     `DeleteByPrefix`. It goes on until the iteration ends or the first failure of a scan or
     of deleting a batch that is not empty, and reports exactly that. Nil means every matching key that was there at the call and was not
     added again meanwhile is gone; with or without an error, no key outside the prefix is
     different from what it would have been. Matching is the pattern's, which is the prefix
     when that is glob-free and, by PatternIsPrefixIff, only then.
     */
    method DeleteByPrefix(prefix: string) returns (r: Outcome)
      requires keys == without && added == {} && round == 0 && returned == []
      modifies this
      ensures r == ErrEmptyPrefix <==> prefix == ""
      ensures prefix == "" ==> keys == old(keys)
      ensures prefix != "" ==>
                && |returned| == round >= 1 && (forall i :: 0 <= i < round - 1 ==> !Fails(script(i), returned[i]))
                && (r == ErrScan <==> script(round - 1).scanFails)
                && (r == Nil <==> !Fails(script(round - 1), returned[round - 1]))
      ensures keys <= without
      ensures forall k :: k in without && k !in keys ==> Glob(prefix + "*", k)
      ensures r == Nil ==> forall k :: k in old(keys) && Glob(prefix + "*", k) && k !in added ==> k !in keys
      ensures GlobFree(prefix) ==> forall k :: k in without && k !in keys ==> prefix <= k
      ensures GlobFree(prefix) && r == Nil ==> forall k :: k in old(keys) && prefix <= k && k !in added ==> k !in keys
    {
      if prefix == "" {
        return ErrEmptyPrefix;
      }
      var cursor := 0;
      var pattern := prefix + "*";
      while true
        invariant cursor == 0 ==> round == 0
        invariant round <= rounds || cursor == 0
        invariant |returned| == round && forall i :: 0 <= i < round ==> !Fails(script(i), returned[i])
        invariant keys <= without
        invariant forall k :: k in without && k !in keys ==> Glob(pattern, k)
        invariant cursor != 0 ==> forall k :: k in old(keys) && k in keys && Glob(pattern, k) && k !in added ==> k in owed
        invariant forall k :: k in keys && k !in added ==> k in old(keys)
        decreases rounds + 1 - round
      {
        OthersAct();
        var fails := script(round).delFails;
        var ok, batch, next := Scan(cursor, pattern);
        if !ok {
          Conclude(prefix);
          return ErrScan;
        }
        if batch != {} {
          if fails {
            Conclude(prefix);
            return ErrDelete;
          }
          keys := keys - batch;
        }
        cursor := next;
        if cursor == 0 {
          Conclude(prefix);
          return Nil;
        }
      }
    }
  }

  lemma Conclude(prefix: string)
    ensures GlobFree(prefix) ==> forall k :: Glob(prefix + "*", k) <==> prefix <= k
  {
    if GlobFree(prefix) {
      forall k ensures Glob(prefix + "*", k) <==> prefix <= k { GlobIsPrefix(prefix, k); }
    }
  }

  /** Invalidating anything of one service leaves every key of every other service alone. */
  lemma OtherServicesAreUntouched(service: string, segments: seq<string>, other: string, ys: seq<string>)
    requires Free(service) && Free(other) && AllFree(segments) && AllFree(ys) && service != other
    requires GlobFree(Prefix(service, segments))
    ensures !Glob(Prefix(service, segments) + "*", Key(other, ys))
  {
    PrefixCoversIff(service, segments, other, ys);
    GlobIsPrefix(Prefix(service, segments), Key(other, ys));
  }
}
