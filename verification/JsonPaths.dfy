/**
 Renaming the data root inside JSON values: every string that names the old root, or something below it,
 names the new root instead (apps/desktop/src/data-move.ts:229-245).
 */
module JsonPaths {

  // Numbers are opaque here: the rewrite never looks at them.
  datatype Json =
    | Null
    | Bool(b: bool)
    | Number(n: int)
    | Str(s: string)
    | Arr(items: seq<Json>)
    | Obj(fields: seq<(string, Json)>)

  /** `s` is the root itself or continues it after a separator; `sep` is the platform's own separator. */
  predicate Below(s: string, root: string, sep: char) {
    root <= s && (|s| == |root| || s[|root|] == sep || s[|root|] == '/')
  }

  /** What `RewriteString` computes: the first prefix that matches is replaced. */
  function Rewritten(s: string, prefixes: seq<string>, replacement: string, sep: char): string {
    if prefixes == [] then s
    else if Below(s, prefixes[0], sep) then replacement + s[|prefixes[0]|..]
    else Rewritten(s, prefixes[1..], replacement, sep)
  }

  method RewriteString(s: string, prefixes: seq<string>, replacement: string, sep: char) returns (r: string)
    ensures r == Rewritten(s, prefixes, replacement, sep)
  {
    var i := 0;
    while i < |prefixes|
      invariant 0 <= i <= |prefixes|
      invariant Rewritten(s, prefixes, replacement, sep) == Rewritten(s, prefixes[i..], replacement, sep)
    {
      if s == prefixes[i] {
        return replacement;
      }
      if prefixes[i] + [sep] <= s || prefixes[i] + "/" <= s {
        return replacement + s[|prefixes[i]|..];
      }
      i := i + 1;
    }
    return s;
  }

  function Rewrite(v: Json, prefixes: seq<string>, replacement: string, sep: char): Json
    decreases v
  {
    match v
    case Str(s) => Str(Rewritten(s, prefixes, replacement, sep))
    case Arr(items) => Arr(seq(|items|, i requires 0 <= i < |items| => Rewrite(items[i], prefixes, replacement, sep)))
    case Obj(fields) =>
      Obj(seq(|fields|, i requires 0 <= i < |fields| =>
        (fields[i].0, Rewrite(fields[i].1, prefixes, replacement, sep))))
    case _ => v
  }

  /** Equal up to the contents of strings: same nesting, same lengths, same keys in the same order. */
  predicate SameShape(a: Json, b: Json)
    decreases a
  {
    match a
    case Str(_) => b.Str?
    case Arr(items) =>
      b.Arr? && |b.items| == |items| && forall i :: 0 <= i < |items| ==> SameShape(items[i], b.items[i])
    case Obj(fields) =>
      b.Obj? && |b.fields| == |fields|
      && forall i :: 0 <= i < |fields| ==> fields[i].0 == b.fields[i].0 && SameShape(fields[i].1, b.fields[i].1)
    case _ => a == b
  }

  /** Every string occurring as a value (keys are never rewritten) satisfies `p`. */
  ghost predicate AllStrings(v: Json, p: string -> bool)
    decreases v
  {
    match v
    case Str(s) => p(s)
    case Arr(items) => forall i :: 0 <= i < |items| ==> AllStrings(items[i], p)
    case Obj(fields) => forall i :: 0 <= i < |fields| ==> AllStrings(fields[i].1, p)
    case _ => true
  }

  /** Neither root names the other or something below it. */
  predicate Unrelated(a: string, b: string, sep: char) {
    !Below(a, b, sep) && !Below(b, a, sep)
  }

  lemma {:induction false} RewriteKeepsShape(v: Json, prefixes: seq<string>, replacement: string, sep: char)
    ensures SameShape(v, Rewrite(v, prefixes, replacement, sep))
    decreases v
  {
    match v
    case Arr(items) =>
      forall i | 0 <= i < |items| { RewriteKeepsShape(items[i], prefixes, replacement, sep); }
    case Obj(fields) =>
      forall i | 0 <= i < |fields| { RewriteKeepsShape(fields[i].1, prefixes, replacement, sep); }
    case _ =>
  }

  // ---------- What a rewrite is, without the loop ----------

  /** The string is the root, or goes on behind it after a separator. */
  predicate StartsAt(s: string, root: string, sep: char) {
    s == root || root + [sep] <= s || root + "/" <= s
  }

  /** `t` is `s` with the first of the roots it starts at replaced, or `s` itself when it starts at none. */
  ghost predicate RenewedString(s: string, t: string, roots: seq<string>, replacement: string, sep: char) {
    if forall k :: 0 <= k < |roots| ==> !StartsAt(s, roots[k], sep) then t == s
    else exists k, rest ::
           && 0 <= k < |roots| && StartsAt(s, roots[k], sep) && (forall j :: 0 <= j < k ==> !StartsAt(s, roots[j], sep))
           && s == roots[k] + rest && t == replacement + rest
  }

  /** The same nesting, lengths and keys, and every string renewed. */
  ghost predicate Renewed(v: Json, w: Json, roots: seq<string>, replacement: string, sep: char)
    decreases v
  {
    match v
    case Str(s) => w.Str? && RenewedString(s, w.s, roots, replacement, sep)
    case Arr(items) =>
      w.Arr? && |w.items| == |items| && forall i :: 0 <= i < |items| ==> Renewed(items[i], w.items[i], roots, replacement, sep)
    case Obj(fields) =>
      w.Obj? && |w.fields| == |fields|
      && forall i :: 0 <= i < |fields| ==> fields[i].0 == w.fields[i].0 && Renewed(fields[i].1, w.fields[i].1, roots, replacement, sep)
    case _ => w == v
  }

  lemma {:induction false} RewrittenRenews(s: string, roots: seq<string>, replacement: string, sep: char)
    ensures RenewedString(s, Rewritten(s, roots, replacement, sep), roots, replacement, sep)
  {
    RewrittenByFirst(s, roots, replacement, sep);
    var k := FirstAbove(s, roots, sep);
    forall j | 0 <= j < |roots| ensures Below(s, roots[j], sep) <==> StartsAt(s, roots[j], sep) { BelowIsStart(s, roots[j], sep); }
    if k < |roots| {
      assert StartsAt(s, roots[k], sep) && s == roots[k] + s[|roots[k]|..];
    }
  }

  lemma BelowIsStart(s: string, root: string, sep: char)
    ensures Below(s, root, sep) <==> StartsAt(s, root, sep)
  {
    if Below(s, root, sep) && s != root { assert s == root + [s[|root|]] + s[|root| + 1..]; }
  }

  /** What the rewrite makes of any JSON value. */
  lemma {:induction false} RewriteRenews(v: Json, roots: seq<string>, replacement: string, sep: char)
    ensures Renewed(v, Rewrite(v, roots, replacement, sep), roots, replacement, sep)
    decreases v
  {
    match v
    case Str(s) => RewrittenRenews(s, roots, replacement, sep);
    case Arr(items) =>
      forall i | 0 <= i < |items| { RewriteRenews(items[i], roots, replacement, sep); }
    case Obj(fields) =>
      forall i | 0 <= i < |fields| { RewriteRenews(fields[i].1, roots, replacement, sep); }
    case _ =>
  }

  // Two roots that both head one string are related.
  lemma HeadsAreRelated(s: string, root: string, p: string, sep: char)
    requires Below(s, root, sep) && Below(s, p, sep)
    ensures !Unrelated(root, p, sep)
  {
    if |p| <= |root| {
      assert p == s[..|p|] == root[..|p|];
      if |p| < |root| { assert s[|p|] == root[|p|]; }
      assert Below(root, p, sep);
    } else {
      assert root == s[..|root|] == p[..|root|];
      assert p[|root|] == s[|root|];
      assert Below(p, root, sep);
    }
  }

  // ---------- Idempotence for any list of prefixes ----------

  predicate StrictlyBelow(s: string, root: string, sep: char) {
    Below(s, root, sep) && s != root
  }

  /** No earlier prefix of the list catches everything this one could. */
  predicate Effective(prefixes: seq<string>, k: nat, sep: char)
    requires k < |prefixes|
  {
    forall j :: 0 <= j < k ==> !Below(prefixes[k], prefixes[j], sep)
  }

  /** The prefix the loop stops at. */
  function FirstAbove(s: string, prefixes: seq<string>, sep: char): (k: nat)
    ensures k <= |prefixes|
    ensures k < |prefixes| ==> Below(s, prefixes[k], sep) && |prefixes[k]| <= |s|
    ensures forall j :: 0 <= j < k ==> !Below(s, prefixes[j], sep)
  {
    if prefixes == [] then 0 else if Below(s, prefixes[0], sep) then 0 else 1 + FirstAbove(s, prefixes[1..], sep)
  }

  lemma {:induction false} RewrittenByFirst(s: string, prefixes: seq<string>, replacement: string, sep: char)
    ensures var k := FirstAbove(s, prefixes, sep);
            Rewritten(s, prefixes, replacement, sep) == if k < |prefixes| then replacement + s[|prefixes[k]|..] else s
  {
    if prefixes != [] && !Below(s, prefixes[0], sep) {
      RewrittenByFirst(s, prefixes[1..], replacement, sep);
    }
  }

  lemma BelowIsTransitive(a: string, b: string, c: string, sep: char)
    requires Below(a, b, sep) && Below(b, c, sep)
    ensures Below(a, c, sep)
  {
    assert c == b[..|c|] == a[..|c|];
    if |c| < |b| { assert a[|c|] == b[|c|]; }
  }

  lemma FirstIsEffective(s: string, prefixes: seq<string>, sep: char)
    requires FirstAbove(s, prefixes, sep) < |prefixes|
    ensures Effective(prefixes, FirstAbove(s, prefixes, sep), sep)
  {
    var k := FirstAbove(s, prefixes, sep);
    forall j | 0 <= j < k ensures !Below(prefixes[k], prefixes[j], sep) {
      if Below(prefixes[k], prefixes[j], sep) { BelowIsTransitive(s, prefixes[k], prefixes[j], sep); }
    }
  }

  /**
   What makes a list safe to apply twice: no effective prefix lies strictly below the new root, and the new root itself
   is left alone.
   */
  predicate Steady(prefixes: seq<string>, replacement: string, sep: char) {
    && (forall k :: 0 <= k < |prefixes| && Effective(prefixes, k, sep) ==> !StrictlyBelow(prefixes[k], replacement, sep))
    && (prefixes != [] ==> Rewritten(replacement, prefixes, replacement, sep) == replacement)
  }

  predicate SettlesAll(s: string, prefixes: seq<string>, replacement: string, sep: char) {
    var once := Rewritten(s, prefixes, replacement, sep);
    Rewritten(once, prefixes, replacement, sep) == once
  }

  lemma HeadOfContinued(replacement: string, p: string, rest: string, s: string, sep: char)
    requires Below(s, p, sep) && rest == s[|p|..]
    ensures Below(replacement + rest, replacement, sep)
  {
    assert rest != "" ==> (replacement + rest)[|replacement|] == rest[0] == s[|p|];
  }

  lemma TwoHeads(s: string, a: string, b: string, sep: char)
    requires Below(s, a, sep) && Below(s, b, sep)
    ensures Below(a, b, sep) || Below(b, a, sep)
  {
    HeadsAreRelated(s, a, b, sep);
  }

  lemma SteadySettles(s: string, prefixes: seq<string>, replacement: string, sep: char)
    requires Steady(prefixes, replacement, sep)
    ensures SettlesAll(s, prefixes, replacement, sep)
  {
    hide Below;
    RewrittenByFirst(s, prefixes, replacement, sep);
    var k := FirstAbove(s, prefixes, sep);
    if k < |prefixes| {
      var rest := s[|prefixes[k]|..];
      var once := replacement + rest;
      HeadOfContinued(replacement, prefixes[k], rest, s, sep);
      RewrittenByFirst(once, prefixes, replacement, sep);
      var m := FirstAbove(once, prefixes, sep);
      if m < |prefixes| {
        FirstIsEffective(once, prefixes, sep);
        TwoHeads(once, prefixes[m], replacement, sep);
        FirstIsTheNewRoot(once, prefixes, replacement, m, sep);
        assert once[|replacement|..] == rest;
      }
    }
  }

  /** If the loop stops again at a string below the new root, it stops at the new root. */
  lemma FirstIsTheNewRoot(once: string, prefixes: seq<string>, replacement: string, m: nat, sep: char)
    requires Steady(prefixes, replacement, sep) && Below(once, replacement, sep)
    requires m < |prefixes| && m == FirstAbove(once, prefixes, sep) && Effective(prefixes, m, sep)
    requires Below(prefixes[m], replacement, sep) || Below(replacement, prefixes[m], sep)
    ensures prefixes[m] == replacement
  {
    hide Below;
    if prefixes[m] != replacement {
      assert !StrictlyBelow(prefixes[m], replacement, sep);
      var f := FirstAbove(replacement, prefixes, sep);
      RewrittenByFirst(replacement, prefixes, replacement, sep);
      assert f <= m;
      BelowIsTransitive(once, replacement, prefixes[f], sep);
      SameRest(replacement, prefixes[f], sep);
    }
  }

  lemma SameRest(replacement: string, p: string, sep: char)
    requires Below(replacement, p, sep) && replacement + replacement[|p|..] == replacement
    ensures p == replacement
  {
  }

  /** The longest prefix strictly below the new root, if any effective one is. */
  lemma {:induction false} LongestBelow(prefixes: seq<string>, n: nat, replacement: string, sep: char) returns (k: int)
    requires n <= |prefixes|
    ensures -1 <= k < n
    ensures k >= 0 ==> Effective(prefixes, k, sep) && StrictlyBelow(prefixes[k], replacement, sep)
    ensures forall j :: 0 <= j < n && Effective(prefixes, j, sep) && StrictlyBelow(prefixes[j], replacement, sep) ==>
              k >= 0 && |prefixes[j]| <= |prefixes[k]|
  {
    hide Below;
    k := -1;
    if n > 0 {
      k := LongestBelow(prefixes, n - 1, replacement, sep);
      if Effective(prefixes, n - 1, sep) && StrictlyBelow(prefixes[n - 1], replacement, sep)
         && (k == -1 || |prefixes[k]| < |prefixes[n - 1]|) {
        k := n - 1;
      }
    }
  }

  /** A prefix strictly below the new root, continued by its own tail, is rewritten twice. */
  lemma TailIsRewrittenAgain(prefixes: seq<string>, k: nat, replacement: string, sep: char)
    requires k < |prefixes| && Effective(prefixes, k, sep) && StrictlyBelow(prefixes[k], replacement, sep)
    requires forall j :: 0 <= j < |prefixes| && Effective(prefixes, j, sep) && StrictlyBelow(prefixes[j], replacement, sep) ==>
               |prefixes[j]| <= |prefixes[k]|
    ensures |replacement| <= |prefixes[k]|
    ensures !SettlesAll(prefixes[k] + prefixes[k][|replacement|..], prefixes, replacement, sep)
  {
    var p := prefixes[k];
    var tail := p[|replacement|..];
    var s := p + tail;
    assert tail != "" && p == replacement + tail && s[|p|..] == tail;
    assert Below(s, p, sep);
    FirstOfContinued(prefixes, k, s, replacement, sep);
    RewrittenByFirst(s, prefixes, replacement, sep);
    assert Rewritten(s, prefixes, replacement, sep) == p;
    FirstOfItself(prefixes, k, sep);
    RewrittenByFirst(p, prefixes, replacement, sep);
    assert Rewritten(p, prefixes, replacement, sep) == replacement + p[|p|..] == replacement;
  }

  lemma FirstOfItself(prefixes: seq<string>, k: nat, sep: char)
    requires k < |prefixes| && Effective(prefixes, k, sep)
    ensures FirstAbove(prefixes[k], prefixes, sep) == k
  {
    assert Below(prefixes[k], prefixes[k], sep);
  }

  lemma FirstOfContinued(prefixes: seq<string>, k: nat, s: string, replacement: string, sep: char)
    requires k < |prefixes| && Effective(prefixes, k, sep) && StrictlyBelow(prefixes[k], replacement, sep)
    requires Below(s, prefixes[k], sep)
    requires forall j :: 0 <= j < |prefixes| && Effective(prefixes, j, sep) && StrictlyBelow(prefixes[j], replacement, sep) ==>
               |prefixes[j]| <= |prefixes[k]|
    ensures FirstAbove(s, prefixes, sep) == k
  {
    var j := FirstAbove(s, prefixes, sep);
    if j < k {
      FirstIsEffective(s, prefixes, sep);
      TwoHeads(s, prefixes[j], prefixes[k], sep);
      // The earlier prefix is below this one, so it is below the new root and longer.
      assert Below(prefixes[j], prefixes[k], sep) && prefixes[j] != prefixes[k];
      BelowIsTransitive(prefixes[j], prefixes[k], replacement, sep);
    }
  }

  /** Rewriting twice is rewriting once on every string exactly when the list is steady, whatever the list. */
  lemma IdempotentExactlyWhenSteady(prefixes: seq<string>, replacement: string, sep: char)
    ensures (forall s :: SettlesAll(s, prefixes, replacement, sep)) <==> Steady(prefixes, replacement, sep)
  {
    hide Below;
    if Steady(prefixes, replacement, sep) {
      forall s ensures SettlesAll(s, prefixes, replacement, sep) { SteadySettles(s, prefixes, replacement, sep); }
    } else {
      var k := LongestBelow(prefixes, |prefixes|, replacement, sep);
      if k >= 0 {
        TailIsRewrittenAgain(prefixes, k, replacement, sep);
        var s := prefixes[k] + prefixes[k][|replacement|..];
        assert !SettlesAll(s, prefixes, replacement, sep);
      } else {
        // The first prefix becomes the new root, which does not stay.
        assert prefixes != [] && Rewritten(replacement, prefixes, replacement, sep) != replacement;
        FirstOfItself(prefixes, 0, sep);
        RewrittenByFirst(prefixes[0], prefixes, replacement, sep);
        assert Rewritten(prefixes[0], prefixes, replacement, sep) == replacement + prefixes[0][|prefixes[0]|..] == replacement;
        assert !SettlesAll(prefixes[0], prefixes, replacement, sep);
      }
    }
  }

  predicate RewrittenOnce(v: Json, prefixes: seq<string>, replacement: string, sep: char) {
    var once := Rewrite(v, prefixes, replacement, sep);
    Rewrite(once, prefixes, replacement, sep) == once
  }

  lemma {:induction false} SteadyRewritesOnce(v: Json, prefixes: seq<string>, replacement: string, sep: char)
    requires Steady(prefixes, replacement, sep)
    ensures RewrittenOnce(v, prefixes, replacement, sep)
    decreases v
  {
    hide Steady;
    match v
    case Str(s) => SteadySettles(s, prefixes, replacement, sep);
    case Arr(items) =>
      forall i | 0 <= i < |items| { SteadyRewritesOnce(items[i], prefixes, replacement, sep); }
    case Obj(fields) =>
      forall i | 0 <= i < |fields| { SteadyRewritesOnce(fields[i].1, prefixes, replacement, sep); }
    case _ =>
  }

  /** The same for JSON values. */
  lemma RewriteIdempotentExactlyWhenSteady(prefixes: seq<string>, replacement: string, sep: char)
    ensures (forall v :: RewrittenOnce(v, prefixes, replacement, sep)) <==> Steady(prefixes, replacement, sep)
  {
    hide Steady;
    IdempotentExactlyWhenSteady(prefixes, replacement, sep);
    if forall v :: RewrittenOnce(v, prefixes, replacement, sep) {
      forall s ensures SettlesAll(s, prefixes, replacement, sep) {
        assert RewrittenOnce(Str(s), prefixes, replacement, sep);
      }
    } else {
      var v :| !RewrittenOnce(v, prefixes, replacement, sep);
      if Steady(prefixes, replacement, sep) { SteadyRewritesOnce(v, prefixes, replacement, sep); }
    }
  }

  /** Old roots unrelated to the new one make a steady list. */
  lemma UnrelatedIsSteady(prefixes: seq<string>, replacement: string, sep: char)
    requires forall p :: p in prefixes ==> Unrelated(replacement, p, sep)
    ensures Steady(prefixes, replacement, sep)
  {
    hide Below;
    RewrittenByFirst(replacement, prefixes, replacement, sep);
    var k := FirstAbove(replacement, prefixes, sep);
    forall i | 0 <= i < |prefixes| ensures Unrelated(replacement, prefixes[i], sep) {
      assert prefixes[i] in prefixes;
    }
  }

  /** Rewriting again changes nothing when the new root is unrelated to every old one. */
  lemma RewriteIdempotent(v: Json, prefixes: seq<string>, replacement: string, sep: char)
    requires forall p :: p in prefixes ==> Unrelated(replacement, p, sep)
    ensures RewrittenOnce(v, prefixes, replacement, sep)
  {
    hide Steady, RewrittenOnce;
    UnrelatedIsSteady(prefixes, replacement, sep);
    SteadyRewritesOnce(v, prefixes, replacement, sep);
  }

  /** When the old roots are unrelated among themselves and none is the new one, that is also needed. */
  lemma IdempotentExactlyWhenUnrelated(prefixes: seq<string>, replacement: string, sep: char)
    requires forall i, j :: 0 <= i < j < |prefixes| ==> Unrelated(prefixes[i], prefixes[j], sep)
    requires replacement !in prefixes
    ensures (forall v :: RewrittenOnce(v, prefixes, replacement, sep)) <==> forall p :: p in prefixes ==> Unrelated(replacement, p, sep)
  {
    hide Below, RewrittenOnce;
    RewriteIdempotentExactlyWhenSteady(prefixes, replacement, sep);
    if Steady(prefixes, replacement, sep) {
      forall p | p in prefixes ensures Unrelated(replacement, p, sep) {
        var k :| 0 <= k < |prefixes| && prefixes[k] == p;
        assert forall j :: 0 <= j < k ==> Unrelated(prefixes[j], prefixes[k], sep);
        assert Effective(prefixes, k, sep);
        var f := FirstAbove(replacement, prefixes, sep);
        RewrittenByFirst(replacement, prefixes, replacement, sep);
        if f < |prefixes| { SameRest(replacement, prefixes[f], sep); }
      }
    } else if forall p :: p in prefixes ==> Unrelated(replacement, p, sep) {
      UnrelatedIsSteady(prefixes, replacement, sep);
    }
  }

  /** One prefix: unrelated roots, or nothing to do. */
  lemma OneIdempotentExactlyWhenUnrelated(prefix: string, replacement: string, sep: char)
    ensures (forall v :: RewrittenOnce(v, [prefix], replacement, sep)) <==> prefix == replacement || Unrelated(replacement, prefix, sep)
  {
    hide RewrittenOnce;
    RewriteIdempotentExactlyWhenSteady([prefix], replacement, sep);
    if prefix == replacement {
      assert Rewritten(prefix, [prefix], prefix, sep) == prefix + prefix[|prefix|..];
    } else {
      IdempotentExactlyWhenUnrelated([prefix], replacement, sep);
    }
  }

  /** That the new root lies below no old one is not enough: an old root below the new one is found again. */
  lemma BelowNoPrefixIsNotEnough()
    ensures var prefixes, replacement := ["n/d/x", "o"], "n/d";
            && (forall p :: p in prefixes ==> !Below(replacement, p, '/'))
            && Effective(prefixes, 0, '/') && StrictlyBelow(prefixes[0], replacement, '/')
            && !SettlesAll("n/d/x/x", prefixes, replacement, '/')
  {
    var prefixes, replacement := ["n/d/x", "o"], "n/d";
    assert replacement[0] != "o"[0] && "n/d/x"[..3] == replacement;
    assert prefixes[0][|replacement|..] == "/x" && prefixes[0] + "/x" == "n/d/x/x";
    assert !Effective(prefixes, 1, '/') || !StrictlyBelow(prefixes[1], replacement, '/');
    TailIsRewrittenAgain(prefixes, 0, replacement, '/');
  }

  /** One string survives the round trip exactly when the swapped rewrite cannot mistake it. */
  predicate RoundTrips(s: string, prefix: string, replacement: string, sep: char) {
    prefix == replacement || Below(s, prefix, sep) || !Below(s, replacement, sep)
  }

  lemma StringRoundTrip(s: string, prefix: string, replacement: string, sep: char)
    ensures Rewritten(Rewritten(s, [prefix], replacement, sep), [replacement], prefix, sep) == s
            <==> RoundTrips(s, prefix, replacement, sep)
  {
    if Below(s, prefix, sep) {
      var rest := s[|prefix|..];
      var there := replacement + rest;
      assert rest == "" || rest[0] == s[|prefix|];
      assert there[..|replacement|] == replacement && there[|replacement|..] == rest;
      assert Below(there, replacement, sep);
      assert s == prefix + rest;
    } else if Below(s, replacement, sep) {
      var rest := s[|replacement|..];
      assert s == replacement + rest;
      if |prefix| == |replacement| {
        assert (prefix + rest)[..|prefix|] == prefix && s[..|prefix|] == replacement;
      }
    }
  }

  /** The swapped rewrite undoes a rewrite of one prefix on exactly the values all of whose strings survive. */
  lemma {:induction false} RewriteRoundTrip(v: Json, prefix: string, replacement: string, sep: char)
    ensures Rewrite(Rewrite(v, [prefix], replacement, sep), [replacement], prefix, sep) == v
            <==> AllStrings(v, s => RoundTrips(s, prefix, replacement, sep))
    decreases v
  {
    var there := Rewrite(v, [prefix], replacement, sep);
    var back := Rewrite(there, [replacement], prefix, sep);
    match v
    case Str(s) => StringRoundTrip(s, prefix, replacement, sep);
    case Arr(items) =>
      forall i | 0 <= i < |items| { RewriteRoundTrip(items[i], prefix, replacement, sep); }
      if back == v {
        forall i | 0 <= i < |items| ensures AllStrings(items[i], s => RoundTrips(s, prefix, replacement, sep)) {
          assert back.items[i] == items[i];
        }
      } else {
        assert back.items != items;
      }
    case Obj(fields) =>
      forall i | 0 <= i < |fields| { RewriteRoundTrip(fields[i].1, prefix, replacement, sep); }
      if back == v {
        forall i | 0 <= i < |fields| ensures AllStrings(fields[i].1, s => RoundTrips(s, prefix, replacement, sep)) {
          assert back.fields[i] == fields[i];
        }
      } else {
        assert back.fields != fields;
      }
    case _ =>
  }
}
