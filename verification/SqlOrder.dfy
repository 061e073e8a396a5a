/** `ORDER BY session_id, pid`: texts by code point, NULL before every pid. */
module SqlOrder {
  import opened Utf8
  import opened Wrappers

  type Pair = (string, Option<nat>)

  predicate TextBefore(a: string, b: string) {
    if b == "" then false
    else if a == "" then true
    else a[0] < b[0] || (a[0] == b[0] && TextBefore(a[1..], b[1..]))
  }

  predicate PidBefore(a: Option<nat>, b: Option<nat>) {
    b.Some? && (a.Some? ==> a.value < b.value)
  }

  predicate Before(p: Pair, q: Pair) {
    TextBefore(p.0, q.0) || (p.0 == q.0 && PidBefore(p.1, q.1))
  }

  /** Texts are compared where they first differ, one that ends there standing first; of one session's groups the one
      without pid comes first and the others by pid. */
  lemma {:induction false} OrderIsByFirstDifference(a: string, b: string, p: Option<nat>, q: Option<nat>)
    ensures var n := CommonPrefix(a, b);
            Before((a, p), (b, q)) <==>
              if a == b then q.Some? && (p.None? || p.value < q.value) else n < |b| && (n == |a| || a[n] < b[n])
  {
    FirstDifference(a, b);
    TextOrderIsTotal(a, a);
  }

  lemma {:induction false} FirstDifference(a: string, b: string)
    ensures var n := CommonPrefix(a, b); TextBefore(a, b) <==> n < |b| && (n == |a| || a[n] < b[n])
  {
    if a != "" && b != "" && a[0] == b[0] {
      FirstDifference(a[1..], b[1..]);
    }
  }

  lemma {:induction false} TextOrderIsTotal(a: string, b: string)
    ensures TextBefore(a, b) || a == b || TextBefore(b, a)
    ensures !(TextBefore(a, b) && TextBefore(b, a)) && !TextBefore(a, a)
  {
    if a != "" && b != "" {
      TextOrderIsTotal(a[1..], b[1..]);
      assert a == [a[0]] + a[1..] && b == [b[0]] + b[1..];
    }
    if a != "" {
      TextOrderIsTotal(a[1..], a[1..]);
    }
  }

  lemma {:induction false} TextOrderIsTransitive(a: string, b: string, c: string)
    requires TextBefore(a, b) && TextBefore(b, c)
    ensures TextBefore(a, c)
  {
    if a != "" && a[0] == b[0] == c[0] {
      TextOrderIsTransitive(a[1..], b[1..], c[1..]);
    }
  }

  lemma OrderIsTotal(p: Pair, q: Pair)
    ensures Before(p, q) || p == q || Before(q, p)
    ensures !(Before(p, q) && Before(q, p)) && !Before(p, p)
  {
    TextOrderIsTotal(p.0, q.0);
    TextOrderIsTotal(p.0, p.0);
  }

  lemma OrderIsTransitive(p: Pair, q: Pair, r: Pair)
    requires Before(p, q) && Before(q, r)
    ensures Before(p, r)
  {
    if TextBefore(p.0, q.0) && TextBefore(q.0, r.0) {
      TextOrderIsTransitive(p.0, q.0, r.0);
    }
  }

  function Inserted(p: Pair, ps: seq<Pair>): seq<Pair> {
    if ps == [] || !Before(ps[0], p) then [p] + ps else [ps[0]] + Inserted(p, ps[1..])
  }

  function Ordered(ps: seq<Pair>): seq<Pair> {
    if ps == [] then [] else Inserted(ps[0], Ordered(ps[1..]))
  }

  predicate InOrder(ps: seq<Pair>) {
    forall i, j | 0 <= i < j < |ps| :: !Before(ps[j], ps[i])
  }

  lemma {:induction false} InsertedPermutes(p: Pair, ps: seq<Pair>)
    ensures multiset(Inserted(p, ps)) == multiset{p} + multiset(ps)
  {
    if ps != [] && Before(ps[0], p) {
      InsertedPermutes(p, ps[1..]);
      assert ps == [ps[0]] + ps[1..];
    }
  }

  lemma {:induction false} OrderedPermutes(ps: seq<Pair>)
    ensures multiset(Ordered(ps)) == multiset(ps)
  {
    if ps != [] {
      OrderedPermutes(ps[1..]);
      InsertedPermutes(ps[0], Ordered(ps[1..]));
      assert ps == [ps[0]] + ps[1..];
    }
  }

  lemma OrderedMembers(ps: seq<Pair>, p: Pair)
    ensures p in Ordered(ps) <==> p in ps
  {
    OrderedPermutes(ps);
    assert p in Ordered(ps) <==> p in multiset(Ordered(ps));
  }

  lemma {:induction false} InsertedMembers(p: Pair, ps: seq<Pair>, q: Pair)
    requires q in Inserted(p, ps)
    ensures q == p || q in ps
  {
    InsertedPermutes(p, ps);
    assert q in multiset(Inserted(p, ps));
  }

  lemma FirstIsLeast(p: Pair, ps: seq<Pair>)
    requires InOrder(ps) && forall q | q in ps :: !Before(q, p)
    ensures InOrder([p] + ps)
  {
  }

  lemma NotBeforeIsTransitive(p: Pair, q: Pair, r: Pair)
    requires !Before(q, p) && !Before(r, q)
    ensures !Before(r, p)
  {
    OrderIsTotal(p, q);
    OrderIsTotal(q, r);
    if Before(r, p) && Before(p, q) {
      OrderIsTransitive(r, p, q);
    }
  }

  lemma {:induction false} InsertedInOrder(p: Pair, ps: seq<Pair>)
    requires InOrder(ps)
    ensures InOrder(Inserted(p, ps))
  {
    if ps == [] {
    } else if !Before(ps[0], p) {
      forall q | q in ps
        ensures !Before(q, p)
      {
        var i :| 0 <= i < |ps| && ps[i] == q;
        if i > 0 {
          NotBeforeIsTransitive(p, ps[0], q);
        }
      }
      FirstIsLeast(p, ps);
    } else {
      InsertedInOrder(p, ps[1..]);
      OrderIsTotal(ps[0], p);
      forall q | q in Inserted(p, ps[1..])
        ensures !Before(q, ps[0])
      {
        InsertedMembers(p, ps[1..], q);
      }
      FirstIsLeast(ps[0], Inserted(p, ps[1..]));
    }
  }

  /** The result of `Ordered` is in order. */
  lemma {:induction false} OrderedInOrder(ps: seq<Pair>)
    ensures InOrder(Ordered(ps))
  {
    if ps != [] {
      OrderedInOrder(ps[1..]);
      InsertedInOrder(ps[0], Ordered(ps[1..]));
    }
  }
}
