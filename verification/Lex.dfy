/** The order in which Rust's `String`, SQLite's BINARY collation and DynamoDB compare text.
    Every HLC comparison of the sync protocol is one of these. */
module Lex {

  /** Strict lexicographic order: a proper prefix comes first, otherwise the first differing
      character decides. */
  predicate Before(a: string, b: string) {
    if b == "" then false
    else if a == "" then true
    else if a[0] != b[0] then a[0] < b[0]
    else Before(a[1..], b[1..])
  }

  /** The Rust comparison `a <= b`. */
  predicate AtMost(a: string, b: string) {
    !Before(b, a)
  }

  lemma {:induction false} Irreflexive(a: string)
    ensures !Before(a, a)
  {
    if a != "" { Irreflexive(a[1..]); }
  }

  lemma {:induction false} Trichotomy(a: string, b: string)
    ensures Before(a, b) || a == b || Before(b, a)
    ensures !(Before(a, b) && Before(b, a))
  {
    if a != "" && b != "" && a[0] == b[0] {
      Trichotomy(a[1..], b[1..]);
      assert a == [a[0]] + a[1..] && b == [b[0]] + b[1..];
    }
  }

  lemma {:induction false} Transitive(a: string, b: string, c: string)
    requires Before(a, b) && Before(b, c)
    ensures Before(a, c)
  {
    if a != "" && a[0] == b[0] == c[0] {
      Transitive(a[1..], b[1..], c[1..]);
    }
  }

  /** The laws of a strict total order, for all strings at once. */
  lemma TotalOrder()
    ensures forall a {:trigger Before(a, a)} :: !Before(a, a)
    ensures forall a, b {:trigger Before(a, b)} :: Before(a, b) || a == b || Before(b, a)
    ensures forall a, b {:trigger Before(a, b)} :: !(Before(a, b) && Before(b, a))
    ensures forall a, b, c {:trigger Before(a, b), Before(b, c)} :: Before(a, b) && Before(b, c) ==> Before(a, c)
  {
    forall a ensures !Before(a, a) { Irreflexive(a); }
    forall a, b ensures Before(a, b) || a == b || Before(b, a) { Trichotomy(a, b); }
    forall a, b ensures !(Before(a, b) && Before(b, a)) { Trichotomy(a, b); }
    forall a, b, c | Before(a, b) && Before(b, c) ensures Before(a, c) { Transitive(a, b, c); }
  }

  /** Two texts that start with the same part compare as their remainders do. */
  lemma {:induction false} CommonPrefix(p: string, a: string, b: string)
    ensures Before(p + a, p + b) <==> Before(a, b)
  {
    if p == "" {
      assert p + a == a && p + b == b;
    } else {
      CommonPrefix(p[1..], a, b);
      assert (p + a)[1..] == p[1..] + a && (p + b)[1..] == p[1..] + b;
    }
  }
}
