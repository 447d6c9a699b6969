/** The order in which the store sorts tag numbers for
    `orderBy: { tagNumber: "desc" }`: strings compared character by character
    by code (a binary collation). */
module LexOrder {
  import opened Decimal

  /** `a` sorts strictly before `b`. */
  predicate Less(a: string, b: string)
    decreases |a|
  {
    if a == [] then b != []
    else if b == [] then false
    else a[0] < b[0] || (a[0] == b[0] && Less(a[1..], b[1..]))
  }

  lemma {:induction false} Irreflexive(a: string)
    ensures !Less(a, a)
  {
    if a != [] {
      Irreflexive(a[1..]);
    }
  }

  lemma {:induction false} Transitive(a: string, b: string, c: string)
    requires Less(a, b) && Less(b, c)
    ensures Less(a, c)
  {
    if a != [] && a[0] == b[0] && b[0] == c[0] {
      Transitive(a[1..], b[1..], c[1..]);
    }
  }

  /** Any two different strings are ordered one way or the other. */
  lemma {:induction false} Total(a: string, b: string)
    ensures a == b || Less(a, b) || Less(b, a)
  {
    if a != [] && b != [] && a[0] == b[0] {
      Total(a[1..], b[1..]);
      if a[1..] == b[1..] {
        assert a == [a[0]] + a[1..] && b == [b[0]] + b[1..];
      }
    }
  }

  /** A common prefix does not change the order. */
  lemma {:induction false} CommonPrefix(p: string, a: string, b: string)
    ensures Less(p + a, p + b) <==> Less(a, b)
  {
    if p != [] {
      assert (p + a)[0] == p[0] && (p + b)[0] == p[0];
      assert (p + a)[1..] == p[1..] + a && (p + b)[1..] == p[1..] + b;
      CommonPrefix(p[1..], a, b);
    } else {
      assert p + a == a && p + b == b;
    }
  }

  /** On digit strings of one length, the text order is the numeric order:
      with a fixed-width suffix, sorting tag numbers sorts their numbers. */
  lemma {:induction false} DigitsOrder(s: string, t: string)
    requires |s| == |t| && AllDigits(s) && AllDigits(t)
    ensures Less(s, t) <==> ParseDigits(s) < ParseDigits(t)
  {
    if s != [] {
      var p := Pow10(|s| - 1);
      var ds, dt := DigitValue(s[0]), DigitValue(t[0]);
      var rs, rt := ParseDigits(s[1..]), ParseDigits(t[1..]);
      assert ParseDigits(s) == ds * p + rs && ParseDigits(t) == dt * p + rt;
      if s[0] == t[0] {
        DigitsOrder(s[1..], t[1..]);
      } else if s[0] < t[0] {
        LeadingDigitDecides(ds, dt, rs, rt, p);
      } else {
        LeadingDigitDecides(dt, ds, rt, rs, p);
      }
    }
  }

  /** A smaller leading digit outweighs any remaining digits. */
  lemma LeadingDigitDecides(d1: nat, d2: nat, r1: nat, r2: nat, p: nat)
    requires d1 < d2 && r1 < p
    ensures d1 * p + r1 < d2 * p + r2
  {
    MulLeft(d1 + 1, d2, p);
    assert (d1 + 1) * p == d1 * p + p;
  }
}
