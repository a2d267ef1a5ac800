/** The byte-wise order on strings that sorts JSON keys and breaks ties between providers. */
module Lexical {
  predicate Before(a: string, b: string) {
    if b == "" then false
    else if a == "" then true
    else a[0] < b[0] || (a[0] == b[0] && Before(a[1..], b[1..]))
  }

  /** Exactly one of `a == b`, `Before(a, b)` and `Before(b, a)` holds. */
  lemma {:induction false} BeforeIsTotal(a: string, b: string)
    ensures a == b <==> !Before(a, b) && !Before(b, a)
    ensures !(Before(a, b) && Before(b, a))
  {
    if a != "" && b != "" {
      BeforeIsTotal(a[1..], b[1..]);
      assert a[0] == b[0] && a[1..] == b[1..] ==> a == b by {
        assert a == [a[0]] + a[1..] && b == [b[0]] + b[1..];
      }
    }
  }

  lemma {:induction false} BeforeIsTransitive(a: string, b: string, c: string)
    requires Before(a, b) && Before(b, c)
    ensures Before(a, c)
  {
    if a != "" && a[0] == b[0] == c[0] {
      BeforeIsTransitive(a[1..], b[1..], c[1..]);
    }
  }

  /** `a` ends where `b` goes on, or has the smaller character, after the same first `i`. */
  predicate DivergesAt(a: string, b: string, i: nat) {
    i <= |a| && i < |b| && a[..i] == b[..i] && (i == |a| || a[i] < b[i])
  }

  lemma {:induction false} BeforeDiverges(a: string, b: string)
    ensures Before(a, b) <==> exists i: nat :: DivergesAt(a, b, i)
  {
    if a == "" || b == "" {
      if b != "" { assert DivergesAt(a, b, 0); }
    } else {
      BeforeDiverges(a[1..], b[1..]);
      forall i: nat | i > 0 ensures DivergesAt(a, b, i) <==> a[0] == b[0] && DivergesAt(a[1..], b[1..], i - 1) {
        if i <= |a| && i < |b| {
          assert a[..i] == [a[0]] + a[1..][..i - 1] && b[..i] == [b[0]] + b[1..][..i - 1];
        }
      }
      assert DivergesAt(a, b, 0) <==> a[0] < b[0];
      if a[0] == b[0] && Before(a[1..], b[1..]) {
        var i: nat :| DivergesAt(a[1..], b[1..], i);
        assert DivergesAt(a, b, i + 1);
      }
    }
  }

  predicate IsFirst(k: string, keys: set<string>) {
    k in keys && forall other <- keys :: other == k || Before(k, other)
  }

  lemma {:induction false} FirstExists(keys: set<string>)
    requires keys != {}
    ensures exists k :: IsFirst(k, keys)
  {
    var some :| some in keys;
    var rest := keys - {some};
    assert keys == rest + {some};
    if rest == {} {
      assert IsFirst(some, keys);
    } else {
      FirstExists(rest);
      var k :| IsFirst(k, rest);
      BeforeIsTotal(k, some);
      if Before(some, k) {
        forall other <- keys ensures other == some || Before(some, other) {
          if other != some && other != k {
            assert other in rest;
            BeforeIsTransitive(some, k, other);
          }
        }
        assert IsFirst(some, keys);
      } else {
        assert IsFirst(k, keys);
      }
    }
  }

  lemma FirstIsUnique(j: string, k: string, keys: set<string>)
    requires IsFirst(j, keys) && IsFirst(k, keys)
    ensures j == k
  {
    BeforeIsTotal(j, k);
  }

  /** The keys of an object in the order a B-tree map visits them. */
  function InOrder(keys: set<string>): (sorted: seq<string>)
    ensures forall k :: k in sorted <==> k in keys
  {
    if keys == {} then [] else
      assert exists k :: IsFirst(k, keys) by { FirstExists(keys); }
      assert forall j, k :: IsFirst(j, keys) && IsFirst(k, keys) ==> j == k by {
        forall j, k | IsFirst(j, keys) && IsFirst(k, keys) ensures j == k { FirstIsUnique(j, k, keys); }
      }
      var k :| IsFirst(k, keys);
      [k] + InOrder(keys - {k})
  }
}
