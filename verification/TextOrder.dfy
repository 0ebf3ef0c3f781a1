// Strings in code point order, as both the database and the sort compare them.
module TextOrder {

  predicate Before(a: string, b: string) {
    b != [] && (a == [] || a[0] < b[0] || (a[0] == b[0] && Before(a[1..], b[1..])))
  }

  lemma {:induction false} BeforeTotal(a: string, b: string)
    ensures Before(a, b) || a == b || Before(b, a)
  {
    if a != [] && b != [] && a[0] == b[0] {
      BeforeTotal(a[1..], b[1..]);
      assert a == [a[0]] + a[1..] && b == [b[0]] + b[1..];
    }
  }

  lemma {:induction false} BeforeTransitive(a: string, b: string, c: string)
    requires Before(a, b) && Before(b, c)
    ensures Before(a, c)
  {
    if a != [] && a[0] == b[0] && b[0] == c[0] {
      BeforeTransitive(a[1..], b[1..], c[1..]);
    }
  }

  lemma {:induction false} BeforeIrreflexive(a: string)
    ensures !Before(a, a)
  {
    if a != [] {
      BeforeIrreflexive(a[1..]);
    }
  }

  // a comes first if it is a proper beginning of b, or its character is the smaller one where they first differ.
  lemma {:induction false} BeforeMeans(a: string, b: string)
    ensures Before(a, b) <==> exists k ::
      0 <= k <= |a| && k < |b| && a[..k] == b[..k] && (k == |a| || a[k] < b[k])
  {
    forall k | 0 < k <= |a| && k < |b| && a[..k] == b[..k]
      ensures a[0] == b[0]
    {
      assert a[0] == a[..k][0] == b[..k][0] == b[0];
    }
    if a != [] && b != [] && a[0] == b[0] {
      BeforeMeans(a[1..], b[1..]);
      if Before(a, b) {
        var k :| 0 <= k <= |a[1..]| && k < |b[1..]| && a[1..][..k] == b[1..][..k]
          && (k == |a[1..]| || a[1..][k] < b[1..][k]);
        assert a[..k + 1] == [a[0]] + a[1..][..k] && b[..k + 1] == [b[0]] + b[1..][..k];
        assert a[..k + 1] == b[..k + 1];
      }
      if k :| 0 <= k <= |a| && k < |b| && a[..k] == b[..k] && (k == |a| || a[k] < b[k]) {
        assert k > 0;
        assert a[1..][..k - 1] == a[..k][1..] && b[1..][..k - 1] == b[..k][1..];
      }
    } else {
      assert a[..0] == b[..0];
    }
  }

  predicate Least(key: string, keys: set<string>) {
    key in keys && forall k :: k in keys && k != key ==> Before(key, k)
  }

  lemma {:induction false} HasLeast(keys: set<string>)
    requires keys != {}
    ensures exists key :: Least(key, keys)
    decreases |keys|
  {
    var one :| one in keys;
    if keys == {one} {
      assert Least(one, keys);
    } else {
      HasLeast(keys - {one});
      var best :| Least(best, keys - {one});
      BeforeTotal(one, best);
      if Before(one, best) {
        forall k | k in keys && k != one
          ensures Before(one, k)
        {
          if k != best {
            BeforeTransitive(one, best, k);
          }
        }
        assert Least(one, keys);
      } else {
        assert Least(best, keys);
      }
    }
  }
}
