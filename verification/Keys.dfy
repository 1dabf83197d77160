/** Index keys: integers, or strings in the byte order of the standard library's maps. */
module Keys {

  datatype Key = IntKey(n: nat) | StrKey(s: string)

  predicate StrLess(a: string, b: string) {
    if b == "" then false
    else if a == "" then true
    else if a[0] != b[0] then a[0] < b[0]
    else StrLess(a[1..], b[1..])
  }

  predicate Less(a: Key, b: Key) {
    match (a, b)
    case (IntKey(x), IntKey(y)) => x < y
    case (StrKey(x), StrKey(y)) => StrLess(x, y)
    case (IntKey(_), StrKey(_)) => true
    case (StrKey(_), IntKey(_)) => false
  }

  lemma {:induction false} StrTotal(a: string, b: string)
    ensures a == b || StrLess(a, b) || StrLess(b, a)
    ensures !StrLess(a, a)
    ensures !(StrLess(a, b) && StrLess(b, a))
  {
    if a != "" && b != "" {
      StrTotal(a[1..], b[1..]);
      if a[0] == b[0] && a[1..] == b[1..] {
        assert a == [a[0]] + a[1..] && b == [b[0]] + b[1..];
      }
    }
    if a != "" { StrTotal(a[1..], a[1..]); }
  }

  lemma {:induction false} StrTrans(a: string, b: string, c: string)
    requires StrLess(a, b) && StrLess(b, c)
    ensures StrLess(a, c)
  {
    if a != "" && a[0] == b[0] == c[0] { StrTrans(a[1..], b[1..], c[1..]); }
  }

  lemma Total(a: Key, b: Key)
    ensures a == b || Less(a, b) || Less(b, a)
    ensures !Less(a, a)
    ensures !(Less(a, b) && Less(b, a))
  {
    if a.StrKey? && b.StrKey? { StrTotal(a.s, b.s); }
    if a.StrKey? { StrTotal(a.s, a.s); }
  }

  lemma Trans(a: Key, b: Key, c: Key)
    requires Less(a, b) && Less(b, c)
    ensures Less(a, c)
  {
    if a.StrKey? && b.StrKey? && c.StrKey? { StrTrans(a.s, b.s, c.s); }
  }

  /** One text is before another where it first differs, or if it is the beginning of it. */
  lemma {:induction false} StrLessIs(a: string, b: string)
    ensures StrLess(a, b) <==> exists k: nat :: FirstLess(a, b, k)
  {
    if a != "" && b != "" && a[0] == b[0] {
      StrLessIs(a[1..], b[1..]);
      if StrLess(a, b) {
        var k: nat :| FirstLess(a[1..], b[1..], k);
        assert FirstLess(a, b, k + 1) by { LessFurther(a, b, k); }
      }
      if k: nat :| FirstLess(a, b, k) {
        assert FirstLess(a[1..], b[1..], k - 1) by { LessFurther(a, b, k - 1); }
      }
    } else if StrLess(a, b) {
      assert FirstLess(a, b, 0);
    }
  }

  ghost predicate FirstLess(a: string, b: string, k: nat) {
    k <= |a| && k < |b| && a[..k] == b[..k] && (k == |a| || a[k] < b[k])
  }

  lemma LessFurther(a: string, b: string, k: nat)
    requires a != "" && b != "" && a[0] == b[0]
    ensures FirstLess(a, b, k + 1) <==> FirstLess(a[1..], b[1..], k)
  {
    if k < |a| && k < |b| {
      assert a[..k + 1] == [a[0]] + a[1..][..k] && b[..k + 1] == [b[0]] + b[1..][..k];
      assert a[1..][..k] == a[..k + 1][1..] && b[1..][..k] == b[..k + 1][1..];
    }
  }

  predicate IsLeastKey(m: Key, s: set<Key>) {
    m in s && forall y | y in s :: y == m || Less(m, y)
  }

  lemma {:induction false} LeastKeyExists(s: set<Key>)
    requires s != {}
    ensures exists m :: IsLeastKey(m, s)
  {
    var x :| x in s;
    var rest := s - {x};
    assert s == {x} + rest;
    if rest == {} {
      assert IsLeastKey(x, s);
    } else {
      LeastKeyExists(rest);
      var m :| IsLeastKey(m, rest);
      Total(x, m);
      if Less(x, m) {
        forall y | y in s ensures y == x || Less(x, y) {
          if y in rest && y != m { Trans(x, m, y); }
        }
        assert IsLeastKey(x, s);
      } else {
        assert IsLeastKey(m, s);
      }
    }
  }

  lemma LeastKeyUnique(a: Key, b: Key, s: set<Key>)
    requires IsLeastKey(a, s) && IsLeastKey(b, s)
    ensures a == b
  {
    Total(a, b);
  }

  function LeastKey(s: set<Key>): (m: Key)
    requires s != {}
    ensures IsLeastKey(m, s)
  {
    LeastKeyExists(s);
    assert forall a, b :: IsLeastKey(a, s) && IsLeastKey(b, s) ==> a == b by {
      forall a, b | IsLeastKey(a, s) && IsLeastKey(b, s) ensures a == b { LeastKeyUnique(a, b, s); }
    }
    var m :| IsLeastKey(m, s);
    m
  }

  /** The keys of a map from `k` on: where `lower_bound(k)` starts. */
  function From(s: set<Key>, k: Key): set<Key> {
    set x | x in s && !Less(x, k)
  }

  /** The keys of a map after `k`: where `upper_bound(k)` starts. */
  function After(s: set<Key>, k: Key): set<Key> {
    set x | x in s && Less(k, x)
  }

  function AscendingKeys(s: set<Key>): seq<Key> {
    if s == {} then [] else [LeastKey(s)] + AscendingKeys(s - {LeastKey(s)})
  }
}
