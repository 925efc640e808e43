/** The order of services: by priority, then by name. */
module StartOrder {
  import opened Basics

  /** Byte-wise order of names, which for UTF-8 is the order of code points. */
  predicate NameLess(a: string, b: string) {
    if b == [] then false
    else if a == [] then true
    else a[0] < b[0] || (a[0] == b[0] && NameLess(a[1..], b[1..]))
  }

  /** `a` is a prefix of `b`, or has the smaller character where they first differ. */
  ghost predicate NotAfter(a: string, b: string) {
    a <= b || exists i :: 0 <= i < |a| && i < |b| && a[..i] == b[..i] && a[i] < b[i]
  }

  lemma {:induction false} NameLessIff(a: string, b: string)
    ensures NameLess(a, b) <==> a != b && NotAfter(a, b)
  {
    if a != [] && b != [] {
      NameLessIff(a[1..], b[1..]);
      assert a == [a[0]] + a[1..] && b == [b[0]] + b[1..];
      if a[0] == b[0] {
        if i :| 0 <= i < |a| && i < |b| && a[..i] == b[..i] && a[i] < b[i] {
          assert i > 0 && a[1..][..i - 1] == a[..i][1..] && b[1..][..i - 1] == b[..i][1..];
          assert a[1..][i - 1] == a[i] && b[1..][i - 1] == b[i];
        }
        if i :| 0 <= i < |a[1..]| && i < |b[1..]| && a[1..][..i] == b[1..][..i] && a[1..][i] < b[1..][i] {
          assert a[..i + 1] == [a[0]] + a[1..][..i] && b[..i + 1] == [b[0]] + b[1..][..i];
          assert a[i + 1] < b[i + 1];
        }
      } else {
        assert a[..0] == b[..0];
        forall i | 0 < i < |a| && i < |b|
          ensures a[..i] != b[..i]
        {
          assert a[..i][0] == a[0] && b[..i][0] == b[0];
        }
      }
    }
  }

  type Key = (nat, string)

  predicate KeyLess(a: Key, b: Key) {
    a.0 < b.0 || (a.0 == b.0 && NameLess(a.1, b.1))
  }

  /** Lower priority number first, then the name. */
  lemma KeyLessIff(a: Key, b: Key)
    ensures KeyLess(a, b) <==> a.0 < b.0 || (a.0 == b.0 && a.1 != b.1 && NotAfter(a.1, b.1))
  {
    NameLessIff(a.1, b.1);
  }

  lemma {:induction false} NameTotal(a: string, b: string)
    ensures a == b || NameLess(a, b) || NameLess(b, a)
    ensures !(NameLess(a, b) && NameLess(b, a)) && (NameLess(a, b) ==> a != b)
  {
    if a != [] && b != [] && a[0] == b[0] {
      NameTotal(a[1..], b[1..]);
      assert a == [a[0]] + a[1..] && b == [b[0]] + b[1..];
    }
  }

  lemma {:induction false} NameTransitive(a: string, b: string, c: string)
    requires NameLess(a, b) && NameLess(b, c)
    ensures NameLess(a, c)
  {
    if a != [] && a[0] == b[0] == c[0] {
      NameTransitive(a[1..], b[1..], c[1..]);
    }
  }

  lemma KeyTotal(a: Key, b: Key)
    ensures a == b || KeyLess(a, b) || KeyLess(b, a)
    ensures !(KeyLess(a, b) && KeyLess(b, a)) && !KeyLess(a, a)
  {
    NameTotal(a.1, b.1);
    NameTotal(a.1, a.1);
  }

  lemma KeyTransitive(a: Key, b: Key, c: Key)
    requires KeyLess(a, b) && KeyLess(b, c)
    ensures KeyLess(a, c)
  {
    if a.0 == b.0 == c.0 {
      NameTransitive(a.1, b.1, c.1);
    }
  }

  ghost predicate IsLeast(s: set<Key>, m: Key) {
    m in s && forall k :: k in s ==> k == m || KeyLess(m, k)
  }

  lemma {:induction false} LeastExists(s: set<Key>) returns (m: Key)
    requires s != {}
    ensures IsLeast(s, m)
    decreases s
  {
    var k := Pick(s);
    var rest := s - {k};
    if rest == {} {
      m := k;
      assert forall x :: x in s ==> x == k || x in rest;
    } else {
      var m' := LeastExists(rest);
      KeyTotal(k, m');
      m := if KeyLess(k, m') then k else m';
      forall x | x in s
        ensures x == m || KeyLess(m, x)
      {
        if x != k {
          assert x in rest;
          if m == k && x != m' {
            KeyTransitive(k, m', x);
          }
        }
      }
    }
  }

  /** `BTreeSet::pop_first`: the lowest priority number, and the first name among those. */
  method PopFirst(s: set<Key>) returns (m: Key, rest: set<Key>)
    requires s != {}
    ensures IsLeast(s, m) && rest == s - {m}
    ensures forall k :: k in s ==> m.0 < k.0 || (m.0 == k.0 && NotAfter(m.1, k.1))
  {
    ghost var least := LeastExists(s);
    m :| m in s && forall k :: k in s ==> k == m || KeyLess(m, k);
    rest := s - {m};
    forall k | k in s
      ensures m.0 < k.0 || (m.0 == k.0 && NotAfter(m.1, k.1))
    {
      KeyLessIff(m, k);
    }
  }
}
