/** Python's order on strings, and `sorted` over a set of them. */
module TextOrder {

  /** By code point; a proper prefix comes first. */
  predicate Before(a: string, b: string) {
    b != "" && (a == "" || a[0] < b[0] || (a[0] == b[0] && Before(a[1..], b[1..])))
  }

  lemma {:induction false} BeforeIsStrictOrder(a: string, b: string, c: string)
    ensures !Before(a, a)
    ensures Before(a, b) && Before(b, c) ==> Before(a, c)
    ensures Before(a, b) || a == b || Before(b, a)
  {
    if a != "" {
      BeforeIsStrictOrder(a[1..], if b == "" then "" else b[1..], if c == "" then "" else c[1..]);
      assert b != "" && a[0] == b[0] && a[1..] == b[1..] ==> a == b by {
        assert a == [a[0]] + a[1..];
        assert b != "" ==> b == [b[0]] + b[1..];
      }
    }
  }

  /** Where they first differ `a` ends, or has the smaller code point. */
  ghost predicate InOrder(a: string, b: string) {
    exists k :: 0 <= k <= |a| && k < |b| && a[..k] == b[..k] && (k == |a| || a[k] < b[k])
  }

  lemma {:induction false} BeforeHasDifference(a: string, b: string)
    requires Before(a, b)
    ensures InOrder(a, b)
  {
    if a != "" && a[0] == b[0] {
      BeforeHasDifference(a[1..], b[1..]);
      var k :| 0 <= k <= |a[1..]| && k < |b[1..]| && a[1..][..k] == b[1..][..k] && (k == |a[1..]| || a[1..][k] < b[1..][k]);
      assert a[..k + 1] == [a[0]] + a[1..][..k] && b[..k + 1] == [b[0]] + b[1..][..k];
    } else {
      assert a[..0] == b[..0];
    }
  }

  lemma {:induction false} DifferenceMeansBefore(a: string, b: string, k: nat)
    requires k <= |a| && k < |b| && a[..k] == b[..k] && (k == |a| || a[k] < b[k])
    ensures Before(a, b)
  {
    if k > 0 {
      assert a[0] == a[..k][0] == b[..k][0] == b[0];
      assert a[1..][..k - 1] == a[..k][1..] && b[1..][..k - 1] == b[..k][1..];
      DifferenceMeansBefore(a[1..], b[1..], k - 1);
    }
  }

  lemma BeforeExactly(a: string, b: string)
    ensures Before(a, b) <==> InOrder(a, b)
  {
    if Before(a, b) {
      BeforeHasDifference(a, b);
    }
    if k :| 0 <= k <= |a| && k < |b| && a[..k] == b[..k] && (k == |a| || a[k] < b[k]) {
      DifferenceMeansBefore(a, b, k);
    }
  }

  /** Strictly rising: in order, and no string twice. */
  predicate Rising(r: seq<string>) { r == [] || (AllAfter(r[1..], r[0]) && Rising(r[1..])) }

  predicate AllAfter(r: seq<string>, x: string) { forall y :: y in r ==> Before(x, y) }

  function Insert(r: seq<string>, x: string): seq<string> {
    if r == [] || Before(x, r[0]) then [x] + r else [r[0]] + Insert(r[1..], x)
  }

  lemma {:induction false} InsertElements(r: seq<string>, x: string)
    ensures forall y :: y in Insert(r, x) <==> y in r || y == x
  {
    if r != [] && !Before(x, r[0]) {
      InsertElements(r[1..], x);
      assert r == [r[0]] + r[1..];
    }
  }

  lemma AllAfterTrans(r: seq<string>, x: string, y: string)
    requires AllAfter(r, y) && Before(x, y)
    ensures AllAfter(r, x)
  {
    forall z | z in r ensures Before(x, z) {
      BeforeIsStrictOrder(x, y, z);
    }
  }

  lemma {:induction false} InsertRises(r: seq<string>, x: string)
    requires Rising(r) && x !in r
    ensures Rising(Insert(r, x))
  {
    if r != [] {
      assert r == [r[0]] + r[1..];
      if Before(x, r[0]) {
        AllAfterTrans(r[1..], x, r[0]);
        assert Insert(r, x)[1..] == r;
      } else {
        BeforeIsStrictOrder(x, r[0], x);
        InsertRises(r[1..], x);
        InsertElements(r[1..], x);
        assert Insert(r, x)[1..] == Insert(r[1..], x);
      }
    } else {
      assert Insert(r, x)[1..] == [];
    }
  }

  lemma {:induction false} RisingPairs(r: seq<string>, i: nat, j: nat)
    requires Rising(r) && i < j < |r|
    ensures Before(r[i], r[j])
  {
    if i == 0 {
      assert r[1..][j - 1] == r[j];
    } else {
      RisingPairs(r[1..], i - 1, j - 1);
    }
  }

  /** A rising list, index by index. */
  lemma RisingExactly(r: seq<string>)
    requires Rising(r)
    ensures forall i, j :: 0 <= i < j < |r| ==> InOrder(r[i], r[j])
  {
    forall i, j | 0 <= i < j < |r| ensures InOrder(r[i], r[j]) {
      RisingPairs(r, i, j);
      BeforeExactly(r[i], r[j]);
    }
  }

  /** `sorted`. */
  method SortedList(s: set<string>) returns (r: seq<string>)
    ensures forall x :: x in r <==> x in s
    ensures forall i, j :: 0 <= i < j < |r| ==> InOrder(r[i], r[j])
  {
    r := [];
    var rest := s;
    while rest != {}
      invariant Rising(r) && rest <= s && forall x :: x in r <==> x in s - rest
    {
      var x :| x in rest;
      InsertElements(r, x);
      InsertRises(r, x);
      r := Insert(r, x);
      rest := rest - {x};
    }
    RisingExactly(r);
  }
}
