/** Profile names in the order of `str::cmp`: by code point, a prefix first. */
module Names {

  predicate Le(a: string, b: string) {
    a == "" || (b != "" && (a[0] < b[0] || (a[0] == b[0] && Le(a[1..], b[1..]))))
  }

  predicate Sorted(names: seq<string>) {
    forall i, j :: 0 <= i < j < |names| ==> Le(names[i], names[j])
  }

  predicate Distinct(names: seq<string>) {
    forall i, j :: 0 <= i < j < |names| ==> names[i] != names[j]
  }

  lemma {:induction false} LeTotal(a: string, b: string)
    ensures Le(a, b) || Le(b, a)
  {
    if a != "" && b != "" && a[0] == b[0] {
      LeTotal(a[1..], b[1..]);
    }
  }

  lemma {:induction false} LeTransitive(a: string, b: string, d: string)
    requires Le(a, b) && Le(b, d)
    ensures Le(a, d)
  {
    if a != "" && a[0] == b[0] && b[0] == d[0] {
      LeTransitive(a[1..], b[1..], d[1..]);
    }
  }

  /** Two names that precede each other are the same. */
  lemma {:induction false} LeAntisymmetric(a: string, b: string)
    requires Le(a, b) && Le(b, a)
    ensures a == b
  {
    if a != "" {
      LeAntisymmetric(a[1..], b[1..]);
      assert a == [a[0]] + a[1..] && b == [b[0]] + b[1..];
    }
  }

  /** Put a name in front of the first one that does not precede it. */
  method InsertSorted(names: seq<string>, name: string) returns (more: seq<string>)
    requires Sorted(names)
    ensures Sorted(more) && forall x :: x in more <==> x in names || x == name
    ensures Distinct(names) && name !in names ==> Distinct(more)
  {
    var k := 0;
    while k < |names| && Le(names[k], name)
      invariant 0 <= k <= |names| && forall i :: 0 <= i < k ==> Le(names[i], name)
    {
      k := k + 1;
    }
    forall i | k <= i < |names| ensures Le(name, names[i]) {
      LeTotal(name, names[k]);
      if i > k {
        LeTransitive(name, names[k], names[i]);
      }
    }
    more := names[..k] + [name] + names[k..];
    assert names == names[..k] + names[k..];
  }

  /** There is only one sorted listing of a set of names. */
  lemma {:induction false} OneSortedListing(a: seq<string>, b: seq<string>)
    requires Sorted(a) && Distinct(a) && Sorted(b) && Distinct(b) && forall x :: x in a <==> x in b
    ensures a == b
  {
    assert |a| > 0 ==> a[0] in b;
    assert |b| > 0 ==> b[0] in a;
    if a != [] {
      var i :| 0 <= i < |b| && b[i] == a[0];
      var j :| 0 <= j < |a| && a[j] == b[0];
      if i > 0 && j > 0 {
        LeAntisymmetric(a[0], b[0]);
      }
      SameTails(a, b);
      OneSortedListing(a[1..], b[1..]);
      assert a == [a[0]] + a[1..] && b == [b[0]] + b[1..];
    }
  }

  lemma InTail(a: seq<string>, x: string)
    requires a != [] && Distinct(a)
    ensures x in a[1..] <==> x in a && x != a[0]
  {
    if x in a[1..] {
      var i :| 0 <= i < |a[1..]| && a[1..][i] == x;
      assert a[i + 1] == x;
    }
  }

  lemma SameTails(a: seq<string>, b: seq<string>)
    requires a != [] && b != [] && a[0] == b[0] && Distinct(a) && Distinct(b) && forall x :: x in a <==> x in b
    ensures forall x :: x in a[1..] <==> x in b[1..]
  {
    forall x ensures x in a[1..] <==> x in b[1..] {
      InTail(a, x);
      InTail(b, x);
    }
  }
}
