/**
 * A name not yet taken in a directory: the wanted name if it is free, else the first free one of
 * `stem_1.ext`, `stem_2.ext`, and so on.
 */
module UniquePath {
  import opened Wrappers

  // ---------------------------------------------------------------------- names

  function LastDot(name: string): (r: Option<nat>)
    ensures r.Some? ==> r.value < |name| && name[r.value] == '.'
  {
    if name == "" then None
    else if name[|name| - 1] == '.' then Some(|name| - 1)
    else LastDot(name[..|name| - 1])
  }

  /** Where the extension's dot is: a leading dot hides a file and starts no extension. */
  function ExtensionDot(name: string): (r: Option<nat>)
    ensures r.Some? ==> r.value < |name| && name[r.value] == '.'
  {
    var dot := LastDot(name);
    if name == ".." || dot == Some(0) then None else dot
  }

  function Stem(name: string): string {
    match ExtensionDot(name)
    case Some(dot) => name[..dot]
    case None => name
  }

  /** What follows the counter: the dot and the extension, unless the extension is missing or empty. */
  function Tail(name: string): string {
    match ExtensionDot(name)
    case Some(dot) => if dot == |name| - 1 then "" else name[dot..]
    case None => ""
  }

  function Digit(n: nat): char
    requires n < 10
  {
    '0' + n as char
  }

  function Decimal(n: nat): (digits: string)
    ensures |digits| >= 1
  {
    if n < 10 then [Digit(n)] else Decimal(n / 10) + [Digit(n % 10)]
  }

  function Numbered(name: string, counter: nat): string {
    Stem(name) + "_" + Decimal(counter) + Tail(name)
  }

  /** The names in the order they are tried. */
  function Probe(name: string, k: nat): string {
    if k == 0 then name else Numbered(name, k)
  }

  // ---------------------------------------------------------------------- no name is tried twice

  function DigitValue(c: char): nat {
    if '0' <= c <= '9' then (c - '0') as nat else 0
  }

  function Value(digits: string): nat {
    if digits == "" then 0
    else 10 * Value(digits[..|digits| - 1]) + DigitValue(digits[|digits| - 1])
  }

  lemma {:induction false} DecimalValue(n: nat)
    ensures Value(Decimal(n)) == n
  {
    var digits := Decimal(n);
    if n >= 10 {
      DecimalValue(n / 10);
      assert digits[..|digits| - 1] == Decimal(n / 10);
    } else {
      assert digits[..0] == "";
    }
  }

  lemma DecimalInjective(m: nat, n: nat)
    requires Decimal(m) == Decimal(n)
    ensures m == n
  {
    DecimalValue(m);
    DecimalValue(n);
  }

  lemma Cancel(prefix: string, a: string, b: string, suffix: string)
    requires prefix + a + suffix == prefix + b + suffix
    ensures a == b
  {
    assert |a| == |b|;
    forall i | 0 <= i < |a| ensures a[i] == b[i] {
      assert (prefix + a + suffix)[|prefix| + i] == a[i];
      assert (prefix + b + suffix)[|prefix| + i] == b[i];
    }
  }

  lemma ProbesDistinct(name: string, j: nat, k: nat)
    requires j < k
    ensures Probe(name, j) != Probe(name, k)
  {
    if j == 0 {
      assert |Numbered(name, k)| > |name|;
    } else if Numbered(name, j) == Numbered(name, k) {
      Cancel(Stem(name) + "_", Decimal(j), Decimal(k), Tail(name));
      DecimalInjective(j, k);
    }
  }

  lemma SubsetSize<T>(a: set<T>, b: set<T>)
    requires a <= b
    ensures |a| <= |b|
  {
    assert b == a + (b - a);
  }

  // ---------------------------------------------------------------------- the program

  /**
   * The result is free, it is the first free name of the sequence, and at most one name more is
   * probed than the directory holds: the taken names probed are all different.
   */
  method GetUniquePath(dir: set<string>, filename: string) returns (path: string, ghost probes: nat)
    ensures path !in dir
    ensures 1 <= probes <= |dir| + 1
    ensures path == Probe(filename, probes - 1) && forall k :: 0 <= k < probes - 1 ==> Probe(filename, k) in dir
  {
    path := filename;
    var counter := 1;
    ghost var taken: set<string> := {};
    while path in dir
      invariant counter >= 1 && path == Probe(filename, counter - 1)
      invariant taken <= dir && |taken| == counter - 1
      invariant forall k :: 0 <= k < counter - 1 ==> Probe(filename, k) in taken
      invariant forall t :: t in taken ==> exists k :: 0 <= k < counter - 1 && t == Probe(filename, k)
      decreases |dir| - |taken|
    {
      if path in taken {
        var k :| 0 <= k < counter - 1 && path == Probe(filename, k);
        ProbesDistinct(filename, k, counter - 1);
      }
      SubsetSize(taken + {path}, dir);
      taken := taken + {path};
      path := Numbered(filename, counter);
      counter := counter + 1;
    }
    SubsetSize(taken, dir);
    probes := counter;
  }

  // ---------------------------------------------------------------------- what a numbered name looks like

  lemma {:induction false} LastDotOf(front: string, back: string)
    requires '.' !in back
    ensures LastDot(front + "." + back) == Some(|front|)
  {
    var name := front + "." + back;
    if back != "" {
      assert name[..|name| - 1] == front + "." + back[..|back| - 1];
      LastDotOf(front, back[..|back| - 1]);
    }
  }

  lemma {:induction false} NoLastDot(name: string)
    requires '.' !in name
    ensures LastDot(name) == None
  {
    if name != "" {
      NoLastDot(name[..|name| - 1]);
    }
  }

  /**
   * The counter goes between the stem and the extension. A name without a dot, or with only a leading
   * one, has no extension; an extension that is empty is dropped with its dot.
   */
  lemma NumberedKeepsExtension(front: string, back: string, k: nat)
    requires '.' !in back
    ensures front != "" && front + "." + back != ".." ==>
              Numbered(front + "." + back, k) == front + "_" + Decimal(k) + if back == "" then "" else "." + back
    ensures Numbered(back, k) == back + "_" + Decimal(k)
    ensures Numbered("." + back, k) == "." + back + "_" + Decimal(k)
  {
    var name := front + "." + back;
    LastDotOf(front, back);
    LastDotOf("", back);
    NoLastDot(back);
    assert "" + "." + back == "." + back;
    assert name[..|front|] == front && name[|front|..] == "." + back;
    assert back + "_" + Decimal(k) + "" == back + "_" + Decimal(k);
    assert "." + back + "_" + Decimal(k) + "" == "." + back + "_" + Decimal(k);
  }
}
