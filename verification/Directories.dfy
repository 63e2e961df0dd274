/**
 Directory trees and the number of entries in them, as `std::filesystem::remove_all` counts.
 */
module Directories {

  datatype Node = File | Dir(children: map<string, Node>)

  /** The entry itself and everything below it. */
  ghost function Size(n: Node): nat
    decreases n, 1
  {
    match n case File => 1 case Dir(c) => 1 + SizeOf(n, c.Keys)
  }

  ghost function SizeOf(n: Node, names: set<string>): nat
    requires n.Dir? && names <= n.children.Keys
    decreases n, 0, names
  {
    if names == {} then 0 else
    var k :| k in names;
    Size(n.children[k]) + SizeOf(n, names - {k})
  }

  lemma {:induction false} SizeOfAt(n: Node, names: set<string>, k: string)
    requires n.Dir? && names <= n.children.Keys && k in names
    ensures SizeOf(n, names) == Size(n.children[k]) + SizeOf(n, names - {k})
    decreases names
  {
    var j :| j in names && SizeOf(n, names) == Size(n.children[j]) + SizeOf(n, names - {j});
    if j != k {
      SizeOfAt(n, names - {j}, k);
      SizeOfAt(n, names - {k}, j);
      assert names - {j} - {k} == names - {k} - {j};
    }
  }

  /** `remove_all` on a tree: the number of entries it takes away. */
  method RemoveAll(n: Node) returns (count: nat)
    ensures count == Size(n)
    decreases n
  {
    count := 1;
    if n.Dir? {
      var left := n.children.Keys;
      while left != {}
        invariant left <= n.children.Keys && count + SizeOf(n, left) == 1 + SizeOf(n, n.children.Keys)
        decreases left
      {
        var k :| k in left;
        SizeOfAt(n, left, k);
        var one := RemoveAll(n.children[k]);
        count := count + one;
        left := left - {k};
      }
    }
  }

  // ---------------------------------------------------------------- sums over names

  ghost function SumOf(names: set<string>, f: string -> nat): nat {
    if names == {} then 0 else
    var k :| k in names;
    f(k) + SumOf(names - {k}, f)
  }

  lemma {:induction false} SumOfAt(names: set<string>, f: string -> nat, k: string)
    requires k in names
    ensures SumOf(names, f) == f(k) + SumOf(names - {k}, f)
    decreases names
  {
    var j :| j in names && SumOf(names, f) == f(j) + SumOf(names - {j}, f);
    if j != k {
      SumOfAt(names - {j}, f, k);
      SumOfAt(names - {k}, f, j);
      assert names - {j} - {k} == names - {k} - {j};
    }
  }

  /** Sums of equal or split terms. */
  lemma {:induction false} SumOfSplit(names: set<string>, f: string -> nat, g: string -> nat, h: string -> nat)
    requires forall k :: k in names ==> f(k) == g(k) + h(k)
    ensures SumOf(names, f) == SumOf(names, g) + SumOf(names, h)
    decreases names
  {
    if names != {} {
      var k :| k in names;
      SumOfAt(names, f, k);
      SumOfAt(names, g, k);
      SumOfAt(names, h, k);
      SumOfSplit(names - {k}, f, g, h);
    }
  }

  lemma {:induction false} SumOfEqual(names: set<string>, f: string -> nat, g: string -> nat)
    requires forall k :: k in names ==> f(k) == g(k)
    ensures SumOf(names, f) == SumOf(names, g)
    decreases names
  {
    if names != {} {
      var k :| k in names;
      SumOfAt(names, f, k);
      SumOfAt(names, g, k);
      SumOfEqual(names - {k}, f, g);
    }
  }

  /** Names that add nothing can be left out. */
  lemma {:induction false} SumOfFewer(names: set<string>, fewer: set<string>, f: string -> nat)
    requires fewer <= names && forall k :: k in names && k !in fewer ==> f(k) == 0
    ensures SumOf(names, f) == SumOf(fewer, f)
    decreases names
  {
    if names == fewer {
    } else {
      var k :| k in names && k !in fewer;
      SumOfAt(names, f, k);
      SumOfFewer(names - {k}, fewer, f);
    }
  }

  ghost function SizeAt(m: map<string, Node>): string -> nat {
    (k: string) => if k in m then Size(m[k]) else 0
  }

  /** The entries of a directory, without the directory. */
  ghost function SizeAll(m: map<string, Node>): nat { SumOf(m.Keys, SizeAt(m)) }

  lemma {:induction false} SizeOfIsSum(m: map<string, Node>, names: set<string>)
    requires names <= m.Keys
    ensures SizeOf(Dir(m), names) == SumOf(names, SizeAt(m))
    decreases names
  {
    if names != {} {
      var k :| k in names;
      SizeOfAt(Dir(m), names, k);
      SumOfAt(names, SizeAt(m), k);
      SizeOfIsSum(m, names - {k});
    }
  }

  lemma SizeOfDir(m: map<string, Node>)
    ensures Size(Dir(m)) == 1 + SizeAll(m)
  {
    SizeOfIsSum(m, m.Keys);
  }
}
