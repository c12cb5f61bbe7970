/** Small vocabulary shared by every module: optional values, results and enumerations of sets. */
module Common {

  datatype Option<+T> = None | Some(value: T)

  datatype Result<+T, +E> = Ok(value: T) | Err(error: E)

  /** `s` lists every element of `elements` exactly once, in some order. */
  ghost predicate Enumerates<T(!new)>(s: seq<T>, elements: set<T>) {
    && (forall x :: x in s <==> x in elements)
    && (forall i, j :: 0 <= i < j < |s| ==> s[i] != s[j])
  }

  function Elements<T>(s: seq<T>): set<T> {
    set x | x in s
  }

  lemma ElementsOfConcat<T>(a: seq<T>, b: seq<T>)
    ensures Elements(a + b) == Elements(a) + Elements(b)
  {
    assert forall x :: x in a + b <==> x in a || x in b;
  }

  lemma SplitLast<T>(s: seq<T>)
    requires s != []
    ensures s == s[..|s| - 1] + [s[|s| - 1]]
  {}

  lemma TakeOfInit<T>(s: seq<T>, n: nat)
    requires n < |s|
    ensures s[..|s| - 1][..n] == s[..n]
  {}

  lemma TakeOneMore<T>(s: seq<T>, i: nat)
    requires i < |s|
    ensures s[..i + 1] == s[..i] + [s[i]]
    ensures forall x :: x in s[..i + 1] <==> x in s[..i] || x == s[i]
  {}

  lemma NoElements<T>(s: seq<T>)
    ensures Elements(s[..0]) == {}
  {}

  lemma ElementsOneMore<T>(s: seq<T>, i: nat)
    requires i < |s|
    ensures Elements(s[..i + 1]) == Elements(s[..i]) + {s[i]}
  {
    TakeOneMore(s, i);
  }

  lemma EnumeratesAll<T(!new)>(s: seq<T>, elements: set<T>)
    requires Enumerates(s, elements)
    ensures Elements(s[..|s|]) == elements
    ensures forall i :: 0 <= i < |s| ==> s[i] in elements && s[i] !in Elements(s[..i])
  {}

  lemma TakeAll<T>(s: seq<T>)
    ensures s[..|s|] == s
  {}

  lemma SubsetSize<T>(a: set<T>, b: set<T>)
    requires a <= b
    ensures |a| <= |b| && (|a| == |b| ==> a == b)
  {
    if b - a != {} {
      var x :| x in b - a;
      SubsetSize(a, b - {x});
    } else {
      assert a == b;
    }
  }

  /** The iteration order of a JavaScript Map or Set is left open: any order may come back. */
  method Enumerate<T(==,!new)>(elements: set<T>) returns (s: seq<T>)
    ensures Enumerates(s, elements)
  {
    s := [];
    var rest := elements;
    while rest != {}
      invariant rest <= elements
      invariant Enumerates(s, elements - rest)
      decreases rest
    {
      var x :| x in rest;
      s := s + [x];
      rest := rest - {x};
    }
  }

  /** A bound above every element of a finite set of identifiers. */
  ghost function BoundOf(used: set<nat>): (b: nat)
    ensures forall x :: x in used ==> x < b
  {
    if used == {} then 0
    else
      var x :| x in used;
      var b := BoundOf(used - {x});
      assert used == (used - {x}) + {x};
      if x < b then b else x + 1
  }

  /** The least identifier from `from` on that exceeds every used one: stands for `crypto.randomUUID()`. */
  function FreshId(used: set<nat>, from: nat := 0): (id: nat)
    ensures forall x :: x in used ==> x < id
    decreases BoundOf(used) - from
  {
    if forall x :: x in used ==> x < from then from
    else FreshId(used, from + 1)
  }
}
