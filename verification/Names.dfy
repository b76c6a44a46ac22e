/** Strings in code-point order, as Python's `sorted` and the stores' id-ordered pages use it. */
module Names {

  /** Strict lexicographic order. */
  predicate Before(a: string, b: string) {
    if b == [] then false
    else if a == [] then true
    else if a[0] != b[0] then a[0] < b[0]
    else Before(a[1..], b[1..])
  }

  lemma {:induction false} BeforeTransitive(a: string, b: string, c: string)
    requires Before(a, b) && Before(b, c)
    ensures Before(a, c)
  {
    if a != [] && a[0] == b[0] && b[0] == c[0] {
      BeforeTransitive(a[1..], b[1..], c[1..]);
    }
  }

  lemma {:induction false} BeforeIrreflexive(a: string)
    ensures !Before(a, a)
  {
    if a != [] {
      BeforeIrreflexive(a[1..]);
    }
  }

  lemma {:induction false} BeforeTotal(a: string, b: string)
    requires a != b
    ensures Before(a, b) || Before(b, a)
  {
    if a != [] && b != [] && a[0] == b[0] {
      assert a == [a[0]] + a[1..] && b == [b[0]] + b[1..];
      BeforeTotal(a[1..], b[1..]);
    }
  }

  predicate Ascending(s: seq<string>) {
    forall i, j :: 0 <= i < j < |s| ==> Before(s[i], s[j])
  }

  function Elements(s: seq<string>): set<string> {
    set x | x in s
  }

  /** One insertion into an ascending list. */
  function Insert(x: string, s: seq<string>): (r: seq<string>)
    requires Ascending(s) && x !in s
    ensures Ascending(r) && Elements(r) == Elements(s) + {x} && |r| == |s| + 1
  {
    if s == [] then [x]
    else if Before(x, s[0]) then
      assert forall j :: 0 <= j < |s| ==> Before(x, s[j]) by {
        forall j | 0 < j < |s|
          ensures Before(x, s[j])
        {
          BeforeTransitive(x, s[0], s[j]);
        }
      }
      [x] + s
    else
      var t := Insert(x, s[1..]);
      assert forall j :: 0 <= j < |t| ==> Before(s[0], t[j]) by {
        BeforeTotal(x, s[0]);
        forall j | 0 <= j < |t|
          ensures Before(s[0], t[j])
        {
          assert t[j] in Elements(t);
        }
      }
      assert Elements([s[0]] + t) == Elements(t) + {s[0]};
      assert Elements(s) == Elements(s[1..]) + {s[0]};
      [s[0]] + t
  }

  /** Python's `sorted` on a list without repetitions. */
  function Sort(s: seq<string>): (r: seq<string>)
    requires forall i, j :: 0 <= i < j < |s| ==> s[i] != s[j]
    ensures Ascending(r) && Elements(r) == Elements(s) && |r| == |s|
  {
    if s == [] then []
    else
      var t := Sort(s[1..]);
      assert s[0] !in t by {
        assert forall x :: x in t <==> x in Elements(t);
      }
      assert Elements(s) == Elements(s[1..]) + {s[0]};
      Insert(s[0], t)
  }

  /** Python's `sorted` on a set of keys. */
  method SortKeys(s: set<string>) returns (r: seq<string>)
    ensures Ascending(r) && Elements(r) == s && |r| == |s|
  {
    r := [];
    var rest := s;
    while rest != {}
      invariant Ascending(r) && rest <= s && Elements(r) == s - rest && |r| == |s| - |rest|
      decreases rest
    {
      var x :| x in rest;
      assert x !in Elements(r);
      r, rest := Insert(x, r), rest - {x};
    }
  }

  lemma {:induction false} SubsetSize<T>(a: set<T>, b: set<T>)
    requires a <= b
    ensures |a| <= |b|
    decreases a
  {
    if a != {} {
      var x :| x in a;
      SubsetSize(a - {x}, b - {x});
    }
  }

  lemma AscendingDistinct(s: seq<string>, i: nat, j: nat)
    requires Ascending(s) && i < j < |s|
    ensures s[i] != s[j]
  {
    BeforeIrreflexive(s[i]);
  }

  /** Size of the element set of an ascending list. */
  lemma {:induction false} AscendingSize(s: seq<string>)
    requires Ascending(s)
    ensures |Elements(s)| == |s|
  {
    if s != [] {
      AscendingSize(s[1..]);
      assert s[0] !in s[1..] by {
        forall j | 0 < j < |s|
          ensures s[j] != s[0]
        {
          AscendingDistinct(s, 0, j);
        }
      }
      assert Elements(s) == Elements(s[1..]) + {s[0]};
    }
  }

  /** An ascending list is determined by its elements. */
  lemma {:induction false} AscendingUnique(s: seq<string>, t: seq<string>)
    requires Ascending(s) && Ascending(t) && Elements(s) == Elements(t)
    ensures s == t
  {
    AscendingSize(s);
    AscendingSize(t);
    if s != [] {
      assert s[0] in Elements(t);
      FirstIsLeast(s, t);
      FirstIsLeast(t, s);
      BeforeIrreflexive(s[0]);
      if s[0] != t[0] { BeforeTransitive(s[0], t[0], s[0]); }
      TailElements(s);
      TailElements(t);
      AscendingUnique(s[1..], t[1..]);
      assert s == [s[0]] + s[1..] && t == [t[0]] + t[1..];
    }
  }

  lemma FirstIsLeast(s: seq<string>, t: seq<string>)
    requires Ascending(s) && Elements(s) == Elements(t) && t != []
    ensures s != [] && (s[0] == t[0] || Before(s[0], t[0]))
  {
    assert t[0] in Elements(s);
  }

  lemma TailElements(s: seq<string>)
    requires Ascending(s) && s != []
    ensures Elements(s[1..]) == Elements(s) - {s[0]}
  {
    forall j | 0 < j < |s|
      ensures s[j] != s[0]
    {
      AscendingDistinct(s, 0, j);
    }
  }
}
