/** Values shared by every part of the search model. */
module Common {

  /** An optional value; `None` stands for Python's `None` or a missing key. */
  datatype Option<+T> = None | Some(value: T)

  /** One procurement notice as the open API delivers it: field name to field text. A field
      whose value is JSON `null` has no text here. */
  type Record = map<string, string>

  /** The position of the first `x` in `s`, if any. */
  function IndexOf<T(==)>(s: seq<T>, x: T): (i: Option<nat>)
    ensures i.Some? ==> i.value < |s| && s[i.value] == x && forall j :: 0 <= j < i.value ==> s[j] != x
    ensures i.None? <==> x !in s
  {
    if |s| == 0 then None
    else if s[0] == x then Some(0)
    else match IndexOf(s[1..], x)
      case None => None
      case Some(k) => Some(k + 1)
  }

  /** Past a prefix free of `x`, the first `x` is found where the rest starts with it. */
  lemma {:induction false} IndexOfAfter<T>(a: seq<T>, b: seq<T>, x: T)
    requires x !in a && |b| > 0 && b[0] == x
    ensures IndexOf(a + b, x) == Some(|a|)
    decreases |a|
  {
    if |a| == 0 {
      assert a + b == b;
    } else {
      assert (a + b)[1..] == a[1..] + b;
      IndexOfAfter(a[1..], b, x);
    }
  }

  /** The first position holding `x` is the one `IndexOf` finds. */
  lemma IndexOfFirst<T>(s: seq<T>, x: T, m: nat)
    requires m < |s| && s[m] == x && forall j :: 0 <= j < m ==> s[j] != x
    ensures IndexOf(s, x) == Some(m)
  {
  }

  /** The present values of `s`, in order. */
  function Somes<T(!new)>(s: seq<Option<T>>): (r: seq<T>)
    ensures |r| <= |s|
    ensures forall x :: x in r <==> Some(x) in s
  {
    if |s| == 0 then []
    else (if s[0].Some? then [s[0].value] else []) + Somes(s[1..])
  }

  /** `Somes` finds nothing exactly when every entry is `None`. */
  lemma NoSomes<T(!new)>(s: seq<Option<T>>)
    ensures |Somes(s)| == 0 <==> forall k :: 0 <= k < |s| ==> s[k].None?
  {
    if exists k :: 0 <= k < |s| && s[k].Some? {
      var k :| 0 <= k < |s| && s[k].Some?;
      assert s[k] in s;
    }
  }

  /** `a` is `b` with some elements left out, the rest in their original order. */
  predicate IsSubsequence<T(==)>(a: seq<T>, b: seq<T>)
    decreases |b|
  {
    if |a| == 0 then true
    else if |b| == 0 then false
    else if a[0] == b[0] then IsSubsequence(a[1..], b[1..])
    else IsSubsequence(a, b[1..])
  }


  /** The elements of `s` satisfying `p`, in their order. */
  function Filter<T>(s: seq<T>, p: T -> bool): (r: seq<T>)
    ensures |r| <= |s|
  {
    if |s| == 0 then [] else (if p(s[0]) then [s[0]] else []) + Filter(s[1..], p)
  }

  lemma FilterCons<T>(x: T, rest: seq<T>, p: T -> bool)
    ensures Filter([x] + rest, p) == (if p(x) then [x] else []) + Filter(rest, p)
  {
    assert ([x] + rest)[1..] == rest;
  }

  /** An element is kept exactly when it is in the input and satisfies the condition. */
  lemma {:induction false} FilterMembers<T>(s: seq<T>, p: T -> bool)
    ensures forall x :: x in Filter(s, p) <==> x in s && p(x)
    decreases |s|
  {
    if |s| > 0 {
      FilterMembers(s[1..], p);
      assert s == [s[0]] + s[1..];
      FilterCons(s[0], s[1..], p);
    }
  }

  /** Filtering distributes over concatenation. */
  lemma {:induction false} FilterAppend<T>(a: seq<T>, b: seq<T>, p: T -> bool)
    ensures Filter(a + b, p) == Filter(a, p) + Filter(b, p)
    decreases |a|
  {
    if |a| == 0 {
      assert a + b == b;
    } else {
      assert a + b == [a[0]] + (a[1..] + b);
      assert a == [a[0]] + a[1..];
      FilterCons(a[0], a[1..] + b, p);
      FilterCons(a[0], a[1..], p);
      FilterAppend(a[1..], b, p);
    }
  }

  /** When every element satisfies the condition, nothing is dropped. */
  lemma {:induction false} FilterAll<T>(s: seq<T>, p: T -> bool)
    requires forall i :: 0 <= i < |s| ==> p(s[i])
    ensures Filter(s, p) == s
    decreases |s|
  {
    if |s| > 0 {
      FilterAll(s[1..], p);
      assert s == [s[0]] + s[1..];
    }
  }

  /** Filtering keeps the order of the input. */
  lemma {:induction false} FilterSubsequence<T>(s: seq<T>, p: T -> bool)
    ensures IsSubsequence(Filter(s, p), s)
    decreases |s|
  {
    if |s| > 0 {
      FilterSubsequence(s[1..], p);
      var kept := Filter(s, p);
      var rest := Filter(s[1..], p);
      if p(s[0]) {
        assert kept[0] == s[0] && kept[1..] == rest;
      } else {
        assert kept == rest;
        if |kept| > 0 {
          FilterMembers(s[1..], p);
          assert kept[0] in rest;
        }
      }
    }
  }

  /** Filtering twice keeps the same elements as filtering once. */
  lemma {:induction false} FilterIdempotent<T>(s: seq<T>, p: T -> bool)
    ensures Filter(Filter(s, p), p) == Filter(s, p)
    decreases |s|
  {
    if |s| > 0 {
      var head := if p(s[0]) then [s[0]] else [];
      FilterAppend(head, Filter(s[1..], p), p);
      FilterIdempotent(s[1..], p);
      if p(s[0]) {
        FilterCons(s[0], [], p);
        assert [s[0]] + [] == [s[0]];
      }
    }
  }

}
