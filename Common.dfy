/**
  Small shared vocabulary: the usual Option and Result wrappers and the
  order-preserving filter that the pipeline's `filter` calls stand for.
 */
module Common {

  datatype Option<+T> = None | Some(value: T) {
    function GetOr(default: T): T {
      match this
      case Some(v) => v
      case None => default
    }
  }

  datatype Result<+R, +E> = Ok(value: R) | Err(error: E)

  /** `xs.filter(p)`: the elements of `s` that satisfy `p`, in order. */
  function Filter<T>(s: seq<T>, p: T -> bool): (r: seq<T>)
    ensures |r| <= |s|
    ensures forall x :: x in r ==> x in s && p(x)
    ensures forall x :: x in s && p(x) ==> x in r
  {
    if s == [] then [] else (if p(s[0]) then [s[0]] else []) + Filter(s[1..], p)
  }

  /** `a` is obtained from `b` by deleting elements, keeping the order of the rest. */
  predicate IsSubseq<T(==)>(a: seq<T>, b: seq<T>)
  {
    if a == [] then true
    else if b == [] then false
    else (a[0] == b[0] && IsSubseq(a[1..], b[1..])) || IsSubseq(a, b[1..])
  }

  lemma {:induction false} FilterIsSubseq<T>(s: seq<T>, p: T -> bool)
    ensures IsSubseq(Filter(s, p), s)
  {
    if s != [] {
      FilterIsSubseq(s[1..], p);
      if !p(s[0]) {
        assert Filter(s, p) == Filter(s[1..], p);
      } else {
        assert Filter(s, p) == [s[0]] + Filter(s[1..], p);
        assert Filter(s, p)[1..] == Filter(s[1..], p);
      }
    }
  }

  /** Filtering distributes over concatenation. */
  lemma {:induction false} FilterAppend<T>(s: seq<T>, t: seq<T>, p: T -> bool)
    ensures Filter(s + t, p) == Filter(s, p) + Filter(t, p)
  {
    if s != [] {
      assert (s + t)[1..] == s[1..] + t;
      FilterAppend(s[1..], t, p);
    } else {
      assert s + t == t;
    }
  }

  /** The number of elements of `s` that satisfy `p`. */
  function Count<T>(s: seq<T>, p: T -> bool): (n: nat)
    ensures n <= |s|
    ensures n == |Filter(s, p)|
  {
    if s == [] then 0 else (if p(s[0]) then 1 else 0) + Count(s[1..], p)
  }

  /** `xs.find(p)`: the first element of `s` that satisfies `p`, if any. */
  function Find<T>(s: seq<T>, p: T -> bool): (r: Option<T>)
    ensures r.None? <==> forall k :: 0 <= k < |s| ==> !p(s[k])
    ensures r.Some? ==> exists k :: (0 <= k < |s| && s[k] == r.value && p(s[k])
                                     && forall j :: 0 <= j < k ==> !p(s[j]))
    decreases |s|, 1
  {
    if s == [] then None
    else if p(s[0]) then Some(s[0])
    else
      FindShift(s, p);
      Find(s[1..], p)
  }

  lemma FindShift<T>(s: seq<T>, p: T -> bool)
    requires s != [] && !p(s[0])
    ensures var r := Find(s[1..], p);
      r.Some? ==> exists k :: (0 <= k < |s| && s[k] == r.value && p(s[k])
                               && forall j :: 0 <= j < k ==> !p(s[j]))
    decreases |s|, 0
  {
    var r := Find(s[1..], p);
    if r.Some? {
      var k :| 0 <= k < |s[1..]| && s[1..][k] == r.value && p(s[1..][k])
               && forall j :: 0 <= j < k ==> !p(s[1..][j]);
      assert forall j :: 0 <= j < k + 1 ==> !p(s[j]);
    }
  }

  /** The conjunction of two tests. */
  function Both<T>(p: T -> bool, q: T -> bool): T -> bool
  {
    x => p(x) && q(x)
  }

  /** Finding in a filtered sequence is finding with both tests in the original one. */
  lemma {:induction false} FindInFilter<T>(s: seq<T>, p: T -> bool, q: T -> bool)
    ensures Find(Filter(s, p), q) == Find(s, Both(p, q))
  {
    if s != [] {
      FindInFilter(s[1..], p, q);
      if p(s[0]) {
        assert Filter(s, p) == [s[0]] + Filter(s[1..], p);
        assert ([s[0]] + Filter(s[1..], p))[1..] == Filter(s[1..], p);
      } else {
        assert Filter(s, p) == Filter(s[1..], p);
      }
    }
  }

  /** The head of a filtered sequence is the first element that passes the filter. */
  lemma {:induction false} FilterHead<T>(s: seq<T>, p: T -> bool)
    requires Filter(s, p) != []
    ensures Find(s, p) == Some(Filter(s, p)[0])
  {
    if !p(s[0]) {
      assert Filter(s, p) == Filter(s[1..], p);
      FilterHead(s[1..], p);
    }
  }

  predicate Any<T>(s: seq<T>, p: T -> bool)
  {
    exists k :: 0 <= k < |s| && p(s[k])
  }

  /** The elements a "prefer those that pass `p`" choice considers: those that pass when any does, else all. */
  function Preferred<T>(s: seq<T>, p: T -> bool): T -> bool
  {
    x => !Any(s, p) || p(x)
  }

  /**
    Searching the filtered list when it is not empty, and the whole list
    otherwise, is searching the whole list among the preferred elements.
   */
  lemma PreferFilter<T>(s: seq<T>, p: T -> bool, q: T -> bool)
    requires s != []
    ensures var f := Filter(s, p);
      var c := if f != [] then f else s;
      && Find(c, q) == Find(s, Both(Preferred(s, p), q))
      && Some(c[0]) == Find(s, Preferred(s, p))
  {
    var f := Filter(s, p);
    if f != [] {
      assert Any(s, p) by {
        assert f[0] in s;
      }
      FindInFilter(s, p, q);
      FilterHead(s, p);
      SameFind(s, Both(p, q), Both(Preferred(s, p), q));
      SameFind(s, p, Preferred(s, p));
    } else {
      assert !Any(s, p) by {
        forall k | 0 <= k < |s| ensures !p(s[k]) {
          assert s[k] in s;
        }
      }
      SameFind(s, q, Both(Preferred(s, p), q));
      assert Preferred(s, p)(s[0]);
    }
  }

  /** Two tests that agree on every element find the same element. */
  lemma {:induction false} SameFind<T>(s: seq<T>, p: T -> bool, q: T -> bool)
    requires forall k :: 0 <= k < |s| ==> p(s[k]) == q(s[k])
    ensures Find(s, p) == Find(s, q)
  {
    if s != [] {
      SameFind(s[1..], p, q);
    }
  }

  /**
    `x` sits at index `k` of `s`, is preferred, no earlier preferred
    element passes `q`, and either `x` passes `q` or no preferred element
    does and none comes before `x`.
   */
  ghost predicate FirstPreferredAt<T>(s: seq<T>, p: T -> bool, q: T -> bool, x: T, k: int)
  {
    && 0 <= k < |s| && s[k] == x
    && Preferred(s, p)(s[k])
    && (forall j :: 0 <= j < k && Preferred(s, p)(s[j]) ==> !q(s[j]))
    && (q(s[k])
        || ((forall j :: 0 <= j < |s| && Preferred(s, p)(s[j]) ==> !q(s[j]))
            && forall j :: 0 <= j < k ==> !Preferred(s, p)(s[j])))
  }

  /** The first preferred element passing `q`, else the first preferred element, sits where it should. */
  lemma FirstPreferred<T>(s: seq<T>, p: T -> bool, q: T -> bool)
    requires s != []
    ensures var hit := Find(s, Both(Preferred(s, p), q));
      var x := if hit.Some? then hit.value else Find(s, Preferred(s, p)).value;
      Find(s, Preferred(s, p)).Some? && exists k :: FirstPreferredAt(s, p, q, x, k)
  {
    var pref := Preferred(s, p);
    var both := Both(pref, q);
    var first := Find(s, pref);
    assert first.Some? by {
      if Any(s, p) {
        var k :| 0 <= k < |s| && p(s[k]);
        assert pref(s[k]);
      } else {
        assert pref(s[0]);
      }
    }
    var hit := Find(s, both);
    if hit.Some? {
      var k :| 0 <= k < |s| && s[k] == hit.value && both(s[k]) && forall j :: 0 <= j < k ==> !both(s[j]);
      assert FirstPreferredAt(s, p, q, hit.value, k);
    } else {
      var k :| 0 <= k < |s| && s[k] == first.value && pref(s[k]) && forall j :: 0 <= j < k ==> !pref(s[j]);
      assert forall j :: 0 <= j < |s| && pref(s[j]) ==> !q(s[j]) by {
        forall j | 0 <= j < |s| && pref(s[j]) ensures !q(s[j]) {
          assert !both(s[j]);
        }
      }
      assert FirstPreferredAt(s, p, q, first.value, k);
    }
  }

  /** When the first element passing `p` also passes `q`, it is the first element passing both. */
  lemma {:induction false} FindFirstPasses<T>(s: seq<T>, p: T -> bool, q: T -> bool)
    requires Find(s, p).Some? && q(Find(s, p).value)
    ensures Find(s, Both(p, q)) == Find(s, p)
  {
    if !p(s[0]) {
      FindFirstPasses(s[1..], p, q);
    }
  }

  /** Searching one element further keeps an earlier hit, else tries the new element. */
  lemma {:induction false} FindSnoc<T>(s: seq<T>, x: T, p: T -> bool)
    ensures Find(s + [x], p) == if Find(s, p).Some? then Find(s, p) else if p(x) then Some(x) else None
  {
    if s != [] {
      assert (s + [x])[1..] == s[1..] + [x];
      FindSnoc(s[1..], x, p);
    }
  }

  /** The prefix one longer is the prefix and the next element. */
  lemma PrefixSnoc<T>(s: seq<T>, i: nat)
    requires i < |s|
    ensures s[..i + 1] == s[..i] + [s[i]]
  {
  }

  /** Filtering keeps a sequence whole when every element passes. */
  lemma {:induction false} FilterAll<T>(s: seq<T>, p: T -> bool)
    requires forall k :: 0 <= k < |s| ==> p(s[k])
    ensures Filter(s, p) == s
  {
    if s != [] {
      FilterAll(s[1..], p);
    }
  }

  /** Filtering empties a sequence when no element passes. */
  lemma {:induction false} FilterNone<T>(s: seq<T>, p: T -> bool)
    requires forall k :: 0 <= k < |s| ==> !p(s[k])
    ensures Filter(s, p) == []
  {
    if s != [] {
      FilterNone(s[1..], p);
    }
  }

  /** `xs.map(f)`. */
  function Map<A, B>(s: seq<A>, f: A -> B): (r: seq<B>)
    ensures |r| == |s| && forall k :: 0 <= k < |s| ==> r[k] == f(s[k])
  {
    seq(|s|, k requires 0 <= k < |s| => f(s[k]))
  }

  /** Mapping one more element appends its image. */
  lemma MapSnoc<A, B>(s: seq<A>, x: A, f: A -> B)
    ensures Map(s + [x], f) == Map(s, f) + [f(x)]
  {
    assert forall k :: 0 <= k < |s| ==> (s + [x])[k] == s[k];
  }
}
