/** Small value types and sequence helpers shared by every model. */
module Common {

  datatype Option<+T> = None | Some(value: T)

  function Max(a: int, b: int): int { if a < b then b else a }

  function Min(a: int, b: int): int { if a < b then a else b }

  /** Python's `s[:n]`: a prefix, where a negative `n` counts back from the end. */
  function Slice<T>(s: seq<T>, n: int): (r: seq<T>)
    ensures r <= s
    ensures 0 <= n ==> |r| == Min(n, |s|)
    ensures n < 0 ==> |r| == Max(0, |s| + n)
  {
    if n < 0 then s[..Max(0, |s| + n)] else s[..Min(n, |s|)]
  }

  function Reverse<T>(s: seq<T>): (r: seq<T>)
    ensures |r| == |s|
    ensures forall i :: 0 <= i < |s| ==> r[i] == s[|s| - 1 - i]
  {
    if s == [] then [] else Reverse(s[1..]) + [s[0]]
  }

  lemma ReverseMember<T>(s: seq<T>, x: T)
    ensures x in Reverse(s) <==> x in s
  {
    if i :| 0 <= i < |s| && s[i] == x {
      assert Reverse(s)[|s| - 1 - i] == x;
    }
  }

  /** Python's `upper` on the letters symbols are made of. */
  function Upper(s: string): (r: string)
    ensures |r| == |s|
    ensures forall i :: 0 <= i < |s| ==> r[i] == if 'a' <= s[i] <= 'z' then s[i] - 'a' + 'A' else s[i]
  {
    if s == "" then "" else [if 'a' <= s[0] <= 'z' then s[0] - 'a' + 'A' else s[0]] + Upper(s[1..])
  }

  function Flatten<T>(p: seq<seq<T>>): seq<T> {
    if p == [] then [] else p[0] + Flatten(p[1..])
  }

  ghost predicate Distinct<T>(s: seq<T>) {
    forall i, j :: 0 <= i < j < |s| ==> s[i] != s[j]
  }

  lemma FlattenAppend<T>(p: seq<seq<T>>, q: seq<seq<T>>)
    ensures Flatten(p + q) == Flatten(p) + Flatten(q)
  {
    if p == [] {
      assert p + q == q;
    } else {
      assert (p + q)[1..] == p[1..] + q;
    }
  }

  /** What is in a list of lists is in one of them. */
  lemma FlattenMember<T>(p: seq<seq<T>>, x: T)
    ensures x in Flatten(p) <==> exists i :: 0 <= i < |p| && x in p[i]
  {
    if p != [] {
      FlattenMember(p[1..], x);
      if x in Flatten(p[1..]) {
        var i :| 0 <= i < |p[1..]| && x in p[1..][i];
        assert x in p[i + 1];
      }
      if i :| 0 <= i < |p| && x in p[i] {
        if i > 0 {
          assert x in p[1..][i - 1];
        }
      }
    }
  }

  lemma Member<T>(s: set<T>) returns (x: T)
    requires s != {}
    ensures x in s
  {
    x :| x in s;
  }

  lemma OneLess<T>(s: set<T>, x: T)
    requires x in s
    ensures |s - {x}| == |s| - 1
  {
    assert s == (s - {x}) + {x};
  }

  lemma AtMostOneMore<T>(s: set<T>, x: T)
    ensures |s + {x}| <= |s| + 1
  {
    if x in s {
      assert s + {x} == s;
    }
  }
}
