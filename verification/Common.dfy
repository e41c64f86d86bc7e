/** Small vocabulary shared by every component model. */
module Common {

  type byte = x: int | 0 <= x < 256
  type u16 = x: int | 0 <= x < 0x1_0000
  type u32 = x: int | 0 <= x < 0x1_0000_0000
  type u64 = x: int | 0 <= x < 0x1_0000_0000_0000_0000

  const U32_MAX: u32 := 0xFFFF_FFFF

  type Bytes16 = b: seq<byte> | |b| == 16
    witness [0, 0, 0, 0, 0, 0, 0, 0, 0, 0, 0, 0, 0, 0, 0, 0]

  datatype Ipv4 = Ipv4(a: byte, b: byte, c: byte, d: byte)

  datatype Option<+T> = None | Some(value: T)

  datatype Result<+T, +E> = Ok(value: T) | Err(error: E)

  function Min(a: int, b: int): int { if a < b then a else b }

  function Max(a: int, b: int): int { if a < b then b else a }

  /** `duration_since`, which never goes below zero. */
  function Elapsed(now: int, since: int): nat { if now < since then 0 else now - since }

  function RemoveAt<T>(s: seq<T>, i: nat): (r: seq<T>)
    requires i < |s|
    ensures |r| == |s| - 1
  {
    s[..i] + s[i + 1..]
  }

  function Truncate<T>(s: seq<T>, n: nat): seq<T> { if |s| <= n then s else s[..n] }

  lemma {:induction false} SubsetCard<T>(a: set<T>, b: set<T>)
    requires a <= b
    ensures |a| <= |b|
  {
    if a != {} {
      var x :| x in a;
      SubsetCard(a - {x}, b - {x});
    }
  }
}

/** Filtering and searching sequences. */
module Sequences {
  import opened Common

  function Filter<T>(s: seq<T>, p: T -> bool): (r: seq<T>)
    ensures |r| <= |s|
  {
    if s == [] then []
    else
      var kept := Filter(s[..|s| - 1], p);
      if p(s[|s| - 1]) then kept + [s[|s| - 1]] else kept
  }

  /** Index of the first element satisfying `p`. */
  function First<T>(s: seq<T>, p: T -> bool): (r: Option<nat>)
    ensures r.Some? ==> r.value < |s| && p(s[r.value]) && forall j :: 0 <= j < r.value ==> !p(s[j])
    ensures r.None? ==> forall j :: 0 <= j < |s| ==> !p(s[j])
  {
    if s == [] then None
    else
      var n := |s| - 1;
      var earlier := First(s[..n], p);
      if earlier.Some? then earlier
      else if p(s[n]) then Some(n) else None
  }

  lemma {:induction false} FilterMember<T>(s: seq<T>, p: T -> bool, x: T)
    ensures x in Filter(s, p) <==> x in s && p(x)
  {
    if s != [] {
      FilterMember(s[..|s| - 1], p, x);
      assert s == s[..|s| - 1] + [s[|s| - 1]];
    }
  }

  lemma {:induction false} FilterConcat<T>(a: seq<T>, b: seq<T>, p: T -> bool)
    ensures Filter(a + b, p) == Filter(a, p) + Filter(b, p)
  {
    if b == [] {
      assert a + b == a;
    } else {
      var n := |b| - 1;
      FilterConcat(a, b[..n], p);
      assert (a + b)[..|a + b| - 1] == a + b[..n];
    }
  }

  lemma FilterOne<T>(x: T, p: T -> bool)
    ensures Filter([x], p) == if p(x) then [x] else []
  {
    assert Filter([x][..0], p) == [];
  }

  lemma FilterSnoc<T>(s: seq<T>, x: T, p: T -> bool)
    ensures Filter(s + [x], p) == Filter(s, p) + (if p(x) then [x] else [])
  {
    FilterConcat(s, [x], p);
    FilterOne(x, p);
  }

  lemma FilterAround<T>(a: seq<T>, x: T, b: seq<T>, p: T -> bool)
    ensures |Filter(a + [x] + b, p)| == |Filter(a, p)| + (if p(x) then 1 else 0) + |Filter(b, p)|
  {
    hide Filter;
    FilterConcat(a + [x], b, p);
    FilterSnoc(a, x, p);
  }

  lemma Around<T>(s: seq<T>, i: nat, p: T -> bool)
    requires i < |s|
    ensures |Filter(s, p)| == |Filter(s[..i], p)| + (if p(s[i]) then 1 else 0) + |Filter(s[i + 1..], p)|
  {
    hide Filter;
    FilterAround(s[..i], s[i], s[i + 1..], p);
    assert s == s[..i] + [s[i]] + s[i + 1..];
  }

  lemma RemovalCount<T>(s: seq<T>, i: nat, p: T -> bool)
    requires i < |s|
    ensures |Filter(RemoveAt(s, i), p)| == |Filter(s, p)| - (if p(s[i]) then 1 else 0)
  {
    hide Filter;
    Around(s, i, p);
    FilterConcat(s[..i], s[i + 1..], p);
  }

  lemma UpdateCount<T>(s: seq<T>, i: nat, x: T, p: T -> bool)
    requires i < |s| && p(x) == p(s[i])
    ensures |Filter(s[i := x], p)| == |Filter(s, p)|
  {
    hide Filter;
    Around(s, i, p);
    Around(s[i := x], i, p);
    assert s[i := x][..i] == s[..i] && s[i := x][i + 1..] == s[i + 1..];
  }

  lemma {:induction false} FilterBelow<T>(s: seq<T>, p: T -> bool, q: T -> bool)
    ensures |Filter(Filter(s, p), q)| <= |Filter(s, q)|
  {
    if s != [] {
      var (front, x) := (s[..|s| - 1], s[|s| - 1]);
      FilterBelow(front, p, q);
      FilterSnoc(Filter(front, p), x, q);
    }
  }

  lemma {:induction false} FilterTwice<T>(s: seq<T>, p: T -> bool)
    ensures Filter(Filter(s, p), p) == Filter(s, p)
  {
    if s != [] {
      var (front, x) := (s[..|s| - 1], s[|s| - 1]);
      FilterTwice(front, p);
      FilterSnoc(Filter(front, p), x, p);
    }
  }
}
