/** `Str`: a string that is either static or counted.  Equality of two counted strings compares
    pointers, everything else compares contents; on every reachable pool the mix is coherent. */
module StrValues {
  import opened ArcStrPool
  import ArcStrSafety

  datatype Str = Static(text: string) | Counted(handle: HandleId)

  datatype Ordering = Less | Equal | Greater

  predicate Live(s: State, x: Str) {
    x.Counted? ==> x.handle in s.handles
  }

  predicate AllAllocated(s: State) {
    forall h <- s.handles :: s.handles[h].block in s.heap
  }

  /** `as_str`: a counted string reads the text behind its block. */
  function AsStr(s: State, x: Str): string
    requires AllAllocated(s) && Live(s, x)
  {
    match x
    case Static(text) => text
    case Counted(h) => s.heap[s.handles[h].block].text
  }

  /** `PartialEq for Str`; two counted strings compare as `ArcStr`, by pointer. */
  predicate Eq(s: State, x: Str, y: Str)
    requires AllAllocated(s) && Live(s, x) && Live(s, y)
  {
    if x.Counted? && y.Counted? then s.handles[x.handle].block == s.handles[y.handle].block
    else AsStr(s, x) == AsStr(s, y)
  }

  /** Lexicographic order; code-point order and UTF-8 byte order coincide. */
  function CmpText(a: string, b: string): Ordering {
    if a == [] then (if b == [] then Equal else Less)
    else if b == [] then Greater
    else if a[0] < b[0] then Less
    else if a[0] > b[0] then Greater
    else CmpText(a[1..], b[1..])
  }

  /** `Ord for Str`. */
  function Cmp(s: State, x: Str, y: Str): Ordering
    requires AllAllocated(s) && Live(s, x) && Live(s, y)
  {
    CmpText(AsStr(s, x), AsStr(s, y))
  }

  lemma {:induction false} CmpTextEqualIff(a: string, b: string)
    ensures CmpText(a, b) == Equal <==> a == b
  {
    if a != [] && b != [] && a[0] == b[0] {
      CmpTextEqualIff(a[1..], b[1..]);
      assert a == [a[0]] + a[1..] && b == [b[0]] + b[1..];
    }
  }

  /** `b` comes behind `a`: the same up to some place, where `a` ends or has the smaller character. */
  predicate Precedes(a: string, b: string) {
    exists n | 0 <= n <= |a| && n < |b| :: a[..n] == b[..n] && (n == |a| || a[n] < b[n])
  }

  lemma {:induction false} CmpTextIsLexicographic(a: string, b: string)
    ensures CmpText(a, b) == Less <==> Precedes(a, b)
  {
    if a != [] && b != [] && a[0] == b[0] {
      CmpTextIsLexicographic(a[1..], b[1..]);
      if Precedes(a[1..], b[1..]) {
        var n :| 0 <= n <= |a[1..]| && n < |b[1..]| && a[1..][..n] == b[1..][..n]
          && (n == |a[1..]| || a[1..][n] < b[1..][n]);
        assert a[..n + 1] == [a[0]] + a[1..][..n] && b[..n + 1] == [b[0]] + b[1..][..n];
      }
      if Precedes(a, b) {
        var n :| 0 <= n <= |a| && n < |b| && a[..n] == b[..n] && (n == |a| || a[n] < b[n]);
        assert n > 0;
        assert a[1..][..n - 1] == a[..n][1..] && b[1..][..n - 1] == b[..n][1..];
      }
    } else if a == [] && b != [] {
      assert a[..0] == b[..0];
    } else if a != [] && b != [] {
      if a[0] < b[0] {
        assert a[..0] == b[..0];
      } else if Precedes(a, b) {
        var n :| 0 <= n <= |a| && n < |b| && a[..n] == b[..n] && (n == |a| || a[n] < b[n]);
        assert false;
      }
    }
  }

  lemma {:induction false} CmpTextReverses(a: string, b: string)
    ensures CmpText(a, b) == Less <==> CmpText(b, a) == Greater
  {
    if a != [] && b != [] && a[0] == b[0] {
      CmpTextReverses(a[1..], b[1..]);
    }
  }

  lemma {:induction false} CmpTextTransitive(a: string, b: string, c: string)
    requires CmpText(a, b) == Less && CmpText(b, c) == Less
    ensures CmpText(a, c) == Less
  {
    if a != [] && a[0] == b[0] == c[0] {
      CmpTextTransitive(a[1..], b[1..], c[1..]);
    }
  }

  lemma ReachableAllocated(s: State)
    requires Reachable(s)
    ensures AllAllocated(s)
  {
    ReachableInv(s);
  }

  /** Equality is equality of contents for every mix of the two variants. */
  lemma EqIsContentEquality(s: State, x: Str, y: Str)
    requires Reachable(s) && Live(s, x) && Live(s, y)
    ensures AllAllocated(s)
    ensures Eq(s, x, y) <==> AsStr(s, x) == AsStr(s, y)
  {
    ReachableAllocated(s);
    ReachableInv(s);
    if x.Counted? && y.Counted? {
      ArcStrSafety.PointerEqualityIsTextEquality(s, x.handle, y.handle);
    }
  }

  /** An equivalence, although its cases compare different things. */
  lemma EqIsEquivalence(s: State, x: Str, y: Str, z: Str)
    requires Reachable(s) && Live(s, x) && Live(s, y) && Live(s, z)
    ensures AllAllocated(s)
    ensures Eq(s, x, x)
    ensures Eq(s, x, y) ==> Eq(s, y, x)
    ensures Eq(s, x, y) && Eq(s, y, z) ==> Eq(s, x, z)
  {
    ReachableAllocated(s);
    EqIsContentEquality(s, x, y);
    EqIsContentEquality(s, y, z);
    EqIsContentEquality(s, x, z);
  }

  /** Equality agrees with the total order, and equal strings feed the same text to any hasher. */
  lemma EqAgreesWithOrderAndHash<T>(s: State, x: Str, y: Str, hash: string -> T)
    requires Reachable(s) && Live(s, x) && Live(s, y)
    ensures AllAllocated(s)
    ensures Eq(s, x, y) <==> Cmp(s, x, y) == Equal
    ensures Cmp(s, x, y) == Less <==> Cmp(s, y, x) == Greater
    ensures Eq(s, x, y) ==> hash(AsStr(s, x)) == hash(AsStr(s, y))
  {
    ReachableAllocated(s);
    EqIsContentEquality(s, x, y);
    CmpTextEqualIff(AsStr(s, x), AsStr(s, y));
    CmpTextReverses(AsStr(s, x), AsStr(s, y));
  }
}
