/**
 * `compactArgv` of `fit.c`: after the FIT front end has blanked the options it
 * consumed, the argument vector is compacted in place so that the selected
 * test sees its own arguments without holes. Each pass removes the first
 * NULL entry by shifting the rest of the vector down one slot, and the
 * function recurses until no NULL is left, giving up at depth 20.
 */
module FitArgv {
  import opened FitTypes

  /** `MAX_RECURS_DEPTH`. */
  const MAX_RECURS_DEPTH: nat := 20

  type Arg = Option<string>

  /** The non-NULL entries of `s`, in order. */
  function Compacted(s: seq<Arg>): (r: seq<Arg>)
    ensures |r| <= |s|
    ensures forall i :: 0 <= i < |r| ==> r[i].Some?
  {
    if s == [] then []
    else Compacted(s[..|s| - 1]) + (if s[|s| - 1].Some? then [s[|s| - 1]] else [])
  }

  /** The number of NULL entries of `s`. */
  function NullCount(s: seq<Arg>): (r: nat)
    ensures r + |Compacted(s)| == |s|
  {
    if s == [] then 0
    else NullCount(s[..|s| - 1]) + (if s[|s| - 1].None? then 1 else 0)
  }

  /** The index of the first NULL entry of `s`, or `|s|` when there is none. */
  function FirstNull(s: seq<Arg>): (f: nat)
    ensures f <= |s|
    ensures forall i :: 0 <= i < f ==> s[i].Some?
    ensures f < |s| ==> s[f].None?
  {
    if s == [] then 0
    else if s[0].None? then 0
    else 1 + FirstNull(s[1..])
  }

  /**
   * One pass of the loop over `avp[0..n)`: the first NULL at `f` is dropped,
   * the entries `avp[f+1..n]` (including the terminator `avp[n]`) move down a
   * slot, and `avp[n]` becomes NULL. Without a NULL the vector is unchanged.
   */
  function Pass(a: seq<Arg>, n: nat): (r: seq<Arg>)
    requires n < |a|
    ensures |r| == |a|
  {
    var f := FirstNull(a[..n]);
    if f == n then a else a[..f] + a[f + 1..n + 1] + [None] + a[n + 1..]
  }

  // ---------------------------------------------------------------------
  // Lemmas about the sequence functions
  // ---------------------------------------------------------------------

  lemma {:induction false} CompactedAppend(a: seq<Arg>, b: seq<Arg>)
    ensures Compacted(a + b) == Compacted(a) + Compacted(b)
    ensures NullCount(a + b) == NullCount(a) + NullCount(b)
    decreases |b|
  {
    if b == [] {
      assert a + b == a;
    } else {
      assert (a + b)[..|a + b| - 1] == a + b[..|b| - 1];
      CompactedAppend(a, b[..|b| - 1]);
    }
  }

  lemma CompactedOne(x: Arg)
    ensures Compacted([x]) == if x.Some? then [x] else []
    ensures NullCount([x]) == if x.None? then 1 else 0
  {
    assert [x][..0] == [];
  }

  /** A vector without NULL entries is its own compaction. */
  lemma {:induction false} CompactedNoNull(s: seq<Arg>)
    requires forall i :: 0 <= i < |s| ==> s[i].Some?
    ensures Compacted(s) == s && NullCount(s) == 0
    decreases |s|
  {
    if s != [] {
      CompactedNoNull(s[..|s| - 1]);
    }
  }

  /** A pass that finds a NULL keeps the non-NULL entries, in order, and removes one NULL. */
  lemma PassRemovesOneNull(a: seq<Arg>, n: nat)
    requires n < |a| && FirstNull(a[..n]) < n
    ensures Compacted(Pass(a, n)[..n - 1]) == Compacted(a[..n])
    ensures NullCount(Pass(a, n)[..n - 1]) + 1 == NullCount(a[..n])
    ensures Pass(a, n)[n - 1] == a[n] && Pass(a, n)[n] == None
    ensures Pass(a, n)[n + 1..] == a[n + 1..]
  {
    var f := FirstNull(a[..n]);
    PassShape(a, n, f);
    SplitAround(a, n, f);
    DropOneNull(a[..f], a[f], a[f + 1..n]);
  }

  /** Where a pass puts each entry when it finds its first NULL at `f`. */
  lemma PassShape(a: seq<Arg>, n: nat, f: nat)
    requires n < |a| && f == FirstNull(a[..n]) && f < n
    ensures Pass(a, n)[..n - 1] == a[..f] + a[f + 1..n]
    ensures Pass(a, n)[n - 1] == a[n] && Pass(a, n)[n] == None
    ensures Pass(a, n)[n + 1..] == a[n + 1..]
  {
    var r := Pass(a, n);
    assert r == a[..f] + a[f + 1..n + 1] + [None] + a[n + 1..];
    var want := a[..f] + a[f + 1..n];
    assert |r[..n - 1]| == |want| == n - 1;
    forall i | 0 <= i < n - 1
      ensures r[i] == want[i]
    {
      if i < f {
        assert r[i] == a[i] && want[i] == a[i];
      } else {
        assert r[i] == a[i + 1] && want[i] == a[i + 1];
      }
    }
  }

  lemma SplitAround(a: seq<Arg>, n: nat, f: nat)
    requires f < n <= |a|
    ensures a[..n] == a[..f] + [a[f]] + a[f + 1..n]
  {
    var want := a[..f] + [a[f]] + a[f + 1..n];
    assert |want| == n;
    forall i | 0 <= i < n
      ensures a[..n][i] == want[i]
    {
      if i < f {
      } else if i == f {
      } else {
        assert want[i] == a[f + 1..n][i - f - 1];
      }
    }
  }

  /** Dropping a NULL `x` between `p` and `q` keeps the compaction and removes one NULL. */
  lemma DropOneNull(p: seq<Arg>, x: Arg, q: seq<Arg>)
    requires x.None?
    ensures Compacted(p + q) == Compacted(p + [x] + q)
    ensures NullCount(p + q) + 1 == NullCount(p + [x] + q)
  {
    CompactedAppend(p, q);
    CompactedAppend(p + [x], q);
    CompactedAppend(p, [x]);
    CompactedOne(x);
  }

  // ---------------------------------------------------------------------
  // compactArgv
  // ---------------------------------------------------------------------

  /**
   * The loop of `compactArgv` over `avp[0..argCount)`: each NULL entry takes
   * the next entry's value and passes its NULL on. Returns `nullFound`.
   */
  method CompactPass(avp: array<Arg>, argCount: nat) returns (nullFound: nat)
    requires argCount < avp.Length
    modifies avp
    ensures avp[..] == Pass(old(avp[..]), argCount)
    ensures nullFound == argCount - FirstNull(old(avp[..argCount]))
  {
    ghost var a := avp[..];
    ghost var f := FirstNull(a[..argCount]);
    nullFound := 0;
    var idx := 0;
    while idx < argCount
      invariant 0 <= idx <= argCount
      invariant idx <= f ==> nullFound == 0 && forall i :: 0 <= i < avp.Length ==> avp[i] == a[i]
      invariant f < idx ==> nullFound == idx - f && avp[idx] == None
      invariant f < idx ==> forall i :: 0 <= i < f ==> avp[i] == a[i]
      invariant f < idx ==> forall i :: f <= i < idx ==> avp[i] == a[i + 1]
      invariant f < idx ==> forall i :: idx < i < avp.Length ==> avp[i] == a[i]
    {
      if avp[idx] == None {
        avp[idx] := avp[idx + 1];
        avp[idx + 1] := None;
        nullFound := nullFound + 1;
      }
      idx := idx + 1;
    }
    PassPointwise(a, avp[..], argCount);
  }

  /** The pointwise description of one pass. */
  lemma PassPointwise(a: seq<Arg>, r: seq<Arg>, n: nat)
    requires n < |a| == |r|
    requires var f := FirstNull(a[..n]);
      (f == n ==> r == a) &&
      (f < n ==> r[n] == None && (forall i :: 0 <= i < f ==> r[i] == a[i]) &&
                 (forall i :: f <= i < n ==> r[i] == a[i + 1]) &&
                 (forall i :: n < i < |r| ==> r[i] == a[i]))
    ensures r == Pass(a, n)
  {
    var f := FirstNull(a[..n]);
    if f < n {
      var p := a[..f] + a[f + 1..n + 1] + [None] + a[n + 1..];
      forall i | 0 <= i < |r|
        ensures r[i] == p[i]
      {
        if i < f {
          assert p[i] == a[i];
        } else if i < n {
          assert p[i] == a[f + 1..n + 1][i - f];
        } else if i > n {
          assert p[i] == a[n + 1..][i - n - 1];
        }
      }
    }
  }

  /**
   * `compactArgv(argCount, avp, depth)`. The vector is NULL-terminated
   * (`avp[argCount]` is NULL), as `argv` is. The result is the number of
   * non-NULL entries, now packed in order at the front of the vector with
   * NULL up to the old terminator; it is -1 when the passes needed would
   * reach depth 20, and also when every entry is NULL (a single NULL entry
   * is never dropped, so the recursion runs out).
   */
  method CompactArgv(argCount: nat, avp: array<Arg>, depth: nat) returns (r: int)
    requires argCount < avp.Length && avp[argCount] == None
    modifies avp
    ensures var k := |Compacted(old(avp[..argCount]))|;
      r == if depth + NullCount(old(avp[..argCount])) >= MAX_RECURS_DEPTH || (argCount > 0 && k == 0)
           then -1 else k
    ensures r >= 0 ==> avp[..r] == Compacted(old(avp[..argCount]))
    ensures r >= 0 ==> forall i :: r <= i <= argCount ==> avp[i] == None
    ensures avp[argCount + 1..] == old(avp[argCount + 1..])
    decreases MAX_RECURS_DEPTH - depth
  {
    if depth >= MAX_RECURS_DEPTH {
      return -1;
    }
    ghost var a := avp[..];
    var nullFound := CompactPass(avp, argCount);
    if nullFound != 0 {
      PassRemovesOneNull(a, argCount);
      var n := argCount;
      if argCount > 1 && avp[argCount - 1] == None {
        n := argCount - 1;
      }
      if n == argCount {
        // argCount is 1 and its only entry was NULL: the vector is [NULL, NULL, ...]
        assert avp[..1] == [None];
        CompactedOne(None);
      } else {
        assert avp[..] == Pass(a, argCount);
      }
      r := CompactArgv(n, avp, depth + 1);
      if n == argCount {
        assert a[..1] == [None];
        CompactedOne(None);
      }
    } else {
      CompactedNoNull(a[..argCount]);
      r := argCount;
      assert avp[..] == a;
      assert avp[..r] == a[..argCount];
    }
  }
}
