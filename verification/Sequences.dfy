/** Order-preserving subsequences, and the few sequence and set facts the queues need. */
module Sequences {

  /** Runs are sequences that grow at the end. */
  function Prior<T>(s: seq<T>): (r: seq<T>)
    requires s != []
    ensures |r| == |s| - 1
  {
    s[..|s| - 1]
  }

  function Last<T>(s: seq<T>): T
    requires s != []
  {
    s[|s| - 1]
  }

  lemma FrontThenLast<T>(s: seq<T>)
    requires s != []
    ensures s == s[..|s| - 1] + [s[|s| - 1]]
  {
  }

  /** The elements of `s` flagged by `keep`, in order. */
  function Select<T>(s: seq<T>, keep: seq<bool>): seq<T>
    requires |s| == |keep|
  {
    if s == [] then []
    else
      var front := Select(s[..|s| - 1], keep[..|s| - 1]);
      if keep[|s| - 1] then front + [s[|s| - 1]] else front
  }

  lemma {:induction false} SelectConcat<T>(s: seq<T>, t: seq<T>, ks: seq<bool>, kt: seq<bool>)
    requires |s| == |ks| && |t| == |kt|
    ensures Select(s + t, ks + kt) == Select(s, ks) + Select(t, kt)
    decreases |t|
  {
    if t == [] {
      assert s + t == s && ks + kt == ks;
    } else {
      var n := |t| - 1;
      SelectConcat(s, t[..n], ks, kt[..n]);
      assert (s + t)[..|s + t| - 1] == s + t[..n];
      assert (ks + kt)[..|s + t| - 1] == ks + kt[..n];
    }
  }

  /** Flagging everything selects everything. */
  lemma {:induction false} SelectAll<T>(s: seq<T>)
    ensures Select(s, seq(|s|, _ => true)) == s
  {
    if s == [] {
    } else {
      var n := |s| - 1;
      SelectAll(s[..n]);
      assert seq(|s|, _ => true)[..n] == seq(n, _ => true);
      assert s == s[..n] + [s[n]];
    }
  }

  /** Flagging nothing selects nothing. */
  lemma {:induction false} SelectNone<T>(s: seq<T>)
    ensures Select(s, seq(|s|, _ => false)) == []
  {
    if s == [] {
    } else {
      var n := |s| - 1;
      SelectNone(s[..n]);
      assert seq(|s|, _ => false)[..n] == seq(n, _ => false);
    }
  }

  // ----- Subsequences -----

  /** `a` arises from `b` by deleting elements. */
  ghost predicate Subsequence<T>(a: seq<T>, b: seq<T>)
  {
    exists keep: seq<bool> :: |keep| == |b| && Select(b, keep) == a
  }

  lemma SelectIsSubsequence<T>(s: seq<T>, keep: seq<bool>)
    requires |s| == |keep|
    ensures Subsequence(Select(s, keep), s)
  {
  }

  lemma SubsequenceRefl<T>(a: seq<T>)
    ensures Subsequence(a, a)
  {
    SelectAll(a);
  }

  lemma SubsequenceConcat<T>(a: seq<T>, b: seq<T>, c: seq<T>, d: seq<T>)
    requires Subsequence(a, b) && Subsequence(c, d)
    ensures Subsequence(a + c, b + d)
  {
    var keep: seq<bool> :| |keep| == |b| && Select(b, keep) == a;
    var more: seq<bool> :| |more| == |d| && Select(d, more) == c;
    SelectConcat(b, d, keep, more);
  }

  /** Selecting twice is selecting once. */
  lemma {:induction false} SelectTwice<T>(s: seq<T>, keep: seq<bool>, again: seq<bool>) returns (both: seq<bool>)
    requires |s| == |keep| && |Select(s, keep)| == |again|
    ensures |both| == |s| && Select(s, both) == Select(Select(s, keep), again)
  {
    if s == [] {
      both := [];
    } else {
      var n := |s| - 1;
      var front := Select(s[..n], keep[..n]);
      if keep[n] {
        both := SelectTwice(s[..n], keep[..n], again[..|front|]);
        both := both + [again[|front|]];
        assert both[..n] + [both[n]] == both;
        assert (front + [s[n]])[..|front|] == front;
      } else {
        both := SelectTwice(s[..n], keep[..n], again);
        both := both + [false];
      }
    }
  }

  lemma SubsequenceTrans<T>(a: seq<T>, b: seq<T>, c: seq<T>)
    requires Subsequence(a, b) && Subsequence(b, c)
    ensures Subsequence(a, c)
  {
    var keep: seq<bool> :| |keep| == |c| && Select(c, keep) == b;
    var again: seq<bool> :| |again| == |b| && Select(b, again) == a;
    var both := SelectTwice(c, keep, again);
  }

  /** Nothing is a subsequence of anything. */
  lemma SubsequenceNone<T>(b: seq<T>)
    ensures Subsequence([], b)
  {
    SelectNone(b);
  }

  lemma SubsequenceBothGrow<T>(a: seq<T>, b: seq<T>, more: seq<T>)
    requires Subsequence(a, b)
    ensures Subsequence(a + more, b + more)
  {
    SubsequenceRefl(more);
    SubsequenceConcat(a, b, more, more);
  }

  lemma SubsequenceGrows<T>(a: seq<T>, b: seq<T>, more: seq<T>)
    requires Subsequence(a, b)
    ensures Subsequence(a, b + more)
  {
    SubsequenceNone(more);
    SubsequenceConcat(a, b, [], more);
    assert a + [] == a;
  }

  /** Deleting a block from the middle leaves a subsequence. */
  lemma SubsequenceDelete<T>(a: seq<T>, gone: seq<T>, b: seq<T>)
    ensures Subsequence(a + b, a + gone + b)
  {
    SubsequenceRefl(a);
    SubsequenceRefl(b);
    SubsequenceNone(gone);
    SubsequenceConcat(a, a, [], gone);
    assert a + [] == a;
    SubsequenceConcat(a, a + gone, b, b);
  }

  /** Fewer are selected than offered exactly when something is not flagged. */
  lemma {:induction false} SelectLength<T>(s: seq<T>, keep: seq<bool>)
    requires |s| == |keep|
    ensures |Select(s, keep)| <= |s|
    ensures false !in keep <==> |Select(s, keep)| == |s|
    ensures false !in keep ==> Select(s, keep) == s
  {
    if s == [] {
    } else {
      var n := |s| - 1;
      SelectLength(s[..n], keep[..n]);
      assert keep == keep[..n] + [keep[n]];
      assert s == s[..n] + [s[n]];
    }
  }

  /** The newest `n` elements of a queue. */
  function LastN<T>(s: seq<T>, n: nat): (r: seq<T>)
    ensures |r| <= n
    ensures |s| <= n ==> r == s
  {
    if |s| <= n then s else s[|s| - n..]
  }

  /** Deleting from the front leaves a subsequence. */
  lemma SuffixIsSubsequence<T>(s: seq<T>, k: nat)
    requires k <= |s|
    ensures Subsequence(s[k..], s)
  {
    SubsequenceDelete([], s[..k], s[k..]);
    assert [] + s[k..] == s[k..];
    assert [] + s[..k] + s[k..] == s;
  }

  lemma LastNIsSubsequence<T>(s: seq<T>, n: nat)
    ensures Subsequence(LastN(s, n), s)
  {
    SuffixIsSubsequence(s, |s| - |LastN(s, n)|);
    assert LastN(s, n) == s[|s| - |LastN(s, n)|..];
  }

  lemma FrontGone<T>(s: seq<T>, t: seq<T>)
    requires s != []
    ensures Subsequence(s[1..] + t, s + t)
  {
    SuffixIsSubsequence(s + t, 1);
    assert (s + t)[1..] == s[1..] + t;
  }

  /** What was selected from the part that is gone, followed by the part still there. */
  lemma SelectThenRest<T>(gone: seq<T>, keep: seq<bool>, rest: seq<T>)
    requires |gone| == |keep|
    ensures Subsequence(Select(gone, keep) + rest, gone + rest)
  {
    SelectIsSubsequence(gone, keep);
    SubsequenceRefl(rest);
    SubsequenceConcat(Select(gone, keep), gone, rest, rest);
  }

  lemma Regroup<T>(s: seq<T>, t: seq<T>, u: seq<T>)
    ensures s + t + u == s + (t + u)
  {
  }

  /** A loop over a set: at the start nothing is done, each step moves one element, at the
      end everything is done. */
  lemma NoneDone<T>(all: set<T>)
    ensures all - all == {} && all - {} == all
  {
  }

  lemma OneMoreDone<T>(all: set<T>, todo: set<T>, x: T)
    requires x in todo && todo <= all
    ensures all - (todo - {x}) == (all - todo) + {x}
  {
  }
}
