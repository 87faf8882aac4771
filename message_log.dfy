/**
 * The conversation log is an ArrayList of data-class values. A failed question
 * is retracted with `remove(element)`, which drops the FIRST element that is
 * structurally equal to the argument, not necessarily the one just appended.
 */
module MessageLog {

  /** Position of the first occurrence of `x` in `s`. */
  function IndexOf<T(==)>(s: seq<T>, x: T): (i: nat)
    requires x in s
    ensures i < |s| && s[i] == x
    ensures x !in s[..i]
  {
    if s[0] == x then 0
    else
      var j := IndexOf(s[1..], x);
      assert s[..j + 1] == [s[0]] + s[1..][..j];
      j + 1
  }

  /** `list.remove(x)`: drop the first element equal to `x`; no change when there is none. */
  function RemoveFirst<T(==)>(s: seq<T>, x: T): (r: seq<T>)
    ensures x !in s ==> r == s
    ensures x in s ==> r == s[..IndexOf(s, x)] + s[IndexOf(s, x) + 1..]
  {
    if s == [] then []
    else if s[0] == x then s[1..]
    else
      var rest := RemoveFirst(s[1..], x);
      assert x in s ==> x in s[1..] && IndexOf(s, x) == IndexOf(s[1..], x) + 1;
      [s[0]] + rest
  }

  /** Removing one position from a sequence removes that element from its multiset. */
  lemma MultisetAfterDrop<T>(s: seq<T>, i: nat)
    requires i < |s|
    ensures multiset(s[..i] + s[i + 1..]) + multiset{s[i]} == multiset(s)
  {
    var a, b := s[..i], s[i + 1..];
    assert s == a + [s[i]] + b;
    assert multiset(a + [s[i]] + b) == multiset(a) + multiset{s[i]} + multiset(b);
  }

  /** Retracting an appended message gives back the log's old elements, counted with multiplicity. */
  lemma RetractKeepsElements<T>(log: seq<T>, m: T)
    ensures multiset(RemoveFirst(log + [m], m)) == multiset(log)
  {
    var s := log + [m];
    var i := IndexOf(s, m);
    var r := RemoveFirst(s, m);
    assert r == s[..i] + s[i + 1..];
    MultisetAfterDrop(s, i);
    var R, L, M := multiset(r), multiset(log), multiset{m};
    assert multiset(log + [m]) == L + M;
    forall x ensures R[x] == L[x] {
      assert (R + M)[x] == (L + M)[x];
    }
  }

  /** A message that did not occur in the log before is retracted exactly. */
  lemma RetractFreshRestores<T>(log: seq<T>, m: T)
    requires m !in log
    ensures RemoveFirst(log + [m], m) == log
  {
    var s := log + [m];
    var i := IndexOf(s, m);
    if i < |log| {
      assert false;
    }
    assert s[..i] == log;
  }

  /**
   * Retracting a message right after appending it: the log gets back its old
   * length and its old elements (as a multiset), and its old contents exactly
   * when the message did not occur in it before.
   */
  lemma RetractAppended<T>(log: seq<T>, m: T)
    ensures |RemoveFirst(log + [m], m)| == |log|
    ensures multiset(RemoveFirst(log + [m], m)) == multiset(log)
    ensures m !in log ==> RemoveFirst(log + [m], m) == log
  {
    RetractKeepsElements(log, m);
    if m !in log {
      RetractFreshRestores(log, m);
    }
  }

  /**
   * When the same message already occurs earlier in the log and the log does
   * not end with it, retracting the appended copy removes the earlier one
   * instead: the log keeps its length but is not restored, and the retracted
   * message stays at its end.
   */
  lemma RetractRepeatedReorders<T>(log: seq<T>, m: T)
    requires m in log && log[|log| - 1] != m
    ensures RemoveFirst(log + [m], m) != log
    ensures RemoveFirst(log + [m], m)[|log| - 1] == m
  {
    var s := log + [m];
    var i := IndexOf(s, m);
    assert i < |log| by {
      var k :| 0 <= k < |log| && log[k] == m;
      if i >= |log| { assert false; }
    }
    RetractAppended(log, m);
    var r := RemoveFirst(s, m);
    assert r[|log| - 1] == s[|log|];
  }
}
