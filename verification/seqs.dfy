/** Facts about sequences shared by the searches. */
module Seqs {

  /** Removing position `i` keeps every other element. */
  lemma RemoveKeepsOthers<T>(s: seq<T>, i: nat, x: T)
    requires i < |s| && x in s && x != s[i]
    ensures x in s[..i] + s[i + 1..]
  {
    var k :| 0 <= k < |s| && s[k] == x;
    if k < i {
      assert (s[..i] + s[i + 1..])[k] == x;
    } else {
      assert (s[..i] + s[i + 1..])[k - 1] == x;
    }
  }

  /** Removing position `i` adds nothing. */
  lemma RemoveSubset<T>(s: seq<T>, i: nat)
    requires i < |s|
    ensures forall x :: x in s[..i] + s[i + 1..] ==> x in s
  {
    forall x | x in s[..i] + s[i + 1..] ensures x in s {
      if x in s[..i] {
      } else {
        assert x in s[i + 1..];
      }
    }
  }

  /** Index of the first element of `p` outside `inside`, given that the last one is outside. */
  lemma FirstOutside<T>(p: seq<T>, inside: set<T>) returns (i: nat)
    requires |p| > 0 && p[|p| - 1] !in inside
    ensures i < |p| && p[i] !in inside
    ensures forall j :: 0 <= j < i ==> p[j] in inside
  {
    i := 0;
    while p[i] in inside
      invariant i < |p|
      invariant forall j :: 0 <= j < i ==> p[j] in inside
      decreases |p| - i
    {
      i := i + 1;
    }
  }

  /** `Vec::reverse`. */
  function Reverse<T>(s: seq<T>): (r: seq<T>)
    ensures |r| == |s|
    ensures forall i :: 0 <= i < |s| ==> r[i] == s[|s| - 1 - i]
  {
    if |s| == 0 then [] else Reverse(s[1..]) + [s[0]]
  }

  /** Pushing then reversing puts the pushed element first. */
  lemma ReverseSnoc<T>(s: seq<T>, x: T)
    ensures Reverse(s + [x]) == [x] + Reverse(s)
  {
    var r, t := Reverse(s + [x]), [x] + Reverse(s);
    assert forall i :: 0 <= i < |r| ==> r[i] == t[i];
  }
}
