/** Removing a channel from a list while ranging over it (the loops of Unsubscribe in
    pkg/eventbus/bus.go).

    The list is the first `len` slots of a backing array.  The loop ranges over the list as it was,
    but reads the slots as they are: deleting a slot shifts the rest down in the same array, so the
    slot after the deleted one is skipped and the last slot is read twice. */
module Unsubscribing {

  /** The list without its first `c`. */
  function Without(list: seq<nat>, c: nat): seq<nat> {
    if list == [] then []
    else if list[0] == c then list[1..]
    else [list[0]] + Without(list[1..], c)
  }

  /** Index of the first c. */
  function First(list: seq<nat>, c: nat): (i: nat)
    requires c in list
    ensures i < |list| && list[i] == c && forall j :: 0 <= j < i ==> list[j] != c
  {
    if list[0] == c then 0 else 1 + First(list[1..], c)
  }

  /** The backing array after slot i was deleted: the last slot keeps its old value. */
  function Deleted(list: seq<nat>, i: nat): (r: seq<nat>)
    requires i < |list|
    ensures |r| == |list|
  {
    list[..i] + list[i + 1..] + [list[|list| - 1]]
  }

  /** The loop meets c again after deleting its first occurrence. */
  predicate MetAgain(list: seq<nat>, c: nat)
    requires c in list
  {
    var i := First(list, c);
    c in Deleted(list, i)[i + 1..]
  }

  /** c occurs in the list once. */
  predicate Once(list: seq<nat>, c: nat) {
    c in list && c !in list[First(list, c) + 1..]
  }

  lemma {:induction false} WithoutIsDeletion(list: seq<nat>, c: nat)
    ensures Without(list, c) == if c in list then list[..First(list, c)] + list[First(list, c) + 1..] else list
  {
    if list != [] && list[0] != c {
      var rest := list[1..];
      WithoutIsDeletion(rest, c);
      assert list == [list[0]] + rest;
      assert c in list <==> c in rest;
      if c in list {
        var i := First(rest, c);
        assert First(list, c) == i + 1;
        assert list[..i + 1] == [list[0]] + rest[..i];
        assert list[i + 2..] == rest[i + 1..];
      }
    }
  }

  /** The removal is clean, closing the channel once and leaving no trace of it, exactly when the
      channel was listed once.  Otherwise either the channel is closed a second time, or, when its
      only other occurrence is right behind the first and not at the end, the loop skips that one and
      the closed channel stays listed. */
  lemma CleanRemovalIff(list: seq<nat>, c: nat)
    requires c in list
    ensures !MetAgain(list, c) && c !in Without(list, c) <==> Once(list, c)
    ensures !MetAgain(list, c) && c in Without(list, c) <==>
              var i := First(list, c);
              i + 2 < |list| && list[i + 1] == c && c !in list[i + 2..]
  {
    WithoutIsDeletion(list, c);
    MetAgainIff(list, c);
    TailMember(list, c, First(list, c));
  }

  /** A list from which the removal of c is clean falls into what comes before and after it. */
  lemma CleanParts(list: seq<nat>, c: nat) returns (before: seq<nat>, after: seq<nat>)
    requires c in list && !MetAgain(list, c) && c !in Without(list, c)
    ensures list == before + ([c] + after) && Without(list, c) == before + after
    ensures c !in before && c !in after
  {
    assert Once(list, c) by {
      CleanRemovalIff(list, c);
    }
    WithoutIsDeletion(list, c);
    var i := First(list, c);
    before, after := list[..i], list[i + 1..];
    SplitAt(list, i);
  }

  lemma SplitAt(list: seq<nat>, i: nat)
    requires i < |list|
    ensures list == list[..i] + ([list[i]] + list[i + 1..])
  {
  }

  lemma MetAgainIff(list: seq<nat>, c: nat)
    requires c in list
    ensures var i := First(list, c);
            MetAgain(list, c) <==> i + 1 < |list| && (c in list[i + 2..] || list[|list| - 1] == c)
  {
    var i, n := First(list, c), |list|;
    if i + 1 < n {
      assert Deleted(list, i)[i + 1..] == list[i + 2..] + [list[n - 1]];
    } else {
      assert Deleted(list, i)[i + 1..] == [];
    }
  }

  lemma TailMember(list: seq<nat>, c: nat, i: nat)
    requires i < |list|
    ensures i + 1 < |list| ==> (c in list[i + 1..] <==> list[i + 1] == c || c in list[i + 2..])
    ensures i + 2 < |list| ==> list[|list| - 1] in list[i + 2..]
    ensures forall x :: x in list[..i] + list[i + 1..] <==> x in list[..i] || x in list[i + 1..]
  {
    if i + 1 < |list| {
      assert list[i + 1..] == [list[i + 1]] + list[i + 2..];
    }
    if i + 2 < |list| {
      assert list[i + 2..][|list| - i - 3] == list[|list| - 1];
    }
  }

  lemma FirstIs(list: seq<nat>, c: nat, i: nat)
    requires i < |list| && list[i] == c && forall k :: 0 <= k < i ==> list[k] != c
    ensures c in list && First(list, c) == i
  {
    var f := First(list, c);
    assert !(f < i) && !(i < f);
  }

  /** Shifts the slots behind i down by one. */
  method Delete(a: array<nat>, len: nat, i: nat)
    requires i < len <= a.Length
    modifies a
    ensures a[..len] == Deleted(old(a[..len]), i)
    ensures forall j :: len <= j < a.Length ==> a[j] == old(a[j])
  {
    for j := i to len - 1
      invariant forall k :: 0 <= k < a.Length ==> a[k] == if i <= k < j then old(a[k + 1]) else old(a[k])
    {
      a[j] := a[j + 1];
    }
  }

  /** The loop over one list; `closed` is whether the channel was closed before.  Gives the new length
      of the list, whether the channel is closed now, and whether a second close panicked. */
  method RemoveWhileRanging(a: array<nat>, len: nat, c: nat, closed: bool)
    returns (newLen: nat, isClosed: bool, fault: bool)
    requires len <= a.Length
    modifies a
    ensures newLen <= len && isClosed == (closed || c in old(a[..len]))
    ensures fault == (c in old(a[..len]) && (closed || MetAgain(old(a[..len]), c)))
    ensures !fault ==> a[..newLen] == Without(old(a[..len]), c)
  {
    ghost var list := a[..len];
    // the slot deleted so far, if any
    ghost var at := -1;
    newLen, isClosed, fault := len, closed, false;
    for i := 0 to len
      invariant !fault && -1 <= at < i
      invariant at == -1 ==>
                  newLen == len && isClosed == closed && a[..len] == list && forall k :: 0 <= k < i ==> list[k] != c
      invariant at >= 0 ==>
                  && !closed && isClosed && newLen == len - 1
                  && list[at] == c && (forall k :: 0 <= k < at ==> list[k] != c)
                  && a[..len] == Deleted(list, at)
                  && forall k :: at < k < i ==> a[..len][k] != c
    {
      assert a[i] == a[..len][i];
      if a[i] == c {
        if isClosed {
          fault := true;
          if at >= 0 {
            FirstIs(list, c, at);
            SecondMeeting(a[..len], list, c, i);
          } else {
            FirstIs(list, c, i);
          }
          return;
        }
        isClosed := true;
        at := i;
        Delete(a, len, i);
        newLen := len - 1;
      }
    }
    if at >= 0 {
      FirstIs(list, c, at);
      assert a[..newLen] == a[..len][..newLen];
      OnceDeleted(list, c);
    } else {
      WithoutIsDeletion(list, c);
    }
  }

  lemma OnceDeleted(list: seq<nat>, c: nat)
    requires c in list
    ensures Deleted(list, First(list, c))[..|list| - 1] == Without(list, c)
  {
    WithoutIsDeletion(list, c);
    var i := First(list, c);
    assert Deleted(list, i)[..|list| - 1] == list[..i] + list[i + 1..];
  }

  lemma SecondMeeting(now: seq<nat>, list: seq<nat>, c: nat, i: nat)
    requires c in list && now == Deleted(list, First(list, c)) && First(list, c) < i < |now| && now[i] == c
    ensures MetAgain(list, c)
  {
    assert now[First(list, c) + 1..][i - First(list, c) - 1] == c;
  }
}
