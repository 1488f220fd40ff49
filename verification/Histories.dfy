/** Facts about histories of steps, apart from what the steps do: `p(k)` is
    what holds before step k. */
module Histories {

  /** A step keeps what is held unless it loses it, may bring it, and never does both. */
  ghost predicate HoldStep(held: nat -> bool, loses: nat -> bool, brings: nat -> bool, k: nat)
  {
    (held(k + 1) <==> (held(k) && !loses(k)) || brings(k)) && !(loses(k) && brings(k))
  }

  ghost predicate Holding(held: nat -> bool, loses: nat -> bool, brings: nat -> bool, n: nat)
  {
    forall k: nat :: k < n ==> HoldStep(held, loses, brings, k)
  }

  /** What falls due is held then. */
  ghost predicate DueStep(held: nat -> bool, due: nat -> bool, k: nat) { due(k + 1) && !due(k) ==> held(k + 1) }

  ghost predicate HeldWhenDue(held: nat -> bool, due: nat -> bool, n: nat)
  {
    !due(0) && forall k: nat :: k < n ==> DueStep(held, due, k)
  }

  /** Among the first n steps one loses it and no later one brings it. */
  ghost predicate LostForGood(loses: nat -> bool, brings: nat -> bool, n: nat)
  {
    exists i: nat :: i < n && loses(i) && forall j: nat :: i < j < n ==> !brings(j)
  }

  lemma {:induction false} LostIsGone(held: nat -> bool, loses: nat -> bool, brings: nat -> bool, i: nat, n: nat)
    requires Holding(held, loses, brings, n) && i < n && loses(i) && forall j: nat :: i < j < n ==> !brings(j)
    ensures !held(n)
  {
    assert HoldStep(held, loses, brings, n - 1);
    if i < n - 1 { LostIsGone(held, loses, brings, i, n - 1); }
  }

  lemma {:induction false} GoneWasLost(held: nat -> bool, loses: nat -> bool, brings: nat -> bool,
                                       due: nat -> bool, n: nat)
    requires Holding(held, loses, brings, n) && HeldWhenDue(held, due, n) && due(n) && !held(n)
    ensures LostForGood(loses, brings, n)
  {
    var m := n - 1;
    assert HoldStep(held, loses, brings, m) && DueStep(held, due, m);
    if held(m) {
      assert loses(m);
    } else {
      GoneWasLost(held, loses, brings, due, m);
    }
  }

  /** What is due, and is held when it falls due, is held at the end exactly if it was not lost for good. */
  lemma HeldUnlessLost(held: nat -> bool, loses: nat -> bool, brings: nat -> bool, due: nat -> bool, n: nat)
    requires Holding(held, loses, brings, n) && HeldWhenDue(held, due, n) && due(n)
    ensures held(n) <==> !LostForGood(loses, brings, n)
  {
    if LostForGood(loses, brings, n) {
      var i: nat :| i < n && loses(i) && forall j: nat :: i < j < n ==> !brings(j);
      LostIsGone(held, loses, brings, i, n);
    } else if !held(n) {
      GoneWasLost(held, loses, brings, due, n);
    }
  }

  /** Copies of an item behind a list that can lose its entry: an offer adds a
      copy exactly when the item is not listed, and lists it; otherwise an
      unlisted item stays unlisted, and only a loss unlists one that has a copy. */
  ghost predicate CopyStep(copies: nat -> nat, listed: nat -> bool, offered: nat -> bool, lost: nat -> bool, k: nat)
  {
    && copies(k + 1) == (if offered(k) && !listed(k) then copies(k) + 1 else copies(k))
    && (offered(k) ==> listed(k + 1))
    && (!offered(k) && !listed(k) ==> !listed(k + 1))
    && (listed(k) && !listed(k + 1) && copies(k) > 0 ==> lost(k))
    && (lost(k) ==> !listed(k + 1) && copies(k) > 0)
  }

  ghost predicate Copying(copies: nat -> nat, listed: nat -> bool, offered: nat -> bool, lost: nat -> bool, n: nat)
  {
    copies(0) == 0 && forall k: nat :: k < n ==> CopyStep(copies, listed, offered, lost, k)
  }

  ghost predicate OfferedAfterLoss(offered: nat -> bool, lost: nat -> bool, n: nat)
  {
    exists i: nat, j: nat :: i < j < n && lost(i) && offered(j)
  }

  lemma {:induction false} UnlistedWasLost(copies: nat -> nat, listed: nat -> bool, offered: nat -> bool,
                                           lost: nat -> bool, n: nat) returns (i: nat)
    requires Copying(copies, listed, offered, lost, n) && copies(n) > 0 && !listed(n)
    ensures i < n && lost(i)
  {
    var m := n - 1;
    assert CopyStep(copies, listed, offered, lost, m);
    if listed(m) {
      i := m;
    } else {
      i := UnlistedWasLost(copies, listed, offered, lost, m);
    }
  }

  lemma {:induction false} LostStaysUnlisted(copies: nat -> nat, listed: nat -> bool, offered: nat -> bool,
                                             lost: nat -> bool, i: nat, n: nat)
    requires Copying(copies, listed, offered, lost, n) && i < n && lost(i)
    ensures copies(n) >= 2 || (copies(n) == 1 && !listed(n))
  {
    var m := n - 1;
    assert CopyStep(copies, listed, offered, lost, m);
    if i < m { LostStaysUnlisted(copies, listed, offered, lost, i, m); }
  }

  /** There is a second copy exactly when the item was offered again after its entry was lost. */
  lemma {:induction false} SecondCopyExactly(copies: nat -> nat, listed: nat -> bool, offered: nat -> bool,
                                             lost: nat -> bool, n: nat)
    requires Copying(copies, listed, offered, lost, n)
    ensures copies(n) >= 2 <==> OfferedAfterLoss(offered, lost, n)
  {
    if n > 0 {
      var m := n - 1;
      assert CopyStep(copies, listed, offered, lost, m);
      SecondCopyExactly(copies, listed, offered, lost, m);
      if copies(n) >= 2 && copies(m) < 2 {
        var i := UnlistedWasLost(copies, listed, offered, lost, m);
        assert i < m < n && lost(i) && offered(m);
      } else if OfferedAfterLoss(offered, lost, n) && copies(m) < 2 {
        var i: nat, j: nat :| i < j < n && lost(i) && offered(j);
        assert j == m;
        LostStaysUnlisted(copies, listed, offered, lost, i, m);
      }
    }
  }
}
