/** The order in which healthy-peer candidates are tried. */
module PeerOrder {
  import opened Common
  import opened Machines

  predicate Older(a: Machine, b: Machine) {
    a.creation < b.creation || (a.creation == b.creation && StringLess(a.name, b.name))
  }

  predicate Eligible(m: Machine, victim: Machine) {
    m.name != victim.name && m.deletion.None? && EtcdLeavingKey !in m.annotations
  }

  predicate HasNodeRef(m: Machine) {
    m.nodeRef != ""
  }

  /** Node-ref holders first, then oldest. */
  predicate Precedes(a: Machine, b: Machine) {
    if HasNodeRef(a) == HasNodeRef(b) then Older(a, b) else HasNodeRef(a)
  }

  ghost predicate DistinctNames(ms: seq<Machine>) {
    forall i, j :: 0 <= i < j < |ms| ==> ms[i].name != ms[j].name
  }

  ghost predicate StrictlyOrdered(ms: seq<Machine>) {
    forall i, j :: 0 <= i < j < |ms| ==> Precedes(ms[i], ms[j])
  }

  lemma PrecedesTransitive(a: Machine, b: Machine, c: Machine)
    requires Precedes(a, b) && Precedes(b, c)
    ensures Precedes(a, c)
  {
    if a.creation == b.creation == c.creation && StringLess(a.name, b.name) && StringLess(b.name, c.name) {
      StringLessTransitive(a.name, b.name, c.name);
    }
  }

  lemma PrecedesIrreflexive(a: Machine)
    ensures !Precedes(a, a)
  {
    StringLessIrreflexive(a.name);
  }

  // --- the specification ----------------------------------------------------

  function Insert(m: Machine, sorted: seq<Machine>): seq<Machine> {
    if sorted == [] then [m]
    else if Older(sorted[0], m) then [sorted[0]] + Insert(m, sorted[1..])
    else [m] + sorted
  }

  /** Oldest first, ties broken by name. */
  function SortedByAge(ms: seq<Machine>): seq<Machine> {
    if ms == [] then [] else Insert(ms[|ms| - 1], SortedByAge(ms[..|ms| - 1]))
  }

  function Keep(ms: seq<Machine>, victim: Machine, withNodeRef: bool): seq<Machine> {
    if ms == [] then []
    else
      Keep(ms[..|ms| - 1], victim, withNodeRef) +
      (if Eligible(ms[|ms| - 1], victim) && HasNodeRef(ms[|ms| - 1]) == withNodeRef then [ms[|ms| - 1]] else [])
  }

  function OrderPeers(ms: seq<Machine>, victim: Machine): seq<Machine> {
    SortedByAge(Keep(ms, victim, true)) + SortedByAge(Keep(ms, victim, false))
  }

  // --- what the order is ----------------------------------------------------

  lemma {:induction false} InsertKeeps(m: Machine, sorted: seq<Machine>)
    ensures forall x :: x in Insert(m, sorted) <==> x == m || x in sorted
    ensures |Insert(m, sorted)| == |sorted| + 1
  {
    if sorted != [] && Older(sorted[0], m) {
      InsertKeeps(m, sorted[1..]);
      assert sorted == [sorted[0]] + sorted[1..];
    }
  }

  ghost predicate OrderedByAge(ms: seq<Machine>) {
    forall i, j :: 0 <= i < j < |ms| ==> Older(ms[i], ms[j])
  }

  lemma OlderTransitive(a: Machine, b: Machine, c: Machine)
    requires Older(a, b) && Older(b, c)
    ensures Older(a, c)
  {
    PrecedesTransitive(a.(nodeRef := ""), b.(nodeRef := ""), c.(nodeRef := ""));
  }

  lemma {:induction false} InsertOrdered(m: Machine, sorted: seq<Machine>)
    requires OrderedByAge(sorted)
    requires forall x :: x in sorted ==> x.name != m.name
    ensures OrderedByAge(Insert(m, sorted))
  {
    if sorted == [] {
    } else if Older(sorted[0], m) {
      InsertKeeps(m, sorted[1..]);
      InsertOrdered(m, sorted[1..]);
      var rest := Insert(m, sorted[1..]);
      forall j | 0 <= j < |rest| ensures Older(sorted[0], rest[j]) {
        assert rest[j] in rest;
        if rest[j] != m {
          var k :| 0 <= k < |sorted| - 1 && sorted[1..][k] == rest[j];
          assert Older(sorted[0], sorted[k + 1]);
        }
      }
    } else {
      assert sorted[0] in sorted;
      StringLessTotal(sorted[0].name, m.name);
      forall j | 1 <= j < |sorted| ensures Older(m, sorted[j]) {
        OlderTransitive(m, sorted[0], sorted[j]);
      }
    }
  }

  lemma {:induction false} SortedByAgeSorts(ms: seq<Machine>)
    ensures forall x :: x in SortedByAge(ms) <==> x in ms
    ensures |SortedByAge(ms)| == |ms|
    ensures DistinctNames(ms) ==> OrderedByAge(SortedByAge(ms))
  {
    if ms != [] {
      var front, last := ms[..|ms| - 1], ms[|ms| - 1];
      assert ms == front + [last];
      SortedByAgeSorts(front);
      InsertKeeps(last, SortedByAge(front));
      if DistinctNames(ms) {
        InsertOrdered(last, SortedByAge(front));
      }
    }
  }

  lemma {:induction false} KeepKeeps(ms: seq<Machine>, victim: Machine, withNodeRef: bool)
    ensures forall x :: x in Keep(ms, victim, withNodeRef) <==>
                          x in ms && Eligible(x, victim) && HasNodeRef(x) == withNodeRef
    ensures DistinctNames(ms) ==> DistinctNames(Keep(ms, victim, withNodeRef))
    ensures |Keep(ms, victim, withNodeRef)| <= |ms|
  {
    if ms != [] {
      var front, last := ms[..|ms| - 1], ms[|ms| - 1];
      assert ms == front + [last];
      KeepKeeps(front, victim, withNodeRef);
      if DistinctNames(ms) {
        var kept := Keep(front, victim, withNodeRef);
        forall i | 0 <= i < |kept| ensures kept[i].name != last.name {
          assert kept[i] in kept;
          var k :| 0 <= k < |front| && front[k] == kept[i];
          assert ms[k].name != ms[|ms| - 1].name;
        }
      }
    }
  }

  /** Exactly the eligible machines, node-ref holders first, each group strictly
      ascending by creation time and name. */
  lemma OrderPeersOrders(ms: seq<Machine>, victim: Machine)
    ensures forall x :: x in OrderPeers(ms, victim) <==> x in ms && Eligible(x, victim)
    ensures DistinctNames(ms) ==> StrictlyOrdered(OrderPeers(ms, victim))
  {
    var first, second := Keep(ms, victim, true), Keep(ms, victim, false);
    KeepKeeps(ms, victim, true);
    KeepKeeps(ms, victim, false);
    SortedByAgeSorts(first);
    SortedByAgeSorts(second);
    var a, b := SortedByAge(first), SortedByAge(second);
    assert forall i :: 0 <= i < |a| ==> a[i] in a && HasNodeRef(a[i]);
    assert forall i :: 0 <= i < |b| ==> b[i] in b && !HasNodeRef(b[i]);
  }

  /** The same, said of the fields: the listed machines that are not the victim, not being
      deleted and not leaving etcd already; those with a node before those without; within
      each group by creation, and by name among those created together. */
  lemma PeersExactly(ms: seq<Machine>, victim: Machine)
    ensures forall m :: m in OrderPeers(ms, victim) <==>
              m in ms && m.name != victim.name && m.deletion.None? && EtcdLeavingKey !in m.annotations
    ensures var peers := OrderPeers(ms, victim);
            DistinctNames(ms) ==>
              forall i, j :: 0 <= i < j < |peers| ==>
                var a, b := peers[i], peers[j];
                if (a.nodeRef == "") == (b.nodeRef == "")
                then a.creation < b.creation || (a.creation == b.creation && StringLess(a.name, b.name))
                else a.nodeRef != ""
  {
    OrderPeersOrders(ms, victim);
    var peers := OrderPeers(ms, victim);
    assert DistinctNames(ms) ==> forall i, j :: 0 <= i < j < |peers| ==> Precedes(peers[i], peers[j]);
  }

  /** Two strictly ordered lists of the same machines are the same list. */
  lemma {:induction false} OrderedListsAgree(a: seq<Machine>, b: seq<Machine>)
    requires StrictlyOrdered(a) && StrictlyOrdered(b)
    requires forall x :: x in a <==> x in b
    ensures a == b
  {
    if a == [] {
      assert forall i :: 0 <= i < |b| ==> b[i] in b;
    } else {
      assert a[0] in b;
      assert b[0] in a;
      HeadsAgree(a, b);
      forall x ensures x in a[1..] <==> x in b[1..] {
        TailMember(a, x);
        TailMember(b, x);
      }
      OrderedListsAgree(a[1..], b[1..]);
      assert a == [a[0]] + a[1..] && b == [b[0]] + b[1..];
    }
  }

  lemma HeadsAgree(a: seq<Machine>, b: seq<Machine>)
    requires StrictlyOrdered(a) && StrictlyOrdered(b)
    requires a != [] && b != [] && a[0] in b && b[0] in a
    ensures a[0] == b[0]
  {
    var i :| 0 <= i < |a| && a[i] == b[0];
    var j :| 0 <= j < |b| && b[j] == a[0];
    if i > 0 && j > 0 {
      PrecedesTransitive(a[0], b[0], a[0]);
      PrecedesIrreflexive(a[0]);
    }
  }

  lemma TailMember(a: seq<Machine>, x: Machine)
    requires a != [] && StrictlyOrdered(a)
    ensures x in a[1..] <==> x in a && x != a[0]
  {
    assert a == [a[0]] + a[1..];
    if x in a[1..] {
      var i :| 0 <= i < |a| - 1 && a[1..][i] == x;
      assert Precedes(a[0], a[i + 1]);
      PrecedesIrreflexive(x);
    }
  }

  /** The order depends on which machines are listed, not on the order of the listing. */
  lemma OrderPeersCanonical(a: seq<Machine>, b: seq<Machine>, victim: Machine)
    requires DistinctNames(a) && DistinctNames(b)
    requires forall x :: x in a <==> x in b
    ensures OrderPeers(a, victim) == OrderPeers(b, victim)
  {
    OrderPeersOrders(a, victim);
    OrderPeersOrders(b, victim);
    OrderedListsAgree(OrderPeers(a, victim), OrderPeers(b, victim));
  }

  // --- the code -------------------------------------------------------------

  /** Go's `sort.Slice` on the machines of one list, in place: an insertion sort
      stands for the library's. */
  method SortByAge(a: array<Machine>)
    modifies a
    ensures a[..] == SortedByAge(old(a[..]))
  {
    ghost var was := a[..];
    var n := 0;
    while n < a.Length
      invariant 0 <= n <= a.Length
      invariant a[..n] == SortedByAge(was[..n])
      invariant a[n..] == was[n..]
    {
      assert was[..n + 1][..n] == was[..n] && was[..n + 1][n] == was[n] == a[n];
      InsertLast(a, n);
      n := n + 1;
    }
    assert a[..n] == a[..] && was[..n] == was;
  }

  lemma {:induction false} InsertSplit(m: Machine, sorted: seq<Machine>, p: nat)
    requires p <= |sorted|
    requires forall i :: 0 <= i < p ==> Older(sorted[i], m)
    requires p < |sorted| ==> !Older(sorted[p], m)
    ensures Insert(m, sorted) == sorted[..p] + [m] + sorted[p..]
  {
    if p > 0 {
      InsertSplit(m, sorted[1..], p - 1);
      assert sorted[1..][..p - 1] == sorted[1..p] && sorted[1..][p - 1..] == sorted[p..];
      assert sorted[..p] == [sorted[0]] + sorted[1..p];
    }
  }

  lemma PutBetween(s: seq<Machine>, p: nat, m: Machine)
    requires p < |s|
    ensures s[p := m] == s[..p] + [m] + s[p + 1..]
  {
  }

  /** Moves `a[n]` down into the sorted part below it. */
  method InsertLast(a: array<Machine>, n: nat)
    requires n < a.Length
    modifies a
    ensures a[..n + 1] == Insert(old(a[n]), old(a[..n]))
    ensures a[n + 1..] == old(a[n + 1..])
  {
    var m := a[n];
    ghost var was := a[..n];
    var p := 0;
    while p < n && Older(a[p], m)
      invariant 0 <= p <= n
      invariant forall i :: 0 <= i < p ==> Older(was[i], m)
    {
      p := p + 1;
    }
    InsertSplit(m, was, p);
    assert a[..p] == was[..p] && a[p..n] == was[p..];
    ShiftRight(a, p, n);
    ghost var shifted := a[..n + 1];
    assert shifted[..p] == a[..p] && shifted[p + 1..] == a[p + 1..n + 1];
    a[p] := m;
    assert a[..n + 1] == shifted[p := m];
    PutBetween(shifted, p, m);
  }

  method ShiftRight(a: array<Machine>, p: nat, n: nat)
    requires p <= n < a.Length
    modifies a
    ensures a[..p] == old(a[..p]) && a[p + 1..n + 1] == old(a[p..n]) && a[n + 1..] == old(a[n + 1..])
  {
    ghost var was := a[..];
    var i := n;
    while i > p
      invariant p <= i <= n
      invariant a[..i] == was[..i]
      invariant a[i + 1..n + 1] == was[i..n]
      invariant a[n + 1..] == was[n + 1..]
    {
      a[i] := a[i - 1];
      i := i - 1;
      assert a[i + 1..n + 1] == [a[i + 1]] + a[i + 2..n + 1];
      assert was[i..n] == [was[i]] + was[i + 1..n];
    }
    assert was[..p] == old(a[..p]) && was[p..n] == old(a[p..n]) && was[n + 1..] == old(a[n + 1..]);
  }

  /** `orderPeers`: filter into two lists, sort each, append. */
  method ListPeersInOrder(machines: seq<Machine>, victim: Machine) returns (ordered: seq<Machine>)
    ensures ordered == OrderPeers(machines, victim)
  {
    var withNodeRef: seq<Machine>, withoutNodeRef: seq<Machine> := [], [];
    for i := 0 to |machines|
      invariant withNodeRef == Keep(machines[..i], victim, true)
      invariant withoutNodeRef == Keep(machines[..i], victim, false)
    {
      var m := machines[i];
      assert machines[..i + 1][..i] == machines[..i];
      if m.name == victim.name || m.deletion.Some? {
        continue;
      }
      if EtcdLeavingKey in m.annotations {
        continue;
      }
      if m.nodeRef != "" {
        withNodeRef := withNodeRef + [m];
      } else {
        withoutNodeRef := withoutNodeRef + [m];
      }
    }
    assert machines[..|machines|] == machines;
    var first := new Machine[|withNodeRef|](i requires 0 <= i < |withNodeRef| => withNodeRef[i]);
    var second := new Machine[|withoutNodeRef|](i requires 0 <= i < |withoutNodeRef| => withoutNodeRef[i]);
    assert first[..] == withNodeRef && second[..] == withoutNodeRef;
    SortByAge(first);
    SortByAge(second);
    ordered := first[..] + second[..];
  }
}
