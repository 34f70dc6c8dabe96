// What acceptance by validate_state means: it does not depend on the order of the trunks, and
// it makes the payload a one-to-one image of the registry.

module ValidationFacts {
  import opened Seqs
  import opened Ipv4
  import opened Registry
  import opened Payload
  import opened Validation

  // ----- permutations

  function Without<T>(s: seq<T>, j: nat): seq<T>
    requires j < |s|
  {
    s[..j] + s[j + 1..]
  }

  lemma WithoutMultiset<T>(s: seq<T>, j: nat)
    requires j < |s|
    ensures multiset(s) == multiset(Without(s, j)) + multiset{s[j]}
  {
    assert s == s[..j] + [s[j]] + s[j + 1..];
  }

  /** The last element of one listing, found in the other; the remainders still agree. */
  lemma PairOff<T>(s: seq<T>, t: seq<T>) returns (j: nat)
    requires multiset(s) == multiset(t) && s != []
    ensures j < |t| && t[j] == s[|s| - 1]
    ensures multiset(Without(s, |s| - 1)) == multiset(Without(t, j))
  {
    var x := s[|s| - 1];
    assert x in multiset(t);
    j :| 0 <= j < |t| && t[j] == x;
    WithoutMultiset(s, |s| - 1);
    WithoutMultiset(t, j);
    assert multiset(Without(s, |s| - 1)) == multiset(s) - multiset{x};
  }

  lemma {:induction false} PoolsPermute(s: State, t: State)
    requires multiset(s) == multiset(t)
    ensures multiset(Pools(s)) == multiset(Pools(t))
    decreases |s|
  {
    if s == [] {
      assert |multiset(t)| == 0;
    } else {
      var last := |s| - 1;
      var j := PairOff(s, t);
      PoolsPermute(Without(s, last), Without(t, j));
      WithoutMultiset(Pools(s), last);
      WithoutMultiset(Pools(t), j);
      assert Pools(Without(s, last)) == Without(Pools(s), last);
      assert Pools(Without(t, j)) == Without(Pools(t), j);
    }
  }

  lemma {:induction false} AllRoutesConcat(s: State, t: State)
    ensures AllRoutes(s + t) == AllRoutes(s) + AllRoutes(t)
  {
    if t == [] {
      assert s + t == s;
    } else {
      var last := |t| - 1;
      var front := s + t[..last];
      AllRoutesConcat(s, t[..last]);
      assert s + t == front + [t[last]];
      assert (front + [t[last]])[..|front|] == front;
      assert AllRoutes(s + t) == AllRoutes(front) + t[last].routes;
      assert AllRoutes(t) == AllRoutes(t[..last]) + t[last].routes;
    }
  }

  lemma AllRoutesOne(x: Instance)
    ensures AllRoutes([x]) == x.routes
  {
    assert [x][..0] == [];
  }

  lemma AllRoutesAround(t: State, j: nat)
    requires j < |t|
    ensures AllRoutes(t) == AllRoutes(t[..j]) + t[j].routes + AllRoutes(t[j + 1..])
  {
    assert t == t[..j + 1] + t[j + 1..];
    TakeOneMore(t, j);
    AllRoutesConcat(t[..j + 1], t[j + 1..]);
    AllRoutesConcat(t[..j], [t[j]]);
    AllRoutesOne(t[j]);
  }

  lemma AllRoutesWithout(t: State, j: nat)
    requires j < |t|
    ensures multiset(AllRoutes(t)) == multiset(AllRoutes(Without(t, j))) + multiset(t[j].routes)
  {
    AllRoutesAround(t, j);
    AllRoutesConcat(t[..j], t[j + 1..]);
  }

  lemma {:induction false} AllRoutesPermute(s: State, t: State)
    requires multiset(s) == multiset(t)
    ensures multiset(AllRoutes(s)) == multiset(AllRoutes(t))
    decreases |s|
  {
    if s == [] {
      assert |multiset(t)| == 0;
    } else {
      var last := |s| - 1;
      var j := PairOff(s, t);
      AllRoutesPermute(Without(s, last), Without(t, j));
      AllRoutesWithout(s, last);
      AllRoutesWithout(t, j);
    }
  }

  lemma SameMembers<T>(s: seq<T>, t: seq<T>)
    requires multiset(s) == multiset(t)
    ensures forall x :: x in s <==> x in t
  {
    forall x ensures x in s <==> x in t {
      assert x in s <==> x in multiset(s);
    }
  }

  lemma DisjointPermute(s: seq<Network>, t: seq<Network>)
    requires multiset(s) == multiset(t)
    ensures PairwiseDisjoint(s) ==> PairwiseDisjoint(t)
  {
    SameMembers(s, t);
    DisjointByMembers(s);
    DisjointByMembers(t);
    DistinctIsSingleMultiplicity(s);
    DistinctIsSingleMultiplicity(t);
  }

  lemma AddressesPermute(s: State, t: State)
    requires multiset(s) == multiset(t)
    ensures AddressesOk(s) ==> AddressesOk(t)
  {
    PoolsPermute(s, t);
    AllRoutesPermute(s, t);
    DisjointPermute(Pools(s), Pools(t));
    DisjointPermute(AllRoutes(s), AllRoutes(t));
    SameMembers(Pools(s), Pools(t));
    SameMembers(AllRoutes(s), AllRoutes(t));
  }

  lemma StatePermute(reg: Instances, s: State, t: State)
    requires multiset(s) == multiset(t) && StateOk(reg, s)
    ensures StateOk(reg, t)
  {
    SameMembers(s, t);
    assert Interfaces(s) == Interfaces(t);
    AddressesPermute(s, t);
  }

  lemma TrunksOkWithout(reg: Instances, raws: seq<RawInstance>, j: nat)
    requires j < |raws| && TrunksOk(reg, raws)
    ensures TrunksOk(reg, Without(raws, j))
  {
    forall r | r in Without(raws, j) ensures TrunkOk(reg, r) {
      assert r in raws;
    }
  }

  lemma ToInstancesCommutes(reg: Instances, raws: seq<RawInstance>, j: nat)
    requires j < |raws| && TrunksOk(reg, raws) && TrunksOk(reg, Without(raws, j))
    ensures ToInstances(reg, Without(raws, j)) == Without(ToInstances(reg, raws), j)
  {
    var all, less := ToInstances(reg, raws), ToInstances(reg, Without(raws, j));
    forall k | 0 <= k < |less| ensures less[k] == Without(all, j)[k] {
      assert Without(raws, j)[k] == raws[if k < j then k else k + 1];
    }
  }

  lemma ToInstancesWithout(reg: Instances, raws: seq<RawInstance>, j: nat)
    requires j < |raws| && TrunksOk(reg, raws)
    ensures TrunksOk(reg, Without(raws, j))
    ensures multiset(ToInstances(reg, raws)) ==
            multiset(ToInstances(reg, Without(raws, j))) + multiset{ToInstance(reg, raws[j])}
  {
    TrunksOkWithout(reg, raws, j);
    ToInstancesCommutes(reg, raws, j);
    WithoutMultiset(ToInstances(reg, raws), j);
  }

  lemma {:induction false} ToInstancesPermute(reg: Instances, raws: seq<RawInstance>, others: seq<RawInstance>)
    requires multiset(raws) == multiset(others) && TrunksOk(reg, raws) && TrunksOk(reg, others)
    ensures multiset(ToInstances(reg, raws)) == multiset(ToInstances(reg, others))
    decreases |raws|
  {
    if raws == [] {
      assert |multiset(others)| == 0;
    } else {
      var last := |raws| - 1;
      var j := PairOff(raws, others);
      ToInstancesWithout(reg, raws, last);
      ToInstancesWithout(reg, others, j);
      ToInstancesPermute(reg, Without(raws, last), Without(others, j));
    }
  }

  /** Acceptance does not depend on the order in which the trunks are listed. */
  lemma AcceptanceIgnoresOrder(reg: Instances, raws: seq<RawInstance>, others: seq<RawInstance>)
    requires multiset(raws) == multiset(others)
    ensures Acceptable(reg, raws) <==> Acceptable(reg, others)
  {
    SameMembers(raws, others);
    if TrunksOk(reg, raws) {
      ToInstancesPermute(reg, raws, others);
      var s, t := ToInstances(reg, raws), ToInstances(reg, others);
      if StateOk(reg, s) {
        StatePermute(reg, s, t);
      }
      if StateOk(reg, t) {
        StatePermute(reg, t, s);
      }
    }
  }

  // ----- the accepted state

  /** Every trunk of the state carries the registered record of its interface. */
  predicate Registered(reg: Instances, s: State) {
    forall x :: x in s ==> x.Dev() in reg && x.record == reg[x.Dev()]
  }

  /** Nothing in validate_state compares interface names: a trunk that occurs twice is refused
      because its pool overlaps itself. */
  lemma DevicesDistinct(reg: Instances, s: State)
    requires Registered(reg, s) && PairwiseDisjoint(Pools(s))
    ensures DistinctDevices(s)
  {
    forall i, j | 0 <= i < j < |s| ensures s[i].Dev() != s[j].Dev() {
      assert !Overlaps(Pools(s)[i], Pools(s)[j]);
    }
  }

  lemma {:induction false} DistinctCount(s: State)
    requires DistinctDevices(s)
    ensures |Interfaces(s)| == |s|
  {
    if s == [] {
    } else {
      var last := |s| - 1;
      DistinctCount(s[..last]);
      assert s == s[..last] + [s[last]];
      assert Interfaces(s) == Interfaces(s[..last]) + {s[last].Dev()};
    }
  }

  /** What the rest of the controller may rely on after validate_state. */
  predicate Validated(reg: Instances, s: State) {
    Registered(reg, s) && StateOk(reg, s) && DistinctDevices(s)
  }

  lemma TrunkDevice(reg: Instances, raw: RawInstance)
    requires ValidRegistry(reg) && TrunkOk(reg, raw)
    ensures raw.interface in reg && ToInstance(reg, raw).Dev() == raw.interface
  {
  }

  lemma ToInstancesDevices(reg: Instances, raws: seq<RawInstance>)
    requires ValidRegistry(reg) && TrunksOk(reg, raws)
    ensures forall i :: 0 <= i < |raws| ==>
              ToInstances(reg, raws)[i].Dev() == raws[i].interface && raws[i].interface in reg
  {
    forall i | 0 <= i < |raws|
      ensures ToInstances(reg, raws)[i].Dev() == raws[i].interface && raws[i].interface in reg
    {
      TrunkDevice(reg, raws[i]);
    }
  }

  lemma ToInstancesRegistered(reg: Instances, raws: seq<RawInstance>)
    requires ValidRegistry(reg) && TrunksOk(reg, raws)
    ensures Registered(reg, ToInstances(reg, raws))
  {
    var s := ToInstances(reg, raws);
    forall x | x in s ensures x.Dev() in reg && x.record == reg[x.Dev()] {
      var i :| 0 <= i < |s| && s[i] == x;
      assert TrunkOk(reg, raws[i]);
    }
  }

  /** An accepted payload yields a state that matches the registry one to one. */
  lemma AcceptedMatchesRegistry(reg: Instances, raws: seq<RawInstance>)
    requires ValidRegistry(reg) && Acceptable(reg, raws)
    ensures var s := SortById(ToInstances(reg, raws));
            Validated(reg, s) && |s| == |reg| && SortedById(s)
  {
    var t := ToInstances(reg, raws);
    var s := SortById(t);
    ToInstancesRegistered(reg, raws);
    StatePermute(reg, t, s);
    SameMembers(t, s);
    DevicesDistinct(reg, s);
    DistinctCount(s);
    SortSorts(t);
    assert |reg| == |reg.Keys|;
  }

  lemma AcceptedNamesDiffer(reg: Instances, raws: seq<RawInstance>)
    requires ValidRegistry(reg) && Acceptable(reg, raws)
    ensures forall i, j :: 0 <= i < j < |raws| ==> raws[i].interface != raws[j].interface
  {
    var t := ToInstances(reg, raws);
    ToInstancesRegistered(reg, raws);
    DevicesDistinct(reg, t);
    ToInstancesDevices(reg, raws);
    forall i, j | 0 <= i < j < |raws| ensures raws[i].interface != raws[j].interface {
      assert t[i].Dev() != t[j].Dev();
    }
  }

  /** So the payload names every registered interface exactly once. */
  lemma AcceptedNamesOnce(reg: Instances, raws: seq<RawInstance>)
    requires ValidRegistry(reg) && Acceptable(reg, raws)
    ensures forall i, j :: 0 <= i < j < |raws| ==> raws[i].interface != raws[j].interface
    ensures forall d :: d in reg <==> exists r :: r in raws && r.interface == d
  {
    AcceptedNamesDiffer(reg, raws);
    ToInstancesDevices(reg, raws);
    var t := ToInstances(reg, raws);
    forall d | d in reg ensures exists r :: r in raws && r.interface == d {
      assert d in Interfaces(t);
      var x :| x in t && x.Dev() == d;
      var i :| 0 <= i < |t| && t[i] == x;
      assert raws[i] in raws;
    }
  }
}
