// Model of ListableUI/Sources/IsEquivalent/KeyPathEquivalent.swift.
//
// A `KeyPathEquivalent<V>` is an ordered list of field comparisons; two values
// are equivalent when every comparison accepts them, and evaluation stops at the
// first comparison that rejects them.

module KeyPathEquivalent {

  /** One registered comparison: a total, side-effect-free relation on values. */
  type Comparison<!V> = (V, V) -> bool

  /** True when every comparison in `cs`, in order, accepts `(lhs, rhs)`; the
      recursion stops at the first rejecting comparison, as the source's loop does. */
  predicate AllAccept<V>(cs: seq<Comparison<V>>, lhs: V, rhs: V)
  {
    cs == [] || (cs[0](lhs, rhs) && AllAccept(cs[1..], lhs, rhs))
  }

  /** The comparison `add(keyPath, with: compare)` registers: `compare` applied
      to the key-path projections of both values. */
  function Projected<V, P>(keyPath: V -> P, compare: (P, P) -> bool): Comparison<V>
  {
    (lhs: V, rhs: V) => compare(keyPath(lhs), keyPath(rhs))
  }

  /** `AllAccept` is the conjunction of all comparisons. */
  lemma {:induction false} AllAcceptIffEvery<V>(cs: seq<Comparison<V>>, lhs: V, rhs: V)
    ensures AllAccept(cs, lhs, rhs) <==> forall i :: 0 <= i < |cs| ==> cs[i](lhs, rhs)
  {
    if cs != [] {
      AllAcceptIffEvery(cs[1..], lhs, rhs);
      assert forall i :: 1 <= i < |cs| ==> cs[i] == cs[1..][i - 1];
    }
  }

  /** Appending a comparison conjoins it with the existing ones. */
  lemma {:induction false} AllAcceptAppend<V>(cs: seq<Comparison<V>>, c: Comparison<V>, lhs: V, rhs: V)
    ensures AllAccept(cs + [c], lhs, rhs) <==> AllAccept(cs, lhs, rhs) && c(lhs, rhs)
  {
    if cs != [] {
      assert (cs + [c])[1..] == cs[1..] + [c];
      AllAcceptAppend(cs[1..], c, lhs, rhs);
    }
  }

  /** Registering more comparisons can only make the relation stricter. */
  lemma {:induction false} AddingIsStricter<V>(cs: seq<Comparison<V>>, more: seq<Comparison<V>>, lhs: V, rhs: V)
    ensures AllAccept(cs + more, lhs, rhs) ==> AllAccept(cs, lhs, rhs)
  {
    AllAcceptIffEvery(cs + more, lhs, rhs);
    AllAcceptIffEvery(cs, lhs, rhs);
    if AllAccept(cs + more, lhs, rhs) {
      forall i | 0 <= i < |cs| ensures cs[i](lhs, rhs) {
        assert (cs + more)[i] == cs[i];
      }
    }
  }

  /** With no comparisons registered, every pair of values is equivalent. */
  lemma NoComparisonsAllEquivalent<V>(lhs: V, rhs: V)
    ensures var none: seq<Comparison<V>> := []; AllAccept(none, lhs, rhs)
  {
  }

  class KeyPathEquivalent<V(!new)> {
    var comparisons: seq<Comparison<V>>

    /** `init(configure)`: start with no comparisons, then register, in order,
        the comparisons the configure block adds. */
    constructor(configure: seq<Comparison<V>>)
      ensures comparisons == configure
    {
      comparisons := configure;
    }

    /** `add(keyPath, with: compare)`: append one projected comparison. */
    method Add<P>(keyPath: V -> P, compare: (P, P) -> bool)
      modifies this
      ensures comparisons == old(comparisons) + [Projected(keyPath, compare)]
      ensures forall lhs, rhs :: AllAccept(comparisons, lhs, rhs) <==>
        AllAccept(old(comparisons), lhs, rhs) && compare(keyPath(lhs), keyPath(rhs))
    {
      var c := Projected(keyPath, compare);
      var extended := comparisons + [c];
      forall lhs, rhs ensures AllAccept(extended, lhs, rhs) <==>
        AllAccept(comparisons, lhs, rhs) && compare(keyPath(lhs), keyPath(rhs))
      {
        AllAcceptAppend(comparisons, c, lhs, rhs);
        assert c(lhs, rhs) == compare(keyPath(lhs), keyPath(rhs));
      }
      comparisons := extended;
    }

    /** `add(keyPath)` for an `Equatable` property: compare projections with `==`. */
    method AddEquatable<P(==)>(keyPath: V -> P)
      modifies this
      ensures comparisons == old(comparisons) + [Projected(keyPath, (a: P, b: P) => a == b)]
      ensures forall lhs, rhs :: AllAccept(comparisons, lhs, rhs) <==>
        AllAccept(old(comparisons), lhs, rhs) && keyPath(lhs) == keyPath(rhs)
    {
      Add(keyPath, (a: P, b: P) => a == b);
    }

    /** `add(keyPath)` for a class-typed property: compare projections by
        reference identity (`===`); a Dafny `object` compares by identity. */
    method AddIdentical(keyPath: V -> object)
      modifies this
      ensures comparisons == old(comparisons) + [Projected(keyPath, (a: object, b: object) => a == b)]
      ensures forall lhs, rhs :: AllAccept(comparisons, lhs, rhs) <==>
        AllAccept(old(comparisons), lhs, rhs) && keyPath(lhs) == keyPath(rhs)
    {
      Add(keyPath, (a: object, b: object) => a == b);
    }

    /** `is(_:equivalentTo:)`: run the comparisons in order and return false at the
        first one that fails. `consulted` counts the comparisons evaluated. */
    method IsEquivalent(lhs: V, rhs: V) returns (equivalent: bool, ghost consulted: nat)
      ensures equivalent <==> forall i :: 0 <= i < |comparisons| ==> comparisons[i](lhs, rhs)
      ensures equivalent == AllAccept(comparisons, lhs, rhs)
      ensures equivalent ==> consulted == |comparisons|
      ensures !equivalent ==>
        && 1 <= consulted <= |comparisons|
        && !comparisons[consulted - 1](lhs, rhs)
        && forall i :: 0 <= i < consulted - 1 ==> comparisons[i](lhs, rhs)
    {
      AllAcceptIffEvery(comparisons, lhs, rhs);
      consulted := 0;
      for i := 0 to |comparisons|
        invariant consulted == i
        invariant forall j :: 0 <= j < i ==> comparisons[j](lhs, rhs)
      {
        consulted := consulted + 1;
        if !comparisons[i](lhs, rhs) {
          return false, consulted;
        }
      }
      return true, consulted;
    }
  }
}
