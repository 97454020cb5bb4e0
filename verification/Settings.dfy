/** The incremental check that no two configured adapters bind the same address. */
module Settings {
  import Addresses

  /** 127.0.0.1 in reverse byte order. */
  const LOOPBACK_IP: nat := 0x0100007f

  datatype AdapterSettings = AdapterSettings(ip: nat, port: nat, name: string) {
    predicate CompareBinding(otherIp: nat, otherPort: nat) {
      (otherIp == ip || otherIp == LOOPBACK_IP || ip == LOOPBACK_IP) && otherPort == port
    }
  }

  predicate Collide(a: AdapterSettings, b: AdapterSettings) { a.CompareBinding(b.ip, b.port) }

  /** The relation is symmetric; it is not transitive, because loopback collides with addresses
      that do not collide with each other. */
  lemma CollisionLaws(a: AdapterSettings, b: AdapterSettings)
    ensures Collide(a, b) <==> Collide(b, a)
    ensures exists x, y, z :: Collide(x, y) && Collide(y, z) && !Collide(x, z)
  {
    var x, y, z := AdapterSettings(1, 1883, ""), AdapterSettings(LOOPBACK_IP, 1883, ""), AdapterSettings(2, 1883, "");
    assert Collide(x, y) && Collide(y, z) && !Collide(x, z);
  }

  /** Which bindings collide: never on different ports; on one port, equal addresses do, 127.0.0.1
      does with every address, and two different addresses do not when neither is 127.0.0.1. */
  lemma CollisionRules(a: AdapterSettings, b: AdapterSettings, loopback: nat)
    requires loopback == Addresses.ToIp("127.0.0.1")
    ensures a.port != b.port ==> !Collide(a, b)
    ensures a.port == b.port && a.ip == b.ip ==> Collide(a, b)
    ensures a.port == b.port && (a.ip == loopback || b.ip == loopback) ==> Collide(a, b)
    ensures a.ip != b.ip && a.ip != loopback && b.ip != loopback ==> !Collide(a, b)
  {
    Addresses.LoopbackWord();
  }

  ghost predicate PairwiseFree(list: seq<AdapterSettings>) {
    forall i, j :: 0 <= i < |list| && 0 <= j < |list| && i != j ==> !Collide(list[i], list[j])
  }

  /** No adapter of the list collides with an earlier one. */
  ghost predicate IncrementallyFree(list: seq<AdapterSettings>) {
    forall k, j :: 0 <= j < k < |list| ==> !Collide(list[k], list[j])
  }

  lemma IncrementalIsPairwise(list: seq<AdapterSettings>)
    ensures IncrementallyFree(list) <==> PairwiseFree(list)
  {
    if IncrementallyFree(list) {
      forall i, j | 0 <= i < |list| && 0 <= j < |list| && i != j ensures !Collide(list[i], list[j]) {
        CollisionLaws(list[i], list[j]);
      }
    }
  }

  /** `BindingError` names the adapter that was just added and the earlier one it collides with. */
  datatype ParseResult = Parsed | EmptyList | BindingError(back: nat, front: nat)

  class AdapterPool {
    var adapters: seq<AdapterSettings>

    constructor ()
      ensures adapters == []
    {
      adapters := [];
    }

    /** Compare the last element with all the previous ones; the result is the first that
        collides, or the pool's size less one when there is none. */
    method CheckBindings() returns (clash: nat)
      requires adapters != []
      ensures clash < |adapters|
      ensures forall j :: 0 <= j < clash ==> !Collide(adapters[|adapters| - 1], adapters[j])
      ensures clash < |adapters| - 1 ==> Collide(adapters[|adapters| - 1], adapters[clash])
    {
      var back := |adapters| - 1;
      clash := 0;
      while clash < back
        invariant 0 <= clash <= back
        invariant forall j :: 0 <= j < clash ==> !Collide(adapters[back], adapters[j])
      {
        if adapters[back].CompareBinding(adapters[clash].ip, adapters[clash].port) { return; }
        clash := clash + 1;
      }
    }

    /** Parsing succeeds exactly when the list is nonempty and no two of its adapters collide;
        otherwise it fails at the first adapter that collides with an earlier one. */
    method Parse(list: seq<AdapterSettings>) returns (r: ParseResult)
      requires adapters == []
      modifies this
      ensures r.EmptyList? <==> list == []
      ensures r.Parsed? <==> list != [] && PairwiseFree(list)
      ensures r.BindingError? ==>
                && r.front < r.back < |list| && Collide(list[r.back], list[r.front])
                && PairwiseFree(list[..r.back])
                && forall j :: 0 <= j < r.front ==> !Collide(list[r.back], list[j])
      ensures adapters == if r.BindingError? then list[..r.back + 1] else list
    {
      if list == [] { return EmptyList; }
      for n := 0 to |list|
        invariant adapters == list[..n]
        invariant IncrementallyFree(list[..n])
      {
        adapters := adapters + [list[n]];
        assert adapters == list[..n + 1];
        if |adapters| > 1 {
          var clash := CheckBindings();
          if clash < n {
            IncrementalIsPairwise(list[..n]);
            assert forall j :: 0 <= j < clash ==> adapters[j] == list[j];
            return BindingError(n, clash);
          }
        }
      }
      assert list[..|list|] == list;
      IncrementalIsPairwise(list);
      r := Parsed;
    }
  }
}
