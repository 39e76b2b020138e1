// The connection registry of TWSServer (source/units/WS.Server.pas): an
// array with swap-removal, every member knowing its own slot.

module Registry {
  const GROWTH := 64

  class Member {
    var registryIndex: int

    constructor ()
      ensures registryIndex == -1
    {
      registryIndex := -1;
    }
  }

  class Registry {
    var slots: array<Member?>
    var count: nat
    ghost var members: set<Member>

    // Slots below count and members are in bijection through registryIndex.
    ghost predicate Valid()
      reads this, slots, members
    {
      && count <= slots.Length && count == |members|
      && (forall i :: 0 <= i < count ==> slots[i] != null && slots[i] in members && slots[i].registryIndex == i)
      && (forall m <- members :: 0 <= m.registryIndex < count && slots[m.registryIndex] == m)
    }

    constructor ()
      ensures Valid() && members == {} && fresh(slots)
    {
      slots := new Member?[0];
      count := 0;
      members := {};
    }

    method Grow()
      requires Valid()
      modifies this
      ensures Valid() && members == old(members) && count == old(count) && count < slots.Length && fresh(slots)
    {
      var bigger := new Member?[count + GROWTH](_ => null);
      var i := 0;
      while i < count
        invariant i <= count
        invariant forall j :: 0 <= j < i ==> bigger[j] == slots[j]
        modifies bigger
      {
        bigger[i] := slots[i];
        i := i + 1;
      }
      slots := bigger;
    }

    method Add(m: Member)
      requires Valid() && m !in members
      modifies this, slots, m
      ensures Valid() && members == old(members) + {m} && (slots == old(slots) || fresh(slots))
    {
      if count == slots.Length {
        Grow();
      }
      slots[count] := m;
      m.registryIndex := count;
      count := count + 1;
      members := members + {m};
    }

    // Whether m is registered, by one indexed compare; its index may be stale.
    method IsLive(m: Member) returns (live: bool)
      requires Valid()
      ensures live == (m in members)
    {
      var i := m.registryIndex;
      live := 0 <= i < count && slots[i] == m;
    }

    // Nothing happens to a member that is not registered.
    method Remove(m: Member)
      requires Valid()
      modifies this, slots, members
      ensures Valid() && members == old(members) - {m} && slots == old(slots)
      ensures m in old(members) ==> m.registryIndex == -1 && count == old(count) - 1
      ensures m !in old(members) ==> count == old(count) && m.registryIndex == old(m.registryIndex)
    {
      var i := m.registryIndex;
      if i < 0 || i >= count || slots[i] != m { return; }
      slots[i] := slots[count - 1];
      slots[count - 1] := null;
      if slots[i] != null {
        slots[i].registryIndex := i;
      }
      count := count - 1;
      m.registryIndex := -1;
      members := members - {m};
    }
  }
}
