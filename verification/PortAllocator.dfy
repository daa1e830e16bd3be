/** The host ports given to runtime instances. */
module PortAllocator {
  import opened Wrappers

  class Allocator {
    const start: int
    const end: int
    var used: map<int, bool>

    constructor (start: int, end: int)
      ensures Valid() && used == map[] && this.start == start && this.end == end
    {
      this.start := start;
      this.end := end;
      used := map[];
    }

    ghost predicate Valid()
      reads this
    {
      forall port | port in used :: start <= port <= end && used[port]
    }

    /** In range, not given out, and not taken by another process. */
    predicate Usable(port: int, available: int -> bool)
      reads this
    {
      start <= port <= end && !(port in used && used[port]) && available(port)
    }

    method Allocate(available: int -> bool) returns (r: Option<int>)
      requires Valid()
      modifies this
      ensures Valid()
      ensures r.None? <==> forall port :: !old(Usable(port, available))
      ensures r.Some? ==>
                && old(Usable(r.value, available)) && r.value !in old(used)
                && (forall port | old(Usable(port, available)) :: r.value <= port)
                && used == old(used)[r.value := true]
      ensures r.None? ==> used == old(used)
    {
      var port := start;
      while port <= end
        invariant used == old(used)
        invariant start <= port && forall p | p < port :: !Usable(p, available)
        decreases end - port
      {
        if !(port in used && used[port]) && available(port) {
          assert old(Usable(port, available));
          used := used[port := true];
          return Some(port);
        }
        port := port + 1;
      }
      r := None;
    }

    method Release(port: int)
      requires Valid()
      modifies this
      ensures Valid() && used == old(used) - {port}
    {
      used := used - {port};
    }
  }
}
