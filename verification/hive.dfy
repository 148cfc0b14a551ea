/**
 * `SpaceShipHive` (space_invader/spaceship.py): a list of ships that answers
 * `collide_ammo` for the whole group. Whether one ship is hit by a piece of
 * ammunition is decided by code that is not part of this model, so it is a
 * parameter `hit`; asking a ship may have effects on that ship, which is why
 * the hive stops asking at the first ship that reports a hit.
 */
module Hive {

  datatype Hive<S> = Hive(ships: seq<S>)

  /** `__len__`: the number of ships in the hive; the hive is falsy exactly when it has none. */
  function Len<S>(h: Hive<S>): (n: nat)
    ensures n == 0 <==> h.ships == []
  {
    |h.ships|
  }

  /** Some ship of `ships` reports a hit by `ammo`. */
  predicate AnyHit<S, A>(ships: seq<S>, ammo: A, hit: (S, A) -> bool) {
    exists i :: 0 <= i < |ships| && hit(ships[i], ammo)
  }

  /**
   * The hive with one more ship at the end. `SpaceShipHive` never fills its
   * list itself: callers outside this model append to `hive` directly.
   */
  function Join<S>(h: Hive<S>, ship: S): (r: Hive<S>)
    ensures Len(r) == Len(h) + 1
    ensures r.ships[..Len(h)] == h.ships && r.ships[Len(h)] == ship
  {
    Hive(h.ships + [ship])
  }

  /** `clear`: empties the hive, after which no ammunition hits it. */
  function Clear<S>(h: Hive<S>): (r: Hive<S>)
    ensures Len(r) == 0
  {
    Hive([])
  }

  /**
   * `collide_ammo`: asks each ship in order and answers true at the first
   * hit. `asked` is how many ships were asked: all of them on a miss, and
   * up to and including the first ship hit otherwise.
   */
  method CollideAmmo<S, A>(h: Hive<S>, ammo: A, hit: (S, A) -> bool) returns (impact: bool, asked: nat)
    ensures impact <==> AnyHit(h.ships, ammo, hit)
    ensures asked <= |h.ships|
    ensures forall i :: 0 <= i < asked - 1 ==> !hit(h.ships[i], ammo)
    ensures impact ==> 0 < asked && hit(h.ships[asked - 1], ammo)
    ensures !impact ==> asked == |h.ships|
  {
    asked := 0;
    while asked < |h.ships|
      invariant asked <= |h.ships|
      invariant forall i :: 0 <= i < asked ==> !hit(h.ships[i], ammo)
    {
      var ship := h.ships[asked];
      asked := asked + 1;
      if hit(ship, ammo) {
        return true, asked;
      }
    }
    return false, asked;
  }

  /** A cleared hive is never hit. */
  lemma ClearedHiveMisses<S, A>(h: Hive<S>, ammo: A, hit: (S, A) -> bool)
    ensures !AnyHit(Clear(h).ships, ammo, hit)
  {
  }

  /** A hive is hit once a ship joins that is hit, whatever the others do. */
  lemma JoinedHit<S, A>(h: Hive<S>, ship: S, ammo: A, hit: (S, A) -> bool)
    ensures AnyHit(Join(h, ship).ships, ammo, hit) <==> AnyHit(h.ships, ammo, hit) || hit(ship, ammo)
  {
  }
}
