/**
 * `ActorsContainer` (space_invader/engine.py): the game state behind the
 * playing screen and the operations that change it.
 *
 * The container is a widget whose children are the actors on screen. Next to
 * the widget tree it keeps three lists of actors (player bullets, enemy
 * bullets, enemies), the player, the lives left and the score. A Python object
 * is identified by its `id`, allocated from `nextId`, so two actors built from
 * the same arguments stay distinct, as two Python objects do.
 *
 * The wall clock and the random draws are parameters. Whether two actors
 * collide is decided by code that is not part of this model, so it is a
 * parameter `collide`.
 */
module Engine {
  import opened Results
  import Pairs

  datatype Kind = PlayerShip | EnemyShip | PlayerBullet | EnemyBullet

  /** An actor as the container creates it: identity, kind and constructor arguments. */
  datatype Actor = Actor(id: nat, kind: Kind, x: real, y: real, vx: real, vy: real)

  /** A child widget of the container: an actor, or a text label. */
  datatype Widget = ActorWidget(actor: Actor) | Label(id: nat, text: string)

  /** Keyword arguments of an `add_*` call: position and velocity. */
  datatype Spawn = Spawn(x: real, y: real, vx: real, vy: real)

  /** The random draws of one tick: `randint(0, width)` and two `uniform` draws. */
  datatype Draw = Draw(x: int, vx: real, vy: real)

  /** `list.remove` raises `ValueError` when the element is absent. */
  datatype ListError = NotInList

  datatype Container = Container(
    player: Option<Actor>,
    pbullets: seq<Actor>,
    ebullets: seq<Actor>,
    enemies: seq<Actor>,
    debris: seq<Actor>,
    children: seq<Widget>,
    playerLives: int,
    score: int,
    gameStartTime: real,
    startLives: int,       // options["start_lives"]
    width: real,
    height: real,
    nextId: nat)

  const SCORE_PER_HIT: int := 10
  /** Seconds of play per extra enemy allowed on screen. */
  const SPAWN_PERIOD: real := 10.0
  /** Enemies appear this far above the top edge. */
  const SPAWN_ABOVE: real := 50.0
  const PLAYER_Y: real := 30.0
  const DEATH_TEXT: string := "You died!"

  /** A fresh container as Kivy builds it: no player, no actors, no lives. */
  function Fresh(width: real, height: real): (s: Container)
    ensures Valid(s) && s.playerLives == 0 && s.startLives == 1
    ensures s.player.None? && s.score == 0 && s.gameStartTime == 0.0
    ensures s.pbullets == [] && s.ebullets == [] && s.enemies == [] && s.debris == [] && s.children == []
    ensures s.width == width && s.height == height
  {
    Container(None, [], [], [], [], [], 0, 0, 0.0, 1, width, height, 0)
  }

  // ---------------------------------------------------------------------
  // Sequences and the widget tree
  // ---------------------------------------------------------------------

  predicate Distinct<T(==)>(xs: seq<T>) {
    forall i, j :: 0 <= i < j < |xs| ==> xs[i] != xs[j]
  }

  /** A new element in front of a list without repeats keeps it without repeats. */
  lemma DistinctPrepend<T>(x: T, xs: seq<T>)
    requires Distinct(xs) && x !in xs
    ensures Distinct([x] + xs)
  {
  }

  /** Position of the first occurrence of a present element. */
  function FirstIndex<T(==)>(xs: seq<T>, x: T): (i: nat)
    requires x in xs
    ensures i < |xs| && xs[i] == x
  {
    if xs[0] == x then 0
    else FirstIndex(xs[1..], x) + 1
  }

  /** No position before `FirstIndex` holds the element. */
  lemma {:induction false} FirstIndexIsFirst<T>(xs: seq<T>, x: T)
    requires x in xs
    ensures x !in xs[..FirstIndex(xs, x)]
  {
    if xs[0] != x {
      var i := FirstIndex(xs[1..], x);
      FirstIndexIsFirst(xs[1..], x);
      assert xs[..i + 1] == [xs[0]] + xs[1..][..i];
    }
  }

  /** The tail of a list without repeats has none, and does not hold the head. */
  lemma TailDistinct<T>(xs: seq<T>)
    requires |xs| > 0 && Distinct(xs)
    ensures Distinct(xs[1..]) && xs[0] !in xs[1..]
  {
    assert Distinct(xs[1..]) by {
      forall i, j | 0 <= i < j < |xs| - 1
        ensures xs[1..][i] != xs[1..][j]
      {
        assert xs[1..][i] == xs[i + 1] && xs[1..][j] == xs[j + 1];
      }
    }
    assert xs[0] !in xs[1..] by {
      forall k | 0 <= k < |xs| - 1
        ensures xs[1..][k] != xs[0]
      {
        assert xs[1..][k] == xs[k + 1];
      }
    }
  }

  /** Python's `list.remove` on a present element: drops its first occurrence. */
  function RemoveFirst<T(==)>(xs: seq<T>, x: T): (r: seq<T>)
    requires x in xs
    ensures |r| == |xs| - 1
    ensures multiset(r) == multiset(xs) - multiset{x}
  {
    if xs[0] == x then
      assert xs == [x] + xs[1..];
      xs[1..]
    else
      assert xs == [xs[0]] + xs[1..];
      [xs[0]] + RemoveFirst(xs[1..], x)
  }

  /**
   * `list.remove` cuts the list at the first occurrence: everything before it
   * and everything after it stay, in their order.
   */
  lemma {:induction false} RemoveFirstAt<T>(xs: seq<T>, x: T)
    requires x in xs
    ensures RemoveFirst(xs, x) == xs[..FirstIndex(xs, x)] + xs[FirstIndex(xs, x) + 1..]
  {
    if xs[0] != x {
      assert x in xs[1..];
      RemoveFirstAt(xs[1..], x);
      RemoveFirstAtStep(xs, x);
    } else {
      assert xs[..0] + xs[1..] == xs[1..];
    }
  }

  /** The step of `RemoveFirstAt`: the cut in the tail, with the head put back, is the cut in the list. */
  lemma RemoveFirstAtStep<T>(xs: seq<T>, x: T)
    requires x in xs && xs[0] != x && x in xs[1..]
    requires RemoveFirst(xs[1..], x) == xs[1..][..FirstIndex(xs[1..], x)] + xs[1..][FirstIndex(xs[1..], x) + 1..]
    ensures RemoveFirst(xs, x) == xs[..FirstIndex(xs, x)] + xs[FirstIndex(xs, x) + 1..]
  {
    var i := FirstIndex(xs[1..], x);
    PastHead(xs, x);
    CutAfterHead(xs, i);
  }

  /** When the head is not `x`, both the position and the removal move one step into the tail. */
  lemma PastHead<T>(xs: seq<T>, x: T)
    requires x in xs && xs[0] != x
    ensures x in xs[1..]
    ensures FirstIndex(xs, x) == FirstIndex(xs[1..], x) + 1
    ensures RemoveFirst(xs, x) == [xs[0]] + RemoveFirst(xs[1..], x)
  {
  }

  /** Cutting position `i + 1` out of a list is cutting position `i` out of its tail. */
  lemma CutAfterHead<T>(xs: seq<T>, i: nat)
    requires i + 1 < |xs|
    ensures xs[..i + 1] + xs[i + 2..] == [xs[0]] + (xs[1..][..i] + xs[1..][i + 1..])
  {
    assert xs[..i + 1] == [xs[0]] + xs[1..][..i];
    assert xs[i + 2..] == xs[1..][i + 1..];
  }

  /** In a list without repeats, `list.remove` takes out exactly the element removed. */
  lemma {:induction false} RemoveFirstDistinct<T>(xs: seq<T>, x: T)
    requires x in xs
    ensures Distinct(xs) ==>
              && Distinct(RemoveFirst(xs, x))
              && forall y :: y in RemoveFirst(xs, x) <==> y in xs && y != x
  {
    if !Distinct(xs) {
      return;
    }
    TailDistinct(xs);
    if xs[0] != x {
      var rest := RemoveFirst(xs[1..], x);
      RemoveFirstDistinct(xs[1..], x);
      DistinctPrepend(xs[0], rest);
    }
  }

  /** Removing the element just appended gives back the list before the append. */
  lemma {:induction false} RemoveLastAppended<T>(xs: seq<T>, x: T)
    requires x !in xs
    ensures RemoveFirst(xs + [x], x) == xs
  {
    if |xs| > 0 {
      assert (xs + [x])[1..] == xs[1..] + [x];
      RemoveLastAppended(xs[1..], x);
    }
  }

  /** Kivy's `add_widget`: the new child goes to the front of `children`. */
  function AddWidget(ws: seq<Widget>, w: Widget): seq<Widget> {
    [w] + ws
  }

  /** Kivy's `remove_widget`: removes the child if present, otherwise does nothing. */
  function RemoveWidget(ws: seq<Widget>, w: Widget): (r: seq<Widget>)
    ensures w !in ws ==> r == ws
    ensures multiset(r) <= multiset(ws)
    ensures Distinct(ws) ==> Distinct(r) && forall v :: v in r <==> v in ws && v != w
  {
    if w in ws then
      RemoveFirstDistinct(ws, w);
      RemoveFirst(ws, w)
    else ws
  }

  /** The widgets of `ws` not among `cs`, in their order: the reference for `RemoveWidgets`. */
  function KeptWidgets(ws: seq<Widget>, cs: seq<Widget>): (r: seq<Widget>)
    ensures |r| <= |ws|
    ensures forall w :: w in r <==> w in ws && w !in cs
  {
    if |ws| == 0 then []
    else
      assert ws == [ws[0]] + ws[1..];
      (if ws[0] in cs then [] else [ws[0]]) + KeptWidgets(ws[1..], cs)
  }

  /** A widget that is not on screen can be added to the removed ones without effect. */
  lemma {:induction false} KeptWidgetsAbsent(ws: seq<Widget>, c: Widget, cs: seq<Widget>)
    requires c !in ws
    ensures KeptWidgets(ws, [c] + cs) == KeptWidgets(ws, cs)
  {
    if |ws| > 0 {
      KeptWidgetsAbsent(ws[1..], c, cs);
    }
  }

  /** Removing one widget first, then the rest, keeps what removing them all keeps. */
  lemma {:induction false} KeptWidgetsRemoveFirst(ws: seq<Widget>, c: Widget, cs: seq<Widget>)
    requires c in ws && Distinct(ws)
    ensures KeptWidgets(RemoveFirst(ws, c), cs) == KeptWidgets(ws, [c] + cs)
  {
    TailDistinct(ws);
    if ws[0] == c {
      KeptWidgetsAbsent(ws[1..], c, cs);
    } else {
      var rest := RemoveFirst(ws[1..], c);
      KeptWidgetsRemoveFirst(ws[1..], c, cs);
      assert ([ws[0]] + rest)[1..] == rest;
    }
  }

  /** The player bullets of `pbs` whose widget is not among `cs`, in their order. */
  function KeptBullets(pbs: seq<Actor>, cs: seq<Widget>): (r: seq<Actor>)
    ensures |r| <= |pbs|
    ensures forall a :: a in r <==> a in pbs && ActorWidget(a) !in cs
  {
    if |pbs| == 0 then []
    else
      assert pbs == [pbs[0]] + pbs[1..];
      (if ActorWidget(pbs[0]) in cs then [] else [pbs[0]]) + KeptBullets(pbs[1..], cs)
  }

  /** A child that is not a listed bullet can be added to the removed ones without effect. */
  lemma {:induction false} KeptBulletsAbsent(pbs: seq<Actor>, c: Widget, cs: seq<Widget>)
    requires !(c.ActorWidget? && c.actor in pbs)
    ensures KeptBullets(pbs, [c] + cs) == KeptBullets(pbs, cs)
  {
    if |pbs| > 0 {
      KeptBulletsAbsent(pbs[1..], c, cs);
    }
  }

  /** Removing one bullet first, then the rest, keeps what removing them all keeps. */
  lemma {:induction false} KeptBulletsRemoveFirst(pbs: seq<Actor>, a: Actor, cs: seq<Widget>)
    requires a in pbs && Distinct(pbs)
    ensures KeptBullets(RemoveFirst(pbs, a), cs) == KeptBullets(pbs, [ActorWidget(a)] + cs)
  {
    TailDistinct(pbs);
    if pbs[0] == a {
      KeptBulletsAbsent(pbs[1..], ActorWidget(a), cs);
    } else {
      var rest := RemoveFirst(pbs[1..], a);
      KeptBulletsRemoveFirst(pbs[1..], a, cs);
      assert ([pbs[0]] + rest)[1..] == rest;
    }
  }

  /** Kivy's `clear_widgets(children)`: `remove_widget` on each given child in turn. */
  function RemoveWidgets(ws: seq<Widget>, cs: seq<Widget>): (r: seq<Widget>)
    ensures multiset(r) <= multiset(ws)
    ensures Distinct(ws) ==> Distinct(r) && forall v :: v in r <==> v in ws && v !in cs
    decreases |cs|
  {
    if |cs| == 0 then ws
    else
      var r := RemoveWidgets(RemoveWidget(ws, cs[0]), cs[1..]);
      assert cs == [cs[0]] + cs[1..];
      r
  }

  /** One step of that loop: `if child in pbullets: pbullets.remove(child)`. */
  function DropOne(pbs: seq<Actor>, c: Widget): (r: seq<Actor>)
    ensures multiset(r) <= multiset(pbs)
    ensures Distinct(pbs) ==> Distinct(r) && forall a :: a in r <==> a in pbs && ActorWidget(a) != c
  {
    if c.ActorWidget? && c.actor in pbs then
      RemoveFirstDistinct(pbs, c.actor);
      RemoveFirst(pbs, c.actor)
    else pbs
  }

  /** The loop of `clear_widgets(children)`: each child found in `pbullets` is removed from it. */
  function DropPlayerBullets(pbs: seq<Actor>, cs: seq<Widget>): (r: seq<Actor>)
    ensures multiset(r) <= multiset(pbs)
    ensures Distinct(pbs) ==> Distinct(r) && forall a :: a in r <==> a in pbs && ActorWidget(a) !in cs
    decreases |cs|
  {
    if |cs| == 0 then pbs
    else
      var c, rest := cs[0], cs[1..];
      var r := DropPlayerBullets(DropOne(pbs, c), rest);
      assert Distinct(pbs) ==> forall a :: a in r <==> a in pbs && ActorWidget(a) !in cs by {
        if Distinct(pbs) {
          forall a
            ensures a in r <==> a in pbs && ActorWidget(a) !in cs
          {
            assert ActorWidget(a) in cs <==> ActorWidget(a) == c || ActorWidget(a) in rest by {
              assert cs == [c] + rest;
            }
          }
        }
      }
      r
  }

  /** Removing nothing keeps every widget. */
  lemma {:induction false} KeptWidgetsNone(ws: seq<Widget>)
    ensures KeptWidgets(ws, []) == ws
  {
    if |ws| > 0 {
      KeptWidgetsNone(ws[1..]);
      assert ws == [ws[0]] + ws[1..];
    }
  }

  /** On a screen without repeats, `RemoveWidgets` keeps the other widgets in their order. */
  lemma {:induction false} RemoveWidgetsInOrder(ws: seq<Widget>, cs: seq<Widget>)
    requires Distinct(ws)
    ensures RemoveWidgets(ws, cs) == KeptWidgets(ws, cs)
    decreases |cs|
  {
    if |cs| == 0 {
      KeptWidgetsNone(ws);
    } else {
      var c, rest := cs[0], cs[1..];
      var ws' := RemoveWidget(ws, c);
      assert cs == [c] + rest;
      calc {
        RemoveWidgets(ws, cs);
        RemoveWidgets(ws', rest);
        { RemoveWidgetsInOrder(ws', rest); }
        KeptWidgets(ws', rest);
        { if c in ws { KeptWidgetsRemoveFirst(ws, c, rest); } else { KeptWidgetsAbsent(ws, c, rest); } }
        KeptWidgets(ws, [c] + rest);
      }
    }
  }

  /** Removing nothing keeps every bullet. */
  lemma {:induction false} KeptBulletsNone(pbs: seq<Actor>)
    ensures KeptBullets(pbs, []) == pbs
  {
    if |pbs| > 0 {
      KeptBulletsNone(pbs[1..]);
      assert pbs == [pbs[0]] + pbs[1..];
    }
  }

  /** In a bullet list without repeats, the `clear_widgets` loop keeps the other bullets in their order. */
  lemma {:induction false} DropPlayerBulletsInOrder(pbs: seq<Actor>, cs: seq<Widget>)
    requires Distinct(pbs)
    ensures DropPlayerBullets(pbs, cs) == KeptBullets(pbs, cs)
    decreases |cs|
  {
    if |cs| == 0 {
      KeptBulletsNone(pbs);
    } else {
      var c, rest := cs[0], cs[1..];
      assert cs == [c] + rest;
      if c.ActorWidget? && c.actor in pbs {
        var pbs' := DropOne(pbs, c);
        assert pbs' == RemoveFirst(pbs, c.actor);
        calc {
          DropPlayerBullets(pbs, cs);
          DropPlayerBullets(pbs', rest);
          { DropPlayerBulletsInOrder(pbs', rest); }
          KeptBullets(pbs', rest);
          { KeptBulletsRemoveFirst(pbs, c.actor, rest); }
          KeptBullets(pbs, [c] + rest);
        }
      } else {
        assert DropOne(pbs, c) == pbs;
        calc {
          DropPlayerBullets(pbs, cs);
          DropPlayerBullets(pbs, rest);
          { DropPlayerBulletsInOrder(pbs, rest); }
          KeptBullets(pbs, rest);
          { KeptBulletsAbsent(pbs, c, rest); }
          KeptBullets(pbs, [c] + rest);
        }
      }
    }
  }

  // ---------------------------------------------------------------------
  // The invariant
  // ---------------------------------------------------------------------

  function WidgetId(w: Widget): nat {
    match w
    case ActorWidget(a) => a.id
    case Label(id, _) => id
  }

  /** Every actor of `xs` is of kind `k`, was allocated before `next`, and appears once. */
  predicate ListOf(xs: seq<Actor>, k: Kind, next: nat) {
    && Distinct(xs)
    && forall a | a in xs :: a.kind == k && a.id < next
  }

  /**
   * What holds of every container the operations build: each list holds
   * actors of its own kind, each widget is a child at most once, and every
   * identity in use was allocated, so the next one is fresh.
   */
  predicate Valid(s: Container) {
    && Distinct(s.children)
    && (forall w | w in s.children :: WidgetId(w) < s.nextId)
    && ListOf(s.pbullets, PlayerBullet, s.nextId)
    && ListOf(s.ebullets, EnemyBullet, s.nextId)
    && ListOf(s.enemies, EnemyShip, s.nextId)
    && (s.player.Some? ==> s.player.value.kind == PlayerShip && s.player.value.id < s.nextId)
  }

  /** The actor the next `add_*` call creates. */
  function NewActor(s: Container, k: Kind, sp: Spawn): (a: Actor)
    ensures Valid(s) ==> ActorWidget(a) !in s.children
    ensures Valid(s) ==> a !in s.pbullets && a !in s.ebullets && a !in s.enemies
  {
    Actor(s.nextId, k, sp.x, sp.y, sp.vx, sp.vy)
  }

  // ---------------------------------------------------------------------
  // add_* / remove_*
  // ---------------------------------------------------------------------

  /** `add_enemy`: one new enemy at the end of `enemies`, shown on screen. */
  function AddEnemy(s: Container, sp: Spawn): (r: Container)
    ensures |r.enemies| == |s.enemies| + 1 && r.enemies[..|s.enemies|] == s.enemies
    ensures var e := r.enemies[|s.enemies|];
            && e == Actor(s.nextId, EnemyShip, sp.x, sp.y, sp.vx, sp.vy)
            && r.children == [ActorWidget(e)] + s.children
            && (Valid(s) ==> e !in s.enemies && ActorWidget(e) !in s.children)
    ensures r == s.(enemies := r.enemies, children := r.children, nextId := s.nextId + 1)
    ensures Valid(s) ==> Valid(r)
  {
    var a := NewActor(s, EnemyShip, sp);
    s.(enemies := s.enemies + [a], children := AddWidget(s.children, ActorWidget(a)), nextId := s.nextId + 1)
  }

  /** `remove_enemy`: drops one occurrence from `enemies` and the widget; raises if absent. */
  function RemoveEnemy(s: Container, e: Actor): (r: Result<Container, ListError>)
    ensures r.Failure? <==> e !in s.enemies
    ensures r.Success? ==>
              && multiset(r.value.enemies) == multiset(s.enemies) - multiset{e}
              && r.value == s.(enemies := RemoveFirst(s.enemies, e), children := RemoveWidget(s.children, ActorWidget(e)))
    ensures r.Success? && Valid(s) ==>
              && e !in r.value.enemies && ActorWidget(e) !in r.value.children && Valid(r.value)
  {
    if e in s.enemies then
      RemoveFirstDistinct(s.enemies, e);
      Success(s.(enemies := RemoveFirst(s.enemies, e), children := RemoveWidget(s.children, ActorWidget(e))))
    else
      Failure(NotInList)
  }

  /** `add_enemy_bullet`: one new enemy bullet at the end of `ebullets`, shown on screen. */
  function AddEnemyBullet(s: Container, sp: Spawn): (r: Container)
    ensures |r.ebullets| == |s.ebullets| + 1 && r.ebullets[..|s.ebullets|] == s.ebullets
    ensures var b := r.ebullets[|s.ebullets|];
            && b == Actor(s.nextId, EnemyBullet, sp.x, sp.y, sp.vx, sp.vy)
            && r.children == [ActorWidget(b)] + s.children
            && (Valid(s) ==> b !in s.ebullets && ActorWidget(b) !in s.children)
    ensures r == s.(ebullets := r.ebullets, children := r.children, nextId := s.nextId + 1)
    ensures Valid(s) ==> Valid(r)
  {
    var a := NewActor(s, EnemyBullet, sp);
    s.(ebullets := s.ebullets + [a], children := AddWidget(s.children, ActorWidget(a)), nextId := s.nextId + 1)
  }

  /** `remove_enemy_bullet`: drops one occurrence from `ebullets` and the widget; raises if absent. */
  function RemoveEnemyBullet(s: Container, b: Actor): (r: Result<Container, ListError>)
    ensures r.Failure? <==> b !in s.ebullets
    ensures r.Success? ==>
              && multiset(r.value.ebullets) == multiset(s.ebullets) - multiset{b}
              && r.value == s.(ebullets := RemoveFirst(s.ebullets, b), children := RemoveWidget(s.children, ActorWidget(b)))
    ensures r.Success? && Valid(s) ==>
              && b !in r.value.ebullets && ActorWidget(b) !in r.value.children && Valid(r.value)
  {
    if b in s.ebullets then
      RemoveFirstDistinct(s.ebullets, b);
      Success(s.(ebullets := RemoveFirst(s.ebullets, b), children := RemoveWidget(s.children, ActorWidget(b))))
    else
      Failure(NotInList)
  }

  /** `add_player_bullet`: one new player bullet at the end of `pbullets`, shown on screen. */
  function AddPlayerBullet(s: Container, sp: Spawn): (r: Container)
    ensures |r.pbullets| == |s.pbullets| + 1 && r.pbullets[..|s.pbullets|] == s.pbullets
    ensures var b := r.pbullets[|s.pbullets|];
            && b == Actor(s.nextId, PlayerBullet, sp.x, sp.y, sp.vx, sp.vy)
            && r.children == [ActorWidget(b)] + s.children
            && (Valid(s) ==> b !in s.pbullets && ActorWidget(b) !in s.children)
    ensures r == s.(pbullets := r.pbullets, children := r.children, nextId := s.nextId + 1)
    ensures Valid(s) ==> Valid(r)
  {
    var a := NewActor(s, PlayerBullet, sp);
    s.(pbullets := s.pbullets + [a], children := AddWidget(s.children, ActorWidget(a)), nextId := s.nextId + 1)
  }

  /** `remove_player_bullet`: drops one occurrence from `pbullets` and the widget; raises if absent. */
  function RemovePlayerBullet(s: Container, b: Actor): (r: Result<Container, ListError>)
    ensures r.Failure? <==> b !in s.pbullets
    ensures r.Success? ==>
              && multiset(r.value.pbullets) == multiset(s.pbullets) - multiset{b}
              && r.value == s.(pbullets := RemoveFirst(s.pbullets, b), children := RemoveWidget(s.children, ActorWidget(b)))
    ensures r.Success? && Valid(s) ==>
              && b !in r.value.pbullets && ActorWidget(b) !in r.value.children && Valid(r.value)
  {
    if b in s.pbullets then
      RemoveFirstDistinct(s.pbullets, b);
      Success(s.(pbullets := RemoveFirst(s.pbullets, b), children := RemoveWidget(s.children, ActorWidget(b))))
    else
      Failure(NotInList)
  }

  /** Removing the enemy just added restores the container, except that its identity stays used. */
  lemma AddThenRemoveEnemy(s: Container, sp: Spawn)
    requires Valid(s)
    ensures var s1 := AddEnemy(s, sp);
            RemoveEnemy(s1, s1.enemies[|s.enemies|]) == Success(s.(nextId := s.nextId + 1))
  {
    var s1 := AddEnemy(s, sp);
    var e := s1.enemies[|s.enemies|];
    assert s1.enemies == s.enemies + [e];
    RemoveLastAppended(s.enemies, e);
    assert RemoveWidget(s1.children, ActorWidget(e)) == s.children;
    assert RemoveEnemy(s1, e).value.enemies == s.enemies;
  }

  /** Removing the enemy bullet just added restores the container, except for `nextId`. */
  lemma AddThenRemoveEnemyBullet(s: Container, sp: Spawn)
    requires Valid(s)
    ensures var s1 := AddEnemyBullet(s, sp);
            RemoveEnemyBullet(s1, s1.ebullets[|s.ebullets|]) == Success(s.(nextId := s.nextId + 1))
  {
    var s1 := AddEnemyBullet(s, sp);
    var b := s1.ebullets[|s.ebullets|];
    assert s1.ebullets == s.ebullets + [b];
    RemoveLastAppended(s.ebullets, b);
    assert RemoveWidget(s1.children, ActorWidget(b)) == s.children;
    assert RemoveEnemyBullet(s1, b).value.ebullets == s.ebullets;
  }

  /** Removing the player bullet just added restores the container, except for `nextId`. */
  lemma AddThenRemovePlayerBullet(s: Container, sp: Spawn)
    requires Valid(s)
    ensures var s1 := AddPlayerBullet(s, sp);
            RemovePlayerBullet(s1, s1.pbullets[|s.pbullets|]) == Success(s.(nextId := s.nextId + 1))
  {
    var s1 := AddPlayerBullet(s, sp);
    var b := s1.pbullets[|s.pbullets|];
    assert s1.pbullets == s.pbullets + [b];
    RemoveLastAppended(s.pbullets, b);
    assert RemoveWidget(s1.children, ActorWidget(b)) == s.children;
    assert RemovePlayerBullet(s1, b).value.pbullets == s.pbullets;
  }

  /** `add_player`: a new player ship replaces the `player` reference and is shown. */
  function AddPlayer(s: Container, sp: Spawn): (r: Container)
    ensures r.player == Some(Actor(s.nextId, PlayerShip, sp.x, sp.y, sp.vx, sp.vy))
    ensures r.children == [ActorWidget(r.player.value)] + s.children
    ensures Valid(s) ==> ActorWidget(r.player.value) !in s.children
    ensures r == s.(player := r.player, children := r.children, nextId := s.nextId + 1)
    ensures Valid(s) ==> Valid(r)
  {
    var a := NewActor(s, PlayerShip, sp);
    s.(player := Some(a), children := AddWidget(s.children, ActorWidget(a)), nextId := s.nextId + 1)
  }

  /**
   * `remove_player`: takes the player's widget off the screen. The `player`
   * reference itself is kept, so it is never reset to `None` here.
   */
  function RemovePlayer(s: Container): (r: Container)
    ensures r.player == s.player
    ensures s.player.None? ==> r == s
    ensures r == s.(children := r.children)
    ensures Valid(s) && s.player.Some? ==>
              forall w :: w in r.children <==> w in s.children && w != ActorWidget(s.player.value)
    ensures Valid(s) && s.player.Some? ==> r.children == KeptWidgets(s.children, [ActorWidget(s.player.value)])
    ensures Valid(s) ==> Valid(r)
  {
    if s.player.Some? then
      var w := ActorWidget(s.player.value);
      assert Distinct(s.children) ==> RemoveWidget(s.children, w) == KeptWidgets(s.children, [w]) by {
        if Distinct(s.children) {
          RemoveWidgetsInOrder(s.children, [w]);
          assert [w][1..] == [];
        }
      }
      s.(children := RemoveWidget(s.children, w))
    else s
  }

  // ---------------------------------------------------------------------
  // clear_widgets, player_lives, init_game
  // ---------------------------------------------------------------------

  /**
   * `clear_widgets(children)`. With no argument every child widget goes and
   * the three actor lists are emptied. With a list of children, those are
   * taken off the screen, and only those that are player bullets leave their
   * list: enemies and enemy bullets stay listed even when their widget goes.
   */
  function ClearWidgets(s: Container, children: Option<seq<Widget>>): (r: Container)
    ensures children.None? ==>
              r == s.(children := [], pbullets := [], ebullets := [], enemies := [])
    ensures children.Some? ==>
              && r == s.(children := r.children, pbullets := r.pbullets)
              && multiset(r.pbullets) <= multiset(s.pbullets)
              && multiset(r.children) <= multiset(s.children)
    ensures children.Some? && Distinct(s.pbullets) ==>
              forall a :: a in r.pbullets <==> a in s.pbullets && ActorWidget(a) !in children.value
    ensures children.Some? && Distinct(s.children) ==>
              forall w :: w in r.children <==> w in s.children && w !in children.value
    ensures children.Some? && Distinct(s.pbullets) ==> r.pbullets == KeptBullets(s.pbullets, children.value)
    ensures children.Some? && Distinct(s.children) ==> r.children == KeptWidgets(s.children, children.value)
    ensures Valid(s) ==> Valid(r)
  {
    match children
    case None =>
      s.(children := [], pbullets := [], ebullets := [], enemies := [])
    case Some(cs) =>
      var r := s.(children := RemoveWidgets(s.children, cs), pbullets := DropPlayerBullets(s.pbullets, cs));
      assert Distinct(s.pbullets) ==> r.pbullets == KeptBullets(s.pbullets, cs) by {
        if Distinct(s.pbullets) {
          DropPlayerBulletsInOrder(s.pbullets, cs);
        }
      }
      assert Distinct(s.children) ==> r.children == KeptWidgets(s.children, cs) by {
        if Distinct(s.children) {
          RemoveWidgetsInOrder(s.children, cs);
        }
      }
      assert Valid(s) ==> Valid(r) by {
        if Valid(s) {
          assert forall a | a in r.pbullets :: a in s.pbullets;
          assert forall w | w in r.children :: w in s.children;
        }
      }
      r
  }

  /** `on_player_lives`: at zero lives the player leaves the screen and a banner appears. */
  function OnPlayerLives(s: Container, value: int): (r: Container)
    ensures value != 0 ==> r == s
    ensures value == 0 ==>
              && r == s.(children := r.children, nextId := s.nextId + 1)
              && r.children == [Label(s.nextId, DEATH_TEXT)] + RemovePlayer(s).children
    ensures Valid(s) ==> Valid(r)
  {
    if value == 0 then
      var s1 := RemovePlayer(s);
      var banner := Label(s1.nextId, DEATH_TEXT);
      assert Valid(s1) ==> Distinct(AddWidget(s1.children, banner)) by {
        if Valid(s1) {
          assert WidgetId(banner) == s1.nextId;
          DistinctPrepend(banner, s1.children);
        }
      }
      s1.(children := AddWidget(s1.children, banner), nextId := s1.nextId + 1)
    else
      s
  }

  /**
   * Assigning `player_lives`. Kivy calls `on_player_lives` only when the value
   * actually changes, so the observer runs when lives go from non-zero to zero.
   */
  function SetPlayerLives(s: Container, v: int): (r: Container)
    ensures r.playerLives == v && r.player == s.player
    ensures r == s.(playerLives := v, children := r.children, nextId := r.nextId)
    ensures v != 0 || s.playerLives == 0 ==> r == s.(playerLives := v)
    ensures v == 0 && s.playerLives != 0 ==>
              && r.children == [Label(s.nextId, DEATH_TEXT)] + RemovePlayer(s).children
              && r.nextId == s.nextId + 1
    ensures v == 0 && s.playerLives != 0 && Valid(s) && s.player.Some? ==>
              ActorWidget(s.player.value) !in r.children
    ensures Valid(s) ==> Valid(r)
  {
    var s1 := s.(playerLives := v);
    if v != s.playerLives then
      OnPlayerLives(s1, v)
    else
      s1
  }

  /**
   * `init_game`: only when no lives are left, starts a new game at time
   * `now`: lives from the options, score zero, every widget and actor list
   * cleared, and a new player at the bottom centre.
   */
  function InitGame(s: Container, now: real): (r: Container)
    ensures s.playerLives != 0 ==> r == s
    ensures s.playerLives == 0 ==>
              && r.playerLives == s.startLives
              && r.score == 0
              && r.gameStartTime == now
              && r.pbullets == [] && r.ebullets == [] && r.enemies == []
              && r.player == Some(Actor(s.nextId, PlayerShip, s.width / 2.0, PLAYER_Y, 0.0, 0.0))
              && r.children == [ActorWidget(r.player.value)]
              && r == s.(player := r.player, pbullets := [], ebullets := [], enemies := [],
                         children := r.children, playerLives := s.startLives, score := 0,
                         gameStartTime := now, nextId := s.nextId + 1)
              && Valid(r)
  {
    if s.playerLives == 0 then
      var s1 := SetPlayerLives(s.(gameStartTime := now), s.startLives);
      var s2 := ClearWidgets(s1.(score := 0, gameStartTime := now), None);
      AddPlayer(s2, Spawn(s.width / 2.0, PLAYER_Y, 0.0, 0.0))
    else
      s
  }

  // ---------------------------------------------------------------------
  // update_game
  // ---------------------------------------------------------------------

  /** Python's `int(x)` on a float: truncation towards zero. */
  function Trunc(x: real): (n: int)
    ensures x >= 0.0 ==> n as real <= x < n as real + 1.0
    ensures x < 0.0 ==> n as real - 1.0 < x <= n as real
  {
    if x >= 0.0 then x.Floor else -((-x).Floor)
  }

  /** How many enemies may be on screen at time `now`: one more per ten seconds played. */
  function SpawnTarget(s: Container, now: real): int {
    Trunc((now - s.gameStartTime) / SPAWN_PERIOD) + 1
  }

  /** The spawn test of `update_game`. */
  predicate SpawnDue(s: Container, now: real) {
    |s.enemies| < SpawnTarget(s, now)
  }

  /** During the `k`-th ten seconds of play, `k + 1` enemies are allowed. */
  lemma SpawnTargetInPeriod(s: Container, now: real, k: nat)
    requires k as real * SPAWN_PERIOD <= now - s.gameStartTime < (k + 1) as real * SPAWN_PERIOD
    ensures SpawnTarget(s, now) == k + 1
  {
  }

  /**
   * `update_game` for one tick at wall-clock time `now`. Every pair of a
   * player bullet and an enemy that `collide` relates adds 10 to the score.
   * Then, if fewer enemies are listed than `SpawnTarget` allows, exactly one
   * enemy is added just above the top edge with the drawn position and
   * velocity.
   */
  method UpdateGame(s: Container, now: real, collide: (Actor, Actor) -> bool, draw: Draw) returns (r: Container)
    requires SpawnDue(s, now) ==> 0 <= draw.x && draw.x as real <= s.width
    requires -2.0 <= draw.vy <= -1.0 && -2.0 <= draw.vx <= 2.0
    ensures r.score == s.score + SCORE_PER_HIT * Pairs.Hits(s.pbullets, s.enemies, collide)
    ensures r.score >= s.score
    ensures r == s.(score := r.score, enemies := r.enemies, children := r.children, nextId := r.nextId)
    ensures |r.enemies| == |s.enemies| + (if SpawnDue(s, now) then 1 else 0)
    ensures r.enemies[..|s.enemies|] == s.enemies
    ensures SpawnDue(s, now) ==> |r.enemies| <= SpawnTarget(s, now)
    ensures SpawnDue(s, now) ==>
              var e := r.enemies[|s.enemies|];
              && e.kind == EnemyShip
              && e.y == s.height + SPAWN_ABOVE
              && 0.0 <= e.x <= s.width
              && -2.0 <= e.vy <= -1.0 && -2.0 <= e.vx <= 2.0
              && e == Actor(s.nextId, EnemyShip, draw.x as real, s.height + SPAWN_ABOVE, draw.vx, draw.vy)
              && r.children == [ActorWidget(e)] + s.children
              && r.nextId == s.nextId + 1
    ensures !SpawnDue(s, now) ==> r == s.(score := r.score)
    ensures Valid(s) ==> Valid(r)
  {
    r := s;
    var i := 0;
    while i < |s.pbullets|
      invariant 0 <= i <= |s.pbullets|
      invariant r == s.(score := r.score)
      invariant r.score == s.score + SCORE_PER_HIT * Pairs.Hits(s.pbullets[..i], s.enemies, collide)
    {
      var bullet := s.pbullets[i];
      var j := 0;
      while j < |s.enemies|
        invariant 0 <= j <= |s.enemies|
        invariant r == s.(score := r.score)
        invariant r.score == s.score + SCORE_PER_HIT * (Pairs.Hits(s.pbullets[..i], s.enemies, collide)
                                                         + Pairs.Row(bullet, s.enemies[..j], collide))
      {
        assert s.enemies[..j + 1][..j] == s.enemies[..j];
        if collide(bullet, s.enemies[j]) {
          r := r.(score := r.score + SCORE_PER_HIT);
        }
        j := j + 1;
      }
      assert s.enemies[..j] == s.enemies;
      assert s.pbullets[..i + 1][..i] == s.pbullets[..i];
      i := i + 1;
    }
    assert s.pbullets[..i] == s.pbullets;
    if |r.enemies| < SpawnTarget(r, now) {
      r := AddEnemy(r, Spawn(draw.x as real, s.height + SPAWN_ABOVE, draw.vx, draw.vy));
    }
  }

  // ---------------------------------------------------------------------
  // Actor.on_stop
  // ---------------------------------------------------------------------

  /**
   * `Actor.on_stop` for an actor of this container, run when its animation
   * ends: the widget leaves the screen if it is still on it. The actor is
   * not taken out of its list.
   */
  function ActorOnStop(s: Container, a: Actor): (r: Container)
    ensures ActorWidget(a) !in s.children ==> r == s
    ensures r == s.(children := r.children)
    ensures Distinct(s.children) ==>
              forall w :: w in r.children <==> w in s.children && w != ActorWidget(a)
    ensures Distinct(s.children) ==> r.children == KeptWidgets(s.children, [ActorWidget(a)])
    ensures Valid(s) ==> Valid(r)
  {
    var w := ActorWidget(a);
    assert Distinct(s.children) ==> RemoveWidget(s.children, w) == KeptWidgets(s.children, [w]) by {
      if Distinct(s.children) {
        RemoveWidgetsInOrder(s.children, [w]);
        assert [w][1..] == [];
      }
    }
    s.(children := RemoveWidget(s.children, w))
  }
}
