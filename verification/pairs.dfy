/**
 * Counting colliding pairs, the quantity `update_game` adds to the score
 * (space_invader/engine.py). `Hits(bs, es, c)` is the number of index pairs
 * `(i, j)` with `c(bs[i], es[j])`: each bullet counts once for every enemy
 * it touches, with no de-duplication per bullet or per enemy.
 */
module Pairs {

  /** Number of `es[j]` that `b` collides with. */
  function Row<A, B>(b: A, es: seq<B>, c: (A, B) -> bool): nat {
    if |es| == 0 then 0
    else Row(b, es[..|es| - 1], c) + (if c(b, es[|es| - 1]) then 1 else 0)
  }

  /** Number of `bs[i]` that collide with `e`. */
  function Col<A, B>(bs: seq<A>, e: B, c: (A, B) -> bool): nat {
    if |bs| == 0 then 0
    else Col(bs[..|bs| - 1], e, c) + (if c(bs[|bs| - 1], e) then 1 else 0)
  }

  /** Number of colliding pairs, one row per element of `bs`. */
  function Hits<A, B>(bs: seq<A>, es: seq<B>, c: (A, B) -> bool): nat {
    if |bs| == 0 then 0
    else Hits(bs[..|bs| - 1], es, c) + Row(bs[|bs| - 1], es, c)
  }

  /** The same relation with its arguments swapped. */
  function Flip<A, B>(c: (A, B) -> bool): (B, A) -> bool {
    (e: B, b: A) => c(b, e)
  }

  /** A row never counts more than the enemies it is checked against. */
  lemma {:induction false} RowBound<A, B>(b: A, es: seq<B>, c: (A, B) -> bool)
    ensures Row(b, es, c) <= |es|
  {
    if |es| > 0 {
      RowBound(b, es[..|es| - 1], c);
    }
  }

  /** At most every pair collides. */
  lemma {:induction false} HitsBound<A, B>(bs: seq<A>, es: seq<B>, c: (A, B) -> bool)
    ensures Hits(bs, es, c) <= |bs| * |es|
  {
    if |bs| > 0 {
      HitsBound(bs[..|bs| - 1], es, c);
      RowBound(bs[|bs| - 1], es, c);
      assert |bs| * |es| == (|bs| - 1) * |es| + |es|;
    }
  }

  /** Adding an enemy adds one column: the bullets that collide with it. */
  lemma {:induction false} HitsSnocEnemy<A, B>(bs: seq<A>, es: seq<B>, e: B, c: (A, B) -> bool)
    ensures Hits(bs, es + [e], c) == Hits(bs, es, c) + Col(bs, e, c)
  {
    if |bs| > 0 {
      var last := bs[|bs| - 1];
      HitsSnocEnemy(bs[..|bs| - 1], es, e, c);
      assert (es + [e])[..|es + [e]| - 1] == es;
      assert Row(last, es + [e], c) == Row(last, es, c) + (if c(last, e) then 1 else 0);
    }
  }

  /**
   * The count does not depend on which list is the outer loop: counting
   * bullets against enemies equals counting enemies against bullets.
   */
  lemma {:induction false} HitsTranspose<A, B>(bs: seq<A>, es: seq<B>, c: (A, B) -> bool)
    ensures Hits(es, bs, Flip(c)) == Hits(bs, es, c)
  {
    if |es| > 0 {
      var init := es[..|es| - 1];
      var e := es[|es| - 1];
      HitsTranspose(bs, init, c);
      ColFlip(bs, e, c);
      HitsSnocEnemy(bs, init, e, c);
      assert Hits(es, bs, Flip(c)) == Hits(init, bs, Flip(c)) + Row(e, bs, Flip(c));
      assert init + [e] == es;
    } else {
      HitsNoEnemies(bs, es, c);
    }
  }

  /** With no enemies there is nothing to hit. */
  lemma {:induction false} HitsNoEnemies<A, B>(bs: seq<A>, es: seq<B>, c: (A, B) -> bool)
    requires |es| == 0
    ensures Hits(bs, es, c) == 0
  {
    if |bs| > 0 {
      HitsNoEnemies(bs[..|bs| - 1], es, c);
    }
  }

  /** The row of `e` under the swapped relation is the column of `e` under the original. */
  lemma {:induction false} ColFlip<A, B>(bs: seq<A>, e: B, c: (A, B) -> bool)
    ensures Row(e, bs, Flip(c)) == Col(bs, e, c)
  {
    if |bs| > 0 {
      ColFlip(bs[..|bs| - 1], e, c);
    }
  }
}
