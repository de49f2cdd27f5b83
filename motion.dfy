/** The motion updater: every enemy advances by its velocity, then the ones
    that left the widened play field are dropped. */
module Motion {
  import opened Entities

  /** The enemy one tick later. */
  function Advance(e: Enemy): Enemy
  {
    e.(x := e.x + e.speedX, y := e.y + e.speedY)
  }

  /** The filter's verdict on one enemy: its advanced self if that is still in
      the widened field, nothing otherwise. */
  function Kept(e: Enemy, width: real, height: real): seq<Enemy>
  {
    var m := Advance(e);
    if InField(m, width, height) then [m] else []
  }

  /** `m` is `e` after exactly one step of its own velocity. */
  ghost predicate MovedFrom(m: Enemy, e: Enemy)
  {
    m.x == e.x + e.speedX && m.y == e.y + e.speedY &&
    m.size == e.size && m.speedX == e.speedX && m.speedY == e.speedY
  }

  /** The enemy list after one motion step (the left-to-right filter). */
  function Survivors(es: seq<Enemy>, width: real, height: real): (r: seq<Enemy>)
    ensures |r| <= |es|
    ensures forall k :: 0 <= k < |r| ==> InBox(r[k], width, height)
  {
    if es == [] then []
    else Survivors(es[..|es| - 1], width, height) + Kept(es[|es| - 1], width, height)
  }

  /** Filtering a concatenation filters each part: the survivors keep their
      relative order. */
  lemma {:induction false} SurvivorsAppend(a: seq<Enemy>, b: seq<Enemy>, width: real, height: real)
    ensures Survivors(a + b, width, height) == Survivors(a, width, height) + Survivors(b, width, height)
    decreases |b|
  {
    if b == [] {
      assert a + b == a;
    } else {
      var n := |b| - 1;
      assert (a + b)[..|a + b| - 1] == a + b[..n];
      assert (a + b)[|a + b| - 1] == b[n];
      SurvivorsAppend(a, b[..n], width, height);
    }
  }

  /** The enemy at position i is dropped exactly when its advanced position is
      outside the widened field; otherwise it sits, advanced, between the
      survivors of the enemies before it and those of the enemies after it. */
  lemma SurvivorsSplit(es: seq<Enemy>, i: int, width: real, height: real)
    requires 0 <= i < |es|
    ensures Survivors(es, width, height) ==
              Survivors(es[..i], width, height)
              + (if InBox(Advance(es[i]), width, height) then [Advance(es[i])] else [])
              + Survivors(es[i + 1..], width, height)
  {
    assert es == es[..i] + [es[i]] + es[i + 1..];
    SurvivorsAppend(es[..i] + [es[i]], es[i + 1..], width, height);
    SurvivorsAppend(es[..i], [es[i]], width, height);
    assert [es[i]][..0] == [];
  }

  /** An enemy survives the step iff it is some old enemy moved by exactly its
      velocity and lies in the widened field. */
  lemma {:induction false} SurvivorsMembership(es: seq<Enemy>, m: Enemy, width: real, height: real)
    ensures m in Survivors(es, width, height) <==>
              exists i :: 0 <= i < |es| && MovedFrom(m, es[i]) && InBox(m, width, height)
    decreases |es|
  {
    if es != [] {
      var n := |es| - 1;
      var init := es[..n];
      SurvivorsMembership(init, m, width, height);
      if m in Survivors(es, width, height) {
        if m !in Survivors(init, width, height) {
          assert m == Advance(es[n]) && MovedFrom(m, es[n]);
        } else {
          var i :| 0 <= i < |init| && MovedFrom(m, init[i]) && InBox(m, width, height);
          assert es[i] == init[i];
        }
      }
      if exists i :: 0 <= i < |es| && MovedFrom(m, es[i]) && InBox(m, width, height) {
        var i :| 0 <= i < |es| && MovedFrom(m, es[i]) && InBox(m, width, height);
        if i < n {
          assert init[i] == es[i];
        } else {
          assert m == Advance(es[n]);
        }
      }
    }
  }
}
