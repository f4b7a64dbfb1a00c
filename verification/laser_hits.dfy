/**
 * What one pass of `trigger_laser_hits` does to the meteors, the lasers,
 * the explosions and the score, as a function of the lasers present when
 * the pass starts, and what that pass guarantees.
 */
module LaserScoring {
  import opened Seqs
  import opened Sprites

  /**
   * The library's collision test between two sprites. The game only
   * consumes its answers, so it is a parameter of every operation that
   * asks it.
   */
  type Collides = (Sprite, Sprite) -> bool

  /** Selects the meteors a laser overlaps. */
  function HitBy(collides: Collides, laser: Sprite): Sprite -> bool
  {
    m => collides(laser, m)
  }

  /** Selects the meteors a laser does not overlap. */
  function MissedBy(collides: Collides, laser: Sprite): Sprite -> bool
  {
    m => !collides(laser, m)
  }

  /** `collides_with_list`: the sprites of `list` that `s` overlaps, in list order. */
  function CollidesWithList(collides: Collides, s: Sprite, list: seq<Sprite>): (r: seq<Sprite>)
    ensures |r| <= |list|
  {
    Filter(list, HitBy(collides, s))
  }

  /** The sprites `collides_with_list` reports are exactly the overlapped members of the list. */
  lemma CollidesWithListMembers(collides: Collides, s: Sprite, list: seq<Sprite>)
    ensures forall m :: m in CollidesWithList(collides, s, list) <==> m in list && collides(s, m)
  {
    FilterMembership(list, HitBy(collides, s));
  }

  /** `m` is the first meteor of `ms`, in list order, that `laser` overlaps. */
  ghost predicate FirstOverlapped(collides: Collides, laser: Sprite, ms: seq<Sprite>, m: Sprite)
  {
    exists i :: 0 <= i < |ms| && ms[i] == m && collides(laser, m) &&
      forall j :: 0 <= j < i ==> !collides(laser, ms[j])
  }

  /**
   * `collides_with_list` reports something exactly when the sprite overlaps
   * some member of the list, and then the first sprite it reports is the
   * first member of the list that the sprite overlaps.
   */
  lemma CollidesWithListFirst(collides: Collides, s: Sprite, list: seq<Sprite>)
    ensures |CollidesWithList(collides, s, list)| > 0 <==> exists m :: m in list && collides(s, m)
    ensures |CollidesWithList(collides, s, list)| > 0 ==>
      FirstOverlapped(collides, s, list, CollidesWithList(collides, s, list)[0])
  {
    FilterFirst(list, HitBy(collides, s));
    if exists m :: m in list && collides(s, m) {
      var m :| m in list && collides(s, m);
      var i :| 0 <= i < |list| && list[i] == m;
      assert HitBy(collides, s)(list[i]);
    }
  }

  /**
   * The explosion a hit creates: placed on the centre of the hit meteor,
   * then updated once before it is added to the explosion list. That
   * first update sets the frame counter to 1; it cannot remove the
   * explosion, which is in no list yet.
   */
  function ExplosionAt(m: Sprite, textureCount: nat): (e: Explosion)
    ensures e.centerX == m.centerX && e.centerY == m.centerY
    ensures e.currentTexture == 1 && e.textureCount == textureCount
    ensures textureCount > 1 ==> HasFrame(e)
  {
    Explosion(m.centerX, m.centerY, 0, textureCount).(currentTexture := 1)
  }

  /**
   * The state the laser loop works on: the meteor list, the lasers kept
   * so far, the explosion list and the number of meteors destroyed.
   */
  datatype HitState = HitState(meteors: seq<Sprite>, lasers: seq<Sprite>,
                               explosions: seq<Explosion>, hits: nat)

  /**
   * The loop body for one laser. If it overlaps any meteor, one explosion
   * appears on the first of them and the laser goes; every overlapped
   * meteor goes and counts one hit; a laser above the screen goes as well.
   */
  function ShotStep(collides: Collides, textureCount: nat, st: HitState, laser: Sprite): HitState
  {
    var hit := CollidesWithList(collides, laser, st.meteors);
    var removed := |hit| > 0 || laser.Bottom() > ScreenHeight;
    HitState(
      Filter(st.meteors, MissedBy(collides, laser)),
      if removed then st.lasers else st.lasers + [laser],
      if |hit| > 0 then st.explosions + [ExplosionAt(hit[0], textureCount)] else st.explosions,
      st.hits + |hit|)
  }

  /** The loop over the lasers present at the start (`shots`), in order. */
  function LaserHits(collides: Collides, textureCount: nat, st: HitState, shots: seq<Sprite>): (r: HitState)
    ensures |r.meteors| <= |st.meteors| && r.hits >= st.hits
    ensures |st.lasers| <= |r.lasers| <= |st.lasers| + |shots|
    ensures |st.explosions| <= |r.explosions| <= |st.explosions| + |shots|
    decreases |shots|
  {
    if shots == [] then st
    else ShotStep(collides, textureCount, LaserHits(collides, textureCount, st, shots[..|shots| - 1]), shots[|shots| - 1])
  }

  /**
   * The fate of one laser, exactly: the meteors it overlaps leave and each
   * scores a hit. If it overlaps any, it is removed and one explosion is
   * appended, on the first meteor in list order that it overlaps. If it
   * overlaps none, no explosion appears, and the laser is kept exactly
   * when it is not above the screen.
   */
  lemma ShotStepFate(collides: Collides, textureCount: nat, st: HitState, laser: Sprite)
    ensures var r := ShotStep(collides, textureCount, st, laser);
      && (forall m :: m in r.meteors <==> m in st.meteors && !collides(laser, m))
      && r.hits - st.hits == |st.meteors| - |r.meteors|
      && ((exists m :: m in st.meteors && collides(laser, m)) ==>
            && r.lasers == st.lasers && r.hits > st.hits
            && exists m :: FirstOverlapped(collides, laser, st.meteors, m) &&
                 r.explosions == st.explosions + [ExplosionAt(m, textureCount)])
      && ((forall m :: m in st.meteors ==> !collides(laser, m)) ==>
            && r.lasers == (if laser.Bottom() <= ScreenHeight then st.lasers + [laser] else st.lasers)
            && r.explosions == st.explosions && r.hits == st.hits)
  {
    var hit := CollidesWithList(collides, laser, st.meteors);
    CollidesWithListFirst(collides, laser, st.meteors);
    FilterMembership(st.meteors, MissedBy(collides, laser));
    FilterSplit(st.meteors, HitBy(collides, laser), MissedBy(collides, laser));
    if |hit| > 0 {
      var r := ShotStep(collides, textureCount, st, laser);
      assert FirstOverlapped(collides, laser, st.meteors, hit[0]) &&
        r.explosions == st.explosions + [ExplosionAt(hit[0], textureCount)];
    }
  }

  /** No laser of `shots` overlaps meteor `m`. */
  predicate Untouched(collides: Collides, shots: seq<Sprite>, m: Sprite)
  {
    forall l :: l in shots ==> !collides(l, m)
  }

  function UntouchedBy(collides: Collides, shots: seq<Sprite>): Sprite -> bool
  {
    m => Untouched(collides, shots, m)
  }

  /** Folding over `shots` and then one more laser is folding over both. */
  lemma LaserHitsSnoc(collides: Collides, textureCount: nat, st: HitState, shots: seq<Sprite>, laser: Sprite)
    ensures LaserHits(collides, textureCount, st, shots + [laser])
         == ShotStep(collides, textureCount, LaserHits(collides, textureCount, st, shots), laser)
  {
    assert (shots + [laser])[..|shots|] == shots;
  }

  /**
   * Score conservation: the meteors destroyed and the meteors left always
   * add up to the meteors there were, so the score grows by exactly the
   * number of meteors removed.
   */
  lemma {:induction false} RemovedMeteorsAreScored(collides: Collides, textureCount: nat, st: HitState, shots: seq<Sprite>)
    ensures var r := LaserHits(collides, textureCount, st, shots);
      r.hits + |r.meteors| == st.hits + |st.meteors|
    decreases |shots|
  {
    if shots != [] {
      var before := LaserHits(collides, textureCount, st, shots[..|shots| - 1]);
      RemovedMeteorsAreScored(collides, textureCount, st, shots[..|shots| - 1]);
      var laser := shots[|shots| - 1];
      FilterSplit(before.meteors, HitBy(collides, laser), MissedBy(collides, laser));
    }
  }

  /**
   * The meteors that survive are exactly, and in their order, those that
   * no laser of the pass overlaps: every overlapped meteor is removed.
   */
  lemma {:induction false} SurvivingMeteors(collides: Collides, textureCount: nat, st: HitState, shots: seq<Sprite>)
    ensures LaserHits(collides, textureCount, st, shots).meteors == Filter(st.meteors, UntouchedBy(collides, shots))
    decreases |shots|
  {
    if shots == [] {
      FilterAll(st.meteors, UntouchedBy(collides, shots));
    } else {
      var init := shots[..|shots| - 1];
      var laser := shots[|shots| - 1];
      assert shots == init + [laser];
      SurvivingMeteors(collides, textureCount, st, init);
      FilterTwice(st.meteors, UntouchedBy(collides, init), MissedBy(collides, laser), UntouchedBy(collides, shots));
    }
  }

  /** Selects the lasers that are not above the screen. */
  predicate NotAbove(l: Sprite)
  {
    l.Bottom() <= ScreenHeight
  }

  /**
   * What happens to the lasers: the lasers kept before the pass stay in
   * front; every laser kept by the pass is one of its lasers and is not
   * above the screen; no laser is both kept and the cause of an
   * explosion, since a laser that hits is removed; and every laser not
   * above the screen is either kept or the cause of an explosion.
   */
  lemma {:induction false} LaserFates(collides: Collides, textureCount: nat, st: HitState, shots: seq<Sprite>)
    ensures var r := LaserHits(collides, textureCount, st, shots);
      && |st.lasers| <= |r.lasers|
      && r.lasers[..|st.lasers|] == st.lasers
      && (forall l :: l in r.lasers[|st.lasers|..] ==> l in shots && l.Bottom() <= ScreenHeight)
      && |st.explosions| <= |r.explosions|
      && |Filter(shots, NotAbove)| <= (|r.lasers| - |st.lasers|) + (|r.explosions| - |st.explosions|) <= |shots|
    decreases |shots|
  {
    if shots != [] {
      var init := shots[..|shots| - 1];
      var laser := shots[|shots| - 1];
      var before := LaserHits(collides, textureCount, st, init);
      LaserFates(collides, textureCount, st, init);
      assert shots == init + [laser];
      FilterAppend(init, [laser], NotAbove);
      assert [laser][1..] == [];
      var r := LaserHits(collides, textureCount, st, shots);
      assert r.lasers[..|st.lasers|] == before.lasers[..|st.lasers|];
      forall l | l in r.lasers[|st.lasers|..]
        ensures l in shots && l.Bottom() <= ScreenHeight
      {
        if l in before.lasers[|st.lasers|..] {
          assert l in init;
        } else {
          assert r.lasers[|st.lasers|..] == before.lasers[|st.lasers|..] + [laser];
        }
      }
    }
  }

  /**
   * Explosion `e` sits on a meteor that was in `before` and is gone from
   * `after`.
   */
  ghost predicate MarksDestroyed(e: Explosion, textureCount: nat, before: seq<Sprite>, after: seq<Sprite>)
  {
    exists m :: m in before && m !in after && e == ExplosionAt(m, textureCount)
  }

  /** Widening the meteors there were and narrowing those left keeps the mark. */
  lemma MarksDestroyedMono(e: Explosion, textureCount: nat, before: seq<Sprite>, after: seq<Sprite>,
                           before': seq<Sprite>, after': seq<Sprite>)
    requires MarksDestroyed(e, textureCount, before, after)
    requires forall m :: m in before ==> m in before'
    requires forall m :: m in after' ==> m in after
    ensures MarksDestroyed(e, textureCount, before', after')
  {
    var m :| m in before && m !in after && e == ExplosionAt(m, textureCount);
    assert m in before' && m !in after';
  }

  /**
   * The explosions of the pass are appended, at most one per destroyed
   * meteor, and a pass that destroys any meteor leaves at least one.
   */
  lemma {:induction false} ExplosionsAppended(collides: Collides, textureCount: nat, st: HitState, shots: seq<Sprite>)
    ensures var r := LaserHits(collides, textureCount, st, shots);
      && |st.explosions| <= |r.explosions|
      && r.explosions[..|st.explosions|] == st.explosions
      && |r.explosions| - |st.explosions| <= r.hits - st.hits
      && (r.hits > st.hits ==> |r.explosions| > |st.explosions|)
    decreases |shots|
  {
    if shots != [] {
      var init := shots[..|shots| - 1];
      var before := LaserHits(collides, textureCount, st, init);
      ExplosionsAppended(collides, textureCount, st, init);
      var r := LaserHits(collides, textureCount, st, shots);
      assert r.explosions[..|st.explosions|] == before.explosions[..|st.explosions|];
    }
  }

  /** No meteor appears during the pass that was not there at the start. */
  lemma MeteorsOnlyLeave(collides: Collides, textureCount: nat, st: HitState, shots: seq<Sprite>)
    ensures forall m :: m in LaserHits(collides, textureCount, st, shots).meteors ==> m in st.meteors
  {
    SurvivingMeteors(collides, textureCount, st, shots);
    FilterMembership(st.meteors, UntouchedBy(collides, shots));
  }

  /**
   * Each explosion the pass creates shows frame 1 and sits on the centre
   * of a meteor that was there at the start and has been destroyed.
   */
  lemma {:induction false} ExplosionsOnDestroyedMeteors(collides: Collides, textureCount: nat, st: HitState, shots: seq<Sprite>)
    ensures var r := LaserHits(collides, textureCount, st, shots);
      |st.explosions| <= |r.explosions| &&
      forall k :: |st.explosions| <= k < |r.explosions| ==>
        MarksDestroyed(r.explosions[k], textureCount, st.meteors, r.meteors)
    decreases |shots|
  {
    ExplosionsAppended(collides, textureCount, st, shots);
    if shots != [] {
      var init := shots[..|shots| - 1];
      var laser := shots[|shots| - 1];
      var before := LaserHits(collides, textureCount, st, init);
      ExplosionsOnDestroyedMeteors(collides, textureCount, st, init);
      MeteorsOnlyLeave(collides, textureCount, st, init);
      var r := ShotStep(collides, textureCount, before, laser);
      assert r == LaserHits(collides, textureCount, st, shots);
      var hit := CollidesWithList(collides, laser, before.meteors);
      CollidesWithListMembers(collides, laser, before.meteors);
      FilterMembership(before.meteors, MissedBy(collides, laser));
      forall k | |st.explosions| <= k < |r.explosions|
        ensures MarksDestroyed(r.explosions[k], textureCount, st.meteors, r.meteors)
      {
        if k < |before.explosions| {
          assert r.explosions[k] == before.explosions[k];
          MarksDestroyedMono(r.explosions[k], textureCount, st.meteors, before.meteors, st.meteors, r.meteors);
        } else {
          assert |hit| > 0 && r.explosions[k] == ExplosionAt(hit[0], textureCount);
          assert hit[0] in hit;
          assert hit[0] in st.meteors && hit[0] !in r.meteors;
        }
      }
    }
  }

  /**
   * A laser of the pass that is not above the screen and overlaps none of
   * the meteors there were at the start is kept.
   */
  lemma {:induction false} LaserKeptWhenMissing(collides: Collides, textureCount: nat, st: HitState, shots: seq<Sprite>)
    ensures forall l :: l in shots && l.Bottom() <= ScreenHeight && (forall m :: m in st.meteors ==> !collides(l, m)) ==>
      l in LaserHits(collides, textureCount, st, shots).lasers
    decreases |shots|
  {
    if shots != [] {
      var init := shots[..|shots| - 1];
      var laser := shots[|shots| - 1];
      var before := LaserHits(collides, textureCount, st, init);
      LaserKeptWhenMissing(collides, textureCount, st, init);
      var r := ShotStep(collides, textureCount, before, laser);
      assert r == LaserHits(collides, textureCount, st, shots);
      forall l | l in shots && l.Bottom() <= ScreenHeight && (forall m :: m in st.meteors ==> !collides(l, m))
        ensures l in r.lasers
      {
        if l !in init {
          assert l == laser;
          MeteorsOnlyLeave(collides, textureCount, st, init);
          CollidesWithListFirst(collides, laser, before.meteors);
        }
      }
    }
  }

  /**
   * Explosion `e` is the one the `i`-th laser of `shots` placed: on the
   * first meteor, in list order, that it overlapped among the meteors
   * left when its turn came.
   */
  ghost predicate ExplodedBy(collides: Collides, textureCount: nat, st: HitState, shots: seq<Sprite>, i: int, e: Explosion)
  {
    && 0 <= i < |shots|
    && exists m :: FirstOverlapped(collides, shots[i], LaserHits(collides, textureCount, st, shots[..i]).meteors, m) &&
         e == ExplosionAt(m, textureCount)
  }

  /** Placing an explosion is a fact about a prefix of the lasers, so more lasers after it keep it. */
  lemma ExplodedByExtend(collides: Collides, textureCount: nat, st: HitState, init: seq<Sprite>, laser: Sprite,
                         i: int, e: Explosion)
    requires ExplodedBy(collides, textureCount, st, init, i, e)
    ensures ExplodedBy(collides, textureCount, st, init + [laser], i, e)
  {
    assert (init + [laser])[..i] == init[..i] && (init + [laser])[i] == init[i];
  }

  /** The explosion the last laser places on the first meteor it hits. */
  lemma ExplodedByLast(collides: Collides, textureCount: nat, st: HitState, init: seq<Sprite>, laser: Sprite, m: Sprite)
    requires FirstOverlapped(collides, laser, LaserHits(collides, textureCount, st, init).meteors, m)
    ensures ExplodedBy(collides, textureCount, st, init + [laser], |init|, ExplosionAt(m, textureCount))
  {
  }

  /** Each explosion of the pass was placed by one of its lasers on the first meteor that laser hit. */
  lemma {:induction false} ExplosionsOnFirstHits(collides: Collides, textureCount: nat, st: HitState, shots: seq<Sprite>)
    ensures forall e :: e in LaserHits(collides, textureCount, st, shots).explosions[|st.explosions|..] ==>
      exists i :: ExplodedBy(collides, textureCount, st, shots, i, e)
    decreases |shots|
  {
    if shots != [] {
      var init := shots[..|shots| - 1];
      var laser := shots[|shots| - 1];
      assert shots == init + [laser];
      var before := LaserHits(collides, textureCount, st, init);
      ExplosionsOnFirstHits(collides, textureCount, st, init);
      ShotStepFate(collides, textureCount, before, laser);
      var r := LaserHits(collides, textureCount, st, shots);
      assert r == ShotStep(collides, textureCount, before, laser);
      var n := |st.explosions|;
      forall e | e in r.explosions[n..]
        ensures exists i :: ExplodedBy(collides, textureCount, st, shots, i, e)
      {
        if e in before.explosions[n..] {
          assert e in LaserHits(collides, textureCount, st, init).explosions[|st.explosions|..];
          var i :| ExplodedBy(collides, textureCount, st, init, i, e);
          ExplodedByExtend(collides, textureCount, st, init, laser, i, e);
        } else {
          var m :| FirstOverlapped(collides, laser, before.meteors, m) &&
            r.explosions == before.explosions + [ExplosionAt(m, textureCount)];
          assert r.explosions[n..] == before.explosions[n..] + [ExplosionAt(m, textureCount)];
          ExplodedByLast(collides, textureCount, st, init, laser, m);
        }
      }
    }
  }

  /**
   * A laser overlapping the only meteor there is: both go, the score
   * rises by one, and one explosion appears where the meteor was.
   */
  lemma {:induction false} SingleHit(collides: Collides, textureCount: nat, laser: Sprite, meteor: Sprite)
    requires collides(laser, meteor)
    ensures LaserHits(collides, textureCount, HitState([meteor], [], [], 0), [laser])
         == HitState([], [], [ExplosionAt(meteor, textureCount)], 1)
  {
    var st := HitState([meteor], [], [], 0);
    assert LaserHits(collides, textureCount, st, []) == st;
    assert [laser][..0] == [];
    assert CollidesWithList(collides, laser, [meteor]) == [meteor];
    assert Filter([meteor], MissedBy(collides, laser)) == [];
  }
}
