/**
 * The sprites of Moretini Invaders and the per-tick rules each kind of
 * sprite follows: plain sprites (the player, lasers) move by their
 * velocity, flying sprites (meteors, plasma clouds) move and leave their
 * list once they have dropped below the screen, explosions count through
 * their animation frames and leave their list after the last one.
 */
module Sprites {
  import opened Wrappers
  import opened Seqs

  const ScreenWidth: real := 600.0
  const ScreenHeight: real := 800.0

  /**
   * A sprite as the game logic sees it: the centre, the extents of its hit
   * box (taken as a box of `width` by `height` centred on the centre) and
   * the velocity added on every update.
   */
  datatype Sprite = Sprite(centerX: real, centerY: real, width: real, height: real,
                           changeX: real, changeY: real)
  {
    function Top(): real { centerY + height / 2.0 }
    function Bottom(): real { centerY - height / 2.0 }
    function Left(): real { centerX - width / 2.0 }
    function Right(): real { centerX + width / 2.0 }

    /** Assigning `top`: moves the sprite vertically so that its top is `y`. */
    function WithTop(y: real): (r: Sprite)
      ensures r.Top() == y && r == this.(centerY := r.centerY)
    {
      this.(centerY := y - height / 2.0)
    }

    /** Assigning `bottom`. */
    function WithBottom(y: real): (r: Sprite)
      ensures r.Bottom() == y && r == this.(centerY := r.centerY)
    {
      this.(centerY := y + height / 2.0)
    }

    /** Assigning `left`. */
    function WithLeft(x: real): (r: Sprite)
      ensures r.Left() == x && r == this.(centerX := r.centerX)
    {
      this.(centerX := x + width / 2.0)
    }

    /** Assigning `right`. */
    function WithRight(x: real): (r: Sprite)
      ensures r.Right() == x && r == this.(centerX := r.centerX)
    {
      this.(centerX := x - width / 2.0)
    }

    /**
     * The library's `Sprite.update`: one step of the velocity. The whole
     * hit box shifts by the velocity; size and velocity stay.
     */
    function Moved(): (r: Sprite)
      ensures r.Top() == Top() + changeY && r.Bottom() == Bottom() + changeY
      ensures r.Left() == Left() + changeX && r.Right() == Right() + changeX
      ensures r.width == width && r.height == height
      ensures r.changeX == changeX && r.changeY == changeY
    {
      this.(centerX := centerX + changeX, centerY := centerY + changeY)
    }
  }

  /** The hit box lies entirely inside the 600 by 800 screen. */
  predicate OnScreen(s: Sprite)
  {
    0.0 <= s.Left() && s.Right() <= ScreenWidth && 0.0 <= s.Bottom() && s.Top() <= ScreenHeight
  }

  /**
   * `FlyingSprite.update`: move by the velocity, then leave the list
   * (None) exactly when the moved sprite's top is below the screen.
   */
  function FlyingUpdate(s: Sprite): (r: Option<Sprite>)
    ensures r.None? <==> s.Moved().Top() < 0.0
    ensures r.Some? ==> r.value == s.Moved()
  {
    var moved := s.Moved();
    if moved.Top() < 0.0 then None else Some(moved)
  }

  /**
   * A sprite list of flying sprites after one update (`SpriteList.update`
   * calling `FlyingSprite.update` on each member, which removes itself
   * from the list when it has dropped below the screen).
   */
  function FlyingListUpdate(s: seq<Sprite>): (r: seq<Sprite>)
    ensures |r| <= |s|
    decreases |s|
  {
    if s == [] then []
    else
      match FlyingUpdate(s[0])
      case Some(m) => [m] + FlyingListUpdate(s[1..])
      case None => FlyingListUpdate(s[1..])
  }

  /** Selects the sprites whose top is not below the screen. */
  predicate NotBelow(x: Sprite)
  {
    x.Top() >= 0.0
  }

  /**
   * One update of a flying sprite list moves every sprite and keeps,
   * in their order, exactly the moved sprites that are not below the
   * screen.
   */
  lemma {:induction false} FlyingListUpdateKeepsVisible(s: seq<Sprite>)
    ensures FlyingListUpdate(s) == Filter(MovedAll(s), NotBelow)
    decreases |s|
  {
    if s != [] {
      FlyingListUpdateKeepsVisible(s[1..]);
      assert MovedAll(s)[1..] == MovedAll(s[1..]);
    }
  }

  /**
   * Hence nothing is left below the screen, a moved sprite is still in
   * the list exactly when it is not below the screen, and nothing new
   * appears.
   */
  lemma FlyingListUpdateMembers(s: seq<Sprite>)
    ensures forall x :: x in FlyingListUpdate(s) ==> x.Top() >= 0.0
    ensures forall i :: 0 <= i < |s| ==> (s[i].Moved() in FlyingListUpdate(s) <==> s[i].Moved().Top() >= 0.0)
    ensures forall x :: x in FlyingListUpdate(s) ==> exists i :: 0 <= i < |s| && x == s[i].Moved()
  {
    FlyingListUpdateKeepsVisible(s);
    FilterMembership(MovedAll(s), NotBelow);
    forall x | x in FlyingListUpdate(s)
      ensures exists i :: 0 <= i < |s| && x == s[i].Moved()
    {
      var i :| 0 <= i < |MovedAll(s)| && MovedAll(s)[i] == x;
    }
  }

  /** A plain sprite list (the lasers) after one update: every sprite moved, none removed. */
  function MovedAll(s: seq<Sprite>): (r: seq<Sprite>)
    ensures |r| == |s|
    ensures forall i :: 0 <= i < |s| ==> r[i] == s[i].Moved()
  {
    seq(|s|, i requires 0 <= i < |s| => s[i].Moved())
  }

  /**
   * Keeping the player on the screen: the four corrections of the tick,
   * applied in the order top, right, bottom, left. Afterwards the left and
   * bottom edges are on the screen; the top and right edges are as well
   * whenever the sprite is no taller and no wider than the screen. A
   * sprite already on the screen is left where it is.
   */
  function Clamped(s: Sprite): (r: Sprite)
    ensures r.Left() >= 0.0 && r.Bottom() >= 0.0
    ensures s.height <= ScreenHeight ==> r.Top() <= ScreenHeight
    ensures s.width <= ScreenWidth ==> r.Right() <= ScreenWidth
    ensures r.width == s.width && r.height == s.height
    ensures r.changeX == s.changeX && r.changeY == s.changeY
    ensures OnScreen(s) ==> r == s
  {
    var a := if s.Top() > ScreenHeight then s.WithTop(ScreenHeight) else s;
    var b := if a.Right() > ScreenWidth then a.WithRight(ScreenWidth) else a;
    var c := if b.Bottom() < 0.0 then b.WithBottom(0.0) else b;
    if c.Left() < 0.0 then c.WithLeft(0.0) else c
  }

  /**
   * An explosion: where it is drawn, the index of its current animation
   * frame (`current_texture`) and how many frames its texture list holds.
   */
  datatype Explosion = Explosion(centerX: real, centerY: real, currentTexture: nat, textureCount: nat)

  /**
   * `Explosion.update`: the frame counter goes up by exactly one; the
   * explosion leaves its list (None) exactly when the counter has reached
   * the number of frames.
   */
  function ExplosionUpdate(e: Explosion): (r: Option<Explosion>)
    ensures r.None? <==> e.currentTexture + 1 >= e.textureCount
    ensures r.Some? ==> r.value == e.(currentTexture := e.currentTexture + 1)
  {
    var next := e.(currentTexture := e.currentTexture + 1);
    if next.currentTexture < next.textureCount then Some(next) else None
  }

  /**
   * The explosion list after one update (`SpriteList.update` calling
   * `Explosion.update` on each member).
   */
  function ExplosionListUpdate(es: seq<Explosion>): (r: seq<Explosion>)
    ensures |r| <= |es|
    decreases |es|
  {
    if es == [] then []
    else
      match ExplosionUpdate(es[0])
      case Some(x) => [x] + ExplosionListUpdate(es[1..])
      case None => ExplosionListUpdate(es[1..])
  }

  /** Every explosion advanced by one frame, none removed. */
  function AdvancedAll(es: seq<Explosion>): (r: seq<Explosion>)
    ensures |r| == |es|
    ensures forall i :: 0 <= i < |es| ==> r[i] == es[i].(currentTexture := es[i].currentTexture + 1)
  {
    seq(|es|, i requires 0 <= i < |es| => es[i].(currentTexture := es[i].currentTexture + 1))
  }

  /** Selects the explosions that show a frame that exists. */
  predicate HasFrame(e: Explosion)
  {
    e.currentTexture < e.textureCount
  }

  /**
   * One update of the explosion list advances every explosion one frame
   * and keeps, in their order, exactly those still showing a frame that
   * exists.
   */
  lemma {:induction false} ExplosionListUpdateKeepsShowing(es: seq<Explosion>)
    ensures ExplosionListUpdate(es) == Filter(AdvancedAll(es), HasFrame)
    decreases |es|
  {
    if es != [] {
      ExplosionListUpdateKeepsShowing(es[1..]);
      assert AdvancedAll(es)[1..] == AdvancedAll(es[1..]);
    }
  }

  /**
   * Hence every survivor shows a frame that exists, and an explosion
   * advanced one frame is still in the list exactly when that frame exists.
   */
  lemma ExplosionListUpdateMembers(es: seq<Explosion>)
    ensures forall x :: x in ExplosionListUpdate(es) ==> x.currentTexture < x.textureCount
    ensures forall i :: 0 <= i < |es| ==>
      (es[i].(currentTexture := es[i].currentTexture + 1) in ExplosionListUpdate(es) <==> es[i].currentTexture + 1 < es[i].textureCount)
  {
    ExplosionListUpdateKeepsShowing(es);
    FilterMembership(AdvancedAll(es), HasFrame);
    forall i | 0 <= i < |es|
      ensures es[i].(currentTexture := es[i].currentTexture + 1) in AdvancedAll(es)
    {
      assert AdvancedAll(es)[i] == es[i].(currentTexture := es[i].currentTexture + 1);
    }
  }

  /** The explosion after `n` successive updates, None once it has left its list. */
  function ExplosionAfter(e: Explosion, n: nat): Option<Explosion>
    decreases n
  {
    if n == 0 then Some(e)
    else match ExplosionUpdate(e)
      case None => None
      case Some(next) => ExplosionAfter(next, n - 1)
  }

  /**
   * The life of an explosion: after `n` updates it is still in its list
   * exactly when its counter, raised by `n`, is still below the number of
   * frames; it then shows frame `currentTexture + n`.
   */
  lemma {:induction false} ExplosionLifetime(e: Explosion, n: nat)
    requires e.currentTexture < e.textureCount
    ensures ExplosionAfter(e, n) ==
      if e.currentTexture + n < e.textureCount
      then Some(e.(currentTexture := e.currentTexture + n))
      else None
    decreases n
  {
    if n > 0 && e.currentTexture + 1 < e.textureCount {
      ExplosionLifetime(e.(currentTexture := e.currentTexture + 1), n - 1);
    }
  }
}
