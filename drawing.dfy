/**
 * What `draw_sprite` (src/chip8.rs) does to the screen and to VF: its
 * nested loops apply the sprite's pixel toggles in order; a sprite that
 * fits on the screen is XORed onto it and sets VF iff it lights a pixel
 * that was off; a clamped sprite can toggle the same edge pixel twice.
 */
module Drawing {
  import opened Bytes
  import opened Instructions
  import opened Semantics

  /** Drawing one more sprite row is one more pass of the column loop. */
  lemma DrawRowsSnoc(g: Screen, vx: Byte, vy: Byte, sprite: seq<Byte>, row: nat)
    requires row < |sprite|
    ensures DrawRows(g, vx, vy, sprite[..row + 1])
      == DrawBits(DrawRows(g, vx, vy, sprite[..row]), vx, vy, row, sprite[row], 8)
  {
    assert sprite[..row + 1][..row] == sprite[..row];
  }

  /** One more toggle at the end of the list is one more `Toggle` and one more latch test. */
  lemma RedrawSnoc(g: Screen, ts: seq<Pos>, p: Pos)
    requires forall k :: 0 <= k < |ts| ==> OnScreen(ts[k])
    requires OnScreen(p)
    ensures forall k :: 0 <= k < |ts + [p]| ==> OnScreen((ts + [p])[k])
    ensures Redraw(g, ts + [p]) == Toggle(Redraw(g, ts), p)
    ensures Latched(g, ts + [p]) == (Latched(g, ts) || Toggle(Redraw(g, ts), p)[p.row][p.col])
  {
    assert (ts + [p])[..|ts|] == ts;
  }

  /**
   * The column loop from the frame reached after toggles `ts` ends in the
   * frame reached after `ts` and the row's own toggles.
   */
  lemma {:induction false} DrawBitsToggles(g: Screen, ts: seq<Pos>, vx: Byte, vy: Byte, row: nat, b: Byte, cols: nat)
    requires cols <= 8
    requires forall k :: 0 <= k < |ts| ==> OnScreen(ts[k])
    ensures forall k :: 0 <= k < |ts + RowToggles(vx, vy, row, b, cols)| ==>
      OnScreen((ts + RowToggles(vx, vy, row, b, cols))[k])
    ensures DrawBits(Frame(Redraw(g, ts), Latched(g, ts)), vx, vy, row, b, cols)
      == Frame(Redraw(g, ts + RowToggles(vx, vy, row, b, cols)), Latched(g, ts + RowToggles(vx, vy, row, b, cols)))
  {
    if cols == 0 {
      assert ts + RowToggles(vx, vy, row, b, 0) == ts;
    } else {
      DrawBitsToggles(g, ts, vx, vy, row, b, cols - 1);
      var before := ts + RowToggles(vx, vy, row, b, cols - 1);
      if SpriteBit(b, cols - 1) {
        var p := Target(vx, vy, row, cols - 1);
        RedrawSnoc(g, before, p);
        assert ts + RowToggles(vx, vy, row, b, cols) == before + [p];
      } else {
        assert ts + RowToggles(vx, vy, row, b, cols) == before;
      }
    }
  }

  /**
   * The nested loops of `draw_sprite` apply the sprite's toggles in order:
   * the pixels are those after every toggle, and the latch is set iff
   * some toggle left its pixel on.
   */
  lemma {:induction false} DrawRowsToggles(g: Screen, vx: Byte, vy: Byte, sprite: seq<Byte>)
    ensures DrawRows(g, vx, vy, sprite)
      == Frame(Redraw(g, SpriteToggles(vx, vy, sprite)), Latched(g, SpriteToggles(vx, vy, sprite)))
  {
    if sprite != [] {
      var row := |sprite| - 1;
      DrawRowsToggles(g, vx, vy, sprite[..row]);
      DrawBitsToggles(g, SpriteToggles(vx, vy, sprite[..row]), vx, vy, row, sprite[row], 8);
    }
  }

  /** How often `p` occurs in `ts`. */
  function Count(ts: seq<Pos>, p: Pos): nat
  {
    if ts == [] then 0 else Count(ts[..|ts| - 1], p) + (if ts[|ts| - 1] == p then 1 else 0)
  }

  /** A pixel ends up flipped iff it was toggled an odd number of times; others keep their value. */
  lemma {:induction false} RedrawParity(g: Screen, ts: seq<Pos>, p: Pos)
    requires forall k :: 0 <= k < |ts| ==> OnScreen(ts[k])
    requires OnScreen(p)
    ensures Redraw(g, ts)[p.row][p.col] == (g[p.row][p.col] != (Count(ts, p) % 2 == 1))
  {
    if ts != [] {
      RedrawParity(g, ts[..|ts| - 1], p);
    }
  }

  /** No position is toggled twice. */
  ghost predicate AtMostOnce(ts: seq<Pos>)
  {
    forall p :: Count(ts, p) <= 1
  }

  lemma CountSnoc(ts: seq<Pos>, q: Pos, p: Pos)
    ensures Count(ts + [q], p) == Count(ts, p) + if q == p then 1 else 0
  {
    assert (ts + [q])[..|ts|] == ts;
  }

  lemma {:induction false} CountConcat(a: seq<Pos>, b: seq<Pos>, p: Pos)
    ensures Count(a + b, p) == Count(a, p) + Count(b, p)
  {
    if b == [] {
      assert a + b == a;
    } else {
      var n := |b| - 1;
      CountConcat(a, b[..n], p);
      assert a + b == (a + b[..n]) + [b[n]];
      CountSnoc(a + b[..n], b[n], p);
    }
  }

  /** `p` occurs in `ts` iff its count is positive. */
  lemma {:induction false} CountPositive(ts: seq<Pos>, p: Pos)
    ensures Count(ts, p) > 0 <==> exists k :: 0 <= k < |ts| && ts[k] == p
  {
    if ts != [] {
      var n := |ts| - 1;
      CountPositive(ts[..n], p);
      assert forall k :: 0 <= k < n ==> ts[..n][k] == ts[k];
    }
  }

  /**
   * For toggles that hit no pixel twice, the latch is set iff one of them
   * hit a pixel that was off.
   */
  lemma {:induction false} LatchedAtMostOnce(g: Screen, ts: seq<Pos>)
    requires forall k :: 0 <= k < |ts| ==> OnScreen(ts[k])
    requires AtMostOnce(ts)
    ensures Latched(g, ts) <==> exists k :: 0 <= k < |ts| && !g[ts[k].row][ts[k].col]
  {
    if ts != [] {
      var n := |ts| - 1;
      var init, last := ts[..n], ts[n];
      assert ts == init + [last];
      forall p
        ensures Count(init, p) <= 1
      {
        CountSnoc(init, last, p);
      }
      CountSnoc(init, last, last);
      LatchedAtMostOnce(g, init);
      RedrawParity(g, init, last);
      assert Toggle(Redraw(g, init), last)[last.row][last.col] == !g[last.row][last.col];
      assert forall k :: 0 <= k < n ==> init[k] == ts[k];
    }
  }

  /** Pixel `p` is where some set bit of `sprite`, drawn at (`vx`, `vy`), lands after clamping. */
  ghost predicate Targeted(vx: Byte, vy: Byte, sprite: seq<Byte>, p: Pos)
  {
    exists row, col ::
      0 <= row < |sprite| && 0 <= col < 8 && SpriteBit(sprite[row], col) && Target(vx, vy, row, col) == p
  }

  lemma {:induction false} RowTogglesTargeted(vx: Byte, vy: Byte, row: nat, b: Byte, cols: nat, k: nat)
    requires cols <= 8 && k < |RowToggles(vx, vy, row, b, cols)|
    ensures exists col ::
      0 <= col < cols && SpriteBit(b, col) && Target(vx, vy, row, col) == RowToggles(vx, vy, row, b, cols)[k]
  {
    var before := RowToggles(vx, vy, row, b, cols - 1);
    if k < |before| {
      RowTogglesTargeted(vx, vy, row, b, cols - 1, k);
      assert RowToggles(vx, vy, row, b, cols)[k] == before[k];
    } else {
      assert RowToggles(vx, vy, row, b, cols)[k] == Target(vx, vy, row, cols - 1);
    }
  }

  /** Every toggle of a sprite is the target of one of its set bits. */
  lemma {:induction false} SpriteTogglesTargeted(vx: Byte, vy: Byte, sprite: seq<Byte>, k: nat)
    requires k < |SpriteToggles(vx, vy, sprite)|
    ensures Targeted(vx, vy, sprite, SpriteToggles(vx, vy, sprite)[k])
  {
    var row := |sprite| - 1;
    var before := SpriteToggles(vx, vy, sprite[..row]);
    var p := SpriteToggles(vx, vy, sprite)[k];
    if k < |before| {
      SpriteTogglesTargeted(vx, vy, sprite[..row], k);
      assert p == before[k];
      var r, c :| 0 <= r < row && 0 <= c < 8 && SpriteBit(sprite[..row][r], c) && Target(vx, vy, r, c) == p;
      assert sprite[..row][r] == sprite[r];
    } else {
      RowTogglesTargeted(vx, vy, row, sprite[row], 8, k - |before|);
      assert p == RowToggles(vx, vy, row, sprite[row], 8)[k - |before|];
    }
  }

  /**
   * DRW leaves alone every pixel that no set sprite bit lands on (after
   * clamping); the sprite's own pixels are toggled, the others unchanged.
   */
  lemma DrawTouchesTargets(s: State, x: nat, y: nat, n: nat, r: nat, c: nat)
    requires x < REGISTER_COUNT && y < REGISTER_COUNT && (n == 0 || s.index + n <= MEMORY_SIZE)
    requires r < SCREEN_HEIGHT && c < SCREEN_WIDTH
    requires !Targeted(s.v[x], s.v[y], Sprite(s, n), Pos(r, c))
    ensures Draw(s, x, y, n).screen[r][c] == s.screen[r][c]
  {
    var sprite, p := Sprite(s, n), Pos(r, c);
    var ts := SpriteToggles(s.v[x], s.v[y], sprite);
    DrawRowsToggles(s.screen, s.v[x], s.v[y], sprite);
    RedrawParity(s.screen, ts, p);
    CountPositive(ts, p);
    if Count(ts, p) > 0 {
      var k :| 0 <= k < |ts| && ts[k] == p;
      SpriteTogglesTargeted(s.v[x], s.v[y], sprite, k);
      assert false;
    }
  }

  /**
   * DRW writes the screen and VF only: the screen is the result of the
   * sprite's toggles in loop order, and VF is 1 iff one of those toggles
   * left its pixel on, even if a later one turned it off again.
   */
  lemma DrawFlagLatched(s: State, x: nat, y: nat, n: nat)
    requires x < REGISTER_COUNT && y < REGISTER_COUNT && (n == 0 || s.index + n <= MEMORY_SIZE)
    ensures Draw(s, x, y, n).screen == Redraw(s.screen, SpriteToggles(s.v[x], s.v[y], Sprite(s, n)))
    ensures Draw(s, x, y, n).v[FLAG]
      == if Latched(s.screen, SpriteToggles(s.v[x], s.v[y], Sprite(s, n))) then 1 else 0
    ensures Draw(s, x, y, n) == s.(screen := Draw(s, x, y, n).screen, v := s.v[FLAG := Draw(s, x, y, n).v[FLAG]])
  {
    DrawRowsToggles(s.screen, s.v[x], s.v[y], Sprite(s, n));
  }

  /** Sprite bit (`r - vy`, `c - vx`) exists and is set: the sprite covers pixel (`r`, `c`). */
  predicate Covers(sprite: seq<Byte>, vx: Byte, vy: Byte, r: int, c: int)
  {
    vy <= r < vy + |sprite| && vx <= c < vx + 8 && SpriteBit(sprite[r - vy], c - vx)
  }

  /** Without clamping, row `row` toggles each covered pixel of its screen row once. */
  lemma {:induction false} CountRow(vx: Byte, vy: Byte, row: nat, b: Byte, cols: nat, p: Pos)
    requires cols <= 8 && vx + 8 <= SCREEN_WIDTH && vy + row < SCREEN_HEIGHT
    ensures Count(RowToggles(vx, vy, row, b, cols), p)
      == if p.row == vy + row && vx <= p.col < vx + cols && SpriteBit(b, p.col - vx) then 1 else 0
  {
    if cols > 0 {
      CountRow(vx, vy, row, b, cols - 1, p);
      var before := RowToggles(vx, vy, row, b, cols - 1);
      if SpriteBit(b, cols - 1) {
        CountSnoc(before, Target(vx, vy, row, cols - 1), p);
      } else {
        assert RowToggles(vx, vy, row, b, cols) == before;
      }
    }
  }

  /** Without clamping, a sprite toggles each pixel it covers once and no other. */
  lemma {:induction false} CountSprite(vx: Byte, vy: Byte, sprite: seq<Byte>, p: Pos)
    requires vx + 8 <= SCREEN_WIDTH && vy + |sprite| <= SCREEN_HEIGHT
    ensures Count(SpriteToggles(vx, vy, sprite), p) == if Covers(sprite, vx, vy, p.row, p.col) then 1 else 0
  {
    if sprite != [] {
      var row := |sprite| - 1;
      CountSprite(vx, vy, sprite[..row], p);
      CountRow(vx, vy, row, sprite[row], 8, p);
      CountConcat(SpriteToggles(vx, vy, sprite[..row]), RowToggles(vx, vy, row, sprite[row], 8), p);
      if vy <= p.row < vy + row {
        assert sprite[..row][p.row - vy] == sprite[p.row - vy];
      }
    }
  }

  /**
   * DRW on a sprite that fits on the screen: every pixel is XORed with the
   * sprite bit covering it.
   */
  lemma DrawPixels(s: State, x: nat, y: nat, n: nat, r: nat, c: nat)
    requires x < REGISTER_COUNT && y < REGISTER_COUNT && (n == 0 || s.index + n <= MEMORY_SIZE)
    requires s.v[x] + 8 <= SCREEN_WIDTH && s.v[y] + n <= SCREEN_HEIGHT
    requires r < SCREEN_HEIGHT && c < SCREEN_WIDTH
    ensures Draw(s, x, y, n).screen[r][c] == (s.screen[r][c] != Covers(Sprite(s, n), s.v[x], s.v[y], r, c))
  {
    var sprite := Sprite(s, n);
    DrawRowsToggles(s.screen, s.v[x], s.v[y], sprite);
    RedrawParity(s.screen, SpriteToggles(s.v[x], s.v[y], sprite), Pos(r, c));
    CountSprite(s.v[x], s.v[y], sprite, Pos(r, c));
  }

  /**
   * DRW on a sprite that fits on the screen: VF is 1 iff a set sprite bit
   * lands on a pixel that was off (the pixel is lit by the draw), and 0
   * otherwise; that is how `draw_sprite` sets its latch.
   */
  lemma DrawFlag(s: State, x: nat, y: nat, n: nat)
    requires x < REGISTER_COUNT && y < REGISTER_COUNT && (n == 0 || s.index + n <= MEMORY_SIZE)
    requires s.v[x] + 8 <= SCREEN_WIDTH && s.v[y] + n <= SCREEN_HEIGHT
    ensures Draw(s, x, y, n).v[FLAG] == 1 <==>
      exists r, c :: 0 <= r < SCREEN_HEIGHT && 0 <= c < SCREEN_WIDTH
        && Covers(Sprite(s, n), s.v[x], s.v[y], r, c) && !s.screen[r][c]
    ensures Draw(s, x, y, n).v[FLAG] <= 1
  {
    var sprite, g := Sprite(s, n), s.screen;
    var ts := SpriteToggles(s.v[x], s.v[y], sprite);
    DrawRowsToggles(g, s.v[x], s.v[y], sprite);
    forall p
      ensures Count(ts, p) <= 1
    {
      CountSprite(s.v[x], s.v[y], sprite, p);
    }
    LatchedAtMostOnce(g, ts);
    if Latched(g, ts) {
      var k :| 0 <= k < |ts| && !g[ts[k].row][ts[k].col];
      CountPositive(ts, ts[k]);
      CountSprite(s.v[x], s.v[y], sprite, ts[k]);
      assert Covers(sprite, s.v[x], s.v[y], ts[k].row, ts[k].col);
    } else {
      forall r, c | 0 <= r < SCREEN_HEIGHT && 0 <= c < SCREEN_WIDTH && Covers(sprite, s.v[x], s.v[y], r, c)
        ensures g[r][c]
      {
        CountSprite(s.v[x], s.v[y], sprite, Pos(r, c));
        CountPositive(ts, Pos(r, c));
      }
    }
  }

  lemma ToggleTwice(g: Screen, p: Pos)
    requires OnScreen(p)
    ensures Toggle(Toggle(g, p), p) == g
  {
    assert Toggle(Toggle(g, p), p)[p.row] == g[p.row];
  }

  /**
   * Clamping: sprite row 0b1100_0000 drawn at column 63 toggles pixel
   * (`vy`, 63) twice, so an unlit pixel there is left unchanged and yet the
   * latch is set, because the first toggle lit it.
   */
  lemma ClampAtRightEdge(g: Screen, vy: Byte)
    requires vy < SCREEN_HEIGHT && !g[vy][SCREEN_WIDTH - 1]
    ensures DrawRows(g, SCREEN_WIDTH - 1, vy, [0xC0]) == Frame(g, true)
  {
    var p := Pos(vy, SCREEN_WIDTH - 1);
    assert [0xC0][..0] == [];
    assert SpriteBit(0xC0, 0) && SpriteBit(0xC0, 1);
    assert !SpriteBit(0xC0, 2) && !SpriteBit(0xC0, 3) && !SpriteBit(0xC0, 4);
    assert !SpriteBit(0xC0, 5) && !SpriteBit(0xC0, 6) && !SpriteBit(0xC0, 7);
    assert Target(SCREEN_WIDTH - 1, vy, 0, 0) == p && Target(SCREEN_WIDTH - 1, vy, 0, 1) == p;
    var start := Frame(g, false);
    var once := Flip(start, p);
    assert once == Frame(Toggle(g, p), true);
    ToggleTwice(g, p);
    assert Flip(once, p) == Frame(g, true);
    assert DrawBits(start, SCREEN_WIDTH - 1, vy, 0, 0xC0, 1) == once;
    assert DrawBits(start, SCREEN_WIDTH - 1, vy, 0, 0xC0, 2) == Frame(g, true);
    assert DrawBits(start, SCREEN_WIDTH - 1, vy, 0, 0xC0, 3) == Frame(g, true);
    assert DrawBits(start, SCREEN_WIDTH - 1, vy, 0, 0xC0, 4) == Frame(g, true);
    assert DrawBits(start, SCREEN_WIDTH - 1, vy, 0, 0xC0, 5) == Frame(g, true);
    assert DrawBits(start, SCREEN_WIDTH - 1, vy, 0, 0xC0, 6) == Frame(g, true);
    assert DrawBits(start, SCREEN_WIDTH - 1, vy, 0, 0xC0, 7) == Frame(g, true);
    assert DrawBits(start, SCREEN_WIDTH - 1, vy, 0, 0xC0, 8) == Frame(g, true);
  }
}
