/**
  Rasters on a fixed pixel grid, and the per-pixel boolean algebra the
  script applies to single-band masks (`and`, `or`, `not`, `eq(0)`),
  together with the integer translation used by the shadow projection.
*/
module Grids {

  /** A raster band: rows of pixels. */
  type Grid<T> = seq<seq<T>>

  /** A single-band boolean raster. */
  type Mask = Grid<bool>

  /** `g` has `h` rows of `w` pixels each. */
  predicate IsGrid<T>(g: Grid<T>, h: nat, w: nat) {
    |g| == h && forall r :: 0 <= r < h ==> |g[r]| == w
  }

  predicate InGrid(h: nat, w: nat, r: int, c: int) {
    0 <= r < h && 0 <= c < w
  }

  /** Two `h` by `w` grids that agree at every pixel are equal. */
  lemma {:induction false} GridExt<T>(a: Grid<T>, b: Grid<T>, h: nat, w: nat)
    requires IsGrid(a, h, w) && IsGrid(b, h, w)
    requires forall r, c :: InGrid(h, w, r, c) ==> a[r][c] == b[r][c]
    ensures a == b
  {
    forall r | 0 <= r < h
      ensures a[r] == b[r]
    {
      assert forall c :: 0 <= c < w ==> a[r][c] == b[r][c] by {
        forall c | 0 <= c < w ensures a[r][c] == b[r][c] {
          assert InGrid(h, w, r, c);
        }
      }
    }
  }

  /** Applies `f` to every pixel of `g`. */
  function MapGrid<T, U>(g: Grid<T>, h: nat, w: nat, f: T -> U): (m: Grid<U>)
    requires IsGrid(g, h, w)
    ensures IsGrid(m, h, w)
    ensures forall r, c :: InGrid(h, w, r, c) ==> m[r][c] == f(g[r][c])
  {
    seq(h, r requires 0 <= r < h => seq(w, c requires 0 <= c < w => f(g[r][c])))
  }

  /** Combines two co-registered grids pixel by pixel with `f`. */
  function ZipGrid<T, U, V>(a: Grid<T>, b: Grid<U>, h: nat, w: nat, f: (T, U) -> V): (m: Grid<V>)
    requires IsGrid(a, h, w) && IsGrid(b, h, w)
    ensures IsGrid(m, h, w)
    ensures forall r, c :: InGrid(h, w, r, c) ==> m[r][c] == f(a[r][c], b[r][c])
  {
    seq(h, r requires 0 <= r < h => seq(w, c requires 0 <= c < w => f(a[r][c], b[r][c])))
  }

  /** `image.and(other)`. */
  function And(a: Mask, b: Mask, h: nat, w: nat): (m: Mask)
    requires IsGrid(a, h, w) && IsGrid(b, h, w)
    ensures IsGrid(m, h, w)
    ensures forall r, c :: InGrid(h, w, r, c) ==> (m[r][c] <==> a[r][c] && b[r][c])
  {
    ZipGrid(a, b, h, w, (x: bool, y: bool) => x && y)
  }

  /** `image.or(other)`; also `max` of two boolean images. */
  function Or(a: Mask, b: Mask, h: nat, w: nat): (m: Mask)
    requires IsGrid(a, h, w) && IsGrid(b, h, w)
    ensures IsGrid(m, h, w)
    ensures forall r, c :: InGrid(h, w, r, c) ==> (m[r][c] <==> a[r][c] || b[r][c])
  {
    ZipGrid(a, b, h, w, (x: bool, y: bool) => x || y)
  }

  /** `image.not()`, and `image.eq(0)` on a boolean image. */
  function Not(a: Mask, h: nat, w: nat): (m: Mask)
    requires IsGrid(a, h, w)
    ensures IsGrid(m, h, w)
    ensures forall r, c :: InGrid(h, w, r, c) ==> (m[r][c] <==> !a[r][c])
  {
    MapGrid(a, h, w, (x: bool) => !x)
  }

  /** The all-false mask. */
  function Empty(h: nat, w: nat): (m: Mask)
    ensures IsGrid(m, h, w)
  {
    seq(h, r => seq(w, c => false))
  }

  /** The value of `m` at `(r, c)`, reading every pixel outside the grid as false. */
  function At(m: Mask, h: nat, w: nat, r: int, c: int): bool
    requires IsGrid(m, h, w)
  {
    InGrid(h, w, r, c) && m[r][c]
  }

  /** An integer pixel displacement: `dx` columns, `dy` rows. */
  datatype Offset = Offset(dx: int, dy: int)

  /**
    The mask moved by `d`: the pixel at `(r, c)` takes the value that stood at
    `(r - dy, c - dx)`. Pixels that would come from outside the grid are false.
  */
  function Translate(m: Mask, h: nat, w: nat, d: Offset): (t: Mask)
    requires IsGrid(m, h, w)
    ensures IsGrid(t, h, w)
    ensures forall r, c :: InGrid(h, w, r, c) ==> t[r][c] == At(m, h, w, r - d.dy, c - d.dx)
  {
    seq(h, r requires 0 <= r < h => seq(w, c requires 0 <= c < w => At(m, h, w, r - d.dy, c - d.dx)))
  }

  /** Every set pixel whose image stays on the grid is carried to its image. */
  lemma TranslateCarries(m: Mask, h: nat, w: nat, d: Offset, r: int, c: int)
    requires IsGrid(m, h, w) && InGrid(h, w, r, c) && m[r][c]
    requires InGrid(h, w, r + d.dy, c + d.dx)
    ensures Translate(m, h, w, d)[r + d.dy][c + d.dx]
  {
  }

  /** Moving by the zero offset changes nothing. */
  lemma TranslateZero(m: Mask, h: nat, w: nat)
    requires IsGrid(m, h, w)
    ensures Translate(m, h, w, Offset(0, 0)) == m
  {
    GridExt(Translate(m, h, w, Offset(0, 0)), m, h, w);
  }

  /** Moving by `d` and back by `-d` keeps only set pixels of the original (some fall off the edge). */
  lemma TranslateBack(m: Mask, h: nat, w: nat, d: Offset, r: int, c: int)
    requires IsGrid(m, h, w) && InGrid(h, w, r, c)
    ensures Translate(Translate(m, h, w, d), h, w, Offset(-d.dx, -d.dy))[r][c] ==> m[r][c]
  {
  }
}
