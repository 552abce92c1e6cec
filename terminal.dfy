/**
  What the screens read from the terminal, as values: one key per `getch()`,
  and the screen-bottom cut-off that ends every "one line per item" loop.
*/
module Terminal {

  /**
    A key as the screens tell keys apart: the four arrow keys, Enter (codes 10
    and 13), Escape (code 27), and any other key by its character.
  */
  datatype Key = Up | Down | Left | Right | Enter | Esc | Char(c: char)

  /**
    The program exists twice: the modular application (src/ui, src/tools,
    src/table_browser.py) and the older stand-alone src/tui.py. Where the two
    copies of a screen differ, the model takes the variant as a parameter.
  */
  datatype Variant = Modular | Standalone

  /**
    How many of n items a loop of the shape
    `for i, _ in enumerate(items): y = start + step*i; if y >= limit: break`
    gets through before reaching the bottom of the screen.
  */
  function FitCount(n: nat, start: int, step: nat, limit: int): nat
  {
    if n == 0 || start >= limit then 0 else 1 + FitCount(n - 1, start + step, step, limit)
  }

  /**
    The loop handles a prefix of the items: exactly those whose row lies above
    the limit, never more than there are.
  */
  lemma {:induction false} FitCountSpec(n: nat, start: int, step: nat, limit: int)
    ensures FitCount(n, start, step, limit) <= n
    ensures forall i :: 0 <= i < FitCount(n, start, step, limit) ==> start + step * i < limit
    ensures FitCount(n, start, step, limit) < n ==>
              start + step * FitCount(n, start, step, limit) >= limit
  {
    if n > 0 && start < limit {
      FitCountSpec(n - 1, start + step, step, limit);
      var c := FitCount(n - 1, start + step, step, limit);
      forall i | 0 <= i < c + 1
        ensures start + step * i < limit
      {
        if i > 0 {
          assert start + step * i == (start + step) + step * (i - 1);
        }
      }
      assert start + step * (c + 1) == (start + step) + step * c;
    }
  }

  /**
    The cursor of every list screen: Up moves to `(selected - 1) % n`, Down to
    `(selected + 1) % n`, so it wraps around at both ends; other keys leave it.
  */
  function Cycle(sel: nat, key: Key, n: nat): (r: nat)
    requires sel < n
    ensures r < n
  {
    match key
    case Up => (sel - 1) % n
    case Down => (sel + 1) % n
    case _ => sel
  }

  /** Up undoes Down and Down undoes Up. */
  lemma CycleRoundTrip(sel: nat, n: nat)
    requires sel < n
    ensures Cycle(Cycle(sel, Up, n), Down, n) == sel
    ensures Cycle(Cycle(sel, Down, n), Up, n) == sel
  {
    ModUnique(sel, n, 0, sel);
    ModUnique(-1, n, -1, n - 1);
    if sel == 0 {
      ModUnique(n, n, 1, 0);
    } else {
      ModUnique(sel - 1, n, 0, sel - 1);
    }
    if sel == n - 1 {
      ModUnique(n, n, 1, 0);
    } else {
      ModUnique(sel + 1, n, 0, sel + 1);
    }
  }

  /** The cursor after pressing the same key k times. */
  function Press(sel: nat, key: Key, n: nat, k: nat): (r: nat)
    requires sel < n
  {
    if k == 0 then sel else Cycle(Press(sel, key, n, k - 1), key, n)
  }

  /** Pressing Down k times moves the cursor k places on, and Up k places back, wrapping around. */
  lemma {:induction false} PressMoves(sel: nat, n: nat, k: nat)
    requires sel < n
    ensures Press(sel, Down, n, k) == (sel + k) % n
    ensures Press(sel, Up, n, k) == (sel - k) % n
  {
    if k == 0 {
      ModUnique(sel, n, 0, sel);
    } else {
      PressMoves(sel, n, k - 1);
      var down, up := Press(sel, Down, n, k - 1), Press(sel, Up, n, k - 1);
      assert Press(sel, Down, n, k) == (down + 1) % n;
      assert Press(sel, Up, n, k) == (up - 1) % n;
      ModShift(sel + (k - 1), n, 1);
      ModShift(sel - (k - 1), n, -1);
    }
  }

  /** After n presses of the same arrow key the cursor is back where it began. */
  lemma PressFullTurn(sel: nat, n: nat)
    requires sel < n
    ensures Press(sel, Down, n, n) == sel && Press(sel, Up, n, n) == sel
  {
    PressMoves(sel, n, n);
    ModUnique(sel + n, n, 1, sel);
    ModUnique(sel - n, n, -1, sel);
  }

  lemma MulMono(a: nat, b: nat, c: nat)
    requires a <= b
    ensures a * c <= b * c
  {
  }

  /** Euclidean division is unique: x = q*n + r with 0 <= r < n fixes x % n as r. */
  lemma ModUnique(x: int, n: nat, q: int, r: int)
    requires n > 0 && 0 <= r < n && x == q * n + r
    ensures x % n == r
  {
    var q', r' := x / n, x % n;
    assert (q - q') * n == r' - r;
    if q > q' {
      MulMono(1, q - q', n);
    } else if q < q' {
      MulMono(1, q' - q, n);
    }
  }

  /** Moving by d from a wrapped position lands where moving by d from the original does. */
  lemma ModShift(a: int, n: nat, d: int)
    requires n > 0
    ensures (a % n + d) % n == (a + d) % n
  {
    var q, r := a / n, a % n;
    var q2, r2 := (r + d) / n, (r + d) % n;
    assert a + d == (q + q2) * n + r2;
    ModUnique(a + d, n, q + q2, r2);
  }
}
