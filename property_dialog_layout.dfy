/**
 * Placement arithmetic of the file property dialogs
 * (PropertyDialogUtil::getPropertyPos and PropertyDialogUtil::getPerportyPos).
 *
 * The screen under the cursor is a parameter: its top-left corner and its
 * size. C++ `int` division and remainder truncate toward zero, so they are
 * written out as TDiv and TRem rather than Dafny's Euclidean `/` and `%`.
 */
module PropertyDialogLayout {

  /** A QPoint. */
  datatype Point = Point(x: int, y: int)

  /** The geometry of a QScreen: its top-left corner and its size. */
  datatype Screen = Screen(left: int, top: int, width: int, height: int)

  /** Horizontal gap between two dialogs of a row. */
  const SpaceWidth: int := 20
  /** Vertical distance between two rows of dialogs. */
  const SpaceHeight: int := 70
  /** Distance of the first row from the top of the screen. */
  const TopMargin: int := 5

  function Abs(a: int): int
  {
    if a < 0 then -a else a
  }

  /** Euclidean division leaves a remainder below the positive divisor. */
  lemma EuclidBound(a: int, b: int)
    requires 0 < b
    ensures 0 <= a - (a / b) * b < b
  {
  }

  /** The magnitude quotient with the sign of the exact quotient. */
  function SignedQuotient(a: int, b: int): int
    requires b != 0
  {
    if (a < 0) == (b < 0) then Abs(a) / Abs(b) else -(Abs(a) / Abs(b))
  }

  /** Multiplying the signed quotient back gives the magnitude product with the sign of the dividend. */
  lemma SignedQuotientProduct(a: int, b: int)
    requires b != 0
    ensures SignedQuotient(a, b) * b
         == if a < 0 then -((Abs(a) / Abs(b)) * Abs(b)) else (Abs(a) / Abs(b)) * Abs(b)
  {
    var m := Abs(a) / Abs(b);
    if b < 0 {
      assert m * b == -(m * Abs(b));
      assert (-m) * b == m * Abs(b);
    }
  }

  /**
   * C++ `a / b` on int: the quotient rounded toward zero, so the remainder
   * has the sign of `a` and is smaller than `b` in magnitude.
   */
  function TDiv(a: int, b: int): (q: int)
    requires b != 0
    ensures a >= 0 ==> 0 <= a - q * b < Abs(b)
    ensures a < 0 ==> -Abs(b) < a - q * b <= 0
  {
    EuclidBound(Abs(a), Abs(b));
    SignedQuotientProduct(a, b);
    SignedQuotient(a, b)
  }

  /** C++ `a % b` on int: the remainder left by TDiv. */
  function TRem(a: int, b: int): (r: int)
    requires b != 0
    ensures a == TDiv(a, b) * b + r
    ensures a >= 0 ==> 0 <= r < Abs(b)
    ensures a < 0 ==> -Abs(b) < r <= 0
  {
    a - TDiv(a, b) * b
  }

  /**
   * Truncation differs from Euclidean division on a negative dividend: by a
   * positive divisor that does not divide it, the quotient is one more and
   * the remainder one divisor less (for instance -3 / 2 is -1, remainder -1).
   */
  lemma TruncatesTowardZero(a: int, b: int)
    requires 0 < b
    ensures a < 0 && a % b == 0 ==> TDiv(a, b) == a / b && TRem(a, b) == 0
    ensures a < 0 && a % b != 0 ==> TDiv(a, b) == a / b + 1 && TRem(a, b) == a % b - b
  {
    if a < 0 {
      var q := TDiv(a, b);
      var r := TRem(a, b);
      if r == 0 {
        DivUnique(a, b, q, 0);
      } else {
        assert (q - 1) * b == q * b - b;
        DivUnique(a, b, q - 1, r + b);
      }
    }
  }

  /** The quotient and remainder are the only pair with a remainder in range. */
  lemma DivUnique(a: int, b: int, q: int, r: int)
    requires 0 < b && 0 <= r < b && a == q * b + r
    ensures a / b == q && a % b == r
  {
    var x := a / b - q;
    assert x * b == r - a % b by {
      assert a == (a / b) * b + a % b;
    }
    if x >= 1 {
      MultiplyMonotone(1, x, b);
    } else if x <= -1 {
      MultiplyMonotone(x, -1, b);
    }
  }

  /** TDiv and TRem of a non-negative dividend by a positive divisor are the Euclidean ones. */
  lemma TruncatedIsEuclidean(a: int, b: int)
    requires 0 <= a && 0 < b
    ensures TDiv(a, b) == a / b && TRem(a, b) == a % b
  {
    DivUnique(a, b, TDiv(a, b), TRem(a, b));
  }

  /** A non-negative dividend has a positive quotient exactly when it reaches the divisor. */
  lemma QuotientPositive(a: int, b: int)
    requires 0 <= a && 0 < b
    ensures a / b > 0 <==> a >= b
    ensures a < b ==> a % b == a
  {
    if a < b {
      DivUnique(a, b, 0, a);
    } else if a / b <= 0 {
      MultiplyMonotone(a / b, 0, b);
    }
  }

  /** The test getPerportyPos uses for a full row, on a non-negative count. */
  lemma FullRowTest(count: int, perRow: int)
    requires perRow != 0
    ensures 0 <= count && 0 < perRow ==>
      (TDiv(count, perRow) > 0 <==> count >= perRow) && (count < perRow ==> TRem(count, perRow) == count)
  {
    if 0 <= count && 0 < perRow {
      TruncatedIsEuclidean(count, perRow);
      QuotientPositive(count, perRow);
    }
  }

  /** Adding the divisor adds one to the quotient and keeps the remainder. */
  lemma DivAddDivisor(a: int, b: int)
    requires 0 <= a && 0 < b
    ensures (a + b) / b == a / b + 1 && (a + b) % b == a % b
  {
    assert (a / b + 1) * b == (a / b) * b + b;
    DivUnique(a + b, b, a / b + 1, a % b);
  }

  /** Adding one below the end of a row keeps the quotient and adds one to the remainder. */
  lemma DivAddOne(a: int, b: int)
    requires 0 <= a && 0 < b && a % b + 1 < b
    ensures (a + 1) / b == a / b && (a + 1) % b == a % b + 1
  {
    DivUnique(a + 1, b, a / b, a % b + 1);
  }

  /**
   * getPropertyPos: the dialog centred on the screen, each offset being
   * half the free space rounded toward zero.
   */
  function GetPropertyPos(screen: Screen, dialogWidth: int, dialogHeight: int): (p: Point)
    ensures var before := p.x - screen.left;
            var after := screen.left + screen.width - (p.x + dialogWidth);
            -1 <= after - before <= 1 && Abs(before) <= Abs(after)
    ensures var before := p.y - screen.top;
            var after := screen.top + screen.height - (p.y + dialogHeight);
            -1 <= after - before <= 1 && Abs(before) <= Abs(after)
  {
    Point(screen.left + TDiv(screen.width - dialogWidth, 2),
          screen.top + TDiv(screen.height - dialogHeight, 2))
  }

  /** The number of dialogs getPerportyPos places in one row. */
  function NumberPerRow(screen: Screen, dialogWidth: int): int
    requires dialogWidth + SpaceWidth != 0
  {
    TDiv(screen.width, dialogWidth + SpaceWidth)
  }

  /** What getPerportyPos asserts before it divides by the number per row. */
  predicate LayoutDefined(screen: Screen, dialogWidth: int)
  {
    dialogWidth + SpaceWidth != 0 && NumberPerRow(screen, dialogWidth) != 0
  }

  /** The width of `k` dialogs side by side, with the gap between neighbours. */
  function BlockWidth(dialogWidth: int, k: int): int
  {
    dialogWidth * k + SpaceWidth * (k - 1)
  }

  /**
   * The width of the block of dialogs getPerportyPos centres: a full row
   * when there are at least `perRow` dialogs, otherwise all `count` of them.
   */
  function DialogsWidth(dialogWidth: int, count: int, perRow: int): (w: int)
    requires perRow != 0
    ensures 0 <= count && 0 < perRow <= count ==> w == BlockWidth(dialogWidth, perRow)
    ensures 0 <= count < perRow ==> w == BlockWidth(dialogWidth, count)
  {
    FullRowTest(count, perRow);
    if TDiv(count, perRow) > 0 then
      dialogWidth * perRow + SpaceWidth * (perRow - 1)
    else
      dialogWidth * TRem(count, perRow) + SpaceWidth * (TRem(count, perRow) - 1)
  }

  /**
   * getPerportyPos: dialog `index` of `count` goes to column
   * `index % perRow` and row `index / perRow`, the rows being centred
   * horizontally as one block. The height argument is unused, as in the
   * source, and so is the row count the source computes.
   */
  function GetPerportyPos(screen: Screen, dialogWidth: int, dialogHeight: int, count: int, index: int): (p: Point)
    requires LayoutDefined(screen, dialogWidth)
    ensures var n := NumberPerRow(screen, dialogWidth);
            0 <= index && 0 < n ==>
              var col := index % n;
              var row := index / n;
              && 0 <= col < n && index == row * n + col
              && p.x == screen.left + TDiv(screen.width - DialogsWidth(dialogWidth, count, n), 2)
                        + (dialogWidth + SpaceWidth) * col
              && p.y == screen.top + TopMargin + SpaceHeight * row
  {
    var perRow := NumberPerRow(screen, dialogWidth);
    var dialogsWidth := DialogsWidth(dialogWidth, count, perRow);
    GridIndex(index, perRow);
    Point(screen.left + TDiv(screen.width - dialogsWidth, 2)
            + (dialogWidth + SpaceWidth) * TRem(index, perRow),
          screen.top + TopMargin + TDiv(index, perRow) * SpaceHeight)
  }

  /** A non-negative index into rows of `n`: truncating division gives its row and column. */
  lemma GridIndex(index: int, n: int)
    requires n != 0
    ensures 0 <= index && 0 < n ==> TDiv(index, n) == index / n && TRem(index, n) == index % n
  {
    if 0 <= index && 0 < n {
      TruncatedIsEuclidean(index, n);
    }
  }

  /** Adding a full row to the index moves a dialog straight down by one row. */
  lemma RowStep(screen: Screen, dialogWidth: int, dialogHeight: int, count: int, index: int)
    requires LayoutDefined(screen, dialogWidth)
    requires 0 <= index && 0 < NumberPerRow(screen, dialogWidth)
    ensures var n := NumberPerRow(screen, dialogWidth);
            var p := GetPerportyPos(screen, dialogWidth, dialogHeight, count, index);
            var q := GetPerportyPos(screen, dialogWidth, dialogHeight, count, index + n);
            q == Point(p.x, p.y + SpaceHeight)
  {
    var n := NumberPerRow(screen, dialogWidth);
    TruncatedIsEuclidean(index, n);
    TruncatedIsEuclidean(index + n, n);
    DivAddDivisor(index, n);
    assert TRem(index + n, n) == TRem(index, n);
    assert TDiv(index + n, n) * SpaceHeight == TDiv(index, n) * SpaceHeight + SpaceHeight;
  }

  /** The next dialog of the same row sits one dialog width plus the gap to the right, at the same height. */
  lemma ColumnStep(screen: Screen, dialogWidth: int, dialogHeight: int, count: int, index: int)
    requires LayoutDefined(screen, dialogWidth)
    requires 0 <= index && 0 < NumberPerRow(screen, dialogWidth)
    requires TRem(index, NumberPerRow(screen, dialogWidth)) + 1 < NumberPerRow(screen, dialogWidth)
    ensures var p := GetPerportyPos(screen, dialogWidth, dialogHeight, count, index);
            var q := GetPerportyPos(screen, dialogWidth, dialogHeight, count, index + 1);
            q == Point(p.x + dialogWidth + SpaceWidth, p.y)
  {
    var n := NumberPerRow(screen, dialogWidth);
    TruncatedIsEuclidean(index, n);
    TruncatedIsEuclidean(index + 1, n);
    DivAddOne(index, n);
    var c := TRem(index, n);
    assert TRem(index + 1, n) == c + 1;
    assert TDiv(index + 1, n) == TDiv(index, n);
    assert (dialogWidth + SpaceWidth) * (c + 1) == (dialogWidth + SpaceWidth) * c + dialogWidth + SpaceWidth;
  }

  /**
   * On a screen of positive width, with a positive dialog width, every one
   * of `count` dialogs placed by getPerportyPos lies horizontally within
   * the screen.
   */
  lemma WithinScreen(screen: Screen, dialogWidth: int, dialogHeight: int, count: int, index: int)
    requires LayoutDefined(screen, dialogWidth)
    requires 0 < screen.width && 0 < dialogWidth && 0 <= index < count
    ensures var p := GetPerportyPos(screen, dialogWidth, dialogHeight, count, index);
            screen.left <= p.x && p.x + dialogWidth <= screen.left + screen.width
  {
    var step := dialogWidth + SpaceWidth;
    var n := NumberPerRow(screen, dialogWidth);
    assert 0 < n && n * step <= screen.width by {
      TruncatedIsEuclidean(screen.width, step);
    }
    var k := if count < n then count else n;
    var col := TRem(index, n);
    assert 0 <= col < k by {
      TruncatedIsEuclidean(index, n);
      QuotientPositive(index, n);
    }
    var block := DialogsWidth(dialogWidth, count, n);
    assert block == BlockWidth(dialogWidth, k) by {
      if count < n {
        assert block == BlockWidth(dialogWidth, count);
      } else {
        assert block == BlockWidth(dialogWidth, n);
      }
    }
    BlockWidthSteps(dialogWidth, k);
    var offset := TDiv(screen.width - block, 2);
    var p := GetPerportyPos(screen, dialogWidth, dialogHeight, count, index);
    assert p.x == screen.left + offset + step * col;
    RowFits(screen.width, dialogWidth, n, k, col, block, offset);
  }

  /** The arithmetic behind WithinScreen: a centred block no wider than a row fits on the screen. */
  lemma RowFits(width: int, dialogWidth: int, n: int, k: int, col: int, block: int, offset: int)
    requires 0 < dialogWidth && 0 < n && n * (dialogWidth + SpaceWidth) <= width
    requires 0 <= col < k <= n
    requires block == k * (dialogWidth + SpaceWidth) - SpaceWidth
    requires offset == TDiv(width - block, 2)
    ensures 0 <= offset + (dialogWidth + SpaceWidth) * col
    ensures offset + (dialogWidth + SpaceWidth) * col + dialogWidth <= width
  {
    var step := dialogWidth + SpaceWidth;
    MultiplyMonotone(k, n, step);
    assert 0 <= offset && 2 * offset <= width - block;
    MultiplyMonotone(0, col, step);
    MultiplyMonotone(col, k - 1, step);
    assert (k - 1) * step == k * step - step;
  }

  /** A block of `k` dialogs is `k` steps of dialog and gap, less one gap. */
  lemma BlockWidthSteps(dialogWidth: int, k: int)
    ensures BlockWidth(dialogWidth, k) == k * (dialogWidth + SpaceWidth) - SpaceWidth
  {
    assert k * (dialogWidth + SpaceWidth) == dialogWidth * k + SpaceWidth * k;
  }

  lemma MultiplyMonotone(a: int, b: int, c: int)
    requires a <= b && 0 <= c
    ensures a * c <= b * c
  {
    assert b * c - a * c == (b - a) * c;
  }
}
