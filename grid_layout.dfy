/**
 * The thumbnail grid: how many square thumbnails fit across the screen and how
 * wide each is, with a fixed spacing around and between them, and when the
 * gallery's scroll listener asks for older items.
 */
module GridLayout {
  import opened JavaInts

  /** Pixels between neighbouring thumbnails and at both edges. */
  const Spacing := 5

  /** The minimum thumbnail width used when the setting is unset or not positive. */
  const DefaultMinWidth := 120

  /** The gallery's fixed minimum thumbnail width. */
  const GalleryMinWidth := 130

  /** The usable width: the display width less 4 pixels. */
  function ScreenWidth(displayWidth: int): int {
    displayWidth - 4
  }

  datatype Grid = Grid(numColumns: int, thumbWidth: int)

  /** Whether there is at least one column, so the later divisions by the column count are defined. */
  predicate HasColumns(screenWidth: int, minWidth: int) {
    minWidth != 0 && Div(screenWidth, minWidth) != 0
  }

  /**
   * The grid for a screen width and a minimum thumbnail width: as many columns
   * as the minimum width fits, then the per-column share (truncated) less the
   * spacings, divided back over the columns.
   */
  function Layout(screenWidth: int, minWidth: int): Grid
    requires HasColumns(screenWidth, minWidth)
  {
    var n := Div(screenWidth, minWidth);
    var target := Div(screenWidth, n) * n - (n + 1) * Spacing;
    Grid(n, Div(target, n))
  }

  /** The width a grid takes: its columns and all the spacings. */
  function Used(g: Grid): int {
    g.numColumns * g.thumbWidth + (g.numColumns + 1) * Spacing
  }

  /**
   * With a minimum width of at least twice the spacing that fits the screen, the
   * grid fits with less than two pixels per column left over, and each thumbnail
   * is at most twice the spacing narrower than the minimum.
   */
  lemma LayoutFits(screenWidth: int, minWidth: int)
    requires 2 * Spacing <= minWidth <= screenWidth
    ensures HasColumns(screenWidth, minWidth)
    ensures var g := Layout(screenWidth, minWidth);
      && g.numColumns >= 1 && g.thumbWidth >= minWidth - 2 * Spacing
      && Used(g) <= screenWidth && screenWidth - Used(g) < 2 * g.numColumns
  {
    DivAtLeast(screenWidth, minWidth, 1);
    var n := Div(screenWidth, minWidth);
    DivBounds(screenWidth, minWidth);
    assert n * minWidth <= screenWidth;
    var share := Div(screenWidth, n);
    DivAtLeast(screenWidth, n, minWidth);
    DivBounds(screenWidth, n);
    var target := share * n - (n + 1) * Spacing;
    assert target >= (minWidth - 2 * Spacing) * n by {
      MulLeft(n, minWidth, share);
      assert share * n >= minWidth * n;
    }
    var w := Div(target, n);
    DivAtLeast(target, n, minWidth - 2 * Spacing);
    DivBounds(target, n);
    assert n * w <= target < n * w + n;
    assert Used(Grid(n, w)) == n * w + (n + 1) * Spacing;
  }

  /**
   * A setting below twice the spacing breaks the fit: on a 480-pixel display a
   * minimum width of 5 gives 95 columns of width 0 that need 480 of the 476
   * usable pixels, and a minimum width of 1 gives a negative thumbnail width.
   */
  lemma SmallSettingOverflows()
    ensures HasColumns(ScreenWidth(480), 5) && Layout(ScreenWidth(480), 5) == Grid(95, 0)
    ensures Used(Layout(ScreenWidth(480), 5)) > ScreenWidth(480)
    ensures HasColumns(ScreenWidth(480), 1) && Layout(ScreenWidth(480), 1).thumbWidth < 0
  {
  }

  /** The scroll threshold, `floor(numColumns * 2.5)`. */
  function ScrollThreshold(numColumns: int): (t: int)
    ensures 2 * t <= 5 * numColumns < 2 * t + 2
  {
    (5 * numColumns) / 2
  }

  /** The grid part of the gallery activity. */
  class GalleryActivity {
    var screenWidth: int
    var thumbMinWidth: int
    var numColumns: int
    var thumbWidth: int

    /** `onCreate` takes the usable width from the display before sizing the grid. */
    constructor (displayWidth: int)
      ensures screenWidth == ScreenWidth(displayWidth)
      ensures thumbMinWidth == 0 && numColumns == 0 && thumbWidth == 0
    {
      screenWidth := ScreenWidth(displayWidth);
      thumbMinWidth := 0;
      numColumns := 0;
      thumbWidth := 0;
    }

    /**
     * `updateThumbnailSize` with the stored `thumbnailSize` setting (0 when unset).
     * The column count must not come out 0, or the next division throws.
     */
    method UpdateThumbnailSize(setting: int)
      requires HasColumns(screenWidth, if setting <= 0 then DefaultMinWidth else setting)
      modifies this`thumbMinWidth, this`numColumns, this`thumbWidth
      ensures thumbMinWidth == if setting <= 0 then DefaultMinWidth else setting
      ensures Grid(numColumns, thumbWidth) == Layout(screenWidth, thumbMinWidth)
      ensures 2 * Spacing <= thumbMinWidth <= screenWidth ==>
        numColumns >= 1 && Used(Grid(numColumns, thumbWidth)) <= screenWidth
    {
      thumbMinWidth := setting;
      if thumbMinWidth <= 0 {
        thumbMinWidth := DefaultMinWidth;
      }
      numColumns := Div(screenWidth, thumbMinWidth);
      var targetWidth := Div(screenWidth, numColumns);
      targetWidth := targetWidth * numColumns - (numColumns + 1) * Spacing;
      thumbWidth := Div(targetWidth, numColumns);
      if 2 * Spacing <= thumbMinWidth <= screenWidth {
        LayoutFits(screenWidth, thumbMinWidth);
      }
    }
  }

  /**
   * The gallery with its adapter's scroll state: the grid from the fixed minimum
   * width, and a `loading` flag that holds back further queries for older items
   * until the item worker reports new items.
   */
  class Gallery {
    var screenWidth: int
    var numColumns: int
    var thumbWidth: int
    var scrollThreshold: int
    var loading: bool
    /** How many times the adapter asked the item worker for older items. */
    var olderQueries: nat
    /** Queries for older items since the last new-items callback. */
    ghost var queriesSinceUpdate: nat

    /** At most one query for older items is outstanding, and only while loading. */
    ghost predicate Valid()
      reads this
    {
      queriesSinceUpdate <= 1 && (queriesSinceUpdate == 1 ==> loading)
    }

    constructor (displayWidth: int)
      requires HasColumns(ScreenWidth(displayWidth), GalleryMinWidth)
      ensures Valid() && screenWidth == ScreenWidth(displayWidth)
      ensures Grid(numColumns, thumbWidth) == Layout(screenWidth, GalleryMinWidth)
      ensures scrollThreshold == ScrollThreshold(numColumns)
      ensures loading && olderQueries == 0
      ensures screenWidth >= GalleryMinWidth ==> numColumns >= 1 && Used(Grid(numColumns, thumbWidth)) <= screenWidth
    {
      var width := ScreenWidth(displayWidth);
      var columns := Div(width, GalleryMinWidth);
      var targetWidth := Div(width, columns);
      targetWidth := targetWidth * columns - (columns + 1) * Spacing;
      screenWidth := width;
      numColumns := columns;
      thumbWidth := Div(targetWidth, columns);
      scrollThreshold := (5 * columns) / 2;
      loading := true;
      olderQueries := 0;
      queriesSinceUpdate := 0;
      if width >= GalleryMinWidth {
        LayoutFits(width, GalleryMinWidth);
      }
    }

    /**
     * `onScroll`: ignored while loading; otherwise, when fewer than the threshold
     * items remain below the visible ones, asks for older items once and loads.
     */
    method OnScroll(firstVisibleItem: int, visibleItemCount: int, totalItemCount: int)
      requires Valid()
      modifies this`loading, this`olderQueries, this`queriesSinceUpdate
      ensures Valid()
      ensures var asks := !old(loading) && totalItemCount - (firstVisibleItem + visibleItemCount) < scrollThreshold;
        && olderQueries == old(olderQueries) + (if asks then 1 else 0)
        && loading == (old(loading) || asks)
    {
      if loading {
        return;
      }
      if totalItemCount - (firstVisibleItem + visibleItemCount) < scrollThreshold {
        olderQueries := olderQueries + 1;
        queriesSinceUpdate := queriesSinceUpdate + 1;
        loading := true;
      }
    }

    /** The new-items callback, run on the UI thread: loading ends. */
    method OnNewItems()
      modifies this`loading, this`queriesSinceUpdate
      ensures Valid() && !loading
    {
      loading := false;
      queriesSinceUpdate := 0;
    }
  }
}
