/** The stand-alone pattern viewer: choose a pattern by name, find its bounding box,
    and centre it in a fixed window, one square per cell. */
module PatternView {
  import opened Wrappers
  import opened CppInts

  const CellSize: int := 10
  const WindowWidth: int := 500
  const WindowHeight: int := 500
  const DefaultPattern: string := "glider"

  /** Starting values of the running minimum and maximum. */
  const Sentinel: int := 9999

  /** The process exit status for an unknown pattern name. */
  const ExitNotFound: int := 1

  type Coord = (int, int)

  /** A decoded patterns file: pattern name to its entry. An entry without a `coords`
      member yields an empty list of cells. */
  datatype Entry = Entry(coords: Option<seq<Coord>>)
  type PatternFile = map<string, Entry>

  /** The name asked for: the first command-line argument, else the default. */
  function PatternName(argv: seq<string>): string
  {
    if |argv| > 1 then argv[1] else DefaultPattern
  }

  /** The cells to draw, or the exit status when the file has no such pattern. */
  function ChoosePattern(argv: seq<string>, data: PatternFile): (r: Result<seq<Coord>, int>)
    ensures r.Failure? <==> PatternName(argv) !in data
    ensures r.Failure? ==> r.error == ExitNotFound
    ensures r.Success? ==> r.value == data[PatternName(argv)].coords.GetOr([])
    ensures |argv| <= 1 && r.Success? ==> r.value == data[DefaultPattern].coords.GetOr([])
  {
    var name := PatternName(argv);
    if name !in data then Failure(ExitNotFound) else Success(data[name].coords.GetOr([]))
  }

  /** The result of the min/max scan. */
  datatype Box = Box(minX: int, minY: int, maxX: int, maxY: int)

  /** `box` is what the scan yields on `cells`: each bound is the extreme of the
      sentinel and the cells' coordinates on that side. */
  ghost predicate IsScanOf(box: Box, cells: seq<Coord>)
  {
    box.minX <= Sentinel && box.minY <= Sentinel && -Sentinel <= box.maxX && -Sentinel <= box.maxY &&
    (forall i :: 0 <= i < |cells| ==>
      box.minX <= cells[i].0 <= box.maxX && box.minY <= cells[i].1 <= box.maxY) &&
    (box.minX == Sentinel || exists i :: 0 <= i < |cells| && cells[i].0 == box.minX) &&
    (box.minY == Sentinel || exists i :: 0 <= i < |cells| && cells[i].1 == box.minY) &&
    (box.maxX == -Sentinel || exists i :: 0 <= i < |cells| && cells[i].0 == box.maxX) &&
    (box.maxY == -Sentinel || exists i :: 0 <= i < |cells| && cells[i].1 == box.maxY)
  }

  /** The running min/max over the pattern's cells, starting from the sentinels. */
  method BoundingBox(cells: seq<Coord>) returns (box: Box)
    ensures IsScanOf(box, cells)
  {
    var minX, minY := Sentinel, Sentinel;
    var maxX, maxY := -Sentinel, -Sentinel;
    for k := 0 to |cells|
      invariant IsScanOf(Box(minX, minY, maxX, maxY), cells[..k])
    {
      var (x, y) := cells[k];
      minX := if x < minX then x else minX;
      minY := if y < minY then y else minY;
      maxX := if maxX < x then x else maxX;
      maxY := if maxY < y then y else maxY;
      assert cells[..k + 1][k] == cells[k];
      assert forall i :: 0 <= i < k ==> cells[..k + 1][i] == cells[..k][i];
    }
    assert cells[..|cells|] == cells;
    box := Box(minX, minY, maxX, maxY);
  }

  /** Where the pattern goes: its pixel size and the top-left corner that centres it. */
  datatype Placement = Placement(width: int, height: int, offsetX: int, offsetY: int)

  /** Offset that centres `extent` pixels in `window` pixels, halving with truncation toward zero. */
  function CentreOffset(window: int, extent: int): (o: int)
    ensures extent <= window ==> 0 <= (window - extent) - 2 * o <= 1
    ensures window < extent ==> 0 <= 2 * o - (window - extent) <= 1
  {
    TruncDiv(window - extent, 2)
  }

  /** The box's first cell is drawn at the offset and its last cell ends at the offset
      plus the pattern size, and the pattern sits in the middle of the window to within
      a pixel on each axis. */
  function Place(box: Box): (p: Placement)
    ensures var first := CellRect((box.minX, box.minY), box, p);
      first.x == p.offsetX && first.y == p.offsetY
    ensures var last := CellRect((box.maxX, box.maxY), box, p);
      last.x + last.w == p.offsetX + p.width && last.y + last.h == p.offsetY + p.height
    ensures -1 <= WindowWidth - p.width - 2 * p.offsetX <= 1
    ensures -1 <= WindowHeight - p.height - 2 * p.offsetY <= 1
  {
    var width := (box.maxX - box.minX + 1) * CellSize;
    var height := (box.maxY - box.minY + 1) * CellSize;
    Placement(width, height, CentreOffset(WindowWidth, width), CentreOffset(WindowHeight, height))
  }

  /** A square drawn for one cell. */
  datatype Rect = Rect(x: int, y: int, w: int, h: int)

  /** The square for cell `c` is one cell in size, and its distance from the offset is a
      whole number of cells: the cell's column (row) relative to the box's minimum. */
  function CellRect(c: Coord, box: Box, p: Placement): (r: Rect)
    ensures r.w == CellSize && r.h == CellSize
    ensures (r.x - p.offsetX) % CellSize == 0 && (r.x - p.offsetX) / CellSize == c.0 - box.minX
    ensures (r.y - p.offsetY) % CellSize == 0 && (r.y - p.offsetY) / CellSize == c.1 - box.minY
  {
    Rect(p.offsetX + (c.0 - box.minX) * CellSize, p.offsetY + (c.1 - box.minY) * CellSize, CellSize, CellSize)
  }

  /** The margins on the two sides of a centred extent differ by at most one pixel;
      the extra pixel goes to the far side when the extent fits, and to the near side
      when it overflows, because the halving truncates toward zero. */
  lemma CentredMargins(window: int, extent: int)
    ensures var near := CentreOffset(window, extent);
      var far := window - extent - near;
      (extent <= window ==> 0 <= far - near <= 1) &&
      (window < extent ==> 0 <= near - far <= 1)
  {
  }

  /** For a nonempty pattern the box spans at least one cell each way, and every drawn
      square lies within the centred box: its corner is between the offset and the
      offset plus the pattern size less one cell. */
  lemma {:induction false} SquaresInsidePlacement(cells: seq<Coord>, box: Box)
    requires IsScanOf(box, cells) && cells != []
    ensures var p := Place(box); p.width >= CellSize && p.height >= CellSize
    ensures var p := Place(box);
      forall i :: 0 <= i < |cells| ==>
        var r := CellRect(cells[i], box, p);
        p.offsetX <= r.x <= p.offsetX + p.width - CellSize &&
        p.offsetY <= r.y <= p.offsetY + p.height - CellSize
  {
    assert box.minX <= cells[0].0 <= box.maxX && box.minY <= cells[0].1 <= box.maxY;
  }

  /** What the viewer shows for `argv`: one square per cell of the chosen pattern, or
      the exit status when the name is unknown. */
  method Prepare(argv: seq<string>, data: PatternFile) returns (r: Result<seq<Rect>, int>)
    ensures r.Failure? <==> PatternName(argv) !in data
    ensures r.Failure? ==> r.error == ExitNotFound
    ensures r.Success? ==> |r.value| == |data[PatternName(argv)].coords.GetOr([])|
    ensures r.Success? ==>
      var cells := data[PatternName(argv)].coords.GetOr([]);
      exists box :: IsScanOf(box, cells) &&
        (forall i :: 0 <= i < |r.value| ==> r.value[i] == CellRect(cells[i], box, Place(box)))
  {
    var chosen := ChoosePattern(argv, data);
    if chosen.Failure? {
      return Failure(chosen.error);
    }
    var cells := chosen.value;
    var box := BoundingBox(cells);
    var p := Place(box);
    var rects := [];
    for k := 0 to |cells|
      invariant |rects| == k
      invariant forall i :: 0 <= i < k ==> rects[i] == CellRect(cells[i], box, p)
    {
      rects := rects + [CellRect(cells[k], box, p)];
    }
    return Success(rects);
  }
}
