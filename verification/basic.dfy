/**
 * The text grid printer (engine/src/serializers/basic.rs): one row per y, one cell per x, each
 * cell showing the entity on it, rows joined by newlines.
 */
module Serializer {
  import opened Wrappers
  import opened Coordinates
  import opened Entities
  import opened Worlds

  /** `usize as i8`: keep the low eight bits and read them as two's complement. */
  function AsI8(n: nat): (r: int)
    ensures InI8(r)
    ensures (n - r) % 256 == 0
    ensures n <= I8Max ==> r == n
  {
    var low := n % 256;
    if low <= I8Max then low else low - 256
  }

  function DigitChar(d: nat): (c: char)
    requires d < 10
    ensures '0' <= c <= '9' && c as int - '0' as int == d
  {
    ('0' as int + d) as char
  }

  predicate IsDigits(s: string) {
    forall i :: 0 <= i < |s| ==> '0' <= s[i] <= '9'
  }

  /** Decimal digits of `n`, most significant first. */
  function NatToString(n: nat): (s: string)
    ensures |s| >= 1 && IsDigits(s)
    ensures n == 0 ==> s == "0"
    ensures n > 0 ==> s[0] != '0'
    decreases n
  {
    if n < 10 then [DigitChar(n)] else NatToString(n / 10) + [DigitChar(n % 10)]
  }

  /** `i32::to_string`: a minus sign for negative numbers, then the decimal digits. */
  function IntToString(n: int): (s: string)
    ensures |s| >= 1 && (s[0] == '-' <==> n < 0)
    ensures n < 0 ==> IsDigits(s[1..])
    ensures n >= 0 ==> IsDigits(s)
    ensures n == 0 ==> s == "0"
    ensures n > 0 ==> s[0] != '0'
    ensures n < 0 ==> |s| >= 2 && s[1] != '0'
  {
    if n < 0 then "-" + NatToString(-n) else NatToString(n)
  }

  /** The number a string of decimal digits denotes. */
  function DigitsValue(s: string): int
    decreases |s|
  {
    if s == [] then 0 else DigitsValue(s[..|s| - 1]) * 10 + (s[|s| - 1] as int - '0' as int)
  }

  /** The number a decimal numeral with an optional leading minus sign denotes. */
  function DecimalValue(s: string): int {
    if |s| > 0 && s[0] == '-' then -DigitsValue(s[1..]) else DigitsValue(s)
  }

  lemma {:induction false} NatToStringRoundTrip(n: nat)
    ensures DigitsValue(NatToString(n)) == n
    decreases n
  {
    if n >= 10 {
      var s := NatToString(n);
      assert s[..|s| - 1] == NatToString(n / 10);
      NatToStringRoundTrip(n / 10);
    }
  }

  /** Reading back what `IntToString` writes gives the number. */
  lemma IntToStringRoundTrip(n: int)
    ensures DecimalValue(IntToString(n)) == n
  {
    if n < 0 {
      NatToStringRoundTrip(-n);
      assert IntToString(n)[1..] == NatToString(-n);
    } else {
      NatToStringRoundTrip(n);
    }
  }

  /** How an entity kind is drawn: a player by its slot number, every enemy as `e`, the rest by their glyph. */
  function TypeToStr(t: EntityType): string {
    match t
    case Player(n) => IntToString(n)
    case Enemy(_) => "e"
    case Obstacle(g) => [g]
    case Hole(g) => [g]
  }

  /** `coord_to_str`: the drawing of the entity on cell (x, y), or a blank. */
  function CoordToStr(entities: map<int, Entity>, x: nat, y: nat): string {
    match EntityAt(entities, Coordinate(AsI8(x), AsI8(y)))
    case Some(entity) => TypeToStr(entity.entityType)
    case None => " "
  }

  /** `parts.join("")`. */
  function Concat(parts: seq<string>): string
    decreases |parts|
  {
    if parts == [] then "" else parts[0] + Concat(parts[1..])
  }

  /** `lines.join(sep)`: the separator between consecutive lines, none at the end. */
  function Join(lines: seq<string>, sep: char): string
    decreases |lines|
  {
    if |lines| == 0 then ""
    else if |lines| == 1 then lines[0]
    else lines[0] + [sep] + Join(lines[1..], sep)
  }

  /** Cut `s` at every `sep`; the inverse of `Join` for lines that do not contain `sep`. */
  function Split(s: string, sep: char): (parts: seq<string>)
    ensures |parts| >= 1
    decreases |s|
  {
    if |s| == 0 then [""]
    else
      var rest := Split(s[1..], sep);
      if s[0] == sep then [""] + rest else [[s[0]] + rest[0]] + rest[1..]
  }

  /** The cells of row `y`, left to right. */
  function Cells(entities: map<int, Entity>, sizeX: nat, y: nat): seq<string> {
    seq(sizeX, x requires 0 <= x < sizeX => CoordToStr(entities, x, y))
  }

  /** The rows of the picture, top to bottom. */
  function Rows(entities: map<int, Entity>, sizeX: nat, sizeY: nat): seq<string> {
    seq(sizeY, y requires 0 <= y < sizeY => Concat(Cells(entities, sizeX, y)))
  }

  /** `print`: the rows of the grid joined by newlines. */
  method Print(world: World) returns (s: string)
    ensures s == Join(Rows(world.entities, world.sizeX, world.sizeY), '\n')
  {
    var lines: seq<string> := [];
    for y := 0 to world.sizeY
      invariant lines == Rows(world.entities, world.sizeX, y)
    {
      var line := new string[world.sizeX](_ => "");
      for x := 0 to world.sizeX
        invariant forall k :: 0 <= k < x ==> line[k] == CoordToStr(world.entities, k, y)
      {
        line[x] := CoordToStr(world.entities, x, y);
      }
      assert line[..] == Cells(world.entities, world.sizeX, y);
      lines := lines + [Concat(line[..])];
    }
    s := Join(lines, '\n');
  }

  /** No obstacle or hole is drawn with a newline, and every player slot is a single digit. */
  ghost predicate OneCharGlyphs(entities: map<int, Entity>) {
    forall id :: id in entities ==>
      match entities[id].entityType
      case Player(n) => 0 <= n <= 9
      case Enemy(_) => true
      case Obstacle(g) => g != '\n'
      case Hole(g) => g != '\n'
  }

  /** Each cell is drawn as a blank, a player's slot number, `e` for an enemy, or the glyph of the rest. */
  lemma CellDrawing(entities: map<int, Entity>, x: nat, y: nat)
    ensures var on := EntityAt(entities, Coordinate(AsI8(x), AsI8(y)));
      && (on.None? ==> CoordToStr(entities, x, y) == " ")
      && (on.Some? && on.value.entityType.Player? ==> CoordToStr(entities, x, y) == IntToString(on.value.entityType.slot))
      && (on.Some? && on.value.entityType.Enemy? ==> CoordToStr(entities, x, y) == "e")
      && (on.Some? && (on.value.entityType.Obstacle? || on.value.entityType.Hole?) ==>
            CoordToStr(entities, x, y) == [on.value.entityType.glyph])
  {
  }

  /** With one-character glyphs, every cell is exactly one character and never a newline. */
  lemma OneCharCell(entities: map<int, Entity>, x: nat, y: nat)
    requires OneCharGlyphs(entities)
    ensures |CoordToStr(entities, x, y)| == 1 && CoordToStr(entities, x, y)[0] != '\n'
  {
  }

  lemma {:induction false} ConcatOfSingles(parts: seq<string>)
    requires forall i :: 0 <= i < |parts| ==> |parts[i]| == 1
    ensures |Concat(parts)| == |parts|
    ensures forall i :: 0 <= i < |parts| ==> Concat(parts)[i] == parts[i][0]
    decreases |parts|
  {
    if parts != [] {
      ConcatOfSingles(parts[1..]);
      assert forall i :: 1 <= i < |parts| ==> Concat(parts)[i] == Concat(parts[1..])[i - 1];
    }
  }

  lemma {:induction false} SplitWithoutSep(line: string, sep: char)
    requires sep !in line
    ensures Split(line, sep) == [line]
    decreases |line|
  {
    if |line| > 0 {
      SplitWithoutSep(line[1..], sep);
      assert [line[0]] + line[1..] == line;
    }
  }

  lemma {:induction false} SplitAtSep(line: string, sep: char, tail: string)
    requires sep !in line
    ensures Split(line + [sep] + tail, sep) == [line] + Split(tail, sep)
    decreases |line|
  {
    var s := line + [sep] + tail;
    if |line| == 0 {
      assert s[1..] == tail;
    } else {
      assert s[1..] == line[1..] + [sep] + tail;
      SplitAtSep(line[1..], sep, tail);
      assert [line[0]] + line[1..] == line;
    }
  }

  /** Splitting joined lines at the separator gives the lines back. */
  lemma {:induction false} SplitJoin(lines: seq<string>, sep: char)
    requires |lines| >= 1
    requires forall i :: 0 <= i < |lines| ==> sep !in lines[i]
    ensures Split(Join(lines, sep), sep) == lines
    decreases |lines|
  {
    if |lines| == 1 {
      SplitWithoutSep(lines[0], sep);
    } else {
      SplitJoin(lines[1..], sep);
      SplitAtSep(lines[0], sep, Join(lines[1..], sep));
      assert [lines[0]] + lines[1..] == lines;
    }
  }

  /**
   * The printed text has exactly `sizeY` lines, with no newline after the last: line y is row y,
   * which holds `sizeX` characters, the x-th being the drawing of cell (x, y).
   */
  lemma PrintedLines(entities: map<int, Entity>, sizeX: nat, sizeY: nat)
    requires OneCharGlyphs(entities)
    requires sizeY >= 1
    ensures var lines := Split(Join(Rows(entities, sizeX, sizeY), '\n'), '\n');
      && lines == Rows(entities, sizeX, sizeY)
      && |lines| == sizeY
      && forall y :: 0 <= y < sizeY ==>
           |lines[y]| == sizeX &&
           forall x :: 0 <= x < sizeX ==> lines[y][x] == CoordToStr(entities, x, y)[0]
  {
    var rows := Rows(entities, sizeX, sizeY);
    forall y | 0 <= y < sizeY
      ensures |rows[y]| == sizeX && '\n' !in rows[y]
      ensures forall x :: 0 <= x < sizeX ==> rows[y][x] == CoordToStr(entities, x, y)[0]
    {
      var cells := Cells(entities, sizeX, y);
      forall x | 0 <= x < sizeX ensures |cells[x]| == 1 && cells[x][0] != '\n' {
        OneCharCell(entities, x, y);
      }
      ConcatOfSingles(cells);
    }
    SplitJoin(rows, '\n');
  }

  /** Row `y` of the default-size grid over `entities`, when the cell drawings are known. */
  lemma RowOf(entities: map<int, Entity>, y: nat, row: string)
    requires |row| == DefaultSizeX
    requires forall x :: 0 <= x < DefaultSizeX ==> CoordToStr(entities, x, y) == [row[x]]
    ensures Concat(Cells(entities, DefaultSizeX, y)) == row
  {
    var cells := Cells(entities, DefaultSizeX, y);
    assert forall x :: 0 <= x < DefaultSizeX ==> cells[x] == [row[x]];
    ConcatOfSingles(cells);
  }

  /** The `empty_world` test: a new world prints four lines of eight blanks. */
  lemma EmptyWorldPrint()
    ensures Rows(map[], DefaultSizeX, DefaultSizeY) == ["        ", "        ", "        ", "        "]
  {
    var blank := "        ";
    forall y | 0 <= y < DefaultSizeY ensures Concat(Cells(map[], DefaultSizeX, y)) == blank {
      RowOf(map[], y, blank);
    }
  }

  lemma PlayerWorldCell(x: nat, y: nat)
    requires x < DefaultSizeX && y < DefaultSizeY
    ensures CoordToStr(map[1 := PlayerAt(Coordinate(1, 1)).(id := 1)], x, y)
         == if x == 1 && y == 1 then "1" else " "
  {
    var entities := map[1 := PlayerAt(Coordinate(1, 1)).(id := 1)];
    var on := EntityAt(entities, Coordinate(AsI8(x), AsI8(y)));
    if x == 1 && y == 1 {
      assert entities[1].coord == Coordinate(AsI8(x), AsI8(y));
      var id :| id in entities && entities[id] == on.value;
      assert IntToString(1) == "1";
    } else {
      assert entities[1].coord != Coordinate(AsI8(x), AsI8(y));
    }
  }

  /** The `world_with_actors` test: player 1 registered at (1,1) shows as `1` on the second line. */
  lemma PlayerWorldPrint()
    ensures Rows(map[1 := PlayerAt(Coordinate(1, 1)).(id := 1)], DefaultSizeX, DefaultSizeY)
         == ["        ", " 1      ", "        ", "        "]
  {
    var entities := map[1 := PlayerAt(Coordinate(1, 1)).(id := 1)];
    var blank := "        ";
    forall y | 0 <= y < DefaultSizeY && y != 1 ensures Concat(Cells(entities, DefaultSizeX, y)) == blank {
      forall x | 0 <= x < DefaultSizeX ensures CoordToStr(entities, x, y) == " " == [blank[x]] {
        PlayerWorldCell(x, y);
      }
      RowOf(entities, y, blank);
    }
    var second := seq(DefaultSizeX, x => if x == 1 then '1' else ' ');
    forall x | 0 <= x < DefaultSizeX ensures CoordToStr(entities, x, 1) == [second[x]] {
      PlayerWorldCell(x, 1);
    }
    RowOf(entities, 1, second);
    assert second == " 1      ";
  }

  /** `empty_world`, end to end: a new world printed. */
  method PrintEmptyWorld() returns (s: string)
    ensures s == Join(["        ", "        ", "        ", "        "], '\n')
  {
    var world := new World();
    s := Print(world);
    EmptyWorldPrint();
  }

  /** `world_with_actors`, end to end: a player registered on (1,1) in a new world, printed. */
  method PrintWorldWithPlayer() returns (s: string)
    ensures s == Join(["        ", " 1      ", "        ", "        "], '\n')
  {
    var world := new World();
    var player := world.Register(PlayerAt(Coordinate(1, 1)));
    assert world.entities == map[1 := PlayerAt(Coordinate(1, 1)).(id := 1)];
    s := Print(world);
    PlayerWorldPrint();
  }
}
