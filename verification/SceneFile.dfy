// The scene file format of the scene manager: a line-oriented text of
// `[SECTION]` headers, `key=value` settings and comma-separated records.
// The writer is a function from a definition to the text; the reader is a
// line loop over the text, specified by a per-line step function.
//
// Numbers are opaque tokens: the float printer of the output stream is a
// parameter `fmt`, and std::stof is a parameter `num` that yields None
// where stof would throw.

module SceneFiles {
  import opened Common
  import opened Objects
  import opened SceneData

  /** operator<< for a float. */
  type Printer = real -> string

  /** std::stof: the value read, or None where it throws. */
  type Reader = string -> Option<real>

  // ---------------------------------------------------------------------
  // Splitting text the way std::getline does

  /** The pieces of `s` between occurrences of `c` (always at least one). */
  function Split(s: string, c: char): (parts: seq<string>)
    ensures |parts| >= 1
    decreases |s|
  {
    if s == [] then [[]]
    else
      var rest := Split(s[1..], c);
      if s[0] == c then [[]] + rest
      else [[s[0]] + rest[0]] + rest[1..]
  }

  /** What successive std::getline calls with delimiter `c` read from `s`:
      the pieces between delimiters, where a delimiter at the very end
      starts no further piece (and the empty text yields none). */
  function GetlineParts(s: string, c: char): seq<string>
  {
    var p := Split(s, c);
    if p[|p| - 1] == [] then p[..|p| - 1] else p
  }

  /** Text without the delimiter is one piece. */
  lemma {:induction false} SplitNone(s: string, c: char)
    requires c !in s
    ensures Split(s, c) == [s]
    decreases |s|
  {
    if s != [] {
      SplitNone(s[1..], c);
      assert [s[0]] + s[1..] == s;
    }
  }

  /** A piece without the delimiter, then the delimiter, then the rest. */
  lemma {:induction false} SplitAfter(a: string, c: char, b: string)
    requires c !in a
    ensures Split(a + [c] + b, c) == [a] + Split(b, c)
    decreases |a|
  {
    var s := a + [c] + b;
    if a == [] {
      assert s[1..] == b;
    } else {
      assert s[1..] == a[1..] + [c] + b;
      SplitAfter(a[1..], c, b);
      assert [a[0]] + a[1..] == a;
    }
  }

  /** The file text of a sequence of lines: each line ends with a newline. */
  function Unlines(lines: seq<string>): string
  {
    if lines == [] then "" else lines[0] + "\n" + Unlines(lines[1..])
  }

  predicate OneLine(s: string)
  {
    '\n' !in s
  }

  /** Reading back the lines of a text written line by line gives exactly
      those lines. */
  lemma {:induction false} LinesOfUnlines(lines: seq<string>)
    requires AllOneLine(lines)
    ensures Split(Unlines(lines), '\n') == lines + [""]
    ensures GetlineParts(Unlines(lines), '\n') == lines
  {
    SplitUnlines(lines);
    var p := Split(Unlines(lines), '\n');
    assert p[..|p| - 1] == lines;
  }

  /** The pieces of a text written line by line are its lines and the
      empty piece after the last newline. */
  lemma {:induction false} SplitUnlines(lines: seq<string>)
    requires AllOneLine(lines)
    ensures Split(Unlines(lines), '\n') == lines + [""]
  {
    if lines != [] {
      var rest := lines[1..];
      assert AllOneLine(rest);
      SplitUnlines(rest);
      assert Unlines(lines) == lines[0] + ['\n'] + Unlines(rest);
      SplitAfter(lines[0], '\n', Unlines(rest));
      assert lines + [""] == [lines[0]] + (rest + [""]);
    }
  }


  // ---------------------------------------------------------------------
  // Writing

  function DigitChar(d: nat): char
    requires d < 10
  {
    "0123456789"[d]
  }

  /** operator<< for a non-negative int. */
  function NatText(n: nat): (s: string)
    ensures |s| >= 1
    ensures forall i :: 0 <= i < |s| ==> '0' <= s[i] <= '9'
  {
    if n < 10 then [DigitChar(n)] else NatText(n / 10) + [DigitChar(n % 10)]
  }

  /** operator<< for an int. */
  function IntText(n: int): string
  {
    if n < 0 then "-" + NatText(-n) else NatText(n)
  }

  /** One comma-separated number token that a record line can carry: not
      empty, no comma or newline, and not the start of a comment or of a
      section header. */
  predicate Token(s: string)
  {
    |s| > 0 && s[0] != '#' && s[0] != '[' && ',' !in s && OneLine(s)
  }

  lemma IntTextIsToken(n: int)
    ensures Token(IntText(n))
  {
  }

  /** Tokens written one after the other with a comma between each two. */
  function JoinCommas(tokens: seq<string>): string
    requires |tokens| >= 1
  {
    if |tokens| == 1 then tokens[0] else tokens[0] + "," + JoinCommas(tokens[1..])
  }

  function ObstacleLine(o: ObstacleData, fmt: Printer): string
  {
    JoinCommas([fmt(o.x), fmt(o.y), fmt(o.width), fmt(o.height)])
  }

  function CollectibleLine(c: CollectibleData, fmt: Printer): string
  {
    JoinCommas([fmt(c.x), fmt(c.y)])
  }

  /** The pattern is written as its integer code. */
  function EnemyLine(e: EnemyData, fmt: Printer): string
  {
    JoinCommas([fmt(e.x), fmt(e.y), IntText(PatternCode(e.pattern)), fmt(e.speed)])
  }

  function ObstacleLines(obstacles: seq<ObstacleData>, fmt: Printer): (lines: seq<string>)
    ensures |lines| == |obstacles|
  {
    if obstacles == [] then [] else [ObstacleLine(obstacles[0], fmt)] + ObstacleLines(obstacles[1..], fmt)
  }

  function CollectibleLines(collectibles: seq<CollectibleData>, fmt: Printer): (lines: seq<string>)
    ensures |lines| == |collectibles|
  {
    if collectibles == [] then [] else [CollectibleLine(collectibles[0], fmt)] + CollectibleLines(collectibles[1..], fmt)
  }

  function EnemyLines(enemies: seq<EnemyData>, fmt: Printer): (lines: seq<string>)
    ensures |lines| == |enemies|
  {
    if enemies == [] then [] else [EnemyLine(enemies[0], fmt)] + EnemyLines(enemies[1..], fmt)
  }

  /** The SCENE section of a saved scene. */
  function SceneLines(d: SceneDefinition): seq<string>
  {
    [ "[SCENE]",
      "name=" + d.name,
      "description=" + d.description,
      "nextScene=" + d.nextScene,
      "transitionTrigger=" + d.transitionTrigger ]
  }

  /** The WORLD section, after an empty line. */
  function WorldLines(d: SceneDefinition, fmt: Printer): seq<string>
  {
    [ "", "[WORLD]",
      "width=" + fmt(d.world.width),
      "height=" + fmt(d.world.height),
      "backgroundMusic=" + d.world.backgroundMusic ]
  }

  /** The CAMERA section, after an empty line. */
  function CameraLines(d: SceneDefinition, fmt: Printer): seq<string>
  {
    [ "", "[CAMERA]",
      "followSpeed=" + fmt(d.camera.followSpeed),
      "followEnabled=" + (if d.camera.followEnabled then "true" else "false") ]
  }

  /** The PLAYER section, after an empty line. */
  function PlayerLines(d: SceneDefinition, fmt: Printer): seq<string>
  {
    [ "", "[PLAYER]",
      "spawnX=" + fmt(d.playerSpawn.x),
      "spawnY=" + fmt(d.playerSpawn.y) ]
  }

  /** The settings part of a saved scene: the SCENE, WORLD, CAMERA and
      PLAYER sections. */
  function SettingsLines(d: SceneDefinition, fmt: Printer): seq<string>
  {
    SceneLines(d) + WorldLines(d, fmt) + CameraLines(d, fmt) + PlayerLines(d, fmt)
  }

  /** The lines saveSceneDefinitionToFile writes. */
  function SavedLines(d: SceneDefinition, fmt: Printer): seq<string>
  {
    SettingsLines(d, fmt)
    + ["", "[OBSTACLES]"] + ObstacleLines(d.obstacles, fmt)
    + ["", "[COLLECTIBLES]"] + CollectibleLines(d.collectibles, fmt)
    + ["", "[ENEMIES]"] + EnemyLines(d.enemies, fmt)
  }

  function SavedText(d: SceneDefinition, fmt: Printer): string
  {
    Unlines(SavedLines(d, fmt))
  }

  /** saveSceneDefinitionToFile: when the file cannot be opened for writing
      nothing is written and the result is false; otherwise the file at
      `filePath` holds the saved text, modified at `now`. */
  function SaveDefinitionToFile(d: SceneDefinition, filePath: string, disk: Disk, fmt: Printer,
                                canOpen: bool, now: int): (r: (bool, Disk))
    ensures !canOpen ==> r == (false, disk)
    ensures canOpen ==> r.0 && filePath in r.1.files && r.1.files[filePath].text == SavedText(d, fmt)
    ensures canOpen ==> forall p :: p != filePath ==>
      (p in r.1.files <==> p in disk.files) && (p in disk.files ==> r.1.files[p] == disk.files[p])
    ensures r.1.dirs == disk.dirs
  {
    if !canOpen then (false, disk)
    else
      var text := SavedText(d, fmt);
      (true, disk.(files := disk.files[filePath := FileEntry(|text|, now, text, false)]))
  }

  // ---------------------------------------------------------------------
  // Reading

  /** std::string::find of a character: its first index, or -1 (npos). */
  function IndexOf(s: string, c: char): (k: int)
    ensures -1 <= k < |s|
    ensures k == -1 <==> c !in s
    ensures k >= 0 ==> s[k] == c && c !in s[..k]
  {
    if s == [] then -1
    else if s[0] == c then 0
    else
      var k := IndexOf(s[1..], c);
      assert k >= 0 ==> s[1..][..k] == s[1..k + 1];
      if k == -1 then -1 else k + 1
  }

  /** The first '=' of a `key=value` line whose key has none is right
      after the key. */
  lemma IndexAfterKey(key: string, value: string)
    requires '=' !in key
    ensures IndexOf(key + "=" + value, '=') == |key|
  {
    var s := key + "=" + value;
    assert s[|key|] == '=' && s[..|key|] == key;
  }

  predicate IsListSection(section: string)
  {
    section == "OBSTACLES" || section == "COLLECTIBLES" || section == "ENEMIES"
  }

  /** static_cast<int> of a float: truncation toward zero. */
  function TruncToInt(r: real): (n: int)
    ensures 0.0 <= r ==> 0 <= n && n as real <= r < n as real + 1.0
    ensures r < 0.0 ==> n <= 0 && n as real - 1.0 < r <= n as real
  {
    if r >= 0.0 then r.Floor else -((-r).Floor)
  }

  /** A `key=value` setting of a non-list section. Unknown keys and
      sections leave the definition as it is; a number stof cannot read
      throws. */
  function ApplyKey(section: string, key: string, value: string, d: SceneDefinition, num: Reader): Option<SceneDefinition>
  {
    if section == "SCENE" then
      if key == "name" then Some(d.(name := value))
      else if key == "description" then Some(d.(description := value))
      else if key == "nextScene" then Some(d.(nextScene := value))
      else if key == "transitionTrigger" then Some(d.(transitionTrigger := value))
      else Some(d)
    else if section == "WORLD" then
      if key == "width" then
        (match num(value) case None => None case Some(v) => Some(d.(world := d.world.(width := v))))
      else if key == "height" then
        (match num(value) case None => None case Some(v) => Some(d.(world := d.world.(height := v))))
      else if key == "backgroundMusic" then Some(d.(world := d.world.(backgroundMusic := value)))
      else Some(d)
    else if section == "CAMERA" then
      if key == "followSpeed" then
        (match num(value) case None => None case Some(v) => Some(d.(camera := d.camera.(followSpeed := v))))
      else if key == "followEnabled" then Some(d.(camera := d.camera.(followEnabled := value == "true")))
      else Some(d)
    else if section == "PLAYER" then
      if key == "spawnX" then
        (match num(value) case None => None case Some(v) => Some(d.(playerSpawn := d.playerSpawn.(x := v))))
      else if key == "spawnY" then
        (match num(value) case None => None case Some(v) => Some(d.(playerSpawn := d.playerSpawn.(y := v))))
      else Some(d)
    else Some(d)
  }

  /** stof of every token in turn; the first unreadable one throws. */
  function ReadAll(tokens: seq<string>, num: Reader): (r: Option<seq<real>>)
    ensures r.Some? ==> |r.value| == |tokens|
  {
    if tokens == [] then Some([])
    else match num(tokens[0])
      case None => None
      case Some(v) =>
        match ReadAll(tokens[1..], num)
        case None => None
        case Some(vs) => Some([v] + vs)
  }

  /** The numbers of a record line. */
  function ReadNumbers(line: string, num: Reader): Option<seq<real>>
  {
    ReadAll(GetlineParts(line, ','), num)
  }

  /** The number of fields a record of a list section needs. */
  function FieldsNeeded(section: string): nat
  {
    if section == "COLLECTIBLES" then 2 else 4
  }

  /** One record line of a list section: a record is appended to that
      section's list when there are enough values, and extra values are
      ignored. */
  function AddRecord(section: string, values: seq<real>, d: SceneDefinition): SceneDefinition
  {
    if |values| < FieldsNeeded(section) then d
    else if section == "OBSTACLES" then
      d.(obstacles := d.obstacles + [NewObstacle(values[0], values[1], values[2], values[3])])
    else if section == "COLLECTIBLES" then
      d.(collectibles := d.collectibles + [NewCollectible(values[0], values[1])])
    else if section == "ENEMIES" then
      d.(enemies := d.enemies + [NewEnemy(values[0], values[1], PatternOfCode(TruncToInt(values[2])), values[3])])
    else d
  }

  /** Where the reader is: the current section and the definition so far. */
  datatype Cursor = Cursor(section: string, def: SceneDefinition)

  predicate IsHeader(line: string)
  {
    |line| >= 2 && line[0] == '[' && line[|line| - 1] == ']'
  }

  /** One line of the loop in loadSceneDefinitionFromFile; None when stof
      throws. */
  function ParseLine(c: Cursor, line: string, num: Reader): Option<Cursor>
  {
    if line == [] || line[0] == '#' then Some(c)
    else if IsHeader(line) then Some(c.(section := line[1..|line| - 1]))
    else
      var eq := IndexOf(line, '=');
      if eq >= 0 && !IsListSection(c.section) then
        match ApplyKey(c.section, line[..eq], line[eq + 1..], c.def, num)
        case None => None
        case Some(d) => Some(c.(def := d))
      else if IsListSection(c.section) then
        match ReadNumbers(line, num)
        case None => None
        case Some(values) => Some(c.(def := AddRecord(c.section, values, c.def)))
      else Some(c)
  }

  /** The lines read in order from cursor `c`. */
  function ParseLines(c: Cursor, lines: seq<string>, num: Reader): Option<Cursor>
    decreases |lines|
  {
    if lines == [] then Some(c)
    else match ParseLine(c, lines[0], num)
      case None => None
      case Some(c') => ParseLines(c', lines[1..], num)
  }

  /** Reading consecutive blocks of lines is reading the first, then the
      second from where the first ended. */
  lemma {:induction false} ParseLinesAppend(c: Cursor, a: seq<string>, b: seq<string>, num: Reader)
    ensures ParseLines(c, a + b, num) ==
      match ParseLines(c, a, num) case None => None case Some(c') => ParseLines(c', b, num)
    decreases |a|
  {
    if a != [] {
      assert (a + b)[0] == a[0] && (a + b)[1..] == a[1..] + b;
      match ParseLine(c, a[0], num)
      case None =>
        assert ParseLines(c, a + b, num) == None;
        assert ParseLines(c, a, num) == None;
      case Some(c') =>
        ParseLinesAppend(c', a[1..], b, num);
        assert ParseLines(c, a + b, num) == ParseLines(c', a[1..] + b, num);
        assert ParseLines(c, a, num) == ParseLines(c', a[1..], num);
    } else {
      assert a + b == b;
    }
  }

  /** Reading a first line, then the others. */
  lemma ParseLinesStep(c: Cursor, c': Cursor, line: string, rest: seq<string>, num: Reader)
    requires ParseLine(c, line, num) == Some(c')
    ensures ParseLines(c, [line] + rest, num) == ParseLines(c', rest, num)
  {
    assert ([line] + rest)[0] == line && ([line] + rest)[1..] == rest;
  }

  /** The outcome of loadSceneDefinitionFromFile. */
  datatype FileRead = NotOpened | Threw | Read(def: SceneDefinition)

  /** loadSceneDefinitionFromFile into `start`: false when the file does not
      open, an exception when a number is unreadable, and otherwise the
      definition after every line has been applied. */
  function ReadDefinitionFile(filePath: string, disk: Disk, num: Reader, start: SceneDefinition): FileRead
  {
    if filePath !in disk.files then NotOpened
    else match ParseLines(Cursor("", start), GetlineParts(disk.files[filePath].text, '\n'), num)
      case None => Threw
      case Some(c) => Read(c.def)
  }

  /** Reading from the i-th line on: that line first, then the rest. */
  lemma ParseLinesAt(c: Cursor, lines: seq<string>, i: nat, num: Reader)
    requires i < |lines|
    ensures ParseLines(c, lines[i..], num) ==
      match ParseLine(c, lines[i], num) case None => None case Some(c') => ParseLines(c', lines[i + 1..], num)
  {
    assert lines[i..][0] == lines[i] && lines[i..][1..] == lines[i + 1..];
  }

  /** The body of the line loop of loadSceneDefinitionFromFile: None where
      stof throws, otherwise the new section and definition. */
  method ProcessLine(currentSection: string, def: SceneDefinition, line: string, num: Reader)
    returns (r: Option<Cursor>)
    ensures r == ParseLine(Cursor(currentSection, def), line, num)
  {
    if line == [] || line[0] == '#' {
      return Some(Cursor(currentSection, def));
    } else if line[0] == '[' && line[|line| - 1] == ']' {
      return Some(Cursor(line[1..|line| - 1], def));
    }
    var equalPos := IndexOf(line, '=');
    if equalPos >= 0 && !IsListSection(currentSection) {
      var applied := ApplyKey(currentSection, line[..equalPos], line[equalPos + 1..], def, num);
      if applied.None? {
        return None;
      }
      return Some(Cursor(currentSection, applied.value));
    } else if IsListSection(currentSection) {
      var values := ReadNumbers(line, num);
      if values.None? {
        return None;
      }
      return Some(Cursor(currentSection, AddRecord(currentSection, values.value, def)));
    }
    return Some(Cursor(currentSection, def));
  }

  /** The line loop of loadSceneDefinitionFromFile: the current section and
      the definition are updated line by line. */
  method LoadSceneDefinitionFromFile(filePath: string, disk: Disk, num: Reader, definition: SceneDefinition)
    returns (r: FileRead)
    ensures r == ReadDefinitionFile(filePath, disk, num, definition)
  {
    if filePath !in disk.files {
      return NotOpened;
    }
    var lines := GetlineParts(disk.files[filePath].text, '\n');
    var currentSection := "";
    var def := definition;
    var i := 0;
    while i < |lines|
      invariant 0 <= i <= |lines|
      invariant ParseLines(Cursor("", definition), lines, num) == ParseLines(Cursor(currentSection, def), lines[i..], num)
    {
      var step := ProcessLine(currentSection, def, lines[i], num);
      ParseLinesAt(Cursor(currentSection, def), lines, i, num);
      if step.None? {
        return Threw;
      }
      currentSection, def := step.value.section, step.value.def;
      i := i + 1;
    }
    return Read(def);
  }

  // ---------------------------------------------------------------------
  // What a line does

  function ListOf(section: string, d: SceneDefinition): nat
  {
    if section == "OBSTACLES" then |d.obstacles|
    else if section == "COLLECTIBLES" then |d.collectibles|
    else |d.enemies|
  }

  /** A definition with the same settings and lists as `d` apart from, at
      most, the list of `section`. */
  predicate SameExceptList(section: string, d: SceneDefinition, e: SceneDefinition)
  {
    && e.(obstacles := d.obstacles, collectibles := d.collectibles, enemies := d.enemies) == d
    && (section != "OBSTACLES" ==> e.obstacles == d.obstacles)
    && (section != "COLLECTIBLES" ==> e.collectibles == d.collectibles)
    && (section != "ENEMIES" ==> e.enemies == d.enemies)
  }

  /** The rules of the reader, line by line: empty and comment lines change
      nothing; a bracketed line switches the section; a setting line
      outside the list sections never touches a list or the section, and a
      key the section does not know changes nothing; a line inside a list
      section keeps the section and every setting and appends exactly one
      record to that section's list when it has enough fields, and none
      otherwise. */
  lemma ParseLineRules(c: Cursor, line: string, num: Reader)
    ensures line == [] || line[0] == '#' ==> ParseLine(c, line, num) == Some(c)
    ensures line != [] && line[0] != '#' && IsHeader(line) ==>
      ParseLine(c, line, num) == Some(Cursor(line[1..|line| - 1], c.def))
    ensures line != [] && line[0] != '#' && !IsHeader(line) && !IsListSection(c.section) ==>
      match ParseLine(c, line, num)
      case None => true
      case Some(c') =>
        && c'.section == c.section
        && c'.def.obstacles == c.def.obstacles
        && c'.def.collectibles == c.def.collectibles
        && c'.def.enemies == c.def.enemies
    ensures line != [] && line[0] != '#' && !IsHeader(line) && IsListSection(c.section) ==>
      && (ParseLine(c, line, num).None? <==> ReadNumbers(line, num).None?)
      && (ParseLine(c, line, num).Some? ==>
          var c' := ParseLine(c, line, num).value;
          && c'.section == c.section
          && SameExceptList(c.section, c.def, c'.def)
          && ListOf(c.section, c'.def) ==
               ListOf(c.section, c.def) + (if |ReadNumbers(line, num).value| >= FieldsNeeded(c.section) then 1 else 0))
  {
    if line != [] && line[0] != '#' && !IsHeader(line) {
      var eq := IndexOf(line, '=');
      if eq >= 0 && !IsListSection(c.section) {
        ApplyKeyKeepsLists(c.section, line[..eq], line[eq + 1..], c.def, num);
      } else if IsListSection(c.section) && ReadNumbers(line, num).Some? {
        AddRecordAppends(c.section, ReadNumbers(line, num).value, c.def);
      }
    }
  }

  /** A setting never touches a list. */
  lemma ApplyKeyKeepsLists(section: string, key: string, value: string, d: SceneDefinition, num: Reader)
    ensures ApplyKey(section, key, value, d, num).Some? ==>
      var e := ApplyKey(section, key, value, d, num).value;
      e.obstacles == d.obstacles && e.collectibles == d.collectibles && e.enemies == d.enemies
  {
    if section == "SCENE" {
    } else if section == "WORLD" {
    } else if section == "CAMERA" {
    } else if section == "PLAYER" {
    }
  }

  /** A record line of a list section changes that list only, by one
      record exactly when there are enough values. */
  lemma AddRecordAppends(section: string, values: seq<real>, d: SceneDefinition)
    requires IsListSection(section)
    ensures SameExceptList(section, d, AddRecord(section, values, d))
    ensures ListOf(section, AddRecord(section, values, d)) ==
      ListOf(section, d) + (if |values| >= FieldsNeeded(section) then 1 else 0)
  {
  }

  /** Keys a section does not know are ignored. */
  lemma UnknownKeysIgnored(section: string, key: string, value: string, d: SceneDefinition, num: Reader)
    requires key !in {"name", "description", "nextScene", "transitionTrigger", "width", "height",
                      "backgroundMusic", "followSpeed", "followEnabled", "spawnX", "spawnY"}
    ensures ApplyKey(section, key, value, d, num) == Some(d)
  {
  }

  /** Reading never loses a record: every list of the result starts with
      the list it started from. */
  lemma {:induction false} ParseLinesOnlyAppends(c: Cursor, lines: seq<string>, num: Reader)
    ensures ParseLines(c, lines, num).Some? ==>
      var d := ParseLines(c, lines, num).value.def;
      && c.def.obstacles <= d.obstacles
      && c.def.collectibles <= d.collectibles
      && c.def.enemies <= d.enemies
    decreases |lines|
  {
    if lines != [] {
      ParseLineRules(c, lines[0], num);
      match ParseLine(c, lines[0], num)
      case None =>
      case Some(c') =>
        assert c.def.obstacles <= c'.def.obstacles;
        assert c.def.collectibles <= c'.def.collectibles;
        assert c.def.enemies <= c'.def.enemies;
        ParseLinesOnlyAppends(c', lines[1..], num);
    }
  }

  // ---------------------------------------------------------------------
  // Saving then loading

  /** What a record becomes once saved and read back: only the numbers in
      the file survive, everything else takes the record's defaults. */
  function RereadObstacles(obstacles: seq<ObstacleData>): (r: seq<ObstacleData>)
    ensures |r| == |obstacles|
    ensures forall i :: 0 <= i < |r| ==> r[i] == NewObstacle(obstacles[i].x, obstacles[i].y, obstacles[i].width, obstacles[i].height)
  {
    if obstacles == [] then []
    else [NewObstacle(obstacles[0].x, obstacles[0].y, obstacles[0].width, obstacles[0].height)] + RereadObstacles(obstacles[1..])
  }

  function RereadCollectibles(collectibles: seq<CollectibleData>): (r: seq<CollectibleData>)
    ensures |r| == |collectibles|
    ensures forall i :: 0 <= i < |r| ==> r[i] == NewCollectible(collectibles[i].x, collectibles[i].y)
  {
    if collectibles == [] then []
    else [NewCollectible(collectibles[0].x, collectibles[0].y)] + RereadCollectibles(collectibles[1..])
  }

  function RereadEnemies(enemies: seq<EnemyData>): (r: seq<EnemyData>)
    ensures |r| == |enemies|
    ensures forall i :: 0 <= i < |r| ==> r[i] == NewEnemy(enemies[i].x, enemies[i].y, enemies[i].pattern, enemies[i].speed)
  {
    if enemies == [] then []
    else [NewEnemy(enemies[0].x, enemies[0].y, enemies[0].pattern, enemies[0].speed)] + RereadEnemies(enemies[1..])
  }

  /** The part of a definition the file format carries, on top of a
      default definition. */
  function Persisted(d: SceneDefinition): SceneDefinition
  {
    DefaultDefinition().(
      name := d.name, description := d.description,
      nextScene := d.nextScene, transitionTrigger := d.transitionTrigger,
      world := DefaultWorld().(width := d.world.width, height := d.world.height,
                               backgroundMusic := d.world.backgroundMusic),
      camera := DefaultCamera().(followSpeed := d.camera.followSpeed, followEnabled := d.camera.followEnabled),
      playerSpawn := d.playerSpawn,
      obstacles := RereadObstacles(d.obstacles),
      collectibles := RereadCollectibles(d.collectibles),
      enemies := RereadEnemies(d.enemies))
  }

  /** What the model asks of the stream's float printer and of stof: every
      printed number is a record token that stof reads, and stof reads
      every printed integer. The value read need not be the value printed:
      the stream prints six significant digits. */
  ghost predicate Printable(fmt: Printer, num: Reader)
  {
    && (forall v: real :: Token(fmt(v)) && num(fmt(v)).Some?)
    && (forall n: int :: num(IntText(n)).Some?)
  }

  /** Printable asks nothing impossible: a printer writing "0" for every
      number and a reader reading every text as zero meet it. */
  lemma PrintableIsMet()
    ensures Printable(v => "0", s => Some(0.0))
  {
  }

  /** The value stof reads from the text printed for `v`. With six
      significant digits, 1234567 is printed "1.23457e+06" and read back as
      1234570. A text stof cannot read, which Printable rules out, keeps `v`. */
  function RereadReal(fmt: Printer, num: Reader, v: real): real
  {
    match num(fmt(v))
    case Some(r) => r
    case None => v
  }

  /** The value stof reads from the integer code written for a pattern. */
  function RereadCode(num: Reader, code: int): real
  {
    match num(IntText(code))
    case Some(r) => r
    case None => code as real
  }

  /** The pattern rebuilt from the code read back. */
  function RereadPattern(num: Reader, p: MovementPattern): MovementPattern
  {
    PatternOfCode(TruncToInt(RereadCode(num, PatternCode(p))))
  }

  /** What a record becomes once saved and loaded: the numbers are what
      stof reads from the printed text, everything else takes the
      record's defaults. */
  function ReloadedObstacles(obstacles: seq<ObstacleData>, fmt: Printer, num: Reader): (r: seq<ObstacleData>)
    ensures |r| == |obstacles|
    ensures forall i :: 0 <= i < |r| ==>
      var o := obstacles[i];
      r[i] == NewObstacle(RereadReal(fmt, num, o.x), RereadReal(fmt, num, o.y),
                          RereadReal(fmt, num, o.width), RereadReal(fmt, num, o.height))
  {
    if obstacles == [] then []
    else
      var o := obstacles[0];
      [NewObstacle(RereadReal(fmt, num, o.x), RereadReal(fmt, num, o.y),
                   RereadReal(fmt, num, o.width), RereadReal(fmt, num, o.height))]
      + ReloadedObstacles(obstacles[1..], fmt, num)
  }

  function ReloadedCollectibles(collectibles: seq<CollectibleData>, fmt: Printer, num: Reader): (r: seq<CollectibleData>)
    ensures |r| == |collectibles|
    ensures forall i :: 0 <= i < |r| ==>
      r[i] == NewCollectible(RereadReal(fmt, num, collectibles[i].x), RereadReal(fmt, num, collectibles[i].y))
  {
    if collectibles == [] then []
    else
      [NewCollectible(RereadReal(fmt, num, collectibles[0].x), RereadReal(fmt, num, collectibles[0].y))]
      + ReloadedCollectibles(collectibles[1..], fmt, num)
  }

  function ReloadedEnemies(enemies: seq<EnemyData>, fmt: Printer, num: Reader): (r: seq<EnemyData>)
    ensures |r| == |enemies|
    ensures forall i :: 0 <= i < |r| ==>
      var e := enemies[i];
      r[i] == NewEnemy(RereadReal(fmt, num, e.x), RereadReal(fmt, num, e.y),
                       RereadPattern(num, e.pattern), RereadReal(fmt, num, e.speed))
  {
    if enemies == [] then []
    else
      var e := enemies[0];
      [NewEnemy(RereadReal(fmt, num, e.x), RereadReal(fmt, num, e.y),
                RereadPattern(num, e.pattern), RereadReal(fmt, num, e.speed))]
      + ReloadedEnemies(enemies[1..], fmt, num)
  }

  /** The spawn point read back. */
  function ReloadedSpawn(d: SceneDefinition, fmt: Printer, num: Reader): PlayerSpawn
  {
    PlayerSpawn(RereadReal(fmt, num, d.playerSpawn.x), RereadReal(fmt, num, d.playerSpawn.y))
  }

  /** What loading a saved definition gives: the persisted part, with
      every number replaced by the value stof reads from its printed
      text. */
  function Reloaded(d: SceneDefinition, fmt: Printer, num: Reader): SceneDefinition
  {
    DefaultDefinition().(
      name := d.name, description := d.description,
      nextScene := d.nextScene, transitionTrigger := d.transitionTrigger,
      world := DefaultWorld().(width := RereadReal(fmt, num, d.world.width),
                               height := RereadReal(fmt, num, d.world.height),
                               backgroundMusic := d.world.backgroundMusic),
      camera := DefaultCamera().(followSpeed := RereadReal(fmt, num, d.camera.followSpeed),
                                 followEnabled := d.camera.followEnabled),
      playerSpawn := ReloadedSpawn(d, fmt, num),
      obstacles := ReloadedObstacles(d.obstacles, fmt, num),
      collectibles := ReloadedCollectibles(d.collectibles, fmt, num),
      enemies := ReloadedEnemies(d.enemies, fmt, num))
  }

  /** stof reads back exactly the number printed for `v`. */
  predicate ReadsExactly(fmt: Printer, num: Reader, v: real)
  {
    num(fmt(v)) == Some(v)
  }

  /** stof reads back exactly every number a definition's file carries. */
  ghost predicate AgreeOn(fmt: Printer, num: Reader, d: SceneDefinition)
  {
    && ReadsExactly(fmt, num, d.world.width) && ReadsExactly(fmt, num, d.world.height)
    && ReadsExactly(fmt, num, d.camera.followSpeed)
    && ReadsExactly(fmt, num, d.playerSpawn.x) && ReadsExactly(fmt, num, d.playerSpawn.y)
    && (forall i :: 0 <= i < |d.obstacles| ==>
          var o := d.obstacles[i];
          ReadsExactly(fmt, num, o.x) && ReadsExactly(fmt, num, o.y)
          && ReadsExactly(fmt, num, o.width) && ReadsExactly(fmt, num, o.height))
    && (forall i :: 0 <= i < |d.collectibles| ==>
          ReadsExactly(fmt, num, d.collectibles[i].x) && ReadsExactly(fmt, num, d.collectibles[i].y))
    && (forall i :: 0 <= i < |d.enemies| ==>
          var e := d.enemies[i];
          && ReadsExactly(fmt, num, e.x) && ReadsExactly(fmt, num, e.y) && ReadsExactly(fmt, num, e.speed)
          && num(IntText(PatternCode(e.pattern))) == Some(PatternCode(e.pattern) as real))
  }

  /** When stof reads back exactly every number of the file, loading gives
      back the persisted part of the definition itself. */
  lemma ReloadedIsPersisted(d: SceneDefinition, fmt: Printer, num: Reader)
    requires AgreeOn(fmt, num, d)
    requires forall i :: 0 <= i < |d.enemies| ==> WellFormedPattern(d.enemies[i].pattern)
    ensures Reloaded(d, fmt, num) == Persisted(d)
  {
    var es := d.enemies;
    forall i | 0 <= i < |es|
      ensures RereadPattern(num, es[i].pattern) == es[i].pattern
    {
      var code := PatternCode(es[i].pattern);
      assert RereadCode(num, code) == code as real;
      assert TruncToInt(code as real) == code;
      PatternCodeRoundTrip(es[i].pattern);
    }
    assert ReloadedObstacles(d.obstacles, fmt, num) == RereadObstacles(d.obstacles);
    assert ReloadedCollectibles(d.collectibles, fmt, num) == RereadCollectibles(d.collectibles);
    assert ReloadedEnemies(es, fmt, num) == RereadEnemies(es);
  }

  /** The text fields of a definition fit on one line each. */
  predicate TextFieldsOneLine(d: SceneDefinition)
  {
    OneLine(d.name) && OneLine(d.description) && OneLine(d.nextScene) &&
    OneLine(d.transitionTrigger) && OneLine(d.world.backgroundMusic)
  }

  /** A non-empty token list separated by commas splits back into it. */
  lemma {:induction false} FieldsOfTokens(tokens: seq<string>, line: string)
    requires |tokens| >= 1 && forall i :: 0 <= i < |tokens| ==> Token(tokens[i])
    requires line == JoinCommas(tokens)
    ensures GetlineParts(line, ',') == tokens
  {
    SplitOfJoin(tokens);
  }

  lemma {:induction false} SplitOfJoin(tokens: seq<string>)
    requires |tokens| >= 1 && forall i :: 0 <= i < |tokens| ==> Token(tokens[i])
    ensures Split(JoinCommas(tokens), ',') == tokens
  {
    if |tokens| == 1 {
      SplitNone(tokens[0], ',');
    } else {
      SplitOfJoin(tokens[1..]);
      SplitAfter(tokens[0], ',', JoinCommas(tokens[1..]));
      assert [tokens[0]] + tokens[1..] == tokens;
    }
  }

  /** A record line starts with a token, so it is neither skipped nor a
      header. */
  lemma RecordLineIsRecord(tokens: seq<string>)
    requires |tokens| >= 1 && Token(tokens[0])
    ensures var line := JoinCommas(tokens); line != [] && line[0] != '#' && !IsHeader(line)
  {
    var line := JoinCommas(tokens);
    if |tokens| > 1 {
      assert line == tokens[0] + ("," + JoinCommas(tokens[1..]));
    }
    assert line[0] == tokens[0][0];
  }

  /** Tokens stof reads one by one read as a whole. */
  lemma {:induction false} ReadAllOfReadable(tokens: seq<string>, values: seq<real>, num: Reader)
    requires |tokens| == |values|
    requires forall i :: 0 <= i < |tokens| ==> num(tokens[i]) == Some(values[i])
    ensures ReadAll(tokens, num) == Some(values)
    decreases |tokens|
  {
    if tokens != [] {
      ReadAllOfReadable(tokens[1..], values[1..], num);
      assert [values[0]] + values[1..] == values;
    }
  }

  /** Each saved obstacle line reads back as exactly one obstacle, with
      the numbers stof reads from the printed text. */
  lemma ObstacleLineReadsBack(c: Cursor, o: ObstacleData, fmt: Printer, num: Reader)
    requires Printable(fmt, num) && c.section == "OBSTACLES"
    ensures ParseLine(c, ObstacleLine(o, fmt), num) ==
      Some(c.(def := c.def.(obstacles := c.def.obstacles + ReloadedObstacles([o], fmt, num))))
  {
    var tokens := [fmt(o.x), fmt(o.y), fmt(o.width), fmt(o.height)];
    var values := [RereadReal(fmt, num, o.x), RereadReal(fmt, num, o.y),
                   RereadReal(fmt, num, o.width), RereadReal(fmt, num, o.height)];
    assert Token(fmt(o.x)) && Token(fmt(o.y)) && Token(fmt(o.width)) && Token(fmt(o.height));
    assert num(fmt(o.x)).Some? && num(fmt(o.y)).Some? && num(fmt(o.width)).Some? && num(fmt(o.height)).Some?;
    RecordLineIsRecord(tokens);
    FieldsOfTokens(tokens, ObstacleLine(o, fmt));
    ReadAllOfReadable(tokens, values, num);
    assert ReadNumbers(ObstacleLine(o, fmt), num) == Some(values);
    assert ReloadedObstacles([o], fmt, num) == [NewObstacle(values[0], values[1], values[2], values[3])];
  }

  /** Each saved collectible line reads back as exactly one collectible,
      with the numbers stof reads from the printed text. */
  lemma CollectibleLineReadsBack(c: Cursor, k: CollectibleData, fmt: Printer, num: Reader)
    requires Printable(fmt, num) && c.section == "COLLECTIBLES"
    ensures ParseLine(c, CollectibleLine(k, fmt), num) ==
      Some(c.(def := c.def.(collectibles := c.def.collectibles + ReloadedCollectibles([k], fmt, num))))
  {
    var tokens := [fmt(k.x), fmt(k.y)];
    var values := [RereadReal(fmt, num, k.x), RereadReal(fmt, num, k.y)];
    assert Token(fmt(k.x)) && Token(fmt(k.y));
    assert num(fmt(k.x)).Some? && num(fmt(k.y)).Some?;
    RecordLineIsRecord(tokens);
    FieldsOfTokens(tokens, CollectibleLine(k, fmt));
    ReadAllOfReadable(tokens, values, num);
    assert ReadNumbers(CollectibleLine(k, fmt), num) == Some(values);
    assert ReloadedCollectibles([k], fmt, num) == [NewCollectible(values[0], values[1])];
  }

  /** Each saved enemy line reads back as exactly one enemy, with the
      numbers stof reads from the printed text and the pattern rebuilt
      from the code read back. */
  lemma EnemyLineReadsBack(c: Cursor, e: EnemyData, fmt: Printer, num: Reader)
    requires Printable(fmt, num) && c.section == "ENEMIES"
    ensures ParseLine(c, EnemyLine(e, fmt), num) ==
      Some(c.(def := c.def.(enemies := c.def.enemies + ReloadedEnemies([e], fmt, num))))
  {
    var code := PatternCode(e.pattern);
    var tokens := [fmt(e.x), fmt(e.y), IntText(code), fmt(e.speed)];
    var values := [RereadReal(fmt, num, e.x), RereadReal(fmt, num, e.y),
                   RereadCode(num, code), RereadReal(fmt, num, e.speed)];
    IntTextIsToken(code);
    assert Token(fmt(e.x)) && Token(fmt(e.y)) && Token(fmt(e.speed));
    assert num(fmt(e.x)).Some? && num(fmt(e.y)).Some? && num(fmt(e.speed)).Some? && num(IntText(code)).Some?;
    RecordLineIsRecord(tokens);
    FieldsOfTokens(tokens, EnemyLine(e, fmt));
    ReadAllOfReadable(tokens, values, num);
    assert ReadNumbers(EnemyLine(e, fmt), num) == Some(values);
    assert ReloadedEnemies([e], fmt, num) ==
      [NewEnemy(values[0], values[1], PatternOfCode(TruncToInt(values[2])), values[3])];
  }

  /** Reading lines that each take one cursor to the next ends at the last
      cursor. */
  lemma {:induction false} ParseLinesChain(cs: seq<Cursor>, lines: seq<string>, num: Reader)
    requires |cs| == |lines| + 1
    requires forall i :: 0 <= i < |lines| ==> ParseLine(cs[i], lines[i], num) == Some(cs[i + 1])
    ensures ParseLines(cs[0], lines, num) == Some(cs[|lines|])
    decreases |lines|
  {
    if lines != [] {
      ParseLinesChain(cs[1..], lines[1..], num);
    }
  }

  /** The cursor after the first `i` saved obstacles lines. */
  function ObstacleCursor(c: Cursor, obstacles: seq<ObstacleData>, fmt: Printer, num: Reader, i: nat): Cursor
    requires i <= |obstacles|
  {
    c.(def := c.def.(obstacles := c.def.obstacles + ReloadedObstacles(obstacles[..i], fmt, num)))
  }

  lemma ObstacleCursorStep(c: Cursor, obstacles: seq<ObstacleData>, fmt: Printer, num: Reader, i: nat)
    requires i < |obstacles|
    ensures var o := obstacles[i]; var cur := ObstacleCursor(c, obstacles, fmt, num, i);
      ObstacleCursor(c, obstacles, fmt, num, i + 1) == cur.(def := cur.def.(obstacles := cur.def.obstacles + ReloadedObstacles([o], fmt, num)))
  {
    var o := obstacles[i];
    assert obstacles[..i + 1] == obstacles[..i] + [o];
    var before := ReloadedObstacles(obstacles[..i], fmt, num);
    assert ReloadedObstacles(obstacles[..i + 1], fmt, num) == before + ReloadedObstacles([o], fmt, num);
    assert c.def.obstacles + (before + ReloadedObstacles([o], fmt, num)) == (c.def.obstacles + before) + ReloadedObstacles([o], fmt, num);
  }

  lemma ObstacleChainStep(c: Cursor, obstacles: seq<ObstacleData>, i: nat, fmt: Printer, num: Reader)
    requires Printable(fmt, num) && c.section == "OBSTACLES" && i < |obstacles|
    ensures ParseLine(ObstacleCursor(c, obstacles, fmt, num, i), ObstacleLines(obstacles, fmt)[i], num) == Some(ObstacleCursor(c, obstacles, fmt, num, i + 1))
  {
    var o := obstacles[i];
    var cur := ObstacleCursor(c, obstacles, fmt, num, i);
    ObstacleCursorStep(c, obstacles, fmt, num, i);
    ObstacleLineAt(obstacles, fmt, i);
    ObstacleLineReadsBack(cur, o, fmt, num);
  }

  lemma ObstacleLinesReadBack(c: Cursor, obstacles: seq<ObstacleData>, fmt: Printer, num: Reader)
    requires Printable(fmt, num) && c.section == "OBSTACLES"
    ensures ParseLines(c, ObstacleLines(obstacles, fmt), num) ==
      Some(c.(def := c.def.(obstacles := c.def.obstacles + ReloadedObstacles(obstacles, fmt, num))))
  {
    var lines := ObstacleLines(obstacles, fmt);
    var cs := seq(|obstacles| + 1, i requires 0 <= i <= |obstacles| => ObstacleCursor(c, obstacles, fmt, num, i));
    forall i | 0 <= i < |lines|
      ensures ParseLine(cs[i], lines[i], num) == Some(cs[i + 1])
    {
      ObstacleChainStep(c, obstacles, i, fmt, num);
    }
    ParseLinesChain(cs, lines, num);
    assert obstacles[..0] == [] && obstacles[..|obstacles|] == obstacles;
    assert c.def.obstacles + [] == c.def.obstacles;
  }

  /** The cursor after the first `i` saved collectibles lines. */
  function CollectibleCursor(c: Cursor, collectibles: seq<CollectibleData>, fmt: Printer, num: Reader, i: nat): Cursor
    requires i <= |collectibles|
  {
    c.(def := c.def.(collectibles := c.def.collectibles + ReloadedCollectibles(collectibles[..i], fmt, num)))
  }

  lemma CollectibleCursorStep(c: Cursor, collectibles: seq<CollectibleData>, fmt: Printer, num: Reader, i: nat)
    requires i < |collectibles|
    ensures var o := collectibles[i]; var cur := CollectibleCursor(c, collectibles, fmt, num, i);
      CollectibleCursor(c, collectibles, fmt, num, i + 1) == cur.(def := cur.def.(collectibles := cur.def.collectibles + ReloadedCollectibles([o], fmt, num)))
  {
    var o := collectibles[i];
    assert collectibles[..i + 1] == collectibles[..i] + [o];
    var before := ReloadedCollectibles(collectibles[..i], fmt, num);
    assert ReloadedCollectibles(collectibles[..i + 1], fmt, num) == before + ReloadedCollectibles([o], fmt, num);
    assert c.def.collectibles + (before + ReloadedCollectibles([o], fmt, num)) == (c.def.collectibles + before) + ReloadedCollectibles([o], fmt, num);
  }

  lemma CollectibleChainStep(c: Cursor, collectibles: seq<CollectibleData>, i: nat, fmt: Printer, num: Reader)
    requires Printable(fmt, num) && c.section == "COLLECTIBLES" && i < |collectibles|
    ensures ParseLine(CollectibleCursor(c, collectibles, fmt, num, i), CollectibleLines(collectibles, fmt)[i], num) == Some(CollectibleCursor(c, collectibles, fmt, num, i + 1))
  {
    var o := collectibles[i];
    var cur := CollectibleCursor(c, collectibles, fmt, num, i);
    CollectibleCursorStep(c, collectibles, fmt, num, i);
    CollectibleLineAt(collectibles, fmt, i);
    CollectibleLineReadsBack(cur, o, fmt, num);
  }

  lemma CollectibleLinesReadBack(c: Cursor, collectibles: seq<CollectibleData>, fmt: Printer, num: Reader)
    requires Printable(fmt, num) && c.section == "COLLECTIBLES"
    ensures ParseLines(c, CollectibleLines(collectibles, fmt), num) ==
      Some(c.(def := c.def.(collectibles := c.def.collectibles + ReloadedCollectibles(collectibles, fmt, num))))
  {
    var lines := CollectibleLines(collectibles, fmt);
    var cs := seq(|collectibles| + 1, i requires 0 <= i <= |collectibles| => CollectibleCursor(c, collectibles, fmt, num, i));
    forall i | 0 <= i < |lines|
      ensures ParseLine(cs[i], lines[i], num) == Some(cs[i + 1])
    {
      CollectibleChainStep(c, collectibles, i, fmt, num);
    }
    ParseLinesChain(cs, lines, num);
    assert collectibles[..0] == [] && collectibles[..|collectibles|] == collectibles;
    assert c.def.collectibles + [] == c.def.collectibles;
  }

  /** The cursor after the first `i` saved enemies lines. */
  function EnemyCursor(c: Cursor, enemies: seq<EnemyData>, fmt: Printer, num: Reader, i: nat): Cursor
    requires i <= |enemies|
  {
    c.(def := c.def.(enemies := c.def.enemies + ReloadedEnemies(enemies[..i], fmt, num)))
  }

  lemma EnemyCursorStep(c: Cursor, enemies: seq<EnemyData>, fmt: Printer, num: Reader, i: nat)
    requires i < |enemies|
    ensures var o := enemies[i]; var cur := EnemyCursor(c, enemies, fmt, num, i);
      EnemyCursor(c, enemies, fmt, num, i + 1) == cur.(def := cur.def.(enemies := cur.def.enemies + ReloadedEnemies([o], fmt, num)))
  {
    var o := enemies[i];
    assert enemies[..i + 1] == enemies[..i] + [o];
    var before := ReloadedEnemies(enemies[..i], fmt, num);
    assert ReloadedEnemies(enemies[..i + 1], fmt, num) == before + ReloadedEnemies([o], fmt, num);
    assert c.def.enemies + (before + ReloadedEnemies([o], fmt, num)) == (c.def.enemies + before) + ReloadedEnemies([o], fmt, num);
  }

  lemma EnemyChainStep(c: Cursor, enemies: seq<EnemyData>, i: nat, fmt: Printer, num: Reader)
    requires Printable(fmt, num) && c.section == "ENEMIES" && i < |enemies|
    ensures ParseLine(EnemyCursor(c, enemies, fmt, num, i), EnemyLines(enemies, fmt)[i], num) == Some(EnemyCursor(c, enemies, fmt, num, i + 1))
  {
    var o := enemies[i];
    var cur := EnemyCursor(c, enemies, fmt, num, i);
    EnemyCursorStep(c, enemies, fmt, num, i);
    EnemyLineAt(enemies, fmt, i);
    EnemyLineReadsBack(cur, o, fmt, num);
  }

  lemma EnemyLinesReadBack(c: Cursor, enemies: seq<EnemyData>, fmt: Printer, num: Reader)
    requires Printable(fmt, num) && c.section == "ENEMIES"
    ensures ParseLines(c, EnemyLines(enemies, fmt), num) ==
      Some(c.(def := c.def.(enemies := c.def.enemies + ReloadedEnemies(enemies, fmt, num))))
  {
    var lines := EnemyLines(enemies, fmt);
    var cs := seq(|enemies| + 1, i requires 0 <= i <= |enemies| => EnemyCursor(c, enemies, fmt, num, i));
    forall i | 0 <= i < |lines|
      ensures ParseLine(cs[i], lines[i], num) == Some(cs[i + 1])
    {
      EnemyChainStep(c, enemies, i, fmt, num);
    }
    ParseLinesChain(cs, lines, num);
    assert enemies[..0] == [] && enemies[..|enemies|] == enemies;
    assert c.def.enemies + [] == c.def.enemies;
  }

  /** An empty line changes nothing. */
  lemma BlankLine(c: Cursor, num: Reader)
    ensures ParseLine(c, "", num) == Some(c)
  {
  }

  /** A bracketed name switches to that section. */
  lemma HeaderLine(c: Cursor, name: string, num: Reader)
    ensures ParseLine(c, "[" + name + "]", num) == Some(c.(section := name))
  {
    var line := "[" + name + "]";
    assert IsHeader(line) && line[1..|line| - 1] == name;
  }

  /** A `key=value` line of a settings section whose setting succeeds. */
  lemma KeyLine(c: Cursor, key: string, value: string, d: SceneDefinition, num: Reader)
    requires key != [] && key[0] != '#' && key[0] != '[' && '=' !in key
    requires !IsListSection(c.section)
    requires ApplyKey(c.section, key, value, c.def, num) == Some(d)
    ensures ParseLine(c, key + "=" + value, num) == Some(c.(def := d))
  {
    SettingLine(c, key, value, num);
  }

  /** A `key=value` line of a settings section, for a known key. */
  lemma SettingLine(c: Cursor, key: string, value: string, num: Reader)
    requires key != [] && key[0] != '#' && key[0] != '[' && '=' !in key
    requires !IsListSection(c.section)
    ensures ParseLine(c, key + "=" + value, num) ==
      match ApplyKey(c.section, key, value, c.def, num)
      case None => None
      case Some(d) => Some(c.(def := d))
  {
    var line := key + "=" + value;
    IndexAfterKey(key, value);
    assert line[..|key|] == key && line[|key| + 1..] == value;
    assert line[0] == key[0];
  }

  /** Reading two blocks of lines one after the other. */
  lemma ReadThen(c: Cursor, a: seq<string>, b: seq<string>, mid: Cursor, num: Reader)
    requires ParseLines(c, a, num) == Some(mid)
    ensures ParseLines(c, a + b, num) == ParseLines(mid, b, num)
  {
    ParseLinesAppend(c, a, b, num);
  }

  /** An empty line, then a section header: the section switches. */
  lemma HeaderAfterBlank(c: Cursor, header: string, name: string, num: Reader)
    requires header == "[" + name + "]"
    ensures ParseLines(c, ["", header], num) == Some(c.(section := name))
  {
    assert IsHeader(header) && header[1..|header| - 1] == name;
    ParseLinesChain([c, c, c.(section := name)], ["", header], num);
  }

  /** The cursors the SCENE section passes through. */
  function SceneCursors(c: Cursor, d: SceneDefinition): seq<Cursor>
  {
    var c0 := Cursor("SCENE", c.def);
    var c1 := c0.(def := c0.def.(name := d.name));
    var c2 := c1.(def := c1.def.(description := d.description));
    var c3 := c2.(def := c2.def.(nextScene := d.nextScene));
    [c, c0, c1, c2, c3, c3.(def := c3.def.(transitionTrigger := d.transitionTrigger))]
  }

  lemma SceneStep(c: Cursor, d: SceneDefinition, num: Reader, i: nat)
    requires i < 5
    ensures ParseLine(SceneCursors(c, d)[i], SceneLines(d)[i], num) == Some(SceneCursors(c, d)[i + 1])
  {
    var cs := SceneCursors(c, d);
    if i == 0 {
      assert SceneLines(d)[0] == "[" + "SCENE" + "]";
      HeaderLine(c, "SCENE", num);
    } else if i == 1 {
      assert SceneLines(d)[1] == "name" + "=" + d.name;
      assert ApplyKey("SCENE", "name", d.name, cs[1].def, num) == Some(cs[2].def);
      KeyLine(cs[1], "name", d.name, cs[2].def, num);
    } else if i == 2 {
      assert SceneLines(d)[2] == "description" + "=" + d.description;
      assert ApplyKey("SCENE", "description", d.description, cs[2].def, num) == Some(cs[3].def);
      KeyLine(cs[2], "description", d.description, cs[3].def, num);
    } else if i == 3 {
      assert SceneLines(d)[3] == "nextScene" + "=" + d.nextScene;
      assert ApplyKey("SCENE", "nextScene", d.nextScene, cs[3].def, num) == Some(cs[4].def);
      KeyLine(cs[3], "nextScene", d.nextScene, cs[4].def, num);
    } else {
      assert SceneLines(d)[4] == "transitionTrigger" + "=" + d.transitionTrigger;
      assert ApplyKey("SCENE", "transitionTrigger", d.transitionTrigger, cs[4].def, num) == Some(cs[5].def);
      KeyLine(cs[4], "transitionTrigger", d.transitionTrigger, cs[5].def, num);
    }
  }

  /** The SCENE section reads back its four text settings. */
  lemma SceneLinesReadBack(c: Cursor, d: SceneDefinition, num: Reader)
    ensures ParseLines(c, SceneLines(d), num) ==
      Some(Cursor("SCENE", c.def.(name := d.name, description := d.description,
                                  nextScene := d.nextScene, transitionTrigger := d.transitionTrigger)))
  {
    var ls := SceneLines(d);
    var cs := SceneCursors(c, d);
    forall i | 0 <= i < |ls|
      ensures ParseLine(cs[i], ls[i], num) == Some(cs[i + 1])
    {
      SceneStep(c, d, num, i);
    }
    ParseLinesChain(cs, ls, num);
  }

  /** The cursors the WORLD section passes through. */
  function WorldCursors(c: Cursor, d: SceneDefinition, fmt: Printer, num: Reader): seq<Cursor>
  {
    var w0 := Cursor("WORLD", c.def);
    var w1 := w0.(def := w0.def.(world := w0.def.world.(width := RereadReal(fmt, num, d.world.width))));
    var w2 := w1.(def := w1.def.(world := w1.def.world.(height := RereadReal(fmt, num, d.world.height))));
    [c, c, w0, w1, w2, w2.(def := w2.def.(world := w2.def.world.(backgroundMusic := d.world.backgroundMusic)))]
  }

  lemma WorldStep(c: Cursor, d: SceneDefinition, fmt: Printer, num: Reader, i: nat)
    requires Printable(fmt, num) && i < 5
    ensures ParseLine(WorldCursors(c, d, fmt, num)[i], WorldLines(d, fmt)[i], num) == Some(WorldCursors(c, d, fmt, num)[i + 1])
  {
    var cs := WorldCursors(c, d, fmt, num);
    if i == 0 {
      BlankLine(c, num);
    } else if i == 1 {
      assert WorldLines(d, fmt)[1] == "[" + "WORLD" + "]";
      HeaderLine(c, "WORLD", num);
    } else if i == 2 {
      assert WorldLines(d, fmt)[2] == "width" + "=" + fmt(d.world.width);
      assert ApplyKey("WORLD", "width", fmt(d.world.width), cs[2].def, num) == Some(cs[3].def);
      KeyLine(cs[2], "width", fmt(d.world.width), cs[3].def, num);
    } else if i == 3 {
      assert WorldLines(d, fmt)[3] == "height" + "=" + fmt(d.world.height);
      assert ApplyKey("WORLD", "height", fmt(d.world.height), cs[3].def, num) == Some(cs[4].def);
      KeyLine(cs[3], "height", fmt(d.world.height), cs[4].def, num);
    } else {
      assert WorldLines(d, fmt)[4] == "backgroundMusic" + "=" + d.world.backgroundMusic;
      assert ApplyKey("WORLD", "backgroundMusic", d.world.backgroundMusic, cs[4].def, num) == Some(cs[5].def);
      KeyLine(cs[4], "backgroundMusic", d.world.backgroundMusic, cs[5].def, num);
    }
  }

  /** The WORLD section reads back the world size and music. */
  lemma WorldLinesReadBack(c: Cursor, d: SceneDefinition, fmt: Printer, num: Reader)
    requires Printable(fmt, num)
    ensures ParseLines(c, WorldLines(d, fmt), num) ==
      Some(Cursor("WORLD", c.def.(world := c.def.world.(width := RereadReal(fmt, num, d.world.width),
                                                        height := RereadReal(fmt, num, d.world.height),
                                                        backgroundMusic := d.world.backgroundMusic))))
  {
    var ls := WorldLines(d, fmt);
    var cs := WorldCursors(c, d, fmt, num);
    forall i | 0 <= i < |ls|
      ensures ParseLine(cs[i], ls[i], num) == Some(cs[i + 1])
    {
      WorldStep(c, d, fmt, num, i);
    }
    ParseLinesChain(cs, ls, num);
  }

  /** The cursors the CAMERA section passes through. */
  function CameraCursors(c: Cursor, d: SceneDefinition, fmt: Printer, num: Reader): seq<Cursor>
  {
    var k0 := Cursor("CAMERA", c.def);
    var k1 := k0.(def := k0.def.(camera := k0.def.camera.(followSpeed := RereadReal(fmt, num, d.camera.followSpeed))));
    [c, c, k0, k1, k1.(def := k1.def.(camera := k1.def.camera.(followEnabled := d.camera.followEnabled)))]
  }

  lemma CameraStep(c: Cursor, d: SceneDefinition, fmt: Printer, num: Reader, i: nat)
    requires Printable(fmt, num) && i < 4
    ensures ParseLine(CameraCursors(c, d, fmt, num)[i], CameraLines(d, fmt)[i], num) == Some(CameraCursors(c, d, fmt, num)[i + 1])
  {
    var cs := CameraCursors(c, d, fmt, num);
    if i == 0 {
      BlankLine(c, num);
    } else if i == 1 {
      assert CameraLines(d, fmt)[1] == "[" + "CAMERA" + "]";
      HeaderLine(c, "CAMERA", num);
    } else if i == 2 {
      assert CameraLines(d, fmt)[2] == "followSpeed" + "=" + fmt(d.camera.followSpeed);
      assert ApplyKey("CAMERA", "followSpeed", fmt(d.camera.followSpeed), cs[2].def, num) == Some(cs[3].def);
      KeyLine(cs[2], "followSpeed", fmt(d.camera.followSpeed), cs[3].def, num);
    } else {
      var enabled := if d.camera.followEnabled then "true" else "false";
      assert CameraLines(d, fmt)[3] == "followEnabled" + "=" + enabled;
      assert ApplyKey("CAMERA", "followEnabled", enabled, cs[3].def, num) == Some(cs[4].def);
      KeyLine(cs[3], "followEnabled", enabled, cs[4].def, num);
    }
  }

  /** The CAMERA section reads back the follow speed and switch. */
  lemma CameraLinesReadBack(c: Cursor, d: SceneDefinition, fmt: Printer, num: Reader)
    requires Printable(fmt, num)
    ensures ParseLines(c, CameraLines(d, fmt), num) ==
      Some(Cursor("CAMERA", c.def.(camera := c.def.camera.(followSpeed := RereadReal(fmt, num, d.camera.followSpeed),
                                                           followEnabled := d.camera.followEnabled))))
  {
    var ls := CameraLines(d, fmt);
    var cs := CameraCursors(c, d, fmt, num);
    forall i | 0 <= i < |ls|
      ensures ParseLine(cs[i], ls[i], num) == Some(cs[i + 1])
    {
      CameraStep(c, d, fmt, num, i);
    }
    ParseLinesChain(cs, ls, num);
  }

  /** The cursors the PLAYER section passes through. */
  function PlayerCursors(c: Cursor, d: SceneDefinition, fmt: Printer, num: Reader): seq<Cursor>
  {
    var p0 := Cursor("PLAYER", c.def);
    var p1 := p0.(def := p0.def.(playerSpawn := p0.def.playerSpawn.(x := RereadReal(fmt, num, d.playerSpawn.x))));
    [c, c, p0, p1, p1.(def := p1.def.(playerSpawn := p1.def.playerSpawn.(y := RereadReal(fmt, num, d.playerSpawn.y))))]
  }

  lemma PlayerStep(c: Cursor, d: SceneDefinition, fmt: Printer, num: Reader, i: nat)
    requires Printable(fmt, num) && i < 4
    ensures ParseLine(PlayerCursors(c, d, fmt, num)[i], PlayerLines(d, fmt)[i], num) == Some(PlayerCursors(c, d, fmt, num)[i + 1])
  {
    var cs := PlayerCursors(c, d, fmt, num);
    if i == 0 {
      BlankLine(c, num);
    } else if i == 1 {
      assert PlayerLines(d, fmt)[1] == "[" + "PLAYER" + "]";
      HeaderLine(c, "PLAYER", num);
    } else if i == 2 {
      assert PlayerLines(d, fmt)[2] == "spawnX" + "=" + fmt(d.playerSpawn.x);
      assert ApplyKey("PLAYER", "spawnX", fmt(d.playerSpawn.x), cs[2].def, num) == Some(cs[3].def);
      KeyLine(cs[2], "spawnX", fmt(d.playerSpawn.x), cs[3].def, num);
    } else {
      assert PlayerLines(d, fmt)[3] == "spawnY" + "=" + fmt(d.playerSpawn.y);
      assert ApplyKey("PLAYER", "spawnY", fmt(d.playerSpawn.y), cs[3].def, num) == Some(cs[4].def);
      KeyLine(cs[3], "spawnY", fmt(d.playerSpawn.y), cs[4].def, num);
    }
  }

  /** The PLAYER section reads back the spawn point. */
  lemma PlayerLinesReadBack(c: Cursor, d: SceneDefinition, fmt: Printer, num: Reader)
    requires Printable(fmt, num)
    ensures ParseLines(c, PlayerLines(d, fmt), num) == Some(Cursor("PLAYER", c.def.(playerSpawn := ReloadedSpawn(d, fmt, num))))
  {
    var ls := PlayerLines(d, fmt);
    var cs := PlayerCursors(c, d, fmt, num);
    forall i | 0 <= i < |ls|
      ensures ParseLine(cs[i], ls[i], num) == Some(cs[i + 1])
    {
      PlayerStep(c, d, fmt, num, i);
    }
    ParseLinesChain(cs, ls, num);
  }

  /** Reading the settings lines from any cursor sets exactly the saved
      settings and ends in the PLAYER section. */
  lemma SettingsReadBack(c: Cursor, d: SceneDefinition, fmt: Printer, num: Reader)
    requires Printable(fmt, num)
    ensures ParseLines(c, SettingsLines(d, fmt), num) ==
      Some(Cursor("PLAYER", c.def.(
        name := d.name, description := d.description,
        nextScene := d.nextScene, transitionTrigger := d.transitionTrigger,
        world := c.def.world.(width := RereadReal(fmt, num, d.world.width),
                              height := RereadReal(fmt, num, d.world.height),
                              backgroundMusic := d.world.backgroundMusic),
        camera := c.def.camera.(followSpeed := RereadReal(fmt, num, d.camera.followSpeed),
                                followEnabled := d.camera.followEnabled),
        playerSpawn := ReloadedSpawn(d, fmt, num))))
  {
    var scene := SceneLines(d);
    var world := WorldLines(d, fmt);
    var camera := CameraLines(d, fmt);
    SceneLinesReadBack(c, d, num);
    var c1 := Cursor("SCENE", c.def.(name := d.name, description := d.description,
                                     nextScene := d.nextScene, transitionTrigger := d.transitionTrigger));
    ReadThen(c, scene, world, c1, num);
    WorldLinesReadBack(c1, d, fmt, num);
    var c2 := Cursor("WORLD", c1.def.(world := c1.def.world.(width := RereadReal(fmt, num, d.world.width),
                                                              height := RereadReal(fmt, num, d.world.height),
                                                              backgroundMusic := d.world.backgroundMusic)));
    ReadThen(c, scene + world, camera, c2, num);
    CameraLinesReadBack(c2, d, fmt, num);
    var c3 := Cursor("CAMERA", c2.def.(camera := c2.def.camera.(followSpeed := RereadReal(fmt, num, d.camera.followSpeed),
                                                                followEnabled := d.camera.followEnabled)));
    ReadThen(c, scene + world + camera, PlayerLines(d, fmt), c3, num);
    PlayerLinesReadBack(c3, d, fmt, num);
  }

  /** What has been read of a saved definition after its settings, its
      obstacles and its collectibles. */
  function AfterSettings(d: SceneDefinition, fmt: Printer, num: Reader): SceneDefinition
  {
    Reloaded(d, fmt, num).(obstacles := [], collectibles := [], enemies := [])
  }

  function AfterObstacles(d: SceneDefinition, fmt: Printer, num: Reader): SceneDefinition
  {
    AfterSettings(d, fmt, num).(obstacles := ReloadedObstacles(d.obstacles, fmt, num))
  }

  function AfterCollectibles(d: SceneDefinition, fmt: Printer, num: Reader): SceneDefinition
  {
    AfterObstacles(d, fmt, num).(collectibles := ReloadedCollectibles(d.collectibles, fmt, num))
  }

  /** The saved text up to the obstacles header. */
  lemma ReadToObstacles(d: SceneDefinition, fmt: Printer, num: Reader)
    requires Printable(fmt, num)
    ensures ParseLines(Cursor("", DefaultDefinition()), SettingsLines(d, fmt) + ["", "[OBSTACLES]"], num) ==
      Some(Cursor("OBSTACLES", AfterSettings(d, fmt, num)))
  {
    var c := Cursor("", DefaultDefinition());
    SettingsReadBack(c, d, fmt, num);
    ReadThen(c, SettingsLines(d, fmt), ["", "[OBSTACLES]"], Cursor("PLAYER", AfterSettings(d, fmt, num)), num);
    HeaderAfterBlank(Cursor("PLAYER", AfterSettings(d, fmt, num)), "[OBSTACLES]", "OBSTACLES", num);
  }

  /** The saved text up to the last obstacle. */
  lemma ReadObstacleList(d: SceneDefinition, fmt: Printer, num: Reader)
    requires Printable(fmt, num)
    ensures ParseLines(Cursor("", DefaultDefinition()),
                       SettingsLines(d, fmt) + ["", "[OBSTACLES]"] + ObstacleLines(d.obstacles, fmt), num) ==
      Some(Cursor("OBSTACLES", AfterObstacles(d, fmt, num)))
  {
    var c := Cursor("", DefaultDefinition());
    ReadToObstacles(d, fmt, num);
    ReadThen(c, SettingsLines(d, fmt) + ["", "[OBSTACLES]"], ObstacleLines(d.obstacles, fmt),
             Cursor("OBSTACLES", AfterSettings(d, fmt, num)), num);
    ObstacleLinesReadBack(Cursor("OBSTACLES", AfterSettings(d, fmt, num)), d.obstacles, fmt, num);
    assert [] + ReloadedObstacles(d.obstacles, fmt, num) == ReloadedObstacles(d.obstacles, fmt, num);
  }

  /** The saved text up to the collectibles header. */
  lemma ReadToCollectibles(d: SceneDefinition, fmt: Printer, num: Reader)
    requires Printable(fmt, num)
    ensures ParseLines(Cursor("", DefaultDefinition()),
                       SettingsLines(d, fmt) + ["", "[OBSTACLES]"] + ObstacleLines(d.obstacles, fmt)
                       + ["", "[COLLECTIBLES]"], num) ==
      Some(Cursor("COLLECTIBLES", AfterObstacles(d, fmt, num)))
  {
    ReadObstacleList(d, fmt, num);
    ReadThen(Cursor("", DefaultDefinition()), SettingsLines(d, fmt) + ["", "[OBSTACLES]"] + ObstacleLines(d.obstacles, fmt),
             ["", "[COLLECTIBLES]"], Cursor("OBSTACLES", AfterObstacles(d, fmt, num)), num);
    HeaderAfterBlank(Cursor("OBSTACLES", AfterObstacles(d, fmt, num)), "[COLLECTIBLES]", "COLLECTIBLES", num);
  }

  /** The saved text up to the last collectible. */
  lemma ReadCollectibleList(d: SceneDefinition, fmt: Printer, num: Reader)
    requires Printable(fmt, num)
    ensures ParseLines(Cursor("", DefaultDefinition()),
                       SettingsLines(d, fmt) + ["", "[OBSTACLES]"] + ObstacleLines(d.obstacles, fmt)
                       + ["", "[COLLECTIBLES]"] + CollectibleLines(d.collectibles, fmt), num) ==
      Some(Cursor("COLLECTIBLES", AfterCollectibles(d, fmt, num)))
  {
    var a := SettingsLines(d, fmt) + ["", "[OBSTACLES]"] + ObstacleLines(d.obstacles, fmt) + ["", "[COLLECTIBLES]"];
    ReadToCollectibles(d, fmt, num);
    ReadThen(Cursor("", DefaultDefinition()), a, CollectibleLines(d.collectibles, fmt),
             Cursor("COLLECTIBLES", AfterObstacles(d, fmt, num)), num);
    CollectibleLinesReadBack(Cursor("COLLECTIBLES", AfterObstacles(d, fmt, num)), d.collectibles, fmt, num);
    assert [] + ReloadedCollectibles(d.collectibles, fmt, num) == ReloadedCollectibles(d.collectibles, fmt, num);
  }

  /** The saved text up to the enemies header. */
  lemma ReadToEnemies(d: SceneDefinition, fmt: Printer, num: Reader)
    requires Printable(fmt, num)
    ensures ParseLines(Cursor("", DefaultDefinition()),
                       SettingsLines(d, fmt) + ["", "[OBSTACLES]"] + ObstacleLines(d.obstacles, fmt)
                       + ["", "[COLLECTIBLES]"] + CollectibleLines(d.collectibles, fmt) + ["", "[ENEMIES]"], num) ==
      Some(Cursor("ENEMIES", AfterCollectibles(d, fmt, num)))
  {
    ReadCollectibleList(d, fmt, num);
    ReadThen(Cursor("", DefaultDefinition()),
             SettingsLines(d, fmt) + ["", "[OBSTACLES]"] + ObstacleLines(d.obstacles, fmt)
             + ["", "[COLLECTIBLES]"] + CollectibleLines(d.collectibles, fmt),
             ["", "[ENEMIES]"], Cursor("COLLECTIBLES", AfterCollectibles(d, fmt, num)), num);
    HeaderAfterBlank(Cursor("COLLECTIBLES", AfterCollectibles(d, fmt, num)), "[ENEMIES]", "ENEMIES", num);
  }

  /** The whole saved text, read into a default definition, gives the
      persisted part of the definition with its numbers as stof reads
      them. */
  lemma SavedLinesReadBack(d: SceneDefinition, fmt: Printer, num: Reader)
    requires Printable(fmt, num)
    ensures ParseLines(Cursor("", DefaultDefinition()), SavedLines(d, fmt), num) == Some(Cursor("ENEMIES", Reloaded(d, fmt, num)))
  {
    var c := Cursor("", DefaultDefinition());
    var a := SettingsLines(d, fmt) + ["", "[OBSTACLES]"] + ObstacleLines(d.obstacles, fmt)
             + ["", "[COLLECTIBLES]"] + CollectibleLines(d.collectibles, fmt) + ["", "[ENEMIES]"];
    ReadToEnemies(d, fmt, num);
    ReadThen(c, a, EnemyLines(d.enemies, fmt), Cursor("ENEMIES", AfterCollectibles(d, fmt, num)), num);
    EnemyLinesReadBack(Cursor("ENEMIES", AfterCollectibles(d, fmt, num)), d.enemies, fmt, num);
    assert [] + ReloadedEnemies(d.enemies, fmt, num) == ReloadedEnemies(d.enemies, fmt, num);
  }

  /** Saving a definition and reading the file back into a default
      definition gives its persisted part, each number as stof reads it
      from the printed text: the name, description, successor and trigger
      (when they fit on a line), the music and the follow switch come back
      unchanged, and there is one record per saved obstacle, collectible
      and enemy. Where stof reads back exactly the numbers printed, the
      persisted part itself comes back. */
  lemma SaveThenLoad(d: SceneDefinition, filePath: string, disk: Disk, fmt: Printer, num: Reader, now: int)
    requires Printable(fmt, num) && TextFieldsOneLine(d)
    ensures var written := SaveDefinitionToFile(d, filePath, disk, fmt, true, now).1;
      ReadDefinitionFile(filePath, written, num, DefaultDefinition()) == Read(Reloaded(d, fmt, num))
    ensures var r := Reloaded(d, fmt, num);
      && r.name == d.name && r.description == d.description
      && r.nextScene == d.nextScene && r.transitionTrigger == d.transitionTrigger
      && r.world.backgroundMusic == d.world.backgroundMusic && r.camera.followEnabled == d.camera.followEnabled
      && |r.obstacles| == |d.obstacles| && |r.collectibles| == |d.collectibles| && |r.enemies| == |d.enemies|
    ensures AgreeOn(fmt, num, d) && (forall i :: 0 <= i < |d.enemies| ==> WellFormedPattern(d.enemies[i].pattern)) ==>
      Reloaded(d, fmt, num) == Persisted(d)
  {
    var lines := SavedLines(d, fmt);
    OneLineSaved(d, fmt, num);
    LinesOfUnlines(lines);
    SavedLinesReadBack(d, fmt, num);
    if AgreeOn(fmt, num, d) && (forall i :: 0 <= i < |d.enemies| ==> WellFormedPattern(d.enemies[i].pattern)) {
      ReloadedIsPersisted(d, fmt, num);
    }
  }

  /** Every line of the settings part fits on one line when the text
      fields do. */
  lemma SettingsOneLine(d: SceneDefinition, fmt: Printer, num: Reader)
    requires Printable(fmt, num) && TextFieldsOneLine(d)
    ensures AllOneLine(SettingsLines(d, fmt))
  {
    assert Token(fmt(d.world.width)) && Token(fmt(d.world.height)) && Token(fmt(d.camera.followSpeed));
    assert Token(fmt(d.playerSpawn.x)) && Token(fmt(d.playerSpawn.y));
    assert AllOneLine(SceneLines(d));
    assert AllOneLine(WorldLines(d, fmt));
    assert AllOneLine(CameraLines(d, fmt));
    assert AllOneLine(PlayerLines(d, fmt));
    AllOneLineAppend(SceneLines(d), WorldLines(d, fmt));
    AllOneLineAppend(SceneLines(d) + WorldLines(d, fmt), CameraLines(d, fmt));
    AllOneLineAppend(SceneLines(d) + WorldLines(d, fmt) + CameraLines(d, fmt), PlayerLines(d, fmt));
  }

  /** Every saved line fits on one line when the text fields do. */
  lemma OneLineSaved(d: SceneDefinition, fmt: Printer, num: Reader)
    requires Printable(fmt, num) && TextFieldsOneLine(d)
    ensures AllOneLine(SavedLines(d, fmt))
  {
    var obstacleLines := ObstacleLines(d.obstacles, fmt);
    var collectibleLines := CollectibleLines(d.collectibles, fmt);
    var enemyLines := EnemyLines(d.enemies, fmt);
    RecordLinesOneLine(d, fmt, num);
    SettingsOneLine(d, fmt, num);
    var a := SettingsLines(d, fmt);
    AllOneLineAppend(a, ["", "[OBSTACLES]"]);
    a := a + ["", "[OBSTACLES]"];
    AllOneLineAppend(a, obstacleLines);
    a := a + obstacleLines;
    AllOneLineAppend(a, ["", "[COLLECTIBLES]"]);
    a := a + ["", "[COLLECTIBLES]"];
    AllOneLineAppend(a, collectibleLines);
    a := a + collectibleLines;
    AllOneLineAppend(a, ["", "[ENEMIES]"]);
    a := a + ["", "[ENEMIES]"];
    AllOneLineAppend(a, enemyLines);
    assert a + enemyLines == SavedLines(d, fmt);
  }

  predicate AllOneLine(lines: seq<string>)
  {
    forall i :: 0 <= i < |lines| ==> OneLine(lines[i])
  }

  lemma AllOneLineAppend(a: seq<string>, b: seq<string>)
    requires AllOneLine(a) && AllOneLine(b)
    ensures AllOneLine(a + b)
  {
    assert forall i :: |a| <= i < |a| + |b| ==> (a + b)[i] == b[i - |a|];
  }

  lemma RecordLinesOneLine(d: SceneDefinition, fmt: Printer, num: Reader)
    requires Printable(fmt, num)
    ensures AllOneLine(ObstacleLines(d.obstacles, fmt))
    ensures AllOneLine(CollectibleLines(d.collectibles, fmt))
    ensures AllOneLine(EnemyLines(d.enemies, fmt))
  {
    forall i | 0 <= i < |d.obstacles|
      ensures OneLine(ObstacleLines(d.obstacles, fmt)[i])
    {
      ObstacleLineAt(d.obstacles, fmt, i);
      var o := d.obstacles[i];
      assert Token(fmt(o.x)) && Token(fmt(o.y)) && Token(fmt(o.width)) && Token(fmt(o.height));
      JoinOneLine([fmt(o.x), fmt(o.y), fmt(o.width), fmt(o.height)]);
    }
    forall i | 0 <= i < |d.collectibles|
      ensures OneLine(CollectibleLines(d.collectibles, fmt)[i])
    {
      CollectibleLineAt(d.collectibles, fmt, i);
      var k := d.collectibles[i];
      assert Token(fmt(k.x)) && Token(fmt(k.y));
      JoinOneLine([fmt(k.x), fmt(k.y)]);
    }
    forall i | 0 <= i < |d.enemies|
      ensures OneLine(EnemyLines(d.enemies, fmt)[i])
    {
      EnemyLineAt(d.enemies, fmt, i);
      var e := d.enemies[i];
      IntTextIsToken(PatternCode(e.pattern));
      assert Token(fmt(e.x)) && Token(fmt(e.y)) && Token(fmt(e.speed));
      JoinOneLine([fmt(e.x), fmt(e.y), IntText(PatternCode(e.pattern)), fmt(e.speed)]);
    }
  }

  lemma {:induction false} JoinOneLine(tokens: seq<string>)
    requires |tokens| >= 1 && forall i :: 0 <= i < |tokens| ==> Token(tokens[i])
    ensures OneLine(JoinCommas(tokens))
  {
    if |tokens| > 1 {
      JoinOneLine(tokens[1..]);
    }
  }

  lemma {:induction false} ObstacleLineAt(obstacles: seq<ObstacleData>, fmt: Printer, i: nat)
    requires i < |obstacles|
    ensures ObstacleLines(obstacles, fmt)[i] == ObstacleLine(obstacles[i], fmt)
  {
    if i > 0 {
      ObstacleLineAt(obstacles[1..], fmt, i - 1);
    }
  }

  lemma {:induction false} CollectibleLineAt(collectibles: seq<CollectibleData>, fmt: Printer, i: nat)
    requires i < |collectibles|
    ensures CollectibleLines(collectibles, fmt)[i] == CollectibleLine(collectibles[i], fmt)
  {
    if i > 0 {
      CollectibleLineAt(collectibles[1..], fmt, i - 1);
    }
  }

  lemma {:induction false} EnemyLineAt(enemies: seq<EnemyData>, fmt: Printer, i: nat)
    requires i < |enemies|
    ensures EnemyLines(enemies, fmt)[i] == EnemyLine(enemies[i], fmt)
  {
    if i > 0 {
      EnemyLineAt(enemies[1..], fmt, i - 1);
    }
  }

  /** The persisted part of a definition is all of it once it has been
      through a file: saving and loading again changes nothing more. */
  lemma PersistedIsStable(d: SceneDefinition)
    ensures Persisted(Persisted(d)) == Persisted(d)
  {
  }
}
