/**
 * The session log of src/data_logger.py: a CSV file that starts with a fixed
 * header row and gains one row per logged frame. The file is modelled as its
 * sequence of rows (CSV quoting is not modelled), the clock as the
 * `timestamp` text, and Python's float-to-text conversion as the parameter
 * `decimal`.
 */
module DataLogger {

  import opened Landmarks

  const HEADER: seq<string> := ["timestamp", "pose", "wrist_speed", "landmarks"]

  /** A CSV file on disk, as its rows of fields. */
  class CsvFile {
    var rows: seq<seq<string>>

    constructor(rows: seq<seq<string>>)
      ensures this.rows == rows
    {
      this.rows := rows;
    }
  }

  /** `separator.join(pieces)`. */
  function Join(pieces: seq<string>, separator: char): (s: string)
    ensures |pieces| == 0 ==> s == ""
    ensures |pieces| > 0 ==> pieces[0] <= s
    ensures |pieces| > 0 ==> |pieces[|pieces| - 1]| <= |s| && s[|s| - |pieces[|pieces| - 1]|..] == pieces[|pieces| - 1]
  {
    if |pieces| == 0 then ""
    else if |pieces| == 1 then pieces[0]
    else pieces[0] + [separator] + Join(pieces[1..], separator)
  }

  /** `s.split(separator)`: the inverse of `Join` when no piece holds the separator. */
  function Split(s: string, separator: char): (pieces: seq<string>)
    ensures |pieces| >= 1
  {
    if s == [] then [""]
    else
      var rest := Split(s[1..], separator);
      if s[0] == separator then [""] + rest
      else [[s[0]] + rest[0]] + rest[1..]
  }

  lemma {:induction false} SplitWithoutSeparator(s: string, separator: char)
    requires separator !in s
    ensures Split(s, separator) == [s]
  {
    if s != [] {
      SplitWithoutSeparator(s[1..], separator);
      assert [s[0]] + s[1..] == s;
    }
  }

  lemma {:induction false} SplitAtFirstSeparator(a: string, separator: char, b: string)
    requires separator !in a
    ensures Split(a + [separator] + b, separator) == [a] + Split(b, separator)
  {
    if a == [] {
      assert a + [separator] + b == [separator] + b;
      assert ([separator] + b)[1..] == b;
    } else {
      assert (a + [separator] + b)[1..] == a[1..] + [separator] + b;
      SplitAtFirstSeparator(a[1..], separator, b);
      assert [a[0]] + a[1..] == a;
    }
  }

  /** Splitting a join gives back its pieces. */
  lemma {:induction false} SplitJoin(pieces: seq<string>, separator: char)
    requires |pieces| >= 1
    requires forall i :: 0 <= i < |pieces| ==> separator !in pieces[i]
    ensures Split(Join(pieces, separator), separator) == pieces
  {
    if |pieces| == 1 {
      SplitWithoutSeparator(pieces[0], separator);
    } else {
      SplitJoin(pieces[1..], separator);
      SplitAtFirstSeparator(pieces[0], separator, Join(pieces[1..], separator));
      assert [pieces[0]] + pieces[1..] == pieces;
    }
  }

  /** A join of n pieces that hold no separator holds n - 1 separators. */
  lemma {:induction false} JoinSeparatorCount(pieces: seq<string>, separator: char)
    requires |pieces| >= 1
    requires forall i :: 0 <= i < |pieces| ==> separator !in pieces[i]
    ensures multiset(Join(pieces, separator))[separator] == |pieces| - 1
  {
    if |pieces| > 1 {
      JoinSeparatorCount(pieces[1..], separator);
      var rest := Join(pieces[1..], separator);
      assert multiset(pieces[0] + [separator] + rest) == multiset(pieces[0]) + multiset{separator} + multiset(rest);
    }
  }

  /** One landmark's piece of the landmarks field: `f"{lm.x},{lm.y}"`. */
  function LandmarkText(lm: Landmark, decimal: real -> string): (text: string)
    ensures |text| == |decimal(lm.x)| + 1 + |decimal(lm.y)|
    ensures text[..|decimal(lm.x)|] == decimal(lm.x)
    ensures text[|decimal(lm.x)|] == ','
    ensures text[|decimal(lm.x)| + 1..] == decimal(lm.y)
  {
    decimal(lm.x) + "," + decimal(lm.y)
  }

  /** The pieces of the landmarks field, one per landmark, in input order. */
  function LandmarkTexts(landmarks: seq<Landmark>, decimal: real -> string): (texts: seq<string>)
    ensures |texts| == |landmarks|
  {
    seq(|landmarks|, i requires 0 <= i < |landmarks| => LandmarkText(landmarks[i], decimal))
  }

  /** The landmarks field: the pieces joined by ';'. */
  function LandmarksField(landmarks: seq<Landmark>, decimal: real -> string): (field: string)
    ensures landmarks == [] ==> field == ""
    ensures landmarks != [] ==> LandmarkText(landmarks[0], decimal) <= field
    ensures |landmarks| == 1 ==> field == LandmarkText(landmarks[0], decimal)
  {
    Join(LandmarkTexts(landmarks, decimal), ';')
  }

  /** The four fields of one logged row. */
  function LogRow(timestamp: string, pose: string, speed: real, landmarks: seq<Landmark>, decimal: real -> string): (row: seq<string>)
    ensures |row| == |HEADER|
    ensures row[0] == timestamp && row[3] == LandmarksField(landmarks, decimal)
  {
    [timestamp, pose, decimal(speed), LandmarksField(landmarks, decimal)]
  }

  /**
   * With numbers printed without ';' or ',', the landmarks field of n
   * landmarks splits back into the n pieces `x,y` in input order, with
   * n - 1 separators between them, and each piece into its two numbers; no
   * landmarks give the empty field.
   */
  lemma LandmarksFieldSegments(landmarks: seq<Landmark>, decimal: real -> string)
    requires forall r: real :: ';' !in decimal(r) && ',' !in decimal(r)
    ensures landmarks == [] ==> LandmarksField(landmarks, decimal) == ""
    ensures landmarks != [] ==>
      && Split(LandmarksField(landmarks, decimal), ';') == LandmarkTexts(landmarks, decimal)
      && multiset(LandmarksField(landmarks, decimal))[';'] == |landmarks| - 1
    ensures forall i :: 0 <= i < |landmarks| ==>
      Split(LandmarkTexts(landmarks, decimal)[i], ',') == [decimal(landmarks[i].x), decimal(landmarks[i].y)]
  {
    var texts := LandmarkTexts(landmarks, decimal);
    forall i | 0 <= i < |texts|
      ensures ';' !in texts[i]
      ensures Split(texts[i], ',') == [decimal(landmarks[i].x), decimal(landmarks[i].y)]
    {
      var x, y := decimal(landmarks[i].x), decimal(landmarks[i].y);
      assert texts[i] == x + [','] + y;
      SplitAtFirstSeparator(x, ',', y);
      SplitWithoutSeparator(y, ',');
    }
    if landmarks != [] {
      SplitJoin(texts, ';');
      JoinSeparatorCount(texts, ';');
    }
  }

  /** Each logged row has the four header columns, with the pose second and the speed third. */
  lemma LogRowMatchesHeader(timestamp: string, pose: string, speed: real, landmarks: seq<Landmark>, decimal: real -> string)
    ensures |LogRow(timestamp, pose, speed, landmarks, decimal)| == |HEADER|
    ensures HEADER[1] == "pose" && LogRow(timestamp, pose, speed, landmarks, decimal)[1] == pose
    ensures HEADER[2] == "wrist_speed" && LogRow(timestamp, pose, speed, landmarks, decimal)[2] == decimal(speed)
  {
  }

  class DataLogger {
    const filename: string
    /** The file at `filename`. */
    const file: CsvFile

    /** Opening a logger truncates its file to the header row. */
    constructor(filename: string, file: CsvFile)
      modifies file
      ensures this.filename == filename && this.file == file
      ensures file.rows == [HEADER]
    {
      this.filename := filename;
      this.file := file;
      new;
      InitializeFile();
    }

    /** `_initialize_file`: whatever the file held is replaced by the header row. */
    method InitializeFile()
      modifies file
      ensures file.rows == [HEADER]
    {
      file.rows := [HEADER];
    }

    /** `log_data`: appends one row and leaves the earlier rows as they were. */
    method LogData(timestamp: string, pose: string, speed: real, landmarks: seq<Landmark>, decimal: real -> string)
      modifies file
      ensures file.rows == old(file.rows) + [LogRow(timestamp, pose, speed, landmarks, decimal)]
      ensures |file.rows| == |old(file.rows)| + 1 && file.rows[..|old(file.rows)|] == old(file.rows)
    {
      var landmarksText := LandmarksField(landmarks, decimal);
      file.rows := file.rows + [[timestamp, pose, decimal(speed), landmarksText]];
    }
  }

}
