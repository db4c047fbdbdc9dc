/** The batch client: it keeps the image files of a directory listing,
    posts each to the detection endpoint, and writes one report row per
    file. The directory listing, the HTTP exchange and the elapsed time are
    inputs; the report file is the sequence of rows written to it. */
module BatchTest {
  import opened Outcomes
  import opened Text
  import opened Json

  const ValidExts: set<string> := {".jpg", ".jpeg", ".png", ".bmp"}

  const HeaderCells: seq<string> := ["文件名", "检测结果", "置信度", "耗时(s)", "状态"]

  /** `str.rfind`: the last index holding `c`, or -1. */
  function LastIndex(s: string, c: char): (r: int)
    ensures -1 <= r < |s|
    ensures r >= 0 ==> s[r] == c
    ensures forall k :: r < k < |s| ==> s[k] != c
  {
    if s == [] then -1
    else if s[|s| - 1] == c then |s| - 1
    else LastIndex(s[..|s| - 1], c)
  }

  /** Some character strictly between `lo` and `hi` is not a dot. */
  predicate NonDotBetween(p: string, lo: int, hi: int)
    requires -1 <= lo && hi <= |p|
  {
    exists k :: lo < k < hi && p[k] != '.'
  }

  /** `os.path.splitext(p)` on POSIX: the extension runs from the last dot
      to the end, provided that dot comes after the last '/' and the file
      name before it is not only dots; otherwise it is empty. */
  function SplitExt(p: string): (r: (string, string))
  {
    var sepIndex := LastIndex(p, '/');
    var dotIndex := LastIndex(p, '.');
    if dotIndex > sepIndex && NonDotBetween(p, sepIndex, dotIndex) then (p[..dotIndex], p[dotIndex..])
    else (p, "")
  }

  function Extension(p: string): string
  {
    SplitExt(p).1
  }

  /** Root and extension put back together give the path. */
  lemma SplitExtRejoins(p: string)
    ensures SplitExt(p).0 + SplitExt(p).1 == p
  {
    var dotIndex := LastIndex(p, '.');
    if SplitExt(p).1 != "" {
      assert p[..dotIndex] + p[dotIndex..] == p;
    }
  }

  /** A non-empty extension starts with its only dot, holds no '/', and
      follows a non-dot character of the last path component. */
  lemma ExtensionShape(p: string)
    ensures var ext := Extension(p);
            ext == "" || (ext[0] == '.' && '.' !in ext[1..] && '/' !in ext)
    ensures var (root, ext) := SplitExt(p);
            ext != "" ==> exists k :: 0 <= k < |root| && root[k] != '.' && '/' !in root[k..]
  {
    var sepIndex := LastIndex(p, '/');
    var dotIndex := LastIndex(p, '.');
    var (root, ext) := SplitExt(p);
    if ext != "" {
      assert ext == p[dotIndex..] && root == p[..dotIndex];
      assert forall j :: 0 <= j < |ext| ==> ext[j] == p[dotIndex + j];
      assert '.' !in ext[1..] by {
        assert forall j :: 0 <= j < |ext[1..]| ==> ext[1..][j] == p[dotIndex + 1 + j];
      }
      var k :| sepIndex < k < dotIndex && p[k] != '.';
      assert root[k] != '.';
      assert '/' !in root[k..] by {
        assert forall j :: 0 <= j < |root[k..]| ==> root[k..][j] == p[k + j];
      }
    }
  }

  /** `LastIndex` finds the dot before a dot-free tail. */
  lemma {:induction false} LastIndexBeforeTail(a: string, c: char, b: string)
    requires c !in b
    ensures LastIndex(a + [c] + b, c) == |a|
  {
    if b != [] {
      var s := a + [c] + b;
      assert s[..|s| - 1] == a + [c] + b[..|b| - 1];
      LastIndexBeforeTail(a, c, b[..|b| - 1]);
    } else {
      assert (a + [c] + b)[|a|] == c;
    }
  }

  /** `LastIndex` of a character that does not occur. */
  lemma {:induction false} LastIndexAbsent(s: string, c: char)
    requires c !in s
    ensures LastIndex(s, c) == -1
  {
    if s != [] {
      LastIndexAbsent(s[..|s| - 1], c);
    }
  }

  /** `os.path.splitext(f)[1].lower() in VALID_EXTS`. */
  predicate Kept(name: string)
  {
    Lower(Extension(name)) in ValidExts
  }

  /** The list comprehension over `os.listdir(IMAGE_DIR)`. */
  function KeptFiles(listing: seq<string>): (files: seq<string>)
    ensures |files| <= |listing|
    ensures forall i :: 0 <= i < |files| ==> Kept(files[i]) && files[i] in listing
  {
    if listing == [] then []
    else (if Kept(listing[0]) then [listing[0]] else []) + KeptFiles(listing[1..])
  }

  /** A name is kept iff it is listed and has an image extension. */
  lemma {:induction false} KeptFilesMembership(listing: seq<string>, name: string)
    ensures name in KeptFiles(listing) <==> name in listing && Kept(name)
  {
    if listing != [] {
      KeptFilesMembership(listing[1..], name);
      assert listing == [listing[0]] + listing[1..];
    }
  }

  /** Filtering keeps listing order: it distributes over concatenation. */
  lemma {:induction false} KeptFilesAppend(a: seq<string>, b: seq<string>)
    ensures KeptFiles(a + b) == KeptFiles(a) + KeptFiles(b)
  {
    if a != [] {
      assert (a + b)[0] == a[0] && (a + b)[1..] == a[1..] + b;
      KeptFilesAppend(a[1..], b);
      var head := if Kept(a[0]) then [a[0]] else [];
      assert KeptFiles(a + b) == head + (KeptFiles(a[1..]) + KeptFiles(b));
      assert head + (KeptFiles(a[1..]) + KeptFiles(b)) == (head + KeptFiles(a[1..])) + KeptFiles(b);
    } else {
      assert a + b == b;
    }
  }

  /** Upper-case extensions count. */
  lemma UpperCaseExtensionKept()
    ensures Kept("scan.JPG")
  {
    assert "scan.JPG" == "scan" + ['.'] + "JPG";
    LastIndexBeforeTail("scan", '.', "JPG");
    LastIndexAbsent("scan.JPG", '/');
    assert "scan.JPG"[0] != '.';
    assert Extension("scan.JPG") == ".JPG";
    assert Lower(".JPG") == ".jpg";
  }

  /** A name made only of dots before its last dot has no extension, but
      one other character before the dots is enough. */
  lemma LeadingDotsRule()
    ensures !Kept("..png") && Kept("a..png")
  {
    assert "..png" == "." + ['.'] + "png";
    LastIndexBeforeTail(".", '.', "png");
    LastIndexAbsent("..png", '/');
    assert !NonDotBetween("..png", -1, 1) by {
      assert forall k :: -1 < k < 1 ==> "..png"[k] == '.';
    }
    assert Extension("..png") == "";
    assert Lower("") == "";
    assert "a..png" == "a." + ['.'] + "png";
    LastIndexBeforeTail("a.", '.', "png");
    LastIndexAbsent("a..png", '/');
    assert "a..png"[0] != '.';
    assert Extension("a..png") == ".png";
    assert Lower(".png") == ".png";
  }

  /** Only the last extension counts: an image extension followed by
      another one does not. */
  lemma EarlierExtensionIgnored()
    ensures !Kept("photo.png.txt")
  {
    assert "photo.png.txt" == "photo.png" + ['.'] + "txt";
    LastIndexBeforeTail("photo.png", '.', "txt");
    LastIndexAbsent("photo.png.txt", '/');
    assert "photo.png.txt"[0] != '.';
    assert Extension("photo.png.txt") == ".txt";
    assert Lower(".txt") == ".txt";
  }

  /** A dot-file such as ".png" has no extension at all. */
  lemma DotFileNotKept()
    ensures !Kept(".png")
  {
    assert ".png" == "" + ['.'] + "png";
    LastIndexBeforeTail("", '.', "png");
    LastIndexAbsent(".png", '/');
    assert Extension(".png") == "";
    assert Lower("") == "";
  }

  /** What happened to one file: opening or posting raised, or the server
      answered with a status, after `elapsed` seconds (already rounded to
      milliseconds), with a body that `response.json()` parses or not. */
  datatype Attempt = ClientRaised | Http(status: int, elapsed: real, body: Result<Json>)

  /** The duration cell: the measured seconds, or the integer 0 written
      after an exception. */
  datatype Duration = Seconds(value: real) | ZeroInt

  datatype Row = Row(filename: string, result: Json, conf: Json, duration: Duration, status: string)

  /** Python `obj[key]` with a string key on a parsed JSON value. */
  function PyItem(v: Json, key: string): (r: Result<Json>)
    ensures r.Ok? <==> v.Obj? && key in v.fields
  {
    if v.Obj? && key in v.fields then Ok(v.fields[key]) else Raised(if v.Obj? then "KeyError" else "TypeError")
  }

  function ExceptionRow(filename: string): Row
  {
    Row(filename, Str("Exception"), Num(0.0, "0"), ZeroInt, "ClientError")
  }

  /** The `try` block for one file: the row it writes and whether
      `success_count` was incremented. */
  function Classify(filename: string, a: Attempt): (r: (Row, bool))
    ensures r.0.filename == filename
  {
    match a
    case ClientRaised => (ExceptionRow(filename), false)
    case Http(status, elapsed, body) =>
      if status != 200 then
        (Row(filename, Str("Error"), Num(0.0, "0.0"), Seconds(elapsed), "Fail(" + IntToString(status) + ")"), false)
      else if body.Raised? || !body.value.Obj? then
        (ExceptionRow(filename), false)
      else
        var data := body.value.fields;
        var detections := if "detections" in data then data["detections"] else Arr([]);
        if !PyTruthy(detections) then
          (Row(filename, Str("未检测到"), Num(0.0, "0.0"), Seconds(elapsed), "MISS"), true)
        else if !detections.Arr? then
          (ExceptionRow(filename), false)
        else
          var top := detections.items[0];
          var cls := PyItem(top, "class");
          var conf := PyItem(top, "confidence");
          if cls.Raised? || conf.Raised? then (ExceptionRow(filename), false)
          else (Row(filename, cls.value, conf.value, Seconds(elapsed), "OK"), true)
  }

  /** The four outcomes of the `try` block: an exception, a non-200
      answer, a 200 answer without detections, and a 200 answer whose
      first detection is reported (or whose malformed first detection
      raises). */
  lemma ClassifyCases(filename: string, a: Attempt)
    ensures a.ClientRaised? ==> Classify(filename, a) == (ExceptionRow(filename), false)
    ensures a.Http? && a.status != 200 ==>
              Classify(filename, a) == (Row(filename, Str("Error"), Num(0.0, "0.0"), Seconds(a.elapsed), "Fail(" + IntToString(a.status) + ")"), false)
    ensures a.Http? && a.status == 200 && (a.body.Raised? || !a.body.value.Obj?) ==>
              Classify(filename, a) == (ExceptionRow(filename), false)
    ensures a.Http? && a.status == 200 && a.body.Ok? && a.body.value.Obj?
            && ("detections" !in a.body.value.fields || !PyTruthy(a.body.value.fields["detections"])) ==>
              Classify(filename, a) == (Row(filename, Str("未检测到"), Num(0.0, "0.0"), Seconds(a.elapsed), "MISS"), true)
    ensures a.Http? && a.status == 200 && a.body.Ok? && a.body.value.Obj?
            && "detections" in a.body.value.fields && PyTruthy(a.body.value.fields["detections"])
            && !a.body.value.fields["detections"].Arr? ==>
              Classify(filename, a) == (ExceptionRow(filename), false)
    ensures a.Http? && a.status == 200 && a.body.Ok? && a.body.value.Obj?
            && "detections" in a.body.value.fields
            && a.body.value.fields["detections"].Arr? && a.body.value.fields["detections"].items != [] ==>
              var top := a.body.value.fields["detections"].items[0];
              if top.Obj? && "class" in top.fields && "confidence" in top.fields then
                Classify(filename, a) == (Row(filename, top.fields["class"], top.fields["confidence"], Seconds(a.elapsed), "OK"), true)
              else
                Classify(filename, a) == (ExceptionRow(filename), false)
  {
  }

  predicate Succeeded(row: Row)
  {
    row.status == "OK" || row.status == "MISS"
  }

  /** A file counts as a success exactly when its row says OK or MISS, and
      only a 200 answer can be one; every failure row is an exception row
      or a "Fail(<code>)" row for a non-200 answer. */
  lemma ClassifySuccess(filename: string, a: Attempt)
    ensures Classify(filename, a).1 <==> Succeeded(Classify(filename, a).0)
    ensures Classify(filename, a).1 ==> a.Http? && a.status == 200
    ensures !Classify(filename, a).1 ==>
              Classify(filename, a).0 == ExceptionRow(filename)
              || (a.Http? && a.status != 200 && Classify(filename, a).0.status[..5] == "Fail(")
  {
    var r := Classify(filename, a);
    if a.Http? && a.status != 200 {
      var s := "Fail(" + IntToString(a.status) + ")";
      assert r.0.status == s && s[..5] == "Fail(";
      assert s[0] == 'F';
      assert !Succeeded(r.0);
    }
  }

  /** The rows for the kept files, the i-th file posted as attempt `i`. */
  function ReportRows(files: seq<string>, attempt: (nat, string) -> Attempt): seq<Row>
  {
    if files == [] then []
    else
      var n := |files| - 1;
      ReportRows(files[..n], attempt) + [Classify(files[n], attempt(n, files[n])).0]
  }

  function Successes(files: seq<string>, attempt: (nat, string) -> Attempt): nat
  {
    if files == [] then 0
    else
      var n := |files| - 1;
      Successes(files[..n], attempt) + (if Classify(files[n], attempt(n, files[n])).1 then 1 else 0)
  }

  /** Rows reporting OK or MISS. */
  function SucceededRows(rows: seq<Row>): nat
  {
    if rows == [] then 0
    else SucceededRows(rows[..|rows| - 1]) + (if Succeeded(rows[|rows| - 1]) then 1 else 0)
  }

  /** One row per kept file, in order, each for its own file. */
  lemma {:induction false} ReportRowsShape(files: seq<string>, attempt: (nat, string) -> Attempt)
    ensures |ReportRows(files, attempt)| == |files|
    ensures forall i :: 0 <= i < |files| ==>
              ReportRows(files, attempt)[i] == Classify(files[i], attempt(i, files[i])).0
  {
    if files != [] {
      var n := |files| - 1;
      ReportRowsShape(files[..n], attempt);
      var front := ReportRows(files[..n], attempt);
      var rows := ReportRows(files, attempt);
      assert rows == front + [Classify(files[n], attempt(n, files[n])).0];
      forall i | 0 <= i < n
        ensures rows[i] == Classify(files[i], attempt(i, files[i])).0
      {
        assert files[..n][i] == files[i];
        assert rows[i] == front[i];
      }
    }
  }

  /** The printed success count is the number of OK/MISS rows in the
      report, hence at most the number of files. */
  lemma {:induction false} SuccessesAreSucceededRows(files: seq<string>, attempt: (nat, string) -> Attempt)
    ensures Successes(files, attempt) == SucceededRows(ReportRows(files, attempt))
    ensures Successes(files, attempt) <= |files|
  {
    if files != [] {
      var n := |files| - 1;
      SuccessesAreSucceededRows(files[..n], attempt);
      var rows := ReportRows(files, attempt);
      assert rows[..|rows| - 1] == ReportRows(files[..n], attempt);
      ClassifySuccess(files[n], attempt(n, files[n]));
    }
  }

  /** The report and the count after one more file. */
  lemma {:induction false} ReportStep(files: seq<string>, i: nat, attempt: (nat, string) -> Attempt)
    requires i < |files|
    ensures var c := Classify(files[i], attempt(i, files[i]));
            ReportRows(files[..i + 1], attempt) == ReportRows(files[..i], attempt) + [c.0]
            && Successes(files[..i + 1], attempt) == Successes(files[..i], attempt) + (if c.1 then 1 else 0)
  {
    assert files[..i + 1][..i] == files[..i];
  }

  /** The `for` loop of `batch_process`: one row appended per file, and
      `success_count` incremented for each success. */
  method ProcessFiles(files: seq<string>, attempt: (nat, string) -> Attempt)
    returns (rows: seq<Row>, successCount: nat)
    ensures rows == ReportRows(files, attempt)
    ensures successCount == Successes(files, attempt)
  {
    successCount := 0;
    rows := [];
    var index := 0;
    while index < |files|
      invariant 0 <= index <= |files|
      invariant rows == ReportRows(files[..index], attempt)
      invariant successCount == Successes(files[..index], attempt)
    {
      var filename := files[index];
      ReportStep(files, index, attempt);
      var outcome := Classify(filename, attempt(index, filename));
      if outcome.1 {
        successCount := successCount + 1;
      }
      rows := rows + [outcome.0];
      index := index + 1;
    }
    assert files[..index] == files;
  }

  /** `batch_process`: the header written first, then the rows for the
      kept files; `success_count` and `total` as printed at the end. */
  method BatchProcess(listing: seq<string>, attempt: (nat, string) -> Attempt)
    returns (header: seq<string>, rows: seq<Row>, successCount: nat, total: nat)
    ensures header == HeaderCells
    ensures rows == ReportRows(KeptFiles(listing), attempt)
    ensures total == |KeptFiles(listing)|
    ensures successCount == Successes(KeptFiles(listing), attempt) <= total
  {
    header := HeaderCells;
    var files := KeptFiles(listing);
    total := |files|;
    rows, successCount := ProcessFiles(files, attempt);
    SuccessesAreSucceededRows(files, attempt);
  }
}
