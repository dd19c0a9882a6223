// scripts/merge-mac-update-manifests.ts:26-183 and 234-265: reading and printing macOS update manifests.
module Manifest {
  import opened Prelude
  import opened Text
  import opened Numbers
  import opened Ordering

  datatype File = File(url: string, sha512: string, size: nat)

  datatype Scalar = Str(text: string) | Num(number: Number) | Flag(on: bool)

  type Extras = map<string, Scalar>

  datatype Manifest = Manifest(version: string, releaseDate: string, files: seq<File>, extras: Extras)

  datatype Error = IncompleteFile | ShaWithoutFile | SizeWithoutFile | UnsupportedLine | VersionNotString
                 | ReleaseDateNotString | MissingVersion | MissingReleaseDate | MissingFiles

  // --- Scalars ---

  function ParseScalar(raw: string): Scalar {
    TrimmedScalar(Trim(raw))
  }

  function TrimmedScalar(s: string): Scalar {
    if IsQuoted(s) then Str(Unquote(s))
    else if s == "true" then Flag(true)
    else if s == "false" then Flag(false)
    else if IsNumber(s) then Num(NumberOf(s))
    else Str(s)
  }

  function PrintScalar(v: Scalar): string {
    match v
    case Str(text) => Quote(text)
    case Num(n) => Print(n)
    case Flag(on) => if on then "true" else "false"
  }

  // `s` is a whole scalar that reads as `v`.
  predicate IsScalarText(s: string, v: Scalar) {
    s != [] && IsTrimmed(s) && TrimmedScalar(s) == v
  }

  lemma StringIsScalar(text: string)
    ensures IsScalarText(Quote(text), Str(text)) && (OneLine(Quote(text)) <==> OneLine(text))
  {
    hide IsTrimmed, OneLine, Undouble, Double, IsSpace;
    UnquoteQuote(text);
  }

  lemma FlagIsScalar(on: bool)
    ensures IsScalarText(PrintScalar(Flag(on)), Flag(on)) && OneLine(PrintScalar(Flag(on)))
  {
    TrimmedEnds("true");
    TrimmedEnds("false");
  }

  // A number with an exponent in print does not come back.
  predicate ComesBack(v: Scalar) {
    v.Num? ==> HasPlainForm(v.number)
  }

  // A scalar comes back as it was printed, strings of any shape among them, unless print gives it an exponent.
  lemma ScalarRoundTrip(v: Scalar)
    requires v.Num? ==> IsNormal(v.number)
    ensures ParseScalar(PrintScalar(v)) == v <==> ComesBack(v)
    ensures IsTrimmed(PrintScalar(v)) && PrintScalar(v) != []
    ensures OneLine(PrintScalar(v)) <==> (v.Str? ==> OneLine(v.text))
  {
    hide Quote, Print, IsNormal, HasPlainForm, IsTrimmed, IsQuoted, OneLine, TrimStart, TrimEnd, TrimmedScalar, IsSpace;
    match v {
      case Str(text) => StringIsScalar(text);
      case Num(n) => NumberIsScalar(n);
      case Flag(on) => FlagIsScalar(on);
    }
    TrimmedStays(PrintScalar(v));
  }

  lemma TrimmedEnds(s: string)
    requires s != [] && !IsSpace(s[0]) && !IsSpace(s[|s| - 1])
    ensures IsTrimmed(s)
  {
  }

  lemma NumberIsScalar(n: Number)
    requires IsNormal(n)
    ensures var s := PrintScalar(Num(n));
      s != [] && IsTrimmed(s) && OneLine(s) && (TrimmedScalar(s) == Num(n) <==> HasPlainForm(n))
  {
    hide Print, IsNumber, NumberOf, HasPlainForm, IsNormal, IsSpace, IsTerminator, Undouble;
    var s := Print(n);
    PrintIsRead(n);
    NumberIsTrimmed(s);
    NumberCharacter(s[0]);
  }

  lemma NumberIsTrimmed(s: string)
    requires HasNumberCharacters(s)
    ensures IsTrimmed(s) && OneLine(s)
  {
    hide IsSpace, IsTerminator;
    forall i | 0 <= i < |s| ensures !IsTerminator(s[i]) {
      NumberCharacter(s[i]);
    }
    NumberCharacter(s[0]);
    NumberCharacter(s[|s| - 1]);
    TrimmedEnds(s);
  }

  lemma NumberCharacter(c: char)
    requires IsDigit(c) || c in ['-', '+', '.', 'e']
    ensures !IsSpace(c) && !IsTerminator(c) && c != '\'' && c != 't' && c != 'f'
  {
  }

  // --- Lines ---

  const URL: string := "  - url:"
  const SHA512: string := "    sha512:"
  const SIZE: string := "    size:"

  // ^prefix\s*(.+)$ on a line without white space at its end
  function ValueOf(line: string, prefix: string): Option<string> {
    if !(prefix <= line) then None
    else
      var value := TrimStart(line[|prefix|..]);
      if value == [] || !OneLine(value) then None else Some(value)
  }

  predicate IsLetter(c: char) {
    'A' <= c <= 'Z' || 'a' <= c <= 'z'
  }

  predicate IsKey(s: string) {
    s != [] && IsLetter(s[0]) && forall i :: 0 <= i < |s| ==> IsLetter(s[i]) || IsDigit(s[i])
  }

  // ^([A-Za-z][A-Za-z0-9]*):\s*(.+)$
  function TopLevel(line: string): Option<(string, string)> {
    var i := IndexOf(line, ':');
    if i == |line| || !IsKey(line[..i]) then None
    else match ValueOf(line, line[..i + 1])
      case None => None
      case Some(value) => Some((line[..i], value))
  }

  function StripQuotes(s: string): string {
    if s != [] && s[0] == '\'' && s[|s| - 1] == '\'' then
      if |s| == 1 then [] else Unquote(s)
    else s
  }

  // --- Reading ---

  // The file entry being read; its sha512 and size may still be missing.
  datatype Draft = Draft(url: string, sha512: Option<string>, size: Option<nat>)

  datatype State = State(version: Option<string>, releaseDate: Option<string>, inFiles: bool, current: Option<Draft>,
                         files: seq<File>, extras: Extras)

  const START := State(None, None, false, None, [], map[])

  // The files with the entry being read among them.
  function Finalized(files: seq<File>, current: Option<Draft>): Result<seq<File>, Error> {
    match current
    case None => Ok(files)
    case Some(d) =>
      if d.sha512.None? || d.size.None? then Err(IncompleteFile)
      else Ok(files + [File(d.url, d.sha512.value, d.size.value)])
  }

  function SetKey(st: State, key: string, value: Scalar): Result<State, Error> {
    if key == "version" then
      if value.Str? then Ok(st.(version := Some(value.text))) else Err(VersionNotString)
    else if key == "releaseDate" then
      if value.Str? then Ok(st.(releaseDate := Some(value.text))) else Err(ReleaseDateNotString)
    else if key == "path" || key == "sha512" then Ok(st)
    else Ok(st.(extras := st.extras[key := value]))
  }

  // A line that belongs to no file entry.
  function TopLevelStep(st: State, line: string): Result<State, Error> {
    match if st.inFiles then Finalized(st.files, st.current) else Ok(st.files)
    case Err(e) => Err(e)
    case Ok(files) =>
      var out := st.(inFiles := false, files := files, current := if st.inFiles then None else st.current);
      match TopLevel(line)
      case None => Err(UnsupportedLine)
      case Some((key, raw)) => SetKey(out, key, ParseScalar(raw))
  }

  function UrlStep(st: State, url: string): Result<State, Error> {
    match Finalized(st.files, st.current)
    case Err(e) => Err(e)
    case Ok(files) =>
      Ok(st.(files := files, current := Some(Draft(StripQuotes(Trim(url)), None, None)), inFiles := true))
  }

  function ShaStep(st: State, sha512: string): Result<State, Error> {
    if st.current.None? then Err(ShaWithoutFile)
    else Ok(st.(current := Some(st.current.value.(sha512 := Some(StripQuotes(Trim(sha512)))))))
  }

  function SizeStep(st: State, size: string): Result<State, Error>
    requires IsDigits(size)
  {
    if st.current.None? then Err(SizeWithoutFile)
    else Ok(st.(current := Some(st.current.value.(size := Some(DecimalValue(size))))))
  }

  function Step(st: State, rawLine: string): Result<State, Error> {
    var line := TrimEnd(rawLine);
    var size := ValueOf(line, SIZE);
    if line == [] then Ok(st)
    else if ValueOf(line, URL).Some? then UrlStep(st, ValueOf(line, URL).value)
    else if ValueOf(line, SHA512).Some? then ShaStep(st, ValueOf(line, SHA512).value)
    else if size.Some? && IsDigits(size.value) then SizeStep(st, size.value)
    else if line == "files:" then Ok(st.(inFiles := true))
    else TopLevelStep(st, line)
  }

  function Steps(st: State, lines: seq<string>): Result<State, Error>
    decreases lines
  {
    if lines == [] then Ok(st)
    else match Step(st, lines[0])
      case Err(e) => Err(e)
      case Ok(next) => Steps(next, lines[1..])
  }

  function Finish(st: State): Result<Manifest, Error> {
    match Finalized(st.files, st.current)
    case Err(e) => Err(e)
    case Ok(files) =>
      if st.version.None? || st.version.value == [] then Err(MissingVersion)
      else if st.releaseDate.None? || st.releaseDate.value == [] then Err(MissingReleaseDate)
      else if files == [] then Err(MissingFiles)
      else Ok(Manifest(st.version.value, st.releaseDate.value, files, st.extras))
  }

  function Parse(raw: string): Result<Manifest, Error> {
    match Steps(START, Split(raw))
    case Err(e) => Err(e)
    case Ok(st) => Finish(st)
  }

  method ParseManifest(raw: string) returns (result: Result<Manifest, Error>)
    ensures result == Parse(raw)
  {
    hide Step;
    var lines := Split(raw);
    var st := START;
    for i := 0 to |lines|
      invariant Steps(START, lines) == Steps(st, lines[i..])
    {
      var next := Step(st, lines[i]);
      if next.Err? {
        return Err(next.error);
      }
      st := next.value;
    }
    result := Finish(st);
  }

  // --- Printing ---

  function PrintSize(size: nat): string {
    Print(Number(size, 0))
  }

  function FileLines(files: seq<File>): seq<string> {
    if files == [] then []
    else
      var f := files[0];
      [URL + " " + f.url, SHA512 + " " + f.sha512, SIZE + " " + PrintSize(f.size)] + FileLines(files[1..])
  }

  function ExtraLines(keys: seq<string>, extras: Extras): seq<string>
    requires forall k :: k in keys ==> k in extras
  {
    if keys == [] then [] else [keys[0] + ": " + PrintScalar(extras[keys[0]])] + ExtraLines(keys[1..], extras)
  }

  function Lines(m: Manifest, keys: seq<string>): seq<string>
    requires forall k :: k in keys ==> k in m.extras
  {
    ["version: " + m.version, "files:"] + FileLines(m.files) + ExtraLines(keys, m.extras)
    + ["releaseDate: " + Quote(m.releaseDate), ""]
  }

  // --- Reading what was printed ---

  lemma ValueAfter(prefix: string, v: string)
    requires prefix != [] && !IsSpace(prefix[|prefix| - 1]) && OneLine(v)
    ensures var line := TrimEnd(prefix + " " + v);
      if Trim(v) == [] then line == prefix && ValueOf(line, prefix) == None
      else line == prefix + " " + TrimEnd(v) && ValueOf(line, prefix) == Some(Trim(v))
  {
    hide IsSpace, OneLine;
    var t := TrimEnd(v);
    TrimEndBlank(v);
    TrimIsTrimmed(v);
    TrimEndAfter(prefix, v);
    if t == [] {
      assert prefix[|prefix|..] == [];
    } else {
      ValueAfterSpace(prefix, t);
    }
  }

  lemma TrimEndAfter(prefix: string, v: string)
    requires prefix != [] && !IsSpace(prefix[|prefix| - 1])
    ensures TrimEnd(prefix + " " + v) == if TrimEnd(v) == [] then prefix else prefix + " " + TrimEnd(v)
  {
    TrimEndOfSum(prefix + " ", v);
    if TrimEnd(v) == [] {
      TrimEndOfSum(prefix, " ");
      assert TrimEnd(" ") == TrimEnd([]);
    }
  }

  lemma ValueAfterSpace(prefix: string, t: string)
    ensures var value := TrimStart(t);
      ValueOf(prefix + " " + t, prefix) == if value == [] || !OneLine(value) then None else Some(value)
  {
    var line := prefix + " " + t;
    hide OneLine, TrimStart;
    assert line[|prefix|..] == " " + t;
    SpaceInFront(t);
    assert prefix <= line;
  }

  lemma SpaceInFront(t: string)
    ensures TrimStart(" " + t) == TrimStart(t)
  {
    assert (" " + t)[1..] == t;
  }

  lemma TrimTwice(v: string)
    ensures Trim(Trim(v)) == Trim(v)
  {
    TrimIsTrimmed(v);
    TrimmedStays(Trim(v));
  }

  // A line with one prefix does not have another.
  lemma OtherPrefix(line: string, p: string, q: string, i: nat)
    requires p <= line && i < |p| && i < |q| && p[i] != q[i]
    ensures ValueOf(line, q) == None
  {
  }

  lemma UrlLine(st: State, url: string)
    requires OneLine(url)
    ensures var next := Step(st, URL + " " + url);
      if Trim(url) == [] then next.Err? else next == UrlStep(st, Trim(url))
  {
    hide Trim, OneLine, UrlStep, IsSpace, ValueOf, TrimEnd, TopLevel;
    ColonAndSpace();
    ValueAfter(URL, url);
    if Trim(url) == [] {
      OtherPrefix(URL, URL, SHA512, 2);
      OtherPrefix(URL, URL, SIZE, 2);
      NoKey(URL);
    }
  }

  lemma ColonAndSpace()
    ensures !IsSpace(':') && !IsLetter(' ')
  {
  }

  // A line that starts with a space has no top-level key.
  lemma NoKey(line: string)
    requires line != [] && line[0] == ' '
    ensures TopLevel(line) == None
  {
    ColonAndSpace();
    var i := IndexOf(line, ':');
    assert i > 0;
    assert line[..i][0] == ' ';
  }

  lemma ShaLine(st: State, sha512: string)
    requires OneLine(sha512)
    ensures var next := Step(st, SHA512 + " " + sha512);
      if Trim(sha512) == [] then next.Err? else next == ShaStep(st, Trim(sha512))
  {
    hide Trim, OneLine, ShaStep, IsSpace, ValueOf, TrimEnd, TopLevel;
    ColonAndSpace();
    ValueAfter(SHA512, sha512);
    OtherPrefix(TrimEnd(SHA512 + " " + sha512), SHA512, URL, 2);
    if Trim(sha512) == [] {
      OtherPrefix(SHA512, SHA512, SIZE, 5);
      NoKey(SHA512);
    }
  }

  lemma SizeLine(st: State, size: nat)
    ensures Step(st, SIZE + " " + Decimal(size)) == SizeStep(st, Decimal(size))
  {
    hide Trim, OneLine, SizeStep, IsSpace, ValueOf, TrimEnd, TopLevel, Decimal, IsDigits;
    DigitsArePlain(Decimal(size));
    SizeValue(Decimal(size));
  }

  lemma SizeValue(text: string)
    requires OneLine(text) && Trim(text) == text && text != []
    ensures var line := TrimEnd(SIZE + " " + text);
      && line != [] && line != "files:" && ValueOf(line, SIZE) == Some(text)
      && ValueOf(line, URL) == None && ValueOf(line, SHA512) == None
  {
    hide Trim, OneLine, IsSpace, ValueOf, TrimEnd;
    ColonAndSpace();
    ValueAfter(SIZE, text);
    var line := TrimEnd(SIZE + " " + text);
    OtherPrefix(line, SIZE, URL, 2);
    OtherPrefix(line, SIZE, SHA512, 5);
    assert line[0] == ' ' && "files:"[0] == 'f';
  }

  // A size that is printed with an exponent is no size to the reader, which takes its line for the end of
  // an entry without one.
  lemma LargeSizeLine(st: State, size: nat)
    requires size >= EXPONENT_FROM && st.inFiles && st.current.Some? && st.current.value.size.None?
    ensures Step(st, SIZE + " " + PrintSize(size)) == Err(IncompleteFile)
  {
    hide Trim, OneLine, IsSpace, ValueOf, TrimEnd, TopLevel, Print, HasPlainForm, IsDigits;
    WholeForm(size);
    NumberIsTrimmed(PrintSize(size));
    TrimmedStays(PrintSize(size));
    SizeValue(PrintSize(size));
  }

  // The size line as it is printed.
  lemma PrintedSizeLine(st: State, size: nat)
    requires st.inFiles && st.current.Some? && st.current.value.size.None?
    ensures Step(st, SIZE + " " + PrintSize(size))
         == if size < EXPONENT_FROM then Ok(st.(current := Some(st.current.value.(size := Some(size)))))
            else Err(IncompleteFile)
  {
    hide Step, Print, HasPlainForm, Decimal, DecimalValue;
    if size < EXPONENT_FROM {
      WholeForm(size);
      SizeLine(st, size);
      DecimalRoundTrip(size);
    } else {
      LargeSizeLine(st, size);
    }
  }

  lemma DigitsArePlain(s: string)
    requires IsDigits(s)
    ensures OneLine(s) && Trim(s) == s && s != []
  {
    assert IsDigit(s[0]) && IsDigit(s[|s| - 1]);
    TrimmedEnds(s);
    TrimmedStays(s);
  }

  // --- Lines of a printed manifest ---

  // What a top-level line makes of the file entry before it.
  function Left(st: State): State
    requires Finalized(st.files, st.current).Ok?
  {
    st.(inFiles := false, files := Finalized(st.files, st.current).value, current := None)
  }

  predicate CanLeave(st: State) {
    Finalized(st.files, st.current).Ok? && (st.current.Some? ==> st.inFiles)
  }

  lemma {:induction false} KeyEnds(key: string, rest: string)
    requires forall i :: 0 <= i < |key| ==> key[i] != ':'
    ensures IndexOf(key + ":" + rest, ':') == |key|
    decreases |key|
  {
    var line := key + ":" + rest;
    assert IndexOf(line, ':') <= |key| by {
      assert line[|key|] == ':';
    }
    assert forall j :: 0 <= j < |key| ==> line[j] == key[j];
  }

  lemma KeyHasNoColon(key: string)
    requires IsKey(key)
    ensures forall i :: 0 <= i < |key| ==> key[i] != ':'
    ensures key[0] != ' '
  {
    forall i | 0 <= i < |key| ensures key[i] != ':' {
      assert IsLetter(key[i]) || IsDigit(key[i]);
    }
    ColonAndSpace();
  }

  lemma TopLine(st: State, key: string, v: string)
    requires IsKey(key) && OneLine(v) && (Trim(v) == [] ==> key != "files")
    requires CanLeave(st)
    ensures var next := Step(st, key + ": " + v);
      if Trim(v) == [] then next.Err? else next == SetKey(Left(st), key, ParseScalar(v))
  {
    hide Trim, OneLine, IsSpace, ValueOf, TrimEnd, ParseScalar, SetKey, IsKey;
    var line := TrimEnd(key + ": " + v);
    KeyHasNoColon(key);
    assert key + ": " + v == (key + ":") + " " + v;
    ColonAndSpace();
    ValueAfter(key + ":", v);
    ParseScalarTrims(v);
    var rest := line[|key| + 1..];
    assert line == key + ":" + rest;
    KeyEnds(key, rest);
    KeyInFront(key, rest);
    OtherPrefix(line, key + ":", URL, 0);
    OtherPrefix(line, key + ":", SHA512, 0);
    OtherPrefix(line, key + ":", SIZE, 0);
    assert line != "files:" by {
      assert Trim(v) != [] ==> |line| > |key| + 1;
      assert "files:"[5] == ':' && "files:"[..5] == "files";
    }
  }

  lemma KeyInFront(key: string, rest: string)
    ensures var line := key + ":" + rest; line[..|key|] == key && line[..|key| + 1] == key + ":"
  {
  }

  lemma ParseScalarTrims(v: string)
    ensures ParseScalar(Trim(v)) == ParseScalar(v)
  {
    hide TrimmedScalar;
    TrimTwice(v);
  }

  // --- The files of a printed manifest ---

  predicate Readable(f: File) {
    Trim(f.url) != [] && Trim(f.sha512) != [] && f.size < EXPONENT_FROM
  }

  function Reread(f: File): File {
    File(StripQuotes(Trim(f.url)), StripQuotes(Trim(f.sha512)), f.size)
  }

  function RereadAll(files: seq<File>): (r: seq<File>)
    ensures |r| == |files| && forall i :: 0 <= i < |r| ==> r[i] == Reread(files[i])
  {
    seq(|files|, i requires 0 <= i < |files| => Reread(files[i]))
  }

  // A file entry that was read, still the current one.
  function AfterFile(st: State, f: File): (out: State)
    requires Finalized(st.files, st.current).Ok?
    ensures Finalized(out.files, out.current) == Ok(Finalized(st.files, st.current).value + [f])
  {
    st.(inFiles := true, files := Finalized(st.files, st.current).value,
        current := Some(Draft(f.url, Some(f.sha512), Some(f.size))))
  }

  function AfterFiles(st: State, files: seq<File>): (out: State)
    requires Finalized(st.files, st.current).Ok?
    ensures out.version == st.version && out.releaseDate == st.releaseDate && out.extras == st.extras
    ensures Finalized(out.files, out.current) == Ok(Finalized(st.files, st.current).value + files)
    ensures st.inFiles ==> out.inFiles
    decreases |files|
  {
    if files == [] then
      var all := Finalized(st.files, st.current).value;
      assert all + files == all;
      st
    else
      var all := Finalized(st.files, st.current).value;
      assert all + files == all + [files[0]] + files[1..];
      AfterFiles(AfterFile(st, files[0]), files[1..])
  }

  lemma StepsFirst(st: State, line: string, rest: seq<string>)
    ensures Steps(st, [line] + rest)
         == if Step(st, line).Err? then Err(Step(st, line).error) else Steps(Step(st, line).value, rest)
  {
    hide Step;
    assert ([line] + rest)[1..] == rest;
  }

  lemma OneFile(st: State, f: File, rest: seq<string>)
    requires OneLine(f.url) && OneLine(f.sha512) && Finalized(st.files, st.current).Ok?
    ensures var r := Steps(st, FileLines([f]) + rest);
      if Readable(f) then r == Steps(AfterFile(st, Reread(f)), rest)
      else r.Err? && (Trim(f.url) != [] && Trim(f.sha512) != [] ==> r == Err(IncompleteFile))
  {
    hide Step, Steps, Trim, OneLine, StripQuotes, PrintSize;
    var url, sha512, size := URL + " " + f.url, SHA512 + " " + f.sha512, SIZE + " " + PrintSize(f.size);
    assert FileLines([f]) == [url, sha512, size] by {
      assert FileLines([f][1..]) == [];
    }
    assert [url, sha512, size] + rest == [url] + ([sha512] + ([size] + rest));
    StepsFirst(st, url, [sha512] + ([size] + rest));
    UrlLine(st, f.url);
    if Trim(f.url) != [] {
      var s1 := Step(st, url).value;
      StepsFirst(s1, sha512, [size] + rest);
      ShaLine(s1, f.sha512);
      if Trim(f.sha512) != [] {
        UrlAndSha(st, f);
        var s2 := Step(s1, sha512).value;
        StepsFirst(s2, size, rest);
        PrintedSizeLine(s2, f.size);
      }
    }
  }

  // The entry once its size is still to come.
  lemma UrlAndSha(st: State, f: File)
    requires OneLine(f.url) && OneLine(f.sha512) && Finalized(st.files, st.current).Ok?
    requires Trim(f.url) != [] && Trim(f.sha512) != []
    ensures Step(st, URL + " " + f.url).Ok?
    ensures var s2 := Step(Step(st, URL + " " + f.url).value, SHA512 + " " + f.sha512);
      && s2.Ok? && s2.value.inFiles && s2.value.current.Some? && s2.value.current.value.size.None?
      && s2.value.(current := Some(s2.value.current.value.(size := Some(f.size)))) == AfterFile(st, Reread(f))
  {
    hide Step, Trim, OneLine, StripQuotes;
    UrlLine(st, f.url);
    TrimTwice(f.url);
    ShaLine(Step(st, URL + " " + f.url).value, f.sha512);
    TrimTwice(f.sha512);
  }

  lemma {:induction false} FilesRead(st: State, files: seq<File>, rest: seq<string>)
    requires forall f :: f in files ==> OneLine(f.url) && OneLine(f.sha512)
    requires Finalized(st.files, st.current).Ok?
    ensures var r := Steps(st, FileLines(files) + rest);
      if forall f :: f in files ==> Readable(f) then r == Steps(AfterFiles(st, RereadAll(files)), rest) else r.Err?
    decreases |files|
  {
    hide Step, Readable, Reread, OneLine, FileLines, Steps, Finalized, AfterFile;
    if files == [] {
      NoFileLines(rest);
    } else {
      var f, more := files[0], FileLines(files[1..]) + rest;
      FirstFileLines(files, rest);
      OneFile(st, f, more);
      if Readable(f) {
        RereadFirst(files);
        FilesRead(AfterFile(st, Reread(f)), files[1..], rest);
      }
    }
  }

  lemma NoFileLines(rest: seq<string>)
    ensures FileLines([]) + rest == rest
  {
  }

  lemma RereadFirst(files: seq<File>)
    requires files != []
    ensures RereadAll(files)[0] == Reread(files[0]) && RereadAll(files)[1..] == RereadAll(files[1..])
  {
    hide Reread;
  }

  lemma FirstFileLines(files: seq<File>, rest: seq<string>)
    requires files != []
    ensures files == [files[0]] + files[1..]
    ensures FileLines(files) + rest == FileLines([files[0]]) + (FileLines(files[1..]) + rest)
  {
    hide Decimal;
    assert FileLines([files[0]][1..]) == [];
  }

  // --- The extras of a printed manifest ---

  predicate IsExtraKey(k: string) {
    IsKey(k) && k != "version" && k != "releaseDate" && k != "path" && k != "sha512"
  }

  // A string extra has no line break of its own.
  predicate IsExtra(v: Scalar) {
    (v.Str? ==> OneLine(v.text)) && (v.Num? ==> IsNormal(v.number))
  }

  predicate AreExtras(extras: Extras) {
    forall k :: k in extras ==> IsExtraKey(k) && IsExtra(extras[k])
  }

  function RereadExtras(extras: Extras): (r: Extras)
    ensures r.Keys == extras.Keys && forall k :: k in extras ==> r[k] == ParseScalar(PrintScalar(extras[k]))
  {
    map k | k in extras :: ParseScalar(PrintScalar(extras[k]))
  }

  function AfterExtras(st: State, keys: seq<string>, extras: Extras): (out: State)
    requires CanLeave(st) && forall k :: k in keys ==> k in extras
    ensures CanLeave(out) && Finalized(out.files, out.current) == Finalized(st.files, st.current)
    ensures out.version == st.version && out.releaseDate == st.releaseDate
    decreases |keys|
  {
    if keys == [] then st
    else AfterExtras(Left(st).(extras := st.extras[keys[0] := extras[keys[0]]]), keys[1..], extras)
  }

  lemma {:induction false} AfterExtrasExtras(st: State, keys: seq<string>, extras: Extras)
    requires CanLeave(st) && forall k :: k in keys ==> k in extras
    ensures forall k :: (k in AfterExtras(st, keys, extras).extras <==> k in st.extras || k in keys)
    ensures forall k :: k in AfterExtras(st, keys, extras).extras ==>
      AfterExtras(st, keys, extras).extras[k] == if k in keys then extras[k] else st.extras[k]
    decreases |keys|
  {
    if keys != [] {
      assert keys == [keys[0]] + keys[1..];
      AfterExtrasExtras(Left(st).(extras := st.extras[keys[0] := extras[keys[0]]]), keys[1..], extras);
    }
  }

  lemma OneExtra(st: State, k: string, v: Scalar)
    requires CanLeave(st) && IsExtraKey(k) && IsExtra(v)
    ensures Step(st, k + ": " + PrintScalar(v)) == Ok(Left(st).(extras := st.extras[k := ParseScalar(PrintScalar(v))]))
  {
    hide Step, PrintScalar, ParseScalar, OneLine, Trim, IsKey, IsNormal, ComesBack;
    ScalarRoundTrip(v);
    TrimmedStays(PrintScalar(v));
    TopLine(st, k, PrintScalar(v));
  }

  lemma {:induction false} ExtrasRead(st: State, keys: seq<string>, extras: Extras, rest: seq<string>)
    requires CanLeave(st) && AreExtras(extras) && forall k :: k in keys ==> k in extras
    ensures Steps(st, ExtraLines(keys, extras) + rest) == Steps(AfterExtras(st, keys, RereadExtras(extras)), rest)
    decreases |keys|
  {
    hide Step, PrintScalar, ParseScalar, IsExtraKey, IsExtra;
    var reread := RereadExtras(extras);
    if keys == [] {
      assert ExtraLines(keys, extras) + rest == rest;
    } else {
      var k, more := keys[0], ExtraLines(keys[1..], extras) + rest;
      var lines := ExtraLines(keys, extras) + rest;
      assert lines[0] == k + ": " + PrintScalar(extras[k]) && lines[1..] == more;
      OneExtra(st, k, extras[k]);
      ExtrasRead(Left(st).(extras := st.extras[k := reread[k]]), keys[1..], extras, rest);
    }
  }

  // --- The round trip ---

  // What every manifest that was read is like.
  predicate IsReadable(m: Manifest) {
    && OneLine(m.version) && m.version != []
    && OneLine(m.releaseDate) && m.releaseDate != []
    && m.files != [] && (forall f :: f in m.files ==> OneLine(f.url) && OneLine(f.sha512))
    && AreExtras(m.extras)
  }

  // The text stays as it is without quotes.
  predicate IsPlain(s: string) {
    s != [] && IsTrimmed(s) && !(s[0] == '\'' && s[|s| - 1] == '\'')
  }

  predicate IsPlainVersion(s: string) {
    && s != [] && IsTrimmed(s)
    && !(|s| >= 2 && s[0] == '\'' && s[|s| - 1] == '\'') && s != "true" && s != "false" && !IsNumber(s)
  }

  predicate IsPrintable(m: Manifest) {
    && IsReadable(m)
    && IsPlainVersion(m.version)
    && (forall f :: f in m.files ==> IsPlain(f.url) && IsPlain(f.sha512) && f.size < EXPONENT_FROM)
    && forall k :: k in m.extras ==> ComesBack(m.extras[k])
  }

  ghost predicate AreKeys(keys: seq<string>, extras: Extras) {
    forall k :: k in keys <==> k in extras
  }

  lemma LinesAreOneLine(m: Manifest, keys: seq<string>)
    requires IsReadable(m) && AreKeys(keys, m.extras)
    ensures forall i :: 0 <= i < |Lines(m, keys)| ==> OneLine(Lines(m, keys)[i])
  {
    hide OneLine, Quote, PrintScalar, Decimal;
    assert OneLine("version: ") && OneLine("files:") && OneLine("releaseDate: ") && OneLine("") by {
      ShortLines();
    }
    OneLineSum("version: ", m.version);
    FileLinesOneLine(m.files);
    ExtraLinesOneLine(keys, m.extras);
    UnquoteQuote(m.releaseDate);
    OneLineSum("releaseDate: ", Quote(m.releaseDate));
  }

  lemma ShortLines()
    ensures OneLine("version: ") && OneLine("files:") && OneLine("releaseDate: ") && OneLine("") && OneLine(": ")
    ensures OneLine(URL + " ") && OneLine(SHA512 + " ") && OneLine(SIZE + " ")
  {
  }

  lemma {:induction false} FileLinesOneLine(files: seq<File>)
    requires forall f :: f in files ==> OneLine(f.url) && OneLine(f.sha512)
    ensures forall i :: 0 <= i < |FileLines(files)| ==> OneLine(FileLines(files)[i])
    decreases |files|
  {
    hide OneLine, PrintSize;
    if files != [] {
      var f := files[0];
      ShortLines();
      OneLineSum(URL + " ", f.url);
      OneLineSum(SHA512 + " ", f.sha512);
      SizeOneLine(f.size);
      OneLineSum(SIZE + " ", PrintSize(f.size));
      FileLinesOneLine(files[1..]);
    }
  }

  lemma SizeOneLine(size: nat)
    ensures OneLine(PrintSize(size))
  {
    hide Print, OneLine, IsNumber, HasPlainForm;
    PrintIsRead(Number(size, 0));
    NumberIsTrimmed(PrintSize(size));
  }

  lemma {:induction false} ExtraLinesOneLine(keys: seq<string>, extras: Extras)
    requires AreExtras(extras) && forall k :: k in keys ==> k in extras
    ensures forall i :: 0 <= i < |ExtraLines(keys, extras)| ==> OneLine(ExtraLines(keys, extras)[i])
    decreases |keys|
  {
    hide OneLine, PrintScalar;
    if keys != [] {
      var k := keys[0];
      ShortLines();
      ScalarRoundTrip(extras[k]);
      KeyOneLine(k);
      OneLineSum(k, ": ");
      OneLineSum(k + ": ", PrintScalar(extras[k]));
      ExtraLinesOneLine(keys[1..], extras);
    }
  }

  lemma KeyOneLine(key: string)
    requires IsKey(key)
    ensures OneLine(key)
  {
    forall i | 0 <= i < |key| ensures !IsTerminator(key[i]) {
      assert IsLetter(key[i]) || IsDigit(key[i]);
    }
  }

  lemma FilesLine(st: State)
    ensures Step(st, "files:") == Ok(st.(inFiles := true)) && Step(st, "") == Ok(st)
  {
    hide ValueOf, IsDigits;
    ColonAndSpace();
    TrimmedEndsAt("files:");
    OtherPrefix("files:", "files:", URL, 0);
    OtherPrefix("files:", "files:", SHA512, 0);
    OtherPrefix("files:", "files:", SIZE, 0);
  }

  lemma TrimmedEndsAt(line: string)
    requires line != [] && !IsSpace(line[|line| - 1])
    ensures TrimEnd(line) == line
  {
  }

  lemma TailRead(st: State, m: Manifest, keys: seq<string>)
    requires IsReadable(m) && AreKeys(keys, m.extras) && CanLeave(st) && st.extras == map[]
    ensures var r := Steps(st, ExtraLines(keys, m.extras) + ["releaseDate: " + Quote(m.releaseDate), ""]);
      && r.Ok? && Finalized(r.value.files, r.value.current) == Finalized(st.files, st.current)
      && r.value.version == st.version && r.value.releaseDate == Some(m.releaseDate)
      && r.value.extras == RereadExtras(m.extras)
  {
    hide Step, Steps, PrintScalar, ParseScalar, Quote, IsKey, OneLine, Trim, IsTrimmed;
    var date, last := Str(m.releaseDate), "releaseDate: " + Quote(m.releaseDate);
    ExtrasRead(st, keys, m.extras, [last, ""]);
    var extras := RereadExtras(m.extras);
    AfterExtrasExtras(st, keys, extras);
    var s1 := AfterExtras(st, keys, extras);
    assert s1.extras == extras;
    assert [last, ""] == [last] + ([""] + []);
    StepsFirst(s1, last, [""] + []);
    ReleaseDateLine(s1, m.releaseDate);
    var s2 := Step(s1, last).value;
    StepsFirst(s2, "", []);
    FilesLine(s2);
    StepsNone(s2);
  }

  lemma StepsNone(st: State)
    ensures Steps(st, []) == Ok(st)
  {
  }

  lemma ReleaseDateLine(st: State, date: string)
    requires CanLeave(st) && OneLine(date)
    ensures Step(st, "releaseDate: " + Quote(date)) == Ok(Left(st).(releaseDate := Some(date)))
  {
    hide Step, PrintScalar, ParseScalar, OneLine, Trim, IsKey, Quote, Left, SetKey;
    ScalarRoundTrip(Str(date));
    QuoteIsPrinted(date);
    UnquoteQuote(date);
    TrimmedStays(Quote(date));
    NamedKeys();
    assert "releaseDate" + ": " + Quote(date) == "releaseDate: " + Quote(date);
    TopLine(st, "releaseDate", Quote(date));
    SetReleaseDate(Left(st), date);
  }

  lemma SetReleaseDate(st: State, date: string)
    ensures SetKey(st, "releaseDate", Str(date)) == Ok(st.(releaseDate := Some(date)))
  {
  }

  lemma QuoteIsPrinted(text: string)
    ensures PrintScalar(Str(text)) == Quote(text)
  {
  }

  lemma NamedKeys()
    ensures IsKey("releaseDate") && IsKey("version")
  {
  }

  // The unquoted fields can be read at all.
  predicate Reads(m: Manifest) {
    && Trim(m.version) != [] && ParseScalar(m.version).Str? && ParseScalar(m.version).text != []
    && forall f :: f in m.files ==> Readable(f)
  }

  // How printed lines are read, whatever the unquoted fields look like.
  lemma LinesRead(m: Manifest, keys: seq<string>)
    requires IsReadable(m) && AreKeys(keys, m.extras)
    ensures var r := Parse(Join(Lines(m, keys)));
      if Reads(m)
      then r == Ok(Manifest(ParseScalar(m.version).text, m.releaseDate, RereadAll(m.files), RereadExtras(m.extras)))
      else r.Err?
  {
    hide Step, Steps, PrintScalar, ParseScalar, Quote, OneLine, Trim, Readable, AreExtras, Reread, ExtraLines,
         FileLines, Finish, Lines;
    LinesAreOneLine(m, keys);
    LinesAre(m, keys);
    SplitJoin(Lines(m, keys));
    var first := "version: " + m.version;
    var tail := ExtraLines(keys, m.extras) + ["releaseDate: " + Quote(m.releaseDate), ""];
    StepsFirst(START, first, ["files:"] + (FileLines(m.files) + tail));
    VersionLine(m.version);
    if Step(START, first).Ok? {
      BodyRead(Step(START, first).value, m, keys);
    }
  }

  lemma LinesAre(m: Manifest, keys: seq<string>)
    requires AreKeys(keys, m.extras)
    ensures var tail := ExtraLines(keys, m.extras) + ["releaseDate: " + Quote(m.releaseDate), ""];
      Lines(m, keys) == ["version: " + m.version] + (["files:"] + (FileLines(m.files) + tail))
  {
    hide Quote, ExtraLines, FileLines;
  }

  lemma VersionLine(version: string)
    requires OneLine(version)
    ensures var next := Step(START, "version: " + version);
      if Trim(version) == [] || !ParseScalar(version).Str? then next.Err?
      else next == Ok(START.(version := Some(ParseScalar(version).text)))
  {
    hide Step, ParseScalar, IsKey, OneLine, Trim;
    NamedKeys();
    assert "version" + ": " + version == "version: " + version;
    TopLine(START, "version", version);
  }

  lemma BodyRead(st: State, m: Manifest, keys: seq<string>)
    requires IsReadable(m) && AreKeys(keys, m.extras) && st.version.Some? && st == START.(version := st.version)
    ensures var tail := ExtraLines(keys, m.extras) + ["releaseDate: " + Quote(m.releaseDate), ""];
      var r := Steps(st, ["files:"] + (FileLines(m.files) + tail));
      if forall f :: f in m.files ==> Readable(f)
      then r.Ok? && Finish(r.value) == if st.version.value == [] then Err(MissingVersion)
             else Ok(Manifest(st.version.value, m.releaseDate, RereadAll(m.files), RereadExtras(m.extras)))
      else r.Err?
  {
    hide Step, Steps, PrintScalar, Quote, OneLine, Readable, AreExtras, Reread, ExtraLines, FileLines, AfterFiles,
         Finalized, Finish;
    var tail := ExtraLines(keys, m.extras) + ["releaseDate: " + Quote(m.releaseDate), ""];
    StepsFirst(st, "files:", FileLines(m.files) + tail);
    FilesLine(st);
    var s2 := st.(inFiles := true);
    NothingRead(s2);
    FilesRead(s2, m.files, tail);
    if forall f :: f in m.files ==> Readable(f) {
      assert [] + RereadAll(m.files) == RereadAll(m.files);
      var s3 := AfterFiles(s2, RereadAll(m.files));
      TailRead(s3, m, keys);
      FinishOf(Steps(s3, tail).value, RereadAll(m.files));
    }
  }

  lemma NothingRead(st: State)
    requires st.files == [] && st.current == None
    ensures Finalized(st.files, st.current) == Ok([])
  {
  }

  lemma FinishOf(st: State, files: seq<File>)
    requires Finalized(st.files, st.current) == Ok(files) && files != [] && st.version.Some?
    requires st.releaseDate.Some? && st.releaseDate.value != []
    ensures Finish(st) == if st.version.value == [] then Err(MissingVersion)
                          else Ok(Manifest(st.version.value, st.releaseDate.value, files, st.extras))
  {
  }

  lemma {:induction false} UndoubleLength(s: string)
    ensures |Undouble(s)| <= |s|
  {
    if s != [] {
      UndoubleLength(if |s| >= 2 && s[0] == s[1] == '\'' then s[2..] else s[1..]);
    }
  }

  lemma PlainExactly(s: string)
    ensures (Trim(s) != [] && StripQuotes(Trim(s)) == s) <==> IsPlain(s)
  {
    hide IsSpace;
    TrimIsTrimmed(s);
    if IsTrimmed(s) {
      TrimmedStays(s);
    }
    TrimLength(s);
    var t := Trim(s);
    if IsQuoted(t) {
      UndoubleLength(t[1..|t| - 1]);
    }
  }

  lemma TrimLength(s: string)
    ensures |Trim(s)| <= |s| && (|Trim(s)| == |s| ==> Trim(s) == s)
  {
  }

  lemma PlainVersionExactly(s: string)
    ensures (Trim(s) != [] && ParseScalar(s) == Str(s)) <==> IsPlainVersion(s)
  {
    hide IsSpace, TrimmedScalar, Trim, IsNumber, NumberOf;
    TrimIsTrimmed(s);
    if IsTrimmed(s) {
      TrimmedStays(s);
    }
    TrimLength(s);
    ScalarLength(Trim(s));
  }

  lemma ScalarLength(t: string)
    ensures TrimmedScalar(t).Str? ==> |TrimmedScalar(t).text| <= |t|
    ensures TrimmedScalar(t) == Str(t) <==> !IsQuoted(t) && t != "true" && t != "false" && !IsNumber(t)
  {
    hide IsNumber, NumberOf;
    if IsQuoted(t) {
      UndoubleLength(t[1..|t| - 1]);
    }
  }

  // Every manifest that was read is readable: what breaks that is never the result of reading.
  predicate IsReadableState(st: State) {
    && (st.version.Some? ==> OneLine(st.version.value))
    && (st.releaseDate.Some? ==> OneLine(st.releaseDate.value))
    && (st.current.Some? ==>
          OneLine(st.current.value.url) && (st.current.value.sha512.Some? ==> OneLine(st.current.value.sha512.value)))
    && (forall f :: f in st.files ==> OneLine(f.url) && OneLine(f.sha512))
    && AreExtras(st.extras)
  }

  lemma StripQuotesOneLine(s: string)
    requires OneLine(s)
    ensures OneLine(StripQuotes(Trim(s)))
  {
    TrimIsTrimmed(s);
  }

  lemma ScalarIsExtra(raw: string)
    requires OneLine(raw)
    ensures IsExtra(ParseScalar(raw))
  {
    hide Trim, IsNumber, NumberOf, IsNormal, Undouble, IsSpace;
    TrimIsTrimmed(raw);
    var t := Trim(raw);
    if IsQuoted(t) {
      assert OneLine(t[1..|t| - 1]);
    }
  }

  lemma FinalizedReadable(st: State)
    requires IsReadableState(st) && Finalized(st.files, st.current).Ok?
    ensures forall f :: f in Finalized(st.files, st.current).value ==> OneLine(f.url) && OneLine(f.sha512)
  {
    hide OneLine, AreExtras;
  }

  lemma SetKeyReadable(st: State, key: string, v: Scalar)
    requires IsReadableState(st) && IsKey(key) && IsExtra(v) && SetKey(st, key, v).Ok?
    ensures IsReadableState(SetKey(st, key, v).value)
  {
    hide OneLine, IsKey, IsDigits, IsNormal;
  }

  lemma TopLevelReadable(st: State, line: string)
    requires IsReadableState(st) && TopLevelStep(st, line).Ok?
    ensures IsReadableState(TopLevelStep(st, line).value)
  {
    hide OneLine, ParseScalar, IsExtra, IsKey, SetKey, TopLevel, AreExtras, Finalized;
    var files := if st.inFiles then Finalized(st.files, st.current).value else st.files;
    if st.inFiles {
      FinalizedReadable(st);
    }
    var out := st.(inFiles := false, files := files, current := if st.inFiles then None else st.current);
    var top := TopLevel(line).value;
    TopLevelKey(line);
    ScalarIsExtra(top.1);
    SetKeyReadable(out, top.0, ParseScalar(top.1));
  }

  lemma TopLevelKey(line: string)
    requires TopLevel(line).Some?
    ensures IsKey(TopLevel(line).value.0) && OneLine(TopLevel(line).value.1)
  {
    hide IsKey, OneLine;
  }

  lemma FieldReadable(st: State, text: string)
    requires IsReadableState(st) && OneLine(text)
    ensures UrlStep(st, text).Ok? ==> IsReadableState(UrlStep(st, text).value)
    ensures ShaStep(st, text).Ok? ==> IsReadableState(ShaStep(st, text).value)
  {
    hide OneLine, StripQuotes, Trim, Finalized, AreExtras;
    StripQuotesOneLine(text);
    if Finalized(st.files, st.current).Ok? {
      FinalizedReadable(st);
    }
  }

  lemma SizeReadable(st: State, size: string)
    requires IsReadableState(st) && IsDigits(size) && SizeStep(st, size).Ok?
    ensures IsReadableState(SizeStep(st, size).value)
  {
    hide OneLine, AreExtras, IsDigits;
  }

  lemma FilesHeadReadable(st: State)
    requires IsReadableState(st)
    ensures IsReadableState(st.(inFiles := true))
  {
    hide OneLine, AreExtras;
  }

  lemma ValueIsOneLine(line: string, prefix: string)
    requires ValueOf(line, prefix).Some?
    ensures OneLine(ValueOf(line, prefix).value)
  {
    hide OneLine;
  }

  lemma StepReadable(st: State, rawLine: string)
    requires IsReadableState(st) && Step(st, rawLine).Ok?
    ensures IsReadableState(Step(st, rawLine).value)
  {
    hide OneLine, ValueOf, TopLevelStep, UrlStep, ShaStep, SizeStep, IsDigits, TrimEnd, IsReadableState;
    var line := TrimEnd(rawLine);
    if line == [] {
      assert Step(st, rawLine) == Ok(st);
    } else if ValueOf(line, URL).Some? {
      ValueIsOneLine(line, URL);
      FieldReadable(st, ValueOf(line, URL).value);
    } else if ValueOf(line, SHA512).Some? {
      ValueIsOneLine(line, SHA512);
      FieldReadable(st, ValueOf(line, SHA512).value);
    } else if ValueOf(line, SIZE).Some? && IsDigits(ValueOf(line, SIZE).value) {
      SizeReadable(st, ValueOf(line, SIZE).value);
    } else if line == "files:" {
      FilesHeadReadable(st);
    } else if TopLevelStep(st, line).Ok? {
      TopLevelReadable(st, line);
    }
  }

  lemma {:induction false} StepsReadable(st: State, lines: seq<string>)
    requires IsReadableState(st) && Steps(st, lines).Ok?
    ensures IsReadableState(Steps(st, lines).value)
    decreases |lines|
  {
    hide Step, IsReadableState;
    if lines != [] {
      StepReadable(st, lines[0]);
      StepsReadable(Step(st, lines[0]).value, lines[1..]);
    }
  }

  lemma ParsedIsReadable(raw: string)
    requires Parse(raw).Ok?
    ensures IsReadable(Parse(raw).value)
  {
    hide Steps, OneLine, AreExtras, Finalized;
    var lines := Split(raw);
    assert IsReadableState(START) by {
      StartIsReadable();
    }
    StepsReadable(START, lines);
    FinalizedReadable(Steps(START, lines).value);
  }

  lemma StartIsReadable()
    ensures IsReadableState(START)
  {
  }

  // --- No entry is lost ---

  function Urls(files: seq<File>): (urls: seq<string>)
    ensures |urls| == |files| && forall i :: 0 <= i < |files| ==> urls[i] == files[i].url
  {
    seq(|files|, i requires 0 <= i < |files| => files[i].url)
  }

  // The URLs of all entries begun so far, the current one included.
  function Begun(st: State): seq<string> {
    Urls(st.files) + if st.current.Some? then [st.current.value.url] else []
  }

  function UrlAt(line: string): seq<string> {
    var url := ValueOf(TrimEnd(line), URL);
    if url.Some? then [StripQuotes(Trim(url.value))] else []
  }

  // The URLs that the lines of a text name, in order.
  function UrlsIn(lines: seq<string>): seq<string> {
    if lines == [] then [] else UrlAt(lines[0]) + UrlsIn(lines[1..])
  }

  lemma FinalizedUrls(st: State)
    requires Finalized(st.files, st.current).Ok?
    ensures Urls(Finalized(st.files, st.current).value) == Begun(st)
  {
  }

  lemma StepUrls(st: State, rawLine: string)
    requires Step(st, rawLine).Ok?
    ensures Begun(Step(st, rawLine).value) == Begun(st) + UrlAt(rawLine)
  {
    hide ValueOf, TrimEnd, Trim, StripQuotes, TopLevel, ParseScalar, IsDigits;
    NoUrlInBlank(TrimEnd(rawLine));
    if Finalized(st.files, st.current).Ok? {
      FinalizedUrls(st);
    }
  }

  lemma {:induction false} StepsUrls(st: State, lines: seq<string>)
    requires Steps(st, lines).Ok?
    ensures Begun(Steps(st, lines).value) == Begun(st) + UrlsIn(lines)
    decreases |lines|
  {
    hide Step, UrlAt, Begun;
    if lines == [] {
      assert Begun(st) + [] == Begun(st);
    } else {
      var next := Step(st, lines[0]).value;
      StepUrls(st, lines[0]);
      StepsUrls(next, lines[1..]);
      assert (Begun(st) + UrlAt(lines[0])) + UrlsIn(lines[1..]) == Begun(st) + UrlsIn(lines);
    }
  }

  lemma NoUrlInBlank(line: string)
    ensures line == [] ==> ValueOf(line, URL) == None
  {
  }

  // Whatever else a text holds, its manifest has exactly one file for each line that names a URL, in the
  // order of the lines.
  lemma ParseKeepsEveryEntry(raw: string)
    requires Parse(raw).Ok?
    ensures Urls(Parse(raw).value.files) == UrlsIn(Split(raw))
  {
    hide Steps, UrlsIn;
    var st := Steps(START, Split(raw)).value;
    StepsUrls(START, Split(raw));
    FinalizedUrls(st);
    assert Begun(START) + UrlsIn(Split(raw)) == UrlsIn(Split(raw));
  }

  // --- The round trip, exactly ---

  lemma ExtrasComeBack(extras: Extras)
    requires AreExtras(extras)
    ensures RereadExtras(extras) == extras <==> forall k :: k in extras ==> ComesBack(extras[k])
  {
    hide ComesBack, IsExtraKey, PrintScalar, ParseScalar, IsNormal, OneLine;
    forall k | k in extras ensures RereadExtras(extras)[k] == extras[k] <==> ComesBack(extras[k]) {
      ScalarRoundTrip(extras[k]);
    }
  }

  // Reading what was printed gives the manifest back exactly if it is printable, in whatever order its
  // extras are printed.
  lemma ParseSerialize(m: Manifest, keys: seq<string>)
    requires AreKeys(keys, m.extras)
    ensures Parse(Join(Lines(m, keys))) == Ok(m) <==> IsPrintable(m)
  {
    hide Parse, Lines, Join, OneLine, AreExtras, ParseScalar, Trim, StripQuotes, IsPlainVersion, IsPlain;
    var r := Parse(Join(Lines(m, keys)));
    if r == Ok(m) {
      ParsedIsReadable(Join(Lines(m, keys)));
    }
    if IsReadable(m) {
      LinesRead(m, keys);
      PlainVersionExactly(m.version);
      forall f | f in m.files
        ensures (Readable(f) && Reread(f) == f) <==> IsPlain(f.url) && IsPlain(f.sha512) && f.size < EXPONENT_FROM
      {
        PlainExactly(f.url);
        PlainExactly(f.sha512);
      }
      assert RereadAll(m.files) == m.files <==> forall f :: f in m.files ==> Reread(f) == f;
      ExtrasComeBack(m.extras);
    }
  }

  // Keys in increasing order; what comes out can be read back exactly if the manifest is printable.
  method Serialize(m: Manifest) returns (raw: string, keys: seq<string>)
    ensures IsSorted(keys) && AreKeys(keys, m.extras) && raw == Join(Lines(m, keys))
    ensures Parse(raw) == Ok(m) <==> IsPrintable(m)
  {
    hide Parse, IsPrintable, PrintScalar, Join, PrintSize, Quote;
    keys := Sorted(m.extras.Keys);
    var lines := ["version: " + m.version, "files:"];
    ghost var head := lines;
    for i := 0 to |m.files|
      invariant lines + FileLines(m.files[i..]) == head + FileLines(m.files)
    {
      var f := m.files[i];
      ghost var rest := FileLines(m.files[i + 1..]);
      ghost var three := [URL + " " + f.url, SHA512 + " " + f.sha512, SIZE + " " + PrintSize(f.size)];
      assert FileLines(m.files[i..]) == three + rest;
      assert lines + (three + rest) == (lines + three) + rest;
      lines := lines + [URL + " " + f.url, SHA512 + " " + f.sha512, SIZE + " " + PrintSize(f.size)];
    }
    assert lines == head + FileLines(m.files);
    head := lines;
    for i := 0 to |keys|
      invariant lines + ExtraLines(keys[i..], m.extras) == head + ExtraLines(keys, m.extras)
    {
      ghost var rest := ExtraLines(keys[i + 1..], m.extras);
      var line := keys[i] + ": " + PrintScalar(m.extras[keys[i]]);
      assert ExtraLines(keys[i..], m.extras) == [line] + rest;
      assert lines + ([line] + rest) == (lines + [line]) + rest;
      lines := lines + [line];
    }
    assert lines == head + ExtraLines(keys, m.extras);
    ParseSerialize(m, keys);
    raw := Join(lines + ["releaseDate: " + Quote(m.releaseDate), ""]);
  }

  // A manifest that was read need not be printable: a version that only quotes keep a plain string can
  // be read, but is printed without them.
  lemma QuotedVersionIsLost(m: Manifest, keys: seq<string>)
    requires IsReadable(m) && AreKeys(keys, m.extras) && !IsPlainVersion(m.version)
    requires forall f :: f in m.files ==> IsPlain(f.url) && IsPlain(f.sha512) && f.size < EXPONENT_FROM
    requires forall k :: k in m.extras ==> ComesBack(m.extras[k])
    ensures Parse(Join(Lines(m, keys)[0 := "version: " + Quote(m.version)])) == Ok(m)
    ensures Parse(Join(Lines(m, keys))) != Ok(m)
  {
    hide Parse, Lines, Join, OneLine, AreExtras, Trim, StripQuotes, IsPlainVersion, IsPlain;
    ParseSerialize(m, keys);
    forall f | f in m.files ensures Readable(f) && Reread(f) == f {
      PlainExactly(f.url);
      PlainExactly(f.sha512);
    }
    VersionLineReads(m, keys);
    ExtrasComeBack(m.extras);
    assert RereadAll(m.files) == m.files;
  }

  lemma VersionLineReads(m: Manifest, keys: seq<string>)
    requires IsReadable(m) && AreKeys(keys, m.extras) && forall f :: f in m.files ==> Readable(f)
    ensures Parse(Join(Lines(m, keys)[0 := "version: " + Quote(m.version)]))
         == Ok(Manifest(m.version, m.releaseDate, RereadAll(m.files), RereadExtras(m.extras)))
  {
    hide Step, Steps, PrintScalar, ParseScalar, Quote, OneLine, Trim, Readable, AreExtras, Reread, ExtraLines,
         FileLines, Finish, Lines;
    LinesAre(m, keys);
    var first := "version: " + Quote(m.version);
    var lines := Lines(m, keys)[0 := first];
    var tail := ExtraLines(keys, m.extras) + ["releaseDate: " + Quote(m.releaseDate), ""];
    LinesAreOneLine(m, keys);
    UnquoteQuote(m.version);
    ShortLines();
    OneLineSum("version: ", Quote(m.version));
    SplitJoin(lines);
    assert lines == [first] + (["files:"] + (FileLines(m.files) + tail));
    StepsFirst(START, first, ["files:"] + (FileLines(m.files) + tail));
    QuotedVersionLine(m.version);
    BodyRead(Step(START, first).value, m, keys);
  }

  lemma QuotedVersionLine(version: string)
    requires OneLine(version)
    ensures Step(START, "version: " + Quote(version)) == Ok(START.(version := Some(version)))
  {
    hide Step, PrintScalar, ParseScalar, OneLine, Trim, Quote;
    UnquoteQuote(version);
    ScalarRoundTrip(Str(version));
    QuoteIsPrinted(version);
    TrimmedStays(Quote(version));
    VersionLine(Quote(version));
  }

  // Nor a size of 1e21 or more, which can be read as digits, but is printed with an exponent. The printed
  // manifest is refused.
  lemma LargeSizeIsLost(m: Manifest, keys: seq<string>, f: File)
    requires IsReadable(m) && AreKeys(keys, m.extras) && IsPlainVersion(m.version)
    requires m.files == [f] && IsPlain(f.url) && IsPlain(f.sha512) && f.size >= EXPONENT_FROM
    requires forall k :: k in m.extras ==> ComesBack(m.extras[k])
    ensures |Lines(m, keys)| > 4 && Parse(Join(Lines(m, keys)[4 := SIZE + " " + Decimal(f.size)])) == Ok(m)
    ensures Parse(Join(Lines(m, keys))) == Err(IncompleteFile)
  {
    hide Parse, Lines, Join, OneLine, AreExtras, Trim, StripQuotes, IsPlainVersion, IsPlain, Decimal;
    PlainExactly(f.url);
    PlainExactly(f.sha512);
    PlainVersionExactly(m.version);
    DigitsManifest(m, keys, f);
    PrintedManifest(m, keys, f);
    ExtrasComeBack(m.extras);
  }

  // The lines of a manifest with one file, with any line for its size.
  function LinesWith(m: Manifest, keys: seq<string>, f: File, size: string): seq<string>
    requires forall k :: k in keys ==> k in m.extras
  {
    ["version: " + m.version] + (["files:"] + ([URL + " " + f.url, SHA512 + " " + f.sha512] + ([size]
    + (ExtraLines(keys, m.extras) + ["releaseDate: " + Quote(m.releaseDate), ""]))))
  }

  lemma OneFileLines(m: Manifest, keys: seq<string>, f: File, size: string)
    requires AreKeys(keys, m.extras) && m.files == [f]
    ensures |Lines(m, keys)| > 4 && Lines(m, keys)[4 := size] == LinesWith(m, keys, f, size)
    ensures Lines(m, keys) == LinesWith(m, keys, f, SIZE + " " + PrintSize(f.size))
  {
    hide Quote, ExtraLines, PrintSize;
    assert FileLines([f][1..]) == [];
  }

  // How such lines are read up to the size.
  lemma HeadRead(m: Manifest, keys: seq<string>, f: File, size: string)
    requires IsReadable(m) && AreKeys(keys, m.extras) && m.files == [f] && OneLine(size)
    requires Trim(m.version) != [] && ParseScalar(m.version) == Str(m.version)
    ensures var st := START.(version := Some(m.version), inFiles := true);
      var tail := ExtraLines(keys, m.extras) + ["releaseDate: " + Quote(m.releaseDate), ""];
      Steps(START, Split(Join(LinesWith(m, keys, f, size))))
      == Steps(st, [URL + " " + f.url, SHA512 + " " + f.sha512] + ([size] + tail))
  {
    hide Step, Steps, PrintScalar, ParseScalar, Quote, OneLine, Trim, AreExtras, ExtraLines, PrintSize;
    var first, lines := "version: " + m.version, LinesWith(m, keys, f, size);
    OneFileLines(m, keys, f, size);
    LinesAreOneLine(m, keys);
    SplitJoin(lines);
    VersionLine(m.version);
    var s1 := Step(START, first).value;
    FilesLine(s1);
    StepsFirst(START, first, lines[1..]);
    StepsFirst(s1, "files:", lines[2..]);
  }

  lemma DigitsManifest(m: Manifest, keys: seq<string>, f: File)
    requires IsReadable(m) && AreKeys(keys, m.extras) && m.files == [f] && Reread(f) == f
    requires Trim(f.url) != [] && Trim(f.sha512) != []
    requires Trim(m.version) != [] && ParseScalar(m.version) == Str(m.version)
    ensures |Lines(m, keys)| > 4
    ensures Parse(Join(Lines(m, keys)[4 := SIZE + " " + Decimal(f.size)])) == Ok(m.(extras := RereadExtras(m.extras)))
  {
    hide Step, Steps, ParseScalar, Quote, OneLine, Trim, AreExtras, ExtraLines, Lines, Decimal, Reread, Finish;
    var size, st := SIZE + " " + Decimal(f.size), START.(version := Some(m.version), inFiles := true);
    var tail := ExtraLines(keys, m.extras) + ["releaseDate: " + Quote(m.releaseDate), ""];
    OneFileLines(m, keys, f, size);
    ShortLines();
    DigitsArePlain(Decimal(f.size));
    OneLineSum(SIZE + " ", Decimal(f.size));
    HeadRead(m, keys, f, size);
    DigitsRead(st, f, tail);
    TailRead(AfterFile(st, f), m, keys);
    NothingRead(st);
    assert [] + [f] == [f];
    FinishOf(Steps(AfterFile(st, f), tail).value, [f]);
  }

  lemma PrintedManifest(m: Manifest, keys: seq<string>, f: File)
    requires IsReadable(m) && AreKeys(keys, m.extras) && m.files == [f] && f.size >= EXPONENT_FROM
    requires Trim(f.url) != [] && Trim(f.sha512) != []
    requires Trim(m.version) != [] && ParseScalar(m.version) == Str(m.version)
    ensures Parse(Join(Lines(m, keys))) == Err(IncompleteFile)
  {
    hide Step, Steps, ParseScalar, Quote, OneLine, Trim, AreExtras, ExtraLines, Lines, PrintSize, Finish;
    var size, st := SIZE + " " + PrintSize(f.size), START.(version := Some(m.version), inFiles := true);
    var tail := ExtraLines(keys, m.extras) + ["releaseDate: " + Quote(m.releaseDate), ""];
    OneFileLines(m, keys, f, size);
    ShortLines();
    SizeOneLine(f.size);
    OneLineSum(SIZE + " ", PrintSize(f.size));
    HeadRead(m, keys, f, size);
    assert FileLines([f][1..]) == [];
    assert FileLines([f]) + tail == [URL + " " + f.url, SHA512 + " " + f.sha512] + ([size] + tail);
    OneFile(st, f, tail);
  }

  // An entry whose size is written in digits, however many.
  lemma DigitsRead(st: State, f: File, rest: seq<string>)
    requires OneLine(f.url) && OneLine(f.sha512) && Finalized(st.files, st.current).Ok?
    requires Trim(f.url) != [] && Trim(f.sha512) != [] && Reread(f) == f
    ensures Steps(st, [URL + " " + f.url, SHA512 + " " + f.sha512] + ([SIZE + " " + Decimal(f.size)] + rest))
         == Steps(AfterFile(st, f), rest)
  {
    hide Step, Steps, Trim, OneLine, StripQuotes, Decimal, DecimalValue, Reread, AfterFile;
    var url, sha512, size := URL + " " + f.url, SHA512 + " " + f.sha512, SIZE + " " + Decimal(f.size);
    UrlAndSha(st, f);
    var s1 := Step(st, url).value;
    var s2 := Step(s1, sha512).value;
    assert [url, sha512] + ([size] + rest) == [url] + ([sha512] + ([size] + rest));
    StepsFirst(st, url, [sha512] + ([size] + rest));
    StepsFirst(s1, sha512, [size] + rest);
    StepsFirst(s2, size, rest);
    SizeLine(s2, f.size);
    DecimalRoundTrip(f.size);
  }
}
