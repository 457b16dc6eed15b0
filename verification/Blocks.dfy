/** The labelled-block parser (src/coding/extract.ts, `parseLabeledBlocks`). */
module Blocks {
  import opened Js
  import opened Text

  datatype File = File(path: JsString, content: JsString)

  const NEWLINE: Unit := 0x0a
  const EQUALS: Unit := 0x3d
  const FENCE: JsString := [0x60, 0x60, 0x60]

  predicate IsLineTerminator(u: Unit) { u == 0x0a || u == 0x0d || u == 0x2028 || u == 0x2029 }

  // ------------------------------------------------------------------------ lines

  predicate OneLine(s: JsString) { forall i :: 0 <= i < |s| ==> !IsLineTerminator(s[i]) }

  /** The info string of a line that opens a fence. */
  function FenceOpen(line: JsString): Option<JsString> {
    var s := TrimStart(line);
    if |s| >= 3 && s[..3] == FENCE && OneLine(s[3..]) then Some(s[3..]) else None
  }

  predicate FenceClose(line: JsString) { Trim(line) == FENCE }

  // -------------------------------------------------------------- marker lines

  const HASH: Unit := 0x23
  const STAR: Unit := 0x2a
  const TICK: Unit := 0x60

  /** The ASCII letter in lower case. */
  function Lower(u: Unit): Unit { if 0x41 <= u <= 0x5a then u + 0x20 else u }

  predicate StartsWithWord(s: JsString, word: JsString) {
    |s| >= |word| && forall i :: 0 <= i < |word| ==> Lower(s[i]) == word[i]
  }

  function SkipHashes(s: JsString): JsString {
    if s != [] && s[0] == HASH then SkipHashes(s[1..]) else s
  }

  predicate StartsWithStars(s: JsString) { |s| >= 2 && s[0] == STAR && s[1] == STAR }

  function SkipStars(s: JsString): JsString { if StartsWithStars(s) then s[2..] else s }

  /** What stands before the label: white space, hash signs, two stars, white space. */
  function SkipDecoration(line: JsString): JsString {
    var s := TrimStart(line);
    var t := if s != [] && s[0] == HASH then TrimStart(SkipHashes(s)) else s;
    TrimStart(SkipStars(t))
  }

  /** The text after the label `word` and its colon. */
  function AfterLabel(s: JsString, word: JsString): Option<JsString> {
    if !StartsWithWord(s, word) then None
    else
      var t := TrimStart(s[|word|..]);
      if t != [] && t[0] == COLON then Some(t[1..]) else None
  }

  /** The text after `File:`, `Filename:` or `Path:`, in any case. */
  function AfterMarker(s: JsString): Option<JsString> {
    if AfterLabel(s, Lit("file")).Some? then AfterLabel(s, Lit("file"))
    else if AfterLabel(s, Lit("filename")).Some? then AfterLabel(s, Lit("filename"))
    else AfterLabel(s, Lit("path"))
  }

  /** What may follow the path: a backtick, white space, two stars, white space. */
  predicate IsMarkerEnd(s: JsString) {
    var t := TrimStart(if s != [] && s[0] == TICK then s[1..] else s);
    TrimStart(SkipStars(t)) == []
  }

  /** The shortest path of at least `n` units, none a backtick or star, before a marker end. */
  function ShortestPath(s: JsString, n: nat): Option<JsString>
    requires 0 < n <= |s| + 1
    decreases |s| + 1 - n
  {
    if n > |s| || s[n - 1] == TICK || s[n - 1] == STAR then None
    else if IsMarkerEnd(s[n..]) then Some(s[..n])
    else ShortestPath(s, n + 1)
  }

  /** The path of a marker line, trimmed. A label followed by white space and then at once by a
      marker end counts as a marker with an empty path. */
  function MarkerPath(line: JsString): Option<JsString> {
    var rest := AfterMarker(SkipDecoration(line));
    if rest.None? then None
    else
      var s := TrimStart(rest.value);
      var path := ShortestPath(if s != [] && s[0] == TICK then s[1..] else s, 1);
      if path.Some? then Some(Trim(path.value))
      else if |s| < |rest.value| && IsMarkerEnd(s) then Some([])
      else None
  }

  /** A line that opens a fence is never a marker. */
  lemma FencesAreNotMarkers(line: JsString)
    requires FenceOpen(line).Some?
    ensures MarkerPath(line).None?
  {
    var s := TrimStart(line);
    assert s[0] == TICK && Lower(s[0]) == TICK && !IsSpace(s[0]);
    assert SkipDecoration(line) == s;
    MarkerInitials();
  }

  lemma MarkerInitials()
    ensures |Lit("file")| > 0 && Lit("file")[0] == 0x66
    ensures |Lit("filename")| > 0 && Lit("filename")[0] == 0x66
    ensures |Lit("path")| > 0 && Lit("path")[0] == 0x70
  {
  }

  // --------------------------------------------------------------- the info string

  function Keyword(s: JsString): nat {
    if StartsWithWord(s, Lit("path")) then 4
    else if StartsWithWord(s, Lit("file")) then 4
    else if StartsWithWord(s, Lit("title")) then 5
    else 0
  }

  predicate IsPathUnit(u: Unit) { u != QUOTE && !IsSpace(u) }

  /** The longest prefix free of quotes and white space. */
  function PathRun(s: JsString): JsString {
    if s != [] && IsPathUnit(s[0]) then [s[0]] + PathRun(s[1..]) else []
  }

  /** `path = "name`: a keyword, an equals sign and a value, starting at the first unit. */
  function ValueHere(s: JsString): Option<JsString> {
    var k := Keyword(s);
    if k == 0 || k > |s| then None
    else
      var t := TrimStart(s[k..]);
      if t == [] || t[0] != EQUALS then None
      else
        var v := TrimStart(t[1..]);
        var run := PathRun(if v != [] && v[0] == QUOTE then v[1..] else v);
        if run == [] then None else Some(run)
  }

  /** The leftmost such value. */
  function InfoPath(info: JsString): Option<JsString> {
    if ValueHere(info).Some? then ValueHere(info)
    else if info == [] then None
    else InfoPath(info[1..])
  }

  predicate IsWordUnit(u: Unit) {
    0x41 <= u <= 0x5a || 0x61 <= u <= 0x7a || 0x30 <= u <= 0x39 || u == 0x5f
  }

  predicate IsBareUnit(u: Unit) { IsWordUnit(u) || u == 0x2e || u == 0x2f || u == 0x2d }

  predicate BareSplitAt(info: JsString, k: nat) {
    && 0 < k < |info| - 1 && info[k] == 0x2e
    && (forall i :: 0 <= i < k ==> IsBareUnit(info[i]))
    && (forall i :: k < i < |info| ==> IsWordUnit(info[i]))
  }

  /** A bare file name such as `src/a.ts`. */
  predicate IsBarePath(info: JsString) {
    exists k :: 0 <= k < |info| && BareSplitAt(info, k)
  }

  /** The path of a block: info string first, then a bare name, then the pending marker. */
  function PathFor(info: JsString, pending: JsString): JsString {
    var named := InfoPath(info);
    if named.Some? then named.value
    else if IsBarePath(info) then info
    else pending
  }

  // ------------------------------------------------------------------- the parser

  /** The number of lines before the first closing fence, or of all lines. */
  function CloseIn(lines: seq<JsString>): (k: nat)
    ensures k <= |lines|
  {
    if lines == [] || FenceClose(lines[0]) then 0 else 1 + CloseIn(lines[1..])
  }

  /** The file of a block with this info string and body, if it has a path. */
  function BlockFile(info: JsString, body: seq<JsString>, pending: JsString): seq<File> {
    var path := PathFor(Trim(info), pending);
    if path == [] then [] else [File(path, Join(NEWLINE, body))]
  }

  function Drop(lines: seq<JsString>, k: nat): (r: seq<JsString>)
    ensures |r| <= |lines| && (k > 0 && lines != [] ==> |r| < |lines|)
  {
    if k <= |lines| then lines[k..] else []
  }

  /** The files of these lines; an empty `pending` is no pending path. */
  function ParseLines(lines: seq<JsString>, pending: JsString): seq<File>
    decreases |lines|
  {
    if lines == [] then []
    else if MarkerPath(lines[0]).Some? then ParseLines(lines[1..], MarkerPath(lines[0]).value)
    else if FenceOpen(lines[0]).None? then ParseLines(lines[1..], pending)
    else
      var k := CloseIn(lines[1..]);
      BlockFile(FenceOpen(lines[0]).value, lines[1..][..k], pending) + ParseLines(Drop(lines, k + 2), [])
  }

  function Parsed(text: JsString): seq<File> {
    ParseLines(Split(NEWLINE, text), [])
  }

  /** `parseLabeledBlocks`. */
  method ParseLabeledBlocks(text: JsString) returns (files: seq<File>)
    ensures files == Parsed(text)
  {
    hide BlockFile, MarkerPath, FenceOpen, ParseLines, Split, Parsed;
    files := [];
    var lines := Split(NEWLINE, text);
    var pendingPath: JsString := [];
    var i := 0;
    assert lines[0..] == lines;
    ParsedIs(text);
    while i < |lines|
      invariant 0 <= i <= |lines|
      invariant files + ParseLines(lines[i..], pendingPath) == Parsed(text)
    {
      var line := lines[i];
      LineStep(lines[i..], pendingPath);
      assert lines[i..][1..] == lines[i + 1..];
      if MarkerPath(line).Some? {
        pendingPath := MarkerPath(line).value;
        i := i + 1;
      } else if FenceOpen(line).None? {
        i := i + 1;
      } else {
        var body, j := CollectBlock(lines, i + 1);
        var block := BlockFile(FenceOpen(line).value, body, pendingPath);
        AddBlock(files, block, ParseLines(Drop(lines[i..], j - i + 1), []));
        files := files + block;
        DropAt(lines, i, j);
        pendingPath := [];
        i := if j == |lines| then j else j + 1;
      }
    }
    NoLines(lines[i..], pendingPath);
  }

  lemma ParsedIs(text: JsString)
    ensures [] + ParseLines(Split(NEWLINE, text), []) == Parsed(text)
  {
  }

  lemma NoLines(lines: seq<JsString>, pending: JsString)
    requires lines == []
    ensures ParseLines(lines, pending) == []
  {
  }

  lemma DropAt(lines: seq<JsString>, i: nat, j: nat)
    requires i < j <= |lines|
    ensures Drop(lines[i..], j - i + 1) == lines[if j == |lines| then j else j + 1..]
  {
  }

  lemma AddBlock(files: seq<File>, block: seq<File>, rest: seq<File>)
    ensures files + (block + rest) == (files + block) + rest
  {
  }

  /** One turn of the outer loop. */
  lemma LineStep(lines: seq<JsString>, pending: JsString)
    requires lines != []
    ensures ParseLines(lines, pending) ==
      if MarkerPath(lines[0]).Some? then ParseLines(lines[1..], MarkerPath(lines[0]).value)
      else if FenceOpen(lines[0]).None? then ParseLines(lines[1..], pending)
      else
        var k := CloseIn(lines[1..]);
        BlockFile(FenceOpen(lines[0]).value, lines[1..][..k], pending) + ParseLines(Drop(lines, k + 2), [])
  {
  }

  /** The inner loop: collect lines until the closing fence or the end of the text. */
  method CollectBlock(lines: seq<JsString>, start: nat) returns (body: seq<JsString>, j: nat)
    requires start <= |lines|
    ensures j == start + CloseIn(lines[start..]) && body == lines[start..][..j - start]
  {
    hide FenceClose;
    body := [];
    j := start;
    while j < |lines|
      invariant start <= j <= |lines|
      invariant body == lines[start..j] && start + CloseIn(lines[start..]) == j + CloseIn(lines[j..])
    {
      assert lines[j..][1..] == lines[j + 1..];
      assert CloseIn(lines[j..]) == if FenceClose(lines[j]) then 0 else 1 + CloseIn(lines[j..][1..]);
      if FenceClose(lines[j]) { break; }
      body := body + [lines[j]];
      j := j + 1;
    }
  }

  // ------------------------------------------------------------------- the printer

  /** A document: lines of prose, and files in labelled fences with a note before the label. */
  datatype Part = Prose(line: JsString) | Fenced(note: JsString, file: File)

  function InfoOf(note: JsString, path: JsString): JsString { note + Lit("path=") + path }

  function PrintPart(p: Part): seq<JsString> {
    match p
    case Prose(line) => [line]
    case Fenced(note, file) => [FENCE + InfoOf(note, file.path)] + Split(NEWLINE, file.content) + [FENCE]
  }

  function PrintLines(doc: seq<Part>): seq<JsString> {
    if doc == [] then [] else PrintPart(doc[0]) + PrintLines(doc[1..])
  }

  function Print(doc: seq<Part>): JsString { Join(NEWLINE, PrintLines(doc)) }

  function FilesOf(doc: seq<Part>): seq<File> {
    if doc == [] then []
    else (if doc[0].Fenced? then [doc[0].file] else []) + FilesOf(doc[1..])
  }

  /** A path without white space or quotes. */
  predicate PlainPath(path: JsString) { path != [] && forall i :: 0 <= i < |path| ==> IsPathUnit(path[i]) }

  ghost predicate NoFenceInside(content: JsString) {
    forall i :: 0 <= i < |Split(NEWLINE, content)| ==> !FenceClose(Split(NEWLINE, content)[i])
  }

  /** Prose may be anything but an opening fence, marker lines included. */
  predicate Printable(p: Part) {
    match p
    case Prose(line) => NEWLINE !in line && FenceOpen(line).None?
    case Fenced(note, file) => EQUALS !in note && OneLine(note) && PlainPath(file.path)
  }

  ghost predicate AllPrintable(doc: seq<Part>) { forall i :: 0 <= i < |doc| ==> Printable(doc[i]) }

  /** No line of the part's file closes a fence. */
  ghost predicate Intact(p: Part) { p.Fenced? ==> NoFenceInside(p.file.content) }

  // ---------------------------------------------------------------- main result

  lemma {:induction false} TrimStartSuffix(s: JsString) returns (c: nat)
    ensures c <= |s| && TrimStart(s) == s[c..] && forall i :: 0 <= i < c ==> IsSpace(s[i])
  {
    c := 0;
    if s != [] && IsSpace(s[0]) {
      c := TrimStartSuffix(s[1..]);
      assert s == [s[0]] + s[1..];
      c := c + 1;
    }
  }

  lemma {:induction false} PathRunWhole(path: JsString)
    requires forall i :: 0 <= i < |path| ==> IsPathUnit(path[i])
    ensures PathRun(path) == path
  {
    if path != [] { PathRunWhole(path[1..]); }
  }

  lemma LabelUnits()
    ensures Lit("path=") == [0x70, 0x61, 0x74, 0x68, EQUALS]
    ensures Lit("path") == [0x70, 0x61, 0x74, 0x68]
    ensures Lit("file") == [0x66, 0x69, 0x6c, 0x65]
    ensures Lit("title") == [0x74, 0x69, 0x74, 0x6c, 0x65]
  {
  }

  lemma ValueAtLabel(path: JsString)
    requires PlainPath(path)
    ensures ValueHere(Lit("path=") + path) == Some(path)
  {
    var s := Lit("path=") + path;
    LabelUnits();
    hide Lit;
    assert StartsWithWord(s, Lit("path"));
    assert s[4..] == [EQUALS] + path;
    assert s[4..][1..] == path;
    PathRunWhole(path);
  }

  lemma KeywordLength(s: JsString)
    ensures Keyword(s) == 0 || Keyword(s) == 4 || (Keyword(s) == 5 && |s| > 1 && Lower(s[1]) == 0x69)
  {
    LabelUnits();
    hide Lit;
    assert StartsWithWord(s, Lit("title")) ==> Lower(s[1]) == Lit("title")[1];
  }

  lemma LabelAfterNote(note: JsString, path: JsString)
    requires EQUALS !in note
    ensures var s, n := InfoOf(note, path), |note|;
      && |s| >= n + 5 && s[n] == 0x70 && !IsSpace(s[n + 3]) && s[n + 4] == EQUALS
      && forall i :: 0 <= i < n + 4 ==> s[i] != EQUALS
  {
    LabelUnits();
    hide Lit;
    var s := InfoOf(note, path);
    assert forall i :: 0 <= i < |note| ==> s[i] == note[i];
  }

  /** No value starts inside a note without an equals sign. */
  lemma NoValueInNote(note: JsString, path: JsString)
    requires note != [] && EQUALS !in note
    ensures ValueHere(InfoOf(note, path)).None?
  {
    var s, n := InfoOf(note, path), |note|;
    LabelAfterNote(note, path);
    KeywordLength(s);
    hide Keyword, InfoOf, PathRun;
    var k := Keyword(s);
    if k != 0 && k <= |s| {
      NoEqualsAfterWord(s, n, k);
    }
  }

  lemma NoEqualsAfterWord(s: JsString, n: nat, k: nat)
    requires n > 0 && |s| >= n + 5 && s[n] == 0x70 && !IsSpace(s[n + 3]) && s[n + 4] == EQUALS
    requires forall i :: 0 <= i < n + 4 ==> s[i] != EQUALS
    requires k <= |s| && (k == 4 || (k == 5 && Lower(s[1]) == 0x69))
    ensures var t := TrimStart(s[k..]); t == [] || t[0] != EQUALS
  {
    var u := s[k..];
    assert k <= n + 3 ==> u[n + 3 - k] == s[n + 3];
    assert k <= n + 4 ==> u[n + 4 - k] == s[n + 4];
    var c := TrimStartSuffix(u);
    assert u[c..] == s[k + c..];
  }

  /** The label is found whatever note precedes it. */
  lemma {:induction false} LabelFound(note: JsString, path: JsString)
    requires EQUALS !in note && PlainPath(path)
    ensures InfoPath(InfoOf(note, path)) == Some(path)
  {
    hide ValueHere;
    if note == [] {
      ValueAtLabel(path);
      assert InfoOf(note, path) == Lit("path=") + path;
    } else {
      NoValueInNote(note, path);
      LabelFound(note[1..], path);
      assert InfoOf(note, path)[1..] == InfoOf(note[1..], path);
    }
  }

  lemma LabelledPath(note: JsString, path: JsString, pending: JsString)
    requires EQUALS !in note && PlainPath(path)
    ensures PathFor(Trim(InfoOf(note, path)), pending) == path
  {
    TrimmedInfo(note, path);
    TrimStartUnits(note);
    hide Trim, TrimStart, InfoOf, InfoPath;
    LabelFound(TrimStart(note), path);
  }

  /** Trimming takes white space off the note alone. */
  lemma TrimmedInfo(note: JsString, path: JsString)
    requires PlainPath(path)
    ensures Trim(InfoOf(note, path)) == InfoOf(TrimStart(note), path)
  {
    hide InfoOf, Lit, Trim, TrimStart, IsSpace;
    LabelEnds(path);
    TrimPrefix(note, Lit("path=") + path);
    InfoIs(note, path);
    InfoIs(TrimStart(note), path);
  }

  lemma InfoIs(note: JsString, path: JsString)
    ensures InfoOf(note, path) == note + (Lit("path=") + path)
  {
  }

  lemma LabelEnds(path: JsString)
    requires PlainPath(path)
    ensures var tail := Lit("path=") + path;
      tail != [] && !IsSpace(tail[0]) && !IsSpace(tail[|tail| - 1])
  {
    LabelUnits();
    hide Lit;
    var tail := Lit("path=") + path;
    assert tail[|tail| - 1] == path[|path| - 1];
  }

  lemma OpeningLine(note: JsString, path: JsString)
    requires OneLine(note) && PlainPath(path)
    ensures FenceOpen(FENCE + InfoOf(note, path)) == Some(InfoOf(note, path))
  {
    LabelUnits();
    hide Lit;
    var info := InfoOf(note, path);
    assert (FENCE + info)[3..] == info;
  }

  lemma FenceCloses()
    ensures FenceClose(FENCE)
  {
    TrimPrefix([], FENCE);
    assert [] + FENCE == FENCE;
  }

  lemma {:induction false} CloseAfter(body: seq<JsString>, rest: seq<JsString>)
    requires forall i :: 0 <= i < |body| ==> !FenceClose(body[i])
    ensures CloseIn(body + [FENCE] + rest) == |body|
  {
    hide FenceClose;
    FenceCloses();
    var all := body + [FENCE] + rest;
    if body != [] {
      CloseAfter(body[1..], rest);
      assert all[1..] == body[1..] + [FENCE] + rest;
    }
  }

  /** A printed block comes back as its file, and parsing goes on after it. */
  lemma FencedParses(note: JsString, file: File, rest: seq<JsString>, pending: JsString)
    requires Printable(Fenced(note, file)) && NoFenceInside(file.content)
    ensures ParseLines(PrintPart(Fenced(note, file)) + rest, pending) == [file] + ParseLines(rest, [])
  {
    var body, open := Split(NEWLINE, file.content), FENCE + InfoOf(note, file.path);
    var lines := PrintPart(Fenced(note, file)) + rest;
    OpeningLine(note, file.path);
    CloseAfter(body, rest);
    FencesAreNotMarkers(open);
    FencedText(note, file, rest);
    hide MarkerPath, FenceOpen, FenceClose, InfoOf, PathFor, Split, Join, CloseIn, PrintPart, Trim;
    LabelledPath(note, file.path, pending);
    JoinSplit(NEWLINE, file.content);
    LineStep(lines, pending);
  }

  lemma FencedText(note: JsString, file: File, rest: seq<JsString>)
    ensures var body, lines := Split(NEWLINE, file.content), PrintPart(Fenced(note, file)) + rest;
      && lines != [] && lines[0] == FENCE + InfoOf(note, file.path)
      && lines[1..] == body + [FENCE] + rest && lines[1..][..|body|] == body
      && Drop(lines, |body| + 2) == rest
  {
    hide Split, InfoOf;
    var body, open := Split(NEWLINE, file.content), FENCE + InfoOf(note, file.path);
    var lines := PrintPart(Fenced(note, file)) + rest;
    assert lines == [open] + (body + [FENCE] + rest);
  }

  /** The pending path once the part is read. */
  function PendingAfter(p: Part, pending: JsString): JsString {
    match p
    case Prose(line) => OrPending(MarkerPath(line), pending)
    case Fenced(_, _) => []
  }

  function OrPending(marker: Option<JsString>, pending: JsString): JsString {
    if marker.Some? then marker.value else pending
  }

  lemma PartParses(p: Part, rest: seq<JsString>, pending: JsString)
    requires Printable(p) && Intact(p)
    ensures ParseLines(PrintPart(p) + rest, pending)
      == FilesOf([p]) + ParseLines(rest, PendingAfter(p, pending))
  {
    OnePart(p);
    match p
    case Prose(line) =>
      hide FenceOpen, MarkerPath;
      assert (PrintPart(p) + rest)[1..] == rest;
    case Fenced(note, file) =>
      FencedParses(note, file, rest, pending);
  }

  lemma OnePart(p: Part)
    ensures FilesOf([p]) == if p.Fenced? then [p.file] else []
    ensures FilesOf([p]) + [] == FilesOf([p])
  {
    assert FilesOf([p][1..]) == [];
  }

  lemma PartFree(p: Part)
    requires Printable(p)
    ensures Free(NEWLINE, PrintPart(p)) && PrintPart(p) != []
  {
    if p.Fenced? { OneLabelledLine(p.note, p.file); }
  }

  lemma {:induction false} LinesFree(doc: seq<Part>)
    requires AllPrintable(doc)
    ensures Free(NEWLINE, PrintLines(doc)) && (doc != [] ==> PrintLines(doc) != [])
  {
    hide Printable, PrintPart;
    if doc != [] {
      PartFree(doc[0]);
      LinesFree(doc[1..]);
    }
  }

  lemma HeadAndRest(doc: seq<Part>)
    requires doc != []
    ensures PrintLines(doc) == PrintPart(doc[0]) + PrintLines(doc[1..])
    ensures FilesOf(doc) == FilesOf([doc[0]]) + FilesOf(doc[1..])
  {
    OnePart(doc[0]);
  }

  /** Whatever path is pending, the printed lines parse to the document's files exactly when no
      file is cut short. */
  lemma {:induction false} LinesParseIff(doc: seq<Part>, pending: JsString)
    requires AllPrintable(doc)
    ensures ParseLines(PrintLines(doc), pending) == FilesOf(doc) <==> forall i :: 0 <= i < |doc| ==> Intact(doc[i])
  {
    hide Printable, PrintPart, ParseLines, PendingAfter, Intact, PrintLines, FilesOf;
    if doc == [] {
      NothingPrinted(pending);
    } else {
      var head, rest := doc[0], doc[1..];
      HeadAndRest(doc);
      if Intact(head) {
        PartParses(head, PrintLines(rest), pending);
        LinesParseIff(rest, PendingAfter(head, pending));
        assert forall i :: 0 < i < |doc| ==> doc[i] == rest[i - 1];
        Cancels(FilesOf([head]), ParseLines(PrintLines(rest), PendingAfter(head, pending)), FilesOf(rest));
      } else {
        PartCutShort(head, PrintLines(rest), pending, FilesOf(rest));
      }
    }
  }

  lemma NothingPrinted(pending: JsString)
    ensures ParseLines(PrintLines([]), pending) == FilesOf([])
  {
  }

  lemma Cancels(a: seq<File>, b: seq<File>, c: seq<File>)
    ensures a + b == a + c <==> b == c
  {
    assert (a + b)[|a|..] == b && (a + c)[|a|..] == c;
  }

  lemma NothingParsed()
    ensures ParseLines([[]], []) == []
  {
  }

  lemma {:induction false} JoinShorter(parts: seq<JsString>, k: nat)
    requires k < |parts| && (k == 0 ==> parts[0] != [])
    ensures |Join(NEWLINE, parts[..k])| < |Join(NEWLINE, parts)|
  {
    if k > 1 {
      JoinShorter(parts[1..], k - 1);
      assert parts[..k][1..] == parts[1..][..k - 1];
    }
  }

  lemma {:induction false} ClosesEarly(body: seq<JsString>, rest: seq<JsString>)
    requires exists i :: 0 <= i < |body| && FenceClose(body[i])
    ensures CloseIn(body + rest) < |body| && FenceClose(body[CloseIn(body + rest)])
  {
    hide FenceClose;
    if !FenceClose(body[0]) {
      assert body == [body[0]] + body[1..];
      var i :| 0 <= i < |body| && FenceClose(body[i]);
      assert body[1..][i - 1] == body[i];
      ClosesEarly(body[1..], rest);
      assert (body + rest)[1..] == body[1..] + rest;
    }
  }

  lemma BodyCutShort(content: JsString, rest: seq<JsString>)
    requires !NoFenceInside(content)
    ensures var body := Split(NEWLINE, content); var k := CloseIn(body + [FENCE] + rest);
      k < |body| && |Join(NEWLINE, body[..k])| < |content|
  {
    hide FenceClose, Split, Join, CloseIn;
    var body := Split(NEWLINE, content);
    ClosesEarly(body, [FENCE] + rest);
    FenceNotEmpty();
    assert body + [FENCE] + rest == body + ([FENCE] + rest);
    JoinShorter(body, CloseIn(body + [FENCE] + rest));
    JoinSplit(NEWLINE, content);
  }

  /** A file with a closing fence inside loses what follows it. */
  lemma CutShort(note: JsString, file: File, rest: seq<JsString>, pending: JsString)
    requires Printable(Fenced(note, file)) && !NoFenceInside(file.content)
    ensures var files := ParseLines(PrintPart(Fenced(note, file)) + rest, pending);
      files != [] && files[0] != file
  {
    hide MarkerPath, FenceOpen, FenceClose, InfoOf, PathFor, Split, Join, CloseIn, Trim;
    hide PrintPart, ParseLines, NoFenceInside;
    var body, open := Split(NEWLINE, file.content), FENCE + InfoOf(note, file.path);
    var lines := PrintPart(Fenced(note, file)) + rest;
    OpeningLine(note, file.path);
    LabelledPath(note, file.path, pending);
    FencesAreNotMarkers(open);
    FencedText(note, file, rest);
    FirstBlock(lines, InfoOf(note, file.path), file.path, pending);
    BodyCutShort(file.content, rest);
    var k := CloseIn(body + [FENCE] + rest);
    assert lines[1..][..k] == body[..k];
  }

  lemma PartCutShort(p: Part, rest: seq<JsString>, pending: JsString, more: seq<File>)
    requires Printable(p) && !Intact(p)
    ensures ParseLines(PrintPart(p) + rest, pending) != FilesOf([p]) + more
  {
    hide ParseLines, PrintPart, NoFenceInside;
    CutShort(p.note, p.file, rest, pending);
    OnePart(p);
  }

  lemma FirstBlock(lines: seq<JsString>, info: JsString, path: JsString, pending: JsString)
    requires lines != [] && MarkerPath(lines[0]).None? && FenceOpen(lines[0]) == Some(info)
    requires path != [] && PathFor(Trim(info), pending) == path
    ensures ParseLines(lines, pending) != []
    ensures ParseLines(lines, pending)[0] == File(path, Join(NEWLINE, lines[1..][..CloseIn(lines[1..])]))
  {
    hide MarkerPath, FenceOpen, PathFor, Join, CloseIn;
    LineStep(lines, pending);
  }

  lemma FenceNotEmpty()
    ensures !FenceClose([])
  {
  }

  /** Files in labelled fences, with any prose between them, come back in order and with identical
      content exactly when no line of any content is itself a closing fence. */
  lemma SurvivesIffNoFenceInside(doc: seq<Part>)
    requires AllPrintable(doc)
    ensures Parsed(Print(doc)) == FilesOf(doc) <==> forall i :: 0 <= i < |doc| ==> Intact(doc[i])
  {
    hide ParseLines, Printable, Intact;
    if doc == [] {
      NothingParsed();
    } else {
      LinesFree(doc);
      SplitJoin(NEWLINE, PrintLines(doc));
      LinesParseIff(doc, []);
    }
  }

  /** Parsing undoes printing. */
  lemma ParseUndoesPrint(doc: seq<Part>)
    requires AllPrintable(doc) && forall i :: 0 <= i < |doc| ==> Intact(doc[i])
    ensures Parsed(Print(doc)) == FilesOf(doc)
  {
    hide Parsed, Print;
    SurvivesIffNoFenceInside(doc);
  }

  lemma OneLabelledLine(note: JsString, file: File)
    requires OneLine(note) && PlainPath(file.path)
    ensures Free(NEWLINE, PrintPart(Fenced(note, file)))
  {
    LabelUnits();
    hide Lit;
    SplitFree(NEWLINE, file.content);
    assert NEWLINE !in InfoOf(note, file.path);
  }
}
