/** Where validated files end up (src/coding/workspace.ts), with POSIX path rules. */
module Workspace {
  import opened Blocks
  import opened Extract
  import opened Js
  import opened Order
  import opened Text

  // ------------------------------------------------------------- absolute paths

  /** A directory entry name, after which a path goes on. */
  predicate IsName(s: JsString) { s != [] && s != [DOT] && s != [DOT, DOT] && SLASH !in s }

  ghost predicate AreNames(names: seq<JsString>) {
    forall i :: 0 <= i < |names| ==> IsName(names[i])
  }

  /** One segment further: empty and `.` stay, `..` goes up. */
  function Enter(at: seq<JsString>, segment: JsString): seq<JsString> {
    if segment == [] || segment == [DOT] then at
    else if segment == [DOT, DOT] then (if at == [] then [] else at[..|at| - 1])
    else at + [segment]
  }

  function Walk(at: seq<JsString>, segments: seq<JsString>): seq<JsString>
    decreases segments
  {
    if segments == [] then at else Walk(Enter(at, segments[0]), segments[1..])
  }

  /** The text of an absolute path without `.`, `..` or empty segments. */
  function Render(names: seq<JsString>): JsString { [SLASH] + Join(SLASH, names) }

  /** `resolve` of an absolute path. */
  function Resolve(path: JsString): JsString { Render(Walk([], Split(SLASH, path))) }

  /** `join(dir, path)` of an absolute directory. */
  function JoinPath(dir: JsString, path: JsString): JsString { Resolve(dir + [SLASH] + path) }

  /** `assertWithinRoot` does not throw. */
  predicate WithinRoot(root: JsString, child: JsString) {
    Resolve(child) == Resolve(root) || StartsWith(Resolve(child), Resolve(root) + [SLASH])
  }

  lemma {:induction false} WalkNames(at: seq<JsString>, names: seq<JsString>)
    requires AreNames(names)
    ensures Walk(at, names) == at + names
    decreases names
  {
    if names == [] {
      assert at + names == at;
    } else {
      WalkNames(at + [names[0]], names[1..]);
      assert at + [names[0]] + names[1..] == at + names;
    }
  }

  lemma {:induction false} WalkAppend(at: seq<JsString>, s: seq<JsString>, t: seq<JsString>)
    ensures Walk(at, s + t) == Walk(Walk(at, s), t)
    decreases |s|
  {
    if s == [] {
      assert s + t == t;
    } else {
      assert (s + t)[1..] == s[1..] + t;
      WalkAppend(Enter(at, s[0]), s[1..], t);
    }
  }

  lemma SplitAppend(a: JsString, b: JsString)
    ensures Split(SLASH, a + [SLASH] + b) == Split(SLASH, a) + Split(SLASH, b)
  {
    hide Split, Join;
    var s, t := Split(SLASH, a), Split(SLASH, b);
    SplitFree(SLASH, a);
    SplitFree(SLASH, b);
    JoinSplit(SLASH, a);
    JoinSplit(SLASH, b);
    JoinGrows(s, t);
    SplitJoin(SLASH, s + t);
  }

  lemma NamesFree(names: seq<JsString>)
    requires AreNames(names)
    ensures Free(SLASH, names)
  {
  }

  lemma SplitRender(names: seq<JsString>)
    requires AreNames(names) && names != []
    ensures Split(SLASH, Render(names)) == [[]] + names
  {
    NamesFree(names);
    SplitJoin(SLASH, names);
    var text := Render(names);
    assert text[1..] == Join(SLASH, names);
  }

  lemma ResolveRendered(names: seq<JsString>)
    requires AreNames(names) && names != []
    ensures Resolve(Render(names)) == Render(names)
    ensures Walk([], Split(SLASH, Render(names))) == names
  {
    SplitRender(names);
    WalkNames([], names);
    assert ([[]] + names)[1..] == names;
    assert [] + names == names;
  }

  /** Different locations have different texts. */
  lemma RenderInjective(a: seq<JsString>, b: seq<JsString>)
    requires AreNames(a) && AreNames(b) && a != [] && b != [] && Render(a) == Render(b)
    ensures a == b
  {
    ResolveRendered(a);
    ResolveRendered(b);
  }

  // ----------------------------------------------------------------- main results

  lemma SafeSegments(path: JsString)
    requires ValidateRelPath(path).None?
    ensures AreNames(Split(SLASH, path))
  {
    AcceptedIffSafe(path);
    SplitFree(SLASH, path);
    var segments := Split(SLASH, path);
    hide ValidateRelPath, Split, Trim;
    forall i | 0 <= i < |segments| ensures IsName(segments[i]) {
      assert segments[i] in segments;
    }
  }

  /** A validated path lands at the root plus its own segments, unchanged by normalization. */
  lemma DestinationIsRootPlusSegments(root: seq<JsString>, path: JsString)
    requires AreNames(root) && root != [] && ValidateRelPath(path).None?
    ensures JoinPath(Render(root), path) == Render(root + Split(SLASH, path))
    ensures AreNames(root + Split(SLASH, path))
  {
    var segments := Split(SLASH, path);
    SafeSegments(path);
    SplitAppend(Render(root), path);
    SplitRender(root);
    WalkAppend([], [[]] + root, segments);
    hide ValidateRelPath;
    assert ([[]] + root)[1..] == root;
    WalkNames([], root);
    assert [] + root == root;
    WalkNames(root, segments);
  }

  lemma {:induction false} JoinGrows(a: seq<JsString>, b: seq<JsString>)
    requires a != [] && b != []
    ensures Join(SLASH, a + b) == Join(SLASH, a) + [SLASH] + Join(SLASH, b)
  {
    if |a| == 1 {
      assert (a + b)[1..] == b;
    } else {
      JoinGrows(a[1..], b);
      assert (a + b)[1..] == a[1..] + b;
    }
  }

  ghost predicate IsPrefix(a: seq<JsString>, b: seq<JsString>) { |a| <= |b| && b[..|a|] == a }

  /** The textual root check means what it should: the child is the root or below it. */
  lemma RootCheckIsPrefix(root: seq<JsString>, child: seq<JsString>)
    requires AreNames(root) && AreNames(child) && root != [] && child != []
    ensures WithinRoot(Render(root), Render(child)) <==> IsPrefix(root, child)
  {
    ResolveRendered(root);
    ResolveRendered(child);
    if IsPrefix(root, child) {
      var rest := child[|root|..];
      assert child == root + rest;
      if rest != [] {
        JoinGrows(root, rest);
        assert StartsWith(Render(child), Render(root) + [SLASH]);
      } else {
        assert child == root;
      }
    } else if Render(child) == Render(root) {
      RenderInjective(root, child);
    } else if StartsWith(Render(child), Render(root) + [SLASH]) {
      TextPrefix(root, child);
    }
  }

  lemma TextPrefix(root: seq<JsString>, child: seq<JsString>)
    requires AreNames(root) && AreNames(child) && root != [] && child != []
    requires StartsWith(Render(child), Render(root) + [SLASH])
    ensures IsPrefix(root, child)
  {
    var text, below := Render(child), Render(root) + [SLASH];
    SplitRender(root);
    SplitRender(child);
    hide Split, Render, AreNames;
    var tail := text[|below|..];
    assert text == below + tail;
    SplitAppend(Render(root), tail);
    PrefixOfSplit(root, child, Split(SLASH, tail));
  }

  lemma PrefixOfSplit(root: seq<JsString>, child: seq<JsString>, rest: seq<JsString>)
    requires [[]] + child == [[]] + root + rest
    ensures IsPrefix(root, child)
  {
    assert child == ([[]] + child)[1..];
    assert root + rest == ([[]] + root + rest)[1..];
  }

  /** The root check never throws for a validated path. */
  lemma ValidatedStaysInside(root: seq<JsString>, path: JsString)
    requires AreNames(root) && root != [] && ValidateRelPath(path).None?
    ensures WithinRoot(Render(root), JoinPath(Render(root), path))
  {
    DestinationIsRootPlusSegments(root, path);
    RootCheckIsPrefix(root, root + Split(SLASH, path));
  }

  /** Distinct validated paths have distinct destinations. */
  lemma DestinationsDiffer(root: seq<JsString>, p: JsString, q: JsString)
    requires AreNames(root) && root != [] && ValidateRelPath(p).None? && ValidateRelPath(q).None?
    ensures JoinPath(Render(root), p) == JoinPath(Render(root), q) <==> p == q
  {
    DestinationIsRootPlusSegments(root, p);
    DestinationIsRootPlusSegments(root, q);
    hide ValidateRelPath, JoinPath;
    if JoinPath(Render(root), p) == JoinPath(Render(root), q) {
      var a, b := root + Split(SLASH, p), root + Split(SLASH, q);
      RenderInjective(a, b);
      assert Split(SLASH, p) == a[|root|..] && Split(SLASH, q) == b[|root|..];
      JoinSplit(SLASH, p);
      JoinSplit(SLASH, q);
    }
  }

  // ------------------------------------------------------------- writing the files

  /** A location as the names on the way to it. */
  type Location = seq<JsString>

  /** What is on disk: files with their content, and directories. */
  datatype Disk = Disk(files: map<Location, JsString>, dirs: set<Location>)

  function LocationOf(path: JsString): Location { Walk([], Split(SLASH, path)) }

  /** The directories on the way to `d`. */
  function Parents(d: Location): set<Location> { set k | 0 < k < |d| :: d[..k] }

  /** Creating the directories on the way fails if one of them is a file. */
  predicate Blocked(disk: Disk, d: Location) { exists k :: 0 < k < |d| && d[..k] in disk.files }

  predicate Taken(disk: Disk, d: Location) { d in disk.files || d in disk.dirs }

  /** Create the parents, then the file itself unless something is there. */
  function Write(disk: Disk, d: Location, content: JsString): Disk {
    var more := disk.(dirs := disk.dirs + Parents(d));
    if Taken(more, d) then more else more.(files := disk.files[d := content])
  }

  predicate Below(p: Location, d: Location) { 0 < |p| < |d| && d[..|p|] == p }

  lemma ParentsAreAbove(d: Location)
    ensures forall p :: p in Parents(d) <==> Below(p, d)
  {
    forall p | Below(p, d) ensures p in Parents(d) {
      assert d[..|p|] in Parents(d);
    }
  }

  lemma BlockedMeans(disk: Disk, d: Location)
    ensures Blocked(disk, d) <==> exists p :: Below(p, d) && p in disk.files
  {
    if Blocked(disk, d) {
      var k :| 0 < k < |d| && d[..k] in disk.files;
      assert Below(d[..k], d);
    }
    if exists p :: Below(p, d) && p in disk.files {
      var p :| Below(p, d) && p in disk.files;
      assert d[..|p|] in disk.files;
    }
  }

  /** `p` was a directory before, or one of the first `n` writes lies below it. */
  ghost predicate NeedsDirectory(disk: Disk, todo: seq<(Location, JsString)>, n: nat, p: Location) {
    p in disk.dirs || exists k :: 0 <= k < n && k < |todo| && Below(p, todo[k].0)
  }

  /** Write `i` creates its file: there was none, and no earlier write needs a directory there. */
  ghost predicate Creates(disk: Disk, todo: seq<(Location, JsString)>, i: nat)
    requires i < |todo|
  {
    todo[i].0 !in disk.files && !NeedsDirectory(disk, todo, i, todo[i].0)
  }

  ghost predicate DifferentLocations(todo: seq<(Location, JsString)>) {
    forall i, j :: 0 <= i < j < |todo| ==> todo[i].0 != todo[j].0
  }

  /** `p` is a file after `n` writes: it was one, or one of them created it. */
  ghost predicate IsFileAfter(disk: Disk, todo: seq<(Location, JsString)>, n: nat, p: Location) {
    p in disk.files || exists i :: 0 <= i < n && i < |todo| && todo[i].0 == p && Creates(disk, todo, i)
  }

  /** Write `j` needs a directory where there is a file by then. */
  ghost predicate Conflict(disk: Disk, todo: seq<(Location, JsString)>, j: nat)
    requires j < |todo|
  {
    exists p :: Below(p, todo[j].0) && IsFileAfter(disk, todo, j, p)
  }

  ghost predicate NoConflict(disk: Disk, todo: seq<(Location, JsString)>, n: nat) {
    forall j :: 0 <= j < n && j < |todo| ==> !Conflict(disk, todo, j)
  }

  /** Exactly the expected files and directories, old content untouched, new content in place. */
  ghost predicate Exactly(disk: Disk, todo: seq<(Location, JsString)>, n: nat, after: Disk) {
    && (forall p :: p in after.dirs <==> NeedsDirectory(disk, todo, n, p))
    && (forall p :: p in after.files <==> IsFileAfter(disk, todo, n, p))
    && (forall p :: p in disk.files ==> p in after.files && after.files[p] == disk.files[p])
    && (forall i :: 0 <= i < n && i < |todo| && Creates(disk, todo, i) ==>
        todo[i].0 in after.files && after.files[todo[i].0] == todo[i].1)
  }

  /** One more write needs the directories above it and may create one file. */
  lemma NeedsOneMore(disk: Disk, todo: seq<(Location, JsString)>, n: nat, p: Location)
    requires n < |todo|
    ensures NeedsDirectory(disk, todo, n + 1, p) <==> NeedsDirectory(disk, todo, n, p) || Below(p, todo[n].0)
  {
  }

  lemma FilesOneMore(disk: Disk, todo: seq<(Location, JsString)>, n: nat, p: Location)
    requires n < |todo|
    ensures IsFileAfter(disk, todo, n + 1, p)
      <==> IsFileAfter(disk, todo, n, p) || (p == todo[n].0 && Creates(disk, todo, n))
  {
    hide Creates;
  }

  lemma BlockedIffConflict(disk: Disk, todo: seq<(Location, JsString)>, n: nat, before: Disk)
    requires n < |todo| && Exactly(disk, todo, n, before)
    ensures Blocked(before, todo[n].0) <==> Conflict(disk, todo, n)
  {
    BlockedMeans(before, todo[n].0);
    hide IsFileAfter, NeedsDirectory, Creates, Blocked, Below;
  }

  lemma CreatesIffFree(disk: Disk, todo: seq<(Location, JsString)>, n: nat, before: Disk)
    requires n < |todo| && DifferentLocations(todo) && Exactly(disk, todo, n, before)
    ensures var d := todo[n].0; Creates(disk, todo, n) <==> !Taken(before.(dirs := before.dirs + Parents(d)), d)
  {
    var d := todo[n].0;
    ParentsAreAbove(d);
    assert d !in Parents(d);
    assert IsFileAfter(disk, todo, n, d) <==> d in disk.files;
  }

  lemma WriteExactly(disk: Disk, todo: seq<(Location, JsString)>, n: nat, before: Disk)
    requires n < |todo| && DifferentLocations(todo) && Exactly(disk, todo, n, before)
    ensures Exactly(disk, todo, n + 1, Write(before, todo[n].0, todo[n].1))
  {
    var d := todo[n].0;
    ParentsAreAbove(d);
    CreatesIffFree(disk, todo, n, before);
    hide Creates, NeedsDirectory, IsFileAfter, Parents, Below;
    forall p ensures NeedsDirectory(disk, todo, n + 1, p) <==> NeedsDirectory(disk, todo, n, p) || Below(p, d) {
      NeedsOneMore(disk, todo, n, p);
    }
    forall p
      ensures IsFileAfter(disk, todo, n + 1, p)
        <==> IsFileAfter(disk, todo, n, p) || (p == d && Creates(disk, todo, n))
    {
      FilesOneMore(disk, todo, n, p);
    }
  }

  lemma NothingWritten(disk: Disk, todo: seq<(Location, JsString)>)
    ensures Exactly(disk, todo, 0, disk)
  {
  }

  // -------------------------------------------------------------- the extracted files

  /** Valid, pairwise different paths, as extraction delivers them. */
  ghost predicate Accepted(files: seq<File>) {
    && (forall i :: 0 <= i < |files| ==> ValidateRelPath(files[i].path).None?)
    && DifferentPaths(files)
  }

  lemma ExtractionAccepts(limits: Limits, raw: seq<File>)
    ensures Accepted(Extracted(limits, START, raw).files)
  {
    StartWithinLimits(limits);
    ExtractionKeepsLimits(limits, START, raw);
  }

  function ToWrite(root: Location): File -> (Location, JsString) {
    (f: File) => (root + Split(SLASH, f.path), f.content)
  }

  function Todo(root: Location, files: seq<File>): seq<(Location, JsString)> { Map(ToWrite(root), files) }

  lemma TodoDiffers(root: Location, files: seq<File>)
    requires Accepted(files)
    ensures DifferentLocations(Todo(root, files))
  {
    hide Split, ValidateRelPath;
    var todo := Todo(root, files);
    forall i, j | 0 <= i < j < |todo| ensures todo[i].0 != todo[j].0 {
      var a, b := Split(SLASH, files[i].path), Split(SLASH, files[j].path);
      JoinSplit(SLASH, files[i].path);
      JoinSplit(SLASH, files[j].path);
      assert (root + a)[|root|..] == a && (root + b)[|root|..] == b;
    }
  }

  /** Where the checked destination text leads. */
  lemma DestinationLocation(root: Location, path: JsString)
    requires AreNames(root) && root != [] && ValidateRelPath(path).None?
    ensures LocationOf(JoinPath(Render(root), path)) == root + Split(SLASH, path)
  {
    DestinationIsRootPlusSegments(root, path);
    ResolveRendered(root + Split(SLASH, path));
  }

  ghost function CreatedOf(disk: Disk, todo: seq<(Location, JsString)>, files: seq<File>, n: nat): seq<File>
    requires n <= |todo| == |files|
  {
    if n == 0 then []
    else CreatedOf(disk, todo, files, n - 1) + if Creates(disk, todo, n - 1) then [files[n - 1]] else []
  }

  ghost function CollidedOf(disk: Disk, todo: seq<(Location, JsString)>, files: seq<File>, n: nat): seq<File>
    requires n <= |todo| == |files|
  {
    if n == 0 then []
    else CollidedOf(disk, todo, files, n - 1) + if Creates(disk, todo, n - 1) then [] else [files[n - 1]]
  }

  /** An empty disk as far as `todo` goes, and no location in it below another. */
  ghost predicate Flat(start: Disk, todo: seq<(Location, JsString)>) {
    && start.files == map[]
    && (forall i :: 0 <= i < |todo| ==> todo[i].0 !in start.dirs)
    && (forall i, j :: 0 <= i < |todo| && 0 <= j < |todo| ==> !Below(todo[i].0, todo[j].0))
  }

  lemma FlatCreates(start: Disk, todo: seq<(Location, JsString)>, i: nat)
    requires Flat(start, todo) && i < |todo|
    ensures Creates(start, todo, i) && !Conflict(start, todo, i)
  {
    hide Below;
  }

  /** Where nothing is in the way and no file lies below another, every file is written. */
  lemma {:induction false} FlatFilesAllWritten(start: Disk, todo: seq<(Location, JsString)>, files: seq<File>, n: nat)
    requires n <= |todo| == |files| && Flat(start, todo)
    ensures NoConflict(start, todo, n)
    ensures CreatedOf(start, todo, files, n) == files[..n] && CollidedOf(start, todo, files, n) == []
  {
    hide Creates, Conflict, Flat;
    if n > 0 {
      FlatFilesAllWritten(start, todo, files, n - 1);
      FlatCreates(start, todo, n - 1);
    }
  }

  datatype WriteOutcome =
    | OutsideRoot
    | NoDirectory
    | Done(disk: Disk, written: seq<File>, collided: seq<File>)

  /** After `n` writes, none in conflict: the disk is exactly as expected, and the written and the
      collided files are, in order, those that did and did not find their place free. */
  ghost predicate WrittenSoFar(start: Disk, todo: seq<(Location, JsString)>, files: seq<File>, n: nat, disk: Disk,
                               written: seq<File>, collided: seq<File>) {
    && n <= |todo| == |files|
    && NoConflict(start, todo, n) && Exactly(start, todo, n, disk)
    && written == CreatedOf(start, todo, files, n) && collided == CollidedOf(start, todo, files, n)
  }

  /** The loop of `createWorkspace` over the extracted files, from what the fixtures left on disk. */
  method WriteFiles(root: Location, start: Disk, files: seq<File>) returns (r: WriteOutcome)
    requires AreNames(root) && root != [] && Accepted(files)
    ensures r != OutsideRoot
    ensures r == NoDirectory <==> !NoConflict(start, Todo(root, files), |files|)
    ensures r.Done? ==> WrittenSoFar(start, Todo(root, files), files, |files|, r.disk, r.written, r.collided)
  {
    hide ValidateRelPath, JoinPath, Render, AreNames, WithinRoot, Split, LocationOf, Todo, ToWrite;
    hide Write, Taken, Parents, Blocked, Conflict, Creates, DifferentLocations, WrittenSoFar, NoConflict, Accepted;
    var dir := Render(root);
    ghost var todo := Todo(root, files);
    TodoDiffers(root, files);
    NothingWrittenYet(root, start, files);
    var disk, written, collided := start, [], [];
    for i := 0 to |files|
      invariant WrittenSoFar(start, todo, files, i, disk, written, collided)
    {
      var file := files[i];
      var dest := JoinPath(dir, file.path);
      NextWrite(root, files, i);
      if !WithinRoot(dir, dest) { return OutsideRoot; }
      var d := LocationOf(dest);
      WriteStep(start, todo, files, i, disk, written, collided);
      if Blocked(disk, d) { return NoDirectory; }
      if Taken(disk.(dirs := disk.dirs + Parents(d)), d) {
        collided := collided + [file];
      } else {
        written := written + [file];
      }
      disk := Write(disk, d, file.content);
    }
    WrittenWithoutConflict(start, todo, files, disk, written, collided);
    r := Done(disk, written, collided);
  }

  lemma NothingWrittenYet(root: Location, start: Disk, files: seq<File>)
    ensures |Todo(root, files)| == |files| && WrittenSoFar(start, Todo(root, files), files, 0, start, [], [])
  {
    NothingWritten(start, Todo(root, files));
    hide Exactly;
  }

  lemma WrittenWithoutConflict(start: Disk, todo: seq<(Location, JsString)>, files: seq<File>, disk: Disk,
                               written: seq<File>, collided: seq<File>)
    requires WrittenSoFar(start, todo, files, |files|, disk, written, collided)
    ensures NoConflict(start, todo, |files|)
  {
  }

  lemma NextWrite(root: Location, files: seq<File>, i: nat)
    requires AreNames(root) && root != [] && Accepted(files) && i < |files|
    ensures var dest := JoinPath(Render(root), files[i].path);
      && WithinRoot(Render(root), dest)
      && |Todo(root, files)| == |files| && Todo(root, files)[i] == (LocationOf(dest), files[i].content)
  {
    ValidatedStaysInside(root, files[i].path);
    DestinationLocation(root, files[i].path);
    hide ValidateRelPath, JoinPath, Render, AreNames, WithinRoot, Split, LocationOf;
  }

  lemma WriteStep(start: Disk, todo: seq<(Location, JsString)>, files: seq<File>, n: nat, before: Disk,
                  written: seq<File>, collided: seq<File>)
    requires n < |todo| && DifferentLocations(todo) && WrittenSoFar(start, todo, files, n, before, written, collided)
    ensures var d := todo[n].0; var after := Write(before, d, todo[n].1);
      if Blocked(before, d) then !NoConflict(start, todo, |files|)
      else if Taken(before.(dirs := before.dirs + Parents(d)), d) then
        WrittenSoFar(start, todo, files, n + 1, after, written, collided + [files[n]])
      else WrittenSoFar(start, todo, files, n + 1, after, written + [files[n]], collided)
  {
    hide Write, Taken, Parents, Blocked, Exactly, Conflict, Creates, DifferentLocations;
    BlockedIffConflict(start, todo, n, before);
    CreatesIffFree(start, todo, n, before);
    WriteExactly(start, todo, n, before);
  }

  lemma SingleLetters()
    ensures ValidateRelPath([0x61]).None? && Split(SLASH, [0x61]) == [[0x61]]
    ensures ValidateRelPath([0x61, SLASH, 0x62]).None? && Split(SLASH, [0x61, SLASH, 0x62]) == [[0x61], [0x62]]
  {
    SplitWhole(SLASH, [0x61]);
    SplitWhole(SLASH, [0x62]);
    SplitPart(SLASH, [0x61], [0x62]);
    assert [0x61, SLASH, 0x62] == [0x61] + [SLASH] + [0x62];
    TrimEmpty([0x61]);
    TrimEmpty([0x62]);
    hide Split, Trim, ValidateRelPath;
    assert !IsSpace([0x61 as Unit][0]) && !IsSpace([0x62 as Unit][0]);
    assert PlainSegment([0x61]) && PlainSegment([0x62]);
    AcceptedIffSafe([0x61]);
    AcceptedIffSafe([0x61, SLASH, 0x62]);
  }

  /** Accepted files can conflict: `a` as a file leaves no room for the directory of `a/b`. */
  lemma AcceptedMayConflict(root: Location, start: Disk, content: JsString)
    requires start.files == map[] && forall d :: d in start.dirs ==> |d| <= |root|
    ensures var files := [File([0x61], content), File([0x61, SLASH, 0x62], content)];
      Accepted(files) && !NoConflict(start, Todo(root, files), |files|)
  {
    SingleLetters();
    hide Split, ValidateRelPath;
    var files := [File([0x61], content), File([0x61, SLASH, 0x62], content)];
    var todo, p := Todo(root, files), root + [[0x61]];
    assert todo[0].0 == p && todo[1].0 == root + [[0x61], [0x62]];
    assert Creates(start, todo, 0);
    assert IsFileAfter(start, todo, 1, p);
    assert Below(p, todo[1].0);
    assert Conflict(start, todo, 1);
  }
}
