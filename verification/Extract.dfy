/** Validating and bounding extracted files (src/coding/extract.ts). */
module Extract {
  import opened Blocks
  import opened Js
  import opened Text

  datatype Reason =
    | EmptyPath | NulByte | Backslash | DriveLetter | AbsolutePath | HomeRelative | UncPath
    | Traversal | SingleDot | WhitespaceSegment | EmptySegment
    | DuplicatePath | FileTooLarge | TooManyFiles | TotalTooLarge

  datatype Rejected = Rejected(path: JsString, reason: Reason)

  datatype Limits = Limits(maxFiles: nat, maxFileBytes: nat, maxTotalBytes: nat)

  const SLASH: Unit := 0x2f
  const DOT: Unit := 0x2e

  predicate StartsWith(s: JsString, prefix: JsString) { |prefix| <= |s| && s[..|prefix|] == prefix }

  predicate IsLetter(u: Unit) { 0x41 <= u <= 0x5a || 0x61 <= u <= 0x7a }

  /** The first complaint about a segment, in order; empty segments are looked at afterwards. */
  function SegmentReason(segments: seq<JsString>): Option<Reason> {
    if segments == [] then None
    else if segments[0] == [DOT, DOT] then Some(Traversal)
    else if segments[0] == [DOT] then Some(SingleDot)
    else if Trim(segments[0]) == [] && segments[0] != [] then Some(WhitespaceSegment)
    else SegmentReason(segments[1..])
  }

  /** `validateRelPath`: why the path is refused, if it is. */
  function ValidateRelPath(raw: JsString): Option<Reason> {
    if raw == [] || Trim(raw) == [] then Some(EmptyPath)
    else if 0 in raw then Some(NulByte)
    else if 0x5c in raw then Some(Backslash)
    else if |raw| >= 2 && IsLetter(raw[0]) && raw[1] == 0x3a then Some(DriveLetter)
    else if StartsWith(raw, [SLASH]) then Some(AbsolutePath)
    else if StartsWith(raw, [0x7e]) then Some(HomeRelative)
    else if StartsWith(raw, [SLASH, SLASH]) then Some(UncPath)
    else
      var segments := Split(SLASH, raw);
      var reason := SegmentReason(segments);
      if reason.Some? then reason
      else if [] in segments then Some(EmptySegment)
      else None
  }

  /** A segment that names a directory entry and nothing else. */
  predicate PlainSegment(s: JsString) { s != [] && s != [DOT] && s != [DOT, DOT] && Trim(s) != [] }

  ghost predicate SafePath(raw: JsString) {
    && 0 !in raw && 0x5c !in raw
    && !(|raw| >= 2 && IsLetter(raw[0]) && raw[1] == 0x3a)
    && !StartsWith(raw, [0x7e])
    && forall s :: s in Split(SLASH, raw) ==> PlainSegment(s)
  }

  lemma {:induction false} SegmentsFine(segments: seq<JsString>)
    ensures SegmentReason(segments).None? && [] !in segments <==> forall s :: s in segments ==> PlainSegment(s)
  {
    if segments != [] {
      SegmentsFine(segments[1..]);
      assert Trim([]) == [];
      hide Trim;
      assert segments == [segments[0]] + segments[1..];
      assert forall s :: s in segments <==> s == segments[0] || s in segments[1..];
      assert segments[0] in segments;
    }
  }

  lemma LeadingSlash(raw: JsString)
    requires raw != []
    ensures raw[0] == SLASH <==> Split(SLASH, raw)[0] == []
  {
  }

  lemma {:induction false} SpacesSplit(raw: JsString)
    requires Trim(raw) == []
    ensures exists s :: s in Split(SLASH, raw) && Trim(s) == []
  {
    TrimEmpty(raw);
    assert SLASH !in raw;
    SplitWhole(SLASH, raw);
    assert raw in Split(SLASH, raw);
  }

  /** A path is accepted exactly when it is relative, free of NUL, backslash, drive and home
      prefixes, and every segment is a plain name. */
  lemma AcceptedIffSafe(raw: JsString)
    ensures ValidateRelPath(raw).None? <==> SafePath(raw)
  {
    var segments := Split(SLASH, raw);
    SegmentsFine(segments);
    assert segments[0] in segments;
    if Trim(raw) == [] {
      SpacesSplit(raw);
    } else {
      LeadingSlash(raw);
    }
  }

  /** The UNC check can never fire: such a path is already refused as absolute. */
  lemma UncNeverReported(raw: JsString)
    ensures ValidateRelPath(raw) != Some(UncPath)
  {
    if StartsWith(raw, [SLASH, SLASH]) { assert raw[..1] == raw[..2][..1]; }
    NoUncSegment(Split(SLASH, raw));
  }

  lemma {:induction false} NoUncSegment(segments: seq<JsString>)
    ensures SegmentReason(segments) != Some(UncPath)
  {
    if segments != [] { NoUncSegment(segments[1..]); }
  }

  // ------------------------------------------------------------------- byte length

  /** `Buffer.byteLength(s, "utf-8")`: an unpaired surrogate becomes U+FFFD, three bytes. */
  function ByteLength(s: JsString): nat {
    if s == [] then 0
    else if s[0] < 0x80 then 1 + ByteLength(s[1..])
    else if s[0] < 0x800 then 2 + ByteLength(s[1..])
    else if |s| >= 2 && HighSurrogate(s[0]) && LowSurrogate(s[1]) then 4 + ByteLength(s[2..])
    else 3 + ByteLength(s[1..])
  }

  function TotalBytes(files: seq<File>): nat {
    if files == [] then 0 else TotalBytes(files[..|files| - 1]) + ByteLength(files[|files| - 1].content)
  }

  // ---------------------------------------------------------------------- the push

  datatype Progress = Progress(seen: set<JsString>, total: nat, files: seq<File>, rejected: seq<Rejected>)

  const START := Progress({}, 0, [], [])

  /** Why this file is refused now, if it is. */
  function Refusal(limits: Limits, p: Progress, file: File): Option<Reason> {
    var bytes := ByteLength(file.content);
    if ValidateRelPath(file.path).Some? then ValidateRelPath(file.path)
    else if file.path in p.seen then Some(DuplicatePath)
    else if bytes > limits.maxFileBytes then Some(FileTooLarge)
    else if |p.files| >= limits.maxFiles then Some(TooManyFiles)
    else if p.total + bytes > limits.maxTotalBytes then Some(TotalTooLarge)
    else None
  }

  predicate Stops(r: Option<Reason>) { r == Some(TooManyFiles) || r == Some(TotalTooLarge) }

  function Push(limits: Limits, p: Progress, file: File): Progress {
    var r := Refusal(limits, p, file);
    if r.Some? then p.(rejected := p.rejected + [Rejected(file.path, r.value)])
    else Progress(p.seen + {file.path}, p.total + ByteLength(file.content), p.files + [file], p.rejected)
  }

  /** `pushFile`, with the collections it updates. */
  class Extraction {
    const limits: Limits
    var seen: set<JsString>
    var total: nat
    var files: seq<File>
    var rejected: seq<Rejected>

    ghost function State(): Progress
      reads this
    {
      Progress(seen, total, files, rejected)
    }

    constructor (limits: Limits)
      ensures this.limits == limits && State() == START
    {
      this.limits := limits;
      seen, total, files, rejected := {}, 0, [], [];
    }

    method PushFile(file: File) returns (keepGoing: bool)
      modifies this
      ensures State() == Push(limits, old(State()), file)
      ensures keepGoing <==> !Stops(Refusal(limits, old(State()), file))
    {
      hide ValidateRelPath, ByteLength;
      NotStopped(file.path);
      var err := ValidateRelPath(file.path);
      if err.Some? {
        rejected := rejected + [Rejected(file.path, err.value)];
        return true;
      }
      if file.path in seen {
        rejected := rejected + [Rejected(file.path, DuplicatePath)];
        return true;
      }
      var bytes := ByteLength(file.content);
      if bytes > limits.maxFileBytes {
        rejected := rejected + [Rejected(file.path, FileTooLarge)];
        return true;
      }
      if |files| >= limits.maxFiles {
        rejected := rejected + [Rejected(file.path, TooManyFiles)];
        return false;
      }
      if total + bytes > limits.maxTotalBytes {
        rejected := rejected + [Rejected(file.path, TotalTooLarge)];
        return false;
      }
      seen := seen + {file.path};
      total := total + bytes;
      files := files + [file];
      return true;
    }
  }

  lemma NotStopped(path: JsString)
    ensures !Stops(ValidateRelPath(path))
  {
    SegmentsNotStopped(Split(SLASH, path));
  }

  lemma {:induction false} SegmentsNotStopped(segments: seq<JsString>)
    ensures !Stops(SegmentReason(segments))
  {
    if segments != [] { SegmentsNotStopped(segments[1..]); }
  }

  // ------------------------------------------------------------------- the whole run

  /** How many candidates are processed: all, or up to and including the first that stops. */
  function Processed(limits: Limits, p: Progress, raw: seq<File>): (n: nat)
    ensures n <= |raw|
    decreases raw
  {
    if raw == [] then 0
    else if Stops(Refusal(limits, p, raw[0])) then 1
    else 1 + Processed(limits, Push(limits, p, raw[0]), raw[1..])
  }

  /** The refusals, or `None`, of the processed candidates in turn. */
  function Verdicts(limits: Limits, p: Progress, raw: seq<File>): (r: seq<Option<Reason>>)
    ensures |r| == Processed(limits, p, raw)
    decreases raw
  {
    if raw == [] then []
    else if Stops(Refusal(limits, p, raw[0])) then [Refusal(limits, p, raw[0])]
    else [Refusal(limits, p, raw[0])] + Verdicts(limits, Push(limits, p, raw[0]), raw[1..])
  }

  /** The state after the processed candidates. */
  function Extracted(limits: Limits, p: Progress, raw: seq<File>): Progress
    decreases raw
  {
    if raw == [] then p
    else if Stops(Refusal(limits, p, raw[0])) then Push(limits, p, raw[0])
    else Extracted(limits, Push(limits, p, raw[0]), raw[1..])
  }

  predicate Truncated(limits: Limits, p: Progress, raw: seq<File>)
    decreases raw
  {
    raw != [] && (Stops(Refusal(limits, p, raw[0])) || Truncated(limits, Push(limits, p, raw[0]), raw[1..]))
  }

  /** The candidates whose verdict is `None`, in order. */
  function AcceptedOf(raw: seq<File>, verdicts: seq<Option<Reason>>): seq<File>
    requires |raw| == |verdicts|
  {
    if raw == [] then []
    else (if verdicts[0].None? then [raw[0]] else []) + AcceptedOf(raw[1..], verdicts[1..])
  }

  /** The candidates with a refusal, in order, each with its reason. */
  function RejectedOf(raw: seq<File>, verdicts: seq<Option<Reason>>): seq<Rejected>
    requires |raw| == |verdicts|
  {
    if raw == [] then []
    else
      var rest := RejectedOf(raw[1..], verdicts[1..]);
      if verdicts[0].Some? then [Rejected(raw[0].path, verdicts[0].value)] + rest else rest
  }

  /** Every processed candidate lands in exactly one of accepted and rejected, in order. */
  lemma {:induction false} ExactlyOnePlace(limits: Limits, p: Progress, raw: seq<File>)
    ensures var done, verdicts := raw[..Processed(limits, p, raw)], Verdicts(limits, p, raw);
      && Extracted(limits, p, raw).files == p.files + AcceptedOf(done, verdicts)
      && Extracted(limits, p, raw).rejected == p.rejected + RejectedOf(done, verdicts)
      && |AcceptedOf(done, verdicts)| + |RejectedOf(done, verdicts)| == |done|
    decreases raw
  {
    hide Refusal;
    if raw == [] {
    } else if Stops(Refusal(limits, p, raw[0])) {
      assert raw[..1] == [raw[0]];
    } else {
      var next := Push(limits, p, raw[0]);
      ExactlyOnePlace(limits, next, raw[1..]);
      var n := Processed(limits, next, raw[1..]);
      assert raw[..n + 1][1..] == raw[1..][..n];
      PlaceOne(limits, p, raw[0], raw[1..][..n], Verdicts(limits, next, raw[1..]), raw[..n + 1]);
    }
  }

  lemma PlaceOne(limits: Limits, p: Progress, file: File, rest: seq<File>, verdicts: seq<Option<Reason>>,
      all: seq<File>)
    requires |rest| == |verdicts| && all == [file] + rest
    ensures var next, v := Push(limits, p, file), [Refusal(limits, p, file)] + verdicts;
      && next.files + AcceptedOf(rest, verdicts) == p.files + AcceptedOf(all, v)
      && next.rejected + RejectedOf(rest, verdicts) == p.rejected + RejectedOf(all, v)
      && |AcceptedOf(all, v)| + |RejectedOf(all, v)| == 1 + |AcceptedOf(rest, verdicts)| + |RejectedOf(rest, verdicts)|
  {
    hide Refusal;
    var v := [Refusal(limits, p, file)] + verdicts;
    assert all[1..] == rest && v[1..] == verdicts;
  }

  /** What every moment of the extraction satisfies. */
  ghost predicate WithinLimits(limits: Limits, p: Progress) {
    && |p.files| <= limits.maxFiles
    && p.total == TotalBytes(p.files) <= limits.maxTotalBytes
    && DifferentPaths(p.files)
    && (forall path :: path in p.seen <==> HasPath(p.files, path))
    && (forall i :: 0 <= i < |p.files| ==>
          ValidateRelPath(p.files[i].path).None? && ByteLength(p.files[i].content) <= limits.maxFileBytes)
  }

  ghost predicate HasPath(files: seq<File>, path: JsString) {
    exists i :: 0 <= i < |files| && files[i].path == path
  }

  lemma StartWithinLimits(limits: Limits)
    ensures WithinLimits(limits, START)
  {
  }

  lemma PushKeepsLimits(limits: Limits, p: Progress, file: File)
    requires WithinLimits(limits, p)
    ensures WithinLimits(limits, Push(limits, p, file))
  {
    hide ValidateRelPath, ByteLength;
    if Refusal(limits, p, file).None? {
      var files := p.files + [file];
      assert files[..|files| - 1] == p.files;
      forall path ensures HasPath(files, path) <==> HasPath(p.files, path) || path == file.path {
        PathsGrow(p.files, file, path);
      }
      assert !HasPath(p.files, file.path);
      hide HasPath;
      PathsStayDistinct(p.files, file);
    }
  }

  lemma PathsGrow(files: seq<File>, file: File, path: JsString)
    ensures HasPath(files + [file], path) <==> HasPath(files, path) || path == file.path
  {
    var more := files + [file];
    assert more[|files|] == file;
    assert forall i :: 0 <= i < |files| ==> more[i] == files[i];
  }

  ghost predicate DifferentPaths(files: seq<File>) {
    forall i, j :: 0 <= i < j < |files| ==> files[i].path != files[j].path
  }

  lemma PathsStayDistinct(files: seq<File>, file: File)
    requires DifferentPaths(files) && !HasPath(files, file.path)
    ensures DifferentPaths(files + [file])
  {
    assert forall i :: 0 <= i < |files| ==> files[i].path != file.path;
  }

  /** Accepted paths are distinct and valid, every limit holds, and the total is exact. */
  lemma {:induction false} ExtractionKeepsLimits(limits: Limits, p: Progress, raw: seq<File>)
    requires WithinLimits(limits, p)
    ensures WithinLimits(limits, Extracted(limits, p, raw))
    decreases raw
  {
    hide WithinLimits, Refusal, Push;
    if raw != [] {
      PushKeepsLimits(limits, p, raw[0]);
      if !Stops(Refusal(limits, p, raw[0])) { ExtractionKeepsLimits(limits, Push(limits, p, raw[0]), raw[1..]); }
    }
  }

  ghost predicate AtLimit(limits: Limits, p: Progress, file: File) {
    && ValidateRelPath(file.path).None? && file.path !in p.seen
    && (|p.files| >= limits.maxFiles || p.total + ByteLength(file.content) > limits.maxTotalBytes)
  }

  lemma StopIsAtLimit(limits: Limits, p: Progress, file: File)
    ensures Stops(Refusal(limits, p, file)) ==> AtLimit(limits, Push(limits, p, file), file)
  {
    NotStopped(file.path);
    hide ValidateRelPath, ByteLength;
  }

  /** Extraction stops early only at a candidate that is valid and new, and that would break the
      file-count or total-size limit; otherwise every candidate is processed. */
  lemma {:induction false} TruncationOnlyAtLimit(limits: Limits, p: Progress, raw: seq<File>)
    ensures var n := Processed(limits, p, raw);
      if Truncated(limits, p, raw) then n > 0 && AtLimit(limits, Extracted(limits, p, raw), raw[n - 1]) else n == |raw|
    decreases raw
  {
    if raw != [] {
      StopIsAtLimit(limits, p, raw[0]);
      hide Refusal, Push, Stops, AtLimit;
      if !Stops(Refusal(limits, p, raw[0])) {
        TruncationOnlyAtLimit(limits, Push(limits, p, raw[0]), raw[1..]);
      }
    }
  }

  /** The files of the JSON envelope if the text holds one, else those of the labelled blocks. */
  function CandidateFiles(envelope: JsString -> Option<seq<File>>, text: JsString): seq<File> {
    if envelope(text).Some? then envelope(text).value else Parsed(text)
  }

  /** `extractFiles`; `envelope` is what `parseJsonEnvelope` finds. */
  method ExtractFiles(envelope: JsString -> Option<seq<File>>, text: JsString, limits: Limits)
    returns (extraction: Extraction, truncated: bool)
    ensures fresh(extraction)
    ensures extraction.State() == Extracted(limits, START, CandidateFiles(envelope, text))
    ensures truncated == Truncated(limits, START, CandidateFiles(envelope, text))
  {
    hide Parsed;
    var raw: seq<File>;
    var found := envelope(text);
    if found.Some? { raw := found.value; } else { raw := ParseLabeledBlocks(text); }
    extraction, truncated := PushAll(raw, limits);
  }

  method PushAll(raw: seq<File>, limits: Limits) returns (extraction: Extraction, truncated: bool)
    ensures fresh(extraction)
    ensures extraction.State() == Extracted(limits, START, raw)
    ensures truncated == Truncated(limits, START, raw)
  {
    hide Refusal, Push, Stops;
    extraction := new Extraction(limits);
    truncated := false;
    assert raw[0..] == raw;
    for i := 0 to |raw|
      invariant extraction.limits == limits && fresh(extraction)
      invariant Extracted(limits, extraction.State(), raw[i..]) == Extracted(limits, START, raw)
      invariant Truncated(limits, extraction.State(), raw[i..]) == Truncated(limits, START, raw)
      invariant !truncated
    {
      assert raw[i..][1..] == raw[i + 1..];
      var keepGoing := extraction.PushFile(raw[i]);
      if !keepGoing {
        truncated := true;
        return;
      }
    }
  }
}
