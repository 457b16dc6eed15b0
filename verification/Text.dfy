/** Splitting text at a separator, joining it again, and trimming white space, as the block parser
    and the path rules need it. */
module Text {
  import opened Js

  /** `text.split(sep)` for a one-unit separator. */
  function Split(sep: Unit, text: JsString): (parts: seq<JsString>)
    ensures parts != []
  {
    if text == [] then [[]]
    else
      var rest := Split(sep, text[1..]);
      if text[0] == sep then [[]] + rest else [[text[0]] + rest[0]] + rest[1..]
  }

  /** `parts.join(sep)`. */
  function Join(sep: Unit, parts: seq<JsString>): JsString {
    if parts == [] then []
    else if |parts| == 1 then parts[0]
    else parts[0] + [sep] + Join(sep, parts[1..])
  }

  ghost predicate Free(sep: Unit, parts: seq<JsString>) {
    forall i :: 0 <= i < |parts| ==> sep !in parts[i]
  }

  lemma {:induction false} SplitFree(sep: Unit, text: JsString)
    ensures Free(sep, Split(sep, text))
  {
    if text != [] { SplitFree(sep, text[1..]); }
  }

  /** Joining undoes splitting. */
  lemma {:induction false} JoinSplit(sep: Unit, text: JsString)
    ensures Join(sep, Split(sep, text)) == text
  {
    if text != [] {
      var rest := Split(sep, text[1..]);
      JoinSplit(sep, text[1..]);
      assert text == [text[0]] + text[1..];
      if text[0] == sep {
        assert ([[]] + rest)[1..] == rest;
      } else {
        JoinPrefixed(sep, text[0], rest);
      }
    }
  }

  lemma JoinPrefixed(sep: Unit, u: Unit, parts: seq<JsString>)
    requires parts != []
    ensures Join(sep, [[u] + parts[0]] + parts[1..]) == [u] + Join(sep, parts)
  {
    var more := [[u] + parts[0]] + parts[1..];
    assert more[1..] == parts[1..];
    if |parts| > 1 {
      assert [u] + (parts[0] + [sep] + Join(sep, parts[1..])) == [u] + parts[0] + [sep] + Join(sep, parts[1..]);
    }
  }

  /** Splitting at the first separator peels one part off. */
  lemma {:induction false} SplitPart(sep: Unit, part: JsString, rest: JsString)
    requires sep !in part
    ensures Split(sep, part + [sep] + rest) == [part] + Split(sep, rest)
  {
    var text := part + [sep] + rest;
    if part == [] {
      assert text[1..] == rest;
    } else {
      SplitPart(sep, part[1..], rest);
      assert text[1..] == part[1..] + [sep] + rest;
      assert part == [part[0]] + part[1..];
    }
  }

  lemma {:induction false} SplitWhole(sep: Unit, part: JsString)
    requires sep !in part
    ensures Split(sep, part) == [part]
  {
    if part != [] {
      SplitWhole(sep, part[1..]);
      assert part == [part[0]] + part[1..];
    }
  }

  /** Splitting undoes joining parts without the separator. */
  lemma {:induction false} SplitJoin(sep: Unit, parts: seq<JsString>)
    requires parts != [] && Free(sep, parts)
    ensures Split(sep, Join(sep, parts)) == parts
  {
    if |parts| == 1 {
      SplitWhole(sep, parts[0]);
    } else {
      SplitJoin(sep, parts[1..]);
      SplitPart(sep, parts[0], Join(sep, parts[1..]));
    }
  }

  // ------------------------------------------------------------------ white space

  /** White space and line terminators, as both `\s` and `trim` understand them. */
  predicate IsSpace(u: Unit) {
    || 0x09 <= u <= 0x0d || u == 0x20 || u == 0xa0 || u == 0x1680 || 0x2000 <= u <= 0x200a
    || u == 0x2028 || u == 0x2029 || u == 0x202f || u == 0x205f || u == 0x3000 || u == 0xfeff
  }

  function TrimStart(s: JsString): JsString {
    if s != [] && IsSpace(s[0]) then TrimStart(s[1..]) else s
  }

  function TrimEnd(s: JsString): JsString {
    if s != [] && IsSpace(s[|s| - 1]) then TrimEnd(s[..|s| - 1]) else s
  }

  function Trim(s: JsString): JsString { TrimEnd(TrimStart(s)) }

  lemma {:induction false} TrimStartAppend(s: JsString, t: JsString)
    requires t != [] && !IsSpace(t[0])
    ensures TrimStart(s + t) == TrimStart(s) + t
  {
    if s == [] {
      assert s + t == t;
    } else if IsSpace(s[0]) {
      TrimStartAppend(s[1..], t);
      assert (s + t)[1..] == s[1..] + t;
    }
  }

  /** Leading white space goes, and nothing at the end if the last unit is not white space. */
  lemma TrimPrefix(s: JsString, t: JsString)
    requires t != [] && !IsSpace(t[0]) && !IsSpace(t[|t| - 1])
    ensures Trim(s + t) == TrimStart(s) + t
  {
    TrimStartAppend(s, t);
    hide TrimStart, IsSpace;
    var r := TrimStart(s) + t;
    assert r[|r| - 1] == t[|t| - 1];
    TrimEndStays(r);
  }

  lemma TrimEndStays(s: JsString)
    requires s != [] && !IsSpace(s[|s| - 1])
    ensures TrimEnd(s) == s
  {
    hide IsSpace;
  }

  lemma {:induction false} TrimStartUnits(s: JsString)
    ensures forall u :: u in TrimStart(s) ==> u in s
  {
    if s != [] && IsSpace(s[0]) { TrimStartUnits(s[1..]); }
  }

  lemma {:induction false} TrimEmpty(s: JsString)
    ensures Trim(s) == [] <==> forall i :: 0 <= i < |s| ==> IsSpace(s[i])
  {
    if s != [] {
      if IsSpace(s[0]) {
        TrimEmpty(s[1..]);
        assert s == [s[0]] + s[1..];
      } else {
        TrimEndKeepsFirst(s);
      }
    }
  }

  lemma {:induction false} TrimEndKeepsFirst(s: JsString)
    requires s != [] && !IsSpace(s[0])
    ensures TrimEnd(s) != []
  {
    if IsSpace(s[|s| - 1]) { TrimEndKeepsFirst(s[..|s| - 1]); }
  }
}
