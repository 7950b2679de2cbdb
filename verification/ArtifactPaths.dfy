/** Where the artifact of a session lies below a persistence root: the names of the project and session directories. */
module ArtifactPaths {
  import opened Outcomes
  import opened Numerals
  import opened Sequences
  import opened RuntimeArtifact
  import Json = ExactJson

  const TILDE: Json.Unit := 126
  const DOT: Json.Unit := 46
  const DASH: Json.Unit := 45
  const MAX_KEY := 251

  datatype Place = Place(project: Json.Text, session: Json.Text)

  /** Letters, digits, point, underscore and dash: the units that are written as they are. */
  predicate Plain(u: Json.Unit) {
    48 <= u <= 57 || 65 <= u <= 90 || 97 <= u <= 122 || u == DOT || u == 95 || u == DASH
  }

  predicate Separator(u: Json.Unit) {
    u == 47 || u == 92 || u == 58
  }

  function UpperHex(d: int): Json.Unit
    requires 0 <= d < 16
  {
    if d < 10 then 48 + d else 55 + d
  }

  /** A tilde and four digits in base sixteen. */
  function Escape(u: Json.Unit): (r: Json.Text)
    ensures |r| == 5 && r[0] == TILDE
  {
    [TILDE, UpperHex(u / 0x1000), UpperHex(u / 0x100 % 16), UpperHex(u / 16 % 16), UpperHex(u % 16)]
  }

  function WrittenUnit(u: Json.Unit): Json.Text {
    if Plain(u) then [u] else Escape(u)
  }

  // ----- session directories

  /** The directory of a session identity; the two names that mean other directories are escaped whole. */
  function SegmentOf(raw: Json.Text): Json.Text {
    if raw == [DOT] then Escape(DOT)
    else if raw == [DOT, DOT] then Escape(DOT) + Escape(DOT)
    else FlatMap(raw, WrittenUnit)
  }

  method EncodeSegment(raw: Json.Text) returns (r: Result<Json.Text>)
    ensures r.Ok? <==> raw != []
    ensures r.Ok? ==> r.value == SegmentOf(raw)
  {
    if raw == [] {
      return Err("Rc1 session ID cannot be empty");
    }
    if raw == [DOT] {
      return Ok(Escape(DOT));
    }
    if raw == [DOT, DOT] {
      return Ok(Escape(DOT) + Escape(DOT));
    }
    var encoded: Json.Text := [];
    for index := 0 to |raw|
      invariant encoded == FlatMap(raw[..index], WrittenUnit)
    {
      assert raw[..index + 1][..index] == raw[..index];
      encoded := encoded + WrittenUnit(raw[index]);
    }
    assert raw[..|raw|] == raw;
    return Ok(encoded);
  }

  function HexDigit(c: Json.Unit): int {
    if c < 58 then c - 48 else c - 55
  }

  /** The unit written by an escape. */
  function Unescaped(s: Json.Text): Json.Unit
    requires |s| == 5
  {
    (HexDigit(s[1]) * 0x1000 + HexDigit(s[2]) * 0x100 + HexDigit(s[3]) * 16 + HexDigit(s[4])) % 0x10000
  }

  /** Reads a directory name back. */
  function ReadBack(s: Json.Text): Json.Text {
    if s == [] then []
    else if s[0] == TILDE && |s| >= 5 then [Unescaped(s[..5])] + ReadBack(s[5..])
    else [s[0]] + ReadBack(s[1..])
  }

  lemma EscapeReadsBack(u: Json.Unit)
    ensures Unescaped(Escape(u)) == u
  {
    var s := Escape(u);
    assert HexDigit(s[1]) == u / 0x1000 && HexDigit(s[2]) == u / 0x100 % 16 && HexDigit(s[3]) == u / 16 % 16
        && HexDigit(s[4]) == u % 16;
    InBase16(u);
  }

  lemma WrittenReadsBack(u: Json.Unit, rest: Json.Text)
    ensures ReadBack(WrittenUnit(u) + rest) == [u] + ReadBack(rest)
  {
    var s := WrittenUnit(u) + rest;
    if Plain(u) {
      assert s[1..] == rest;
    } else {
      EscapeReadsBack(u);
      assert s[..5] == Escape(u) && s[5..] == rest;
    }
  }

  lemma EscapedDotReadsBack(rest: Json.Text)
    ensures ReadBack(Escape(DOT) + rest) == [DOT] + ReadBack(rest)
  {
    var s := Escape(DOT) + rest;
    EscapeReadsBack(DOT);
    assert s[..5] == Escape(DOT) && s[5..] == rest;
  }

  lemma {:induction false} UnitsReadBack(raw: Json.Text, rest: Json.Text)
    ensures ReadBack(FlatMap(raw, WrittenUnit) + rest) == raw + ReadBack(rest)
  {
    hide ReadBack, WrittenUnit;
    if raw == [] {
      assert [] + rest == rest;
    } else {
      var init, last := raw[..|raw| - 1], Last(raw);
      assert FlatMap(raw, WrittenUnit) + rest == FlatMap(init, WrittenUnit) + (WrittenUnit(last) + rest);
      UnitsReadBack(init, WrittenUnit(last) + rest);
      WrittenReadsBack(last, rest);
    }
  }

  /** A session directory names its session: reading its name gives the identity back. */
  lemma SegmentReadsBack(raw: Json.Text)
    ensures ReadBack(SegmentOf(raw)) == raw
  {
    hide Escape;
    if raw == [DOT] {
      EscapedDotReadsBack([]);
      assert Escape(DOT) + [] == Escape(DOT);
    } else if raw == [DOT, DOT] {
      EscapedDotReadsBack([]);
      EscapedDotReadsBack(Escape(DOT));
      assert Escape(DOT) + [] == Escape(DOT);
    } else {
      UnitsReadBack(raw, []);
      assert FlatMap(raw, WrittenUnit) + [] == FlatMap(raw, WrittenUnit);
    }
  }

  lemma SegmentsApart(a: Json.Text, b: Json.Text)
    requires SegmentOf(a) == SegmentOf(b)
    ensures a == b
  {
    SegmentReadsBack(a);
    SegmentReadsBack(b);
  }

  /** A name of one directory: nothing in it separates, and it is neither of the names with a meaning of their own. */
  predicate IsDirectoryName(s: Json.Text) {
    s != [] && s != [DOT] && s != [DOT, DOT] && forall u :: u in s ==> Plain(u) || u == TILDE
  }

  lemma {:induction false} WrittenPlainly(raw: Json.Text)
    ensures forall u :: u in FlatMap(raw, WrittenUnit) ==> Plain(u) || u == TILDE
  {
    if raw != [] {
      WrittenPlainly(raw[..|raw| - 1]);
    }
  }

  lemma SegmentIsDirectoryName(raw: Json.Text)
    requires raw != []
    ensures IsDirectoryName(SegmentOf(raw))
  {
    hide ReadBack, FlatMap;
    SegmentReadsBack(raw);
    WrittenPlainly(raw);
    ReadPlain();
  }

  lemma ReadPlain()
    ensures ReadBack([]) == [] && ReadBack([DOT]) == [DOT] && ReadBack([DOT, DOT]) == [DOT, DOT]
  {
    assert [DOT, DOT][1..] == [DOT];
  }

  // ----- project directories

  datatype Readable = Readable(text: Json.Text, separated: bool)

  function ReadUnit(before: Readable, u: Json.Unit): Readable {
    if Separator(u) then Readable(if before.separated then before.text else before.text + [DASH], true)
    else Readable(before.text + WrittenUnit(u), false)
  }

  function ReadableOf(cwd: Json.Text): Readable {
    if cwd == [] then Readable([], false) else ReadUnit(ReadableOf(cwd[..|cwd| - 1]), Last(cwd))
  }

  function Undashed(s: Json.Text): Json.Text {
    if s != [] && s[0] == DASH then Undashed(s[1..]) else s
  }

  function Cut(s: Json.Text): Json.Text {
    if |s| > MAX_KEY then s[..MAX_KEY] else s
  }

  function KeyOf(cwd: Json.Text): Json.Text {
    var stripped := Undashed(ReadableOf(cwd).text);
    [DASH, DASH] + Cut(if stripped == [] then Units("root") else stripped) + [DASH, DASH]
  }

  method ProjectKey(cwd: Json.Text) returns (r: Result<Json.Text>)
    ensures r.Ok? <==> cwd != []
    ensures r.Ok? ==> r.value == KeyOf(cwd)
  {
    if cwd == [] {
      return Err("Rc1 SessionHeader.cwd cannot be empty");
    }
    var readable: Json.Text := [];
    var separatorRun := false;
    for index := 0 to |cwd|
      invariant ReadableOf(cwd[..index]) == Readable(readable, separatorRun)
    {
      assert cwd[..index + 1][..index] == cwd[..index] && Last(cwd[..index + 1]) == cwd[index];
      if Separator(cwd[index]) {
        if !separatorRun {
          readable := readable + [DASH];
        }
        separatorRun := true;
      } else {
        readable := readable + WrittenUnit(cwd[index]);
        separatorRun := false;
      }
    }
    assert cwd[..|cwd|] == cwd;
    var stripped := Undashed(readable);
    var name := if stripped == [] then Units("root") else stripped;
    return Ok([DASH, DASH] + (if |name| > MAX_KEY then name[..MAX_KEY] else name) + [DASH, DASH]);
  }

  lemma {:induction false} ReadablePlain(cwd: Json.Text)
    ensures forall u :: u in ReadableOf(cwd).text ==> Plain(u) || u == TILDE
  {
    if cwd != [] {
      ReadablePlain(cwd[..|cwd| - 1]);
    }
  }

  lemma {:induction false} UndashedPart(s: Json.Text)
    ensures forall u :: u in Undashed(s) ==> u in s
    ensures Undashed(s) != [] ==> Undashed(s)[0] != DASH
  {
    if s != [] && s[0] == DASH {
      UndashedPart(s[1..]);
    }
  }

  /**
   * A project directory is one directory of bounded length, and is never taken for the one of sessions without a
   * project.
   */
  lemma KeyIsDirectoryName(cwd: Json.Text)
    ensures IsDirectoryName(KeyOf(cwd)) && 5 <= |KeyOf(cwd)| <= 255 && KeyOf(cwd) != NO_PROJECT
  {
    hide ReadableOf, Undashed;
    ReadablePlain(cwd);
    UndashedPart(ReadableOf(cwd).text);
    var key := KeyOf(cwd);
    assert key[0] == DASH && NO_PROJECT[0] == 95;
    assert Units("root") == [114, 111, 111, 116];
  }

  // ----- what a project directory tells of its project

  function FoldUnit(before: Readable, u: Json.Unit): Readable {
    if Separator(u) then Readable(if before.separated then before.text else before.text + [DASH], true)
    else Readable(before.text + [u], false)
  }

  function Folding(cwd: Json.Text): Readable {
    if cwd == [] then Readable([], false) else FoldUnit(Folding(cwd[..|cwd| - 1]), Last(cwd))
  }

  /**
   * The working directory with each run of separators read as one dash, and no leading dashes; root, when that is
   * empty.
   */
  function Fold(cwd: Json.Text): Json.Text {
    var stripped := Undashed(Folding(cwd).text);
    if stripped == [] then Units("root") else stripped
  }

  function Written(s: Json.Text): Json.Text {
    FlatMap(s, WrittenUnit)
  }

  lemma {:induction false} ReadableIsWritten(cwd: Json.Text)
    ensures ReadableOf(cwd).text == Written(Folding(cwd).text) && ReadableOf(cwd).separated == Folding(cwd).separated
  {
    if cwd != [] {
      var before, u := Folding(cwd[..|cwd| - 1]), Last(cwd);
      ReadableIsWritten(cwd[..|cwd| - 1]);
      FlatMapConcat(before.text, [DASH], WrittenUnit);
      FlatMapConcat(before.text, [u], WrittenUnit);
      WrittenOne(DASH);
      WrittenOne(u);
    }
  }

  lemma WrittenOne(u: Json.Unit)
    ensures Written([u]) == WrittenUnit(u)
  {
    var one: Json.Text := [u];
    assert one[..|one| - 1] == [];
    assert FlatMap(one, WrittenUnit) == FlatMap(one[..|one| - 1], WrittenUnit) + WrittenUnit(one[|one| - 1]);
  }

  /** Only a dash is written as one. */
  lemma WrittenHead(s: Json.Text)
    requires s != []
    ensures Written(s) != [] && (Written(s)[0] == DASH <==> s[0] == DASH)
    ensures Written(s) == WrittenUnit(s[0]) + Written(s[1..])
  {
    FlatMapCons(s, WrittenUnit);
  }

  lemma {:induction false} UndashedIsWritten(s: Json.Text)
    ensures Undashed(Written(s)) == Written(Undashed(s))
  {
    hide WrittenUnit;
    if s != [] {
      WrittenHead(s);
      if s[0] == DASH {
        UndashedIsWritten(s[1..]);
        DashIsWritten();
        assert Written(s)[1..] == Written(s[1..]);
      }
    }
  }

  lemma DashIsWritten()
    ensures WrittenUnit(DASH) == [DASH]
  {
  }

  lemma {:induction false} WrittenApart(a: Json.Text, b: Json.Text)
    requires Written(a) == Written(b)
    ensures a == b
  {
    UnitsReadBack(a, []);
    UnitsReadBack(b, []);
    assert Written(a) + [] == Written(a) && Written(b) + [] == Written(b);
    ReadPlain();
    assert a + [] == a && b + [] == b;
  }

  lemma {:induction false} AllPlain(s: Json.Text)
    requires forall i :: 0 <= i < |s| ==> Plain(s[i])
    ensures Written(s) == s
  {
    if s != [] {
      AllPlain(s[..|s| - 1]);
    }
  }

  lemma RootIsPlain()
    ensures Written(Units("root")) == Units("root") && Units("root") == [114, 111, 111, 116]
  {
    AllPlain(Units("root"));
  }

  lemma NothingWritten(s: Json.Text)
    ensures Written(s) == [] <==> s == []
  {
    if s != [] {
      WrittenHead(s);
    }
  }

  /** A project directory is the folded working directory, written out and cut. */
  lemma KeyIsFold(cwd: Json.Text)
    ensures KeyOf(cwd) == [DASH, DASH] + Cut(Written(Fold(cwd))) + [DASH, DASH]
  {
    hide WrittenUnit, Written, Folding, ReadableOf, Undashed;
    ReadableIsWritten(cwd);
    UndashedIsWritten(Folding(cwd).text);
    NothingWritten(Undashed(Folding(cwd).text));
    RootIsPlain();
  }

  /** Projects share a directory exactly when their folded names agree as far as the directory shows them. */
  lemma KeysDecide(a: Json.Text, b: Json.Text)
    ensures KeyOf(a) == KeyOf(b) <==> Cut(Written(Fold(a))) == Cut(Written(Fold(b)))
    ensures |Written(Fold(a))| <= MAX_KEY && |Written(Fold(b))| <= MAX_KEY
            ==> (KeyOf(a) == KeyOf(b) <==> Fold(a) == Fold(b))
  {
    hide WrittenUnit, Written, Fold, KeyOf;
    KeyIsFold(a);
    KeyIsFold(b);
    var x, y := Cut(Written(Fold(a))), Cut(Written(Fold(b)));
    if KeyOf(a) == KeyOf(b) {
      assert x == KeyOf(a)[2..|KeyOf(a)| - 2] && y == KeyOf(b)[2..|KeyOf(b)| - 2];
    }
    if Written(Fold(a)) == Written(Fold(b)) {
      WrittenApart(Fold(a), Fold(b));
    }
  }

  /** Different projects can share a directory: a separator and a dash are written alike. */
  lemma ProjectsCollide()
    ensures KeyOf([97, 47, 98]) == KeyOf([97, DASH, 98])
  {
    hide KeyOf, Cut, Written, Folding;
    FoldingSnoc([], 97);
    FoldingSnoc([97], 47);
    FoldingSnoc([97], DASH);
    FoldingSnoc([97, 47], 98);
    FoldingSnoc([97, DASH], 98);
    assert [] + [97] == [97] && [97] + [47] == [97, 47] && [97] + [DASH] == [97, DASH];
    assert [97, 47] + [98] == [97, 47, 98] && [97, DASH] + [98] == [97, DASH, 98];
    KeysDecide([97, 47, 98], [97, DASH, 98]);
  }

  lemma FoldingSnoc(cwd: Json.Text, u: Json.Unit)
    ensures Folding([]) == Readable([], false) && Folding(cwd + [u]) == FoldUnit(Folding(cwd), u)
  {
    assert (cwd + [u])[..|cwd|] == cwd;
  }

  // ----- absolute paths

  const SLASH: Json.Unit := 47

  /** An absolute path written with single slashes, without the other units that fold. */
  ghost predicate IsCleanPath(cwd: Json.Text) {
    && cwd != [] && cwd[0] == SLASH
    && (forall i :: 0 <= i < |cwd| ==> cwd[i] != DASH && cwd[i] != 92 && cwd[i] != 58)
    && (forall i, j :: 0 <= i < j < |cwd| && j == i + 1 ==> cwd[i] != SLASH || cwd[j] != SLASH)
  }

  function Dashed(u: Json.Unit): Json.Unit {
    if u == SLASH then DASH else u
  }

  lemma {:induction false} CleanFolding(cwd: Json.Text, n: nat)
    requires IsCleanPath(cwd) && n <= |cwd|
    ensures Folding(cwd[..n]) == Readable(Map(cwd[..n], Dashed), n > 0 && cwd[n - 1] == SLASH)
  {
    if n > 0 {
      CleanFolding(cwd, n - 1);
      assert cwd[..n][..n - 1] == cwd[..n - 1] && Last(cwd[..n]) == cwd[n - 1];
      if n > 1 {
        assert cwd[n - 2] != SLASH || cwd[n - 1] != SLASH;
      }
      assert Map(cwd[..n], Dashed) == Map(cwd[..n - 1], Dashed) + [Dashed(cwd[n - 1])];
    }
  }

  lemma CleanFold(cwd: Json.Text)
    requires IsCleanPath(cwd)
    ensures Fold(cwd) == if cwd == [SLASH] then Units("root") else Map(cwd[1..], Dashed)
  {
    CleanFolding(cwd, |cwd|);
    assert cwd[..|cwd|] == cwd;
    var folded := Map(cwd, Dashed);
    assert folded[0] == DASH && folded[1..] == Map(cwd[1..], Dashed);
    assert Undashed(folded) == Undashed(folded[1..]);
    if |cwd| > 1 {
      assert cwd[0] != SLASH || cwd[1] != SLASH;
      assert folded[1..][0] == cwd[1];
      assert Undashed(folded[1..]) == folded[1..];
    } else {
      assert cwd == [SLASH];
    }
  }

  lemma DashedApart(a: Json.Text, b: Json.Text)
    requires (forall i :: 0 <= i < |a| ==> a[i] != DASH) && (forall i :: 0 <= i < |b| ==> b[i] != DASH)
    requires Map(a, Dashed) == Map(b, Dashed)
    ensures a == b
  {
    assert |a| == |b|;
    forall i | 0 <= i < |a|
      ensures a[i] == b[i]
    {
      assert Map(a, Dashed)[i] == Map(b, Dashed)[i];
    }
  }

  const ROOT_PATH: Json.Text := [SLASH] + Units("root")

  /** Clean absolute paths share a directory only as the file system root and the path /root do. */
  lemma CleanPathsApart(a: Json.Text, b: Json.Text)
    requires IsCleanPath(a) && IsCleanPath(b)
    requires |Written(Fold(a))| <= MAX_KEY && |Written(Fold(b))| <= MAX_KEY
    ensures KeyOf(a) == KeyOf(b) <==> a == b || (a == [SLASH] && b == ROOT_PATH) || (a == ROOT_PATH && b == [SLASH])
  {
    hide Fold, KeyOf, Written;
    KeysDecide(a, b);
    CleanFold(a);
    CleanFold(b);
    RootPath();
    assert a == [SLASH] + a[1..] && b == [SLASH] + b[1..];
    if Fold(a) == Fold(b) {
      if a == [SLASH] && b != [SLASH] {
        DashedApart(Units("root"), b[1..]);
      } else if b == [SLASH] && a != [SLASH] {
        DashedApart(Units("root"), a[1..]);
      } else if a != [SLASH] {
        DashedApart(a[1..], b[1..]);
      }
    }
  }

  lemma RootPath()
    ensures Units("root") == [114, 111, 111, 116] && Map(Units("root"), Dashed) == Units("root")
    ensures ROOT_PATH[1..] == Units("root") && ROOT_PATH != [SLASH]
  {
  }

  // ----- the place of an artifact

  const NO_PROJECT: Json.Text := Units("_no-cwd")

  /** The directories of the artifact with this header; None when the header names no valid ones. */
  function ExpectedPlace(header: Json.Json): Option<Place> {
    if Has(header, "cwd") && (!IsString(Get(header, "cwd")) || Get(header, "cwd").value.text == []) then None
    else if !IsString(Get(header, "id")) || Get(header, "id").value.text == [] then None
    else
      var project := if Has(header, "cwd") then KeyOf(Get(header, "cwd").value.text) else NO_PROJECT;
      Some(Place(project, SegmentOf(Get(header, "id").value.text)))
  }

  /** No two sessions have one place, whatever their projects. */
  lemma PlacesApart(a: Json.Json, b: Json.Json)
    requires ExpectedPlace(a).Some? && ExpectedPlace(b).Some?
    ensures ExpectedPlace(a).value.session == ExpectedPlace(b).value.session <==> Get(a, "id") == Get(b, "id")
  {
    hide SegmentOf;
    if ExpectedPlace(a).value.session == ExpectedPlace(b).value.session {
      SegmentsApart(Get(a, "id").value.text, Get(b, "id").value.text);
    }
  }
}
