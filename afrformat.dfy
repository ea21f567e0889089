/** The `.afrmodel` text format: a preamble, then `verts`, `faces` and
    `uvs` sections of data lines, with blank lines and `#` comments kept in
    place so that a loaded model saves back with its layout. */
module AfrFormat {
  import opened Util
  import opened LinAlg
  import opened Scene
  import opened Text

  /** `_fmt_num`, left abstract. */
  type FmtFn = real -> string

  /** The three UVs of one face. */
  datatype UvTri = UvTri(a: Vec2, b: Vec2, c: Vec2)

  /** A `_Line`: its kind, its data and its comment (without the `#`). */
  datatype Line =
    | Blank
    | CommentLine(text: string)
    | VertLine(v: Vec3, comment: Option<string>)
    | FaceLine(f: Tri, comment: Option<string>)
    | UvLine(uv: UvTri, comment: Option<string>)

  /** The four line lists of a `Model`. */
  datatype Doc = Doc(preamble: seq<Line>, verts: seq<Line>, faces: seq<Line>, uvs: seq<Line>)

  datatype Sec = VertsSec | FacesSec | UvsSec

  // ------------------------------------------------ getters and setters

  /** The `verts` property: the data of the vert lines, in order. */
  function VertsOf(ls: seq<Line>): seq<Vec3>
    decreases |ls|
  {
    if ls == [] then []
    else VertsOf(ls[..|ls| - 1]) + (if ls[|ls| - 1].VertLine? then [ls[|ls| - 1].v] else [])
  }

  function FacesOf(ls: seq<Line>): seq<Tri>
    decreases |ls|
  {
    if ls == [] then []
    else FacesOf(ls[..|ls| - 1]) + (if ls[|ls| - 1].FaceLine? then [ls[|ls| - 1].f] else [])
  }

  function UvsOf(ls: seq<Line>): seq<UvTri>
    decreases |ls|
  {
    if ls == [] then []
    else UvsOf(ls[..|ls| - 1]) + (if ls[|ls| - 1].UvLine? then [ls[|ls| - 1].uv] else [])
  }

  /** What the setters store: one data line per item, no comments. */
  function VertLines(vs: seq<Vec3>): (r: seq<Line>)
    ensures |r| == |vs| && forall i :: 0 <= i < |vs| ==> r[i] == VertLine(vs[i], None)
    decreases |vs|
  {
    if vs == [] then [] else VertLines(vs[..|vs| - 1]) + [VertLine(vs[|vs| - 1], None)]
  }

  function FaceLines(fs: seq<Tri>): (r: seq<Line>)
    ensures |r| == |fs| && forall i :: 0 <= i < |fs| ==> r[i] == FaceLine(fs[i], None)
    decreases |fs|
  {
    if fs == [] then [] else FaceLines(fs[..|fs| - 1]) + [FaceLine(fs[|fs| - 1], None)]
  }

  function UvLines(us: seq<UvTri>): (r: seq<Line>)
    ensures |r| == |us| && forall i :: 0 <= i < |us| ==> r[i] == UvLine(us[i], None)
    decreases |us|
  {
    if us == [] then [] else UvLines(us[..|us| - 1]) + [UvLine(us[|us| - 1], None)]
  }

  /** Each getter returns exactly the list its setter was given. */
  lemma {:induction false} GetAfterSetVerts(vs: seq<Vec3>)
    ensures VertsOf(VertLines(vs)) == vs
    decreases |vs|
  {
    if vs != [] {
      var init := vs[..|vs| - 1];
      GetAfterSetVerts(init);
      var ls := VertLines(vs);
      assert ls[..|ls| - 1] == VertLines(init);
      assert vs == init + [vs[|vs| - 1]];
    }
  }

  lemma {:induction false} GetAfterSetFaces(fs: seq<Tri>)
    ensures FacesOf(FaceLines(fs)) == fs
    decreases |fs|
  {
    if fs != [] {
      var init := fs[..|fs| - 1];
      GetAfterSetFaces(init);
      var ls := FaceLines(fs);
      assert ls[..|ls| - 1] == FaceLines(init);
      assert fs == init + [fs[|fs| - 1]];
    }
  }

  lemma {:induction false} GetAfterSetUvs(us: seq<UvTri>)
    ensures UvsOf(UvLines(us)) == us
    decreases |us|
  {
    if us != [] {
      var init := us[..|us| - 1];
      GetAfterSetUvs(init);
      var ls := UvLines(us);
      assert ls[..|ls| - 1] == UvLines(init);
      assert us == init + [us[|us| - 1]];
    }
  }

  /** `validate`: an error exactly when there are UVs and their count
      differs from the face count. */
  function Validate(d: Doc): (r: Option<string>)
    ensures r.Some? <==> UvsOf(d.uvs) != [] && |UvsOf(d.uvs)| != |FacesOf(d.faces)|
  {
    var nu := |UvsOf(d.uvs)|;
    if nu != 0 && nu != |FacesOf(d.faces)| then Some("uvs count must match faces count") else None
  }

  // ----------------------------------------------------------- loading

  /** `_split_comment(line)`: the code before the first `#` and the
      stripped comment after it, None when there is no `#` or nothing after it. */
  function SplitComment(line: string): (r: (string, Option<string>))
    ensures '#' !in r.0
    ensures '#' !in line ==> r == (line, None)
    decreases |line|
  {
    if line == [] then ([], None)
    else if line[0] == '#' then ([], NonEmpty(Strip(line[1..])))
    else
      var r := SplitComment(line[1..]);
      assert line == [line[0]] + line[1..];
      ([line[0]] + r.0, r.1)
  }

  function NonEmpty(c: string): (r: Option<string>)
    ensures r.Some? <==> c != []
  {
    if c == [] then None else Some(c)
  }

  /** The code ends at the first `#`; the stripped rest is the comment. */
  lemma {:induction false} SplitCommentAt(a: string, b: string)
    requires '#' !in a
    ensures SplitComment(a + "#" + b) == (a, NonEmpty(Strip(b)))
    decreases |a|
  {
    if a == [] {
      assert a + "#" + b == "#" + b && ("#" + b)[1..] == b;
    } else {
      assert (a + "#" + b)[1..] == a[1..] + "#" + b;
      SplitCommentAt(a[1..], b);
      assert [a[0]] + a[1..] == a;
    }
  }

  /** With a `#`, the code is what precedes the first one and the comment
      is what follows it, stripped. */
  lemma {:induction false} SplitCommentCut(line: string)
    requires '#' in line
    ensures var r := SplitComment(line);
      exists rest :: line == r.0 + "#" + rest && r.1 == NonEmpty(Strip(rest))
  {
    var p := SplitOnce(line, '#');
    SplitCommentAt(p.0, p.1);
    assert line == p.0 + "#" + p.1;
  }

  /** The loader's state: the lines so far and the current section. */
  datatype Loading = Loading(doc: Doc, sec: Option<Sec>)

  /** `target.append(l)` where target is the current section, or the
      preamble before any header. */
  function AppendTo(d: Doc, sec: Option<Sec>, l: Line): Doc {
    match sec
    case None => d.(preamble := d.preamble + [l])
    case Some(VertsSec) => d.(verts := d.verts + [l])
    case Some(FacesSec) => d.(faces := d.faces + [l])
    case Some(UvsSec) => d.(uvs := d.uvs + [l])
  }

  function Header(lower: string): Option<Sec> {
    if lower == "verts" then Some(VertsSec)
    else if lower == "faces" then Some(FacesSec)
    else if lower == "uvs" then Some(UvsSec)
    else None
  }

  /** `float(x)` for each token, None if any raises. */
  function ParseReals(parts: seq<string>, num: NumFn): (r: Option<seq<real>>)
    ensures r.Some? ==> |r.value| == |parts|
    decreases |parts|
  {
    if parts == [] then Some([])
    else
      var x := num(parts[0]);
      var rest := ParseReals(parts[1..], num);
      if x.None? || rest.None? then None else Some([x.value] + rest.value)
  }

  /** `int(x)` for each token, None if any raises. */
  function ParseInts(parts: seq<string>): (r: Option<seq<int>>)
    ensures r.Some? ==> |r.value| == |parts|
    decreases |parts|
  {
    if parts == [] then Some([])
    else
      var x := ParseInt(parts[0]);
      var rest := ParseInts(parts[1..]);
      if x.None? || rest.None? then None else Some([x.value] + rest.value)
  }

  /** The tokens parse as numbers exactly when each one does, to those numbers. */
  lemma {:induction false} ParseRealsSpec(parts: seq<string>, num: NumFn)
    ensures var r := ParseReals(parts, num);
      (r.Some? ==> |r.value| == |parts| && forall i :: 0 <= i < |parts| ==> num(parts[i]) == Some(r.value[i])) &&
      (r.None? <==> exists i :: 0 <= i < |parts| && num(parts[i]).None?)
    decreases |parts|
  {
    if parts != [] {
      ParseRealsSpec(parts[1..], num);
      assert forall i :: 1 <= i < |parts| ==> parts[1..][i - 1] == parts[i];
      if ParseReals(parts[1..], num).None? {
        var k :| 0 <= k < |parts[1..]| && num(parts[1..][k]).None?;
        assert num(parts[k + 1]).None?;
      }
    }
  }

  lemma {:induction false} ParseIntsSpec(parts: seq<string>)
    ensures var r := ParseInts(parts);
      (r.Some? ==> |r.value| == |parts| && forall i :: 0 <= i < |parts| ==> ParseInt(parts[i]) == Some(r.value[i])) &&
      (r.None? <==> exists i :: 0 <= i < |parts| && ParseInt(parts[i]).None?)
    decreases |parts|
  {
    if parts != [] {
      ParseIntsSpec(parts[1..]);
      assert forall i :: 1 <= i < |parts| ==> parts[1..][i - 1] == parts[i];
      if ParseInts(parts[1..]).None? {
        var k :| 0 <= k < |parts[1..]| && ParseInt(parts[1..][k]).None?;
        assert ParseInt(parts[k + 1]).None?;
      }
    }
  }

  /** The data line a section's code stands for, or the ValueError. */
  function DataLine(sec: Sec, parts: seq<string>, comment: Option<string>, num: NumFn): Result<Line> {
    match sec
    case VertsSec =>
      if |parts| != 3 then Err("invalid vert line")
      else
        var xs := ParseReals(parts, num);
        if xs.None? then Err("could not convert string to float")
        else Ok(VertLine(Vec3(xs.value[0], xs.value[1], xs.value[2]), comment))
    case FacesSec =>
      if |parts| != 3 then Err("invalid face line")
      else
        var ns := ParseInts(parts);
        if ns.None? then Err("invalid literal for int()")
        else Ok(FaceLine(Tri(ns.value[0], ns.value[1], ns.value[2]), comment))
    case UvsSec =>
      if |parts| != 6 then Err("invalid uv line")
      else
        var xs := ParseReals(parts, num);
        if xs.None? then Err("could not convert string to float")
        else
          var u := xs.value;
          Ok(UvLine(UvTri(Vec2(u[0], u[1]), Vec2(u[2], u[3]), Vec2(u[4], u[5])), comment))
  }

  /** How `Model.load` reads one line's code: blank (keeping the comment),
      a section header, or text. */
  datatype Code = NoCode(comment: Option<string>) | HeaderCode(sec: Sec) | TextCode(cs: string, comment: Option<string>)

  function Classify(raw: string): Code {
    var (code, comment) := SplitComment(raw);
    var cs := Strip(code);
    if cs == [] then NoCode(comment)
    else if Header(LowerAscii(cs)).Some? then HeaderCode(Header(LowerAscii(cs)).value)
    else TextCode(cs, comment)
  }

  /** One pass of the loop of `Model.load`, on the classified line. */
  function StepOn(st: Loading, c: Code, num: NumFn): Result<Loading> {
    match c
    case NoCode(cm) =>
      Ok(Loading(AppendTo(st.doc, st.sec, if cm.None? then Blank else CommentLine(cm.value)), st.sec))
    case HeaderCode(sec) => Ok(Loading(st.doc, Some(sec)))
    case TextCode(cs, cm) =>
      if st.sec.None? then
        Ok(Loading(AppendTo(st.doc, None, CommentLine(if cm.None? then cs else cs + " # " + cm.value)), None))
      else
        var l := DataLine(st.sec.value, Split(cs), cm, num);
        if l.Err? then Err(l.msg) else Ok(Loading(AppendTo(st.doc, st.sec, l.value), st.sec))
  }

  /** One pass of the loop of `Model.load`. */
  function LoadStep(st: Loading, raw: string, num: NumFn): Result<Loading> {
    StepOn(st, Classify(raw), num)
  }

  /** `LoadStep`, as a value that the line loop can be run with. */
  function Step(num: NumFn): (Loading, string) -> Result<Loading> {
    (st: Loading, raw: string) => LoadStep(st, raw, num)
  }

  /** A loop over lines that applies step to each in turn, stopping at the
      first error. */
  function Run(step: (Loading, string) -> Result<Loading>, st: Loading, lines: seq<string>): Result<Loading>
    decreases |lines|
  {
    if lines == [] then Ok(st)
    else
      var r := step(st, lines[0]);
      if r.Err? then r else Run(step, r.value, lines[1..])
  }

  /** The loop of `Model.load` over the file's lines. */
  function LoadLines(st: Loading, lines: seq<string>, num: NumFn): Result<Loading> {
    Run(Step(num), st, lines)
  }

  const Empty := Doc([], [], [], [])

  /** `Model.load`, on the file's text. */
  function LoadDoc(text: string, num: NumFn): Result<Doc> {
    var r := LoadLines(Loading(Empty, None), SplitLines(text), num);
    if r.Err? then Err(r.msg)
    else if Validate(r.value.doc).Some? then Err(Validate(r.value.doc).value)
    else Ok(r.value.doc)
  }

  lemma {:induction false} RunAppend(step: (Loading, string) -> Result<Loading>, st: Loading, a: seq<string>,
                                     b: seq<string>)
    ensures Run(step, st, a + b) == (var r := Run(step, st, a); if r.Err? then r else Run(step, r.value, b))
    decreases |a|
  {
    if a != [] {
      assert (a + b)[0] == a[0] && (a + b)[1..] == a[1..] + b;
      var r := step(st, a[0]);
      if r.Ok? {
        RunAppend(step, r.value, a[1..], b);
      }
    } else {
      assert a + b == b;
    }
  }

  // ------------------------------------------ properties of the loader

  /** A line whose code is blank is kept, as a blank or as its comment, in
      the current section (the preamble before any header), which stays
      current. */
  lemma {:induction false} BlankOrCommentKept(st: Loading, raw: string, num: NumFn)
    requires Strip(SplitComment(raw).0) == []
    ensures var c := SplitComment(raw).1;
      LoadStep(st, raw, num) == Ok(Loading(AppendTo(st.doc, st.sec, if c.None? then Blank else CommentLine(c.value)), st.sec))
    ensures '#' !in raw ==> LoadStep(st, raw, num) == Ok(Loading(AppendTo(st.doc, st.sec, Blank), st.sec))
  {
    assert Classify(raw) == NoCode(SplitComment(raw).1);
  }

  /** A header, in any case of ASCII letters, switches the section and stores no line. */
  lemma {:induction false} HeaderSwitches(st: Loading, raw: string, num: NumFn, sec: Sec)
    requires Strip(SplitComment(raw).0) != [] && Header(LowerAscii(Strip(SplitComment(raw).0))) == Some(sec)
    ensures LoadStep(st, raw, num) == Ok(Loading(st.doc, Some(sec)))
  {
    assert Classify(raw) == HeaderCode(sec);
  }

  /** "VeRtS" is a header. */
  lemma {:induction false} HeaderIgnoresCase()
    ensures Header(LowerAscii("VeRtS")) == Some(VertsSec) && Header(LowerAscii("UVS")) == Some(UvsSec)
  {
    assert LowerAscii("VeRtS") == "verts" by {
      assert "VeRtS"[1..] == "eRtS" && "eRtS"[1..] == "RtS" && "RtS"[1..] == "tS" && "tS"[1..] == "S";
    }
    assert LowerAscii("UVS") == "uvs" by {
      assert "UVS"[1..] == "VS" && "VS"[1..] == "S";
    }
  }

  /** Text before the first header is kept as a preamble comment, with its
      own comment re-attached after " # ". */
  lemma {:induction false} PreambleKept(st: Loading, raw: string, num: NumFn)
    requires st.sec.None?
    requires var cs := Strip(SplitComment(raw).0); cs != [] && Header(LowerAscii(cs)).None?
    ensures var cs := Strip(SplitComment(raw).0);
      var c := SplitComment(raw).1;
      LoadStep(st, raw, num) == Ok(Loading(st.doc.(preamble := st.doc.preamble + [CommentLine(if c.None? then cs else cs + " # " + c.value)]), None))
  {
    assert Classify(raw) == TextCode(Strip(SplitComment(raw).0), SplitComment(raw).1);
  }

  /** A data line fails exactly when it has the wrong number of fields (3
      for verts and faces, 6 for uvs) or a field does not parse; otherwise
      it is a line of its section's kind. */
  lemma {:induction false} DataLineErrors(sec: Sec, parts: seq<string>, cm: Option<string>, num: NumFn)
    ensures var arity := if sec == UvsSec then 6 else 3;
      var bad := if sec == FacesSec then exists i :: 0 <= i < |parts| && ParseInt(parts[i]).None?
                 else exists i :: 0 <= i < |parts| && num(parts[i]).None?;
      DataLine(sec, parts, cm, num).Err? <==> |parts| != arity || bad
    ensures var l := DataLine(sec, parts, cm, num); l.Ok? ==> l.value.comment == cm
    ensures var l := DataLine(sec, parts, cm, num);
      l.Ok? && sec == VertsSec ==> (l.value.VertLine? && |parts| == 3 &&
        num(parts[0]) == Some(l.value.v.x) && num(parts[1]) == Some(l.value.v.y) && num(parts[2]) == Some(l.value.v.z))
    ensures var l := DataLine(sec, parts, cm, num);
      l.Ok? && sec == FacesSec ==> (l.value.FaceLine? && |parts| == 3 &&
        ParseInt(parts[0]) == Some(l.value.f.i1) && ParseInt(parts[1]) == Some(l.value.f.i2) &&
        ParseInt(parts[2]) == Some(l.value.f.i3))
    ensures var l := DataLine(sec, parts, cm, num);
      l.Ok? && sec == UvsSec ==> (l.value.UvLine? && |parts| == 6 &&
        num(parts[0]) == Some(l.value.uv.a.x) && num(parts[1]) == Some(l.value.uv.a.y) &&
        num(parts[2]) == Some(l.value.uv.b.x) && num(parts[3]) == Some(l.value.uv.b.y) &&
        num(parts[4]) == Some(l.value.uv.c.x) && num(parts[5]) == Some(l.value.uv.c.y))
  {
    if sec == FacesSec {
      ParseIntsSpec(parts);
    } else {
      ParseRealsSpec(parts, num);
    }
  }

  /** Inside a section, text is read as a data line of that section: the
      line fails exactly when its data line does, and is appended otherwise. */
  lemma {:induction false} DataLineKept(st: Loading, raw: string, num: NumFn)
    requires st.sec.Some?
    requires var cs := Strip(SplitComment(raw).0); cs != [] && Header(LowerAscii(cs)).None?
    ensures var l := DataLine(st.sec.value, Split(Strip(SplitComment(raw).0)), SplitComment(raw).1, num);
      LoadStep(st, raw, num) == if l.Err? then Err(l.msg) else Ok(Loading(AppendTo(st.doc, st.sec, l.value), st.sec))
  {
    assert Classify(raw) == TextCode(Strip(SplitComment(raw).0), SplitComment(raw).1);
  }

  // ------------------------------------------------------------ saving

  /** ` # comment` after a data line, when it has a non-empty comment. */
  function WithComment(s: string, comment: Option<string>): string {
    if comment.Some? && comment.value != [] then s + "  # " + comment.value else s
  }

  /** `emit_line`. */
  function EmitLine(l: Line, fmt: FmtFn): string {
    match l
    case Blank => ""
    case CommentLine(c) => "# " + c
    case VertLine(v, cm) => WithComment(Join(" ", [fmt(v.x), fmt(v.y), fmt(v.z)]), cm)
    case FaceLine(t, cm) => WithComment(Join(" ", [IntToStr(t.i1), IntToStr(t.i2), IntToStr(t.i3)]), cm)
    case UvLine(u, cm) =>
      WithComment(Join(" ", [fmt(u.a.x), fmt(u.a.y), fmt(u.b.x), fmt(u.b.y), fmt(u.c.x), fmt(u.c.y)]), cm)
  }

  function EmitAll(ls: seq<Line>, fmt: FmtFn): (r: seq<string>)
    ensures |r| == |ls| && forall i :: 0 <= i < |ls| ==> r[i] == EmitLine(ls[i], fmt)
    decreases |ls|
  {
    if ls == [] then [] else [EmitLine(ls[0], fmt)] + EmitAll(ls[1..], fmt)
  }

  /** The lines `save` writes: the preamble (or a default header comment),
      then the three sections in order, each after a blank line but the first. */
  function SaveLines(d: Doc, fmt: FmtFn): seq<string> {
    (if d.preamble != [] then EmitAll(d.preamble, fmt) else ["# afrmodel v1"]) +
    ["verts"] + EmitAll(d.verts, fmt) +
    ["", "faces"] + EmitAll(d.faces, fmt) +
    ["", "uvs"] + EmitAll(d.uvs, fmt) + [""]
  }

  /** `Model.save`: the text written, or the validation error. */
  function SaveDoc(d: Doc, fmt: FmtFn): Result<string> {
    if Validate(d).Some? then Err(Validate(d).value) else Ok(Join("\n", SaveLines(d, fmt)))
  }

  /** The emitted layout: a default comment when there is no preamble,
      then the headers verts, faces, uvs in that order. */
  lemma {:induction false} SaveLayout(d: Doc, fmt: FmtFn)
    ensures var out := SaveLines(d, fmt);
      var p := if d.preamble != [] then |d.preamble| else 1;
      (d.preamble == [] ==> out[0] == "# afrmodel v1") &&
      out[p] == "verts" && out[p + 1 + |d.verts| + 1] == "faces" &&
      out[p + 1 + |d.verts| + 2 + |d.faces| + 1] == "uvs" &&
      |out| == p + |d.verts| + |d.faces| + |d.uvs| + 6
  {
  }

  // ----------------------------------------------------- the round trip

  /** A token `_fmt_num` may write: non-empty, with no whitespace and no `#`. */
  predicate NumToken(t: string) {
    t != [] && NoSpace(t) && '#' !in t
  }

  /** A comment as `load` stores one: non-empty, stripped, on one line. */
  predicate CommentOk(c: string) {
    c != [] && Strip(c) == c && NoLineBreak(c)
  }

  predicate DataCommentOk(cm: Option<string>) {
    cm.Some? ==> CommentOk(cm.value)
  }

  /** Which lines a loaded document can hold where. */
  predicate LineOk(sec: Option<Sec>, l: Line) {
    match l
    case Blank => true
    case CommentLine(c) => CommentOk(c)
    case VertLine(_, cm) => sec == Some(VertsSec) && DataCommentOk(cm)
    case FaceLine(_, cm) => sec == Some(FacesSec) && DataCommentOk(cm)
    case UvLine(_, cm) => sec == Some(UvsSec) && DataCommentOk(cm)
  }

  predicate LinesOk(sec: Option<Sec>, ls: seq<Line>) {
    forall i :: 0 <= i < |ls| ==> LineOk(sec, ls[i])
  }

  predicate DocOk(d: Doc) {
    LinesOk(None, d.preamble) && LinesOk(Some(VertsSec), d.verts) && LinesOk(Some(FacesSec), d.faces) &&
    LinesOk(Some(UvsSec), d.uvs)
  }

  /** What a number becomes after `_fmt_num` and `float`. */
  function Reread(x: real, fmt: FmtFn, num: NumFn): real
    requires num(fmt(x)).Some?
  {
    num(fmt(x)).value
  }

  /** A line as it is read back: numbers pass through the formatter. */
  function RereadLine(l: Line, fmt: FmtFn, num: NumFn): Line
    requires forall x :: num(fmt(x)).Some?
  {
    match l
    case VertLine(v, cm) => VertLine(Vec3(Reread(v.x, fmt, num), Reread(v.y, fmt, num), Reread(v.z, fmt, num)), cm)
    case UvLine(u, cm) =>
      UvLine(UvTri(Vec2(Reread(u.a.x, fmt, num), Reread(u.a.y, fmt, num)), Vec2(Reread(u.b.x, fmt, num), Reread(u.b.y, fmt, num)),
                   Vec2(Reread(u.c.x, fmt, num), Reread(u.c.y, fmt, num))), cm)
    case _ => l
  }

  function RereadAll(ls: seq<Line>, fmt: FmtFn, num: NumFn): (r: seq<Line>)
    requires forall x :: num(fmt(x)).Some?
    ensures |r| == |ls| && forall i :: 0 <= i < |ls| ==> r[i] == RereadLine(ls[i], fmt, num)
    decreases |ls|
  {
    if ls == [] then [] else [RereadLine(ls[0], fmt, num)] + RereadAll(ls[1..], fmt, num)
  }

  lemma {:induction false} NoHashJoin(xs: seq<string>)
    requires forall i :: 0 <= i < |xs| ==> '#' !in xs[i]
    ensures '#' !in Join(" ", xs)
    decreases |xs|
  {
    if |xs| > 1 {
      NoHashJoin(xs[1..]);
    }
  }

  lemma {:induction false} NoBreakJoin(xs: seq<string>)
    requires forall i :: 0 <= i < |xs| ==> NoSpace(xs[i])
    ensures NoLineBreak(Join(" ", xs))
    decreases |xs|
  {
    if |xs| > 1 {
      NoBreakJoin(xs[1..]);
      var j := Join(" ", xs[1..]);
      forall k | 0 <= k < |Join(" ", xs)|
        ensures !IsLineBreak(Join(" ", xs)[k])
      {
        if k < |xs[0]| {
          LineBreakIsSpace(xs[0][k]);
        }
      }
    } else if |xs| == 1 {
      forall k | 0 <= k < |xs[0]|
        ensures !IsLineBreak(xs[0][k])
      {
        LineBreakIsSpace(xs[0][k]);
      }
    }
  }

  /** Code with a space in it is never a header. */
  lemma {:induction false} SpacedNotHeader(s: string, k: int)
    requires 0 <= k < |s| && s[k] == ' '
    ensures Header(LowerAscii(s)).None?
  {
    var l := LowerAscii(s);
    LowerAsciiAt(s, k);
    assert l[k] == ' ';
    assert ' ' in l;
  }

  lemma {:induction false} ClassifyBlank()
    ensures Classify("") == NoCode(None)
  {
    assert SplitComment("") == ("", None);
  }

  /** A saved comment line reads back as that comment. */
  lemma {:induction false} ClassifyComment(c: string)
    requires CommentOk(c)
    ensures Classify("# " + c) == NoCode(Some(c))
  {
    CommentSplits(c);
    assert Strip([]) == [];
  }

  lemma {:induction false} CommentSplits(c: string)
    requires CommentOk(c)
    ensures SplitComment("# " + c) == ([], Some(c))
  {
    assert "# " + c == [] + "#" + (" " + c);
    SplitCommentAt([], " " + c);
    assert Strip(" " + c) == c by {
      assert c == [] || (!IsSpace(c[0]) && !IsSpace(c[|c| - 1])) by {
        StripSpec(c);
      }
      assert AllSpace(" ") && AllSpace([]);
      StripPadded(" ", c, []);
      assert " " + c + [] == " " + c;
    }
  }

  lemma {:induction false} ClassifyHeader(h: string, sec: Sec)
    requires h == "verts" || h == "faces" || h == "uvs"
    requires sec == (if h == "verts" then VertsSec else if h == "faces" then FacesSec else UvsSec)
    ensures Classify(h) == HeaderCode(sec)
  {
    PlainWord(h);
  }

  /** A word of lower-case letters is its own code, stripped and lowered. */
  lemma {:induction false} PlainWord(w: string)
    requires w != [] && forall i :: 0 <= i < |w| ==> 'a' <= w[i] <= 'z'
    ensures SplitComment(w) == (w, None) && Strip(w) == w && LowerAscii(w) == w
  {
    NoHash(w);
    StripWord(w);
    LowerNoUpper(w);
  }

  lemma {:induction false} NoHash(w: string)
    requires forall i :: 0 <= i < |w| ==> 'a' <= w[i] <= 'z'
    ensures SplitComment(w) == (w, None)
  {
    assert '#' !in w;
  }

  lemma {:induction false} StripWord(w: string)
    requires w != [] && forall i :: 0 <= i < |w| ==> 'a' <= w[i] <= 'z'
    ensures Strip(w) == w
  {
    StripTrimmed(w);
  }

  /** Where `_split_comment` cuts a saved data line. */
  lemma {:induction false} SplitCommentData(s: string, cm: Option<string>)
    requires '#' !in s && DataCommentOk(cm)
    ensures SplitComment(WithComment(s, cm)) == (if cm.Some? then s + "  " else s, cm)
  {
    if cm.Some? {
      assert WithComment(s, cm) == s + "  # " + cm.value;
      SplitCommentSome(s, cm.value);
    }
  }

  /** A saved comment is cut at its `#`, after the two padding spaces. */
  lemma SplitCommentSome(s: string, c: string)
    requires '#' !in s && CommentOk(c)
    ensures SplitComment(s + "  # " + c) == (s + "  ", Some(c))
  {
    assert s + "  # " + c == (s + "  ") + "#" + (" " + c);
    assert '#' !in s + "  " by {
      assert (s + "  ")[|s|..] == "  ";
    }
    SplitCommentAt(s + "  ", " " + c);
    assert Strip(" " + c) == c by {
      StripPadded(" ", c, []);
      assert " " + c + [] == " " + c;
    }
  }

  lemma {:induction false} ClassifyText(raw: string, code: string, cm: Option<string>, cs: string)
    requires SplitComment(raw) == (code, cm) && Strip(code) == cs && cs != [] && Header(LowerAscii(cs)).None?
    ensures Classify(raw) == TextCode(cs, cm)
  {
  }

  /** The code fields of a data line, joined with spaces and followed by
      its comment, read back as text with those fields and that comment. */
  lemma {:induction false} ClassifyData(xs: seq<string>, cm: Option<string>)
    requires |xs| >= 2 && Tokens(xs) && (forall i :: 0 <= i < |xs| ==> '#' !in xs[i]) && DataCommentOk(cm)
    ensures Classify(WithComment(Join(" ", xs), cm)) == TextCode(Join(" ", xs), cm)
    ensures Split(Join(" ", xs)) == xs
  {
    JoinedCode(xs);
    DataCode(Join(" ", xs), cm);
    SplitJoined(xs);
  }

  /** Two or more tokens joined with spaces make stripped, `#`-free code
      that is not a header. */
  lemma {:induction false} JoinedCode(xs: seq<string>)
    requires |xs| >= 2 && Tokens(xs) && (forall i :: 0 <= i < |xs| ==> '#' !in xs[i])
    ensures var s := Join(" ", xs);
      '#' !in s && s != [] && !IsSpace(s[0]) && !IsSpace(s[|s| - 1]) && Header(LowerAscii(s)).None?
  {
    var s := Join(" ", xs);
    NoHashJoin(xs);
    JoinNoSpace(xs);
    assert Header(LowerAscii(s)).None? by {
      assert s == xs[0] + " " + Join(" ", xs[1..]);
      assert s[|xs[0]|] == ' ';
      SpacedNotHeader(s, |xs[0]|);
    }
  }

  lemma {:induction false} SplitJoined(xs: seq<string>)
    requires Tokens(xs)
    ensures Split(Join(" ", xs)) == xs
  {
    SplitJoin(xs, []);
    assert Join(" ", xs) + [] == Join(" ", xs);
  }

  /** Stripped, `#`-free code that is not a header reads back as text,
      with the comment it was saved with. */
  lemma {:induction false} DataCode(s: string, cm: Option<string>)
    requires '#' !in s && s != [] && !IsSpace(s[0]) && !IsSpace(s[|s| - 1]) && Header(LowerAscii(s)).None?
    requires DataCommentOk(cm)
    ensures Classify(WithComment(s, cm)) == TextCode(s, cm)
  {
    var code := if cm.Some? then s + "  " else s;
    assert SplitComment(WithComment(s, cm)) == (code, cm) by {
      SplitCommentData(s, cm);
    }
    assert Strip(code) == s by {
      if cm.Some? {
        StripPadded([], s, "  ");
        assert [] + s + "  " == s + "  ";
      } else {
        StripTrimmed(s);
      }
    }
    ClassifyText(WithComment(s, cm), code, cm, s);
  }

  lemma {:induction false} NumTokens(xs: seq<string>)
    requires forall i :: 0 <= i < |xs| ==> NumToken(xs[i])
    ensures Tokens(xs) && forall i :: 0 <= i < |xs| ==> '#' !in xs[i]
  {
  }

  lemma {:induction false} IntTokens(t: Tri)
    ensures var xs := [IntToStr(t.i1), IntToStr(t.i2), IntToStr(t.i3)];
      Tokens(xs) && forall i :: 0 <= i < |xs| ==> '#' !in xs[i]
  {
    IntToStrToken(t.i1);
    IntToStrToken(t.i2);
    IntToStrToken(t.i3);
  }

  lemma {:induction false} VertReads(v: Vec3, cm: Option<string>, fmt: FmtFn, num: NumFn)
    requires forall x :: num(fmt(x)).Some?
    ensures DataLine(VertsSec, [fmt(v.x), fmt(v.y), fmt(v.z)], cm, num) == Ok(RereadLine(VertLine(v, cm), fmt, num))
  {
    ParseRealsSpec([fmt(v.x), fmt(v.y), fmt(v.z)], num);
  }

  lemma {:induction false} FaceReads(t: Tri, cm: Option<string>, num: NumFn)
    ensures DataLine(FacesSec, [IntToStr(t.i1), IntToStr(t.i2), IntToStr(t.i3)], cm, num) == Ok(FaceLine(t, cm))
  {
    ParseIntToStr(t.i1);
    ParseIntToStr(t.i2);
    ParseIntToStr(t.i3);
    ParseIntsSpec([IntToStr(t.i1), IntToStr(t.i2), IntToStr(t.i3)]);
  }

  lemma {:induction false} UvReads(u: UvTri, cm: Option<string>, fmt: FmtFn, num: NumFn)
    requires forall x :: num(fmt(x)).Some?
    ensures DataLine(UvsSec, [fmt(u.a.x), fmt(u.a.y), fmt(u.b.x), fmt(u.b.y), fmt(u.c.x), fmt(u.c.y)], cm, num) ==
            Ok(RereadLine(UvLine(u, cm), fmt, num))
  {
    ParseRealsSpec([fmt(u.a.x), fmt(u.a.y), fmt(u.b.x), fmt(u.b.y), fmt(u.c.x), fmt(u.c.y)], num);
  }

  /** One emitted line, read back in its own section, appends that line
      with its numbers re-read. */
  lemma {:induction false} EmitLineLoads(d: Doc, sec: Option<Sec>, l: Line, fmt: FmtFn, num: NumFn)
    requires LineOk(sec, l)
    requires forall x :: NumToken(fmt(x)) && num(fmt(x)).Some?
    ensures LoadStep(Loading(d, sec), EmitLine(l, fmt), num) == Ok(Loading(AppendTo(d, sec, RereadLine(l, fmt, num)), sec))
  {
    match l
    case Blank =>
      BlankLoads(d, sec, num);
    case CommentLine(c) =>
      CommentLoads(d, sec, c, num);
    case VertLine(v, cm) =>
      VertLoads(d, v, cm, fmt, num);
    case FaceLine(t, cm) =>
      FaceLoads(d, t, cm, fmt, num);
    case UvLine(u, cm) =>
      UvLoads(d, u, cm, fmt, num);
  }

  lemma {:induction false} BlankLoads(d: Doc, sec: Option<Sec>, num: NumFn)
    ensures LoadStep(Loading(d, sec), "", num) == Ok(Loading(AppendTo(d, sec, Blank), sec))
  {
    ClassifyBlank();
  }

  lemma {:induction false} CommentLoads(d: Doc, sec: Option<Sec>, c: string, num: NumFn)
    requires CommentOk(c)
    ensures LoadStep(Loading(d, sec), "# " + c, num) == Ok(Loading(AppendTo(d, sec, CommentLine(c)), sec))
  {
    ClassifyComment(c);
  }

  /** The fields of a data line as `emit_line` writes them: two or more
      tokens without `#`. */
  predicate Fields(xs: seq<string>) {
    |xs| >= 2 && Tokens(xs) && forall i :: 0 <= i < |xs| ==> '#' !in xs[i]
  }

  /** A data line, written as its fields joined with spaces and its comment,
      appends the line its fields read back as to its section. */
  lemma {:induction false} DataLoads(d: Doc, sec: Sec, xs: seq<string>, cm: Option<string>, l: Line, num: NumFn)
    requires Fields(xs) && DataCommentOk(cm) && DataLine(sec, xs, cm, num) == Ok(l)
    ensures LoadStep(Loading(d, Some(sec)), WithComment(Join(" ", xs), cm), num) ==
            Ok(Loading(AppendTo(d, Some(sec), l), Some(sec)))
  {
    var s := Join(" ", xs);
    var st := Loading(d, Some(sec));
    ClassifyData(xs, cm);
    assert LoadStep(st, WithComment(s, cm), num) == StepOn(st, TextCode(s, cm), num);
    TextLoads(st, s, cm, l, num);
  }

  /** Code read in a section appends the data line it parses to. */
  lemma {:induction false} TextLoads(st: Loading, s: string, cm: Option<string>, l: Line, num: NumFn)
    requires st.sec.Some? && DataLine(st.sec.value, Split(s), cm, num) == Ok(l)
    ensures StepOn(st, TextCode(s, cm), num) == Ok(Loading(AppendTo(st.doc, st.sec, l), st.sec))
  {
  }

  lemma {:induction false} VertLoads(d: Doc, v: Vec3, cm: Option<string>, fmt: FmtFn, num: NumFn)
    requires DataCommentOk(cm)
    requires forall x :: NumToken(fmt(x)) && num(fmt(x)).Some?
    ensures var l := VertLine(v, cm);
      LoadStep(Loading(d, Some(VertsSec)), EmitLine(l, fmt), num) ==
      Ok(Loading(AppendTo(d, Some(VertsSec), RereadLine(l, fmt, num)), Some(VertsSec)))
  {
    VertFields(v, cm, fmt, num);
    assert EmitLine(VertLine(v, cm), fmt) == WithComment(Join(" ", [fmt(v.x), fmt(v.y), fmt(v.z)]), cm);
    DataLoads(d, VertsSec, [fmt(v.x), fmt(v.y), fmt(v.z)], cm, RereadLine(VertLine(v, cm), fmt, num), num);
  }

  lemma {:induction false} VertFields(v: Vec3, cm: Option<string>, fmt: FmtFn, num: NumFn)
    requires forall x :: NumToken(fmt(x)) && num(fmt(x)).Some?
    ensures var xs := [fmt(v.x), fmt(v.y), fmt(v.z)];
      Fields(xs) && DataLine(VertsSec, xs, cm, num) == Ok(RereadLine(VertLine(v, cm), fmt, num))
  {
    var xs := [fmt(v.x), fmt(v.y), fmt(v.z)];
    NumTokens(xs);
    VertReads(v, cm, fmt, num);
  }

  lemma {:induction false} FaceLoads(d: Doc, t: Tri, cm: Option<string>, fmt: FmtFn, num: NumFn)
    requires DataCommentOk(cm)
    ensures var l := FaceLine(t, cm);
      LoadStep(Loading(d, Some(FacesSec)), EmitLine(l, fmt), num) == Ok(Loading(AppendTo(d, Some(FacesSec), l), Some(FacesSec)))
  {
    FaceFields(t, cm, num);
    assert EmitLine(FaceLine(t, cm), fmt) == WithComment(Join(" ", [IntToStr(t.i1), IntToStr(t.i2), IntToStr(t.i3)]), cm);
    DataLoads(d, FacesSec, [IntToStr(t.i1), IntToStr(t.i2), IntToStr(t.i3)], cm, FaceLine(t, cm), num);
  }

  lemma {:induction false} FaceFields(t: Tri, cm: Option<string>, num: NumFn)
    ensures var xs := [IntToStr(t.i1), IntToStr(t.i2), IntToStr(t.i3)];
      Fields(xs) && DataLine(FacesSec, xs, cm, num) == Ok(FaceLine(t, cm))
  {
    var xs := [IntToStr(t.i1), IntToStr(t.i2), IntToStr(t.i3)];
    IntTokens(t);
    FaceReads(t, cm, num);
  }

  lemma {:induction false} UvLoads(d: Doc, u: UvTri, cm: Option<string>, fmt: FmtFn, num: NumFn)
    requires DataCommentOk(cm)
    requires forall x :: NumToken(fmt(x)) && num(fmt(x)).Some?
    ensures var l := UvLine(u, cm);
      LoadStep(Loading(d, Some(UvsSec)), EmitLine(l, fmt), num) ==
      Ok(Loading(AppendTo(d, Some(UvsSec), RereadLine(l, fmt, num)), Some(UvsSec)))
  {
    UvFields(u, cm, fmt, num);
    assert EmitLine(UvLine(u, cm), fmt) ==
           WithComment(Join(" ", [fmt(u.a.x), fmt(u.a.y), fmt(u.b.x), fmt(u.b.y), fmt(u.c.x), fmt(u.c.y)]), cm);
    DataLoads(d, UvsSec, [fmt(u.a.x), fmt(u.a.y), fmt(u.b.x), fmt(u.b.y), fmt(u.c.x), fmt(u.c.y)], cm,
              RereadLine(UvLine(u, cm), fmt, num), num);
  }

  lemma {:induction false} UvFields(u: UvTri, cm: Option<string>, fmt: FmtFn, num: NumFn)
    requires forall x :: NumToken(fmt(x)) && num(fmt(x)).Some?
    ensures var xs := [fmt(u.a.x), fmt(u.a.y), fmt(u.b.x), fmt(u.b.y), fmt(u.c.x), fmt(u.c.y)];
      Fields(xs) && DataLine(UvsSec, xs, cm, num) == Ok(RereadLine(UvLine(u, cm), fmt, num))
  {
    var xs := [fmt(u.a.x), fmt(u.a.y), fmt(u.b.x), fmt(u.b.y), fmt(u.c.x), fmt(u.c.y)];
    NumTokens(xs);
    UvReads(u, cm, fmt, num);
  }

  function AppendAll(d: Doc, sec: Option<Sec>, ls: seq<Line>): Doc
    decreases |ls|
  {
    if ls == [] then d else AppendAll(AppendTo(d, sec, ls[0]), sec, ls[1..])
  }

  /** Reading raw appends l to the current section, whatever was read before. */
  ghost predicate LineLoads(step: (Loading, string) -> Result<Loading>, sec: Option<Sec>, raw: string, l: Line) {
    forall d: Doc :: step(Loading(d, sec), raw) == Ok(Loading(AppendTo(d, sec, l), sec))
  }

  lemma {:induction false} LinesLoad(step: (Loading, string) -> Result<Loading>, d: Doc, sec: Option<Sec>,
                                     raws: seq<string>, ls: seq<Line>)
    requires |raws| == |ls| && forall i :: 0 <= i < |raws| ==> LineLoads(step, sec, raws[i], ls[i])
    ensures Run(step, Loading(d, sec), raws) == Ok(Loading(AppendAll(d, sec, ls), sec))
    decreases |raws|
  {
    if raws != [] {
      assert LineLoads(step, sec, raws[0], ls[0]);
      var d' := AppendTo(d, sec, ls[0]);
      assert step(Loading(d, sec), raws[0]) == Ok(Loading(d', sec));
      assert forall i :: 0 <= i < |raws| - 1 ==> raws[1..][i] == raws[i + 1] && ls[1..][i] == ls[i + 1];
      LinesLoad(step, d', sec, raws[1..], ls[1..]);
    }
  }

  lemma {:induction false} LineLoadsOf(sec: Option<Sec>, l: Line, fmt: FmtFn, num: NumFn)
    requires LineOk(sec, l)
    requires forall x :: NumToken(fmt(x)) && num(fmt(x)).Some?
    ensures LineLoads(Step(num), sec, EmitLine(l, fmt), RereadLine(l, fmt, num))
  {
    forall d: Doc
      ensures Step(num)(Loading(d, sec), EmitLine(l, fmt)) == Ok(Loading(AppendTo(d, sec, RereadLine(l, fmt, num)), sec))
    {
      EmitLineLoads(d, sec, l, fmt, num);
    }
  }

  /** The emitted lines of a section read back as its lines, numbers re-read. */
  lemma {:induction false} EmittedLoad(d: Doc, sec: Option<Sec>, ls: seq<Line>, fmt: FmtFn, num: NumFn)
    requires LinesOk(sec, ls)
    requires forall x :: NumToken(fmt(x)) && num(fmt(x)).Some?
    ensures LoadLines(Loading(d, sec), EmitAll(ls, fmt), num) == Ok(Loading(AppendAll(d, sec, RereadAll(ls, fmt, num)), sec))
  {
    var raws := EmitAll(ls, fmt);
    var ls' := RereadAll(ls, fmt, num);
    forall i | 0 <= i < |raws|
      ensures LineLoads(Step(num), sec, raws[i], ls'[i])
    {
      LineLoadsOf(sec, ls[i], fmt, num);
    }
    LinesLoad(Step(num), d, sec, raws, ls');
  }

  lemma {:induction false} AppendAllIs(d: Doc, sec: Option<Sec>, ls: seq<Line>)
    ensures AppendAll(d, sec, ls) ==
      match sec
      case None => d.(preamble := d.preamble + ls)
      case Some(VertsSec) => d.(verts := d.verts + ls)
      case Some(FacesSec) => d.(faces := d.faces + ls)
      case Some(UvsSec) => d.(uvs := d.uvs + ls)
    decreases |ls|
  {
    if ls != [] {
      AppendAllIs(AppendTo(d, sec, ls[0]), sec, ls[1..]);
      assert [ls[0]] + ls[1..] == ls;
      match sec
      case None => assert d.preamble + [ls[0]] + ls[1..] == d.preamble + ls;
      case Some(VertsSec) => assert d.verts + [ls[0]] + ls[1..] == d.verts + ls;
      case Some(FacesSec) => assert d.faces + [ls[0]] + ls[1..] == d.faces + ls;
      case Some(UvsSec) => assert d.uvs + [ls[0]] + ls[1..] == d.uvs + ls;
    } else {
      match sec
      case None => assert d.preamble + ls == d.preamble;
      case Some(VertsSec) => assert d.verts + ls == d.verts;
      case Some(FacesSec) => assert d.faces + ls == d.faces;
      case Some(UvsSec) => assert d.uvs + ls == d.uvs;
    }
  }

  lemma {:induction false} RereadKeepsComments(ls: seq<Line>, fmt: FmtFn, num: NumFn)
    requires forall x :: num(fmt(x)).Some?
    requires forall i :: 0 <= i < |ls| ==> !ls[i].VertLine? && !ls[i].UvLine?
    ensures RereadAll(ls, fmt, num) == ls
    decreases |ls|
  {
    if ls != [] {
      RereadKeepsComments(ls[1..], fmt, num);
      assert [ls[0]] + ls[1..] == ls;
    }
  }

  /** Appending lines to a section that is still empty sets it. */
  lemma {:induction false} AppendFresh(d: Doc, sec: Option<Sec>, ls: seq<Line>)
    requires match sec
      case None => d.preamble == []
      case Some(VertsSec) => d.verts == []
      case Some(FacesSec) => d.faces == []
      case Some(UvsSec) => d.uvs == []
    ensures AppendAll(d, sec, ls) ==
      match sec
      case None => d.(preamble := ls)
      case Some(VertsSec) => d.(verts := ls)
      case Some(FacesSec) => d.(faces := ls)
      case Some(UvsSec) => d.(uvs := ls)
  {
    AppendAllIs(d, sec, ls);
    assert [] + ls == ls;
  }

  lemma {:induction false} RunOne(step: (Loading, string) -> Result<Loading>, st: Loading, x: string)
    ensures Run(step, st, [x]) == step(st, x)
  {
    assert [x][1..] == [];
  }

  lemma {:induction false} HeaderPiece(st: Loading, h: string, sec: Sec, num: NumFn)
    requires h == "verts" || h == "faces" || h == "uvs"
    requires sec == (if h == "verts" then VertsSec else if h == "faces" then FacesSec else UvsSec)
    ensures LoadLines(st, [h], num) == Ok(Loading(st.doc, Some(sec)))
  {
    assert Classify(h) == HeaderCode(sec) by {
      ClassifyHeader(h, sec);
    }
    ClassifiedLine(st, h, HeaderCode(sec), num);
  }

  /** A single line loads as the code it classifies as. */
  lemma {:induction false} ClassifiedLine(st: Loading, raw: string, c: Code, num: NumFn)
    requires Classify(raw) == c
    ensures LoadLines(st, [raw], num) == StepOn(st, c, num)
  {
    RunOne(Step(num), st, raw);
  }

  lemma {:induction false} BlankPiece(st: Loading, num: NumFn)
    ensures LoadLines(st, [""], num) == Ok(Loading(AppendTo(st.doc, st.sec, Blank), st.sec))
  {
    BlankLoads(st.doc, st.sec, num);
    RunOne(Step(num), st, "");
  }

  /** Running over one piece of a file after another. */
  lemma {:induction false} RunChain(step: (Loading, string) -> Result<Loading>, s0: Loading, s1: Loading,
                                    s2: Loading, a: seq<string>, b: seq<string>)
    requires Run(step, s0, a) == Ok(s1) && Run(step, s1, b) == Ok(s2)
    ensures Run(step, s0, a + b) == Ok(s2)
  {
    RunAppend(step, s0, a, b);
  }

  /** The lines of a saved file, before the final empty one, loaded in turn. */
  lemma {:induction false} LoadSaved(d: Doc, fmt: FmtFn, num: NumFn)
    requires DocOk(d)
    requires forall x :: NumToken(fmt(x)) && num(fmt(x)).Some?
    ensures var head := if d.preamble != [] then EmitAll(d.preamble, fmt) else ["# afrmodel v1"];
      var pre := if d.preamble != [] then d.preamble else [CommentLine("afrmodel v1")];
      LoadLines(Loading(Empty, None), head + ["verts"] + EmitAll(d.verts, fmt) + [""] + ["faces"] + EmitAll(d.faces, fmt) +
                [""] + ["uvs"] + EmitAll(d.uvs, fmt), num) ==
      Ok(Loading(Doc(pre, RereadAll(d.verts, fmt, num) + [Blank], d.faces + [Blank], RereadAll(d.uvs, fmt, num)), Some(UvsSec)))
  {
    var head := if d.preamble != [] then EmitAll(d.preamble, fmt) else ["# afrmodel v1"];
    var pre := if d.preamble != [] then d.preamble else [CommentLine("afrmodel v1")];
    var rv := RereadAll(d.verts, fmt, num);
    var ev, ef, eu := EmitAll(d.verts, fmt), EmitAll(d.faces, fmt), EmitAll(d.uvs, fmt);
    var s1 := Loading(Doc(pre, [], [], []), None);
    var s4 := Loading(Doc(pre, rv + [Blank], [], []), Some(VertsSec));
    var s7 := Loading(Doc(pre, rv + [Blank], d.faces + [Blank], []), Some(FacesSec));
    var s9 := Loading(Doc(pre, rv + [Blank], d.faces + [Blank], RereadAll(d.uvs, fmt, num)), Some(UvsSec));
    HeadLoads(d, fmt, num);
    VertsSectionLoads(pre, d.verts, fmt, num);
    FacesSectionLoads(pre, rv + [Blank], d.faces, fmt, num);
    UvsSectionLoads(pre, rv + [Blank], d.faces + [Blank], d.uvs, fmt, num);
    RunChain(Step(num), Loading(Empty, None), s1, s4, head, ["verts"] + ev + [""]);
    RunChain(Step(num), Loading(Empty, None), s4, s7, head + (["verts"] + ev + [""]), ["faces"] + ef + [""]);
    RunChain(Step(num), Loading(Empty, None), s7, s9, head + (["verts"] + ev + [""]) + (["faces"] + ef + [""]), ["uvs"] + eu);
    Regroup(head, ["verts"], ev, [""], ["faces"], ef, [""], ["uvs"], eu);
  }

  lemma {:induction false} Regroup<T>(a: seq<T>, b: seq<T>, c: seq<T>, d: seq<T>, e: seq<T>, f: seq<T>, g: seq<T>,
                                      h: seq<T>, i: seq<T>)
    ensures a + (b + c + d) + (e + f + g) + (h + i) == a + b + c + d + e + f + g + h + i
  {
    assert a + (b + c + d) == a + b + c + d;
    assert a + b + c + d + (e + f + g) == a + b + c + d + e + f + g;
    assert a + b + c + d + e + f + g + (h + i) == a + b + c + d + e + f + g + h + i;
  }

  /** The verts section of a saved file, after the preamble: its header,
      its lines and the blank separator. */
  lemma {:induction false} VertsSectionLoads(pre: seq<Line>, vs: seq<Line>, fmt: FmtFn, num: NumFn)
    requires LinesOk(Some(VertsSec), vs)
    requires forall x :: NumToken(fmt(x)) && num(fmt(x)).Some?
    ensures LoadLines(Loading(Doc(pre, [], [], []), None), ["verts"] + EmitAll(vs, fmt) + [""], num) ==
            Ok(Loading(Doc(pre, RereadAll(vs, fmt, num) + [Blank], [], []), Some(VertsSec)))
  {
    var s1 := Loading(Doc(pre, [], [], []), None);
    var s2 := Loading(s1.doc, Some(VertsSec));
    var s3 := Loading(Doc(pre, RereadAll(vs, fmt, num), [], []), Some(VertsSec));
    var s4 := Loading(Doc(pre, RereadAll(vs, fmt, num) + [Blank], [], []), Some(VertsSec));
    assert LoadLines(s1, ["verts"], num) == Ok(s2) by {
      HeaderPiece(s1, "verts", VertsSec, num);
    }
    assert LoadLines(s2, EmitAll(vs, fmt), num) == Ok(s3) by {
      EmittedLoad(s2.doc, Some(VertsSec), vs, fmt, num);
      AppendFresh(s2.doc, Some(VertsSec), RereadAll(vs, fmt, num));
    }
    assert LoadLines(s3, [""], num) == Ok(s4) by {
      BlankPiece(s3, num);
    }
    RunChain(Step(num), s1, s2, s3, ["verts"], EmitAll(vs, fmt));
    RunChain(Step(num), s1, s3, s4, ["verts"] + EmitAll(vs, fmt), [""]);
  }

  lemma {:induction false} FacesSectionLoads(pre: seq<Line>, vs: seq<Line>, fs: seq<Line>, fmt: FmtFn, num: NumFn)
    requires LinesOk(Some(FacesSec), fs)
    requires forall x :: NumToken(fmt(x)) && num(fmt(x)).Some?
    ensures LoadLines(Loading(Doc(pre, vs, [], []), Some(VertsSec)), ["faces"] + EmitAll(fs, fmt) + [""], num) ==
            Ok(Loading(Doc(pre, vs, fs + [Blank], []), Some(FacesSec)))
  {
    var s4 := Loading(Doc(pre, vs, [], []), Some(VertsSec));
    var s5 := Loading(s4.doc, Some(FacesSec));
    var s6 := Loading(Doc(pre, vs, fs, []), Some(FacesSec));
    var s7 := Loading(Doc(pre, vs, fs + [Blank], []), Some(FacesSec));
    assert LoadLines(s4, ["faces"], num) == Ok(s5) by {
      HeaderPiece(s4, "faces", FacesSec, num);
    }
    assert LoadLines(s5, EmitAll(fs, fmt), num) == Ok(s6) by {
      EmittedLoad(s5.doc, Some(FacesSec), fs, fmt, num);
      AppendFresh(s5.doc, Some(FacesSec), RereadAll(fs, fmt, num));
      forall i | 0 <= i < |fs|
        ensures !fs[i].VertLine? && !fs[i].UvLine?
      {
        assert LineOk(Some(FacesSec), fs[i]);
      }
      RereadKeepsComments(fs, fmt, num);
    }
    assert LoadLines(s6, [""], num) == Ok(s7) by {
      BlankPiece(s6, num);
    }
    RunChain(Step(num), s4, s5, s6, ["faces"], EmitAll(fs, fmt));
    RunChain(Step(num), s4, s6, s7, ["faces"] + EmitAll(fs, fmt), [""]);
  }

  lemma {:induction false} UvsSectionLoads(pre: seq<Line>, vs: seq<Line>, fs: seq<Line>, us: seq<Line>, fmt: FmtFn, num: NumFn)
    requires LinesOk(Some(UvsSec), us)
    requires forall x :: NumToken(fmt(x)) && num(fmt(x)).Some?
    ensures LoadLines(Loading(Doc(pre, vs, fs, []), Some(FacesSec)), ["uvs"] + EmitAll(us, fmt), num) ==
            Ok(Loading(Doc(pre, vs, fs, RereadAll(us, fmt, num)), Some(UvsSec)))
  {
    var s7 := Loading(Doc(pre, vs, fs, []), Some(FacesSec));
    var s8 := Loading(s7.doc, Some(UvsSec));
    var s9 := Loading(Doc(pre, vs, fs, RereadAll(us, fmt, num)), Some(UvsSec));
    assert LoadLines(s7, ["uvs"], num) == Ok(s8) by {
      HeaderPiece(s7, "uvs", UvsSec, num);
    }
    assert LoadLines(s8, EmitAll(us, fmt), num) == Ok(s9) by {
      EmittedLoad(s8.doc, Some(UvsSec), us, fmt, num);
      AppendFresh(s8.doc, Some(UvsSec), RereadAll(us, fmt, num));
    }
    RunChain(Step(num), s7, s8, s9, ["uvs"], EmitAll(us, fmt));
  }

  /** The preamble, or the default comment, read back before any header. */
  lemma {:induction false} HeadLoads(d: Doc, fmt: FmtFn, num: NumFn)
    requires LinesOk(None, d.preamble)
    requires forall x :: NumToken(fmt(x)) && num(fmt(x)).Some?
    ensures var head := if d.preamble != [] then EmitAll(d.preamble, fmt) else ["# afrmodel v1"];
      var pre := if d.preamble != [] then d.preamble else [CommentLine("afrmodel v1")];
      LoadLines(Loading(Empty, None), head, num) == Ok(Loading(Doc(pre, [], [], []), None))
  {
    if d.preamble != [] {
      PreambleLoads(d, fmt, num);
    } else {
      assert LoadLines(Loading(Empty, None), ["# " + "afrmodel v1"], num) ==
             Ok(Loading(Doc([CommentLine("afrmodel v1")], [], [], []), None)) by {
        DefaultCommentOk();
        DefaultHeadLoads("afrmodel v1", num);
      }
      DefaultHeadText();
    }
  }

  lemma {:induction false} PreambleLoads(d: Doc, fmt: FmtFn, num: NumFn)
    requires d.preamble != [] && LinesOk(None, d.preamble)
    requires forall x :: NumToken(fmt(x)) && num(fmt(x)).Some?
    ensures LoadLines(Loading(Empty, None), EmitAll(d.preamble, fmt), num) == Ok(Loading(Doc(d.preamble, [], [], []), None))
  {
    var pre := d.preamble;
    assert LoadLines(Loading(Empty, None), EmitAll(pre, fmt), num) ==
           Ok(Loading(AppendAll(Empty, None, RereadAll(pre, fmt, num)), None)) by {
      EmittedLoad(Empty, None, pre, fmt, num);
    }
    assert RereadAll(pre, fmt, num) == pre by {
      forall i | 0 <= i < |pre|
        ensures !pre[i].VertLine? && !pre[i].UvLine?
      {
        assert LineOk(None, pre[i]);
      }
      RereadKeepsComments(pre, fmt, num);
    }
    assert AppendAll(Empty, None, pre) == Doc(pre, [], [], []) by {
      AppendFresh(Empty, None, pre);
    }
  }

  lemma {:induction false} DefaultHeadLoads(c: string, num: NumFn)
    requires CommentOk(c)
    ensures LoadLines(Loading(Empty, None), ["# " + c], num) == Ok(Loading(Doc([CommentLine(c)], [], [], []), None))
  {
    CommentLoads(Empty, None, c, num);
    RunOne(Step(num), Loading(Empty, None), "# " + c);
    FirstLine(CommentLine(c));
  }

  lemma {:induction false} FirstLine(l: Line)
    ensures AppendTo(Empty, None, l) == Doc([l], [], [], [])
  {
    assert [] + [l] == [l];
  }

  lemma {:induction false} DefaultHeadText()
    ensures "# afrmodel v1" == "# " + "afrmodel v1"
  {
  }

  lemma {:induction false} DefaultCommentOk()
    ensures CommentOk("afrmodel v1")
  {
    DefaultStripped();
    DefaultOneLine();
  }

  lemma {:induction false} DefaultStripped()
    ensures Strip("afrmodel v1") == "afrmodel v1"
  {
    StripTrimmed("afrmodel v1");
  }

  lemma {:induction false} DefaultOneLine()
    ensures NoLineBreak("afrmodel v1")
  {
    PrintableOneLine("afrmodel v1");
  }

  /** Saving and loading again, where saving writes the file's text and
      loading reads it back: the preamble survives (or gains the default
      comment), face lines and comments survive exactly, numbers pass
      through `_fmt_num` and `float`, and each of the verts and faces
      sections gains one trailing blank line from the separators `save`
      writes. */
  lemma {:induction false} SaveLoad(d: Doc, fmt: FmtFn, num: NumFn)
    requires DocOk(d) && Validate(d).None?
    requires forall x :: NumToken(fmt(x)) && num(fmt(x)).Some?
    ensures SaveDoc(d, fmt).Ok?
    ensures LoadDoc(SaveDoc(d, fmt).value, num) ==
      Ok(Doc(if d.preamble == [] then [CommentLine("afrmodel v1")] else d.preamble,
             RereadAll(d.verts, fmt, num) + [Blank], d.faces + [Blank], RereadAll(d.uvs, fmt, num)))
  {
    var out := SaveLines(d, fmt);
    var head := if d.preamble != [] then EmitAll(d.preamble, fmt) else ["# afrmodel v1"];
    var lines := head + ["verts"] + EmitAll(d.verts, fmt) + [""] + ["faces"] + EmitAll(d.faces, fmt) + [""] + ["uvs"] +
                 EmitAll(d.uvs, fmt);
    assert SplitLines(Join("\n", out)) == lines by {
      SaveLinesOneLine(d, fmt, num);
      SplitLinesJoin(out);
      SavedLines(head, EmitAll(d.verts, fmt), EmitAll(d.faces, fmt), EmitAll(d.uvs, fmt));
    }
    LoadSaved(d, fmt, num);
    RereadCounts(d, fmt, num);
  }

  lemma {:induction false} SavedLines(head: seq<string>, ev: seq<string>, ef: seq<string>, eu: seq<string>)
    ensures var out := head + ["verts"] + ev + ["", "faces"] + ef + ["", "uvs"] + eu + [""];
      out[..|out| - 1] == head + ["verts"] + ev + [""] + ["faces"] + ef + [""] + ["uvs"] + eu
  {
  }

  /** Printable ASCII holds no line break. */
  lemma {:induction false} PrintableOneLine(w: string)
    requires forall i :: 0 <= i < |w| ==> ' ' <= w[i] <= '~'
    ensures NoLineBreak(w)
  {
  }

  predicate OneLineEach(xs: seq<string>) {
    forall i :: 0 <= i < |xs| ==> NoLineBreak(xs[i])
  }

  lemma {:induction false} OneLineConcat(a: seq<string>, b: seq<string>)
    requires OneLineEach(a) && OneLineEach(b)
    ensures OneLineEach(a + b)
  {
    forall i | 0 <= i < |a + b|
      ensures NoLineBreak((a + b)[i])
    {
      if i >= |a| {
        assert (a + b)[i] == b[i - |a|];
      }
    }
  }

  /** Every saved line is on one line of text. */
  lemma {:induction false} SaveLinesOneLine(d: Doc, fmt: FmtFn, num: NumFn)
    requires DocOk(d)
    requires forall x :: NumToken(fmt(x)) && num(fmt(x)).Some?
    ensures OneLineEach(SaveLines(d, fmt))
  {
    var head := if d.preamble != [] then EmitAll(d.preamble, fmt) else ["# afrmodel v1"];
    if d.preamble != [] {
      EmitOneLine(None, d.preamble, fmt, num);
    } else {
      PrintableOneLine("# afrmodel v1");
    }
    EmitOneLine(Some(VertsSec), d.verts, fmt, num);
    EmitOneLine(Some(FacesSec), d.faces, fmt, num);
    EmitOneLine(Some(UvsSec), d.uvs, fmt, num);
    Layout(head, EmitAll(d.verts, fmt), EmitAll(d.faces, fmt), EmitAll(d.uvs, fmt));
  }

  lemma {:induction false} Layout(head: seq<string>, ev: seq<string>, ef: seq<string>, eu: seq<string>)
    requires OneLineEach(head) && OneLineEach(ev) && OneLineEach(ef) && OneLineEach(eu)
    ensures OneLineEach(head + ["verts"] + ev + ["", "faces"] + ef + ["", "uvs"] + eu + [""])
  {
    PrintableOneLine("verts");
    PrintableOneLine("faces");
    PrintableOneLine("uvs");
    OneLineConcat(head, ["verts"]);
    OneLineConcat(head + ["verts"], ev);
    OneLineConcat(head + ["verts"] + ev, ["", "faces"]);
    OneLineConcat(head + ["verts"] + ev + ["", "faces"], ef);
    OneLineConcat(head + ["verts"] + ev + ["", "faces"] + ef, ["", "uvs"]);
    OneLineConcat(head + ["verts"] + ev + ["", "faces"] + ef + ["", "uvs"], eu);
    OneLineConcat(head + ["verts"] + ev + ["", "faces"] + ef + ["", "uvs"] + eu, [""]);
  }

  lemma {:induction false} EmitOneLine(sec: Option<Sec>, ls: seq<Line>, fmt: FmtFn, num: NumFn)
    requires LinesOk(sec, ls)
    requires forall x :: NumToken(fmt(x)) && num(fmt(x)).Some?
    ensures OneLineEach(EmitAll(ls, fmt))
    decreases |ls|
  {
    if ls != [] {
      LineOneLine(sec, ls[0], fmt, num);
      EmitOneLine(sec, ls[1..], fmt, num);
      OneLineConcat([EmitLine(ls[0], fmt)], EmitAll(ls[1..], fmt));
    }
  }

  lemma {:induction false} LineOneLine(sec: Option<Sec>, l: Line, fmt: FmtFn, num: NumFn)
    requires LineOk(sec, l)
    requires forall x :: NumToken(fmt(x)) && num(fmt(x)).Some?
    ensures NoLineBreak(EmitLine(l, fmt))
  {
    match l
    case Blank =>
    case CommentLine(c) =>
      NoBreakConcat("# ", c);
    case VertLine(v, cm) =>
      var xs := [fmt(v.x), fmt(v.y), fmt(v.z)];
      NoBreakJoin(xs);
      WithCommentOneLine(Join(" ", xs), cm);
    case FaceLine(t, cm) =>
      var xs := [IntToStr(t.i1), IntToStr(t.i2), IntToStr(t.i3)];
      IntTokens(t);
      NoBreakJoin(xs);
      WithCommentOneLine(Join(" ", xs), cm);
    case UvLine(u, cm) =>
      var xs := [fmt(u.a.x), fmt(u.a.y), fmt(u.b.x), fmt(u.b.y), fmt(u.c.x), fmt(u.c.y)];
      NoBreakJoin(xs);
      WithCommentOneLine(Join(" ", xs), cm);
  }

  lemma {:induction false} NoBreakConcat(a: string, b: string)
    requires NoLineBreak(a) && NoLineBreak(b)
    ensures NoLineBreak(a + b)
  {
    forall k | 0 <= k < |a + b|
      ensures !IsLineBreak((a + b)[k])
    {
      if k >= |a| {
        assert (a + b)[k] == b[k - |a|];
      }
    }
  }

  lemma {:induction false} WithCommentOneLine(s: string, cm: Option<string>)
    requires NoLineBreak(s) && DataCommentOk(cm)
    ensures NoLineBreak(WithComment(s, cm))
  {
    if cm.Some? && cm.value != [] {
      NoBreakConcat(s, "  # ");
      NoBreakConcat(s + "  # ", cm.value);
    }
  }

  lemma {:induction false} RereadCounts(d: Doc, fmt: FmtFn, num: NumFn)
    requires Validate(d).None?
    requires forall x :: num(fmt(x)).Some?
    ensures |UvsOf(RereadAll(d.uvs, fmt, num))| == |UvsOf(d.uvs)|
    ensures FacesOf(d.faces + [Blank]) == FacesOf(d.faces)
  {
    UvsReread(d.uvs, fmt, num);
    assert (d.faces + [Blank])[..|d.faces|] == d.faces;
  }

  lemma {:induction false} UvsReread(ls: seq<Line>, fmt: FmtFn, num: NumFn)
    requires forall x :: num(fmt(x)).Some?
    ensures |UvsOf(RereadAll(ls, fmt, num))| == |UvsOf(ls)|
    decreases |ls|
  {
    if ls != [] {
      UvsReread(ls[..|ls| - 1], fmt, num);
      assert RereadAll(ls, fmt, num)[..|ls| - 1] == RereadAll(ls[..|ls| - 1], fmt, num);
    }
  }

  // ------------------------------------- which documents meet DocOk

  /** A string that neither starts nor ends with whitespace. */
  predicate Trimmed(s: string) {
    s == [] || (!IsSpace(s[0]) && !IsSpace(s[|s| - 1]))
  }

  /** A slice of a one-line string is one line. */
  lemma {:induction false} SliceOneLine(s: string, a: int, b: int)
    requires NoLineBreak(s) && 0 <= a <= b <= |s|
    ensures NoLineBreak(s[a..b])
  {
    assert forall i :: 0 <= i < b - a ==> s[a..b][i] == s[a + i];
  }

  /** Stripping keeps a string on one line. */
  lemma {:induction false} StripKeepsOneLine(s: string)
    requires NoLineBreak(s)
    ensures NoLineBreak(Strip(s))
  {
    var l := LStrip(s);
    SliceOneLine(s, |s| - |l|, |s|);
    assert s[|s| - |l|..|s|] == l;
    var r := RStrip(l);
    SliceOneLine(l, 0, |r|);
    assert l[0..|r|] == r;
  }

  /** Stripping a one-line string gives a trimmed one-line string that
      strips to itself. */
  lemma {:induction false} StripOneLine(s: string)
    requires NoLineBreak(s)
    ensures NoLineBreak(Strip(s)) && Trimmed(Strip(s)) && Strip(Strip(s)) == Strip(s)
  {
    StripKeepsOneLine(s);
    StripSpec(s);
    StripTrimmed(Strip(s));
  }

  /** On a one-line string the code part is one line and a comment is one
      `load` can store. */
  lemma {:induction false} SplitCommentOneLine(line: string)
    requires NoLineBreak(line)
    ensures NoLineBreak(SplitComment(line).0) && DataCommentOk(SplitComment(line).1)
    decreases |line|
  {
    if line != [] {
      SliceOneLine(line, 1, |line|);
      assert line[1..|line|] == line[1..];
      if line[0] == '#' {
        StripOneLine(line[1..]);
      } else {
        SplitCommentOneLine(line[1..]);
        NoBreakConcat([line[0]], SplitComment(line[1..]).0);
      }
    }
  }

  /** What `Classify` gives for a line holding no line break. */
  predicate CodeOk(c: Code) {
    match c
    case NoCode(cm) => DataCommentOk(cm)
    case HeaderCode(_) => true
    case TextCode(cs, cm) => cs != [] && Trimmed(cs) && NoLineBreak(cs) && Strip(cs) == cs && DataCommentOk(cm)
  }

  /** What `Classify` makes of a line holding no line break. */
  lemma {:induction false} ClassifyOneLine(raw: string)
    requires NoLineBreak(raw)
    ensures CodeOk(Classify(raw))
  {
    SplitCommentOneLine(raw);
    StripOneLine(SplitComment(raw).0);
  }

  /** Text before the first header, with its comment re-attached after
      " # ", is a comment `load` can store. */
  lemma {:induction false} PreambleTextOk(cs: string, c: string)
    requires cs != [] && Trimmed(cs) && NoLineBreak(cs) && CommentOk(c)
    ensures CommentOk(cs + " # " + c)
  {
    var s := cs + " # " + c;
    StripSpec(c);
    assert s[0] == cs[0] && s[|s| - 1] == c[|c| - 1];
    StripTrimmed(s);
    NoBreakConcat(cs, " # ");
    NoBreakConcat(cs + " # ", c);
  }

  /** Appending a line that may stand in the current section keeps DocOk. */
  lemma {:induction false} AppendToOk(d: Doc, sec: Option<Sec>, l: Line)
    requires DocOk(d) && LineOk(sec, l)
    ensures DocOk(AppendTo(d, sec, l))
  {
  }

  /** A data line carries its section and its comment. */
  lemma {:induction false} DataLineOk(sec: Sec, parts: seq<string>, cm: Option<string>, num: NumFn)
    requires DataCommentOk(cm)
    ensures DataLine(sec, parts, cm, num).Ok? ==> LineOk(Some(sec), DataLine(sec, parts, cm, num).value)
  {
  }

  /** One pass of the loop of `Model.load` on a classified line keeps DocOk. */
  lemma {:induction false} StepOnOk(st: Loading, c: Code, num: NumFn)
    requires CodeOk(c) && DocOk(st.doc)
    ensures StepOn(st, c, num).Ok? ==> DocOk(StepOn(st, c, num).value.doc)
  {
    match c
    case NoCode(cm) =>
      AppendToOk(st.doc, st.sec, if cm.None? then Blank else CommentLine(cm.value));
    case HeaderCode(_) =>
    case TextCode(cs, cm) =>
      if st.sec.None? {
        if cm.Some? {
          PreambleTextOk(cs, cm.value);
        }
        AppendToOk(st.doc, None, CommentLine(if cm.None? then cs else cs + " # " + cm.value));
      } else {
        var l := DataLine(st.sec.value, Split(cs), cm, num);
        DataLineOk(st.sec.value, Split(cs), cm, num);
        if l.Ok? {
          AppendToOk(st.doc, st.sec, l.value);
        }
      }
  }

  /** A loop step that keeps DocOk on every line holding no line break. */
  ghost predicate KeepsOk(step: (Loading, string) -> Result<Loading>) {
    forall st: Loading, raw: string ::
      NoLineBreak(raw) && DocOk(st.doc) && step(st, raw).Ok? ==> DocOk(step(st, raw).value.doc)
  }

  /** One pass of the loop of `Model.load` keeps DocOk. */
  lemma {:induction false} LoadStepOk(num: NumFn)
    ensures KeepsOk(Step(num))
  {
    forall st: Loading, raw: string | NoLineBreak(raw) && DocOk(st.doc)
      ensures Step(num)(st, raw).Ok? ==> DocOk(Step(num)(st, raw).value.doc)
    {
      ClassifyOneLine(raw);
      StepOnOk(st, Classify(raw), num);
    }
  }

  /** A loop over one-line strings whose step keeps DocOk keeps it. */
  lemma {:induction false} RunOk(step: (Loading, string) -> Result<Loading>, st: Loading, lines: seq<string>)
    requires KeepsOk(step)
    requires forall i :: 0 <= i < |lines| ==> NoLineBreak(lines[i])
    requires DocOk(st.doc)
    ensures Run(step, st, lines).Ok? ==> DocOk(Run(step, st, lines).value.doc)
    decreases |lines|
  {
    if lines != [] {
      var r := step(st, lines[0]);
      if r.Ok? {
        assert forall i :: 0 <= i < |lines| - 1 ==> lines[1..][i] == lines[i + 1];
        RunOk(step, r.value, lines[1..]);
      }
    }
  }

  /** Every document `Model.load` returns meets DocOk. */
  lemma {:induction false} LoadedDocOk(text: string, num: NumFn)
    ensures LoadDoc(text, num).Ok? ==> DocOk(LoadDoc(text, num).value)
  {
    LoadStepOk(num);
    RunOk(Step(num), Loading(Empty, None), SplitLines(text));
  }

  /** The setters store lines that meet DocOk, so a model built by the
      constructor, or a loaded one changed through the setters, meets it. */
  lemma {:induction false} SettersOk(d: Doc, vs: seq<Vec3>, fs: seq<Tri>, us: seq<UvTri>)
    ensures DocOk(Doc([], VertLines(vs), FaceLines(fs), UvLines(us)))
    ensures DocOk(d) ==> DocOk(d.(verts := VertLines(vs))) && DocOk(d.(faces := FaceLines(fs))) &&
                         DocOk(d.(uvs := UvLines(us)))
  {
  }

  /** Loading, saving and loading again: the round trip of `SaveLoad` holds
      for every document `Model.load` accepts. */
  lemma {:induction false} LoadSaveLoad(text: string, fmt: FmtFn, num: NumFn)
    requires LoadDoc(text, num).Ok?
    requires forall x :: NumToken(fmt(x)) && num(fmt(x)).Some?
    ensures var d := LoadDoc(text, num).value;
      SaveDoc(d, fmt).Ok? &&
      LoadDoc(SaveDoc(d, fmt).value, num) ==
        Ok(Doc(if d.preamble == [] then [CommentLine("afrmodel v1")] else d.preamble,
               RereadAll(d.verts, fmt, num) + [Blank], d.faces + [Blank], RereadAll(d.uvs, fmt, num)))
  {
    LoadedDocOk(text, num);
    var d := LoadDoc(text, num).value;
    var r := LoadLines(Loading(Empty, None), SplitLines(text), num);
    LoadDocOf(text, num, r);
    SaveLoad(d, fmt, num);
  }

  // ------------------------------------------------------ the class

  /** `Model`: the preamble and the three sections' line lists. */
  class Model {
    var preamble: seq<Line>
    var vertsLines: seq<Line>
    var facesLines: seq<Line>
    var uvsLines: seq<Line>

    function Snapshot(): Doc
      reads this
    {
      Doc(preamble, vertsLines, facesLines, uvsLines)
    }

    /** `Model(verts=None, faces=None, uvs=None)`. */
    constructor (verts: Option<seq<Vec3>>, faces: Option<seq<Tri>>, uvs: Option<seq<UvTri>>)
      ensures preamble == []
      ensures vertsLines == (if verts.Some? then VertLines(verts.value) else [])
      ensures facesLines == (if faces.Some? then FaceLines(faces.value) else [])
      ensures uvsLines == (if uvs.Some? then UvLines(uvs.value) else [])
    {
      preamble := [];
      vertsLines := if verts.Some? then VertLines(verts.value) else [];
      facesLines := if faces.Some? then FaceLines(faces.value) else [];
      uvsLines := if uvs.Some? then UvLines(uvs.value) else [];
    }

    /** The `verts` property. */
    function Verts(): seq<Vec3>
      reads this
    {
      VertsOf(vertsLines)
    }

    function Faces(): seq<Tri>
      reads this
    {
      FacesOf(facesLines)
    }

    function Uvs(): seq<UvTri>
      reads this
    {
      UvsOf(uvsLines)
    }

    /** The `verts` setter: replaces the section's lines, comments included. */
    method SetVerts(vs: seq<Vec3>)
      modifies this
      ensures vertsLines == VertLines(vs) && Verts() == vs
      ensures preamble == old(preamble) && facesLines == old(facesLines) && uvsLines == old(uvsLines)
    {
      vertsLines := VertLines(vs);
      GetAfterSetVerts(vs);
    }

    method SetFaces(fs: seq<Tri>)
      modifies this
      ensures facesLines == FaceLines(fs) && Faces() == fs
      ensures preamble == old(preamble) && vertsLines == old(vertsLines) && uvsLines == old(uvsLines)
    {
      facesLines := FaceLines(fs);
      GetAfterSetFaces(fs);
    }

    method SetUvs(us: seq<UvTri>)
      modifies this
      ensures uvsLines == UvLines(us) && Uvs() == us
      ensures preamble == old(preamble) && vertsLines == old(vertsLines) && facesLines == old(facesLines)
    {
      uvsLines := UvLines(us);
      GetAfterSetUvs(us);
    }

    /** `save`: validates, then emits the lines and joins them with "\n". */
    method Save(fmt: FmtFn) returns (r: Result<string>)
      ensures r == SaveDoc(Snapshot(), fmt)
    {
      var err := Validate(Snapshot());
      if err.Some? {
        return Err(err.value);
      }
      var head: seq<string>;
      if preamble != [] {
        head := EmitInto([], preamble, fmt);
        assert head == EmitAll(preamble, fmt);
      } else {
        head := ["# afrmodel v1"];
      }
      var out := EmitInto(head + ["verts"], vertsLines, fmt);
      out := EmitInto(out + ["", "faces"], facesLines, fmt);
      out := EmitInto(out + ["", "uvs"], uvsLines, fmt);
      out := out + [""];
      SaveLinesParts(Snapshot(), fmt, head);
      return Ok(Join("\n", out));
    }
  }

  lemma {:induction false} SaveLinesParts(d: Doc, fmt: FmtFn, head: seq<string>)
    requires head == if d.preamble != [] then EmitAll(d.preamble, fmt) else ["# afrmodel v1"]
    ensures SaveLines(d, fmt) ==
      head + ["verts"] + EmitAll(d.verts, fmt) + ["", "faces"] + EmitAll(d.faces, fmt) + ["", "uvs"] +
      EmitAll(d.uvs, fmt) + [""]
  {
  }

  lemma {:induction false} EmitAllSnoc(ls: seq<Line>, l: Line, fmt: FmtFn)
    ensures EmitAll(ls + [l], fmt) == EmitAll(ls, fmt) + [EmitLine(l, fmt)]
    decreases |ls|
  {
    if ls == [] {
      assert [] + [l] == [l];
    } else {
      assert (ls + [l])[1..] == ls[1..] + [l];
      EmitAllSnoc(ls[1..], l, fmt);
    }
  }

  /** The `for ln in lines: emit_line(out, ln)` loops. */
  method EmitInto(out: seq<string>, ls: seq<Line>, fmt: FmtFn) returns (o: seq<string>)
    ensures o == out + EmitAll(ls, fmt)
  {
    o := out;
    for i := 0 to |ls|
      invariant o == out + EmitAll(ls[..i], fmt)
    {
      o := o + [EmitLine(ls[i], fmt)];
      assert ls[..i + 1] == ls[..i] + [ls[i]];
      EmitAllSnoc(ls[..i], ls[i], fmt);
    }
    assert ls[..|ls|] == ls;
  }

  lemma {:induction false} RunSnoc(step: (Loading, string) -> Result<Loading>, st0: Loading, lines: seq<string>,
                                   i: int, st: Loading)
    requires 0 <= i < |lines| && Run(step, st0, lines[..i]) == Ok(st)
    ensures var r := step(st, lines[i]);
      (r.Ok? ==> Run(step, st0, lines[..i + 1]) == r) && (r.Err? ==> Run(step, st0, lines) == r)
  {
    RunAppend(step, st0, lines[..i], [lines[i]]);
    assert lines[..i + 1] == lines[..i] + [lines[i]];
    assert [lines[i]][1..] == [];
    RunAppend(step, st0, lines[..i + 1], lines[i + 1..]);
    assert lines[..i + 1] + lines[i + 1..] == lines;
  }

  /** `Model.load` ends with the line loop's error, or with `validate` on
      the loop's document. */
  lemma {:induction false} LoadDocOf(text: string, num: NumFn, r: Result<Loading>)
    requires r == LoadLines(Loading(Empty, None), SplitLines(text), num)
    ensures r.Err? ==> LoadDoc(text, num) == Err(r.msg)
    ensures r.Ok? ==>
              LoadDoc(text, num) == (var e := Validate(r.value.doc); if e.Some? then Err(e.value) else Ok(r.value.doc))
  {
  }

  /** The `for raw in text.splitlines()` loop of `Model.load`, filling m. */
  method ReadLines(m: Model, lines: seq<string>, step: (Loading, string) -> Result<Loading>) returns (r: Result<Loading>)
    requires m.Snapshot() == Empty
    modifies m
    ensures r == Run(step, Loading(Empty, None), lines)
    ensures r.Ok? ==> m.Snapshot() == r.value.doc
  {
    var sec: Option<Sec> := None;
    ghost var st0 := Loading(Empty, None);
    for i := 0 to |lines|
      invariant Run(step, st0, lines[..i]) == Ok(Loading(m.Snapshot(), sec))
    {
      var res := step(Loading(m.Snapshot(), sec), lines[i]);
      RunSnoc(step, st0, lines, i, Loading(m.Snapshot(), sec));
      if res.Err? {
        return res;
      }
      m.preamble, m.vertsLines, m.facesLines, m.uvsLines := res.value.doc.preamble, res.value.doc.verts,
                                                           res.value.doc.faces, res.value.doc.uvs;
      sec := res.value.sec;
    }
    assert lines[..|lines|] == lines;
    return Ok(Loading(m.Snapshot(), sec));
  }

  /** `Model.load(path)` on the file's text: the line loop, then `validate`. */
  method Load(text: string, num: NumFn) returns (r: Result<Model>)
    ensures r.Err? <==> LoadDoc(text, num).Err?
    ensures r.Err? ==> r.msg == LoadDoc(text, num).msg
    ensures r.Ok? ==> fresh(r.value) && r.value.Snapshot() == LoadDoc(text, num).value
  {
    var m := new Model(None, None, None);
    var read := ReadLines(m, SplitLines(text), Step(num));
    LoadDocOf(text, num, read);
    if read.Err? {
      return Err(read.msg);
    }
    var err := Validate(m.Snapshot());
    if err.Some? {
      return Err(err.value);
    }
    return Ok(m);
  }
}
