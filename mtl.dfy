/** `load_mtl`: the subset of Wavefront MTL the OBJ loader reads (`newmtl`,
    `Kd` and `map_Kd`), and the texture search of `_resolve_texture`. */
module Mtl {
  import opened Util
  import opened LinAlg
  import opened Scene
  import opened Text

  /** `(d / name).exists()`, left abstract: the file system. */
  type ExistsFn = (string, string) -> bool

  /** `_load_texture(d / name)`, left abstract: pygame's image loader. */
  type LoadFn = (string, string) -> Image

  /** The file `d / name`. */
  datatype Location = Location(dir: string, name: string)

  // ------------------------------------------------- texture search

  /** The first of dirs that holds a file called name. */
  function FirstDir(name: string, dirs: seq<string>, isFile: ExistsFn): Option<Location>
    decreases |dirs|
  {
    if dirs == [] then None
    else if isFile(dirs[0], name) then Some(Location(dirs[0], name))
    else FirstDir(name, dirs[1..], isFile)
  }

  /** The search finds nothing exactly when no directory holds the name, and
      otherwise the earliest directory that does. */
  lemma {:induction false} FirstDirSpec(name: string, dirs: seq<string>, isFile: ExistsFn)
    ensures FirstDir(name, dirs, isFile).None? <==> forall k :: 0 <= k < |dirs| ==> !isFile(dirs[k], name)
    ensures FirstDir(name, dirs, isFile).Some? ==>
      exists k :: 0 <= k < |dirs| && FirstDir(name, dirs, isFile) == Some(Location(dirs[k], name)) &&
        isFile(dirs[k], name) && forall j :: 0 <= j < k ==> !isFile(dirs[j], name)
    decreases |dirs|
  {
    if dirs != [] {
      FirstDirSpec(name, dirs[1..], isFile);
      if !isFile(dirs[0], name) && FirstDir(name, dirs, isFile).Some? {
        var k :| 0 <= k < |dirs| - 1 && FirstDir(name, dirs[1..], isFile) == Some(Location(dirs[1..][k], name)) &&
          isFile(dirs[1..][k], name) && forall j :: 0 <= j < k ==> !isFile(dirs[1..][j], name);
        assert FirstDir(name, dirs, isFile) == Some(Location(dirs[k + 1], name));
        assert forall j :: 0 <= j < k + 1 ==> !isFile(dirs[j], name) by {
          forall j | 0 <= j < k + 1
            ensures !isFile(dirs[j], name)
          {
            if j > 0 {
              assert dirs[j] == dirs[1..][j - 1];
            }
          }
        }
      }
      if FirstDir(name, dirs, isFile).None? {
        forall k | 0 <= k < |dirs|
          ensures !isFile(dirs[k], name)
        {
          if k > 0 {
            assert dirs[k] == dirs[1..][k - 1];
          }
        }
      }
    }
  }

  /** `_resolve_texture`: the search-order loop over the directories. */
  method ResolveTexture(texName: string, searchDirs: seq<string>, isFile: ExistsFn) returns (r: Option<Location>)
    ensures r == FirstDir(texName, searchDirs, isFile)
  {
    for i := 0 to |searchDirs|
      invariant FirstDir(texName, searchDirs, isFile) == FirstDir(texName, searchDirs[i..], isFile)
    {
      assert searchDirs[i..][0] == searchDirs[i] && searchDirs[i..][1..] == searchDirs[i + 1..];
      if isFile(searchDirs[i], texName) {
        return Some(Location(searchDirs[i], texName));
      }
    }
    assert searchDirs[|searchDirs|..] == [];
    return None;
  }

  // ------------------------------------------------------ statements

  /** What one line of an MTL file asks for. */
  datatype Stmt = Skip | NewMtl(name: string) | Kd(r: string, g: string, b: string) | MapKd(tex: string) | Other

  /** A non-empty statement, split into its command and arguments. */
  function ParseParts(parts: seq<string>): Stmt {
    if parts == [] then Skip
    else
      var cmd := parts[0];
      var args := parts[1..];
      if cmd == "newmtl" && args != [] then NewMtl(Join(" ", args))
      else if cmd == "Kd" && |args| >= 3 then Kd(args[0], args[1], args[2])
      else if cmd == "map_Kd" && args != [] then MapKd(args[|args| - 1])
      else Other
  }

  /** A line: stripped, skipped when blank or a `#` comment, else split on whitespace. */
  function ParseLine(raw: string): Stmt {
    var line := Strip(raw);
    if line == [] || line[0] == '#' then Skip else ParseParts(Split(line))
  }

  /** A line written as its whitespace-free words joined by single spaces
      reads as those words. */
  lemma {:induction false} ParseWords(xs: seq<string>)
    requires Tokens(xs) && xs != [] && xs[0][0] != '#'
    ensures ParseLine(Join(" ", xs)) == ParseParts(xs)
  {
    var s := Join(" ", xs);
    JoinNoSpace(xs);
    StripTrimmed(s);
    assert s[0] == xs[0][0] by {
      JoinHead(xs);
    }
    SplitJoin(xs, []);
    assert s + [] == s;
  }

  lemma {:induction false} JoinHead(xs: seq<string>)
    requires xs != [] && xs[0] != []
    ensures Join(" ", xs) != [] && Join(" ", xs)[0] == xs[0][0]
  {
    if |xs| > 1 {
      assert Join(" ", xs) == xs[0] + " " + Join(" ", xs[1..]);
    }
  }

  // ------------------------------------------------------------ loading

  /** The loop's state: the `mats` dict and the name of `current`. The
      `current` material object is always the dict's entry under its name
      (it is stored there when created, and only a later `newmtl` of the
      same name replaces the entry, which also makes the new object
      current), so updating `current` in place is updating that entry. */
  datatype MtlState = MtlState(mats: map<string, Material>, current: Option<string>)

  /** Every material is filed under its own name, and `current` is one of them. */
  predicate Inv(st: MtlState) {
    (forall k :: k in st.mats ==> st.mats[k].name == k) && (st.current.Some? ==> st.current.value in st.mats)
  }

  const Start := MtlState(map[], None)

  /** The texture directories and the abstract file system, loader and `float`. */
  datatype Env = Env(dirs: seq<string>, isFile: ExistsFn, load: LoadFn, num: NumFn)

  /** One pass of the statement loop. */
  function StepOn(st: MtlState, s: Stmt, env: Env): (r: MtlState)
    requires Inv(st)
    ensures Inv(r) && st.mats.Keys <= r.mats.Keys
    ensures !s.NewMtl? ==> r.current == st.current && r.mats.Keys == st.mats.Keys
    ensures forall k :: k in st.mats && Some(k) != r.current ==> r.mats[k] == st.mats[k]
  {
    match s
    case NewMtl(n) => MtlState(st.mats[n := DefaultMaterial(n)], Some(n))
    case Kd(a, b, c) =>
      if st.current.None? then st
      else
        var x, y, z := env.num(a), env.num(b), env.num(c);
        if x.None? || y.None? || z.None? then st
        else
          var n := st.current.value;
          MtlState(st.mats[n := st.mats[n].(baseColor := Vec3(x.value, y.value, z.value))], st.current)
    case MapKd(t) =>
      if st.current.None? then st
      else
        var loc := FirstDir(t, env.dirs, env.isFile);
        if loc.None? then st
        else
          var n := st.current.value;
          var tex := Texture(env.load(loc.value.dir, loc.value.name));
          MtlState(st.mats[n := st.mats[n].(baseColorTex := Some(tex))], st.current)
    case _ => st
  }

  /** The statements of the lines, in order. */
  function Parsed(lines: seq<string>): (r: seq<Stmt>)
    ensures |r| == |lines| && forall i :: 0 <= i < |lines| ==> r[i] == ParseLine(lines[i])
    decreases |lines|
  {
    if lines == [] then [] else Parsed(lines[..|lines| - 1]) + [ParseLine(lines[|lines| - 1])]
  }

  /** The statement loop, continuing from st. */
  function RunStmts(st: MtlState, ss: seq<Stmt>, env: Env): (r: MtlState)
    requires Inv(st)
    ensures Inv(r)
    decreases |ss|
  {
    if ss == [] then st else StepOn(RunStmts(st, ss[..|ss| - 1], env), ss[|ss| - 1], env)
  }

  /** `[base_dir] + (extra_texture_dirs or [])`. */
  function TexDirs(baseDir: string, extraDirs: Option<seq<string>>): seq<string> {
    [baseDir] + (if extraDirs.None? then [] else extraDirs.value)
  }

  /** `load_mtl` on the file's text, with baseDir its parent directory. */
  function LoadMtlText(text: string, baseDir: string, extraDirs: Option<seq<string>>, isFile: ExistsFn, load: LoadFn,
                       num: NumFn): map<string, Material>
  {
    RunStmts(Start, Parsed(SplitLines(text)), Env(TexDirs(baseDir, extraDirs), isFile, load, num)).mats
  }

  // ------------------------------------------ properties of the loader

  /** `newmtl` starts a fresh default material under its name, replacing
      any earlier entry of that name, and makes it current. */
  lemma {:induction false} NewMtlFresh(st: MtlState, n: string, env: Env)
    requires Inv(st)
    ensures var r := StepOn(st, NewMtl(n), env);
      r.current == Some(n) && r.mats[n] == DefaultMaterial(n) && r.mats.Keys == st.mats.Keys + {n}
  {
  }

  /** Before any `newmtl`, every other statement is ignored. */
  lemma {:induction false} NoCurrentIgnored(st: MtlState, s: Stmt, env: Env)
    requires Inv(st) && st.current.None? && !s.NewMtl?
    ensures StepOn(st, s, env) == st
  {
  }

  /** `Kd` with three numbers sets the current material's colour and
      nothing else; a number that does not parse leaves everything as it was. */
  lemma {:induction false} KdSets(st: MtlState, a: string, b: string, c: string, env: Env)
    requires Inv(st) && st.current.Some?
    ensures var r := StepOn(st, Kd(a, b, c), env);
      var n := st.current.value;
      var x, y, z := env.num(a), env.num(b), env.num(c);
      (x.Some? && y.Some? && z.Some? ==>
         r.mats[n] == st.mats[n].(baseColor := Vec3(x.value, y.value, z.value)) && r.mats[n].name == n) &&
      (x.None? || y.None? || z.None? ==> r == st)
  {
  }

  /** `map_Kd` sets the current material's texture exactly when the search
      finds the file, to the image loaded from where it was found. */
  lemma {:induction false} MapKdSets(st: MtlState, t: string, env: Env)
    requires Inv(st) && st.current.Some?
    ensures var r := StepOn(st, MapKd(t), env);
      var n := st.current.value;
      var loc := FirstDir(t, env.dirs, env.isFile);
      r.mats[n].baseColor == st.mats[n].baseColor &&
      (loc.Some? ==> r.mats[n].baseColorTex == Some(Texture(env.load(loc.value.dir, loc.value.name)))) &&
      (loc.None? ==> r == st)
  {
  }

  lemma {:induction false} RunAppend(st: MtlState, a: seq<Stmt>, b: seq<Stmt>, env: Env)
    requires Inv(st)
    ensures RunStmts(st, a + b, env) == RunStmts(RunStmts(st, a, env), b, env)
    decreases |b|
  {
    if b == [] {
      assert a + b == a;
    } else {
      assert (a + b)[..|a + b| - 1] == a + b[..|b| - 1];
      assert (a + b)[|a + b| - 1] == b[|b| - 1];
      RunAppend(st, a, b[..|b| - 1], env);
    }
  }

  /** Statements that hold no `newmtl` with a name change nothing before the first one. */
  lemma {:induction false} NoNewMtlNoChange(ss: seq<Stmt>, env: Env)
    requires forall i :: 0 <= i < |ss| ==> !ss[i].NewMtl?
    ensures RunStmts(Start, ss, env) == Start
    decreases |ss|
  {
    if ss != [] {
      NoNewMtlNoChange(ss[..|ss| - 1], env);
      NoCurrentIgnored(Start, ss[|ss| - 1], env);
    }
  }

  /** Statements before the first `newmtl` are ignored. */
  lemma {:induction false} PrefixIgnored(a: seq<Stmt>, b: seq<Stmt>, env: Env)
    requires forall i :: 0 <= i < |a| ==> !a[i].NewMtl?
    ensures RunStmts(Start, a + b, env) == RunStmts(Start, b, env)
  {
    NoNewMtlNoChange(a, env);
    RunAppend(Start, a, b, env);
  }

  /** The dict's keys are exactly the names of the `newmtl` statements. */
  lemma {:induction false} KeysAreNames(st: MtlState, ss: seq<Stmt>, env: Env, k: string)
    requires Inv(st)
    ensures k in RunStmts(st, ss, env).mats <==> k in st.mats || NewMtl(k) in ss
    decreases |ss|
  {
    if ss != [] {
      var init := ss[..|ss| - 1];
      KeysAreNames(st, init, env, k);
      assert ss == init + [ss[|ss| - 1]];
    }
  }

  /** The material under each name is named by it. */
  lemma {:induction false} NamesMatch(text: string, baseDir: string, extraDirs: Option<seq<string>>, isFile: ExistsFn,
                                      load: LoadFn, num: NumFn, k: string)
    requires k in LoadMtlText(text, baseDir, extraDirs, isFile, load, num)
    ensures LoadMtlText(text, baseDir, extraDirs, isFile, load, num)[k].name == k
  {
  }

  // ------------------------------------------------------------ the loop

  /** One pass of the loop of `load_mtl`, on the dict and `current`. */
  method LoadLine(mats: map<string, Material>, current: Option<string>, raw: string, env: Env)
    returns (mats': map<string, Material>, current': Option<string>)
    requires Inv(MtlState(mats, current))
    ensures MtlState(mats', current') == StepOn(MtlState(mats, current), ParseLine(raw), env)
  {
    mats', current' := mats, current;
    var line := Strip(raw);
    if line == [] || line[0] == '#' {
      return;
    }
    var parts := Split(line);
    if parts == [] {
      return;
    }
    mats', current' := RunCommand(mats, current, parts[0], parts[1..], env);
    assert parts == [parts[0]] + parts[1..];
  }

  /** The statement `cmd args...`. */
  method RunCommand(mats: map<string, Material>, current: Option<string>, cmd: string, args: seq<string>, env: Env)
    returns (mats': map<string, Material>, current': Option<string>)
    requires Inv(MtlState(mats, current))
    ensures MtlState(mats', current') == StepOn(MtlState(mats, current), ParseParts([cmd] + args), env)
  {
    assert ([cmd] + args)[0] == cmd && ([cmd] + args)[1..] == args;
    mats', current' := mats, current;
    if cmd == "newmtl" && args != [] {
      var name := Join(" ", args);
      current' := Some(name);
      mats' := mats[name := DefaultMaterial(name)];
      return;
    }
    if current.None? {
      return;
    }
    if cmd == "Kd" && |args| >= 3 {
      mats' := SetColor(mats, current.value, args[0], args[1], args[2], env);
    } else if cmd == "map_Kd" && args != [] {
      mats' := SetTexture(mats, current.value, args[|args| - 1], env);
    }
  }

  /** `Kd r g b`, on the current material n. */
  method SetColor(mats: map<string, Material>, n: string, a: string, b: string, c: string, env: Env)
    returns (mats': map<string, Material>)
    requires Inv(MtlState(mats, Some(n)))
    ensures MtlState(mats', Some(n)) == StepOn(MtlState(mats, Some(n)), Kd(a, b, c), env)
  {
    mats' := mats;
    var x, y, z := env.num(a), env.num(b), env.num(c);
    if x.Some? && y.Some? && z.Some? {
      mats' := mats[n := mats[n].(baseColor := Vec3(x.value, y.value, z.value))];
    }
  }

  /** `map_Kd ... name`, on the current material n. */
  method SetTexture(mats: map<string, Material>, n: string, texName: string, env: Env)
    returns (mats': map<string, Material>)
    requires Inv(MtlState(mats, Some(n)))
    ensures MtlState(mats', Some(n)) == StepOn(MtlState(mats, Some(n)), MapKd(texName), env)
  {
    mats' := mats;
    var texPath := ResolveTexture(texName, env.dirs, env.isFile);
    if texPath.Some? {
      mats' := mats[n := mats[n].(baseColorTex := Some(Texture(env.load(texPath.value.dir, texPath.value.name))))];
    }
  }

  /** `load_mtl(path, extra_texture_dirs=...)` on the file's text. */
  method LoadMtl(text: string, baseDir: string, extraDirs: Option<seq<string>>, isFile: ExistsFn, load: LoadFn,
                 num: NumFn) returns (mats: map<string, Material>)
    ensures mats == LoadMtlText(text, baseDir, extraDirs, isFile, load, num)
  {
    var texDirs := [baseDir] + (if extraDirs.None? then [] else extraDirs.value);
    var env := Env(texDirs, isFile, load, num);
    mats := map[];
    var current: Option<string> := None;
    var lines := SplitLines(text);
    for i := 0 to |lines|
      invariant Inv(MtlState(mats, current))
      invariant MtlState(mats, current) == RunStmts(Start, Parsed(lines[..i]), env)
    {
      mats, current := LoadLine(mats, current, lines[i], env);
      RunNextLine(lines, i, env);
    }
    assert lines[..|lines|] == lines;
  }

  /** One more line of the file is one more step of the statement loop. */
  lemma RunNextLine(lines: seq<string>, i: int, env: Env)
    requires 0 <= i < |lines|
    ensures RunStmts(Start, Parsed(lines[..i + 1]), env) == StepOn(RunStmts(Start, Parsed(lines[..i]), env), ParseLine(lines[i]), env)
  {
    assert lines[..i + 1][..i] == lines[..i];
    var ss := Parsed(lines[..i + 1]);
    assert ss[..i] == Parsed(lines[..i]) && ss[i] == ParseLine(lines[i]);
  }
}
