/** Versioning the importer chain of patched modules. A source file is a sequence of tokens:
    plain text, and quoted literals, of which those that look like module references are rewritten. */
module Versioner {
  import opened Common

  /** An absolute path as its list of names. */
  type Path = seq<string>

  datatype Token = Text(text: string) | Quoted(quote: char, body: string)

  type Source = seq<Token>

  // ------------------------------------------------------------------ references

  const IMMUTABLE := "/_app/immutable/"

  /** The url group of MODULE_REFERENCE: one of three prefixes, at least one more character, ".js". */
  predicate IsReference(body: string) {
    && (forall i :: 0 <= i < |body| ==> body[i] !in {'"', '\'', '`'})
    && EndsWith(body, ".js")
    && (|| (StartsWith(body, IMMUTABLE) && |body| > |IMMUTABLE| + 3)
        || (StartsWith(body, "./") && |body| > 2 + 3)
        || (StartsWith(body, "../") && |body| > 3 + 3))
  }

  /** str.split("/"). */
  function Split(s: string): (parts: seq<string>)
    ensures parts != []
  {
    if s == "" then [""]
    else
      var rest := Split(s[1..]);
      if s[0] == '/' then [""] + rest else [[s[0]] + rest[0]] + rest[1..]
  }

  /** Path.resolve() on names: "" and "." vanish, ".." drops the name before it. */
  function Normalise(done: Path, names: seq<string>): Path
    decreases names
  {
    if names == [] then done
    else if names[0] == "" || names[0] == "." then Normalise(done, names[1..])
    else if names[0] == ".." then Normalise(if done == [] then [] else done[..|done| - 1], names[1..])
    else Normalise(done + [names[0]], names[1..])
  }

  /** `base / url`, where an absolute right operand replaces the left one, then resolve(). */
  function Join(base: Path, url: string): Path {
    Normalise(if StartsWith(url, "/") then [] else base, Split(url))
  }

  predicate Inside(root: Path, p: Path) {
    |root| < |p| && p[..|root|] == root
  }

  function Resolve(file: Path, url: string, root: Path): (r: Option<Path>)
    requires file != []
    ensures r.Some? ==> Inside(root, r.value)
  {
    var p := if StartsWith(url, IMMUTABLE) then Join(root, url[|IMMUTABLE|..]) else Join(file[..|file| - 1], url);
    if Inside(root, p) then Some(p) else None
  }

  /** Names that mean themselves. */
  predicate Clean(p: Path) {
    forall i :: 0 <= i < |p| ==> p[i] !in {"", ".", ".."}
  }

  lemma {:induction false} NormaliseCleans(done: Path, names: seq<string>)
    requires Clean(done)
    ensures Clean(Normalise(done, names))
    decreases names
  {
    if names != [] {
      if names[0] == "" || names[0] == "." { NormaliseCleans(done, names[1..]); }
      else if names[0] == ".." { NormaliseCleans(if done == [] then [] else done[..|done| - 1], names[1..]); }
      else { NormaliseCleans(done + [names[0]], names[1..]); }
    }
  }

  /** A reference resolves to a canonical path strictly below the root, or to nothing. */
  lemma ResolvedIsCanonical(file: Path, url: string, root: Path)
    requires file != [] && Clean(file) && Clean(root)
    ensures Resolve(file, url, root).Some? ==>
        Clean(Resolve(file, url, root).value) && Inside(root, Resolve(file, url, root).value)
  {
    var rest := if StartsWith(url, IMMUTABLE) then url[|IMMUTABLE|..] else url;
    var base := if StartsWith(url, IMMUTABLE) then root else file[..|file| - 1];
    NormaliseCleans(if StartsWith(rest, "/") then [] else base, Split(rest));
  }

  // ------------------------------------------------------------------ references as authors write them

  /** A directory or file name: nothing that a path gives another meaning. */
  predicate IsName(n: string) {
    n !in {"", ".", ".."} && '/' !in n
  }

  predicate AreNames(names: seq<string>) {
    names != [] && forall i :: 0 <= i < |names| ==> IsName(names[i])
  }

  function Joined(names: seq<string>): string
    requires names != []
  {
    if |names| == 1 then names[0] else names[0] + ['/'] + Joined(names[1..])
  }

  function Climb(up: nat): string {
    if up == 0 then "" else "../" + Climb(up - 1)
  }

  /** The reference that goes up `up` directories from the importing file's own and then down along the names. */
  function Relative(up: nat, names: seq<string>): string
    requires names != []
  {
    if up == 0 then "./" + Joined(names) else Climb(up) + Joined(names)
  }

  /** The reference from the site's root. */
  function Rooted(names: seq<string>): string
    requires names != []
  {
    "/_app/immutable/" + Joined(names)
  }

  lemma {:induction false} SplitName(name: string, rest: string)
    requires '/' !in name
    ensures Split(name) == [name]
    ensures Split(name + ['/'] + rest) == [name] + Split(rest)
  {
    if name == "" {
      assert (name + ['/'] + rest)[1..] == rest;
    } else {
      SplitName(name[1..], rest);
      assert (name + ['/'] + rest)[1..] == name[1..] + ['/'] + rest;
      assert [name[0]] + name[1..] == name;
    }
  }

  lemma {:induction false} SplitJoined(names: seq<string>)
    requires AreNames(names)
    ensures Split(Joined(names)) == names
  {
    SplitName(names[0], "");
    if |names| > 1 {
      SplitName(names[0], Joined(names[1..]));
      SplitJoined(names[1..]);
    }
  }

  function Dots(up: nat): seq<string> {
    if up == 0 then [] else [".."] + Dots(up - 1)
  }

  lemma {:induction false} SplitClimb(up: nat, rest: string)
    ensures Split(Climb(up) + rest) == Dots(up) + Split(rest)
  {
    hide Split;
    if up == 0 {
      assert Climb(up) + rest == rest;
      assert Dots(up) + Split(rest) == Split(rest);
    } else {
      SplitClimb(up - 1, rest);
      SplitName("..", Climb(up - 1) + rest);
      assert Climb(up) + rest == ".." + ['/'] + (Climb(up - 1) + rest);
      assert Dots(up) + Split(rest) == [".."] + (Dots(up - 1) + Split(rest));
    }
  }

  lemma {:induction false} NormaliseNames(done: Path, names: seq<string>)
    requires Clean(names)
    ensures Normalise(done, names) == done + names
    decreases names
  {
    if names == [] {
      assert done + names == done;
    } else {
      NormaliseNames(done + [names[0]], names[1..]);
      assert done + [names[0]] + names[1..] == done + names;
    }
  }

  /** `up` levels above a directory; nothing is above "/". */
  function Above(dir: Path, up: nat): Path {
    if up <= |dir| then dir[..|dir| - up] else []
  }

  lemma {:induction false} NormaliseDots(dir: Path, up: nat, names: seq<string>)
    ensures Normalise(dir, Dots(up) + names) == Normalise(Above(dir, up), names)
    decreases up
  {
    if up > 0 {
      NormaliseDots(Above(dir, 1), up - 1, names);
      assert (Dots(up) + names)[1..] == Dots(up - 1) + names;
      assert (Dots(up) + names)[0] == "..";
      assert Above(Above(dir, 1), up - 1) == Above(dir, up);
    } else {
      assert Dots(0) + names == names && Above(dir, 0) == dir;
    }
  }

  lemma RelativeStart(up: nat, names: seq<string>)
    requires AreNames(names)
    ensures !StartsWith(Relative(up, names), "/") && !StartsWith(Relative(up, names), IMMUTABLE)
  {
    var url := Relative(up, names);
    assert url != "" && url[0] == '.';
    FirstOfPrefix(url, "/");
    FirstOfPrefix(url, IMMUTABLE);
  }

  lemma FirstOfPrefix(s: string, prefix: string)
    requires prefix != ""
    ensures StartsWith(s, prefix) ==> s[0] == prefix[0]
  {
    if |prefix| <= |s| { assert s[..|prefix|][0] == s[0]; }
  }

  /** A relative reference counts from the directory of the importing file: that directory without its last `up`
      names, and then the names. What does not lie below the root is no target. */
  lemma RelativeResolves(file: Path, up: nat, names: seq<string>, root: Path)
    requires file != [] && AreNames(names)
    ensures var dir := file[..|file| - 1];
            var p := (if up <= |dir| then dir[..|dir| - up] else []) + names;
            Resolve(file, Relative(up, names), root) == if root < p then Some(p) else None
  {
    hide Split, Normalise, Joined, StartsWith;
    var dir := file[..|file| - 1];
    RelativeStart(up, names);
    SplitJoined(names);
    NormaliseNames(Above(dir, up), names);
    if up == 0 {
      SplitName(".", Joined(names));
      assert Relative(0, names) == "." + ['/'] + Joined(names);
      DotVanishes(dir, names);
      assert Above(dir, 0) == dir;
    } else {
      SplitClimb(up, Joined(names));
      NormaliseDots(dir, up, names);
    }
  }

  lemma DotVanishes(dir: Path, names: seq<string>)
    ensures Normalise(dir, ["."] + names) == Normalise(dir, names)
  {
    assert (["."] + names)[1..] == names;
  }

  /** A reference from the site's root counts from the root, wherever the importing file lies. */
  lemma RootedResolves(file: Path, names: seq<string>, root: Path)
    requires file != [] && AreNames(names)
    ensures Resolve(file, Rooted(names), root) == Some(root + names)
  {
    hide Split, Normalise;
    var url := Rooted(names);
    assert url[|IMMUTABLE|..] == Joined(names) && StartsWith(url, IMMUTABLE);
    assert Joined(names)[0] == names[0][0] != '/';
    SplitJoined(names);
    NormaliseNames(root, names);
    assert (root + names)[..|root|] == root;
  }

  /** Every file below the root can be named, from every other file and from the root, and each of these references
      resolves to just that file. `common` is how many leading names of its path the importing file's directory has. */
  lemma EveryTargetIsNamed(file: Path, target: Path, common: nat, root: Path)
    requires file != [] && AreNames(target) && root < target
    requires common < |file| && common < |target| && file[..common] == target[..common]
    ensures Resolve(file, Relative(|file| - 1 - common, target[common..]), root) == Some(target)
    ensures Resolve(file, Rooted(target[|root|..]), root) == Some(target)
  {
    hide Split, Normalise, Joined, Resolve, Relative, Rooted;
    RelativeResolves(file, |file| - 1 - common, target[common..], root);
    RootedResolves(file, target[|root|..], root);
    assert file[..|file| - 1][..common] == file[..common];
    assert target[..common] + target[common..] == target && root + target[|root|..] == target;
  }

  /** The pattern's url group: one of the three prefixes, something, ".js", and no quote character. */
  lemma ReferenceForm(body: string)
    ensures IsReference(body)
            <==> '"' !in body && '\'' !in body && '`' !in body
                 && exists prefix, middle ::
                      && prefix in {"/_app/immutable/", "./", "../"} && middle != ""
                      && body == prefix + middle + ".js"
  {
    hide StartsWith, EndsWith;
    if IsReference(body) {
      var prefix :| prefix in {"/_app/immutable/", "./", "../"} && StartsWith(body, prefix) && |body| > |prefix| + 3;
      var middle := body[|prefix|..|body| - 3];
      BodyParts(body, prefix);
    }
    if prefix, middle :| prefix in {"/_app/immutable/", "./", "../"} && middle != "" && body == prefix + middle + ".js"
    {
      PartsBody(prefix, middle);
    }
  }

  lemma BodyParts(body: string, prefix: string)
    requires StartsWith(body, prefix) && EndsWith(body, ".js") && |body| > |prefix| + 3
    ensures body == prefix + body[|prefix|..|body| - 3] + ".js"
  {
  }

  lemma PartsBody(prefix: string, middle: string)
    ensures StartsWith(prefix + middle + ".js", prefix) && EndsWith(prefix + middle + ".js", ".js")
  {
    var body := prefix + middle + ".js";
    assert body[..|prefix|] == prefix && body[|body| - 3..] == ".js";
  }

  lemma {:induction false} JoinedEnd(names: seq<string>)
    requires AreNames(names) && EndsWith(names[|names| - 1], ".js")
    ensures EndsWith(Joined(names), ".js")
    ensures |names| > 1 ==> |Joined(names)| > 3
  {
    if |names| > 1 {
      assert names[1..][|names| - 2] == names[|names| - 1];
      JoinedEnd(names[1..]);
      var rest := Joined(names[1..]);
      assert |rest| >= 3;
      assert Joined(names)[|Joined(names)| - 3..] == rest[|rest| - 3..];
    }
  }

  lemma {:induction false} JoinedQuotes(names: seq<string>, c: char)
    requires AreNames(names) && c != '/' && forall i :: 0 <= i < |names| ==> c !in names[i]
    ensures c !in Joined(names)
  {
    if |names| > 1 { JoinedQuotes(names[1..], c); }
  }

  lemma {:induction false} ClimbForm(up: nat, c: char)
    ensures |Climb(up)| == 3 * up && (up > 0 ==> Climb(up)[..3] == "../")
    ensures c != '.' && c != '/' ==> c !in Climb(up)
  {
    if up > 0 { ClimbForm(up - 1, c); }
  }

  /** No name has a quote in it, and the last one is a script's. */
  predicate AreScript(names: seq<string>) {
    && AreNames(names) && EndsWith(names[|names| - 1], ".js") && names != [".js"]
    && forall i :: 0 <= i < |names| ==> '"' !in names[i] && '\'' !in names[i] && '`' !in names[i]
  }

  lemma ScriptJoined(names: seq<string>)
    requires AreScript(names)
    ensures EndsWith(Joined(names), ".js") && |Joined(names)| > 3
    ensures forall i :: 0 <= i < |Joined(names)| ==> Joined(names)[i] !in {'"', '\'', '`'}
  {
    JoinedEnd(names);
    JoinedQuotes(names, '"');
    JoinedQuotes(names, '\'');
    JoinedQuotes(names, '`');
  }

  lemma PrefixedIsReference(prefix: string, rest: string)
    requires prefix == IMMUTABLE || prefix == "./" || (StartsWith(prefix, "../"))
    requires EndsWith(rest, ".js") && |rest| > 3
    requires forall i :: 0 <= i < |prefix| ==> prefix[i] !in {'"', '\'', '`'}
    requires forall i :: 0 <= i < |rest| ==> rest[i] !in {'"', '\'', '`'}
    ensures IsReference(prefix + rest)
  {
    var body := prefix + rest;
    assert body[|body| - 3..] == rest[|rest| - 3..];
    assert body[..|prefix|] == prefix;
    if StartsWith(prefix, "../") { assert body[..3] == prefix[..3]; }
  }

  /** The pattern sees every reference to a script by plain names. */
  lemma WrittenIsReference(up: nat, names: seq<string>)
    requires AreScript(names)
    ensures IsReference(Relative(up, names)) && IsReference(Rooted(names))
  {
    hide IsReference, Joined;
    ScriptJoined(names);
    ClimbForm(up, '"');
    ClimbForm(up, '\'');
    ClimbForm(up, '`');
    PrefixedIsReference(IMMUTABLE, Joined(names));
    if up == 0 { PrefixedIsReference("./", Joined(names)); } else { PrefixedIsReference(Climb(up), Joined(names)); }
  }

  // ------------------------------------------------------------------ rewriting one file

  /** [0-9a-f]{8,64} */
  predicate IsVersion(version: string) {
    8 <= |version| <= 64 && forall i :: 0 <= i < |version| ==> '0' <= version[i] <= '9' || 'a' <= version[i] <= 'f'
  }

  function Suffix(version: string): string { "?v=" + version }

  function Target(file: Path, t: Token, root: Path): Option<Path>
    requires file != []
  {
    if t.Quoted? && IsReference(t.body) then Resolve(file, t.body, root) else None
  }

  predicate Hits(file: Path, t: Token, targets: set<Path>, root: Path)
    requires file != []
  {
    Target(file, t, root).Some? && Target(file, t, root).value in targets
  }

  function VersionedToken(file: Path, t: Token, targets: set<Path>, root: Path, version: string): Token
    requires file != []
  {
    if Hits(file, t, targets, root) then Quoted(t.quote, t.body + Suffix(version)) else t
  }

  function Versioned(file: Path, source: Source, targets: set<Path>, root: Path, version: string): (r: Source)
    requires file != []
    ensures |r| == |source|
    ensures forall i :: 0 <= i < |r| ==> r[i] == VersionedToken(file, source[i], targets, root, version)
  {
    seq(|source|, i requires 0 <= i < |source| => VersionedToken(file, source[i], targets, root, version))
  }

  function HitCount(file: Path, source: Source, targets: set<Path>, root: Path): nat
    requires file != []
  {
    if source == [] then 0
    else
      HitCount(file, source[..|source| - 1], targets, root)
      + if Hits(file, source[|source| - 1], targets, root) then 1 else 0
  }

  ghost predicate Imports(file: Path, source: Source, p: Path, root: Path)
    requires file != []
  {
    exists i :: 0 <= i < |source| && Target(file, source[i], root) == Some(p)
  }

  ghost predicate ImportsOneOf(file: Path, source: Source, targets: set<Path>, root: Path)
    requires file != []
  {
    exists p :: p in targets && Imports(file, source, p, root)
  }

  lemma {:induction false} CountMeansImport(file: Path, source: Source, targets: set<Path>, root: Path)
    requires file != []
    ensures HitCount(file, source, targets, root) > 0 <==> ImportsOneOf(file, source, targets, root)
  {
    if source != [] {
      var init := source[..|source| - 1];
      CountMeansImport(file, init, targets, root);
      if HitCount(file, source, targets, root) > 0 {
        if Hits(file, source[|source| - 1], targets, root) {
          assert Imports(file, source, Target(file, source[|source| - 1], root).value, root);
        } else {
          var p :| p in targets && Imports(file, init, p, root);
          var i :| 0 <= i < |init| && Target(file, init[i], root) == Some(p);
          assert source[i] == init[i];
          assert Imports(file, source, p, root);
        }
      }
      if ImportsOneOf(file, source, targets, root) {
        var p :| p in targets && Imports(file, source, p, root);
        var i :| 0 <= i < |source| && Target(file, source[i], root) == Some(p);
        if i < |init| {
          assert init[i] == source[i];
          assert Imports(file, init, p, root);
        }
      }
    }
  }

  /** What an import of `target` becomes, however it is written: stamped exactly when the target is one. */
  lemma WrittenImportIsStamped(file: Path, source: Source, k: nat, target: Path, common: nat, targets: set<Path>,
      root: Path, version: string)
    requires file != [] && AreNames(target) && root < target && k < |source| && source[k].Quoted?
    requires common < |file| && common < |target| && file[..common] == target[..common]
    requires || (source[k].body == Relative(|file| - 1 - common, target[common..]) && AreScript(target[common..]))
             || (source[k].body == Rooted(target[|root|..]) && AreScript(target[|root|..]))
    ensures Versioned(file, source, targets, root, version)[k]
            == if target in targets then Quoted(source[k].quote, source[k].body + "?v=" + version) else source[k]
  {
    hide IsReference, Resolve, AreNames, AreScript, Relative, Rooted;
    EveryTargetIsNamed(file, target, common, root);
    if AreScript(target[common..]) { WrittenIsReference(|file| - 1 - common, target[common..]); }
    if AreScript(target[|root|..]) { WrittenIsReference(0, target[|root|..]); }
    assert source[k].body + "?v=" + version == source[k].body + ("?v=" + version);
  }

  /** A version is a lowercase hexadecimal digest of 8 to 64 digits. */
  lemma VersionForm(version: string)
    ensures IsVersion(version) <==> 8 <= |version| <= 64 && forall i :: 0 <= i < |version| ==> version[i] in HEX
  {
    forall i | 0 <= i < |version| ensures '0' <= version[i] <= '9' || 'a' <= version[i] <= 'f' <==> version[i] in HEX {
      HexDigit(version[i]);
    }
  }

  const HEX := {'0', '1', '2', '3', '4', '5', '6', '7', '8', '9', 'a', 'b', 'c', 'd', 'e', 'f'}

  lemma HexDigit(c: char)
    ensures '0' <= c <= '9' || 'a' <= c <= 'f' <==> c in HEX
  {
  }

  lemma LastOfSuffix(s: string, suffix: string)
    requires suffix != ""
    ensures EndsWith(s, suffix) ==> s[|s| - 1] == suffix[|suffix| - 1]
  {
    if EndsWith(s, suffix) { assert s[|s| - 1] == s[|s| - |suffix|..][|suffix| - 1]; }
  }

  /** A version ends in a hexadecimal digit, so a stamped literal is no reference any more. */
  lemma StampedIsNoReference(body: string, version: string)
    requires IsVersion(version)
    ensures !IsReference(body + Suffix(version))
  {
    var s := body + Suffix(version);
    assert s[|s| - 1] == version[|version| - 1];
    LastOfSuffix(s, ".js");
  }

  /** Two passes with growing target sets rewrite exactly what one pass with the union would:
      no reference is ever stamped twice and none is missed. */
  lemma PassesCompose(file: Path, source: Source, first: set<Path>, second: set<Path>, root: Path, version: string)
    requires file != [] && IsVersion(version) && first <= second
    ensures Versioned(file, Versioned(file, source, first, root, version), second, root, version)
            == Versioned(file, source, second, root, version)
  {
    var once := Versioned(file, source, first, root, version);
    forall i | 0 <= i < |source|
      ensures VersionedToken(file, once[i], second, root, version) ==
          VersionedToken(file, source[i], second, root, version)
    {
      if Hits(file, source[i], first, root) { StampedIsNoReference(source[i].body, version); }
    }
  }

  /** What a later pass still finds: imports of the new targets that were no targets before. */
  lemma LaterImports(file: Path, source: Source, first: set<Path>, second: set<Path>, root: Path, version: string)
    requires file != [] && IsVersion(version) && first <= second
    ensures ImportsOneOf(file, Versioned(file, source, first, root, version), second, root)
            <==> ImportsOneOf(file, source, second - first, root)
  {
    var once := Versioned(file, source, first, root, version);
    if ImportsOneOf(file, once, second, root) {
      var p :| p in second && Imports(file, once, p, root);
      var i :| 0 <= i < |once| && Target(file, once[i], root) == Some(p);
      if Hits(file, source[i], first, root) { StampedIsNoReference(source[i].body, version); }
      assert Imports(file, source, p, root) && p in second - first;
    }
    if ImportsOneOf(file, source, second - first, root) {
      var p :| p in second - first && Imports(file, source, p, root);
      var i :| 0 <= i < |source| && Target(file, source[i], root) == Some(p);
      assert once[i] == source[i];
      assert Imports(file, once, p, root);
    }
  }

  /** Removing the suffix from every literal that carries it behind a reference. */
  function Erased(t: Token, version: string): Token {
    if t.Quoted? && EndsWith(t.body, Suffix(version)) && IsReference(t.body[..|t.body| - |Suffix(version)|])
    then Quoted(t.quote, t.body[..|t.body| - |Suffix(version)|])
    else t
  }

  /** Erasing restores a rewritten file exactly, provided no literal carried the suffix before. */
  lemma EraseRestores(file: Path, source: Source, targets: set<Path>, root: Path, version: string)
    requires file != [] && IsVersion(version)
    ensures (forall i :: 0 <= i < |source| ==>
        Erased(Versioned(file, source, targets, root, version)[i], version) == source[i])
            <==> (forall i :: 0 <= i < |source| ==> Erased(source[i], version) == source[i])
  {
    var out := Versioned(file, source, targets, root, version);
    forall i | 0 <= i < |source|
      ensures Erased(out[i], version) == source[i] <==> Erased(source[i], version) == source[i]
    {
      if Hits(file, source[i], targets, root) {
        var body := source[i].body;
        assert out[i].body[..|body|] == body && out[i].body[|body|..] == Suffix(version);
        LastOfSuffix(body, ".js");
        LastOfSuffix(body, Suffix(version));
      }
    }
  }

  // ------------------------------------------------------------------ the importer chain

  type Files = map<Path, Source>

  predicate IsModule(p: Path, root: Path) {
    Inside(root, p) && EndsWith(p[|p| - 1], ".js")
  }

  /** root.rglob("*.js") */
  function Modules(files: Files, root: Path): set<Path> {
    set p | p in files && IsModule(p, root)
  }

  /** Every script below the root, at any depth, and nothing else. */
  lemma ModulesAreScripts(files: Files, root: Path, p: Path)
    ensures p in Modules(files, root) <==> p in files && root < p && exists stem :: p[|p| - 1] == stem + ".js"
  {
    if p in files && root < p {
      var name := p[|p| - 1];
      if EndsWith(name, ".js") { assert name == name[..|name| - 3] + ".js"; }
      if stem :| name == stem + ".js" { assert name[|name| - 3..] == ".js"; }
    }
  }

  /** A chain of modules, each importing the next, that ends in an initial target. */
  ghost predicate IsChain(files: Files, root: Path, initial: set<Path>, chain: seq<Path>) {
    && chain != [] && chain[|chain| - 1] in initial
    && forall i :: 0 <= i < |chain| - 1 ==>
         chain[i] in Modules(files, root) && Imports(chain[i], files[chain[i]], chain[i + 1], root)
  }

  ghost predicate Reaches(files: Files, root: Path, initial: set<Path>, p: Path) {
    exists chain :: IsChain(files, root, initial, chain) && chain[0] == p
  }

  lemma InitialReaches(files: Files, root: Path, initial: set<Path>, p: Path)
    requires p in initial
    ensures Reaches(files, root, initial, p)
  {
    assert IsChain(files, root, initial, [p]);
  }

  lemma ImporterReaches(files: Files, root: Path, initial: set<Path>, p: Path, q: Path)
    requires p in Modules(files, root) && Imports(p, files[p], q, root) && Reaches(files, root, initial, q)
    ensures Reaches(files, root, initial, p)
  {
    var chain :| IsChain(files, root, initial, chain) && chain[0] == q;
    assert IsChain(files, root, initial, [p] + chain);
  }

  /** Nothing that imports into the set is left outside. */
  ghost predicate Closed(files: Files, root: Path, targets: set<Path>) {
    forall p :: p in Modules(files, root) && ImportsOneOf(p, files[p], targets, root) ==> p in targets
  }

  lemma {:induction false} ClosedHoldsChain(files: Files, root: Path, initial: set<Path>, targets: set<Path>,
      chain: seq<Path>)
    requires initial <= targets && Closed(files, root, targets) && IsChain(files, root, initial, chain)
    ensures chain[0] in targets
    decreases |chain|
  {
    if |chain| > 1 {
      var rest := chain[1..];
      forall i | 0 <= i < |rest| - 1
        ensures rest[i] in Modules(files, root) && Imports(rest[i], files[rest[i]], rest[i + 1], root)
      {
        assert rest[i] == chain[i + 1] && rest[i + 1] == chain[i + 2];
      }
      ClosedHoldsChain(files, root, initial, targets, rest);
      assert ImportsOneOf(chain[0], files[chain[0]], targets, root);
    }
  }

  /** The least closed set over the initial targets: exactly what reaches one of them. */
  ghost predicate IsChainClosure(files: Files, root: Path, initial: set<Path>, targets: set<Path>) {
    forall p :: p in targets <==> Reaches(files, root, initial, p)
  }

  lemma ClosureOf(files: Files, root: Path, initial: set<Path>, targets: set<Path>)
    requires initial <= targets && Closed(files, root, targets)
    requires forall p :: p in targets ==> Reaches(files, root, initial, p)
    ensures IsChainClosure(files, root, initial, targets)
  {
    forall p | Reaches(files, root, initial, p) ensures p in targets {
      var chain :| IsChain(files, root, initial, chain) && chain[0] == p;
      ClosedHoldsChain(files, root, initial, targets, chain);
    }
  }

  datatype Outcome = Versions(modules: set<Path>) | BadVersion | BadTargets | IndexNotReached

  predicate TargetsAllowed(files: Files, root: Path, initial: set<Path>) {
    initial != {} && forall t :: t in initial ==> t in files && Inside(root, t)
  }

  /** All files after a run that stamped every reference into `targets` in the modules and, last, in the index. */
  ghost predicate Rewritten(before: Files, after: Files, root: Path, targets: set<Path>, version: string)
  {
    && after.Keys == before.Keys
    && forall p :: p in before && p != [] ==>
         after[p] == if IsModule(p, root) then Versioned(p, before[p], targets, root, version) else before[p]
  }

  /** The target sets of the passes, one after the other: every pass but the last leaves strictly fewer modules
      unversioned than it found. */
  ghost predicate Shrinking(modules: set<Path>, rounds: seq<set<Path>>) {
    && rounds != []
    && forall i :: 0 <= i < |rounds| - 1 ==> rounds[i] <= rounds[i + 1] && modules - rounds[i + 1] < modules - rounds[i]
  }

  /** So there are at most as many passes as modules, and one more that finds nothing. */
  lemma {:induction false} FewRounds(modules: set<Path>, rounds: seq<set<Path>>)
    requires Shrinking(modules, rounds)
    ensures |rounds| - 1 + |modules - rounds[|rounds| - 1]| <= |modules - rounds[0]|
  {
    if |rounds| > 1 {
      var n := |rounds| - 1;
      FewRounds(modules, rounds[..n]);
      FewerLeft(modules - rounds[n], modules - rounds[n - 1]);
    }
  }

  lemma FewerLeft(a: set<Path>, b: set<Path>)
    requires a < b
    ensures |a| < |b|
  {
    assert b == a + (b - a) && b - a != {};
  }

  lemma LessIsLeft(candidates: set<Path>, before: set<Path>, after: set<Path>)
    requires before <= after <= candidates && before != after
    ensures candidates - after < candidates - before
  {
    var p :| p in after && p !in before;
    assert p in candidates - before && p !in candidates - after;
  }

  lemma RoundAdds(modules: set<Path>, rounds: seq<set<Path>>, more: set<Path>)
    requires Shrinking(modules, rounds) && more <= modules
    ensures var last := rounds[|rounds| - 1];
            last + more != last ==> Shrinking(modules, rounds + [last + more])
  {
    var last := rounds[|rounds| - 1];
    if last + more != last {
      var p :| p in more && p !in last;
      assert p in modules - last && p !in modules - (last + more);
    }
  }

  class FileTree {
    var files: Files

    method VersionReferences(path: Path, targets: set<Path>, root: Path, version: string) returns (replacements: nat)
      requires path in files && path != []
      modifies this
      ensures files == old(files)[path := Versioned(path, old(files)[path], targets, root, version)]
      ensures replacements == HitCount(path, old(files)[path], targets, root)
    {
      hide IsReference, Resolve, Imports, ImportsOneOf;
      var source := files[path];
      var updated: Source := [];
      replacements := 0;
      for i := 0 to |source|
        invariant updated == Versioned(path, source, targets, root, version)[..i]
        invariant replacements == HitCount(path, source[..i], targets, root)
      {
        assert source[..i + 1][..i] == source[..i];
        var t := source[i];
        var resolved := if t.Quoted? && IsReference(t.body) then Resolve(path, t.body, root) else None;
        if resolved.Some? && resolved.value in targets {
          replacements := replacements + 1;
          t := Quoted(t.quote, t.body + Suffix(version));
        }
        updated := updated + [t];
      }
      assert source[..|source|] == source && updated == Versioned(path, source, targets, root, version);
      if replacements > 0 {
        files := files[path := updated];
      } else {
        NoHitNoChange(path, source, targets, root, version);
        assert files[path := files[path]] == files;
      }
    }

    /** One pass over all modules; `prev` are the targets of the pass before. */
    method VersionRound(targets: set<Path>, root: Path, version: string, ghost before: Files, ghost prev: set<Path>)
      returns (newlyVersioned: set<Path>)
      requires IsVersion(version) && prev <= targets && Rewritten(before, files, root, prev, version)
      modifies this
      ensures Rewritten(before, files, root, targets, version)
      ensures forall p :: p in newlyVersioned <==>
          p in Modules(before, root) && ImportsOneOf(p, before[p], targets - prev, root)
    {
      hide Versioned, HitCount, ImportsOneOf, EndsWith, IsVersion;
      newlyVersioned := {};
      var modules := Modules(files, root);
      var todo := modules;
      while todo != {}
        invariant todo <= modules == Modules(before, root)
        invariant HalfRewritten(before, files, root, prev, targets, version, todo)
        invariant forall p :: p in newlyVersioned <==>
          p in modules - todo && ImportsOneOf(p, before[p], targets - prev, root)
        decreases todo
      {
        var path :| path in todo;
        PassesCompose(path, before[path], prev, targets, root, version);
        LaterImports(path, before[path], prev, targets, root, version);
        CountMeansImport(path, files[path], targets, root);
        var replacements := VersionReferences(path, targets, root, version);
        if replacements > 0 {
          newlyVersioned := newlyVersioned + {path};
        }
        todo := todo - {path};
      }
    }

    /** The loop of version_patched_module_chain: passes until the set stops growing. */
    method VersionModules(initial: set<Path>, root: Path, version: string)
      returns (versioned: set<Path>, ghost rounds: seq<set<Path>>)
      requires IsVersion(version)
      modifies this
      ensures Shrinking(Modules(old(files), root), rounds)
      ensures rounds[0] == initial && rounds[|rounds| - 1] == versioned
      ensures IsChainClosure(old(files), root, initial, versioned)
      ensures Rewritten(old(files), files, root, versioned, version)
    {
      hide Versioned, IsChain, Reaches, ImportsOneOf, Rewritten, EndsWith;
      ghost var before := files;
      ghost var prev: set<Path> := {};
      ghost var candidates := Modules(files, root) + initial;
      versioned := initial;
      rounds := [initial];
      NothingRewritten(before, root, version);
      NoImports(before, root);
      forall p | p in versioned ensures Reaches(before, root, initial, p) { InitialReaches(before, root, initial, p); }
      while true
        invariant Rewritten(before, files, root, prev, version)
        invariant prev <= versioned && initial <= versioned <= candidates
        invariant Shrinking(Modules(before, root), rounds)
        invariant rounds[0] == initial && rounds[|rounds| - 1] == versioned
        invariant forall p :: p in versioned ==> Reaches(before, root, initial, p)
        invariant forall p :: p in Modules(before, root) && ImportsOneOf(p, before[p], prev, root) ==> p in versioned
        decreases candidates - versioned
      {
        var newlyVersioned := VersionRound(versioned, root, version, before, prev);
        ImportsSplit(before, root, prev, versioned);
        NewOnesReach(before, root, initial, prev, versioned, newlyVersioned);
        prev := versioned;
        var previousCount := |versioned|;
        SizeTells(versioned, newlyVersioned);
        RoundAdds(Modules(before, root), rounds, newlyVersioned);
        versioned := versioned + newlyVersioned;
        if |versioned| == previousCount { break; }
        rounds := rounds + [versioned];
        LessIsLeft(candidates, prev, versioned);
      }
      ClosureOf(before, root, initial, versioned);
    }

    /** The module set, or why there is none. A run that fails only at the index has already rewritten the tree. */
    method VersionChain(root: Path, index: Path, initial: set<Path>, version: string) returns (r: Outcome)
      requires index in files && index != [] && !IsModule(index, root)
      modifies this
      ensures r == BadVersion <==> !IsVersion(version)
      ensures r == BadTargets <==> IsVersion(version) && !TargetsAllowed(old(files), root, initial)
      ensures r.BadVersion? || r.BadTargets? ==> files == old(files)
      ensures IsVersion(version) && TargetsAllowed(old(files), root, initial) ==>
                exists targets ::
                  && IsChainClosure(old(files), root, initial, targets)
                  && IsVersionedTree(old(files), files, root, targets, index, version)
                  && r == if ImportsOneOf(index, old(files)[index], targets, root) then Versions(targets)
                    else IndexNotReached
    {
      hide Versioned, IsChainClosure, IsModule, IsVersion, TargetsAllowed, ImportsOneOf;
      if !IsVersion(version) { return BadVersion; }
      if !TargetsAllowed(files, root, initial) { return BadTargets; }
      var versioned, _ := VersionModules(initial, root, version);
      CountMeansImport(index, files[index], versioned, root);
      var indexReferences := VersionReferences(index, versioned, root, version);
      assert IsVersionedTree(old(files), files, root, versioned, index, version);
      r := if indexReferences == 0 then IndexNotReached else Versions(versioned);
    }
  }

  /** Every reference of a module or of the index is stamped iff it resolves into `targets`; nothing else changed. */
  ghost predicate IsVersionedTree(before: Files, after: Files, root: Path, targets: set<Path>, index: Path,
      version: string)
  {
    && after.Keys == before.Keys
    && forall p :: p in before && p != [] ==>
         after[p] == if IsModule(p, root) || p == index then Versioned(p, before[p], targets, root, version)
           else before[p]
  }

  /** In the middle of a pass: the modules still to do are as the last pass left them. */
  ghost predicate HalfRewritten(before: Files, after: Files, root: Path, prev: set<Path>, targets: set<Path>,
      version: string, todo: set<Path>)
  {
    && after.Keys == before.Keys
    && forall p :: p in before && p != [] ==>
         after[p] == if IsModule(p, root)
                     then Versioned(p, before[p], if p in todo then prev else targets, root, version)
                     else before[p]
  }

  lemma NothingRewritten(files: Files, root: Path, version: string)
    ensures Rewritten(files, files, root, {}, version)
  {
    forall p | p in files && p != [] ensures Versioned(p, files[p], {}, root, version) == files[p] {
    }
  }

  lemma ImportsSplit(files: Files, root: Path, first: set<Path>, second: set<Path>)
    requires first <= second
    ensures forall p :: p in Modules(files, root) && ImportsOneOf(p, files[p], second, root) ==>
              ImportsOneOf(p, files[p], first, root) || ImportsOneOf(p, files[p], second - first, root)
  {
  }

  lemma NoImports(files: Files, root: Path)
    ensures forall p :: p in Modules(files, root) ==> !ImportsOneOf(p, files[p], {}, root)
  {
  }

  lemma NewOnesReach(files: Files, root: Path, initial: set<Path>, prev: set<Path>, targets: set<Path>, more: set<Path>)
    requires forall p :: p in targets ==> Reaches(files, root, initial, p)
    requires forall p :: p in more ==> p in Modules(files, root) && ImportsOneOf(p, files[p], targets - prev, root)
    ensures forall p :: p in more ==> Reaches(files, root, initial, p)
  {
    forall p | p in more ensures Reaches(files, root, initial, p) {
      var q :| q in targets - prev && Imports(p, files[p], q, root);
      ImporterReaches(files, root, initial, p, q);
    }
  }

  lemma SizeTells(a: set<Path>, b: set<Path>)
    ensures |a + b| == |a| ==> a + b == a
  {
    var extra := b - a;
    assert a + b == a + extra && |a + extra| == |a| + |extra|;
  }

  lemma {:induction false} NoHitNoChange(file: Path, source: Source, targets: set<Path>, root: Path, version: string)
    requires file != [] && HitCount(file, source, targets, root) == 0
    ensures Versioned(file, source, targets, root, version) == source
  {
    forall i | 0 <= i < |source| ensures !Hits(file, source[i], targets, root) {
      CountMeansImport(file, source, targets, root);
      if Hits(file, source[i], targets, root) {
        assert Imports(file, source, Target(file, source[i], root).value, root);
      }
    }
  }
}
