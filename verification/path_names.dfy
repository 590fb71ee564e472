/** What an absolute path is: the components of a path name applied one by one to those of the
    current directory. */
module PathNames {
  import opened Wrappers

  const SLASH: char := '/'
  const PATH_MAX: nat := 1024

  // Where the first component ends.
  function Upto(path: string): (n: nat)
    ensures n <= |path| && (n < |path| ==> path[n] == SLASH)
    ensures forall i :: 0 <= i < n ==> path[i] != SLASH
  {
    if path == [] || path[0] == SLASH then 0 else 1 + Upto(path[1..])
  }

  // All that stands between slashes, empty names included.
  function Split(path: string): seq<string>
    decreases |path|
  {
    var n := Upto(path);
    if n == |path| then [path] else [path[..n]] + Split(path[n + 1..])
  }

  // Empty names and dots stay; two dots go up, at the root nowhere; any other name goes down.
  function Visit(dirs: seq<string>, name: string): seq<string> {
    if name == "" || name == "." then dirs
    else if name == ".." then (if dirs == [] then [] else dirs[..|dirs| - 1])
    else dirs + [name]
  }

  function Walk(dirs: seq<string>, names: seq<string>): seq<string>
    decreases |names|
  {
    if names == [] then dirs else Walk(Visit(dirs, names[0]), names[1..])
  }

  // Every name with a slash before it; the root is a slash.
  function Tail(dirs: seq<string>): string {
    if dirs == [] then "" else [SLASH] + dirs[0] + Tail(dirs[1..])
  }

  function Render(dirs: seq<string>): string {
    if dirs == [] then [SLASH] else Tail(dirs)
  }

  // A current directory that cannot be had, or is longer than the buffer, is an error.
  function Absolute(cwd: Option<string>, path: string): Option<string> {
    if path != [] && path[0] == SLASH then Some(Render(Walk([], Split(path))))
    else if cwd.None? || |cwd.value| >= PATH_MAX then None
    else Some(Render(Walk(Walk([], Split(cwd.value)), Split(path))))
  }

  predicate Clean(name: string) {
    name != "" && name != "." && name != ".." && forall i :: 0 <= i < |name| ==> name[i] != SLASH
  }

  predicate AllClean(dirs: seq<string>) {
    forall i :: 0 <= i < |dirs| ==> Clean(dirs[i])
  }

  // A path that is already what it would be made into.
  predicate Normal(path: string) {
    path == Render(Walk([], Split(path)))
  }

  // ---- the walk, character by character ----

  // Runs of slashes count as one, as the loop skips them.
  function WalkPath(dirs: seq<string>, path: string): seq<string>
    decreases |path|
  {
    if path == [] then dirs
    else if path[0] == SLASH then WalkPath(dirs, path[1..])
    else WalkPath(Visit(dirs, path[..Upto(path)]), path[Upto(path)..])
  }

  lemma {:induction false} WalkPathIsWalk(dirs: seq<string>, path: string)
    ensures WalkPath(dirs, path) == Walk(dirs, Split(path))
    decreases |path|
  {
    var n := Upto(path);
    if path == [] {
      assert Walk(dirs, [path]) == Walk(Visit(dirs, path), []);
    } else if n == |path| {
      assert path[..n] == path && path[n..] == [] && Split(path)[1..] == [];
    } else {
      var dirs1 := Visit(dirs, path[..n]);
      assert Split(path)[0] == path[..n] && Split(path)[1..] == Split(path[n + 1..]);
      WalkPathIsWalk(dirs1, path[n + 1..]);
      assert WalkPath(dirs1, path[n..]) == WalkPath(dirs1, path[n + 1..]) by { assert path[n..][1..] == path[n + 1..]; }
    }
  }

  lemma {:induction false} WalkPathClean(dirs: seq<string>, path: string)
    requires AllClean(dirs)
    ensures AllClean(WalkPath(dirs, path))
    decreases |path|
  {
    if path != [] {
      if path[0] == SLASH {
        WalkPathClean(dirs, path[1..]);
      } else {
        WalkPathClean(Visit(dirs, path[..Upto(path)]), path[Upto(path)..]);
      }
    }
  }

  lemma {:induction false} TailAppend(dirs: seq<string>, name: string)
    ensures Tail(dirs + [name]) == Tail(dirs) + [SLASH] + name
    decreases |dirs|
  {
    if dirs == [] {
      assert (dirs + [name])[1..] == [] && [SLASH] + name + [] == [SLASH] + name;
    } else {
      TailAppend(dirs[1..], name);
      assert (dirs + [name])[1..] == dirs[1..] + [name];
      assert [SLASH] + dirs[0] + (Tail(dirs[1..]) + [SLASH] + name) == [SLASH] + dirs[0] + Tail(dirs[1..]) + [SLASH] + name;
    }
  }

  lemma WalkEnd(dirs: seq<string>)
    ensures WalkPath(dirs, "") == dirs
  {
  }

  lemma SkipSlash(dirs: seq<string>, path: string)
    ensures WalkPath(dirs, [SLASH] + path) == WalkPath(dirs, path)
  {
    assert ([SLASH] + path)[1..] == path;
  }

  // A slash and a name go down by the name.
  lemma WalkName(dirs: seq<string>, name: string, rest: string)
    requires Clean(name) && (rest == [] || rest[0] == SLASH)
    ensures WalkPath(dirs, [SLASH] + name + rest) == WalkPath(dirs + [name], rest)
  {
    var path := name + rest;
    assert [SLASH] + name + rest == [SLASH] + path;
    SkipSlash(dirs, path);
    UptoName(name, rest);
    assert path[..|name|] == name && path[|name|..] == rest;
  }

  lemma {:induction false} WalkJoined(dirs: seq<string>, more: seq<string>, rest: string)
    requires AllClean(more) && (rest == [] || rest[0] == SLASH)
    ensures WalkPath(dirs, Tail(more) + rest) == WalkPath(dirs + more, rest)
    decreases |more|
  {
    hide WalkPath, Clean;
    if more == [] {
      assert Tail(more) + rest == rest && dirs + more == dirs;
    } else {
      var tail := Tail(more[1..]) + rest;
      assert Tail(more) + rest == [SLASH] + more[0] + tail;
      assert tail == [] || tail[0] == SLASH;
      WalkName(dirs, more[0], tail);
      WalkJoined(dirs + [more[0]], more[1..], rest);
      assert dirs + [more[0]] + more[1..] == dirs + more;
    }
  }

  // A rendered path walks back to its names.
  lemma {:induction false} WalkTail(dirs: seq<string>, more: seq<string>)
    requires AllClean(more)
    ensures WalkPath(dirs, Tail(more)) == dirs + more
    decreases |more|
  {
    hide WalkPath;
    assert Tail(more) + "" == Tail(more);
    WalkJoined(dirs, more, "");
    WalkEnd(dirs + more);
  }

  lemma UptoName(name: string, rest: string)
    requires forall i :: 0 <= i < |name| ==> name[i] != SLASH
    requires rest == [] || rest[0] == SLASH
    ensures Upto(name + rest) == |name|
  {
    var path := name + rest;
    assert forall i :: 0 <= i < |name| ==> path[i] == name[i];
    assert rest != [] ==> path[|name|] == rest[0];
  }

  // ---- what holds of the result ----

  lemma {:induction false} RenderWalksBack(dirs: seq<string>)
    requires AllClean(dirs)
    ensures Walk([], Split(Render(dirs))) == dirs
  {
    hide Walk, WalkPath, Split;
    WalkPathIsWalk([], Render(dirs));
    WalkTail([], dirs);
    assert [] + dirs == dirs;
    if dirs == [] {
      SkipSlash([], "");
      WalkEnd([]);
      assert [SLASH] + "" == [SLASH];
    }
  }

  lemma {:induction false} TailShape(dirs: seq<string>)
    requires AllClean(dirs) && dirs != []
    ensures |Tail(dirs)| > 1 && Tail(dirs)[0] == SLASH && Tail(dirs)[|Tail(dirs)| - 1] != SLASH
    decreases |dirs|
  {
    if |dirs| > 1 { TailShape(dirs[1..]); } else { assert dirs[1..] == []; }
    assert Clean(dirs[0]);
  }

  lemma AbsoluteIsClean(cwd: Option<string>, path: string)
    requires Absolute(cwd, path).Some?
    ensures exists dirs :: AllClean(dirs) && Absolute(cwd, path) == Some(Render(dirs))
  {
    var dirs := if path != [] && path[0] == SLASH then [] else Walk([], Split(cwd.value));
    if !(path != [] && path[0] == SLASH) {
      WalkPathIsWalk([], cwd.value);
      WalkPathClean([], cwd.value);
    }
    WalkPathIsWalk(dirs, path);
    WalkPathClean(dirs, path);
    assert AllClean(Walk(dirs, Split(path)));
  }

  // The result is normal, starts with a slash, and ends with one only if it is the root.
  lemma AbsoluteIsNormal(cwd: Option<string>, path: string)
    requires Absolute(cwd, path).Some?
    ensures var p := Absolute(cwd, path).value;
            Normal(p) && |p| > 0 && p[0] == SLASH && (p[|p| - 1] == SLASH ==> p == [SLASH])
  {
    AbsoluteIsClean(cwd, path);
    var dirs :| AllClean(dirs) && Absolute(cwd, path) == Some(Render(dirs));
    RenderWalksBack(dirs);
    if dirs != [] { TailShape(dirs); }
  }

  // Done twice, whatever the directory by then, it is done once.
  lemma AbsoluteIdempotent(cwd: Option<string>, path: string, cwd1: Option<string>)
    requires Absolute(cwd, path).Some?
    ensures Absolute(cwd1, Absolute(cwd, path).value) == Absolute(cwd, path)
  {
    AbsoluteIsNormal(cwd, path);
  }

  // A relative path is the absolute one behind the current directory.
  lemma RelativeIsJoined(cwd: string, path: string)
    requires Normal(cwd) && |cwd| < PATH_MAX && (path == [] || path[0] != SLASH)
    ensures Absolute(Some(cwd), path) == Absolute(None, cwd + [SLASH] + path)
  {
    hide Walk, WalkPath, Split, Tail;
    var dirs := Walk([], Split(cwd));
    var rest := [SLASH] + path;
    assert cwd + [SLASH] + path == cwd + rest;
    WalkPathIsWalk([], cwd);
    WalkPathClean([], cwd);
    WalkPathIsWalk(dirs, path);
    WalkPathIsWalk([], cwd + rest);
    SkipSlash(dirs, path);
    if dirs == [] {
      SkipSlash([], rest);
    } else {
      TailShape(dirs);
      WalkJoined([], dirs, rest);
      assert [] + dirs == dirs;
    }
  }

  // ---- what the components of a path do ----

  lemma {:induction false} WalkAppend(dirs: seq<string>, a: seq<string>, b: seq<string>)
    ensures Walk(dirs, a + b) == Walk(Walk(dirs, a), b)
    decreases |a|
  {
    if a == [] {
      assert a + b == b;
    } else {
      assert (a + b)[0] == a[0] && (a + b)[1..] == a[1..] + b;
      WalkAppend(Visit(dirs, a[0]), a[1..], b);
    }
  }

  lemma WalkOne(dirs: seq<string>, name: string)
    ensures Walk(dirs, [name]) == Visit(dirs, name)
  {
    assert [name][1..] == [];
  }

  // A name goes down, two dots take it back, at the root they stay there, and one dot and an empty
  // name do nothing.
  lemma StepLaws(dirs: seq<string>, name: string)
    requires Clean(name)
    ensures Walk(dirs, [name]) == dirs + [name]
    ensures Walk(dirs, [name, ".."]) == dirs
    ensures Walk([], [".."]) == []
    ensures Walk(dirs, ["."]) == dirs && Walk(dirs, [""]) == dirs
  {
    WalkOne(dirs, name);
    WalkOne(dirs + [name], "..");
    WalkOne([], "..");
    WalkOne(dirs, ".");
    WalkOne(dirs, "");
    WalkAppend(dirs, [name], [".."]);
    assert [name] + [".."] == [name, ".."];
  }

  // Going up leaves all names but the last.
  lemma {:induction false} UpLaw(dirs: seq<string>, n: nat)
    requires AllClean(dirs)
    ensures Walk(dirs, seq(n, _ => "..")) == if n >= |dirs| then [] else dirs[..|dirs| - n]
    decreases n
  {
    if n > 0 {
      var ups := seq(n, _ => "..");
      assert ups[1..] == seq(n - 1, _ => "..");
      UpLaw(Visit(dirs, ".."), n - 1);
    } else {
      assert dirs[..|dirs|] == dirs;
    }
  }

  lemma SplitName(name: string)
    requires forall i :: 0 <= i < |name| ==> name[i] != SLASH
    ensures Split(name) == [name]
  {
    UptoName(name, "");
    assert name + "" == name;
  }

  lemma SplitHead(name: string, rest: string)
    requires forall i :: 0 <= i < |name| ==> name[i] != SLASH
    ensures Split(name + [SLASH] + rest) == [name] + Split(rest)
  {
    var path := name + [SLASH] + rest;
    assert path == name + ([SLASH] + rest);
    UptoName(name, [SLASH] + rest);
    hide Upto;
    assert path[..|name|] == name && path[|name| + 1..] == rest;
  }

  // A path behind another one adds its names to those of the other.
  lemma {:induction false} SplitJoined(path: string, more: string)
    ensures Split(path + [SLASH] + more) == Split(path) + Split(more)
    decreases |path|
  {
    var n := Upto(path);
    if n == |path| {
      SplitHead(path, more);
      SplitName(path);
    } else {
      assert path == path[..n] + [SLASH] + path[n + 1..];
      SplitJoined(path[n + 1..], more);
      HeadJoined(path[..n], path[n + 1..], more);
    }
  }

  lemma HeadJoined(name: string, rest: string, more: string)
    requires forall i :: 0 <= i < |name| ==> name[i] != SLASH
    requires Split(rest + [SLASH] + more) == Split(rest) + Split(more)
    ensures Split(name + [SLASH] + rest + [SLASH] + more) == Split(name + [SLASH] + rest) + Split(more)
  {
    hide Split;
    assert name + [SLASH] + rest + [SLASH] + more == name + [SLASH] + (rest + [SLASH] + more);
    SplitHead(name, rest);
    SplitHead(name, rest + [SLASH] + more);
    assert [name] + (Split(rest) + Split(more)) == [name] + Split(rest) + Split(more);
  }

  // Where a path leads with something behind it.
  lemma AbsoluteJoined(cwd: Option<string>, path: string, more: string)
    requires path != []
    ensures Absolute(cwd, path).None? ==> Absolute(cwd, path + [SLASH] + more).None?
    ensures Absolute(cwd, path).Some? ==>
              var start := if path[0] == SLASH then [] else Walk([], Split(cwd.value));
              && Absolute(cwd, path) == Some(Render(Walk(start, Split(path))))
              && Absolute(cwd, path + [SLASH] + more) == Some(Render(Walk(Walk(start, Split(path)), Split(more))))
  {
    var start := if path[0] == SLASH || cwd.None? then [] else Walk([], Split(cwd.value));
    var whole := path + [SLASH] + more;
    assert whole[0] == path[0];
    SplitJoined(path, more);
    WalkAppend(start, Split(path), Split(more));
  }

  // A clean name and two dots behind a path lead where the path does, and so do a dot and a slash.
  lemma AbsoluteUpAndDown(cwd: Option<string>, path: string, name: string)
    requires path != [] && Clean(name)
    ensures Absolute(cwd, path + [SLASH] + name + [SLASH] + "..") == Absolute(cwd, path)
    ensures Absolute(cwd, path + [SLASH] + ".") == Absolute(cwd, path)
    ensures Absolute(cwd, path + [SLASH]) == Absolute(cwd, path)
  {
    hide Walk, Split, Absolute;
    var down := name + [SLASH] + "..";
    assert path + [SLASH] + name + [SLASH] + ".." == path + [SLASH] + down;
    assert path + [SLASH] == path + [SLASH] + "";
    SplitJoined(name, "..");
    SplitName(name);
    SplitName("..");
    SplitName(".");
    SplitName("");
    assert [name] + [".."] == [name, ".."];
    AbsoluteJoined(cwd, path, down);
    AbsoluteJoined(cwd, path, ".");
    AbsoluteJoined(cwd, path, "");
    forall dirs: seq<string>
      ensures Walk(dirs, [name, ".."]) == dirs && Walk(dirs, ["."]) == dirs && Walk(dirs, [""]) == dirs
    {
      StepLaws(dirs, name);
    }
  }

  // A clean name behind an absolute path is a component of the result, and two dots alone take the
  // last one off.
  lemma AbsoluteDown(cwd: Option<string>, dirs: seq<string>, name: string)
    requires AllClean(dirs) && Clean(name)
    ensures Absolute(cwd, Render(dirs + [name])) == Some(Render(dirs + [name]))
    ensures Render(dirs + [name]) == Tail(dirs) + [SLASH] + name
    ensures Absolute(cwd, Render(dirs + [name]) + [SLASH] + "..") == Some(Render(dirs))
    ensures Absolute(cwd, [SLASH] + "..") == Some([SLASH])
  {
    hide Walk, Split;
    var path := Render(dirs + [name]);
    TailAppend(dirs, name);
    TailShape(dirs + [name]);
    RenderWalksBack(dirs + [name]);
    AbsoluteJoined(cwd, path, "..");
    SplitName("..");
    WalkOne(dirs + [name], "..");
    assert (dirs + [name])[..|dirs|] == dirs;
    SplitJoined("", "..");
    SplitName("");
    assert "" + [SLASH] + ".." == [SLASH] + "..";
    assert [""] + [".."] == ["", ".."];
    WalkAppend([], [""], [".."]);
    StepLaws([], name);
  }
}
