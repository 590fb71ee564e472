/** path_absolute of libintend/libruntime/path.c: the path is built and taken back in place, in
    a buffer that grows. */
module PathBuffer {
  import opened Wrappers
  import opened PathNames

  // The buffer's text: the names so far, perhaps with a slash left over from going up.
  predicate Holds(text: string, dirs: seq<string>) {
    text == Render(dirs) || (dirs != [] && text == Tail(dirs) + [SLASH])
  }

  class Resolver {
    var rpath: array<char>
    var dest: nat

    // What has been written, with room for one more character after it.
    ghost predicate Valid(dirs: seq<string>)
      reads this, rpath
    {
      1 <= dest < rpath.Length && AllClean(dirs) && Holds(rpath[..dest], dirs)
    }

    constructor ()
      ensures fresh(rpath) && rpath.Length == PATH_MAX
    {
      rpath := new char[PATH_MAX](_ => '\0');
      dest := 0;
    }

    // Back to the slash before the last name.
    method BackUp(ghost dirs: seq<string>)
      requires Valid(dirs)
      modifies this`dest
      ensures Valid(Visit(dirs, ".."))
    {
      if dest > 1 {
        ghost var text := rpath[..dest];
        ghost var front := dirs[..|dirs| - 1];
        ghost var p := LastSlash(text, dirs);
        dest := dest - 1;
        while rpath[dest - 1] != SLASH
          invariant p <= dest < |text| == old(dest)
          invariant text == rpath[..|text|]
          decreases dest
        {
          assert rpath[dest - 1] == text[dest - 1];
          dest := dest - 1;
        }
        assert rpath[dest - 1] == text[dest - 1] == SLASH;
        assert rpath[..dest] == text[..dest];
      }
    }

    // Room for n more characters and the end mark.
    method Grow(n: nat)
      requires 0 < dest <= rpath.Length
      modifies this`rpath
      ensures dest + n < rpath.Length
      ensures rpath[..dest] == old(rpath[..dest])
      ensures rpath == old(rpath) || fresh(rpath)
    {
      if dest + n >= rpath.Length {
        var size := rpath.Length + if n + 1 > PATH_MAX then n + 1 else PATH_MAX;
        var grown := new char[size](_ => '\0');
        forall i | 0 <= i < rpath.Length { grown[i] := rpath[i]; }
        assert grown[..dest] == rpath[..dest];
        rpath := grown;
      }
    }

    // A slash after the names, unless one is left over.
    method AddSlash(ghost dirs: seq<string>)
      requires Valid(dirs)
      modifies this`dest, rpath
      ensures 0 < dest <= rpath.Length && rpath[..dest] == Tail(dirs) + [SLASH]
    {
      ghost var text := rpath[..dest];
      LastChar(text, dirs);
      assert rpath[dest - 1] == text[dest - 1];
      if rpath[dest - 1] != SLASH {
        rpath[dest] := SLASH;
        dest := dest + 1;
        assert rpath[..dest] == text + [SLASH];
      }
    }

    // Characters after the text, and the end mark after them.
    method Append(path: string, start: nat, end: nat)
      requires start <= end <= |path| && dest + (end - start) < rpath.Length
      modifies this`dest, rpath
      ensures dest < rpath.Length && rpath[..dest] == old(rpath[..dest]) + path[start..end]
      ensures dest == old(dest) + (end - start)
    {
      forall i | 0 <= i < end - start { rpath[dest + i] := path[start + i]; }
      dest := dest + (end - start);
      rpath[dest] := '\0';
    }

    method Push(path: string, start: nat, end: nat, ghost dirs: seq<string>)
      requires Valid(dirs) && start <= end <= |path| && Clean(path[start..end])
      modifies this, rpath
      ensures Valid(dirs + [path[start..end]])
      ensures rpath == old(rpath) || fresh(rpath)
    {
      hide Clean;
      AddSlash(dirs);
      Grow(end - start);
      Append(path, start, end);
      TailAppend(dirs, path[start..end]);
    }

    method Step(path: string, start: nat, end: nat, ghost dirs: seq<string>)
      requires Valid(dirs) && start < end <= |path|
      requires forall i :: start <= i < end ==> path[i] != SLASH
      modifies this, rpath
      ensures Valid(Visit(dirs, path[start..end]))
      ensures rpath == old(rpath) || fresh(rpath)
    {
      ghost var name := path[start..end];
      assert |name| == 1 ==> name == [path[start]];
      assert |name| == 2 ==> name == [path[start], path[start + 1]];
      if end - start == 1 && path[start] == '.' {
        assert name == ".";
      } else if end - start == 2 && path[start] == '.' && path[start + 1] == '.' {
        assert name == "..";
        BackUp(dirs);
      } else {
        Push(path, start, end, dirs);
      }
    }

    method Resolve(path: string, ghost base: seq<string>)
      requires Valid(base)
      modifies this, rpath
      ensures Valid(WalkPath(base, path))
      ensures rpath == old(rpath) || fresh(rpath)
    {
      hide WalkPath, Visit, Valid;
      var start := 0;
      ghost var dirs := base;
      assert path[0..] == path;
      while start < |path|
        invariant 0 <= start <= |path| && Valid(dirs)
        invariant rpath == old(rpath) || fresh(rpath)
        invariant WalkPath(dirs, path[start..]) == WalkPath(base, path)
      {
        var end;
        start, end := NextName(path, start, dirs);
        if end == start {
          break;
        }
        Step(path, start, end, dirs);
        dirs := Visit(dirs, path[start..end]);
        start := end;
      }
      assert path[start..] == "";
      WalkEnd(dirs);
    }

    // The next name: past a run of slashes, up to the slash after it.
    method NextName(path: string, from: nat, ghost dirs: seq<string>) returns (start: nat, end: nat)
      requires from < |path|
      ensures from <= start <= end <= |path|
      ensures forall i :: start <= i < end ==> path[i] != SLASH
      ensures start == end ==> end == |path| && WalkPath(dirs, path[from..]) == WalkPath(dirs, "")
      ensures start < end ==>
                WalkPath(dirs, path[from..]) == WalkPath(Visit(dirs, path[start..end]), path[end..])
    {
      hide WalkPath, Visit;
      start := from;
      while start < |path| && path[start] == SLASH
        invariant from <= start <= |path|
        invariant WalkPath(dirs, path[start..]) == WalkPath(dirs, path[from..])
      {
        assert path[start..] == [SLASH] + path[start + 1..];
        SkipSlash(dirs, path[start + 1..]);
        start := start + 1;
      }
      end := start;
      while end < |path| && path[end] != SLASH
        invariant start <= end <= |path|
        invariant forall i :: start <= i < end ==> path[i] != SLASH
      {
        end := end + 1;
      }
      if start < end { WalkNext(dirs, path, start, end); } else { assert path[start..] == ""; }
    }

    // The current directory, if the path needs it, or the root.
    method Begin(cwd: Option<string>, path: string) returns (ok: bool, ghost base: seq<string>)
      requires cwd.Some? ==> Normal(cwd.value)
      requires rpath.Length == PATH_MAX
      modifies this`dest, rpath
      ensures var rooted := path != [] && path[0] == SLASH;
              ok == (rooted || (cwd.Some? && |cwd.value| < PATH_MAX))
              && (ok ==> Valid(base) && base == if rooted then [] else Walk([], Split(cwd.value)))
    {
      hide Walk, Split;
      base := [];
      if path == [] || path[0] != SLASH {
        if cwd.None? || |cwd.value| >= PATH_MAX { return false, []; }
        base := Walk([], Split(cwd.value));
        WalkPathIsWalk([], cwd.value);
        WalkPathClean([], cwd.value);
        RenderNonEmpty(base);
        dest := 0;
        Append(cwd.value, 0, |cwd.value|);
        assert rpath[..dest] == cwd.value;
      } else {
        rpath[0] := SLASH;
        dest := 1;
        assert rpath[..1] == [SLASH];
      }
      ok := true;
    }

    // The text without a slash left over.
    method Finish(ghost dirs: seq<string>) returns (res: string)
      requires Valid(dirs)
      modifies this`dest, rpath
      ensures res == Render(dirs)
    {
      ghost var text := rpath[..dest];
      LastChar(text, dirs);
      assert rpath[dest - 1] == text[dest - 1];
      if dest > 1 && rpath[dest - 1] == SLASH {
        dest := dest - 1;
        assert rpath[..dest] == text[..|text| - 1];
      }
      assert rpath[..dest] == Render(dirs);
      rpath[dest] := '\0';
      res := rpath[..dest];
    }

    // The absolute form of a path, from a current directory that is normal.
    method PathAbsolute(cwd: Option<string>, path: string) returns (res: Option<string>)
      requires cwd.Some? ==> Normal(cwd.value)
      requires rpath.Length == PATH_MAX
      modifies this, rpath
      ensures res == Absolute(cwd, path)
    {
      hide Walk, WalkPath, Split, Valid, Normal;
      var ok, base := Begin(cwd, path);
      if !ok { return None; }
      Resolve(path, base);
      WalkPathIsWalk(base, path);
      var text := Finish(WalkPath(base, path));
      res := Some(text);
    }
  }

  lemma RenderNonEmpty(dirs: seq<string>)
    requires AllClean(dirs)
    ensures |Render(dirs)| >= 1
  {
    if dirs != [] { TailShape(dirs); }
  }

  // The text ends in a slash when it is the root or has one left over.
  lemma LastChar(text: string, dirs: seq<string>)
    requires AllClean(dirs) && Holds(text, dirs)
    ensures |text| >= 1
    ensures text[|text| - 1] == SLASH ==> text == Tail(dirs) + [SLASH]
    ensures text[|text| - 1] != SLASH ==> dirs != [] && text == Tail(dirs)
    ensures |text| == 1 ==> dirs == []
  {
    if dirs != [] { TailShape(dirs); }
  }

  // The slash that going up goes back to, and what is left before it.
  lemma LastSlash(text: string, dirs: seq<string>) returns (p: nat)
    requires AllClean(dirs) && Holds(text, dirs) && |text| > 1
    ensures dirs != [] && 1 <= p < |text| && text[p - 1] == SLASH
    ensures forall i :: p <= i < |text| - 1 ==> text[i] != SLASH
    ensures Holds(text[..p], dirs[..|dirs| - 1])
  {
    assert dirs != [];
    var (front, name) := (dirs[..|dirs| - 1], dirs[|dirs| - 1]);
    assert dirs == front + [name] && Clean(name);
    TailAppend(front, name);
    p := |Tail(front)| + 1;
    assert text[..p] == Tail(front) + [SLASH];
    assert forall i :: p <= i < p + |name| ==> text[i] == name[i - p];
  }

  lemma WalkNext(dirs: seq<string>, path: string, start: nat, end: nat)
    requires start < end <= |path| && (end < |path| ==> path[end] == SLASH)
    requires forall i :: start <= i < end ==> path[i] != SLASH
    ensures WalkPath(dirs, path[start..]) == WalkPath(Visit(dirs, path[start..end]), path[end..])
  {
    hide Visit;
    var rest := path[start..];
    assert rest == path[start..end] + path[end..];
    UptoName(path[start..end], path[end..]);
    assert rest[..end - start] == path[start..end] && rest[end - start..] == path[end..];
  }
}
