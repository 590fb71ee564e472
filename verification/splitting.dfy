/** Splitting a string at a separator and joining the pieces: str_explode and str_implode of
    libintend/libstdlib/string.c, on strings without NUL characters. */
module Splitting {
  import opened Wrappers
  import opened Data
  import opened Casts

  predicate At(s: string, i: nat, sep: string) {
    i + |sep| <= |s| && s[i..i + |sep|] == sep
  }

  // The leftmost occurrence, as strstr finds it.
  function Strstr(s: string, sep: string): (r: Option<nat>)
    ensures r.Some? ==> r.value + |sep| <= |s|
  {
    if At(s, 0, sep) then Some(0)
    else if s == [] then None
    else match Strstr(s[1..], sep)
      case None => None
      case Some(i) => Some(i + 1)
  }

  lemma {:induction false} StrstrFinds(s: string, sep: string)
    ensures Strstr(s, sep).Some? ==> At(s, Strstr(s, sep).value, sep)
    ensures Strstr(s, sep).Some? ==> forall i: nat :: i < Strstr(s, sep).value ==> !At(s, i, sep)
    ensures Strstr(s, sep).None? ==> forall i: nat :: !At(s, i, sep)
    decreases |s|
  {
    if !At(s, 0, sep) && s != [] {
      StrstrFinds(s[1..], sep);
      forall i: nat | i > 0 ensures At(s, i, sep) <==> At(s[1..], i - 1, sep) { Shifted(s, i, sep); }
    }
  }

  lemma Shifted(s: string, i: nat, sep: string)
    requires s != [] && i > 0
    ensures At(s, i, sep) <==> At(s[1..], i - 1, sep)
  {
    if i + |sep| <= |s| { SliceOfSlice(s, 1, |s|, i, |sep|); }
  }

  lemma SliceOfSlice(b: string, from: nat, len: nat, i: nat, n: nat)
    requires from <= i && i + n <= len <= |b|
    ensures b[from..len][i - from..i - from + n] == b[i..i + n]
  {
    assert b[from..len] == b[from..i] + b[i..i + n] + b[i + n..len];
  }

  // A first occurrence is the one that is found.
  lemma FirstIsFound(s: string, i: nat, sep: string)
    requires At(s, i, sep) && forall j: nat :: j < i ==> !At(s, j, sep)
    ensures Strstr(s, sep) == Some(i)
  {
    hide Strstr;
    StrstrFinds(s, sep);
  }

  // The pieces between separators found from the left; nothing after the last separator is no
  // piece.
  function Explode(s: string, sep: string): seq<string>
    requires sep != []
    decreases |s|
  {
    if s == [] then []
    else match Strstr(s, sep)
      case None => [s]
      case Some(i) => [s[..i]] + Explode(s[i + |sep|..], sep)
  }

  function Implode(pieces: seq<string>, sep: string): string {
    if pieces == [] then []
    else if |pieces| == 1 then pieces[0]
    else pieces[0] + sep + Implode(pieces[1..], sep)
  }

  // The split from the left comes out even: it ends with a separator.
  predicate EndsSplit(s: string, sep: string)
    requires sep != []
    decreases |s|
  {
    s != [] && Strstr(s, sep).Some?
    && (var rest := s[Strstr(s, sep).value + |sep|..]; rest == [] || EndsSplit(rest, sep))
  }

  // ---- pieces ----

  predicate Free(p: string, sep: string) {
    Strstr(p, sep).None?
  }

  lemma {:induction false} PiecesAreFree(s: string, sep: string, k: nat)
    requires sep != [] && k < |Explode(s, sep)|
    ensures Free(Explode(s, sep)[k], sep)
    decreases |s|
  {
    match Strstr(s, sep)
    case None =>
    case Some(i) =>
      if k == 0 { PrefixFree(s, sep, i); } else { PiecesAreFree(s[i + |sep|..], sep, k - 1); }
  }

  lemma PrefixFree(s: string, sep: string, i: nat)
    requires sep != [] && Strstr(s, sep) == Some(i)
    ensures Free(s[..i], sep)
  {
    hide Strstr, At;
    StrstrFinds(s, sep);
    StrstrFinds(s[..i], sep);
    forall j: nat ensures At(s[..i], j, sep) ==> At(s, j, sep) && j < i { AtPrefix(s, i, j, sep); }
  }

  lemma AtPrefix(s: string, i: nat, j: nat, sep: string)
    requires sep != [] && i <= |s|
    ensures At(s[..i], j, sep) ==> At(s, j, sep) && j < i
  {
    if j + |sep| <= i {
      SliceOfSlice(s, 0, i, j, |sep|);
      assert s[0..i] == s[..i];
    }
  }

  // ---- there and back ----

  // Joining the pieces gives the string back, short of one separator when the split comes out
  // even.
  lemma {:induction false} ImplodeExplode(s: string, sep: string)
    requires sep != []
    ensures Implode(Explode(s, sep), sep) + (if EndsSplit(s, sep) then sep else []) == s
    decreases |s|
  {
    hide Strstr, At, Explode, Implode;
    if s == [] {
      NothingSplits(sep);
    } else if Strstr(s, sep).Some? {
      var i := Strstr(s, sep).value;
      var rest := s[i + |sep|..];
      var end := if EndsSplit(rest, sep) then sep else [];
      ImplodeExplode(rest, sep);
      FoundSplits(s, sep);
      ExplodeStep(s, i, sep);
      ImplodeMore(s[..i], Explode(rest, sep), sep);
      PiecesOfSome(rest, sep);
      if rest == [] {
        assert s[..i] + sep + rest == s[..i] + sep;
      } else {
        assert s[..i] + sep + Implode(Explode(rest, sep), sep) + end == s[..i] + sep + (Implode(Explode(rest, sep), sep) + end);
      }
    } else {
      OnePiece(s, sep);
      assert s + [] == s;
    }
  }

  lemma NothingSplits(sep: string)
    requires sep != []
    ensures Implode(Explode([], sep), sep) == []
  {
  }

  lemma OnePiece(s: string, sep: string)
    requires sep != [] && s != [] && Strstr(s, sep).None?
    ensures Implode(Explode(s, sep), sep) == s
  {
    hide Strstr;
  }

  lemma PiecesOfSome(s: string, sep: string)
    requires sep != []
    ensures Explode(s, sep) == [] <==> s == []
  {
    hide Strstr;
  }

  lemma FoundSplits(s: string, sep: string)
    requires Strstr(s, sep).Some?
    ensures var i := Strstr(s, sep).value; s == s[..i] + sep + s[i + |sep|..]
  {
    StrstrFinds(s, sep);
    var i := Strstr(s, sep).value;
    assert s[i..i + |sep|] == sep;
  }

  lemma ImplodeMore(p: string, pieces: seq<string>, sep: string)
    ensures Implode([p] + pieces, sep) == if pieces == [] then p else p + sep + Implode(pieces, sep)
  {
    assert ([p] + pieces)[1..] == pieces;
  }

  lemma RoundTrip(s: string, sep: string)
    requires sep != []
    ensures Implode(Explode(s, sep), sep) == s <==> !EndsSplit(s, sep)
  {
    ImplodeExplode(s, sep);
  }

  // A separator first met right behind a piece.
  predicate Delimits(p: string, sep: string) {
    Strstr(p + sep, sep) == Some(|p|)
  }

  // Pieces that come back from a split of what they are joined to.
  predicate Splittable(pieces: seq<string>, sep: string) {
    pieces == []
    || (if |pieces| == 1 then pieces[0] != [] && Free(pieces[0], sep)
        else Delimits(pieces[0], sep) && Splittable(pieces[1..], sep))
  }

  // Exactly these come back.
  lemma {:induction false} ExplodeImplode(pieces: seq<string>, sep: string)
    requires sep != []
    ensures Explode(Implode(pieces, sep), sep) == pieces <==> Splittable(pieces, sep)
    decreases |pieces|
  {
    hide Strstr;
    if |pieces| > 1 {
      var (p, rest) := (pieces[0], Implode(pieces[1..], sep));
      var s := p + sep + rest;
      ExplodeImplode(pieces[1..], sep);
      assert s[..|p|] == p && s[|p| + |sep|..] == rest;
      assert pieces == [p] + pieces[1..];
      if Delimits(p, sep) {
        FoundBehind(p, sep, rest);
      } else if Explode(s, sep) == pieces {
        SeparatorStands(p, sep, rest);
        assert s[..Strstr(s, sep).value] == Explode(s, sep)[0] == p;
        StillFirst(p, sep, rest);
      }
    } else if |pieces| == 1 {
      assert pieces == [pieces[0]];
      OnlyPiece(pieces[0], sep);
    }
  }

  lemma OnlyPiece(p: string, sep: string)
    requires sep != []
    ensures Explode(p, sep) == [p] <==> p != [] && Free(p, sep)
  {
    hide Strstr;
    if p != [] && Strstr(p, sep).Some? { assert |Explode(p, sep)[0]| < |p|; }
  }

  lemma SeparatorStands(p: string, sep: string, rest: string)
    ensures Strstr(p + sep + rest, sep).Some?
  {
    hide Strstr;
    var s := p + sep + rest;
    StrstrFinds(s, sep);
    assert s[|p|..|p| + |sep|] == sep;
    assert At(s, |p|, sep);
  }

  // The first separator of the whole is the first one of its beginning too.
  lemma StillFirst(p: string, sep: string, rest: string)
    requires Strstr(p + sep + rest, sep) == Some(|p|)
    ensures Delimits(p, sep)
  {
    hide Strstr;
    var (s, t) := (p + sep + rest, p + sep);
    StrstrFinds(s, sep);
    assert t[|p|..|p| + |sep|] == sep;
    forall i: nat | i < |p| ensures !At(t, i, sep) {
      assert !At(s, i, sep);
      if i + |sep| <= |t| { assert s[i..i + |sep|] == t[i..i + |sep|]; }
    }
    FirstIsFound(t, |p|, sep);
  }

  lemma FoundBehind(p: string, sep: string, rest: string)
    requires sep != [] && Delimits(p, sep)
    ensures Strstr(p + sep + rest, sep) == Some(|p|)
  {
    hide Strstr;
    var (s, t) := (p + sep + rest, p + sep);
    StrstrFinds(t, sep);
    assert s[|p|..|p| + |sep|] == sep;
    forall i: nat | i < |p| ensures !At(s, i, sep) {
      assert !At(t, i, sep);
      assert s[i..i + |sep|] == t[i..i + |sep|];
    }
    FirstIsFound(s, |p|, sep);
  }

  // With a separator of one character: the pieces that do not hold it and do not end with an
  // empty one.
  lemma {:induction false} SingleCharacter(pieces: seq<string>, c: char)
    ensures Explode(Implode(pieces, [c]), [c]) == pieces
       <==> (forall k :: 0 <= k < |pieces| ==> c !in pieces[k]) && (pieces != [] ==> pieces[|pieces| - 1] != [])
  {
    SingleSplittable(pieces, c);
    ExplodeImplode(pieces, [c]);
  }

  lemma {:induction false} SingleSplittable(pieces: seq<string>, c: char)
    ensures Splittable(pieces, [c])
       <==> (forall k :: 0 <= k < |pieces| ==> c !in pieces[k]) && (pieces != [] ==> pieces[|pieces| - 1] != [])
    decreases |pieces|
  {
    hide Strstr;
    if pieces != [] {
      SingleDelimits(pieces[0], c);
      if |pieces| > 1 {
        var rest := pieces[1..];
        SingleSplittable(rest, c);
        assert forall k :: 0 < k < |pieces| ==> pieces[k] == rest[k - 1];
        assert forall k :: 0 <= k < |rest| ==> rest[k] == pieces[k + 1];
      }
    }
  }

  lemma SingleDelimits(p: string, c: char)
    ensures Delimits(p, [c]) <==> c !in p
    ensures Free(p, [c]) <==> c !in p
  {
    hide Strstr;
    var t := p + [c];
    StrstrFinds(p, [c]);
    StrstrFinds(t, [c]);
    forall i: nat | i < |p| ensures (At(t, i, [c]) <==> p[i] == c) && (At(p, i, [c]) <==> p[i] == c) {
      assert t[i] == p[i] && t[i..i + 1] == [t[i]] && p[i..i + 1] == [p[i]];
    }
    if c in p {
      var i: nat :| i < |p| && p[i] == c;
      assert At(t, i, [c]) && At(p, i, [c]);
    } else {
      assert t[|p|..|p| + 1] == [c];
      FirstIsFound(t, |p|, [c]);
    }
  }

  // ---- the loop ----

  lemma ExplodeStep(s: string, i: nat, sep: string)
    requires sep != [] && s != [] && Strstr(s, sep) == Some(i)
    ensures Explode(s, sep) == [s[..i]] + Explode(s[i + |sep|..], sep)
  {
    hide Strstr;
  }

  lemma NextPiece(s: string, next: nat, end: nat, sep: string)
    requires sep != [] && next <= end && next < |s| && Strstr(s[next..], sep) == Some(end - next)
    ensures end + |sep| <= |s|
    ensures Explode(s[next..], sep) == [s[next..end]] + Explode(s[end + |sep|..], sep)
  {
    hide Strstr, Explode, At;
    TailStep(s[next..], s, next, end, sep);
  }

  lemma TailStep(t: string, s: string, next: nat, end: nat, sep: string)
    requires sep != [] && next <= end && next < |s| && t == s[next..] && Strstr(t, sep) == Some(end - next)
    ensures end + |sep| <= |s|
    ensures Explode(t, sep) == [s[next..end]] + Explode(s[end + |sep|..], sep)
  {
    hide Strstr, Explode, At;
    ExplodeStep(t, end - next, sep);
    assert t[..end - next] == s[next..end];
    assert t[end - next + |sep|..] == s[end + |sep|..];
  }

  lemma LastPiece(s: string, next: nat, sep: string)
    requires sep != [] && next <= |s| && (next == |s| || Strstr(s[next..], sep).None?)
    ensures Explode(s[next..], sep) == if next < |s| then [s[next..]] else []
  {
  }

  // Where the loop stands after at most fuel pieces; None while it is still running.
  function ExplodeLoop(s: string, next: nat, sep: string, res: seq<string>, fuel: nat): Option<seq<string>>
    requires next <= |s|
    decreases fuel
  {
    if next < |s| && Strstr(s[next..], sep).Some? then
      if fuel == 0 then None
      else
        var i := Strstr(s[next..], sep).value;
        ExplodeLoop(s, next + i + |sep|, sep, res + [s[next..next + i]], fuel - 1)
    else Some(if next < |s| then res + [s[next..]] else res)
  }

  // An empty separator is found where the search begins, so that the loop never gets on.
  lemma {:induction false} EmptySeparatorHangs(s: string, res: seq<string>, fuel: nat)
    requires s != []
    ensures ExplodeLoop(s, 0, [], res, fuel) == None
    decreases fuel
  {
    assert At(s[0..], 0, []);
    assert Strstr(s[0..], []) == Some(0);
    if fuel > 0 {
      EmptySeparatorHangs(s, res + [s[0..0]], fuel - 1);
    }
  }

  lemma {:induction false} LoopExplodes(s: string, next: nat, sep: string, res: seq<string>, fuel: nat)
    requires sep != [] && next <= |s| && fuel >= |s| - next
    ensures ExplodeLoop(s, next, sep, res, fuel) == Some(res + Explode(s[next..], sep))
    decreases fuel
  {
    hide Strstr, Explode, At;
    if next < |s| && Strstr(s[next..], sep).Some? {
      var end := next + Strstr(s[next..], sep).value;
      LoopExplodes(s, end + |sep|, sep, res + [s[next..end]], fuel - 1);
      NextPiece(s, next, end, sep);
      assert res + [s[next..end]] + Explode(s[end + |sep|..], sep) == res + ([s[next..end]] + Explode(s[end + |sep|..], sep));
    } else {
      LastPiece(s, next, sep);
      assert res + [] == res;
    }
  }

  // The loop ends exactly when the separator is not empty, or there is nothing to split.
  lemma LoopEnds(s: string, sep: string)
    ensures (exists fuel :: ExplodeLoop(s, 0, sep, [], fuel).Some?) <==> sep != [] || s == []
  {
    if sep != [] {
      LoopExplodes(s, 0, sep, [], |s|);
      assert ExplodeLoop(s, 0, sep, [], |s|).Some?;
    } else if s == [] {
      assert ExplodeLoop(s, 0, sep, [], 0).Some?;
    } else {
      forall fuel ensures ExplodeLoop(s, 0, sep, [], fuel).None? { EmptySeparatorHangs(s, [], fuel); }
    }
  }

  const NUL: char := '\0'

  // The text from a position up to the end mark.
  method CString(buf: array<char>, from: nat, ghost end: nat) returns (s: string)
    requires from <= end < buf.Length && buf[end] == NUL
    requires forall i :: from <= i < end ==> buf[i] != NUL
    ensures s == buf[from..end]
  {
    s := [];
    var i := from;
    while buf[i] != NUL
      invariant from <= i <= end && s == buf[from..i]
      decreases end - i
    {
      s := s + [buf[i]];
      i := i + 1;
    }
  }

  // Whether the separator stands here, before the end mark.
  method Matches(buf: array<char>, i: nat, sep: string, ghost len: nat) returns (ok: bool)
    requires NUL !in sep
    requires i <= len < buf.Length && buf[len] == NUL
    ensures ok <==> i + |sep| <= len && buf[i..i + |sep|] == sep
  {
    var k := 0;
    while k < |sep| && buf[i + k] == sep[k]
      invariant 0 <= k <= |sep| && i + k <= len
      invariant buf[i..i + k] == sep[..k]
    {
      k := k + 1;
    }
    ok := k == |sep|;
    if !ok && i + |sep| <= len { assert buf[i..i + |sep|][k] == buf[i + k]; }
  }

  method FindFrom(buf: array<char>, from: nat, sep: string, ghost len: nat) returns (end: int)
    requires sep != [] && NUL !in sep
    requires from <= len < buf.Length && buf[len] == NUL && forall i :: from <= i < len ==> buf[i] != NUL
    ensures end < 0 ==> Strstr(buf[from..len], sep).None?
    ensures end >= 0 ==> from <= end && Strstr(buf[from..len], sep) == Some(end - from)
  {
    hide Strstr;
    ghost var s := buf[from..len];
    StrstrFinds(s, sep);
    var i := from;
    while true
      invariant from <= i <= len
      invariant forall j: nat :: j < i - from ==> !At(s, j, sep)
      decreases len - i
    {
      var ok := Matches(buf, i, sep, len);
      if i + |sep| <= len {
        SliceOfSlice(buf[..], from, len, i, |sep|);
        assert buf[i..i + |sep|] == buf[..][i..i + |sep|] && s == buf[..][from..len];
      }
      assert ok <==> At(s, i - from, sep);
      if ok {
        FirstIsFound(s, i - from, sep);
        return i;
      }
      if buf[i] == NUL {
        forall j: nat ensures !At(s, j, sep) {}
        return -1;
      }
      i := i + 1;
    }
  }

  // A buffer that ends as the string does has the same parts in it.
  lemma SameTail(b: string, s: string, next: nat, end: nat, n: nat)
    requires next <= end && end + n <= |s| < |b| && b[next..|s|] == s[next..]
    ensures b[next..end] == s[next..end] && b[end + n..|s|] == s[end + n..]
  {
    assert b[next..|s|][..end - next] == b[next..end] && s[next..][..end - next] == s[next..end];
    assert b[next..|s|][end + n - next..] == b[end + n..|s|] && s[next..][end + n - next..] == s[end + n..];
  }

  // The pieces as the elements of an array.
  function Elements(pieces: seq<string>): seq<Item> {
    seq(|pieces|, i requires 0 <= i < |pieces| => Item(None, Str(pieces[i])))
  }

  // Each separator found is overwritten with an end mark, and what stands before it is a piece.
  // Without a separator the string is cast.
  method StrExplode(str: string, sep: Option<string>) returns (res: seq<Item>)
    requires NUL !in str && (sep.Some? ==> sep.value != [] && NUL !in sep.value)
    ensures sep.Some? ==> res == Elements(Explode(str, sep.value))
    ensures sep.None? ==> res == CastToArr(Str(str))
  {
    hide Explode, Strstr, At;
    if sep.None? { return CastToArr(Str(str)); }
    var (len, sp) := (|str|, sep.value);
    var buf := new char[len + 1](_ => NUL);
    forall i | 0 <= i < len { buf[i] := str[i]; }
    assert buf[..len] == str;
    res := [];
    ghost var pieces: seq<string> := [];
    var next := 0;
    while next < len
      invariant 0 <= next <= len
      invariant buf[next..len] == str[next..] && buf[len] == NUL
      invariant res == Elements(pieces) && pieces + Explode(str[next..], sp) == Explode(str, sp)
    {
      forall i | next <= i < len ensures buf[i] != NUL {
        assert buf[i] == buf[next..len][i - next] == str[i];
      }
      var end := FindFrom(buf, next, sp, len);
      if end < 0 { break; }
      NextPiece(str, next, end, sp);
      SameTail(buf[..], str, next, end, |sp|);
      buf[end] := NUL;
      var elem := CString(buf, next, end);
      res := res + [Item(None, Str(elem))];
      pieces := pieces + [elem];
      next := end + |sp|;
    }
    LastPiece(str, next, sp);
    if next < len {
      forall i | next <= i < len ensures buf[i] != NUL {
        assert buf[i] == buf[next..len][i - next] == str[i];
      }
      var elem := CString(buf, next, len);
      res := res + [Item(None, Str(elem))];
      pieces := pieces + [elem];
    }
  }

  // The elements of an array, each cast to a string.
  function Texts(items: seq<Item>, fmt: Formats): seq<string> {
    if items == [] then [] else [CastToStr(items[0].value, fmt)] + Texts(items[1..], fmt)
  }

  lemma {:induction false} TextAt(items: seq<Item>, fmt: Formats, i: nat)
    requires i < |items|
    ensures |Texts(items, fmt)| == |items| && Texts(items, fmt)[i] == CastToStr(items[i].value, fmt)
    decreases |items|
  {
    if i > 0 { TextAt(items[1..], fmt, i - 1); } else if |items| > 1 { TextAt(items[1..], fmt, 0); }
  }

  // Strings as elements are cast to themselves, so that a split can be joined again.
  lemma {:induction false} ElementTexts(pieces: seq<string>, fmt: Formats)
    ensures Texts(Elements(pieces), fmt) == pieces
    decreases |pieces|
  {
    if pieces != [] {
      assert Elements(pieces)[1..] == Elements(pieces[1..]);
      ElementTexts(pieces[1..], fmt);
    }
  }

  // Without a separator the array is cast, which is the same as joining at nothing.
  lemma {:induction false} CastIsImplode(items: seq<Item>, fmt: Formats)
    ensures CastToStr(Arr(items), fmt) == Implode(Texts(items, fmt), [])
    decreases |items|
  {
    if items != [] {
      var (t, rest) := (CastToStr(items[0].value, fmt), items[1..]);
      CastIsImplode(rest, fmt);
      assert CastToStr(Arr(rest), fmt) == ItemsToStr(rest, fmt);
      assert ItemToStr(items[0], fmt) == t;
      assert CastToStr(Arr(items), fmt) == ItemsToStr(items, fmt) == t + ItemsToStr(rest, fmt);
      ImplodeMore(t, Texts(rest, fmt), []);
      assert t + [] == t;
    }
  }

  // The elements in turn, each cast to a string, with the separator before every one but the
  // first.
  method StrImplode(items: seq<Item>, sep: Option<string>, fmt: Formats) returns (res: string)
    ensures sep.Some? ==> res == Implode(Texts(items, fmt), sep.value)
    ensures sep.None? ==> res == CastToStr(Arr(items), fmt) == Implode(Texts(items, fmt), [])
  {
    hide CastToStr;
    if sep.None? {
      CastIsImplode(items, fmt);
      return CastToStr(Arr(items), fmt);
    }
    ghost var pieces := Texts(items, fmt);
    var buf: Option<string> := None;
    var i := 0;
    if items != [] { TextAt(items, fmt, 0); }
    while i < |items|
      invariant 0 <= i <= |items| == |pieces|
      invariant buf.None? <==> i == 0
      invariant buf.Some? ==> buf.value + Rest(pieces[i..], sep.value) == Implode(pieces, sep.value)
    {
      var elem := CastToStr(items[i].value, fmt);
      TextAt(items, fmt, i);
      if buf.None? {
        buf := Some([]);
        RestIsTail(pieces, sep.value);
      } else {
        buf := Some(buf.value + sep.value);
      }
      if |elem| > 0 { buf := Some(buf.value + elem); }
      i := i + 1;
      assert pieces[i - 1..][1..] == pieces[i..];
    }
    res := if buf.None? then [] else buf.value;
  }

  function Rest(pieces: seq<string>, sep: string): string {
    if pieces == [] then [] else sep + pieces[0] + Rest(pieces[1..], sep)
  }

  lemma {:induction false} RestIsTail(pieces: seq<string>, sep: string)
    requires pieces != []
    ensures Implode(pieces, sep) == pieces[0] + Rest(pieces[1..], sep)
    decreases |pieces|
  {
    if |pieces| > 1 {
      RestIsTail(pieces[1..], sep);
      assert pieces[0] + sep + (pieces[1] + Rest(pieces[2..], sep)) == pieces[0] + (sep + pieces[1] + Rest(pieces[2..], sep));
      assert pieces[1..][1..] == pieces[2..];
    }
  }
}
