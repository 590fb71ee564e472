/** Calls that check their arguments and their result against a prototype
    (libintend/libruntime/call_check.c and call_func.c). */
module TypedCalls {
  import opened Wrappers
  import opened Data
  import opened Casts

  datatype Signature = Signature(args: nat, proto: Option<string>, rettype: char)

  function Typechar(t: Type): char {
    match t
    case VoidType => 'v'
    case BoolType => 'b'
    case IntType => 'i'
    case FloatType => 'f'
    case StrType => 's'
    case ArrType => 'a'
    case StructType => 'c'
    case FnType => 'p'
    case ResType => 'r'
  }

  function Chartype(c: char): Type {
    if c == 'b' then BoolType
    else if c == 'i' then IntType
    else if c == 'f' then FloatType
    else if c == 's' then StrType
    else if c == 'a' then ArrType
    else if c == 'c' then StructType
    else if c == 'p' then FnType
    else if c == 'r' then ResType
    else VoidType
  }

  predicate IsLower(c: char) { 'a' <= c <= 'z' }

  function ToLower(c: char): char {
    if 'A' <= c <= 'Z' then c + (32 as char) else c
  }

  // The part of a prototype before a star, which is what is checked.
  function Fixed(proto: string): (n: nat)
    ensures n <= |proto|
    ensures forall i :: 0 <= i < n ==> proto[i] != '*'
    ensures n < |proto| ==> proto[n] == '*'
  {
    if proto == [] || proto[0] == '*' then 0 else 1 + Fixed(proto[1..])
  }

  function Letters(sig: Signature): string {
    if sig.proto.Some? then sig.proto.value[..Fixed(sig.proto.value)] else []
  }

  // A letter that an argument answers as it is.
  predicate Answers(v: Data, c: char) {
    c == '?' || Typechar(TypeOf(v)) == ToLower(c)
  }

  // The type that a letter asks for, or any.
  predicate HasType(v: Data, c: char) {
    c == '?' || TypeOf(v) == Chartype(ToLower(c))
  }

  // The arguments after the check from one letter on, and whether it was fatal.  A small letter
  // that is not answered ends the check; a capital one forces a cast, after which the check
  // goes on even when the cast was fatal.
  function CheckFrom(letters: string, args: seq<Data>, i: nat, died: bool, fmt: Formats): (seq<Data>, bool)
    requires |letters| <= |args|
    decreases |letters| - i
  {
    if i >= |letters| then (args, died)
    else if Answers(args[i], letters[i]) then CheckFrom(letters, args, i + 1, died, fmt)
    else if IsLower(letters[i]) then (args, true)
    else
      var (v, fatal) := Cast(args[i], Chartype(ToLower(letters[i])), fmt);
      CheckFrom(letters, args[i := v], i + 1, died || fatal, fmt)
  }

  // A caller passes as many arguments as there are letters, unless too few for the function.
  predicate Callable(sig: Signature, args: seq<Data>) {
    |args| >= sig.args ==> |Letters(sig)| <= |args|
  }

  function Check(sig: Signature, args: seq<Data>, fmt: Formats): (seq<Data>, bool)
    requires Callable(sig, args)
  {
    if |args| < sig.args then (args, true)
    else if sig.args == 0 && sig.proto.None? then (args, false)
    else CheckFrom(Letters(sig), args, 0, false, fmt)
  }

  // What a call does: the target runs on the checked arguments unless something is pending, and
  // its result is checked unless something is pending then.
  datatype Outcome = Outcome(result: Data, raised: bool, exited: bool)

  type Target = seq<Data> -> Outcome

  function CheckResult(sig: Signature, o: Outcome, fmt: Formats): Outcome {
    if o.raised || o.exited || Answers(o.result, sig.rettype) then o
    else if IsLower(sig.rettype) || sig.rettype == 'P' then o.(exited := true)
    else
      var (v, fatal) := Cast(o.result, Chartype(ToLower(sig.rettype)), fmt);
      o.(result := v, exited := fatal)
  }

  function Called(sig: Signature, args: seq<Data>, target: Target, fmt: Formats): Outcome
    requires Callable(sig, args)
  {
    var (checked, died) := Check(sig, args, fmt);
    if died then Outcome(Void, false, true) else CheckResult(sig, target(checked), fmt)
  }

  // ---- what the check establishes ----

  lemma TypeLetters(t: Type)
    ensures Chartype(Typechar(t)) == t
  {
  }

  // An argument that the check accepts: it answers its letter, or may be cast to it.
  predicate Acceptable(v: Data, c: char) {
    Answers(v, c) || (!IsLower(c) && Chartype(ToLower(c)) != FnType && Chartype(ToLower(c)) != ResType)
  }

  // What an accepted argument becomes.
  function Casted(v: Data, c: char, fmt: Formats): Data {
    if Answers(v, c) then v else Cast(v, Chartype(ToLower(c)), fmt).0
  }

  lemma {:induction false} CheckFromAccepts(letters: string, args: seq<Data>, i: nat, died: bool, fmt: Formats)
    requires |letters| <= |args| && i <= |letters|
    ensures var (args1, died1) := CheckFrom(letters, args, i, died, fmt);
            |args1| == |args|
            && (died1 <==> died || exists j :: i <= j < |letters| && !Acceptable(args[j], letters[j]))
            && (!died1 ==> forall j :: 0 <= j < |args| ==>
                  args1[j] == if i <= j < |letters| then Casted(args[j], letters[j], fmt) else args[j])
    decreases |letters| - i
  {
    if i < |letters| {
      var (a, c) := (args[i], letters[i]);
      if Answers(a, c) {
        CheckFromAccepts(letters, args, i + 1, died, fmt);
      } else if IsLower(c) {
        assert !Acceptable(args[i], letters[i]);
      } else {
        var (v, fatal) := Cast(a, Chartype(ToLower(c)), fmt);
        var args1 := args[i := v];
        CheckFromAccepts(letters, args1, i + 1, died || fatal, fmt);
        assert forall j :: i < j < |letters| ==> args1[j] == args[j];
        assert fatal <==> !Acceptable(args[i], letters[i]) by { NotAnswered(a, c); }
      }
    }
  }

  lemma NotAnswered(v: Data, c: char)
    requires !Answers(v, c)
    ensures TypeOf(v) != Chartype(ToLower(c)) || Chartype(ToLower(c)) == VoidType
  {
  }

  lemma CastedHasType(v: Data, c: char, fmt: Formats)
    requires Acceptable(v, c)
    ensures HasType(Casted(v, c, fmt), c)
  {
    TypeLetters(TypeOf(v));
  }

  predicate Accepted(sig: Signature, args: seq<Data>, args1: seq<Data>, fmt: Formats) {
    |args1| == |args| && |Letters(sig)| <= |args|
    && (forall j :: 0 <= j < |args| ==>
          args1[j] == if j < |Letters(sig)| then Casted(args[j], Letters(sig)[j], fmt) else args[j])
    && (forall j :: 0 <= j < |Letters(sig)| ==> HasType(args1[j], Letters(sig)[j]))
  }

  // The check passes exactly when there are enough arguments and each is acceptable; then every
  // one has the type of its letter, was cast only if it did not answer it, and all others are
  // as they were.
  lemma CheckAccepts(sig: Signature, args: seq<Data>, fmt: Formats)
    requires Callable(sig, args)
    ensures Check(sig, args, fmt).1 <==>
              |args| < sig.args || exists j :: 0 <= j < |Letters(sig)| && !Acceptable(args[j], Letters(sig)[j])
    ensures !Check(sig, args, fmt).1 ==> Accepted(sig, args, Check(sig, args, fmt).0, fmt)
  {
    if |args| >= sig.args {
      var letters := Letters(sig);
      CheckFromAccepts(letters, args, 0, false, fmt);
      forall j | 0 <= j < |letters| && Acceptable(args[j], letters[j])
        ensures HasType(Casted(args[j], letters[j], fmt), letters[j])
      {
        CastedHasType(args[j], letters[j], fmt);
      }
    }
  }

  // A call gives a result of the declared type, or leaves an exception or the exit pending.
  lemma ResultIsTyped(sig: Signature, args: seq<Data>, target: Target, fmt: Formats)
    requires Callable(sig, args)
    ensures var o := Called(sig, args, target, fmt);
            o.raised || o.exited || HasType(o.result, sig.rettype)
  {
    var (checked, died) := Check(sig, args, fmt);
    if !died { TypeLetters(TypeOf(target(checked).result)); }
  }

  // The letters of prototypes.
  lemma LetterLaws()
    ensures Typechar(VoidType) == 'v' && Typechar(BoolType) == 'b' && Typechar(IntType) == 'i'
    ensures Typechar(FloatType) == 'f' && Typechar(StrType) == 's' && Typechar(ArrType) == 'a'
    ensures Typechar(StructType) == 'c' && Typechar(FnType) == 'p' && Typechar(ResType) == 'r'
    ensures ToLower('I') == 'i' && ToLower('i') == 'i' && IsLower('i') && !IsLower('I') && !IsLower('?')
  {
  }

  // A call that is accepted is its target's own outcome on the checked arguments, but for a result
  // of another type: that ends the program when the type is required, and is cast when it is
  // forced.
  lemma CallGivesResult(sig: Signature, args: seq<Data>, target: Target, fmt: Formats)
    requires Callable(sig, args)
    ensures Check(sig, args, fmt).1 ==> Called(sig, args, target, fmt) == Outcome(Void, false, true)
    ensures !Check(sig, args, fmt).1 ==>
              var (o, raw, c) := (Called(sig, args, target, fmt), target(Check(sig, args, fmt).0), sig.rettype);
              && (raw.raised || raw.exited || c == '?' || Typechar(TypeOf(raw.result)) == ToLower(c) ==> o == raw)
              && (!raw.raised && !raw.exited && c != '?' && Typechar(TypeOf(raw.result)) != ToLower(c) ==>
                    if IsLower(c) || c == 'P' then o == raw.(exited := true)
                    else o == raw.(result := Cast(raw.result, Chartype(ToLower(c)), fmt).0,
                                   exited := Chartype(ToLower(c)) == ResType))
  {
  }

  // With arguments of the declared types, the target runs on them as they are.
  lemma {:induction false} TypedArgumentsPass(letters: string, args: seq<Data>, i: nat, died: bool, fmt: Formats)
    requires |letters| <= |args| && forall j :: i <= j < |letters| ==> Answers(args[j], letters[j])
    ensures CheckFrom(letters, args, i, died, fmt) == (args, died)
    decreases |letters| - i
  {
    if i < |letters| { TypedArgumentsPass(letters, args, i + 1, died, fmt); }
  }

  lemma TypedCallIsTarget(sig: Signature, args: seq<Data>, target: Target, fmt: Formats)
    requires |args| >= sig.args && |Letters(sig)| <= |args|
    requires forall j :: 0 <= j < |Letters(sig)| ==> Answers(args[j], Letters(sig)[j])
    requires Answers(target(args).result, sig.rettype)
    ensures Called(sig, args, target, fmt) == target(args)
  {
    TypedArgumentsPass(Letters(sig), args, 0, false, fmt);
  }

  // ---- the calls as they run ----

  class Caller {
    var exceptFlag: bool
    var exitFlag: bool
    // What targets have been run on.
    var runs: seq<seq<Data>>

    constructor ()
      ensures !exceptFlag && !exitFlag && runs == []
    {
      exceptFlag, exitFlag, runs := false, false, [];
    }

    method CallCheck(sig: Signature, argv: array<Data>, fmt: Formats)
      requires Callable(sig, argv[..])
      modifies argv, this`exitFlag
      ensures var (args, died) := Check(sig, old(argv[..]), fmt);
              argv[..] == args && exitFlag == (old(exitFlag) || died)
    {
      if argv.Length < sig.args {
        exitFlag := true;
        return;
      }
      if sig.args == 0 && sig.proto.None? { return; }
      var arg := Letters(sig);
      ghost var flag := exitFlag;
      ghost var died := false;
      var i := 0;
      while i < |arg|
        invariant 0 <= i <= |arg| <= argv.Length
        invariant exitFlag == (flag || died)
        invariant CheckFrom(arg, argv[..], i, died, fmt) == CheckFrom(arg, old(argv[..]), 0, false, fmt)
      {
        if arg[i] != '?' && Typechar(TypeOf(argv[i])) != ToLower(arg[i]) {
          if IsLower(arg[i]) {
            exitFlag := true;
            return;
          }
          ghost var before := argv[..];
          var (v, fatal) := Cast(argv[i], Chartype(ToLower(arg[i])), fmt);
          argv[i] := v;
          exitFlag := exitFlag || fatal;
          died := died || fatal;
          assert argv[..] == before[i := v];
        }
        i := i + 1;
      }
    }

    // With nothing pending, the target runs once, on arguments that have the types of their
    // letters, or it does not run and the exit is pending; with something pending it does not
    // run either.
    method CallFunction(sig: Signature, argv: array<Data>, target: Target, fmt: Formats) returns (result: Data)
      requires Callable(sig, argv[..])
      modifies argv, this
      ensures old(exceptFlag) || old(exitFlag) ==>
                result == Void && exceptFlag == old(exceptFlag) && exitFlag == old(exitFlag)
                && runs == old(runs) && argv[..] == old(argv[..])
      ensures !old(exceptFlag) && !old(exitFlag) ==>
                Outcome(result, exceptFlag, exitFlag) == Called(sig, old(argv[..]), target, fmt)
      ensures runs == old(runs)
              || (runs == old(runs) + [argv[..]]
                  && forall j :: 0 <= j < |Letters(sig)| <= argv.Length ==> HasType(argv[j], Letters(sig)[j]))
      ensures exceptFlag || exitFlag || HasType(result, sig.rettype)
    {
      ghost var args := argv[..];
      if !exceptFlag && !exitFlag {
        CheckAccepts(sig, args, fmt);
        ResultIsTyped(sig, args, target, fmt);
        CallCheck(sig, argv, fmt);
      }
      if !exceptFlag && !exitFlag {
        runs := runs + [argv[..]];
        var o := target(argv[..]);
        result, exceptFlag, exitFlag := o.result, o.raised, o.exited;
      } else {
        result := Void;
      }
      var rettype := if exceptFlag || exitFlag then '?' else sig.rettype;
      if rettype != '?' && Typechar(TypeOf(result)) != ToLower(rettype) {
        if IsLower(rettype) || rettype == 'P' {
          exitFlag := true;
        } else {
          var (v, fatal) := Cast(result, Chartype(ToLower(rettype)), fmt);
          result, exitFlag := v, fatal;
        }
      }
    }
  }
}
