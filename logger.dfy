/** The SDK debug logger adapter, `awsLogger.Log` (aws/config.go). */
module AwsLogger {

  /** An argument handed to the logger: a Go `string`, or a value of any other dynamic type. */
  datatype Arg = Str(s: string) | Other

  const Prefix := "[DEBUG] [aws-sdk-go] "

  /** The string-typed arguments, in their original order. */
  function StringArgs(args: seq<Arg>): seq<string> {
    if args == [] then []
    else StringArgs(args[..|args| - 1]) + (match args[|args| - 1] case Str(s) => [s] case Other => [])
  }

  /** `strings.Join`: the tokens with `sep` between neighbours. */
  function Join(tokens: seq<string>, sep: string): string {
    if tokens == [] then ""
    else if |tokens| == 1 then tokens[0]
    else tokens[0] + sep + Join(tokens[1..], sep)
  }

  /** `strings.Split` on a one-character separator: the maximal separator-free pieces. */
  function Split(line: string, sep: char): (pieces: seq<string>)
    ensures |pieces| > 0
  {
    if line == [] then [""]
    else
      var rest := Split(line[1..], sep);
      if line[0] == sep then [""] + rest
      else [[line[0]] + rest[0]] + rest[1..]
  }

  /**
   * `awsLogger.Log`: keeps the string arguments, drops the others, and
   * returns the line it hands to the standard logger.
   */
  method Log(args: seq<Arg>) returns (line: string)
    ensures line == Prefix + Join(StringArgs(args), " ")
  {
    var tokens: seq<string> := [];
    for i := 0 to |args|
      invariant tokens == StringArgs(args[..i])
    {
      assert args[..i + 1][..i] == args[..i];
      match args[i]
      case Str(token) =>
        tokens := tokens + [token];
      case Other =>
    }
    assert args[..|args|] == args;
    line := Prefix + Join(tokens, " ");
  }

  /** Filtering distributes over concatenation: order is kept across any split of the arguments. */
  lemma {:induction false} StringArgsConcat(a: seq<Arg>, b: seq<Arg>)
    ensures StringArgs(a + b) == StringArgs(a) + StringArgs(b)
    decreases |b|
  {
    if b == [] {
      assert a + b == a;
    } else {
      var b' := b[..|b| - 1];
      assert (a + b)[..|a + b| - 1] == a + b';
      StringArgsConcat(a, b');
    }
  }

  /** Exactly the string arguments are kept. */
  lemma {:induction false} StringArgsMembers(args: seq<Arg>, s: string)
    ensures s in StringArgs(args) <==> Str(s) in args
  {
    if args != [] {
      var init := args[..|args| - 1];
      StringArgsMembers(init, s);
      assert args == init + [args[|args| - 1]];
      assert Str(s) in args <==> Str(s) in init || args[|args| - 1] == Str(s);
    }
  }

  /** No non-string argument is kept: the kept count is the number of string arguments. */
  lemma {:induction false} StringArgsLength(args: seq<Arg>)
    ensures |StringArgs(args)| <= |args|
    ensures |StringArgs(args)| == |args| <==> forall i :: 0 <= i < |args| ==> args[i].Str?
  {
    if args != [] {
      var init := args[..|args| - 1];
      StringArgsLength(init);
      assert forall i :: 0 <= i < |init| ==> init[i] == args[i];
    }
  }

  /** A separator-free piece followed by the separator splits off as one piece. */
  lemma {:induction false} SplitPiece(t: string, sep: char, rest: string)
    requires sep !in t
    ensures Split(t + [sep] + rest, sep) == [t] + Split(rest, sep)
    ensures Split(t, sep) == [t]
    decreases |t|
  {
    if t == [] {
      assert t + [sep] + rest == [sep] + rest;
      assert ([sep] + rest)[1..] == rest;
    } else {
      SplitPiece(t[1..], sep, rest);
      assert (t + [sep] + rest)[1..] == t[1..] + [sep] + rest;
      assert [t[0]] + t[1..] == t;
    }
  }

  /**
   * Splitting a log payload on the separator recovers the tokens, provided
   * there is at least one and none contains the separator.
   */
  lemma {:induction false} SplitJoin(tokens: seq<string>, sep: char)
    requires tokens != []
    requires forall i :: 0 <= i < |tokens| ==> sep !in tokens[i]
    ensures Split(Join(tokens, [sep]), sep) == tokens
  {
    if |tokens| == 1 {
      SplitPiece(tokens[0], sep, []);
    } else {
      SplitJoin(tokens[1..], sep);
      SplitPiece(tokens[0], sep, Join(tokens[1..], [sep]));
      assert [tokens[0]] + tokens[1..] == tokens;
    }
  }

  /**
   * The payload after the prefix gives back exactly the string arguments,
   * in order, when there is one and none contains a space.
   */
  lemma LogPayloadRecoversStrings(args: seq<Arg>, k: nat)
    requires k < |args| && args[k].Str?
    requires forall i :: 0 <= i < |args| && args[i].Str? ==> ' ' !in args[i].s
    ensures Split(Join(StringArgs(args), " "), ' ') == StringArgs(args)
  {
    var kept := StringArgs(args);
    StringArgsMembers(args, args[k].s);
    forall i | 0 <= i < |kept|
      ensures ' ' !in kept[i]
    {
      StringArgsMembers(args, kept[i]);
    }
    SplitJoin(kept, ' ');
  }
}
