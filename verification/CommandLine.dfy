/** Windows command lines: the quoting of arguments, and the rules by which the C runtime of the
    started process splits them again. */
module CommandLine {
  function Slashes(n: nat): string {
    seq(n, _ => '\\')
  }

  lemma SlashesAdd(m: nat, n: nat)
    ensures Slashes(m) + Slashes(n) == Slashes(m + n)
  {}

  // ---------------------------------------------------------------- quoting

  predicate Special(c: char) {
    c == ' ' || c == '\t' || c == '\n' || c == 11 as char || c == '"'
  }

  predicate Plain(argument: string) {
    argument != "" && forall c <- argument :: !Special(c)
  }

  /** The quoted text of an argument after `pending` backslashes that are not written yet. */
  function Body(argument: string, pending: nat): string {
    if argument == "" then Slashes(2 * pending)
    else if argument[0] == '\\' then Body(argument[1..], pending + 1)
    else if argument[0] == '"' then Slashes(2 * pending + 1) + "\"" + Body(argument[1..], 0)
    else Slashes(pending) + [argument[0]] + Body(argument[1..], 0)
  }

  function Quoted(argument: string): string {
    if Plain(argument) then argument else "\"" + Body(argument, 0) + "\""
  }

  function Joined(arguments: seq<string>): string {
    if arguments == [] then ""
    else if |arguments| == 1 then Quoted(arguments[0])
    else Quoted(arguments[0]) + " " + Joined(arguments[1..])
  }

  method Quote(argument: string) returns (result: string)
    ensures result == Quoted(argument)
  {
    if argument != "" && forall c <- argument :: !Special(c) {
      return argument;
    }
    result := "\"";
    var slashes := 0;
    for i := 0 to |argument|
      invariant result + Body(argument[i..], slashes) == "\"" + Body(argument, 0)
    {
      var c := argument[i];
      assert argument[i..][0] == c && argument[i..][1..] == argument[i + 1..];
      if c == '\\' {
        slashes := slashes + 1;
      } else if c == '"' {
        result := result + Slashes(slashes * 2 + 1);
        result := result + [c];
        slashes := 0;
      } else {
        result := result + Slashes(slashes);
        slashes := 0;
        result := result + [c];
      }
    }
    result := result + Slashes(slashes * 2);
    result := result + "\"";
  }

  method Join(arguments: seq<string>) returns (line: string)
    ensures line == Joined(arguments)
  {
    line := "";
    for i := 0 to |arguments|
      invariant line == Joined(arguments[..i])
    {
      assert arguments[..i + 1] == arguments[..i] + [arguments[i]];
      JoinedAppends(arguments[..i], arguments[i]);
      if line != "" {
        line := line + " ";
      }
      var quoted := Quote(arguments[i]);
      line := line + quoted;
    }
    assert arguments[..|arguments|] == arguments;
  }

  /** No argument is quoted to nothing, so a space goes before every argument but the first. */
  lemma {:induction false} JoinedAppends(arguments: seq<string>, last: string)
    ensures Joined(arguments + [last]) == (if arguments == [] then "" else Joined(arguments) + " ") + Quoted(last)
    ensures arguments != [] ==> Joined(arguments) != ""
  {
    if |arguments| > 0 {
      assert (arguments + [last])[1..] == arguments[1..] + [last];
      JoinedAppends(arguments[1..], last);
    }
  }

  // ---------------------------------------------------------------- splitting

  predicate Blank(c: char) {
    c == ' ' || c == '\t'
  }

  /** The arguments in `s` after the text `current` of an argument that may have begun and
      `slashes` backslashes whose meaning depends on what follows.  A doubled quote inside
      quotes is a literal one for the runtimes that say so. */
  function Split(s: string, current: string, begun: bool, inside: bool, slashes: nat, doubled: bool): seq<string>
    decreases |s|
  {
    if s == "" then
      if begun then [current + Slashes(slashes)] else []
    else if s[0] == '\\' then Split(s[1..], current, true, inside, slashes + 1, doubled)
    else if s[0] == '"' then
      var text := current + Slashes(slashes / 2);
      if slashes % 2 == 1 then Split(s[1..], text + "\"", true, inside, 0, doubled)
      else if doubled && inside && |s| > 1 && s[1] == '"' then Split(s[2..], text + "\"", true, true, 0, doubled)
      else Split(s[1..], text, true, !inside, 0, doubled)
    else if Blank(s[0]) && !inside then
      (if begun then [current + Slashes(slashes)] else []) + Split(s[1..], "", false, false, 0, doubled)
    else Split(s[1..], current + Slashes(slashes) + [s[0]], true, inside, 0, doubled)
  }

  function Arguments(s: string, doubled: bool): seq<string> {
    Split(s, "", false, false, 0, doubled)
  }

  /** What follows the program name: for it a quote only toggles, and a backslash is a character. */
  function AfterProgram(s: string, inside: bool): string {
    if s == "" then ""
    else if s[0] == '"' then AfterProgram(s[1..], !inside)
    else if Blank(s[0]) && !inside then s[1..]
    else AfterProgram(s[1..], inside)
  }

  /** What the started process is handed of a line: the line is passed as text that ends at a NUL. */
  function Delivered(line: string): string {
    if line == "" || line[0] == '\0' then "" else [line[0]] + Delivered(line[1..])
  }

  lemma {:induction false} DeliveredWhole(front: string, back: string)
    requires '\0' !in front
    ensures Delivered(front + back) == front + Delivered(back)
  {
    if front == "" {
      assert front + back == back;
    } else {
      assert (front + back)[0] == front[0] && (front + back)[1..] == front[1..] + back;
      DeliveredWhole(front[1..], back);
    }
  }

  lemma {:induction false} DeliveredCut(front: string, back: string)
    requires '\0' in front
    ensures Delivered(front + back) == Delivered(front)
  {
    assert (front + back)[0] == front[0] && (front + back)[1..] == front[1..] + back;
    if front[0] != '\0' {
      DeliveredCut(front[1..], back);
    }
  }

  lemma {:induction false} DeliveredIsFree(s: string)
    ensures '\0' !in Delivered(s) && (forall c <- Delivered(s) :: c in s)
    ensures '\0' in s ==> Delivered(s) != s
    ensures '\0' !in s ==> Delivered(s) == s
  {
    if s != "" && s[0] != '\0' {
      DeliveredIsFree(s[1..]);
      assert s == [s[0]] + s[1..];
    }
  }

  // ---------------------------------------------------------------- the round trip

  /** An argument ends where the line ends or a blank follows. */
  predicate Ends(tail: string) {
    tail == "" || Blank(tail[0])
  }

  function Then(argument: string, tail: string, doubled: bool): seq<string> {
    [argument] + if tail == "" then [] else Arguments(tail[1..], doubled)
  }

  lemma {:induction false} SplitSlashes(n: nat, s: string, current: string, begun: bool, inside: bool, slashes: nat,
                                        doubled: bool)
    ensures Split(Slashes(n) + s, current, begun, inside, slashes, doubled)
         == Split(s, current, begun || n > 0, inside, slashes + n, doubled)
  {
    if n == 0 {
      assert Slashes(0) + s == s;
    } else {
      assert (Slashes(n) + s)[0] == '\\' && (Slashes(n) + s)[1..] == Slashes(n - 1) + s;
      SplitSlashes(n - 1, s, current, true, inside, slashes + 1, doubled);
    }
  }

  lemma {:induction false} SplitPlain(argument: string, tail: string, current: string, begun: bool, slashes: nat,
                                      doubled: bool)
    requires (forall c <- argument :: !Special(c)) && Ends(tail) && (begun || argument != "")
    ensures Split(argument + tail, current, begun, false, slashes, doubled)
         == Then(current + Slashes(slashes) + argument, tail, doubled)
    decreases |argument|
  {
    if argument == "" {
      assert argument + tail == tail && current + Slashes(slashes) + "" == current + Slashes(slashes);
    } else {
      var rest := argument[1..];
      assert argument[0] in argument && !Special(argument[0]);
      assert (argument + tail)[0] == argument[0] && (argument + tail)[1..] == rest + tail;
      if argument[0] == '\\' {
        SplitPlain(rest, tail, current, true, slashes + 1, doubled);
        SlashesAdd(slashes, 1);
        assert current + Slashes(slashes + 1) + rest == current + Slashes(slashes) + argument;
      } else {
        SplitPlain(rest, tail, current + Slashes(slashes) + [argument[0]], true, 0, doubled);
        assert current + Slashes(slashes) + [argument[0]] + Slashes(0) + rest == current + Slashes(slashes) + argument;
      }
    }
  }

  /** A run of backslashes before a literal quote or before any other character is read as it was meant. */
  lemma SplitOne(argument: string, pending: nat, more: string, current: string, doubled: bool)
    requires argument != "" && argument[0] != '\\'
    ensures var slashes := if argument[0] == '"' then 2 * pending + 1 else pending;
      Split(Slashes(slashes) + ([argument[0]] + more), current, true, true, 0, doubled)
      == Split(more, current + Slashes(pending) + [argument[0]], true, true, 0, doubled)
  {
    var slashes := if argument[0] == '"' then 2 * pending + 1 else pending;
    SplitSlashes(slashes, [argument[0]] + more, current, true, true, 0, doubled);
    assert ([argument[0]] + more)[1..] == more;
  }

  lemma {:induction false} SplitBody(argument: string, pending: nat, tail: string, current: string, doubled: bool)
    requires Ends(tail)
    ensures Split(Body(argument, pending) + "\"" + tail, current, true, true, 0, doubled)
         == Then(current + Slashes(pending) + argument, tail, doubled)
    decreases |argument|
  {
    if argument == "" {
      assert Body(argument, pending) + "\"" + tail == Slashes(2 * pending) + ("\"" + tail);
      SplitSlashes(2 * pending, "\"" + tail, current, true, true, 0, doubled);
      assert ("\"" + tail)[1..] == tail;
      assert current + Slashes(pending) + Slashes(0) == current + Slashes(pending) + argument;
    } else if argument[0] == '\\' {
      hide Split, Then;
      var rest := argument[1..];
      SplitBody(rest, pending + 1, tail, current, doubled);
      SlashesAdd(pending, 1);
      assert current + Slashes(pending + 1) + rest == current + Slashes(pending) + argument;
    } else {
      hide Split, Then;
      var rest := argument[1..];
      var more := Body(rest, 0) + "\"" + tail;
      var slashes := if argument[0] == '"' then 2 * pending + 1 else pending;
      assert Body(argument, pending) + "\"" + tail == Slashes(slashes) + ([argument[0]] + more);
      SplitOne(argument, pending, more, current, doubled);
      var read := current + Slashes(pending) + [argument[0]];
      SplitBody(rest, 0, tail, read, doubled);
      assert read + Slashes(0) + rest == current + Slashes(pending) + argument;
    }
  }

  lemma SplitQuoted(argument: string, tail: string, doubled: bool)
    requires Ends(tail)
    ensures Arguments(Quoted(argument) + tail, doubled) == Then(argument, tail, doubled)
  {
    if Plain(argument) {
      SplitPlain(argument, tail, "", false, 0, doubled);
      assert "" + Slashes(0) + argument == argument;
    } else {
      var body := Body(argument, 0) + "\"" + tail;
      assert Quoted(argument) + tail == "\"" + body && ("\"" + body)[1..] == body;
      SplitBody(argument, 0, tail, "", doubled);
      assert "" + Slashes(0) + argument == argument && "" + Slashes(0) == "";
    }
  }

  /** Quoting neither adds nor removes NUL characters. */
  lemma {:induction false} BodyKeepsNul(argument: string, pending: nat)
    ensures '\0' in Body(argument, pending) <==> '\0' in argument
    decreases |argument|
  {
    if argument != "" {
      BodyKeepsNul(argument[1..], if argument[0] == '\\' then pending + 1 else 0);
      assert argument == [argument[0]] + argument[1..];
    }
  }

  lemma QuotedKeepsNul(argument: string)
    ensures '\0' in Quoted(argument) <==> '\0' in argument
  {
    BodyKeepsNul(argument, 0);
  }

  lemma SplitOpen(pending: nat, current: string, doubled: bool)
    ensures Split(Slashes(pending), current, true, true, 0, doubled) == [current + Slashes(pending)]
  {
    SplitSlashes(pending, "", current, true, true, 0, doubled);
    assert Slashes(pending) + "" == Slashes(pending);
  }

  lemma NothingDelivered(s: string)
    requires s != "" && s[0] == '\0'
    ensures Delivered(s) == ""
  {
  }

  lemma BodyStep(argument: string, pending: nat)
    requires argument != ""
    ensures var rest, c := argument[1..], argument[0];
      Body(argument, pending)
      == if c == '\\' then Body(rest, pending + 1)
         else Slashes(if c == '"' then 2 * pending + 1 else pending) + ([c] + Body(rest, 0))
    ensures Delivered(argument) == if argument[0] == '\0' then "" else [argument[0]] + Delivered(argument[1..])
  {
  }

  /** A quoted argument that is cut inside is read up to the cut. */
  lemma {:induction false} SplitCutBody(argument: string, pending: nat, current: string, doubled: bool)
    requires '\0' in argument
    ensures Split(Delivered(Body(argument, pending)), current, true, true, 0, doubled)
         == [current + Slashes(pending) + Delivered(argument)]
    decreases |argument|
  {
    hide Split, Body, Delivered;
    var rest, c := argument[1..], argument[0];
    BodyStep(argument, pending);
    if c == '\\' {
      SplitCutBody(rest, pending + 1, current, doubled);
      SlashesAdd(pending, 1);
      assert current + Slashes(pending + 1) + Delivered(rest) == current + Slashes(pending) + ([c] + Delivered(rest));
    } else {
      hide Slashes;
      var slashes := if c == '"' then 2 * pending + 1 else pending;
      SlashesAreFree(slashes);
      DeliveredWhole(Slashes(slashes), [c] + Body(rest, 0));
      if c == '\0' {
        NothingDelivered([c] + Body(rest, 0));
        SplitOpen(pending, current, doubled);
        assert Slashes(slashes) + "" == Slashes(slashes);
        assert current + Slashes(pending) + "" == current + Slashes(pending);
      } else {
        DeliveredWhole([c], Body(rest, 0));
        var read := current + Slashes(pending) + [c];
        SplitOne(argument, pending, Delivered(Body(rest, 0)), current, doubled);
        SplitCutBody(rest, 0, read, doubled);
        NoSlashes();
        assert read + "" + Delivered(rest) == current + Slashes(pending) + ([c] + Delivered(rest));
      }
    }
  }

  lemma NoSlashes()
    ensures Slashes(0) == ""
  {
  }

  lemma SlashesAreFree(n: nat)
    ensures '\0' !in Slashes(n)
  {
  }

  /** What becomes of arguments on their way: everything before the first NUL.  An argument that begins with
      it is still there, and empty, when it was quoted. */
  function Kept(arguments: seq<string>): seq<string> {
    if arguments == [] then []
    else if '\0' !in arguments[0] then [arguments[0]] + Kept(arguments[1..])
    else if Delivered(arguments[0]) == "" && Plain(arguments[0]) then []
    else [Delivered(arguments[0])]
  }

  lemma CutArgument(argument: string, tail: string, doubled: bool)
    requires '\0' in argument
    ensures Arguments(Delivered(Quoted(argument) + tail), doubled) == Kept([argument])
  {
    QuotedKeepsNul(argument);
    DeliveredCut(Quoted(argument), tail);
    DeliveredIsFree(argument);
    var text := Delivered(argument);
    if Plain(argument) {
      if text != "" {
        SplitPlain(text, "", "", false, 0, doubled);
        assert text + "" == text && "" + Slashes(0) + text == text;
      }
    } else {
      var body := Body(argument, 0);
      DeliveredWhole("\"", body + "\"");
      BodyKeepsNul(argument, 0);
      DeliveredCut(body, "\"");
      assert Quoted(argument) == "\"" + (body + "\"");
      assert ("\"" + Delivered(body))[1..] == Delivered(body);
      SplitCutBody(argument, 0, "", doubled);
      assert "" + Slashes(0) == "" && "" + Slashes(0) + text == text;
    }
  }

  /** What the splitting finds of a joined line, for all arguments. */
  lemma {:induction false} SplitKept(arguments: seq<string>, doubled: bool)
    ensures Arguments(Delivered(Joined(arguments)), doubled) == Kept(arguments)
  {
    if arguments != [] {
      var first, rest := arguments[0], arguments[1..];
      var tail := if rest == [] then "" else " " + Joined(rest);
      assert Joined(arguments) == Quoted(first) + tail;
      if '\0' in first {
        CutArgument(first, tail, doubled);
      } else {
        QuotedKeepsNul(first);
        DeliveredWhole(Quoted(first), tail);
        SplitQuoted(first, Delivered(tail), doubled);
        SplitKept(rest, doubled);
        if rest != [] {
          DeliveredWhole(" ", Joined(rest));
          assert Delivered(tail)[1..] == Delivered(Joined(rest));
        }
      }
    }
  }

  predicate NulFree(arguments: seq<string>) {
    forall a <- arguments :: '\0' !in a
  }

  lemma {:induction false} KeptExactly(arguments: seq<string>)
    ensures Kept(arguments) == arguments <==> NulFree(arguments)
  {
    if arguments != [] {
      KeptExactly(arguments[1..]);
      DeliveredIsFree(arguments[0]);
      assert arguments == [arguments[0]] + arguments[1..];
    }
  }

  /** Splitting the joined line gives back every argument exactly when none contains a NUL. */
  lemma SplitJoined(arguments: seq<string>, doubled: bool)
    ensures Arguments(Delivered(Joined(arguments)), doubled) == arguments <==> NulFree(arguments)
  {
    SplitKept(arguments, doubled);
    KeptExactly(arguments);
  }

  // ---------------------------------------------------------------- the program name

  /** The name can be read back: its own quotes are balanced, and no blank falls outside them. */
  predicate Contained(program: string, inside: bool) {
    if program == "" then inside
    else if program[0] == '"' then Contained(program[1..], !inside)
    else !(Blank(program[0]) && !inside) && Contained(program[1..], inside)
  }

  /** A blank of the name falls outside its own quotes. */
  predicate Leaks(program: string, inside: bool) {
    program != "" &&
    if program[0] == '"' then Leaks(program[1..], !inside)
    else (Blank(program[0]) && !inside) || Leaks(program[1..], inside)
  }

  lemma {:induction false} SkipSlashes(n: nat, s: string, inside: bool)
    ensures AfterProgram(Slashes(n) + s, inside) == AfterProgram(s, inside)
  {
    if n == 0 {
      assert Slashes(0) + s == s;
    } else {
      assert (Slashes(n) + s)[0] == '\\' && (Slashes(n) + s)[1..] == Slashes(n - 1) + s;
      SkipSlashes(n - 1, s, inside);
    }
  }

  /** Scanning the quoted name ends where it ends, or leaks a quote, or swallows what follows. */
  lemma {:induction false} SkipBody(program: string, pending: nat, tail: string, inside: bool)
    ensures var after := AfterProgram(Body(program, pending) + "\"" + tail, inside);
      if Contained(program, inside) then after == AfterProgram(tail, false)
      else if Leaks(program, inside) then exists leak: string :: after == leak + "\"" + tail
      else after == AfterProgram(tail, true)
    decreases |program|
  {
    var s := Body(program, pending) + "\"" + tail;
    if program == "" {
      assert s == Slashes(2 * pending) + ("\"" + tail);
      SkipSlashes(2 * pending, "\"" + tail, inside);
      assert ("\"" + tail)[1..] == tail;
    } else {
      var rest, c := program[1..], program[0];
      if c == '\\' {
        SkipBody(rest, pending + 1, tail, inside);
      } else {
        var n := if c == '"' then 2 * pending + 1 else pending;
        var more := Body(rest, 0) + "\"" + tail;
        assert s == Slashes(n) + ([c] + more);
        SkipSlashes(n, [c] + more, inside);
        assert ([c] + more)[1..] == more;
        SkipBody(rest, 0, tail, if c == '"' then !inside else inside);
      }
    }
  }

  /** An unescaped quote always leaves an argument behind. */
  lemma {:induction false} BegunIsNotNothing(s: string, current: string, begun: bool, inside: bool, slashes: nat,
                                             doubled: bool)
    requires begun || '"' in s
    ensures Split(s, current, begun, inside, slashes, doubled) != []
    decreases |s|
  {
    if s != "" && !(Blank(s[0]) && !inside && begun) {
      if s[0] == '"' && slashes % 2 == 0 && doubled && inside && |s| > 1 && s[1] == '"' {
        BegunIsNotNothing(s[2..], current + Slashes(slashes / 2) + "\"", true, true, 0, doubled);
      } else if s[0] == '"' {
        var text := current + Slashes(slashes / 2);
        BegunIsNotNothing(s[1..], if slashes % 2 == 1 then text + "\"" else text, true,
                          if slashes % 2 == 1 then inside else !inside, 0, doubled);
      } else if s[0] == '\\' {
        BegunIsNotNothing(s[1..], current, true, inside, slashes + 1, doubled);
      } else if Blank(s[0]) && !inside {
        BegunIsNotNothing(s[1..], "", false, false, 0, doubled);
      } else {
        BegunIsNotNothing(s[1..], current + Slashes(slashes) + [s[0]], true, inside, 0, doubled);
      }
    }
  }

  /** The arguments the started process finds after its name. */
  function ArgumentsOf(line: string, doubled: bool): seq<string> {
    Arguments(AfterProgram(Delivered(line), false), doubled)
  }

  lemma {:induction false} PlainIsContained(program: string, tail: string)
    requires forall c <- program :: !Special(c)
    ensures Contained(program, true) && AfterProgram(program + tail, false) == AfterProgram(tail, false)
    decreases |program|
  {
    if program == "" {
      assert program + tail == tail;
    } else {
      assert program[0] in program && (program + tail)[0] == program[0] && (program + tail)[1..] == program[1..] + tail;
      PlainIsContained(program[1..], tail);
    }
  }

  lemma JoinedSplits(program: string, arguments: seq<string>)
    ensures Joined([program] + arguments)
         == Quoted(program) + if arguments == [] then "" else " " + Joined(arguments)
  {
    assert ([program] + arguments)[1..] == arguments;
  }

  /** The started process gets all lists of arguments without a NUL exactly when the program name has none
      either and is contained; a name without quotes always is. */
  lemma CommandLineRoundTrips(program: string, doubled: bool)
    ensures Contained(program, true) && '\0' !in program <==>
      forall arguments: seq<string> | NulFree(arguments) ::
        ArgumentsOf(Joined([program] + arguments), doubled) == arguments
    ensures '"' !in program ==> Contained(program, true)
  {
    if '\0' in program {
      CutProgramFails(program, doubled);
    } else if Contained(program, true) {
      forall arguments: seq<string> | NulFree(arguments)
        ensures ArgumentsOf(Joined([program] + arguments), doubled) == arguments
      {
        ContainedRoundTrips(program, arguments, doubled);
      }
    } else {
      UncontainedFails(program, doubled);
    }
    if '"' !in program {
      QuoteFreeIsContained(program);
    }
  }

  lemma {:induction false} QuoteFreeIsContained(program: string)
    requires '"' !in program
    ensures Contained(program, true)
  {
    if program != "" {
      QuoteFreeIsContained(program[1..]);
    }
  }

  lemma AfterQuoted(program: string, tail: string)
    requires Contained(program, true)
    ensures AfterProgram(Quoted(program) + tail, false) == AfterProgram(tail, false)
  {
    if Plain(program) {
      PlainIsContained(program, tail);
    } else {
      var body := Body(program, 0) + "\"" + tail;
      assert Quoted(program) + tail == "\"" + body && ("\"" + body)[1..] == body;
      SkipBody(program, 0, tail, true);
    }
  }

  /** Behind a contained name, what arrives of the arguments, and that it is everything exactly when no
      argument contains a NUL. */
  lemma ContainedRoundTrips(program: string, arguments: seq<string>, doubled: bool)
    requires Contained(program, true) && '\0' !in program
    ensures ArgumentsOf(Joined([program] + arguments), doubled) == Kept(arguments)
    ensures ArgumentsOf(Joined([program] + arguments), doubled) == arguments <==> NulFree(arguments)
  {
    JoinedSplits(program, arguments);
    SplitKept(arguments, doubled);
    KeptExactly(arguments);
    QuotedKeepsNul(program);
    var tail := if arguments == [] then "" else " " + Joined(arguments);
    DeliveredWhole(Quoted(program), tail);
    AfterQuoted(program, Delivered(tail));
    if arguments != [] {
      DeliveredWhole(" ", Joined(arguments));
      assert Delivered(tail)[1..] == Delivered(Joined(arguments));
    }
  }

  /** A frontend argument that passes the worker's filter and loses its end and all that follows. */
  lemma EmbeddedNulLosesArguments(doubled: bool)
    ensures ArgumentsOf(Joined(["extractor", "-DX=a\0b", "c"]), doubled) == ["-DX=a"]
  {
    hide Joined, ArgumentsOf, Plain, Contained, Delivered, NulFree;
    var program, cut, rest := "extractor", "-DX=a\0b", ["c"];
    assert ["extractor", "-DX=a\0b", "c"] == [program] + ([cut] + rest);
    QuoteFreeIsContained(program);
    ContainedRoundTrips(program, [cut] + rest, doubled);
    assert cut[5] == '\0' && cut == "-DX=a" + "\0b";
    DeliveredWhole("-DX=a", "\0b");
    NothingDelivered("\0b");
    assert Delivered(cut) == "-DX=a";
    assert ([cut] + rest)[0] == cut;
  }

  /** A list that an uncontained name keeps from being read back. */
  function Lost(program: string): seq<string> {
    if Leaks(program, true) then [] else ["a"]
  }

  lemma UncontainedMisread(program: string, doubled: bool)
    requires !Contained(program, true)
    ensures Arguments(AfterProgram(Joined([program] + Lost(program)), false), doubled) != Lost(program)
  {
    if Plain(program) {
      PlainIsContained(program, "");
    }
    var arguments := Lost(program);
    var tail := if Leaks(program, true) then "" else " a";
    JoinedSplits(program, arguments);
    assert Joined(["a"]) == "a";
    var body := Body(program, 0) + "\"" + tail;
    assert Joined([program] + arguments) == "\"" + body && ("\"" + body)[1..] == body;
    SkipBody(program, 0, tail, true);
    if Leaks(program, true) {
      BegunIsNotNothing(AfterProgram(body, true), "", false, false, 0, doubled);
    } else {
      assert tail[1..] == "a" && "a"[1..] == "" && AfterProgram(tail, true) == "";
    }
  }

  lemma UncontainedFails(program: string, doubled: bool)
    requires !Contained(program, true) && '\0' !in program
    ensures exists arguments: seq<string> ::
      NulFree(arguments) && ArgumentsOf(Joined([program] + arguments), doubled) != arguments
  {
    var line := Joined([program] + Lost(program));
    QuotedKeepsNul(program);
    JoinedSplits(program, Lost(program));
    assert Joined(["a"]) == "a";
    DeliveredIsFree(line);
    UncontainedMisread(program, doubled);
    assert NulFree(Lost(program)) && ArgumentsOf(line, doubled) != Lost(program);
  }

  /** Behind a name with a NUL, all argument lists arrive as the same one. */
  lemma CutProgramFails(program: string, doubled: bool)
    requires '\0' in program
    ensures exists arguments: seq<string> ::
      NulFree(arguments) && ArgumentsOf(Joined([program] + arguments), doubled) != arguments
  {
    QuotedKeepsNul(program);
    var none, one: seq<string> := [], ["a"];
    JoinedSplits(program, none);
    JoinedSplits(program, one);
    DeliveredCut(Quoted(program), "");
    DeliveredCut(Quoted(program), " " + Joined(one));
    assert ArgumentsOf(Joined([program] + none), doubled) == ArgumentsOf(Joined([program] + one), doubled);
    assert NulFree(none) && NulFree(one);
  }
}
