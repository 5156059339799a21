/** The PrettyPrint writer configuration of the JSON writer: an optional
    indent unit, and the writer whose formatting hooks put line breaks,
    indentation and spaces between the tokens the base JSON writer emits. */
module PrettyPrint {

  import opened JavaInt

  datatype Option<T> = None | Some(value: T)

  datatype Error = IllegalArgument(message: string)

  datatype Result<T> = Ok(value: T) | Err(error: Error)

  /** A PrettyPrint configuration: the characters written once per level of
      indentation, or None (Java's `null`) when lines are never broken. */
  datatype Config = Config(indentChars: Option<seq<char>>)

  /** `n` copies of the character `c`: what `Arrays.fill` leaves in a fresh
      array of length `n`. */
  function Fill(n: nat, c: char): (s: seq<char>)
    ensures |s| == n
    ensures forall k :: 0 <= k < n ==> s[k] == c
  {
    seq(n, _ => c)
  }

  // ---------------------------------------------------------------------
  // Factories

  /** Single-line mode: no indent unit. */
  function SingleLine(): (c: Config)
    ensures c.indentChars.None?
  {
    Config(None)
  }

  /** Indentation by `number` spaces per level; a negative count is refused
      with an illegal-argument error and no configuration is made. */
  method IndentWithSpaces(number: int32) returns (r: Result<Config>)
    ensures number < 0 <==> r.Err?
    ensures r.Err? ==> r.error == IllegalArgument("number is negative")
    ensures r.Ok? ==> r.value.indentChars.Some?
    ensures r.Ok? ==> r.value.indentChars.value == Fill(number as nat, ' ')
  {
    if number < 0 {
      return Err(IllegalArgument("number is negative"));
    }
    var chars := new char[number as int];
    var i := 0;
    while i < chars.Length
      invariant 0 <= i <= chars.Length
      invariant forall k :: 0 <= k < i ==> chars[k] == ' '
    {
      chars[i] := ' ';
      i := i + 1;
    }
    return Ok(Config(Some(chars[..])));
  }

  /** Indentation by one tab per level. */
  function IndentWithTabs(): (c: Config)
    ensures c.indentChars.Some? && |c.indentChars.value| == 1
    ensures c.indentChars.value[0] == '\t'
  {
    Config(Some(['\t']))
  }

  // ---------------------------------------------------------------------
  // The text each hook writes

  /** The number of times `writeNewLine` writes the unit at depth `indent`:
      its loop runs `indent` times, and not at all for a depth of zero or
      less; that is, the least count that is not below `indent`. */
  function Copies(indent: int32): (n: nat)
    ensures n as int >= indent as int
    ensures n == 0 || n as int == indent as int
  {
    if indent > 0 then indent as nat else 0
  }

  /** `n` copies of `unit`, one after the other. */
  function Repeat(unit: seq<char>, n: nat): (r: seq<char>)
    ensures |r| == n * |unit|
  {
    if n == 0 then [] else Repeat(unit, n - 1) + unit
  }

  /** Every character of the repetition is a character of the unit. */
  lemma {:induction false} RepeatChars(unit: seq<char>, n: nat)
    ensures forall k :: 0 <= k < |Repeat(unit, n)| ==> Repeat(unit, n)[k] in unit
  {
    if n > 0 {
      RepeatChars(unit, n - 1);
      var prev := Repeat(unit, n - 1);
      forall k | 0 <= k < |Repeat(unit, n)| ensures Repeat(unit, n)[k] in unit {
        if k < |prev| {
          assert Repeat(unit, n)[k] == prev[k];
        } else {
          assert Repeat(unit, n)[k] == unit[k - |prev|];
        }
      }
    }
  }

  /** What `writeNewLine` writes at depth `indent`: nothing without an indent
      unit, otherwise a line break followed by the unit `Copies(indent)` times. */
  function LineBreak(indentChars: Option<seq<char>>, indent: int32): (text: seq<char>)
    ensures indentChars.None? <==> text == []
  {
    match indentChars
    case None => []
    case Some(unit) => "\n" + Repeat(unit, Copies(indent))
  }

  /** With a unit, the line break is one `'\n'` and then `Copies(indent)`
      times the unit's length in characters, all drawn from the unit. */
  lemma LineBreakShape(unit: seq<char>, indent: int32)
    ensures |LineBreak(Some(unit), indent)| == 1 + Copies(indent) * |unit|
    ensures LineBreak(Some(unit), indent)[0] == '\n'
    ensures forall k :: 1 <= k < |LineBreak(Some(unit), indent)| ==> LineBreak(Some(unit), indent)[k] in unit
  {
    RepeatChars(unit, Copies(indent));
    var text := LineBreak(Some(unit), indent);
    forall k | 1 <= k < |text| ensures text[k] in unit {
      assert text[k] == Repeat(unit, Copies(indent))[k - 1];
    }
  }

  /** A unit made of one character repeated breaks the line and then writes
      that character `Copies(indent)` times per character of the unit. */
  lemma UniformLineBreak(unit: seq<char>, c: char, indent: int32)
    requires forall k :: 0 <= k < |unit| ==> unit[k] == c
    ensures LineBreak(Some(unit), indent) == "\n" + Fill(Copies(indent) * |unit|, c)
  {
    var text := LineBreak(Some(unit), indent);
    var want := "\n" + Fill(Copies(indent) * |unit|, c);
    LineBreakShape(unit, indent);
    assert |text| == |want|;
    forall k | 0 <= k < |text| ensures text[k] == want[k] {
      if k > 0 {
        assert text[k] in unit;
      }
    }
  }

  /** With the tab configuration, a line break is followed by one tab per
      level of depth. */
  lemma TabsLineBreak(indent: int32)
    ensures LineBreak(IndentWithTabs().indentChars, indent) == "\n" + Fill(Copies(indent), '\t')
  {
    UniformLineBreak(['\t'], '\t', indent);
  }

  /** With `number` spaces per level, a line break is followed by
      `number * depth` spaces. */
  lemma SpacesLineBreak(number: nat, indent: int32)
    ensures LineBreak(Some(Fill(number, ' ')), indent) == "\n" + Fill(Copies(indent) * number, ' ')
  {
    UniformLineBreak(Fill(number, ' '), ' ', indent);
  }

  /** The formatting hooks `PrettyPrintWriter` overrides. */
  datatype Hook =
    | ArrayOpen | ArrayClose | ArraySeparator
    | ObjectOpen | ObjectClose | ObjectSeparator
    | MemberSeparator
  {
    predicate IsOpen() { this == ArrayOpen || this == ObjectOpen }
    predicate IsClose() { this == ArrayClose || this == ObjectClose }
    predicate IsSeparator() { this == ArraySeparator || this == ObjectSeparator }

    /** The bracket an open or close hook writes. */
    function Bracket(): char
      requires IsOpen() || IsClose()
    {
      match this
      case ArrayOpen => '['
      case ArrayClose => ']'
      case ObjectOpen => '{'
      case ObjectClose => '}'
    }
  }

  /** The depth after the hook: opens count one up, closes one down, with
      the wrap-around of a Java `int`. */
  function NextIndent(indent: int32, hook: Hook): (r: int32)
    ensures hook.IsOpen() ==> Decrement(r) == indent
    ensures hook.IsClose() ==> Increment(r) == indent
    ensures !hook.IsOpen() && !hook.IsClose() ==> r == indent
  {
    if hook.IsOpen() then Increment(indent)
    else if hook.IsClose() then Decrement(indent)
    else indent
  }

  /** The text a hook writes when called at depth `indent`. */
  function Emit(indentChars: Option<seq<char>>, indent: int32, hook: Hook): (text: seq<char>)
    ensures |text| >= 1
  {
    match hook
    case ArrayOpen | ObjectOpen =>
      [hook.Bracket()] + LineBreak(indentChars, Increment(indent))
    case ArrayClose | ObjectClose =>
      LineBreak(indentChars, Decrement(indent)) + [hook.Bracket()]
    case ArraySeparator | ObjectSeparator =>
      if indentChars.None? then ", " else "," + LineBreak(indentChars, indent)
    case MemberSeparator =>
      ": "
  }

  /** What every hook's text looks like: opens start with their bracket,
      closes end with theirs, separators start with a comma; the member
      separator is always `": "`; without a unit the brackets and `", "` are
      written alone and no line is ever broken, with one every hook but the
      member separator breaks the line. */
  lemma EmitShape(indentChars: Option<seq<char>>, indent: int32, hook: Hook)
    ensures hook.IsOpen() ==> |Emit(indentChars, indent, hook)| >= 1 && Emit(indentChars, indent, hook)[0] == hook.Bracket()
    ensures hook.IsClose() ==>
      (|Emit(indentChars, indent, hook)| >= 1 &&
       Emit(indentChars, indent, hook)[|Emit(indentChars, indent, hook)| - 1] == hook.Bracket())
    ensures hook.IsSeparator() ==> |Emit(indentChars, indent, hook)| >= 1 && Emit(indentChars, indent, hook)[0] == ','
    ensures hook == MemberSeparator ==> Emit(indentChars, indent, hook) == ": "
    ensures indentChars.None? && hook.IsSeparator() ==> Emit(indentChars, indent, hook) == ", "
    ensures indentChars.None? && (hook.IsOpen() || hook.IsClose()) ==> Emit(indentChars, indent, hook) == [hook.Bracket()]
    ensures indentChars.None? ==> '\n' !in Emit(indentChars, indent, hook)
    ensures indentChars.Some? && hook != MemberSeparator ==> '\n' in Emit(indentChars, indent, hook)
  {
    var text := Emit(indentChars, indent, hook);
    if indentChars.Some? && hook != MemberSeparator {
      var lb := LineBreak(indentChars, NextIndent(indent, hook));
      if hook.IsOpen() {
        assert text[1] == lb[0];
      } else if hook.IsClose() {
        assert text[0] == lb[0];
      } else {
        assert text[1] == lb[0];
      }
    }
  }

  /** The array and the object separator write the same text in every
      configuration and at every depth: `", "` without a unit, otherwise a
      comma and the line break, with no space after the comma. */
  lemma SeparatorsAgree(indentChars: Option<seq<char>>, indent: int32)
    ensures Emit(indentChars, indent, ArraySeparator) == Emit(indentChars, indent, ObjectSeparator)
    ensures Emit(indentChars, indent, ArraySeparator) ==
      if indentChars.None? then ", " else "," + LineBreak(indentChars, indent)
  {
  }

  // ---------------------------------------------------------------------
  // Sequences of hook calls

  /** The depth after calling `hooks` in order, starting at `indent`. */
  function FinalIndent(indent: int32, hooks: seq<Hook>): int32
    decreases |hooks|
  {
    if hooks == [] then indent
    else FinalIndent(NextIndent(indent, hooks[0]), hooks[1..])
  }

  /** The text written by calling `hooks` in order, starting at `indent`. */
  function Output(indentChars: Option<seq<char>>, indent: int32, hooks: seq<Hook>): seq<char>
    decreases |hooks|
  {
    if hooks == [] then []
    else Emit(indentChars, indent, hooks[0]) + Output(indentChars, NextIndent(indent, hooks[0]), hooks[1..])
  }

  /** Opens minus closes among `hooks`. */
  function Net(hooks: seq<Hook>): int
    decreases |hooks|
  {
    if hooks == [] then 0
    else (if hooks[0].IsOpen() then 1 else if hooks[0].IsClose() then -1 else 0) + Net(hooks[1..])
  }

  /** The depth after a run of hooks is the starting depth plus the opens
      minus the closes, as a Java `int` computes it. */
  lemma {:induction false} FinalIndentFollowsNet(indent: int32, hooks: seq<Hook>)
    ensures FinalIndent(indent, hooks) == Wrap(indent as int + Net(hooks))
    decreases |hooks|
  {
    if hooks == [] {
      assert Wrap(indent as int) == indent;
    } else {
      var h, next := hooks[0], NextIndent(indent, hooks[0]);
      var step := if h.IsOpen() then 1 else if h.IsClose() then -1 else 0;
      FinalIndentFollowsNet(next, hooks[1..]);
      StepsWrap(indent);
      assert next == Wrap(indent as int + step);
      WrapAdd(indent as int + step, Net(hooks[1..]));
    }
  }

  /** A run with as many closes as opens, matched or not, leaves the depth
      where it was. */
  lemma BalancedRestoresIndent(indent: int32, hooks: seq<Hook>)
    requires Net(hooks) == 0
    ensures FinalIndent(indent, hooks) == indent
  {
    FinalIndentFollowsNet(indent, hooks);
  }

  /** In single-line mode no hook ever breaks a line. */
  lemma {:induction false} SingleLineNeverBreaksLines(indent: int32, hooks: seq<Hook>)
    ensures '\n' !in Output(SingleLine().indentChars, indent, hooks)
    decreases |hooks|
  {
    if hooks != [] {
      SingleLineNeverBreaksLines(NextIndent(indent, hooks[0]), hooks[1..]);
    }
  }

  /** Runs compose: what a run writes after another depends on the first
      only through the depth it leaves behind. */
  lemma {:induction false} OutputAppend(indentChars: Option<seq<char>>, indent: int32, first: seq<Hook>, second: seq<Hook>)
    ensures FinalIndent(indent, first + second) == FinalIndent(FinalIndent(indent, first), second)
    ensures Output(indentChars, indent, first + second) ==
      Output(indentChars, indent, first) + Output(indentChars, FinalIndent(indent, first), second)
    decreases |first|
  {
    if first == [] {
      assert first + second == second;
    } else {
      var next := NextIndent(indent, first[0]);
      assert (first + second)[0] == first[0];
      assert (first + second)[1..] == first[1..] + second;
      OutputAppend(indentChars, next, first[1..], second);
    }
  }

  /** One more call extends a run by exactly what that hook writes at the
      depth the run left, and moves the depth by that hook alone: the step
      that connects the per-call contracts of `PrettyPrintWriter` to the
      lemmas about runs. */
  lemma OutputSnoc(indentChars: Option<seq<char>>, indent: int32, hooks: seq<Hook>, hook: Hook)
    ensures FinalIndent(indent, hooks + [hook]) == NextIndent(FinalIndent(indent, hooks), hook)
    ensures Output(indentChars, indent, hooks + [hook]) ==
      Output(indentChars, indent, hooks) + Emit(indentChars, FinalIndent(indent, hooks), hook)
  {
    var mid := FinalIndent(indent, hooks);
    OutputAppend(indentChars, indent, hooks, [hook]);
    assert [hook][1..] == [];
    assert FinalIndent(mid, [hook]) == FinalIndent(NextIndent(mid, hook), []);
    assert Output(indentChars, mid, [hook]) == Emit(indentChars, mid, hook) + [];
  }

  /** The depth and the text of a run of two hooks. */
  lemma TwoHooks(indentChars: Option<seq<char>>, indent: int32, first: Hook, second: Hook)
    ensures FinalIndent(indent, [first, second]) == NextIndent(NextIndent(indent, first), second)
    ensures Output(indentChars, indent, [first, second]) ==
      Emit(indentChars, indent, first) + Emit(indentChars, NextIndent(indent, first), second)
  {
    var hooks, next := [first, second], NextIndent(indent, first);
    assert hooks[1..] == [second];
    assert [second][1..] == [];
    assert FinalIndent(indent, hooks) == FinalIndent(next, [second]);
    assert FinalIndent(next, [second]) == FinalIndent(NextIndent(next, second), []);
    assert Output(indentChars, next, [second]) == Emit(indentChars, next, second);
  }

  /** An open followed by its close leaves the depth unchanged. */
  lemma OpenCloseRestoresIndent(indent: int32)
    ensures FinalIndent(indent, [ArrayOpen, ArrayClose]) == indent
    ensures FinalIndent(indent, [ObjectOpen, ObjectClose]) == indent
  {
    IncrementDecrementInverse(indent);
    TwoHooks(None, indent, ArrayOpen, ArrayClose);
    TwoHooks(None, indent, ObjectOpen, ObjectClose);
  }

  /** In single-line mode an open followed by its close writes exactly the
      two brackets. */
  lemma SingleLineEmptyContainers(indent: int32)
    ensures Output(SingleLine().indentChars, indent, [ArrayOpen, ArrayClose]) == "[]"
    ensures Output(SingleLine().indentChars, indent, [ObjectOpen, ObjectClose]) == "{}"
  {
    TwoHooks(None, indent, ArrayOpen, ArrayClose);
    TwoHooks(None, indent, ObjectOpen, ObjectClose);
  }

  /** With an indent unit an empty container is written as its open
      bracket, a line break indented one level deeper, a line break at the
      starting depth and its close bracket. */
  lemma IndentedEmptyContainers(unit: seq<char>, indent: int32)
    ensures Output(Some(unit), indent, [ArrayOpen, ArrayClose]) ==
      "[" + LineBreak(Some(unit), Increment(indent)) + LineBreak(Some(unit), indent) + "]"
    ensures Output(Some(unit), indent, [ObjectOpen, ObjectClose]) ==
      "{" + LineBreak(Some(unit), Increment(indent)) + LineBreak(Some(unit), indent) + "}"
  {
    IncrementDecrementInverse(indent);
    TwoHooks(Some(unit), indent, ArrayOpen, ArrayClose);
    TwoHooks(Some(unit), indent, ObjectOpen, ObjectClose);
  }

  // ---------------------------------------------------------------------
  // The writer

  /** `PrettyPrintWriter`: the JSON writer's formatting hooks for one
      configuration. `output` is the character sink, which the hooks only
      ever append to; `indent` is the current depth. */
  class PrettyPrintWriter {
    const indentChars: Option<seq<char>>
    var indent: int32
    var output: seq<char>

    constructor (indentChars: Option<seq<char>>)
      ensures this.indentChars == indentChars
      ensures indent == 0 && output == []
    {
      this.indentChars := indentChars;
      indent := 0;
      output := [];
    }

    /** `writeNewLine`: without a unit writes nothing and answers false;
        otherwise breaks the line, indents to the current depth and answers
        true. */
    method WriteNewLine() returns (broke: bool)
      modifies this`output
      ensures broke <==> indentChars.Some?
      ensures output == old(output) + LineBreak(indentChars, indent)
    {
      if indentChars.None? {
        return false;
      }
      var unit := indentChars.value;
      output := output + "\n";
      var i := 0;
      while i < indent as int
        invariant 0 <= i <= Copies(indent)
        invariant output == old(output) + "\n" + Repeat(unit, i)
      {
        output := output + unit;
        i := i + 1;
      }
      return true;
    }

    method WriteArrayOpen()
      modifies this
      ensures indent == Increment(old(indent))
      ensures output == old(output) + "[" + LineBreak(indentChars, indent)
      ensures indent == NextIndent(old(indent), ArrayOpen)
      ensures output == old(output) + Emit(indentChars, old(indent), ArrayOpen)
    {
      ghost var before := output;
      indent := Increment(indent);
      output := output + "[";
      var _ := WriteNewLine();
      assert output == before + ("[" + LineBreak(indentChars, indent));
      assert Emit(indentChars, old(indent), ArrayOpen) == "[" + LineBreak(indentChars, indent);
    }

    method WriteArrayClose()
      modifies this
      ensures indent == Decrement(old(indent))
      ensures output == old(output) + LineBreak(indentChars, indent) + "]"
      ensures indent == NextIndent(old(indent), ArrayClose)
      ensures output == old(output) + Emit(indentChars, old(indent), ArrayClose)
    {
      ghost var before := output;
      indent := Decrement(indent);
      var _ := WriteNewLine();
      output := output + "]";
      assert output == before + (LineBreak(indentChars, indent) + "]");
      assert Emit(indentChars, old(indent), ArrayClose) == LineBreak(indentChars, indent) + "]";
    }

    method WriteArraySeparator()
      modifies this
      ensures indent == old(indent)
      ensures indentChars.None? ==> output == old(output) + ", "
      ensures indentChars.Some? ==> output == old(output) + "," + LineBreak(indentChars, indent)
      ensures output == old(output) + Emit(indentChars, old(indent), ArraySeparator)
    {
      ghost var before := output;
      output := output + ",";
      var broke := WriteNewLine();
      if !broke {
        assert output == before + [','];
        output := output + " ";
        assert output == before + ", ";
      } else {
        assert output == before + ("," + LineBreak(indentChars, indent));
      }
      SeparatorsAgree(indentChars, indent);
    }

    method WriteObjectOpen()
      modifies this
      ensures indent == Increment(old(indent))
      ensures output == old(output) + "{" + LineBreak(indentChars, indent)
      ensures indent == NextIndent(old(indent), ObjectOpen)
      ensures output == old(output) + Emit(indentChars, old(indent), ObjectOpen)
    {
      ghost var before := output;
      indent := Increment(indent);
      output := output + "{";
      var _ := WriteNewLine();
      assert output == before + ("{" + LineBreak(indentChars, indent));
      assert Emit(indentChars, old(indent), ObjectOpen) == "{" + LineBreak(indentChars, indent);
    }

    method WriteObjectClose()
      modifies this
      ensures indent == Decrement(old(indent))
      ensures output == old(output) + LineBreak(indentChars, indent) + "}"
      ensures indent == NextIndent(old(indent), ObjectClose)
      ensures output == old(output) + Emit(indentChars, old(indent), ObjectClose)
    {
      ghost var before := output;
      indent := Decrement(indent);
      var _ := WriteNewLine();
      output := output + "}";
      assert output == before + (LineBreak(indentChars, indent) + "}");
      assert Emit(indentChars, old(indent), ObjectClose) == LineBreak(indentChars, indent) + "}";
    }

    method WriteMemberSeparator()
      modifies this
      ensures indent == old(indent)
      ensures output == old(output) + ": "
      ensures output == old(output) + Emit(indentChars, old(indent), MemberSeparator)
    {
      output := output + ":";
      output := output + " ";
    }

    method WriteObjectSeparator()
      modifies this
      ensures indent == old(indent)
      ensures indentChars.None? ==> output == old(output) + ", "
      ensures indentChars.Some? ==> output == old(output) + "," + LineBreak(indentChars, indent)
      ensures output == old(output) + Emit(indentChars, old(indent), ObjectSeparator)
    {
      ghost var before := output;
      output := output + ",";
      var broke := WriteNewLine();
      if !broke {
        assert output == before + [','];
        output := output + " ";
        assert output == before + ", ";
      } else {
        assert output == before + ("," + LineBreak(indentChars, indent));
      }
      SeparatorsAgree(indentChars, indent);
    }
  }
}
