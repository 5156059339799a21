# PrettyPrint: the JSON writer's formatting hooks

This project models `PrettyPrint`, the writer configuration of icecore-json
that makes the JSON writer's output readable. A `PrettyPrint` holds one
optional indent unit. `singleLine()` has none. `indentWithSpaces(n)` uses
`n` spaces and refuses a negative `n`. `indentWithTabs()` uses one tab.

Its writer, `PrettyPrintWriter`, overrides the hooks that the base JSON
writer calls at structural boundaries: array and object open and close,
the array and object element separators, and the member (name/value)
separator. The writer keeps a depth counter `indent` and appends to a
character sink. Opens raise the depth before writing; closes lower it
first. Whenever an indent unit is configured, the hooks except the member
separator end or start with a line break followed by `indent` copies of
the unit. Without a unit the separators write `", "` and lines are never
broken. The member separator always writes `": "`.

Files:

- `java_int.dfy`, module `JavaInt`: Java's 32-bit `int` as the depth
  counter uses it. `Increment` and `Decrement` are `++` and `--` with
  their wrap-around. `Wrap` gives the 32-bit value of a mathematical
  integer.
- `pretty_print.dfy`, module `PrettyPrint`:
  - the configuration `Config` (the Java `PrettyPrint` object) and its
    three factories;
  - the text each hook writes (`LineBreak`, `Emit`) and how the depth
    moves (`NextIndent`);
  - the fold of a run of hooks (`Output`, `FinalIndent`) with lemmas
    about runs;
  - the class `PrettyPrintWriter`, whose methods append to the `output`
    field and update the `indent` field in place.

The indent unit is `Option<seq<char>>`, with `None` standing for Java's
`null` array. The sink is the `seq<char>` field `output`, which holds the
text written through this writer.

Where the code and its documentation disagree, the model follows the
code:

- The Javadoc of `singleLine` describes tab-indented, line-breaking
  output. The Javadoc of `indentWithTabs` describes single-line output.
  The code does the reverse.
  `PrettyPrint.SingleLineNeverBreaksLines` and
  `PrettyPrint.TabsLineBreak` state what the code does.
- Single-line mode is not identical to the compact base writer: its
  separators write `", "` and `": "`, with a space.
- Only a negative space count is refused. `indentWithSpaces(0)` is
  accepted; it breaks lines but does not indent them.

## Model

| member | source | states |
|---|---|---|
| `JavaInt.Wrap` | src/main/java/com/arcticicestudio/icecore/json/PrettyPrint.java:84 | the 32-bit value is congruent to the mathematical value modulo 2^32, and in-range values are kept unchanged |
| `JavaInt.WrapUnique` | src/main/java/com/arcticicestudio/icecore/json/PrettyPrint.java:84 | no two 32-bit values are congruent modulo 2^32 |
| `JavaInt.WrapAdd` | src/main/java/com/arcticicestudio/icecore/json/PrettyPrint.java:84 | wrapping an intermediate result and wrapping only the final sum give the same value |
| `JavaInt.Increment` | src/main/java/com/arcticicestudio/icecore/json/PrettyPrint.java:93 | `indent++` (also at line 115): one more, and the largest `int` steps to the smallest |
| `JavaInt.Decrement` | src/main/java/com/arcticicestudio/icecore/json/PrettyPrint.java:100 | `indent--` (also at line 122): one less, and the smallest `int` steps to the largest |
| `JavaInt.StepsWrap` | src/main/java/com/arcticicestudio/icecore/json/PrettyPrint.java:93 | `indent++` and `indent--` are the successor and predecessor, wrapped into the 32-bit range |
| `JavaInt.IncrementDecrementInverse` | src/main/java/com/arcticicestudio/icecore/json/PrettyPrint.java:93-100 | `++` then `--`, or `--` then `++`, gives back every value, including the extremes |
| `PrettyPrint.Fill` | src/main/java/com/arcticicestudio/icecore/json/PrettyPrint.java:63 | what `Arrays.fill` leaves in a fresh array: exactly `n` characters, each of them `c` |
| `PrettyPrint.SingleLine` | src/main/java/com/arcticicestudio/icecore/json/PrettyPrint.java:45-47 | single-line mode has no indent unit |
| `PrettyPrint.IndentWithSpaces` | src/main/java/com/arcticicestudio/icecore/json/PrettyPrint.java:58-65 | fails with an illegal-argument error ("number is negative") exactly when the count is negative; otherwise the unit is exactly `number` spaces, filled by a loop over a fresh array |
| `PrettyPrint.IndentWithTabs` | src/main/java/com/arcticicestudio/icecore/json/PrettyPrint.java:72-74 | the unit is the single character tab |
| `PrettyPrint.Copies` | src/main/java/com/arcticicestudio/icecore/json/PrettyPrint.java:146 | how often the loop writes the unit: `indent` times, and not at all for a depth of zero or less (the least count not below `indent`) |
| `PrettyPrint.Repeat` | src/main/java/com/arcticicestudio/icecore/json/PrettyPrint.java:146-148 | the text the loop writes, `n` copies of the unit one after the other, is `n` times the unit's length |
| `PrettyPrint.RepeatChars` | src/main/java/com/arcticicestudio/icecore/json/PrettyPrint.java:146-148 | every character written by the indent loop comes from the unit |
| `PrettyPrint.LineBreak` | src/main/java/com/arcticicestudio/icecore/json/PrettyPrint.java:141-150 | `writeNewLine`'s text is empty exactly when there is no indent unit |
| `PrettyPrint.LineBreakShape` | src/main/java/com/arcticicestudio/icecore/json/PrettyPrint.java:141-150 | with a unit the text is `'\n'` followed by characters of the unit, `1 + depth * length of the unit` characters in all, no copies for a depth of zero or less |
| `PrettyPrint.UniformLineBreak` | src/main/java/com/arcticicestudio/icecore/json/PrettyPrint.java:141-150 | a unit made of one repeated character gives a line break followed by that character `depth * length of the unit` times |
| `PrettyPrint.TabsLineBreak` | src/main/java/com/arcticicestudio/icecore/json/PrettyPrint.java:141-150 | with the tab configuration a line break is followed by exactly one tab per level |
| `PrettyPrint.SpacesLineBreak` | src/main/java/com/arcticicestudio/icecore/json/PrettyPrint.java:141-150 | with `n` spaces per level a line break is followed by exactly `n * depth` spaces |
| `PrettyPrint.NextIndent` | src/main/java/com/arcticicestudio/icecore/json/PrettyPrint.java:92-125 | the depth a hook leaves: an open's result steps back to the old depth under `--`, a close's under `++`, and separators leave the depth alone |
| `PrettyPrint.Emit` | src/main/java/com/arcticicestudio/icecore/json/PrettyPrint.java:91-139 | defines the text each hook writes at a given depth, which its contract says is never empty: the opens' bracket then the line break at the raised depth, the closes' line break at the lowered depth then the bracket, the separators' comma then `' '` or the line break, and `": "` |
| `PrettyPrint.EmitShape` | src/main/java/com/arcticicestudio/icecore/json/PrettyPrint.java:91-139 | opens start with their bracket; closes end with theirs; separators start with a comma; the member separator always writes `": "`; without a unit the hooks write the bare bracket or `", "` and never a line break; with a unit every hook except the member separator writes one |
| `PrettyPrint.SeparatorsAgree` | src/main/java/com/arcticicestudio/icecore/json/PrettyPrint.java:106-139 | the array and object separators write the same text: `", "` without a unit, otherwise `','` and the line break with no space added |
| `PrettyPrint.FinalIndentFollowsNet` | src/main/java/com/arcticicestudio/icecore/json/PrettyPrint.java:92-125 | after any run of hooks the depth is the starting depth plus the opens minus the closes, computed as a Java `int` |
| `PrettyPrint.BalancedRestoresIndent` | src/main/java/com/arcticicestudio/icecore/json/PrettyPrint.java:92-125 | a run with as many closes as opens leaves the depth where it started |
| `PrettyPrint.SingleLineNeverBreaksLines` | src/main/java/com/arcticicestudio/icecore/json/PrettyPrint.java:141-144 | in single-line mode no run of hooks ever writes a line break |
| `PrettyPrint.OutputAppend` | src/main/java/com/arcticicestudio/icecore/json/PrettyPrint.java:91-150 | what a run writes after another run depends on the earlier run only through the depth it leaves |
| `PrettyPrint.OutputSnoc` | src/main/java/com/arcticicestudio/icecore/json/PrettyPrint.java:91-150 | one more hook call extends a run by exactly that hook's text at the depth the run left, and moves the depth by that hook alone |
| `PrettyPrint.TwoHooks` | src/main/java/com/arcticicestudio/icecore/json/PrettyPrint.java:91-150 | the depth and the text of a run of two hooks are those of the first followed by those of the second |
| `PrettyPrint.OpenCloseRestoresIndent` | src/main/java/com/arcticicestudio/icecore/json/PrettyPrint.java:92-125 | an open followed by its matching close leaves the depth unchanged |
| `PrettyPrint.SingleLineEmptyContainers` | src/main/java/com/arcticicestudio/icecore/json/PrettyPrint.java:92-125 | in single-line mode an open followed by its close writes exactly `"[]"` or `"{}"` |
| `PrettyPrint.IndentedEmptyContainers` | src/main/java/com/arcticicestudio/icecore/json/PrettyPrint.java:92-125 | with a unit an open followed by its close writes the bracket, a line break one level deeper, a line break at the starting depth, and the closing bracket |
| `PrettyPrint.PrettyPrintWriter.constructor` | src/main/java/com/arcticicestudio/icecore/json/PrettyPrint.java:86-89 | a new writer keeps the configured unit and starts at depth 0 with nothing written |
| `PrettyPrint.PrettyPrintWriter.WriteNewLine` | src/main/java/com/arcticicestudio/icecore/json/PrettyPrint.java:141-150 | returns true exactly when a unit is configured; appends exactly `LineBreak` at the current depth; leaves the depth alone |
| `PrettyPrint.PrettyPrintWriter.WriteArrayOpen` | src/main/java/com/arcticicestudio/icecore/json/PrettyPrint.java:92-96 | raises the depth first, then appends `'['` and the line break at the new depth |
| `PrettyPrint.PrettyPrintWriter.WriteArrayClose` | src/main/java/com/arcticicestudio/icecore/json/PrettyPrint.java:99-103 | lowers the depth first, then appends the line break at the lowered depth and `']'` as the last character |
| `PrettyPrint.PrettyPrintWriter.WriteArraySeparator` | src/main/java/com/arcticicestudio/icecore/json/PrettyPrint.java:106-111 | appends `", "` without a unit, otherwise `','` and the line break; the depth is unchanged |
| `PrettyPrint.PrettyPrintWriter.WriteObjectOpen` | src/main/java/com/arcticicestudio/icecore/json/PrettyPrint.java:114-118 | raises the depth first, then appends `'{'` and the line break at the new depth |
| `PrettyPrint.PrettyPrintWriter.WriteObjectClose` | src/main/java/com/arcticicestudio/icecore/json/PrettyPrint.java:121-125 | lowers the depth first, then appends the line break at the lowered depth and `'}'` as the last character |
| `PrettyPrint.PrettyPrintWriter.WriteMemberSeparator` | src/main/java/com/arcticicestudio/icecore/json/PrettyPrint.java:128-131 | always appends exactly `": "` and leaves the depth unchanged |
| `PrettyPrint.PrettyPrintWriter.WriteObjectSeparator` | src/main/java/com/arcticicestudio/icecore/json/PrettyPrint.java:134-139 | appends `", "` without a unit, otherwise `','` and the line break; the depth is unchanged |

The hook methods' contracts also tie each call to `Emit` and `NextIndent`.
`PrettyPrint.OutputSnoc` states that one more call extends a run by exactly
that call's text and depth step. The lemmas about runs of hooks (`Output`,
`FinalIndent`) therefore describe what any sequence of calls on one writer
appends.

## Left out

- `createWriter` and the base classes `JsonWriter` and `WriterConfig` are not part of this model. The class's constructor takes the indent unit directly.
- The underlying `java.io.Writer` and `IOException`: the sink is an append-only `seq<char>` that starts empty, and writes never fail.
- The walk over a JSON value, string escaping and the compact hooks belong to `JsonWriter`, which is not part of this model. Runs of hooks are therefore arbitrary sequences, not only those a value tree produces.
- The parser, the lookahead reader and the document model are not part of this model.
- The `char[]` of the indent unit is a value (`seq<char>`), so the sharing of that array between a `PrettyPrint` and its writers is not modelled. The code never changes the array after creating it.
- No method loops over a sequence of hooks. The lemmas about runs are stated on `Output` and `FinalIndent`, which the hook methods' contracts connect to.
- Characters are Unicode scalar values, not Java's UTF-16 code units. A unit holding a lone surrogate, which the protected constructor `PrettyPrint(char[])` would accept, cannot be represented. The units the public factories build (spaces, a tab) are unaffected.
- IndentWithSpaces: always succeeds for a count of zero or more; the `OutOfMemoryError` that `new char[number]` can raise for a very large count is not modelled.
