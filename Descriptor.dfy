/**
 * The field synthesiser `get_cwl_inputs` of cwlgenerator.py: one optional
 * string input of the descriptor, bound to `--<name>` at the next position,
 * with a default line only when the generic defaults join to a non-empty
 * string.
 */
module Descriptor {
  import opened Wrappers
  import opened Strings
  import opened Defaults

  /**
   * What `details_of` returns for one parameter: the text of each child
   * element of the detail document by tag (None for an element without
   * text), and the resolved default lists.
   */
  datatype Parameter = Parameter(details: map<string, Option<string>>, defaults: Buckets)

  /** The text block of one input and the position written into it. */
  datatype Field = Field(text: string, position: int)

  /** The `KeyError` raised when a detail the block needs is missing. */
  datatype Error = KeyError(key: string)

  /** `'%s' % t` for the text of an element: an element without text prints as "None". */
  function Show(t: Option<string>): string {
    match t
    case Some(s) => s
    case None => "None"
  }

  /** The lines of the block, each written followed by a line feed. */
  function FieldLines(name: string, labelText: string, docText: string, position: int, defaultText: string): seq<string> {
    [ "  " + name + ":",
      "    type: string?",
      "    label: " + labelText,
      "    doc: \"" + docText + "\"",
      "    inputBinding:",
      "      prefix: --" + name,
      "      position: " + IntToString(position)
    ]
    + (if defaultText != "" then ["    default: \"" + defaultText + "\""] else [])
  }

  /**
   * `get_cwl_inputs(name, parameter, position)`: the position is incremented
   * first, the label and the documentation are the `name` and `description`
   * details written as they are, and the default is the generic list joined
   * with commas.
   */
  function CwlInput(name: string, parameter: Parameter, position: int): (r: Result<Field, Error>)
    ensures r.Success? <==> "name" in parameter.details && "description" in parameter.details
    ensures r.Failure? ==> r.error == KeyError(if "name" !in parameter.details then "name" else "description")
    ensures r.Success? ==> r.value.position == position + 1
  {
    var next := position + 1;
    if "name" !in parameter.details then Failure(KeyError("name"))
    else if "description" !in parameter.details then Failure(KeyError("description"))
    else
      var labelText := Show(parameter.details["name"]);
      var docText := Show(parameter.details["description"]);
      var defaultText := Join(",", parameter.defaults.generic);
      Success(Field(Unlines(FieldLines(name, labelText, docText, next, defaultText)), next))
  }

  /** A line of the block carries the `default` key. */
  predicate IsDefaultLine(line: string) {
    IsPrefix("    default:", line)
  }

  /** Some line of the block carries the `default` key. */
  predicate HasDefaultKey(lines: seq<string>) {
    exists k :: 0 <= k < |lines| && IsDefaultLine(lines[k])
  }

  /** Only the name line can look like a `default` line among the seven fixed lines. */
  lemma FixedLinesHaveNoDefault(name: string, labelText: string, docText: string, position: int)
    requires !IsDefaultLine("  " + name + ":")
    ensures var lines := FieldLines(name, labelText, docText, position, "");
      forall k :: 0 <= k < |lines| ==> !IsDefaultLine(lines[k])
  {
    var lines := FieldLines(name, labelText, docText, position, "");
    assert lines[1][4] == 't' && lines[2][4] == 'l' && lines[3][5] == 'o';
    assert lines[4][4] == 'i' && lines[5][4] == ' ' && lines[6][4] == ' ';
  }

  lemma FieldLinesOneLineEach(name: string, labelText: string, docText: string, position: int, defaultText: string)
    requires NoNewline(name) && NoNewline(labelText) && NoNewline(docText) && NoNewline(defaultText)
    ensures var lines := FieldLines(name, labelText, docText, position, defaultText);
      forall k :: 0 <= k < |lines| ==> NoNewline(lines[k])
  {
    IntRoundTrip(position);
    var s := IntToString(position);
    assert forall i :: 0 <= i < |s| ==> IsDigit(s[i]) || s[i] == '-';
  }

  /**
   * A non-empty joined default always gives the block a `default` line; an
   * empty one gives it none, unless the name line itself reads as one (a
   * name starting with `"  default:"` or equal to `"  default"`).
   */
  lemma DefaultKeyIffDefault(name: string, labelText: string, docText: string, position: int, defaultText: string)
    ensures var lines := FieldLines(name, labelText, docText, position, defaultText);
      defaultText != "" ==> HasDefaultKey(lines)
    ensures var lines := FieldLines(name, labelText, docText, position, defaultText);
      !IsDefaultLine("  " + name + ":") ==> (HasDefaultKey(lines) <==> defaultText != "")
  {
    var lines := FieldLines(name, labelText, docText, position, defaultText);
    if defaultText != "" {
      assert IsDefaultLine(lines[7]);
    } else if !IsDefaultLine("  " + name + ":") {
      var fixed := FieldLines(name, labelText, docText, position, "");
      FixedLinesHaveNoDefault(name, labelText, docText, position);
      assert lines == fixed;
      assert forall k :: 0 <= k < |lines| ==> !IsDefaultLine(lines[k]);
    }
  }

  /**
   * Reading the block back line by line gives the lines it was written
   * from: the name, the fixed nullable string type, the label and the
   * documentation as given, the binding `--<name>`, the position it
   * returns, and a `default` key for a non-empty comma-joined generic list
   * (and, unless the name line reads as one, only then).
   */
  lemma CwlInputReadBack(name: string, parameter: Parameter, position: int)
    requires "name" in parameter.details && "description" in parameter.details
    requires var labelText := Show(parameter.details["name"]);
      var docText := Show(parameter.details["description"]);
      NoNewline(name) && NoNewline(labelText) && NoNewline(docText)
      && NoNewline(Join(",", parameter.defaults.generic))
    ensures var field := CwlInput(name, parameter, position).value;
      var lines := SplitLines(field.text);
      var defaultText := Join(",", parameter.defaults.generic);
      |lines| == (if defaultText != "" then 9 else 8)
      && lines[0] == "  " + name + ":"
      && lines[1] == "    type: string?"
      && lines[2] == "    label: " + Show(parameter.details["name"])
      && lines[3] == "    doc: \"" + Show(parameter.details["description"]) + "\""
      && lines[4] == "    inputBinding:"
      && lines[5] == "      prefix: --" + name
      && lines[6] == "      position: " + IntToString(field.position)
      && (defaultText != "" ==> HasDefaultKey(lines) && lines[7] == "    default: \"" + defaultText + "\"")
      && (!IsDefaultLine("  " + name + ":") ==> (HasDefaultKey(lines) <==> defaultText != ""))
  {
    var labelText := Show(parameter.details["name"]);
    var docText := Show(parameter.details["description"]);
    var defaultText := Join(",", parameter.defaults.generic);
    var lines := FieldLines(name, labelText, docText, position + 1, defaultText);
    FieldLinesOneLineEach(name, labelText, docText, position + 1, defaultText);
    SplitUnlines(lines);
    DefaultKeyIffDefault(name, labelText, docText, position + 1, defaultText);
    EmptyTailNoDefault(lines);
  }

  /** The empty tail that splitting adds after the last line feed is not a `default` line. */
  lemma EmptyTailNoDefault(lines: seq<string>)
    ensures HasDefaultKey(lines + [""]) <==> HasDefaultKey(lines)
  {
    if HasDefaultKey(lines + [""]) {
      var k :| 0 <= k < |lines + [""]| && IsDefaultLine((lines + [""])[k]);
      assert k < |lines| && lines[k] == (lines + [""])[k];
    }
    if HasDefaultKey(lines) {
      var k :| 0 <= k < |lines| && IsDefaultLine(lines[k]);
      assert (lines + [""])[k] == lines[k];
    }
  }

  /** The number after `position: ` reads back as the position returned. */
  lemma CwlInputPosition(name: string, parameter: Parameter, position: int)
    requires "name" in parameter.details && "description" in parameter.details
    ensures var field := CwlInput(name, parameter, position).value;
      var digits := IntToString(position + 1);
      (IsDecimal(digits) || (|digits| >= 2 && digits[0] == '-' && IsDecimal(digits[1..])))
      && ParseInt(digits) == field.position
      && ("      position: " + digits) in FieldLines(name, Show(parameter.details["name"]),
           Show(parameter.details["description"]), field.position, Join(",", parameter.defaults.generic))
  {
    IntRoundTrip(position + 1);
  }
}
