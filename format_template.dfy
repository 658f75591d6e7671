/** The path-template translator shared by StringExt (Application) and
    StringEx (CommandLine): a four-state character machine that rewrites
    named placeholders `{Name,align:fmt}` into .NET composite-format
    placeholders `{i,align:fmt}` and collects the names, each distinct name
    getting the index of its first appearance.

    This module is the specification: one step of the machine, the fold of
    steps over a string, and the properties of both.  The two loop methods
    that implement it live in the modules StringExt and StringEx. */
module FormatTemplate {
  import opened Wrappers
  import opened Decimal

  datatype ParseState = Outside | OpenBracket | ItemName | ItemAlignmentOrFormat

  /** The loop's variables: the state, the two string builders and the
      list of item names. */
  datatype Machine = Machine(state: ParseState, format: string, tagName: string, itemNames: seq<string>)

  datatype TranslateError =
    | ArgumentError(message: string, paramName: string)
    | FormatError(message: string)

  const NullOrWhiteSpaceError := ArgumentError("'formatString' cannot be null or whitespace.", "formatString")
  const EmptyItemNameError := FormatError("Cannot have an empty item name")

  const Initial := Machine(Outside, "", "", [])

  /** char.IsWhiteSpace: the Unicode space, line and paragraph separators,
      U+0009 to U+000D and U+0085. */
  predicate IsWhiteSpace(c: char)
  {
    var n := c as int;
    n == 0x20 || 0x09 <= n <= 0x0D || n == 0x85 || n == 0xA0 || n == 0x1680
    || 0x2000 <= n <= 0x200A || n == 0x2028 || n == 0x2029 || n == 0x202F
    || n == 0x205F || n == 0x3000
  }

  /** string.IsNullOrWhiteSpace; a null string is `None`. */
  predicate IsNullOrWhiteSpace(s: Option<string>)
  {
    s.None? || forall i :: 0 <= i < |s.value| ==> IsWhiteSpace(s.value[i])
  }

  predicate NoDuplicates(names: seq<string>)
  {
    forall i, j :: 0 <= i < j < |names| ==> names[i] != names[j]
  }

  /** List.IndexOf: the first index holding `name`, or -1. */
  function IndexOf(names: seq<string>, name: string): (r: int)
    ensures -1 <= r < |names|
    ensures r == -1 <==> name !in names
    ensures r >= 0 ==> names[r] == name && forall j :: 0 <= j < r ==> names[j] != name
  {
    if names == [] then -1
    else if names[0] == name then 0
    else
      var i := IndexOf(names[1..], name);
      if i == -1 then -1 else i + 1
  }

  /** GetIndexFor: the index of a known name, or the new last index after
      appending an unknown one. */
  function GetIndexFor(itemNames: seq<string>, itemName: string): (r: (nat, seq<string>))
    ensures r.0 < |r.1| && r.1[r.0] == itemName
    ensures itemName in itemNames ==> r.1 == itemNames && forall j :: 0 <= j < r.0 ==> itemNames[j] != itemName
    ensures itemName !in itemNames ==> r.1 == itemNames + [itemName]
    ensures NoDuplicates(itemNames) ==> NoDuplicates(r.1)
  {
    var existing := IndexOf(itemNames, itemName);
    if existing == -1 then (|itemNames|, itemNames + [itemName]) else (existing, itemNames)
  }

  predicate IsSeparator(c: char)
  {
    c == '}' || c == ',' || c == ':'
  }

  /** One iteration of the loop. */
  function Step(m: Machine, c: char): (r: Result<Machine, TranslateError>)
    ensures r.Failure? <==> m.state == OpenBracket && IsSeparator(c)
    ensures r.Failure? ==> r.error == EmptyItemNameError
    ensures r.Success? ==> m.itemNames <= r.value.itemNames && |r.value.itemNames| <= |m.itemNames| + 1
    ensures r.Success? && NoDuplicates(m.itemNames) ==> NoDuplicates(r.value.itemNames)
    ensures r.Success? ==> m.format <= r.value.format
  {
    match m.state
    case Outside =>
      Success(m.(format := m.format + [c], state := if c == '{' then OpenBracket else Outside))
    case OpenBracket =>
      if c == '{' then Success(m.(format := m.format + [c], state := Outside))
      else if IsSeparator(c) then Failure(EmptyItemNameError)
      else Success(m.(tagName := m.tagName + [c], state := ItemName))
    case ItemName =>
      if IsSeparator(c) then
        var (index, names) := GetIndexFor(m.itemNames, m.tagName);
        Success(Machine(if c == '}' then Outside else ItemAlignmentOrFormat, m.format + NatToString(index) + [c], "", names))
      else Success(m.(tagName := m.tagName + [c]))
    case ItemAlignmentOrFormat =>
      Success(m.(format := m.format + [c], state := if c == '}' then Outside else ItemAlignmentOrFormat))
  }

  /** The loop run over the characters of s, stopping at the first error. */
  function Run(m: Machine, s: string): (r: Result<Machine, TranslateError>)
    ensures r.Failure? ==> r.error == EmptyItemNameError
    ensures r.Success? ==> m.itemNames <= r.value.itemNames && m.format <= r.value.format
    ensures r.Success? && NoDuplicates(m.itemNames) ==> NoDuplicates(r.value.itemNames)
    decreases |s|
  {
    if s == [] then Success(m)
    else match Step(m, s[0])
      case Failure(e) => Failure(e)
      case Success(m') => Run(m', s[1..])
  }

  /** TranslateToStandardFormatString: the composite format string and the
      item names, or the exception the source throws. */
  function TranslateToStandardFormatString(formatString: Option<string>): (r: Result<(string, seq<string>), TranslateError>)
    ensures r.Failure? ==> r.error == NullOrWhiteSpaceError || r.error == EmptyItemNameError
    ensures r.Success? ==> NoDuplicates(r.value.1)
  {
    if IsNullOrWhiteSpace(formatString) then Failure(NullOrWhiteSpaceError)
    else match Run(Initial, formatString.value)
      case Failure(e) => Failure(e)
      case Success(m) => Success((m.format, m.itemNames))
  }

  // ----- Properties ------------------------------------------------------

  /** Running over a concatenation runs over each part in turn. */
  lemma {:induction false} RunAppend(m: Machine, a: string, b: string)
    ensures Run(m, a + b) == match Run(m, a) case Failure(e) => Failure(e) case Success(m') => Run(m', b)
    decreases |a|
  {
    if a == [] {
      assert a + b == b;
    } else {
      assert (a + b)[0] == a[0];
      assert (a + b)[1..] == a[1..] + b;
      match Step(m, a[0])
      case Failure(_) =>
      case Success(m') => RunAppend(m', a[1..], b);
    }
  }

  /** The ArgumentException is thrown exactly for a null or whitespace-only
      format string; the character loop never throws it. */
  lemma NullOrWhiteSpaceRejected(formatString: Option<string>)
    ensures TranslateToStandardFormatString(formatString) == Failure(NullOrWhiteSpaceError)
        <==> IsNullOrWhiteSpace(formatString)
  {
  }

  /** `{` followed directly by `}`, `,` or `:` outside a placeholder throws
      the FormatException, whatever follows. */
  lemma {:induction false} EmptyItemNameRejected(m: Machine, c: char, rest: string)
    requires m.state == Outside && IsSeparator(c)
    ensures Run(m, ['{', c] + rest) == Failure(EmptyItemNameError)
  {
    assert (['{', c] + rest)[0] == '{';
    assert (['{', c] + rest)[1..] == [c] + rest;
    assert ([c] + rest)[0] == c;
  }

  /** The same, for a whole format string: a template reaching `{` outside
      a placeholder and then a separator is rejected. */
  lemma {:induction false} TemplateWithEmptyItemNameRejected(prefix: string, c: char, rest: string)
    requires Run(Initial, prefix).Success? && Run(Initial, prefix).value.state == Outside
    requires IsSeparator(c)
    ensures TranslateToStandardFormatString(Some(prefix + ['{', c] + rest)) == Failure(EmptyItemNameError)
  {
    var s := prefix + ['{', c] + rest;
    assert s == prefix + (['{', c] + rest);
    assert s[|prefix|] == '{';
    assert !IsWhiteSpace(s[|prefix|]);
    RunAppend(Initial, prefix, ['{', c] + rest);
    EmptyItemNameRejected(Run(Initial, prefix).value, c, rest);
  }

  /** `{{` outside a placeholder is copied through and records no item. */
  lemma {:induction false} EscapedBraceCopied(m: Machine)
    requires m.state == Outside
    ensures Run(m, "{{") == Success(m.(format := m.format + "{{"))
  {
    assert "{{"[1..] == "{";
    assert "{"[1..] == "";
    assert m.format + ['{'] + ['{'] == m.format + "{{";
  }

  /** Closing a name (with `}`, `,` or `:`) emits the index of that name in
      the updated item names, followed by the closing character. */
  lemma ClosingEmitsIndex(m: Machine, c: char)
    requires m.state == ItemName && IsSeparator(c)
    ensures Step(m, c).Success?
    ensures var m' := Step(m, c).value;
            exists i: nat :: i < |m'.itemNames| && m'.itemNames[i] == m.tagName
                             && m'.format == m.format + NatToString(i) + [c]
                             && (m.tagName in m.itemNames ==> m'.itemNames == m.itemNames)
                             && (m.tagName !in m.itemNames ==> m'.itemNames == m.itemNames + [m.tagName])
  {
    var (i, names) := GetIndexFor(m.itemNames, m.tagName);
    assert Step(m, c).value.format == m.format + NatToString(i) + [c];
  }

  /** Text without `{` outside a placeholder is copied verbatim. */
  lemma {:induction false} PlainTextCopied(m: Machine, s: string)
    requires m.state == Outside
    requires forall i :: 0 <= i < |s| ==> s[i] != '{'
    ensures Run(m, s) == Success(m.(format := m.format + s))
    decreases |s|
  {
    if s != [] {
      PlainTextCopied(m.(format := m.format + [s[0]]), s[1..]);
      assert m.format + [s[0]] + s[1..] == m.format + s;
    } else {
      assert m.format + s == m.format;
    }
  }

  /** A template with no `{` (and not all whitespace) translates to itself
      with no item names. */
  lemma NoPlaceholdersIsIdentity(s: string)
    requires !IsNullOrWhiteSpace(Some(s))
    requires forall i :: 0 <= i < |s| ==> s[i] != '{'
    ensures TranslateToStandardFormatString(Some(s)) == Success((s, []))
  {
    PlainTextCopied(Initial, s);
    assert Initial.format + s == s;
  }

  /** Alignment and format text after `,` or `:` is copied verbatim up to
      the closing `}`. */
  lemma {:induction false} AlignmentOrFormatCopied(m: Machine, s: string)
    requires m.state == ItemAlignmentOrFormat
    requires forall i :: 0 <= i < |s| ==> s[i] != '}'
    ensures Run(m, s) == Success(m.(format := m.format + s))
    decreases |s|
  {
    if s != [] {
      AlignmentOrFormatCopied(m.(format := m.format + [s[0]]), s[1..]);
      assert m.format + [s[0]] + s[1..] == m.format + s;
    } else {
      assert m.format + s == m.format;
    }
  }

  /** Name characters accumulate in the tag builder and nothing is emitted. */
  lemma {:induction false} NameAccumulates(m: Machine, name: string)
    requires m.state == ItemName
    requires forall i :: 0 <= i < |name| ==> !IsSeparator(name[i])
    ensures Run(m, name) == Success(m.(tagName := m.tagName + name))
    decreases |name|
  {
    if name != [] {
      NameAccumulates(m.(tagName := m.tagName + [name[0]]), name[1..]);
      assert m.tagName + [name[0]] + name[1..] == m.tagName + name;
    } else {
      assert m.tagName + name == m.tagName;
    }
  }

  /** An unterminated trailing `{Name` keeps the `{` but drops the partial
      name, which never reaches the item names. */
  lemma UnterminatedNameDropped(m: Machine, name: string)
    requires m.state == Outside
    requires name != [] && name[0] != '{'
    requires forall i :: 0 <= i < |name| ==> !IsSeparator(name[i])
    ensures Run(m, ['{'] + name).Success?
    ensures Run(m, ['{'] + name).value.format == m.format + "{"
    ensures Run(m, ['{'] + name).value.itemNames == m.itemNames
  {
    var m1 := m.(format := m.format + "{", state := OpenBracket);
    RunAppend(m, ['{'], name);
    assert Run(m, ['{']) == Success(m1) by {
      assert ['{'][1..] == [];
    }
    var m2 := m1.(tagName := m1.tagName + [name[0]], state := ItemName);
    assert Run(m1, name) == Run(m2, name[1..]);
    NameAccumulates(m2, name[1..]);
  }

  /** A whole placeholder name `{Name` closed by a separator, from outside
      a placeholder: the name is looked up or appended and its index
      emitted. */
  lemma {:induction false} PlaceholderRun(m: Machine, name: string, c: char)
    requires m.state == Outside && m.tagName == ""
    requires name != [] && name[0] != '{'
    requires forall i :: 0 <= i < |name| ==> !IsSeparator(name[i])
    requires IsSeparator(c)
    ensures var (index, names) := GetIndexFor(m.itemNames, name);
            Run(m, ['{'] + name + [c])
              == Success(Machine(if c == '}' then Outside else ItemAlignmentOrFormat,
                                 m.format + ['{'] + NatToString(index) + [c], "", names))
  {
    var m1 := Machine(ItemName, m.format + "{", name, m.itemNames);
    assert Run(m, ['{'] + name) == Success(m1) by {
      var m2 := m.(format := m.format + "{", state := OpenBracket).(tagName := [name[0]], state := ItemName);
      RunAppend(m, ['{'], name);
      assert ['{'][1..] == [];
      assert m.tagName + [name[0]] == [name[0]];
      assert Run(m.(format := m.format + "{", state := OpenBracket), name) == Run(m2, name[1..]);
      assert Run(m, ['{']) == Success(m.(format := m.format + "{", state := OpenBracket));
      NameAccumulates(m2, name[1..]);
      assert [name[0]] + name[1..] == name;
    }
    RunAppend(m, ['{'] + name, [c]);
    assert [c][1..] == [];
    assert m.format + "{" == m.format + ['{'];
  }

  lemma HappyPathFirstItem(item: string, number: string)
    requires item == "{Number}" && number == "Number"
    ensures Run(Initial, item) == Success(Machine(Outside, "{0}", "", [number]))
  {
    assert item == ['{'] + number + ['}'];
    PlaceholderRun(Initial, number, '}');
    var none: seq<string> := [];
    assert none + [number] == [number];
    assert "" + ['{'] + NatToString(0) + ['}'] == "{0}";
  }

  /** Two runs in a row make one run over the concatenation. */
  lemma RunTwo(m0: Machine, a: string, b: string, m1: Machine, m2: Machine)
    requires Run(m0, a) == Success(m1) && Run(m1, b) == Success(m2)
    ensures Run(m0, a + b) == Success(m2)
  {
    RunAppend(m0, a, b);
  }

  /** Three runs in a row make one run over the concatenation. */
  lemma RunThree(m0: Machine, a: string, b: string, c: string, m1: Machine, m2: Machine, m3: Machine)
    requires Run(m0, a) == Success(m1) && Run(m1, b) == Success(m2) && Run(m2, c) == Success(m3)
    ensures Run(m0, a + b + c) == Success(m3)
  {
    RunAppend(m0, a + b, c);
    RunAppend(m0, a, b);
  }

  lemma HappyPathSecondPlaceholder(item: string, number: string, date: string)
    requires item == " {Date:" && number == "Number" && date == "Date"
    ensures Run(Machine(Outside, "{0}", "", [number]), item)
         == Success(Machine(ItemAlignmentOrFormat, "{0} {1:", "", [number, date]))
  {
    var m1 := Machine(Outside, "{0}", "", [number]);
    var space :| space == " ";
    var placeholder := ['{'] + date + [':'];
    assert item == space + placeholder;
    PlainTextCopied(m1, space);
    var m2 := m1.(format := "{0} ");
    assert m1.format + space == "{0} ";
    PlaceholderRun(m2, date, ':');
    assert number != date by {
      assert |number| != |date|;
    }
    assert date !in [number];
    assert [number] + [date] == [number, date];
    assert "{0} " + ['{'] + NatToString(1) + [':'] == "{0} {1:";
    RunAppend(m1, space, placeholder);
  }

  /** The date format text holds no `}` before the closing one. */
  lemma SecondFormatPieces(item: string, yyyyMM: string, close: string)
    requires item == "yyyyMM}" && yyyyMM == "yyyyMM" && close == "}"
    ensures item == yyyyMM + close && close[1..] == []
    ensures forall i :: 0 <= i < |yyyyMM| ==> yyyyMM[i] != '}'
    ensures "{0} {1:" + yyyyMM + close == "{0} {1:yyyyMM}"
  {
  }

  lemma HappyPathSecondFormat(item: string, number: string, date: string)
    requires item == "yyyyMM}" && number == "Number" && date == "Date"
    ensures Run(Machine(ItemAlignmentOrFormat, "{0} {1:", "", [number, date]), item)
         == Success(Machine(Outside, "{0} {1:yyyyMM}", "", [number, date]))
  {
    var m3 := Machine(ItemAlignmentOrFormat, "{0} {1:", "", [number, date]);
    var yyyyMM :| yyyyMM == "yyyyMM";
    var close :| close == "}";
    SecondFormatPieces(item, yyyyMM, close);
    RunAppend(m3, yyyyMM, close);
    AlignmentOrFormatCopied(m3, yyyyMM);
  }

  lemma HappyPathThirdItem(item: string, number: string, date: string)
    requires item == "-{Number:x}" && number == "Number" && date == "Date"
    ensures Run(Machine(Outside, "{0} {1:yyyyMM}", "", [number, date]), item)
         == Success(Machine(Outside, "{0} {1:yyyyMM}-{0:x}", "", [number, date]))
  {
    var m4 := Machine(Outside, "{0} {1:yyyyMM}", "", [number, date]);
    var dash :| dash == "-";
    var formatText :| formatText == "x}";
    var placeholder := ['{'] + number + [':'];
    assert item == dash + placeholder + formatText;
    PlainTextCopied(m4, dash);
    var m5 := m4.(format := "{0} {1:yyyyMM}-");
    assert m4.format + dash == "{0} {1:yyyyMM}-";
    PlaceholderRun(m5, number, ':');
    assert GetIndexFor([number, date], number) == (0, [number, date]);
    var m6 := Machine(ItemAlignmentOrFormat, "{0} {1:yyyyMM}-{0:", "", [number, date]);
    assert "{0} {1:yyyyMM}-" + ['{'] + NatToString(0) + [':'] == "{0} {1:yyyyMM}-{0:";
    assert formatText[0] == 'x' && formatText[1..] == "}";
    assert "}"[1..] == [];
    assert "{0} {1:yyyyMM}-{0:" + "x" + "}" == "{0} {1:yyyyMM}-{0:x}";
    RunAppend(m4, dash, placeholder);
    RunAppend(m4, dash + placeholder, formatText);
  }

  lemma HappyPathSecondItem(item: string, number: string, date: string)
    requires item == " {Date:yyyyMM}" && number == "Number" && date == "Date"
    ensures Run(Machine(Outside, "{0}", "", [number]), item)
         == Success(Machine(Outside, "{0} {1:yyyyMM}", "", [number, date]))
  {
    var placeholder :| placeholder == " {Date:";
    var format :| format == "yyyyMM}";
    assert item == placeholder + format;
    HappyPathSecondPlaceholder(placeholder, number, date);
    HappyPathSecondFormat(format, number, date);
    RunTwo(Machine(Outside, "{0}", "", [number]), placeholder, format,
           Machine(ItemAlignmentOrFormat, "{0} {1:", "", [number, date]), Machine(Outside, "{0} {1:yyyyMM}", "", [number, date]));
  }

  /** The test template is its three items in a row. */
  lemma HappyPathPieces(template: string, first: string, second: string, third: string)
    requires template == "{Number} {Date:yyyyMM}-{Number:x}"
    requires first == "{Number}" && second == " {Date:yyyyMM}" && third == "-{Number:x}"
    ensures template == first + second + third
  {
  }

  lemma HappyPathRun(template: string, number: string, date: string)
    requires template == "{Number} {Date:yyyyMM}-{Number:x}" && number == "Number" && date == "Date"
    ensures Run(Initial, template) == Success(Machine(Outside, "{0} {1:yyyyMM}-{0:x}", "", [number, date]))
  {
    var first :| first == "{Number}";
    var second :| second == " {Date:yyyyMM}";
    var third :| third == "-{Number:x}";
    HappyPathPieces(template, first, second, third);
    HappyPathFirstItem(first, number);
    HappyPathSecondItem(second, number, date);
    HappyPathThirdItem(third, number, date);
    RunThree(Initial, first, second, third, Machine(Outside, "{0}", "", [number]),
             Machine(Outside, "{0} {1:yyyyMM}", "", [number, date]), Machine(Outside, "{0} {1:yyyyMM}-{0:x}", "", [number, date]));
  }

  /** The unit test's template: `{Number} {Date:yyyyMM}-{Number:x}` becomes
      `{0} {1:yyyyMM}-{0:x}` with item names Number and Date; the repeated
      name reuses index 0. */
  lemma HappyPath(template: string)
    requires template == "{Number} {Date:yyyyMM}-{Number:x}"
    ensures TranslateToStandardFormatString(Some(template))
         == Success(("{0} {1:yyyyMM}-{0:x}", ["Number", "Date"]))
  {
    assert !IsWhiteSpace(template[0]);
    var number :| number == "Number";
    var date :| date == "Date";
    HappyPathRun(template, number, date);
  }
}
