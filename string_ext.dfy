/** StringExt.TranslateToStandardFormatString (Application): the character loop over
    the format string, updating the parse state, the two string builders
    and the item-name list in place, proved to compute the machine of
    FormatTemplate. */
module StringExt {
  import opened Wrappers
  import opened Decimal
  import opened FormatTemplate

  method TranslateToStandardFormatString(formatString: Option<string>) returns (r: Result<(string, seq<string>), TranslateError>)
    ensures r == FormatTemplate.TranslateToStandardFormatString(formatString)
  {
    if IsNullOrWhiteSpace(formatString) {
      return Failure(NullOrWhiteSpaceError);
    }
    var s := formatString.value;
    var stringFormatBuilder: string := "";
    var state := Outside;
    var tagNameBuilder: string := "";
    var itemNames: seq<string> := [];
    for i := 0 to |s|
      invariant Run(Machine(state, stringFormatBuilder, tagNameBuilder, itemNames), s[i..]) == Run(Initial, s)
    {
      var character := s[i];
      assert s[i..][0] == character && s[i..][1..] == s[i + 1..];
      match state {
        case Outside =>
          stringFormatBuilder := stringFormatBuilder + [character];
          if character == '{' {
            state := OpenBracket;
          }
        case OpenBracket =>
          if character == '{' {
            stringFormatBuilder := stringFormatBuilder + [character];
            state := Outside;
          } else if character == '}' || character == ',' || character == ':' {
            return Failure(EmptyItemNameError);
          } else {
            tagNameBuilder := tagNameBuilder + [character];
            state := ItemName;
          }
        case ItemName =>
          if character == ',' || character == ':' || character == '}' {
            var (index, names) := GetIndexFor(itemNames, tagNameBuilder);
            itemNames := names;
            stringFormatBuilder := stringFormatBuilder + NatToString(index) + [character];
            tagNameBuilder := "";
            state := if character == '}' then Outside else ItemAlignmentOrFormat;
          } else {
            tagNameBuilder := tagNameBuilder + [character];
          }
        case ItemAlignmentOrFormat =>
          stringFormatBuilder := stringFormatBuilder + [character];
          if character == '}' {
            state := Outside;
          }
      }
    }
    assert s[|s|..] == [];
    return Success((stringFormatBuilder, itemNames));
  }
}
